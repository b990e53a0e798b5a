/** A scanner thread hands nodes to a counter thread through a ring buffer guarded by a
    mutex and two condition variables. */
module ScanBuffer {

  datatype Node = Node(inode: int, size: nat)

  // ---------- the ring ----------

  /** count slots of the ring from position read on, in order */
  function Window(slots: seq<Node>, read: int, count: int): (q: seq<Node>)
    requires 0 <= read < |slots| && 0 <= count <= |slots|
    ensures |q| == count
    ensures forall i | 0 <= i < count :: q[i] == slots[Wrap(read + i, |slots|)]
  {
    seq(count, i requires 0 <= i < count => slots[Wrap(read + i, |slots|)])
  }

  function Wrap(i: int, n: int): (r: int)
    requires 0 <= i < 2 * n
    ensures 0 <= r < n && (r == i || r == i - n)
  {
    if i < n then i else i - n
  }

  lemma WrapIsMod(i: int, n: int)
    requires 0 <= i < 2 * n
    ensures i % n == Wrap(i, n)
  {
    if i >= n {
      assert i == n * 1 + (i - n);
    }
  }

  /** Taking the first node: the window starts one slot later. */
  lemma WindowTail(slots: seq<Node>, read: int, count: int)
    requires 0 <= read < |slots| && 0 < count <= |slots|
    ensures Window(slots, read, count)[0] == slots[read]
    ensures Window(slots, Wrap(read + 1, |slots|), count - 1) == Window(slots, read, count)[1..]
  {
    var tail, all := Window(slots, Wrap(read + 1, |slots|), count - 1), Window(slots, read, count);
    forall i | 0 <= i < count - 1 ensures tail[i] == all[i + 1] {
    }
  }

  /** Adding a node: it comes last in the window, and the others stay. */
  lemma WindowAdd(slots: seq<Node>, read: int, count: int, node: Node)
    requires 0 <= read < |slots| && 0 <= count < |slots|
    ensures Window(slots[Wrap(read + count, |slots|) := node], read, count + 1) == Window(slots, read, count) + [node]
  {
  }

  class Ring {
    const nodes: array<Node>
    var writeIndex: int
    var readIndex: int
    var count: int
    var finished: bool

    ghost predicate Valid()
      reads this, nodes
    {
      && nodes.Length > 0 && 0 <= readIndex < nodes.Length && 0 <= count <= nodes.Length
      && writeIndex == Wrap(readIndex + count, nodes.Length)
    }

    ghost function Contents(): seq<Node>
      requires Valid()
      reads this, nodes
    {
      Window(nodes[..], readIndex, count)
    }

    constructor (size: nat)
      requires size > 0
      ensures Valid() && fresh(nodes) && nodes.Length == size && Contents() == [] && !finished
    {
      nodes := new Node[size](_ => Node(0, 0));
      writeIndex, readIndex, count, finished := 0, 0, 0, false;
    }

    /** add_node_to_buffer, once there is room */
    method Add(node: Node)
      requires Valid() && count < nodes.Length
      modifies this`writeIndex, this`count, nodes
      ensures Valid() && Contents() == old(Contents()) + [node]
    {
      WindowAdd(nodes[..], readIndex, count, node);
      WrapIsMod(writeIndex + 1, nodes.Length);
      ghost var slots := nodes[..];
      nodes[writeIndex] := node;
      assert nodes[..] == slots[writeIndex := node];
      writeIndex := (writeIndex + 1) % nodes.Length;
      count := count + 1;
    }

    /** get_node_from_buffer, once there is a node or the scan is over */
    method Get() returns (result: bool, node: Node)
      requires Valid() && (count > 0 || finished)
      modifies this`readIndex, this`count
      ensures Valid() && result == (|old(Contents())| > 0)
      ensures if result then node == old(Contents())[0] && Contents() == old(Contents())[1..]
              else Contents() == old(Contents())
    {
      result, node := false, Node(0, 0);
      if count > 0 {
        WindowTail(nodes[..], readIndex, count);
        WrapIsMod(readIndex + 1, nodes.Length);
        node := nodes[readIndex];
        readIndex := (readIndex + 1) % nodes.Length;
        count := count - 1;
        result := true;
      }
    }
  }

  // ---------- the two threads ----------

  /** In: holding the mutex at the test of the waiting loop.  Asleep: in
      pthread_cond_wait.  Woken: out of it, waiting to hold the mutex again. */
  datatype Scanner = AddWant | AddIn | AddAsleep | AddWoken | EndWant | EndIn | ScanDone

  datatype Counter = GetWant | GetIn | GetAsleep | GetWoken | Working(node: Node) | CountDone

  datatype Thread = ScannerThread | CounterThread

  /** todo: what the scanner still has to deliver; buffer: what the ring holds */
  datatype State = State(n: nat, todo: seq<Node>, buffer: seq<Node>, finished: bool, scanner: Scanner, counter: Counter,
                         produced: seq<Node>, consumed: seq<Node>)

  predicate Locked(s: State) {
    s.scanner.AddIn? || s.scanner.EndIn? || s.counter.GetIn?
  }

  /** Where the scanner goes between two nodes */
  function Between(todo: seq<Node>): Scanner {
    if |todo| == 0 then EndWant else AddWant
  }

  function Initial(n: nat, nodes: seq<Node>): State {
    State(n, nodes, [], false, Between(nodes), GetWant, [], [])
  }

  /** A thread can move on its own: it is neither asleep nor done, nor kept out by the mutex. */
  predicate CanStep(s: State, t: Thread) {
    match t
    case ScannerThread =>
      (match s.scanner
       case AddWant | AddWoken | EndWant => !Locked(s)
       case AddIn | EndIn => true
       case AddAsleep | ScanDone => false)
    case CounterThread =>
      (match s.counter
       case GetWant | GetWoken => !Locked(s)
       case GetIn | Working(_) => true
       case GetAsleep | CountDone => false)
  }

  /** pthread_cond_signal / broadcast on not_empty */
  function WakeCounter(c: Counter): Counter {
    if c.GetAsleep? then GetWoken else c
  }

  function WakeScanner(c: Scanner): Scanner {
    if c.AddAsleep? then AddWoken else c
  }

  function ScannerStep(s: State): State {
    match s.scanner
    case AddWant | AddWoken => s.(scanner := AddIn)
    case AddIn =>
      if |s.buffer| >= s.n then s.(scanner := AddAsleep)
      else if |s.todo| == 0 then s
      else
        s.(buffer := s.buffer + [s.todo[0]], todo := s.todo[1..], produced := s.produced + [s.todo[0]],
           scanner := Between(s.todo[1..]), counter := WakeCounter(s.counter))
    case EndWant => s.(scanner := EndIn)
    case EndIn => s.(finished := true, scanner := ScanDone, counter := WakeCounter(s.counter))
    case _ => s
  }

  function CounterStep(s: State): State {
    match s.counter
    case GetWant | GetWoken => s.(counter := GetIn)
    case GetIn =>
      if |s.buffer| == 0 && !s.finished then s.(counter := GetAsleep)
      else if |s.buffer| > 0 then
        s.(buffer := s.buffer[1..], consumed := s.consumed + [s.buffer[0]], counter := Working(s.buffer[0]),
           scanner := WakeScanner(s.scanner))
      else s.(counter := CountDone)
    case Working(_) => s.(counter := GetWant)
    case _ => s
  }

  function Step(s: State, t: Thread): State {
    match t case ScannerThread => ScannerStep(s) case CounterThread => CounterStep(s)
  }

  /** pthread_cond_wait may also return for no reason. */
  function Spurious(s: State, t: Thread): State {
    match t
    case ScannerThread => s.(scanner := WakeScanner(s.scanner))
    case CounterThread => s.(counter := WakeCounter(s.counter))
  }

  datatype Move = Go(t: Thread) | Wake(t: Thread)

  predicate Legal(s: State, mv: Move) {
    mv.Go? ==> CanStep(s, mv.t)
  }

  function After(s: State, mv: Move): State {
    match mv case Go(t) => Step(s, t) case Wake(t) => Spurious(s, t)
  }

  /** The states a sequence of moves leads through; moves that are not legal do not happen. */
  function Run(s: State, moves: seq<Move>): State {
    if |moves| == 0 then s
    else
      var m := Run(s, moves[..|moves| - 1]);
      if Legal(m, moves[|moves| - 1]) then After(m, moves[|moves| - 1]) else m
  }

  ghost predicate Inv(s: State, nodes: seq<Node>) {
    && s.n > 0 && |s.buffer| <= s.n
    && s.consumed + s.buffer == s.produced && s.produced + s.todo == nodes
    && !((s.scanner.AddIn? || s.scanner.EndIn?) && s.counter.GetIn?)
    && ((s.scanner.EndWant? || s.scanner.EndIn? || s.scanner.ScanDone?) <==> |s.todo| == 0)
    && (s.finished <==> s.scanner.ScanDone?)
    // nobody sleeps on a condition that already holds: no wake-up is lost
    && (s.scanner.AddAsleep? ==> |s.buffer| == s.n)
    && (s.counter.GetAsleep? ==> |s.buffer| == 0 && !s.finished)
    && (s.counter.CountDone? ==> s.finished && |s.buffer| == 0)
  }

  lemma MoveKeepsInv(s: State, nodes: seq<Node>, mv: Move)
    requires Inv(s, nodes) && Legal(s, mv)
    ensures Inv(After(s, mv), nodes) && After(s, mv).n == s.n
  {
    match mv
    case Wake(_) =>
    case Go(ScannerThread) =>
      if s.scanner.AddIn? && |s.buffer| < s.n {
        assert s.todo == [s.todo[0]] + s.todo[1..];
        assert s.consumed + (s.buffer + [s.todo[0]]) == (s.consumed + s.buffer) + [s.todo[0]];
        assert (s.produced + [s.todo[0]]) + s.todo[1..] == s.produced + s.todo;
      }
    case Go(CounterThread) =>
      if s.counter.GetIn? && |s.buffer| > 0 {
        assert s.buffer == [s.buffer[0]] + s.buffer[1..];
        assert (s.consumed + [s.buffer[0]]) + s.buffer[1..] == s.consumed + s.buffer;
      }
  }

  /** In every interleaving, spurious wake-ups included, what is consumed and what is in
      the buffer is what was produced, in order; the two threads never sleep together;
      the counter ends only when the scan has finished and every node was consumed. */
  lemma {:induction false} EveryRun(n: nat, nodes: seq<Node>, moves: seq<Move>)
    requires n > 0
    ensures var s := Run(Initial(n, nodes), moves);
            && Inv(s, nodes)
            && s.consumed + s.buffer == s.produced && s.produced <= nodes
            && s.n == n && |s.buffer| <= n && s.produced + s.todo == nodes
            && (s.scanner.AddAsleep? ==> |s.buffer| == n) && (s.counter.GetAsleep? ==> s.buffer == [] && !s.finished)
            && !(s.scanner.AddAsleep? && s.counter.GetAsleep?)
            && !((s.scanner.AddIn? || s.scanner.EndIn?) && s.counter.GetIn?)
            && (s.counter.CountDone? ==> s.scanner.ScanDone? && s.consumed == nodes)
  {
    if |moves| > 0 {
      EveryRun(n, nodes, moves[..|moves| - 1]);
      var m := Run(Initial(n, nodes), moves[..|moves| - 1]);
      if Legal(m, moves[|moves| - 1]) {
        MoveKeepsInv(m, nodes, moves[|moves| - 1]);
      }
    }
  }

  /** Until both threads are done one of them can move, without any spurious wake-up. */
  lemma NeverStuck(s: State, nodes: seq<Node>) returns (t: Thread)
    requires Inv(s, nodes) && !(s.scanner.ScanDone? && s.counter.CountDone?)
    ensures CanStep(s, t)
  {
    t := if CanStep(s, ScannerThread) then ScannerThread else CounterThread;
  }

  /** Work left: moves of the two threads, counted so that going to sleep and waking by a
      signal are paid for by the node that makes them necessary */
  function Work(s: State): int {
    11 * |s.todo| + 5 * |s.buffer| + ScannerRank(s.scanner) + CounterRank(s.counter)
  }

  function ScannerRank(c: Scanner): int {
    match c
    case AddWoken => 3 case AddWant => 3 case AddIn => 2 case AddAsleep => 1
    case EndWant => 5 case EndIn => 4 case ScanDone => 0
  }

  function CounterRank(c: Counter): int {
    match c
    case Working(_) => 4 case GetWant => 3 case GetWoken => 3 case GetIn => 2 case GetAsleep => 1 case CountDone => 0
  }

  /** Every step brings the end nearer, so without spurious wake-ups every run ends, and
      by NeverStuck it ends with both threads done. */
  lemma StepsRunOut(s: State, nodes: seq<Node>, t: Thread)
    requires Inv(s, nodes) && CanStep(s, t)
    ensures 0 <= Work(Step(s, t)) < Work(s)
  {
  }

  /** The counter stops exactly when the scan has finished and nothing is left. */
  lemma StopsExactly(s: State, nodes: seq<Node>)
    requires Inv(s, nodes) && s.counter.GetIn?
    ensures CounterStep(s).counter.CountDone? <==> s.finished && s.consumed == nodes
  {
    if s.consumed == nodes && s.finished {
      assert |s.consumed + s.buffer| == |s.consumed| + |s.buffer|;
    }
  }

  // ---------- the end of every run ----------

  /** Moves of a run in which a thread has gone on */
  function Effective(s: State, moves: seq<Move>): nat {
    if |moves| == 0 then 0
    else
      var m := |moves| - 1;
      Effective(s, moves[..m]) + if Legal(Run(s, moves[..m]), moves[m]) then 1 else 0
  }

  predicate NoneSpurious(moves: seq<Move>) {
    forall i | 0 <= i < |moves| :: moves[i].Go?
  }

  /** Without spurious wake-ups every move is paid for by the work there was at first. */
  lemma {:induction false} MovesArePaid(n: nat, nodes: seq<Node>, moves: seq<Move>)
    requires n > 0 && NoneSpurious(moves)
    ensures var s := Run(Initial(n, nodes), moves);
            0 <= Work(s) && Work(s) + Effective(Initial(n, nodes), moves) <= Work(Initial(n, nodes))
  {
    hide Inv, Step, Work, Initial, CanStep;
    var start := Initial(n, nodes);
    if |moves| > 0 {
      var m := |moves| - 1;
      MovesArePaid(n, nodes, moves[..m]);
      EveryRun(n, nodes, moves[..m]);
      if CanStep(Run(start, moves[..m]), moves[m].t) {
        StepsRunOut(Run(start, moves[..m]), nodes, moves[m].t);
      }
    } else {
      StartWork(n, nodes);
    }
  }

  lemma StartWork(n: nat, nodes: seq<Node>)
    ensures Work(Initial(n, nodes)) >= 0
  {
  }

  predicate AllDone(s: State, nodes: seq<Node>) {
    s.scanner.ScanDone? && s.counter.CountDone? && s.consumed == nodes
  }

  /** With as many moves as there was work both threads are done, and every node has been
      consumed. */
  lemma EnoughMoves(n: nat, nodes: seq<Node>, moves: seq<Move>)
    requires n > 0 && NoneSpurious(moves) && Effective(Initial(n, nodes), moves) >= Work(Initial(n, nodes))
    ensures AllDone(Run(Initial(n, nodes), moves), nodes)
  {
    hide Inv, Step, Work, Initial, CanStep;
    var s := Run(Initial(n, nodes), moves);
    MovesArePaid(n, nodes, moves);
    EveryRun(n, nodes, moves);
    if !(s.scanner.ScanDone? && s.counter.CountDone?) {
      var t := NeverStuck(s, nodes);
      StepsRunOut(s, nodes, t);
    }
  }

  /** A stretch in which no thread goes on leaves the state, and no thread it gives a turn to
      can go on. */
  lemma {:induction false} Stretch(s: State, before: seq<Move>, more: seq<Move>)
    ensures Effective(s, before + more) >= Effective(s, before)
    ensures Effective(s, before + more) == Effective(s, before) ==>
              Run(s, before + more) == Run(s, before) && forall mv | mv in more :: !Legal(Run(s, before), mv)
  {
    hide After, Legal;
    if |more| == 0 {
      assert before + more == before;
    } else {
      var m := |more| - 1;
      Stretch(s, before, more[..m]);
      assert (before + more)[..|before + more| - 1] == before + more[..m];
      assert more == more[..m] + [more[m]];
    }
  }

  /** A sequence of moves given in rounds, one after the other */
  function Rounds(rounds: seq<seq<Move>>): seq<Move> {
    if |rounds| == 0 then [] else Rounds(rounds[..|rounds| - 1]) + rounds[|rounds| - 1]
  }

  predicate Fair(round: seq<Move>) {
    NoneSpurious(round) && Go(ScannerThread) in round && Go(CounterThread) in round
  }

  /** As long as the threads are not done, a round in which each has a turn moves one of them;
      so after that many rounds both are done and every node has been consumed. */
  lemma {:induction false} FairRunEnds(n: nat, nodes: seq<Node>, rounds: seq<seq<Move>>)
    requires n > 0 && forall i | 0 <= i < |rounds| :: Fair(rounds[i])
    ensures NoneSpurious(Rounds(rounds))
    ensures var start := Initial(n, nodes); var s := Run(start, Rounds(rounds));
            AllDone(s, nodes) || Effective(start, Rounds(rounds)) >= |rounds|
    ensures |rounds| >= Work(Initial(n, nodes)) ==> AllDone(Run(Initial(n, nodes), Rounds(rounds)), nodes)
  {
    hide Inv, Step, Work, Initial, CanStep;
    var start := Initial(n, nodes);
    if |rounds| > 0 {
      var m := |rounds| - 1;
      var before, last := Rounds(rounds[..m]), rounds[m];
      FairRunEnds(n, nodes, rounds[..m]);
      Stretch(start, before, last);
      var s := Run(start, before);
      EveryRun(n, nodes, before);
      if AllDone(s, nodes) {
        DoneStays(start, nodes, before, last);
      } else if !(s.scanner.ScanDone? && s.counter.CountDone?) {
        var t := NeverStuck(s, nodes);
        assert Legal(s, Go(t)) && Go(t) in last;
      }
    }
    if Effective(start, Rounds(rounds)) >= Work(start) {
      EnoughMoves(n, nodes, Rounds(rounds));
    }
  }

  lemma {:induction false} DoneStays(s: State, nodes: seq<Node>, before: seq<Move>, more: seq<Move>)
    requires AllDone(Run(s, before), nodes)
    ensures AllDone(Run(s, before + more), nodes)
  {
    if |more| == 0 {
      assert before + more == before;
    } else {
      DoneStays(s, nodes, before, more[..|more| - 1]);
      assert (before + more)[..|before + more| - 1] == before + more[..|more| - 1];
    }
  }
}
