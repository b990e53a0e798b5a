/** A linked list in shared memory: nodes of a fixed pool, linked by their positions. */
module NodePool {
  import opened Common

  const NIL := -1

  datatype Node = Node(data: int, next: int, isFree: bool)

  // ---------- the bounded stack that the list is ----------

  datatype Op = Insert(data: int) | Pop | Count | Print

  datatype Result = Inserted(ok: bool) | Popped(value: Option<int>) | Counted(n: int) | Printed(all: seq<int>)

  function StackStep(s: seq<int>, bound: nat, op: Op): (r: (seq<int>, Result))
  {
    match op
    case Insert(data) => if |s| < bound then ([data] + s, Inserted(true)) else (s, Inserted(false))
    case Pop => if |s| == 0 then (s, Popped(None)) else (s[1..], Popped(Some(s[0])))
    case Count => (s, Counted(|s|))
    case Print => (s, Printed(s))
  }

  /** What each operation does: an insert puts its value first if there is a place, a pop
      takes the first value, the others change nothing. */
  lemma StackStepIs(s: seq<int>, bound: nat, op: Op)
    ensures var (s', res) := StackStep(s, bound, op);
            match op
            case Insert(data) => res == Inserted(|s| < bound) && s' == if |s| < bound then [data] + s else s
            case Pop =>
              if s == [] then res == Popped(None) && s' == []
              else res.Popped? && res.value.Some? && s == [res.value.value] + s'
            case Count => res == Counted(|s|) && s' == s
            case Print => res == Printed(s) && s' == s
  {
  }

  function StackRun(bound: nat, ops: seq<Op>): (r: (seq<int>, seq<Result>))
    ensures |r.1| == |ops| && |r.0| <= bound
  {
    if |ops| == 0 then ([], [])
    else
      var before := StackRun(bound, ops[..|ops| - 1]);
      var last := StackStep(before.0, bound, ops[|ops| - 1]);
      (last.0, before.1 + [last.1])
  }

  function PutBy(op: Op, res: Result): multiset<int> {
    if op.Insert? && res == Inserted(true) then multiset{op.data} else multiset{}
  }

  function TakenBy(res: Result): multiset<int> {
    if res.Popped? && res.value.Some? then multiset{res.value.value} else multiset{}
  }

  /** What the successful inserts of a run put in */
  function PutIn(ops: seq<Op>, results: seq<Result>): multiset<int>
    requires |ops| == |results|
  {
    if |ops| == 0 then multiset{}
    else
      var n := |ops| - 1;
      PutIn(ops[..n], results[..n]) + PutBy(ops[n], results[n])
  }

  /** What its pops gave back */
  function TakenOut(results: seq<Result>): multiset<int> {
    if |results| == 0 then multiset{}
    else
      var n := |results| - 1;
      TakenOut(results[..n]) + TakenBy(results[n])
  }

  lemma StepConserves(s: seq<int>, bound: nat, op: Op)
    ensures var (s', res) := StackStep(s, bound, op);
            multiset(s) + PutBy(op, res) == TakenBy(res) + multiset(s')
  {
    if op.Pop? && |s| > 0 {
      assert s == [s[0]] + s[1..];
    }
  }

  lemma Exchange(taken: multiset<int>, s: multiset<int>, put: multiset<int>, take: multiset<int>, s': multiset<int>)
    requires s + put == take + s'
    ensures taken + s + put == taken + take + s'
  {
    assert taken + s + put == taken + (s + put);
  }

  /** Nothing is lost and nothing invented: over any run, what was put in is what was
      taken out and what is still there. */
  lemma {:induction false} Conserved(bound: nat, ops: seq<Op>)
    ensures var (s, results) := StackRun(bound, ops); PutIn(ops, results) == TakenOut(results) + multiset(s)
  {
    hide StackStep, PutBy, TakenBy;
    if |ops| > 0 {
      var n := |ops| - 1;
      Conserved(bound, ops[..n]);
      var before, all := StackRun(bound, ops[..n]), StackRun(bound, ops);
      assert all.1[..n] == before.1 && all.1[n] == StackStep(before.0, bound, ops[n]).1;
      StepConserves(before.0, bound, ops[n]);
      assert PutIn(ops, all.1) == PutIn(ops[..n], before.1) + PutBy(ops[n], all.1[n]);
      assert TakenOut(all.1) == TakenOut(before.1) + TakenBy(all.1[n]);
      Exchange(TakenOut(before.1), multiset(before.0), PutBy(ops[n], all.1[n]), TakenBy(all.1[n]), multiset(all.0));
    }
  }

  /** Successive inserts from a list of values */
  function Inserts(values: seq<int>): seq<Op> {
    seq(|values|, i requires 0 <= i < |values| => Insert(values[i]))
  }

  function Reversed(values: seq<int>): (r: seq<int>)
    ensures |r| == |values|
    ensures forall i | 0 <= i < |values| :: r[i] == values[|values| - 1 - i]
  {
    seq(|values|, i requires 0 <= i < |values| => values[|values| - 1 - i])
  }

  /** Inserting a list of values into an empty pool keeps as many as there are nodes, the
      last of them first. */
  lemma {:induction false} LastFirst(bound: nat, values: seq<int>)
    ensures StackRun(bound, Inserts(values)).0 == Reversed(values[..if |values| < bound then |values| else bound])
  {
    if |values| > 0 {
      var n := |values| - 1;
      LastFirst(bound, values[..n]);
      assert Inserts(values)[..n] == Inserts(values[..n]);
      if n < bound {
        assert values[..n + 1] == values;
        assert values[..n][..n] == values[..n];
        assert Reversed(values) == [values[n]] + Reversed(values[..n]);
      } else {
        assert values[..n][..bound] == values[..bound];
      }
    }
  }

  // ---------- the pool ----------

  lemma Without(s: seq<int>, i: int) returns (rest: seq<int>)
    requires NoRepeat(s) && 0 <= i < |s|
    ensures NoRepeat(rest) && |rest| == |s| - 1
    ensures forall x :: x in rest <==> x in s && x != s[i]
  {
    rest := s[..i] + s[i + 1..];
    forall x ensures x in rest <==> x in s && x != s[i] {
      if x in s && x != s[i] {
        var m :| 0 <= m < |s| && s[m] == x;
        assert rest[if m < i then m else m - 1] == x;
      }
    }
  }

  /** As many distinct positions as there are take every position, fewer do not. */
  lemma {:induction false} Pigeonhole(s: seq<int>, n: nat)
    requires NoRepeat(s) && forall i | 0 <= i < |s| :: 0 <= s[i] < n
    ensures |s| <= n
    ensures |s| == n <==> forall k | 0 <= k < n :: k in s
    decreases n
  {
    if |s| == 0 {
      assert 0 !in s;
    } else {
      assert 0 <= s[0] < n;
      if n - 1 in s {
        var i :| 0 <= i < |s| && s[i] == n - 1;
        var rest := Without(s, i);
        forall m | 0 <= m < |rest| ensures 0 <= rest[m] < n - 1 {
          assert rest[m] in rest;
        }
        Pigeonhole(rest, n - 1);
        assert forall k | 0 <= k < n - 1 :: k in s <==> k in rest;
      } else {
        forall i | 0 <= i < |s| ensures 0 <= s[i] < n - 1 {
          assert s[i] in s;
        }
        Pigeonhole(s, n - 1);
      }
    }
  }

  /** Node chain[i] leads to chain[i + 1], the last one nowhere; every node that is not
      free is on the chain once, and no other node is. */
  ghost predicate Linked(nodes: seq<Node>, chain: seq<int>) {
    NoRepeat(chain) && Follow(nodes, chain) && Cover(nodes, chain)
  }

  ghost predicate Follow(nodes: seq<Node>, chain: seq<int>) {
    forall i | 0 <= i < |chain| ::
      0 <= chain[i] < |nodes| && !nodes[chain[i]].isFree && nodes[chain[i]].next == At(chain, i + 1)
  }

  ghost predicate Cover(nodes: seq<Node>, chain: seq<int>) {
    forall k | 0 <= k < |nodes| && !nodes[k].isFree :: k in chain
  }

  function At(chain: seq<int>, i: nat): int {
    if i < |chain| then chain[i] else NIL
  }

  function Values(nodes: seq<Node>, chain: seq<int>): (s: seq<int>)
    requires forall i | 0 <= i < |chain| :: 0 <= chain[i] < |nodes|
    ensures |s| == |chain|
  {
    seq(|chain|, i requires 0 <= i < |chain| => nodes[chain[i]].data)
  }

  /** The pool is full exactly when no node is free. */
  lemma FullIffNoneFree(nodes: seq<Node>, chain: seq<int>)
    requires Linked(nodes, chain)
    ensures |chain| <= |nodes|
    ensures |chain| == |nodes| <==> forall k | 0 <= k < |nodes| :: !nodes[k].isFree
  {
    Pigeonhole(chain, |nodes|);
    forall k | 0 <= k < |nodes| && k in chain ensures !nodes[k].isFree {
    }
  }

  lemma AtLonger(off: int, chain: seq<int>)
    ensures forall i: nat :: At([off] + chain, i) == if i == 0 then off else At(chain, i - 1)
  {
  }

  lemma Inside(nodes: seq<Node>, chain: seq<int>)
    requires Follow(nodes, chain)
    ensures forall i | 0 <= i < |chain| :: 0 <= chain[i] < |nodes| && !nodes[chain[i]].isFree
  {
  }

  /** A node put before the head of a chain on which it is not */
  lemma FollowLonger(nodes: seq<Node>, chain: seq<int>, off: int, node: Node)
    requires Follow(nodes, chain) && 0 <= off < |nodes| && nodes[off].isFree
    requires !node.isFree && node.next == At(chain, 0)
    ensures Follow(nodes[off := node], [off] + chain)
  {
    hide At;
    AtLonger(off, chain);
    var now, longer := nodes[off := node], [off] + chain;
    forall i | 0 <= i < |longer|
      ensures 0 <= longer[i] < |now| && !now[longer[i]].isFree && now[longer[i]].next == At(longer, i + 1)
    {
      assert i > 0 ==> longer[i] == chain[i - 1];
    }
  }

  lemma FollowShorter(nodes: seq<Node>, chain: seq<int>, node: Node)
    requires Follow(nodes, chain) && NoRepeat(chain) && |chain| > 0 && node.isFree
    ensures Follow(nodes[chain[0] := node], chain[1..])
    ensures nodes[chain[0]].next == At(chain[1..], 0)
  {
    hide At;
    var now, shorter := nodes[chain[0] := node], chain[1..];
    AtLonger(chain[0], shorter);
    assert chain == [chain[0]] + shorter;
    forall i | 0 <= i < |shorter|
      ensures 0 <= shorter[i] < |now| && !now[shorter[i]].isFree && now[shorter[i]].next == At(shorter, i + 1)
    {
      assert shorter[i] == chain[i + 1];
    }
  }

  lemma CoverLonger(nodes: seq<Node>, chain: seq<int>, off: int, node: Node)
    requires Cover(nodes, chain) && 0 <= off < |nodes|
    ensures Cover(nodes[off := node], [off] + chain)
  {
    var now := nodes[off := node];
    forall k | 0 <= k < |now| && !now[k].isFree ensures k in [off] + chain {
      if k != off {
        assert now[k] == nodes[k];
      }
    }
  }

  lemma CoverShorter(nodes: seq<Node>, chain: seq<int>, node: Node)
    requires Cover(nodes, chain) && |chain| > 0 && 0 <= chain[0] < |nodes| && node.isFree
    ensures Cover(nodes[chain[0] := node], chain[1..])
  {
    assert chain == [chain[0]] + chain[1..];
  }

  ghost predicate Absent(chain: seq<int>, off: int) {
    forall i | 0 <= i < |chain| :: chain[i] != off
  }

  lemma DistinctLonger(chain: seq<int>, off: int)
    requires NoRepeat(chain) && Absent(chain, off)
    ensures NoRepeat([off] + chain)
  {
  }

  lemma FreeIsAbsent(nodes: seq<Node>, chain: seq<int>, off: int)
    requires Follow(nodes, chain) && 0 <= off < |nodes| && nodes[off].isFree
    ensures Absent(chain, off)
  {
    Inside(nodes, chain);
    hide Follow;
  }

  lemma ValuesLonger(nodes: seq<Node>, chain: seq<int>, off: int, node: Node)
    requires (forall i | 0 <= i < |chain| :: 0 <= chain[i] < |nodes|) && 0 <= off < |nodes| && Absent(chain, off)
    ensures forall i | 0 <= i <= |chain| :: 0 <= ([off] + chain)[i] < |nodes|
    ensures Values(nodes[off := node], [off] + chain) == [node.data] + Values(nodes, chain)
  {
    var longer, now := [off] + chain, nodes[off := node];
    forall i | 0 <= i <= |chain|
      ensures 0 <= longer[i] < |nodes| && now[longer[i]].data == ([node.data] + Values(nodes, chain))[i]
    {
      if i > 0 {
        assert longer[i] == chain[i - 1] != off;
      }
    }
  }

  lemma ValuesShorter(nodes: seq<Node>, chain: seq<int>, node: Node)
    requires (forall i | 0 <= i < |chain| :: 0 <= chain[i] < |nodes|) && |chain| > 0 && Absent(chain[1..], chain[0])
    ensures forall i | 0 <= i < |chain[1..]| :: 0 <= chain[1..][i] < |nodes|
    ensures Values(nodes[chain[0] := node], chain[1..]) == Values(nodes, chain)[1..]
  {
  }

  /** A free node put before the head */
  lemma Pushed(nodes: seq<Node>, chain: seq<int>, off: int, node: Node)
    requires Linked(nodes, chain) && 0 <= off < |nodes| && nodes[off].isFree
    requires !node.isFree && node.next == At(chain, 0)
    ensures Linked(nodes[off := node], [off] + chain)
    ensures Values(nodes[off := node], [off] + chain) == [node.data] + Values(nodes, chain)
  {
    hide At, Follow, Cover, NoRepeat, Absent, Values;
    FollowLonger(nodes, chain, off, node);
    CoverLonger(nodes, chain, off, node);
    FreeIsAbsent(nodes, chain, off);
    DistinctLonger(chain, off);
    Inside(nodes, chain);
    ValuesLonger(nodes, chain, off, node);
  }

  /** The head taken off and freed */
  lemma PoppedOff(nodes: seq<Node>, chain: seq<int>, node: Node)
    requires Linked(nodes, chain) && |chain| > 0 && node.isFree
    ensures Linked(nodes[chain[0] := node], chain[1..])
    ensures nodes[chain[0]].next == At(chain[1..], 0)
    ensures Values(nodes[chain[0] := node], chain[1..]) == Values(nodes, chain)[1..]
  {
    FollowShorter(nodes, chain, node);
    Inside(nodes, chain);
    assert NoRepeat(chain[1..]) && Absent(chain[1..], chain[0]);
    hide At, Follow, Cover, NoRepeat, Absent, Values;
    CoverShorter(nodes, chain, node);
    ValuesShorter(nodes, chain, node);
  }

  class Pool {
    const nodes: array<Node>
    var head: int
    var count: int

    /** The positions from the head on, in order */
    ghost var chain: seq<int>

    ghost predicate Valid()
      reads this, nodes
    {
      Linked(nodes[..], chain) && count == |chain| && head == At(chain, 0)
    }

    ghost function Contents(): (s: seq<int>)
      requires Valid()
      reads this, nodes
    {
      Values(nodes[..], chain)
    }

    constructor (size: nat)
      ensures Valid() && fresh(nodes) && nodes.Length == size && Contents() == []
    {
      nodes := new Node[size](_ => Node(0, NIL, true));
      head, count, chain := NIL, 0, [];
    }

    /** allocate_node: the first free node, now taken */
    method Allocate() returns (off: int)
      modifies nodes
      ensures off == NIL ==>
                nodes[..] == old(nodes[..]) && forall k | 0 <= k < nodes.Length :: !old(nodes[..])[k].isFree
      ensures off != NIL ==>
                && 0 <= off < nodes.Length && old(nodes[off].isFree)
                && nodes[..] == old(nodes[..])[off := Node(old(nodes[off].data), NIL, false)]
                && forall k | 0 <= k < off :: !old(nodes[..])[k].isFree
    {
      for i := 0 to nodes.Length
        invariant nodes[..] == old(nodes[..]) && forall k | 0 <= k < i :: !old(nodes[..])[k].isFree
      {
        assert nodes[i] == nodes[..][i];
        if nodes[i].isFree {
          nodes[i] := Node(nodes[i].data, NIL, false);
          return i;
        }
      }
      off := NIL;
    }

    /** free_node */
    method Free(off: int)
      modifies nodes
      ensures nodes[..] == if 0 <= off < nodes.Length then old(nodes[..])[off := Node(0, NIL, true)] else old(nodes[..])
    {
      if 0 <= off < nodes.Length {
        nodes[off] := Node(0, NIL, true);
      }
    }

    /** list_insert: fails exactly when the pool is full */
    method Insert(data: int) returns (ok: bool)
      requires Valid()
      modifies this, nodes
      ensures Valid() && ok == (|old(Contents())| < nodes.Length)
      ensures Contents() == if ok then [data] + old(Contents()) else old(Contents())
      ensures (Contents(), Inserted(ok)) == StackStep(old(Contents()), nodes.Length, Op.Insert(data))
    {
      hide Linked, Values;
      ghost var was := nodes[..];
      FullIffNoneFree(was, chain);
      var off := Allocate();
      if off == NIL {
        return false;
      }
      assert was[off].isFree;
      nodes[off] := nodes[off].(data := data, next := head);
      Pushed(was, chain, off, Node(data, head, false));
      assert nodes[..] == was[off := Node(data, head, false)];
      head := off;
      count := count + 1;
      chain := [off] + chain;
      ok := true;
    }

    /** list_pop, with an explicit result for the empty list */
    method Pop() returns (res: Option<int>)
      requires Valid()
      modifies this, nodes
      ensures Valid()
      ensures old(Contents()) == if res.Some? then [res.value] + Contents() else []
      ensures res.None? ==> Contents() == []
      ensures (Contents(), Popped(res)) == StackStep(old(Contents()), nodes.Length, Op.Pop)
    {
      if head == NIL {
        return None;
      }
      ghost var was := nodes[..];
      PoppedOff(was, chain, Node(0, NIL, true));
      var off := head;
      var data := nodes[off].data;
      head := nodes[off].next;
      count := count - 1;
      Free(off);
      chain := chain[1..];
      res := Some(data);
    }

    /** list_print: walks the whole chain, in order, and ends */
    method Print() returns (all: seq<int>)
      requires Valid()
      ensures all == Contents()
    {
      hide NoRepeat, Cover;
      all := [];
      var off := head;
      ghost var n := 0;
      while off != NIL
        invariant 0 <= n <= |chain| && all == Contents()[..n]
        invariant off == At(chain, n)
        decreases |chain| - n
      {
        assert off == chain[n] && Contents()[n] == nodes[off].data;
        assert nodes[off].next == At(chain, n + 1);
        all := all + [nodes[off].data];
        off := nodes[off].next;
        n := n + 1;
      }
    }

    method Perform(op: Op) returns (res: Result)
      requires Valid()
      modifies this, nodes
      ensures Valid() && (Contents(), res) == StackStep(old(Contents()), nodes.Length, op)
      ensures op.Count? ==> res == Counted(|old(Contents())|) && Contents() == old(Contents())
    {
      match op
      case Insert(data) =>
        var ok := Insert(data);
        res := Inserted(ok);
      case Pop =>
        var value := Pop();
        res := Popped(value);
      case Count =>
        res := Counted(count);
      case Print =>
        var all := Print();
        res := Printed(all);
    }
  }

  /** Two processes, each with its own list of operations.  The semaphore lets one
      operation at a time through; order says whose turn each one is.  Whatever the order,
      every result is that of one bounded stack used in that order. */
  method TwoProcesses(size: nat, a: seq<Op>, b: seq<Op>, order: seq<bool>)
    returns (pool: Pool, ops: seq<Op>, results: seq<Result>)
    requires multiset(order)[true] == |a| && multiset(order)[false] == |b|
    ensures pool.Valid() && (pool.Contents(), results) == StackRun(size, ops)
    ensures |ops| == |order| && Share(ops, order, true) == a && Share(ops, order, false) == b
    ensures forall n | 0 <= n < |order| ::
              var k := multiset(order[..n])[order[n]];
              if order[n] then k < |a| && ops[n] == a[k] else k < |b| && ops[n] == b[k]
    ensures PutIn(ops, results) == TakenOut(results) + multiset(pool.Contents())
  {
    pool := new Pool(size);
    hide Share, Turns, StackRun, StackStep, PutIn, TakenOut, Pool.Contents, Pool.Valid;
    ops, results := [], [];
    NoneYet(size, order);
    TurnsIs(order, true);
    TurnsIs(order, false);
    var i, j := 0, 0;
    for n := 0 to |order|
      invariant fresh(pool) && fresh(pool.nodes) && pool.nodes.Length == size
      invariant pool.Valid() && (pool.Contents(), results) == StackRun(size, ops)
      invariant |ops| == n && i == Turns(order[..n], true) <= |a| && j == Turns(order[..n], false) <= |b|
      invariant Share(ops, order[..n], true) == a[..i] && Share(ops, order[..n], false) == b[..j]
    {
      TurnsLeft(order, n);
      var op := if order[n] then a[i] else b[j];
      ShareNext(ops, op, order, n, true);
      ShareNext(ops, op, order, n, false);
      if order[n] {
        i := i + 1;
      } else {
        j := j + 1;
      }
      var res := pool.Perform(op);
      RunNext(size, ops, op);
      ops, results := ops + [op], results + [res];
    }
    assert order[..|order|] == order;
    Conserved(size, ops);
    InTurn(a, b, order, ops);
  }

  function Turns(order: seq<bool>, who: bool): nat {
    if |order| == 0 then 0 else Turns(order[..|order| - 1], who) + if order[|order| - 1] == who then 1 else 0
  }

  lemma {:induction false} TurnsIs(order: seq<bool>, who: bool)
    ensures Turns(order, who) == multiset(order)[who]
  {
    if |order| > 0 {
      TurnsIs(order[..|order| - 1], who);
      assert order == order[..|order| - 1] + [order[|order| - 1]];
    }
  }

  /** The operations that one process contributes */
  function Share(ops: seq<Op>, order: seq<bool>, who: bool): seq<Op>
    requires |ops| == |order|
  {
    if |ops| == 0 then []
    else
      var n := |ops| - 1;
      Share(ops[..n], order[..n], who) + if order[n] == who then [ops[n]] else []
  }

  /** Each turn is for the next operation of the process whose turn it is. */
  lemma InTurn(a: seq<Op>, b: seq<Op>, order: seq<bool>, ops: seq<Op>)
    requires |ops| == |order| && Share(ops, order, true) == a && Share(ops, order, false) == b
    ensures forall n | 0 <= n < |order| ::
              var k := multiset(order[..n])[order[n]];
              if order[n] then k < |a| && ops[n] == a[k] else k < |b| && ops[n] == b[k]
  {
    hide Share, Turns;
    forall n | 0 <= n < |order|
      ensures var k := multiset(order[..n])[order[n]];
              if order[n] then k < |a| && ops[n] == a[k] else k < |b| && ops[n] == b[k]
    {
      TurnsIs(order[..n], order[n]);
      ShareAt(ops, order, n);
    }
  }

  lemma {:induction false} ShareAt(ops: seq<Op>, order: seq<bool>, n: nat)
    requires n < |ops| == |order|
    ensures var k := Turns(order[..n], order[n]);
            k < |Share(ops, order, order[n])| && Share(ops, order, order[n])[k] == ops[n]
  {
    var m := |ops| - 1;
    if n < m {
      ShareAt(ops[..m], order[..m], n);
      assert order[..m][..n] == order[..n];
    } else {
      ShareLength(ops[..m], order[..m], order[n]);
    }
  }

  lemma {:induction false} ShareLength(ops: seq<Op>, order: seq<bool>, who: bool)
    requires |ops| == |order|
    ensures |Share(ops, order, who)| == Turns(order, who)
  {
    if |ops| > 0 {
      ShareLength(ops[..|ops| - 1], order[..|ops| - 1], who);
    }
  }

  lemma {:induction false} TurnsLeft(order: seq<bool>, n: nat)
    requires n < |order|
    ensures Turns(order[..n], order[n]) < Turns(order, order[n])
    ensures Turns(order[..n], !order[n]) <= Turns(order, !order[n])
  {
    var m := |order| - 1;
    if n < m {
      TurnsLeft(order[..m], n);
      assert order[..m][..n] == order[..n];
    }
  }

  lemma NoneYet(bound: nat, order: seq<bool>)
    ensures StackRun(bound, []) == ([], [])
    ensures forall who :: Turns(order[..0], who) == 0 && Share([], order[..0], who) == []
  {
  }

  lemma RunNext(bound: nat, ops: seq<Op>, op: Op)
    ensures var before := StackRun(bound, ops);
            var last := StackStep(before.0, bound, op);
            StackRun(bound, ops + [op]) == (last.0, before.1 + [last.1])
  {
    assert (ops + [op])[..|ops|] == ops;
  }

  lemma ShareNext(ops: seq<Op>, op: Op, order: seq<bool>, n: nat, who: bool)
    requires |ops| == n < |order|
    ensures Turns(order[..n + 1], who) == Turns(order[..n], who) + if order[n] == who then 1 else 0
    ensures Share(ops + [op], order[..n + 1], who) == Share(ops, order[..n], who) + if order[n] == who then [op] else []
  {
    assert order[..n + 1][..n] == order[..n];
    assert (ops + [op])[..n] == ops;
  }
}
