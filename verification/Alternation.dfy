/** Parent and child take turns to increment a shared counter, each waiting for the
    other's byte on a pipe. */
module Alternation {

  /** Where a process is in round i of its loop.  The update is a load and a store, so
      that two updates at once could be told from one after the other. */
  datatype PC = Load(i: int) | Store(i: int, value: int) | Tell(i: int) | Wait(i: int) | Done | Failed

  datatype Who = Parent | Child

  /** pfd1 carries bytes to the child, pfd2 to the parent; log lists the updates made. */
  datatype State = State(n: int, counter: int, pfd1: seq<char>, pfd2: seq<char>, parent: PC, child: PC,
                         log: seq<(Who, int)>)

  function Initial(n: int): State {
    State(n, 0, "", "", if 0 < n then Load(0) else Done, if 1 < n + 1 then Wait(1) else Done, [])
  }

  /** A process is blocked only by a read from an empty pipe. */
  predicate CanStep(s: State, who: Who) {
    match who
    case Parent => !s.parent.Done? && !s.parent.Failed? && (s.parent.Wait? ==> |s.pfd2| > 0)
    case Child => !s.child.Done? && !s.child.Failed? && (s.child.Wait? ==> |s.pfd1| > 0)
  }

  function ParentStep(s: State): State
    requires CanStep(s, Parent)
  {
    match s.parent
    case Load(i) => s.(parent := Store(i, s.counter))
    case Store(i, value) =>
      s.(counter := value + 1, log := s.log + [(Parent, value)], parent := if value != i then Failed else Tell(i))
    case Tell(i) => s.(pfd1 := s.pfd1 + ['p'], parent := Wait(i))
    case Wait(i) =>
      s.(pfd2 := s.pfd2[1..],
         parent := if s.pfd2[0] != 'c' then Failed else if i + 2 < s.n then Load(i + 2) else Done)
  }

  function ChildStep(s: State): State
    requires CanStep(s, Child)
  {
    match s.child
    case Wait(i) => s.(pfd1 := s.pfd1[1..], child := if s.pfd1[0] != 'p' then Failed else Load(i))
    case Load(i) => s.(child := Store(i, s.counter))
    case Store(i, value) =>
      s.(counter := value + 1, log := s.log + [(Child, value)], child := if value != i then Failed else Tell(i))
    case Tell(i) => s.(pfd2 := s.pfd2 + ['c'], child := if i + 2 < s.n + 1 then Wait(i + 2) else Done)
  }

  function Step(s: State, who: Who): State
    requires CanStep(s, who)
  {
    match who case Parent => ParentStep(s) case Child => ChildStep(s)
  }

  /** A run under a schedule; a turn given to a blocked process passes. */
  function Run(n: int, schedule: seq<Who>): State {
    if |schedule| == 0 then Initial(n)
    else
      var s := Run(n, schedule[..|schedule| - 1]);
      if CanStep(s, schedule[|schedule| - 1]) then Step(s, schedule[|schedule| - 1]) else s
  }

  predicate Updating(pc: PC) {
    pc.Load? || pc.Store?
  }

  /** The k-th update is made by the parent for even k and by the child for odd k, and
      finds the value k. */
  predicate InTurn(log: seq<(Who, int)>) {
    forall k | 0 <= k < |log| :: log[k] == (if k % 2 == 0 then Parent else Child, k)
  }

  // ---------- the one token ----------

  predicate ParentActs(s: State, i: int) {
    && i % 2 == 0 && 0 <= i < s.n && s.pfd1 == "" && s.pfd2 == "" && s.child == Wait(i + 1)
    && (if s.parent == Tell(i) then s.counter == i + 1
        else s.counter == i && (s.parent == Load(i) || s.parent == Store(i, i)))
  }

  predicate ToChild(s: State, i: int) {
    && i % 2 == 0 && 0 <= i < s.n && s.pfd1 == "p" && s.pfd2 == "" && s.child == Wait(i + 1)
    && s.parent == Wait(i) && s.counter == i + 1
  }

  predicate ChildActs(s: State, i: int) {
    && i % 2 == 0 && 0 <= i < s.n && s.pfd1 == "" && s.pfd2 == "" && s.parent == Wait(i)
    && (if s.child == Tell(i + 1) then s.counter == i + 2
        else s.counter == i + 1 && (s.child == Load(i + 1) || s.child == Store(i + 1, i + 1)))
  }

  predicate ToParent(s: State, i: int) {
    && i % 2 == 0 && 0 <= i < s.n && s.pfd1 == "" && s.pfd2 == "c" && s.parent == Wait(i)
    && s.child == (if i + 2 < s.n then Wait(i + 3) else Done) && s.counter == i + 2
  }

  predicate Over(s: State) {
    && s.parent == Done && s.child == Done && s.pfd1 == "" && s.pfd2 == ""
    && s.counter == if s.n <= 0 then 0 else s.n + s.n % 2
  }

  /** The round that a state belongs to */
  function Round(s: State): int {
    if s.parent.Done? || s.parent.Failed? then 0 else s.parent.i
  }

  predicate Inv(s: State) {
    && |s.log| == s.counter && InTurn(s.log)
    && var i := Round(s);
       ParentActs(s, i) || ToChild(s, i) || ChildActs(s, i) || ToParent(s, i) || Over(s)
  }

  lemma StepKeepsInv(s: State, who: Who)
    requires Inv(s) && CanStep(s, who)
    ensures Inv(Step(s, who)) && Step(s, who).n == s.n
  {
  }

  /** For every number of rounds and every schedule: one byte at most is on its way, the
      two never update at once, no process finds a wrong value or a wrong byte, and the
      updates come in turn. */
  lemma {:induction false} EveryRun(n: int, schedule: seq<Who>)
    ensures var s := Run(n, schedule);
            && Inv(s) && s.n == n
            && |s.pfd1| + |s.pfd2| <= 1
            && !(Updating(s.parent) && Updating(s.child))
            && !s.parent.Failed? && !s.child.Failed?
            && |s.log| == s.counter
            && forall k | 0 <= k < |s.log| :: s.log[k] == (if k % 2 == 0 then Parent else Child, k)
  {
    if |schedule| > 0 {
      EveryRun(n, schedule[..|schedule| - 1]);
      var s := Run(n, schedule[..|schedule| - 1]);
      if CanStep(s, schedule[|schedule| - 1]) {
        StepKeepsInv(s, schedule[|schedule| - 1]);
      }
    }
  }

  /** Exactly one process can go on until both loops have finished; then the counter has
      been incremented once in every round of each. */
  lemma OneAtATime(s: State)
    requires Inv(s)
    ensures !(CanStep(s, Parent) && CanStep(s, Child))
    ensures !CanStep(s, Parent) && !CanStep(s, Child) <==> Over(s)
  {
  }

  /** Steps left in the round of the parent, out of eight for both */
  function Left(s: State): int {
    match s.parent
    case Load(_) => 8
    case Store(_, _) => 7
    case Tell(_) => 6
    case Wait(_) =>
      if |s.pfd1| > 0 then 5
      else if |s.pfd2| > 0 then 1
      else (match s.child case Load(_) => 4 case Store(_, _) => 3 case _ => 2)
    case _ => 0
  }

  function Work(s: State): int {
    if s.parent.Done? || s.parent.Failed? then 0 else 4 * (s.n - s.parent.i) + Left(s)
  }

  /** Every step brings the end nearer: with no process stuck before the end, both loops
      finish whatever the schedule. */
  lemma StepsRunOut(s: State, who: Who)
    requires Inv(s) && CanStep(s, who)
    ensures 0 <= Work(Step(s, who)) < Work(s)
  {
  }

  // ---------- the end of every run ----------

  /** The turns of a schedule in which a process has moved */
  function Effective(n: int, schedule: seq<Who>): nat {
    if |schedule| == 0 then 0
    else
      var m := |schedule| - 1;
      Effective(n, schedule[..m]) + if CanStep(Run(n, schedule[..m]), schedule[m]) then 1 else 0
  }

  /** Every move is paid for by the work there was at the beginning. */
  lemma {:induction false} MovesArePaid(n: int, schedule: seq<Who>)
    ensures 0 <= Work(Run(n, schedule)) && Work(Run(n, schedule)) + Effective(n, schedule) <= Work(Initial(n))
  {
    hide Step, Inv, Work, Initial;
    if |schedule| > 0 {
      var m := |schedule| - 1;
      MovesArePaid(n, schedule[..m]);
      EveryRun(n, schedule[..m]);
      if CanStep(Run(n, schedule[..m]), schedule[m]) {
        StepsRunOut(Run(n, schedule[..m]), schedule[m]);
      }
    } else {
      StartWork(n);
    }
  }

  lemma StartWork(n: int)
    ensures Work(Initial(n)) >= 0
  {
  }

  lemma OverIs(s: State)
    ensures Over(s) ==> s.parent == Done && s.child == Done && s.counter == if s.n <= 0 then 0 else s.n + s.n % 2
  {
  }

  /** Both loops have finished as soon as a schedule has let the processes move as often as
      there was work. */
  lemma EnoughMoves(n: int, schedule: seq<Who>)
    requires Effective(n, schedule) >= Work(Initial(n))
    ensures Over(Run(n, schedule))
    ensures var s := Run(n, schedule);
            s.parent == Done && s.child == Done && s.counter == if n <= 0 then 0 else n + n % 2
  {
    hide Step, Inv, Work, Initial, Over, CanStep;
    var s := Run(n, schedule);
    OverIs(s);
    MovesArePaid(n, schedule);
    EveryRun(n, schedule);
    OneAtATime(s);
    if CanStep(s, Parent) {
      StepsRunOut(s, Parent);
    } else if CanStep(s, Child) {
      StepsRunOut(s, Child);
    }
  }

  /** A stretch of a schedule in which nobody moves leaves the state, and nobody it gives a
      turn to can move. */
  lemma {:induction false} Stretch(n: int, before: seq<Who>, more: seq<Who>)
    ensures Effective(n, before + more) >= Effective(n, before)
    ensures Effective(n, before + more) == Effective(n, before) ==>
              Run(n, before + more) == Run(n, before) && forall who | who in more :: !CanStep(Run(n, before), who)
  {
    hide Step, CanStep;
    if |more| == 0 {
      assert before + more == before;
    } else {
      var m := |more| - 1;
      Stretch(n, before, more[..m]);
      assert (before + more)[..|before + more| - 1] == before + more[..m];
      assert more == more[..m] + [more[m]];
    }
  }

  /** A schedule given in rounds, one after the other */
  function Rounds(rounds: seq<seq<Who>>): seq<Who> {
    if |rounds| == 0 then [] else Rounds(rounds[..|rounds| - 1]) + rounds[|rounds| - 1]
  }

  /** As long as the loops have not finished, a round in which each process has a turn moves
      one of them; so with that many rounds both loops finish. */
  lemma {:induction false} FairScheduleEnds(n: int, rounds: seq<seq<Who>>)
    requires forall i | 0 <= i < |rounds| :: Parent in rounds[i] && Child in rounds[i]
    ensures Over(Run(n, Rounds(rounds))) || Effective(n, Rounds(rounds)) >= |rounds|
    ensures |rounds| >= Work(Initial(n)) ==> Over(Run(n, Rounds(rounds)))
  {
    hide Step, Inv, Work, Initial, Over, CanStep;
    if |rounds| > 0 {
      var m := |rounds| - 1;
      var before, last := Rounds(rounds[..m]), rounds[m];
      FairScheduleEnds(n, rounds[..m]);
      Stretch(n, before, last);
      EveryRun(n, before);
      OneAtATime(Run(n, before));
      if Over(Run(n, before)) {
        OverStays(n, before, last);
      }
    }
    if Effective(n, Rounds(rounds)) >= Work(Initial(n)) {
      EnoughMoves(n, Rounds(rounds));
    }
  }

  lemma {:induction false} OverStays(n: int, before: seq<Who>, more: seq<Who>)
    requires Over(Run(n, before))
    ensures Over(Run(n, before + more))
  {
    if |more| == 0 {
      assert before + more == before;
    } else {
      OverStays(n, before, more[..|more| - 1]);
      assert (before + more)[..|before + more| - 1] == before + more[..|more| - 1];
    }
  }
}
