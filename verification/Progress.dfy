/** Every call ends after a bounded number of its own steps, whatever the other processes do
    in between: its lists are locked while it walks along them. */
module Progress {
  import opened Common
  import opened Decimal
  import opened IndexFormat
  import opened IndexFile
  import opened Chains
  import opened Operations
  import opened Runs
  import opened Concurrency
  import opened Interleaving
  import opened Safety
  import opened Protocol

  /** How far a call is from its end, the steps of a walk not counted */
  function Phase(pc: PC): nat {
    match pc
    case Idle | Dead => 0
    case Release => 1
    case LinkHead | Overwrite | ReadDat => 2
    case IdxDrop | ReuseIdx => 3
    case IdxWrite | ReuseDat => 4
    case IdxWait | TakenDrop => 5
    case DatDrop | FreeTake => 6
    case DatWrite => 7
    case DatWait => 8
    case Reread | FreeDrop => 9
    case FreeWalk | DelDrop => 10
    case FreeHead | SetPrev => 11
    case FreeWait | SetFree => 12
    case HeadForNew | BlankIdx => 13
    case ReadFree => 14
    case BlankDat => 15
    case DelWait => 16
    case Walk => 17
    case ReadHead => 18
    case ChainWait => 19
  }

  /** The list that a process walks along or is about to */
  function WalkedList(s: State, p: int): seq<int>
    requires s.ix.nhash > 0 && 0 <= p < |s.procs|
  {
    var pr := s.procs[p];
    if pr.pc.Walk? || pr.pc.ReadHead? then List(s, ChainOf(pr, s.ix.nhash))
    else if pr.pc.FreeWalk? || pr.pc.FreeHead? then List(s, 0)
    else []
  }

  /** Nodes still ahead on a walk */
  function Left(s: State, p: int): nat
    requires s.ix.nhash > 0 && 0 <= p < |s.procs|
  {
    var pr := s.procs[p];
    var n := |WalkedList(s, p)| - pr.i;
    if (pr.pc.Walk? || pr.pc.FreeWalk?) && n > 0 then n else 0
  }

  function Rank(s: State, p: int): nat
    requires s.ix.nhash > 0 && 0 <= p < |s.procs|
  {
    Phase(s.procs[p].pc) + Left(s, p)
  }

  predicate EntersWalk(pc: PC) {
    pc.ReadHead? || pc.FreeHead?
  }

  // ---------- one step ----------

  /** The lists that a step may change are those its process has locked. */
  lemma ListsKept(s: State, p: int, k: int)
    requires Inv(s) && Enabled(s, p) && !MayChange(s, p, k)
    ensures List(Step(s, p), k) == List(s, k)
  {
    ProcIsOk(s, p);
    ShapeChangers(s, p);
    hide Inv, Step, Enabled, Hash, ProcOk;
    ShapeStep(s, p, k);
  }

  /** A process that is about to change its chain is a writer. */
  lemma ShapeChangers(s: State, p: int)
    requires s.ix.nhash > 0 && 0 <= p < |s.procs| && ProcOk(s, p)
    ensures s.procs[p].pc.BlankIdx? || s.procs[p].pc.LinkHead? ==> Writes(s.procs[p].op)
  {
    hide Hash, At, Shows, Taken, HoldingKey, Extent, Ready, HasHead, StepMap;
  }

  lemma ShapeStep(s: State, p: int, k: int)
    requires s.ix.nhash > 0 && 0 <= p < |s.procs| && !MayChange(s, p, k)
    requires s.procs[p].pc.BlankIdx? || s.procs[p].pc.LinkHead? ==> Writes(s.procs[p].op)
    ensures List(Step(s, p), k) == List(s, k)
  {
    hide Local, StepMap, SetRec, SetPtr, AddRec, Hash, NewRec, Blanked, RecAt, BodyLen;
    match s.procs[p].pc
    case BlankIdx =>
    case SetFree | FreeTake =>
    case LinkHead =>
    case _ =>
      ShapeSame(s, p);
  }

  lemma ShapeSame(s: State, p: int)
    requires s.ix.nhash > 0 && 0 <= p < |s.procs|
    requires s.procs[p].pc !in {BlankIdx, SetFree, FreeTake, LinkHead}
    ensures Step(s, p).sh == s.sh
  {
    hide Local, StepMap, SetRec, SetPtr, AddRec, Hash, NewRec, Blanked, RecAt, BodyLen, NewData;
    if IsLocal(s.procs[p].pc) {
      PlainStep(s, p);
    } else {
      match s.procs[p].pc
      case Release | BlankDat | SetPrev =>
      case ReuseDat | ReuseIdx | DatWrite =>
      case _ =>
    }
  }

  lemma OthersRank(s: State, p: int, q: int)
    requires Inv(s) && Enabled(s, p) && 0 <= q < |s.procs| && q != p
    ensures Step(s, p).ix.nhash == s.ix.nhash && |Step(s, p).procs| == |s.procs| && Step(s, p).procs[q] == s.procs[q]
    ensures Rank(Step(s, p), q) == Rank(s, q)
  {
    ExclusiveThere(s);
    StepFrame(s, p);
    hide Inv, Step, Enabled, Conflict, Hash, MayChange, Phase, WalkedList, Exclusive;
    if s.procs[q].pc.Walk? || s.procs[q].pc.FreeWalk? {
      WalkKept(s, p, q);
    }
  }

  /** The list along which a process walks is locked. */
  lemma WalkKept(s: State, p: int, q: int)
    requires Inv(s) && Enabled(s, p) && 0 <= q < |s.procs| && q != p
    requires s.procs[q].pc.Walk? || s.procs[q].pc.FreeWalk?
    requires var t := Step(s, p); t.ix.nhash == s.ix.nhash && |t.procs| == |s.procs| && t.procs[q] == s.procs[q]
    ensures WalkedList(Step(s, p), q) == WalkedList(s, q)
  {
    ExclusiveThere(s);
    assert 0 <= p < |s.procs|;
    hide Inv, Step, Enabled, Conflict, Hash, MayChange, Exclusive;
    LockedOut(s, p, q);
    ListsKept(s, p, if s.procs[q].pc.Walk? then ChainOf(s.procs[q], s.ix.nhash) else 0);
  }

  lemma ExclusiveThere(s: State)
    requires Inv(s)
    ensures s.ix.nhash > 0 && Exclusive(s)
  {
    hide Structure, Exclusive, DataOk, PendOk, Agree, ProcsOk, History;
    NhashPositive(s);
  }

  lemma NhashPositive(s: State)
    requires Structure(s)
    ensures s.ix.nhash > 0
  {
  }

  lemma StepFrame(s: State, p: int)
    requires s.ix.nhash > 0 && 0 <= p < |s.procs|
    ensures Step(s, p).ix.nhash == s.ix.nhash && |Step(s, p).procs| == |s.procs|
    ensures forall q | 0 <= q < |s.procs| && q != p :: Step(s, p).procs[q] == s.procs[q]
  {
    hide Step;
    SameTable(s, p);
    SameProcs(s, p);
  }

  lemma PlainStep(s: State, p: int)
    requires s.ix.nhash > 0 && 0 <= p < |s.procs| && IsLocal(s.procs[p].pc)
    ensures Step(s, p) == Put(s, p, Local(s, s.procs[p]))
  {
    hide Local, Finish, Die, BlankDatDone, BlankIdxDone, SetFreeDone, SetPrevDone, FreeTakeDone, ReuseDatDone,
         ReuseIdxDone,
         DatWriteDone, IdxWriteDone, LinkHeadDone, OverwriteDone, Hash;
  }

  lemma SameTable(s: State, p: int)
    requires s.ix.nhash > 0 && 0 <= p < |s.procs|
    ensures Step(s, p).ix.nhash == s.ix.nhash
  {
    hide Hash, Local, Stored, Push, Unlink, StepMap, BodyLen, Blanked, RecAt, NewRec, NewData;
    if IsLocal(s.procs[p].pc) {
      PlainStep(s, p);
    } else {
      match s.procs[p].pc
      case BlankIdx | SetFree =>
      case SetPrev | FreeTake =>
      case ReuseIdx | IdxWrite =>
      case LinkHead =>
      case _ =>
    }
  }

  /** The process after its step */
  function Stepped(s: State, p: int): Proc
    requires s.ix.nhash > 0 && 0 <= p < |s.procs|
  {
    var pr := s.procs[p];
    match pr.pc
    case Release => pr.(pc := Idle)
    case BlankDat => pr.(pc := ReadFree)
    case BlankIdx => pr.(pc := SetFree)
    case SetFree => pr.(pc := SetPrev)
    case SetPrev => pr.(pc := DelDrop)
    case FreeTake => pr.(pc := TakenDrop)
    case ReuseDat => pr.(pc := ReuseIdx)
    case ReuseIdx => pr.(pc := LinkHead)
    case DatWrite => pr.(pc := DatDrop, datoff := s.dsize)
    case Walk | DatDrop => if Refused(s, pr) then pr.(pc := Dead) else Local(s, pr)
    case IdxWrite => pr.(pc := IdxDrop, idxoff := s.ix.size)
    case LinkHead => if pr.idxoff > PTR_MAX then pr.(pc := Dead) else pr.(pc := Release, res := Code(0))
    case Overwrite => pr.(pc := Release, res := Code(0))
    case _ => Local(s, pr)
  }

  lemma SameProcs(s: State, p: int)
    requires s.ix.nhash > 0 && 0 <= p < |s.procs|
    ensures Step(s, p).procs == s.procs[p := Stepped(s, p)]
  {
    hide Step, Stepped;
    if IsLocal(s.procs[p].pc) {
      PlainStep(s, p);
      PlainStepped(s, p);
    } else if Moving(s.procs[p].pc) {
      MovingProcs(s, p);
    } else {
      WritingProcs(s, p);
    }
  }

  lemma PlainStepped(s: State, p: int)
    requires s.ix.nhash > 0 && 0 <= p < |s.procs| && IsLocal(s.procs[p].pc)
    ensures Stepped(s, p) == Local(s, s.procs[p])
  {
    hide Local, BodyLen, NewRec;
  }

  lemma WritingProcs(s: State, p: int)
    requires s.ix.nhash > 0 && 0 <= p < |s.procs| && !IsLocal(s.procs[p].pc) && !Moving(s.procs[p].pc)
    ensures Step(s, p).procs == s.procs[p := Stepped(s, p)]
  {
    hide Hash, Local, Stored, Push, Unlink, StepMap, BodyLen, Blanked, RecAt, NewRec, NewData, SetRec, SetPtr, AddRec,
         BlankIdxDone, SetFreeDone, FreeTakeDone, IdxWriteDone, LinkHeadDone;
    match s.procs[p].pc
    case Release | BlankDat | SetPrev =>
    case ReuseDat | ReuseIdx | Overwrite =>
    case _ =>
  }

  lemma MovingProcs(s: State, p: int)
    requires s.ix.nhash > 0 && 0 <= p < |s.procs| && Moving(s.procs[p].pc)
    ensures Step(s, p).procs == s.procs[p := Stepped(s, p)]
  {
    hide Hash, Local, Stored, Push, Unlink, StepMap, BodyLen, Blanked, RecAt, NewRec, NewData, SetRec, SetPtr, AddRec,
         Finish, BlankDatDone, SetPrevDone, ReuseDatDone, ReuseIdxDone, DatWriteDone, OverwriteDone;
    match s.procs[p].pc
    case BlankIdx =>
    case SetFree =>
    case FreeTake =>
    case IdxWrite =>
    case LinkHead =>
  }

  // ---------- the steps of a process itself ----------

  /** Where a step takes its process */
  lemma NextPhase(s: State, p: int)
    requires s.ix.nhash > 0 && 0 <= p < |s.procs| && Active(s.procs[p])
    ensures var pc, pc' := s.procs[p].pc, Stepped(s, p).pc;
            Phase(pc') < Phase(pc) || (pc' == pc && (pc.Walk? || pc.FreeWalk?))
  {
    hide Stepped, Phase;
    if IsLocal(s.procs[p].pc) {
      PlainStepped(s, p);
      LocalPhase(s, s.procs[p]);
    } else {
      if IsChecked(s.procs[p].pc) {
        LocalPhase(s, s.procs[p]);
      }
      WritePhase(s, p);
    }
  }

  lemma LocalPhase(s: State, pr: Proc)
    requires s.ix.nhash > 0 && (IsLocal(pr.pc) || IsChecked(pr.pc))
    ensures var pc, pc' := pr.pc, Local(s, pr).pc;
            Phase(pc') < Phase(pc) || (pc' == pc && (pc.Walk? || pc.FreeWalk?))
  {
    hide WalkStep, FreeWalkStep, Hash, Ptr;
    WalkPhase(s, pr);
  }

  lemma WalkPhase(s: State, pr: Proc)
    ensures pr.pc.Walk? ==> WalkStep(s, pr).pc == Walk || Phase(WalkStep(s, pr).pc) < Phase(Walk)
    ensures pr.pc.FreeWalk? ==> FreeWalkStep(s, pr).pc == FreeWalk || Phase(FreeWalkStep(s, pr).pc) < Phase(FreeWalk)
  {
    hide Ptr, RecAt, DataLen;
  }

  lemma WritePhase(s: State, p: int)
    requires s.ix.nhash > 0 && 0 <= p < |s.procs| && Active(s.procs[p]) && !IsLocal(s.procs[p].pc)
    requires var pc, pc' := s.procs[p].pc, Local(s, s.procs[p]).pc;
             IsChecked(pc) ==> Phase(pc') < Phase(pc) || pc == pc' == Walk
    ensures var pc, pc' := s.procs[p].pc, Stepped(s, p).pc;
            Phase(pc') < Phase(pc) || (pc' == pc && pc.Walk?)
  {
    hide Local, Hash, Refused;
  }

  /** A process that stays on its walk has gone one node further. */
  lemma NextNode(s: State, p: int)
    requires s.ix.nhash > 0 && 0 <= p < |s.procs| && Stepped(s, p).pc == s.procs[p].pc
    requires s.procs[p].pc.Walk? || s.procs[p].pc.FreeWalk?
    ensures Stepped(s, p).i == s.procs[p].i + 1 && Stepped(s, p).op == s.procs[p].op
  {
    hide Hash, Ptr, RecAt;
  }

  /** A process on its walk stands at a node of the list. */
  lemma OnWalk(s: State, p: int)
    requires Inv(s) && 0 <= p < |s.procs| && (s.procs[p].pc.Walk? || s.procs[p].pc.FreeWalk?)
    ensures 0 <= s.procs[p].i < |WalkedList(s, p)|
  {
    hide Inv, Hash, Passed, Adding, HasHead, Callable;
    ProcIsOk(s, p);
  }

  /** A step brings the call of its process nearer to the end; only a step that begins a walk
      adds the length of the list. */
  lemma OwnRank(s: State, p: int)
    requires Inv(s) && Enabled(s, p) && Inv(Step(s, p))
    ensures Step(s, p).ix.nhash == s.ix.nhash && |Step(s, p).procs| == |s.procs|
    ensures Rank(Step(s, p), p) < Rank(s, p) + if EntersWalk(s.procs[p].pc) then |WalkedList(s, p)| else 0
    ensures EntersWalk(s.procs[p].pc) ==> Phase(Step(s, p).procs[p].pc) < Phase(s.procs[p].pc)
    ensures Phase(Step(s, p).procs[p].pc) <= Phase(s.procs[p].pc)
  {
    var t := Step(s, p);
    assert Active(s.procs[p]) && s.ix.nhash > 0;
    hide Inv, Step, Stepped, Enabled, Hash, Phase, WalkedList;
    StepFrame(s, p);
    SameProcs(s, p);
    NextPhase(s, p);
    var pc, pc' := s.procs[p].pc, t.procs[p].pc;
    if pc'.Walk? || pc'.FreeWalk? {
      IntoWalk(s, p);
      SameWalk(s, t, p);
      OnWalk(t, p);
      if pc' == pc {
        OnWalk(s, p);
        NextNode(s, p);
      } else {
        EnterPhase(pc, pc');
      }
    }
  }

  lemma SameWalk(s: State, t: State, p: int)
    requires s.ix.nhash > 0 && t.ix.nhash == s.ix.nhash && t.sh == s.sh && 0 <= p < |s.procs| == |t.procs|
    requires t.procs[p].op == s.procs[p].op
    requires var pc, pc' := s.procs[p].pc, t.procs[p].pc;
             || (pc == pc' && (pc.Walk? || pc.FreeWalk?))
             || (pc'.Walk? && pc.ReadHead?) || (pc'.FreeWalk? && pc.FreeHead?)
    ensures WalkedList(t, p) == WalkedList(s, p)
  {
    hide Hash;
  }

  lemma EnterPhase(pc: PC, pc': PC)
    requires (pc.ReadHead? && pc'.Walk?) || (pc.FreeHead? && pc'.FreeWalk?)
    ensures Phase(pc') < Phase(pc)
  {
  }

  /** A walk is begun by reading the head of its list, and it changes nothing. */
  lemma IntoWalk(s: State, p: int)
    requires s.ix.nhash > 0 && 0 <= p < |s.procs| && (Stepped(s, p).pc.Walk? || Stepped(s, p).pc.FreeWalk?)
    ensures var pc, pc' := s.procs[p].pc, Stepped(s, p).pc;
            && (pc == pc' || (pc'.Walk? && pc.ReadHead?) || (pc'.FreeWalk? && pc.FreeHead?))
            && Stepped(s, p).op == s.procs[p].op && (pc != pc' ==> Stepped(s, p).i == 0)
    ensures Step(s, p).sh == s.sh
  {
    hide Step, Hash, BodyLen, NewRec, Ptr, RecAt;
    ShapeSame(s, p);
  }

  /** When a step ends its process: a chain record whose key has a separator, a record to be
      appended of less than 6 or more than 1024 characters, or an offset beyond seven digits */
  lemma DiesWhen(s: State, p: int)
    requires Inv(s) && Enabled(s, p)
    ensures s.ix.nhash > 0 && 0 <= p < |s.procs| && p < |Step(s, p).procs|
    ensures var pr := s.procs[p];
            Step(s, p).procs[p].pc.Dead? <==>
              || (pr.pc.Walk? && pr.off != 0 && pr.off in s.ix.recs && ':' in s.ix.recs[pr.off].key)
              || (pr.pc.DatDrop? && !(6 <= |pr.op.key| + |Digits(pr.datoff)| + |Digits(DataLen(pr.op))| + 3 <= 1024))
              || (pr.pc.LinkHead? && pr.idxoff > 9999999)
  {
    assert s.ix.nhash > 0 && 0 <= p < |s.procs| && !s.procs[p].pc.Dead? && !s.procs[p].pc.Idle?;
    hide Inv, Step, Enabled, Stepped, Hash;
    StepFrame(s, p);
    SameProcs(s, p);
    if IsLocal(s.procs[p].pc) || IsChecked(s.procs[p].pc) {
      LocalLives(s, s.procs[p]);
    }
    SteppedDies(s, p);
  }

  lemma LocalLives(s: State, pr: Proc)
    requires s.ix.nhash > 0 && (IsLocal(pr.pc) || IsChecked(pr.pc))
    ensures !Local(s, pr).pc.Dead?
  {
    hide Hash, Ptr, RecAt, DataLen;
  }

  lemma SteppedDies(s: State, p: int)
    requires s.ix.nhash > 0 && 0 <= p < |s.procs| && !s.procs[p].pc.Dead? && !s.procs[p].pc.Idle?
    requires IsLocal(s.procs[p].pc) || IsChecked(s.procs[p].pc) ==> !Local(s, s.procs[p]).pc.Dead?
    ensures var pr := s.procs[p];
            Stepped(s, p).pc.Dead? <==>
              || (pr.pc.Walk? && pr.off != 0 && pr.off in s.ix.recs && ':' in s.ix.recs[pr.off].key)
              || (pr.pc.DatDrop? && !(6 <= |pr.op.key| + |Digits(pr.datoff)| + |Digits(DataLen(pr.op))| + 3 <= 1024))
              || (pr.pc.LinkHead? && pr.idxoff > 9999999)
  {
    hide Hash, Local, Digits, DataLen;
  }

  // ---------- a whole call ----------

  /** One move, by process w; a process other than p may also begin a call. */
  ghost predicate MoveOf(s: State, t: State, w: int, p: int) {
    && s.ix.nhash > 0
    && ((Enabled(s, w) && t == Step(s, w))
        || (w != p && 0 <= w < |s.procs| && s.procs[w].pc.Idle? && exists op :: Callable(op) && t == Begin(s, w, op)))
  }

  /** A stretch of a run in which process p does not begin a new call; who made each move */
  ghost predicate Stretch(run: seq<State>, who: seq<int>, p: int) {
    && |run| == |who| + 1 && Inv(run[0]) && 0 <= p < |run[0].procs|
    && forall i | 0 <= i < |who| :: MoveOf(run[i], run[i + 1], who[i], p)
  }

  /** How often p has moved */
  function OwnSteps(who: seq<int>, p: int): nat {
    if |who| == 0 then 0 else OwnSteps(who[..|who| - 1], p) + if who[|who| - 1] == p then 1 else 0
  }

  /** The move i of a stretch is one with which p begins a walk. */
  predicate Begins(run: seq<State>, who: seq<int>, p: int, i: nat, pc: PC)
    requires |run| == |who| + 1 && i < |who|
  {
    who[i] == p && 0 <= p < |run[i].procs| && run[i].procs[p].pc == pc
  }

  /** The lengths of the lists along which p has begun to walk, when it began */
  function Lengths(run: seq<State>, who: seq<int>, p: int): nat
    requires |run| == |who| + 1
  {
    if |who| == 0 then 0
    else
      var n := |who| - 1;
      Lengths(run[..n + 1], who[..n], p) +
      if (Begins(run, who, p, n, ReadHead) || Begins(run, who, p, n, FreeHead)) && run[n].ix.nhash > 0
      then |WalkedList(run[n], p)| else 0
  }

  lemma OneMove(s: State, t: State, w: int, p: int)
    requires Inv(s) && MoveOf(s, t, w, p) && 0 <= p < |s.procs|
    ensures Inv(t) && |t.procs| == |s.procs| && t.ix.nhash == s.ix.nhash > 0
    ensures w != p ==> t.procs[p] == s.procs[p] && Rank(t, p) == Rank(s, p)
    ensures w == p ==> Rank(t, p) < Rank(s, p) + if EntersWalk(s.procs[p].pc) then |WalkedList(s, p)| else 0
    ensures w == p ==> Phase(t.procs[p].pc) <= Phase(s.procs[p].pc)
    ensures w == p && EntersWalk(s.procs[p].pc) ==> Phase(t.procs[p].pc) < Phase(s.procs[p].pc)
  {
    assert Enabled(s, w) ==> 0 <= w < |s.procs|;
    hide Inv, Step, Enabled, Callable, Hash, Conflict;
    if Enabled(s, w) && t == Step(s, w) {
      StepKeepsInv(s, w);
      if w == p {
        OwnRank(s, p);
      } else {
        OthersRank(s, w, p);
      }
    } else {
      var op :| Callable(op) && t == Begin(s, w, op);
      BeginKeepsInv(s, w, op);
    }
  }

  lemma Shorter(run: seq<State>, who: seq<int>, p: int)
    requires Stretch(run, who, p) && |who| > 0
    ensures Stretch(run[..|who|], who[..|who| - 1], p)
  {
    hide Inv, MoveOf;
    var n := |who| - 1;
    forall i | 0 <= i < n ensures MoveOf(run[..|who|][i], run[..|who|][i + 1], who[..n][i], p) {
      assert MoveOf(run[i], run[i + 1], who[i], p);
    }
  }

  /** The number of steps that a call takes itself is bounded by how far it was from its end
      and the lengths of the lists it walks along, whatever other processes do meanwhile. */
  lemma {:induction false} OwnStepsBounded(run: seq<State>, who: seq<int>, p: int)
    requires Stretch(run, who, p)
    ensures var last := run[|who|];
            && Inv(last) && last.ix.nhash > 0 && |last.procs| == |run[0].procs| && run[0].ix.nhash > 0
            && OwnSteps(who, p) + Rank(last, p) <= Rank(run[0], p) + Lengths(run, who, p)
    decreases |who|
  {
    hide Inv, MoveOf, Rank, WalkedList;
    if |who| > 0 {
      var n := |who| - 1;
      Shorter(run, who, p);
      OwnStepsBounded(run[..n + 1], who[..n], p);
      OneMove(run[n], run[n + 1], who[n], p);
    } else {
      ExclusiveThere(run[0]);
    }
  }

  /** What is still to come of walks, when no list is longer than max */
  function Ahead(pc: PC, max: nat): nat {
    (if Phase(pc) >= 18 then max else 0) + if Phase(pc) >= 11 then max else 0
  }

  ghost predicate Short(s: State, max: nat) {
    forall k | 0 <= k < |s.sh.lists| :: |s.sh.lists[k]| <= max
  }

  lemma ShortWalk(s: State, p: int, max: nat)
    requires Short(s, max) && Inv(s) && s.ix.nhash > 0 && 0 <= p < |s.procs|
    ensures |WalkedList(s, p)| <= max && Rank(s, p) <= 19 + max
  {
    hide Hash, Inv;
    if s.procs[p].pc.Walk? || s.procs[p].pc.FreeWalk? {
      OnWalk(s, p);
    }
  }

  lemma {:induction false} LengthsAre(run: seq<State>, who: seq<int>, p: int, max: nat)
    requires Stretch(run, who, p) && forall i | 0 <= i < |run| :: Short(run[i], max)
    ensures |run[|who|].procs| == |run[0].procs|
    ensures Lengths(run, who, p) + Ahead(run[|who|].procs[p].pc, max) <= Ahead(run[0].procs[p].pc, max)
    decreases |who|
  {
    hide Inv, MoveOf, Short, WalkedList, Rank;
    if |who| > 0 {
      var n := |who| - 1;
      Shorter(run, who, p);
      LengthsAre(run[..n + 1], who[..n], p, max);
      StretchInv(run, who, p, n);
      OneMove(run[n], run[n + 1], who[n], p);
      ShortWalk(run[n], p, max);
      LengthsStep(run, who, p, n);
    }
  }

  lemma LengthsStep(run: seq<State>, who: seq<int>, p: int, n: int)
    requires |run| == |who| + 1 && n == |who| - 1 >= 0 && 0 <= p < |run[n].procs| && run[n].ix.nhash > 0
    ensures Lengths(run, who, p) == Lengths(run[..n + 1], who[..n], p) +
                                    if who[n] == p && EntersWalk(run[n].procs[p].pc) then |WalkedList(run[n], p)| else 0
  {
    hide WalkedList;
  }

  lemma {:induction false} OwnStepsUpTo(who: seq<int>, n: nat, p: int)
    requires n <= |who|
    ensures OwnSteps(who[..n], p) == |set i | 0 <= i < n && who[i] == p|
  {
    if n > 0 {
      OwnStepsUpTo(who, n - 1, p);
      assert who[..n][..n - 1] == who[..n - 1];
      OneIndex((set i | 0 <= i < n - 1 && who[i] == p), (set i | 0 <= i < n && who[i] == p), n - 1, who[n - 1] == p);
    }
  }

  /** If no list is ever longer than max, a call takes at most 19 steps and three times max,
      whatever other processes do in between. */
  lemma CallIsShort(run: seq<State>, who: seq<int>, p: int, max: nat)
    requires Stretch(run, who, p)
    requires forall i, k | 0 <= i < |run| && 0 <= k < |run[i].sh.lists| :: |run[i].sh.lists[k]| <= max
    ensures |set i | 0 <= i < |who| && who[i] == p| <= 19 + 3 * max
  {
    hide Inv, MoveOf, Rank, WalkedList;
    assert forall i | 0 <= i < |run| :: Short(run[i], max);
    OwnStepsBounded(run, who, p);
    LengthsAre(run, who, p, max);
    ShortWalk(run[0], p, max);
    OwnStepsUpTo(who, |who|, p);
    assert who[..|who|] == who;
  }

  /** A call walks along its chain once and along the free list once, at most. */
  lemma {:induction false} WalksOnce(run: seq<State>, who: seq<int>, p: int, i: nat, j: nat, pc: PC)
    requires Stretch(run, who, p) && i < j < |who| && EntersWalk(pc)
    requires Begins(run, who, p, i, pc)
    ensures !Begins(run, who, p, j, pc)
  {
    PhaseFalls(run, who, p, i, j, pc);
  }

  lemma {:induction false} PhaseFalls(run: seq<State>, who: seq<int>, p: int, i: nat, j: nat, pc: PC)
    requires Stretch(run, who, p) && i < j <= |who| && EntersWalk(pc)
    requires Begins(run, who, p, i, pc)
    ensures |run[j].procs| == |run[0].procs| && Phase(run[j].procs[p].pc) < Phase(pc)
    decreases j
  {
    hide Inv, MoveOf, Rank, WalkedList, Phase;
    StretchInv(run, who, p, j - 1);
    OneMove(run[j - 1], run[j], who[j - 1], p);
    if i < j - 1 {
      PhaseFalls(run, who, p, i, j - 1, pc);
    }
  }

  lemma {:induction false} StretchInv(run: seq<State>, who: seq<int>, p: int, j: nat)
    requires Stretch(run, who, p) && j <= |who|
    ensures Inv(run[j]) && |run[j].procs| == |run[0].procs|
  {
    hide Inv, MoveOf, Rank, WalkedList;
    if j > 0 {
      StretchInv(run, who, p, j - 1);
      OneMove(run[j - 1], run[j], who[j - 1], p);
    }
  }
}
