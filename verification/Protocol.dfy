/** What the locking protocol guarantees over whole runs. */
module Protocol {
  import opened Common
  import D = Database
  import opened Decimal
  import opened IndexFormat
  import opened IndexFile
  import opened Chains
  import opened Operations
  import opened Runs
  import opened Concurrency
  import opened Interleaving
  import opened Safety
  import opened SystemCalls

  /** An empty database and n idle processes */
  function Initial(nhash: nat, n: nat): State {
    State(FreshIndex(nhash), map[], 0, seq(n, i => Proc(Idle, FetchOp(""), 0, 0, 0, 0, 0, 0, 0, 0, false, Code(0), 0)),
          FreshShape(nhash), map[], map[], NoPending, map[], [])
  }

  /** One move of the whole system: an idle process makes a call, or a process that can
      proceed makes its next system call. */
  ghost predicate Moves(s: State, t: State) {
    && s.ix.nhash > 0
    && ((exists p, op :: 0 <= p < |s.procs| && s.procs[p].pc.Idle? && Callable(op) && t == Begin(s, p, op))
        || (exists p :: Enabled(s, p) && t == Step(s, p)))
  }

  /** A run: states that follow one another from an initial one */
  ghost predicate IsRun(run: seq<State>, nhash: nat, n: nat) {
    && nhash > 0 && |run| > 0 && run[0] == Initial(nhash, n)
    && forall i | 1 <= i < |run| :: Moves(run[i - 1], run[i])
  }

  lemma EmptyLayout(nhash: nat)
    requires nhash > 0
    ensures Layout(FreshIndex(nhash))
  {
    var ix := FreshIndex(nhash);
    assert Fields(ix.ptrs.Keys, nhash, ix.lens.Keys);
  }

  lemma InitialInv(nhash: nat, n: nat)
    requires nhash > 0
    ensures Inv(Initial(nhash, n))
  {
    hide Layout, Shaped;
    var s := Initial(nhash, n);
    EmptyLayout(nhash);
    FreshShaped(nhash);
    assert s.limbo.Keys == {};
    forall key ensures AgreeOn(s, key) {
    }
  }

  /** A call changes nothing that anyone relies on. */
  lemma BeginKeepsInv(s: State, p: int, op: Op)
    requires Inv(s) && 0 <= p < |s.procs| && s.procs[p].pc.Idle? && Callable(op)
    ensures Inv(Begin(s, p, op))
  {
    hide Layout, Shaped, PcOk, History, Shows;
    var t := Begin(s, p, op);
    LimboPtrs(s);
    FreshOwn(s, p);
    EndIsFresh(Eff(s));
    forall x | x in s.ix.recs ensures ExtOk(t, x) {
      assert ExtOk(s, x);
    }
    SameHistory(s, t);
    ExclusiveKept(s, t, p) by {
      hide Inv;
    }
    assert Frame(s, t, p, s.ix.size);
    BeginPc(s, t, p, op);
    hide DataOk, Frame, OwnRecord, Conflict;
    Assemble(s, t, p, s.ix.size);
  }

  lemma BeginPc(s: State, t: State, p: int, op: Op)
    requires s.ix.nhash > 0 && 0 <= p < |s.procs| && t == Begin(s, p, op) && Callable(op)
    ensures ProcOk(t, p)
  {
  }

  lemma MoveKeepsInv(s: State, t: State)
    requires Inv(s) && Moves(s, t)
    ensures Inv(t)
  {
    hide Inv, Step, Begin, Callable, Conflict, Waiting;
    if p, op :| 0 <= p < |s.procs| && s.procs[p].pc.Idle? && Callable(op) && t == Begin(s, p, op) {
      BeginKeepsInv(s, p, op);
    } else {
      var p :| Enabled(s, p) && t == Step(s, p);
      StepKeepsInv(s, p);
    }
  }

  /** Between taking a record off one list and putting it on another */
  predicate Carries(pc: PC) {
    pc in {SetFree, TakenDrop, ReuseDat, ReuseIdx, IdxDrop, LinkHead}
  }

  /** A record that is on no list is the one its process is moving, or was moving when
      it died. */
  ghost predicate Carried(s: State) {
    forall x | x in s.limbo ::
      && 0 <= s.limbo[x] < |s.procs|
      && (s.procs[s.limbo[x]].pc.Dead? || (Carries(s.procs[s.limbo[x]].pc) && s.procs[s.limbo[x]].idxoff == x))
  }

  lemma LocalKeepsRecord(s: State, pr: Proc)
    requires s.ix.nhash > 0 && (IsLocal(pr.pc) || IsChecked(pr.pc)) && Carries(pr.pc)
    ensures Carries(Local(s, pr).pc) && Local(s, pr).idxoff == pr.idxoff
  {
  }

  /** What a step of process p may do to the records in hand */
  ghost predicate HandsOver(s: State, t: State, p: int)
    requires 0 <= p < |s.procs|
  {
    && |t.procs| == |s.procs| && (forall q | 0 <= q < |s.procs| && q != p :: t.procs[q] == s.procs[q])
    && (forall x | x in t.limbo ::
         || (x in s.limbo && t.limbo[x] == s.limbo[x] != p)
         || (t.limbo[x] == p && (t.procs[p].pc.Dead? || (Carries(t.procs[p].pc) && t.procs[p].idxoff == x))))
  }

  lemma {:induction false} StepHandsOver(s: State, p: int)
    requires Carried(s) && s.ix.nhash > 0 && Enabled(s, p)
    ensures HandsOver(s, Step(s, p), p)
  {
    hide Step, HandsOver;
    if IsLocal(s.procs[p].pc) || IsChecked(s.procs[p].pc) {
      LocalHandsOver(s, p);
    } else if Moving(s.procs[p].pc) {
      MovingHandsOver(s, p);
    } else {
      WriteHandsOver(s, p);
    }
  }

  lemma WriteHandsOver(s: State, p: int)
    requires Carried(s) && s.ix.nhash > 0 && Enabled(s, p) && !IsLocal(s.procs[p].pc) && !IsChecked(s.procs[p].pc)
             && !Moving(s.procs[p].pc)
    ensures HandsOver(s, Step(s, p), p)
  {
    hide Step, Carries, Conflict;
    WriteKeepsHands(s, p);
  }

  lemma WriteKeepsHands(s: State, p: int)
    requires s.ix.nhash > 0 && 0 <= p < |s.procs| && !s.procs[p].pc.Idle? && !s.procs[p].pc.Dead?
    requires !IsLocal(s.procs[p].pc) && !IsChecked(s.procs[p].pc) && !Moving(s.procs[p].pc)
    ensures var t := Step(s, p);
            && t.limbo == s.limbo && |t.procs| == |s.procs|
            && (forall q | 0 <= q < |s.procs| && q != p :: t.procs[q] == s.procs[q])
            && (Carries(s.procs[p].pc) ==> Carries(t.procs[p].pc) && t.procs[p].idxoff == s.procs[p].idxoff)
  {
    hide Hash, Local, AddRec, SetRec, SetPtr, Stored, Push, Unlink, StepMap, BodyLen, Blanked, RecAt, NewRec, NewData,
         DataLen, Spaces, BlankIdxDone, SetFreeDone, FreeTakeDone, IdxWriteDone, LinkHeadDone;
    match s.procs[p].pc
    case Release =>
    case BlankDat =>
    case SetPrev =>
    case ReuseDat =>
    case ReuseIdx =>
    case DatWrite =>
    case Overwrite =>
  }

  /** The steps that move a record between the lists and the hands of the process */
  predicate Moving(pc: PC) {
    pc in {BlankIdx, SetFree, FreeTake, IdxWrite, LinkHead}
  }

  lemma MovingHandsOver(s: State, p: int)
    requires Carried(s) && s.ix.nhash > 0 && Enabled(s, p) && Moving(s.procs[p].pc)
    ensures HandsOver(s, Step(s, p), p)
  {
    hide Step, Carried, HandsOver, Conflict;
    if s.procs[p].pc.SetFree? || s.procs[p].pc.LinkHead? {
      PuttingHandsOver(s, p);
    } else {
      TakingHandsOver(s, p);
    }
  }

  lemma TakingHandsOver(s: State, p: int)
    requires Carried(s) && s.ix.nhash > 0 && Enabled(s, p) && s.procs[p].pc in {BlankIdx, FreeTake, IdxWrite}
    ensures HandsOver(s, Step(s, p), p)
  {
    hide Layout, Shaped, Hash, Conflict, Local, AddRec, SetRec, SetPtr, Stored, Push, Unlink, StepMap, BodyLen, Waiting,
         Blanked, RecAt, NewRec, NewData, DataLen, Spaces, StepResult, ChainOf;
    match s.procs[p].pc
    case BlankIdx =>
    case FreeTake =>
    case IdxWrite =>
  }

  lemma PuttingHandsOver(s: State, p: int)
    requires Carried(s) && s.ix.nhash > 0 && Enabled(s, p) && s.procs[p].pc in {SetFree, LinkHead}
    ensures HandsOver(s, Step(s, p), p)
  {
    hide Layout, Shaped, Hash, Conflict, Local, AddRec, SetRec, SetPtr, Stored, Push, Unlink, StepMap, BodyLen, Waiting,
         Blanked, RecAt, NewRec, NewData, DataLen, Spaces, StepResult, ChainOf;
    match s.procs[p].pc
    case SetFree =>
    case LinkHead =>
  }

  lemma LocalHandsOver(s: State, p: int)
    requires Carried(s) && s.ix.nhash > 0 && Enabled(s, p) && (IsLocal(s.procs[p].pc) || IsChecked(s.procs[p].pc))
    ensures HandsOver(s, Step(s, p), p)
  {
    hide Local, Callable, Conflict, Waiting, Refused;
    if Carries(s.procs[p].pc) {
      LocalKeepsRecord(s, s.procs[p]);
    }
  }

  lemma StepCarries(s: State, p: int)
    requires Carried(s) && s.ix.nhash > 0 && Enabled(s, p)
    ensures Carried(Step(s, p))
  {
    hide Step;
    StepHandsOver(s, p);
  }

  lemma MoveCarries(s: State, t: State)
    requires Carried(s) && Moves(s, t)
    ensures Carried(t)
  {
    hide Step, Callable, Conflict, Waiting;
    if p, op :| 0 <= p < |s.procs| && s.procs[p].pc.Idle? && Callable(op) && t == Begin(s, p, op) {
    } else {
      var p :| Enabled(s, p) && t == Step(s, p);
      StepCarries(s, p);
    }
  }

  /** Safety over every run of every number of processes. */
  lemma {:induction false} RunsAreSafe(run: seq<State>, nhash: nat, n: nat)
    requires IsRun(run, nhash, n)
    ensures Inv(run[|run| - 1]) && FilesOk(run[|run| - 1]) && Carried(run[|run| - 1])
    decreases |run|
  {
    hide Inv, Moves, Carried, FilesOk;
    if |run| == 1 {
      InitialInv(nhash, n);
      InitialFilesOk(nhash, n);
      NothingCarried(nhash, n);
    } else {
      RunsAreSafe(run[..|run| - 1], nhash, n);
      MoveKeepsInv(run[|run| - 2], run[|run| - 1]);
      MoveKeepsFiles(run[|run| - 2], run[|run| - 1]);
      MoveCarries(run[|run| - 2], run[|run| - 1]);
    }
  }

  lemma InitialFilesOk(nhash: nat, n: nat)
    ensures FilesOk(Initial(nhash, n))
  {
  }

  lemma MoveKeepsFiles(s: State, t: State)
    requires Inv(s) && FilesOk(s) && Moves(s, t)
    ensures FilesOk(t)
  {
    hide Inv, Step, Callable, Conflict, Waiting, PtrsFit, Placed;
    if p, op :| 0 <= p < |s.procs| && s.procs[p].pc.Idle? && Callable(op) && t == Begin(s, p, op) {
    } else {
      var p :| Enabled(s, p) && t == Step(s, p);
      StepKeepsFiles(s, p);
    }
  }

  lemma NothingCarried(nhash: nat, n: nat)
    ensures Carried(Initial(nhash, n))
  {
  }

  // ---------- runs on the bytes of the files ----------

  lemma MoveOnFiles(s: State, t: State, f: Files) returns (f': Files)
    requires Inv(s) && FilesOk(s) && Moves(s, t) && FilesHold(f, s)
    ensures FilesHold(f', t) && OneCall(f, f')
  {
    hide Inv, Step, Callable, Conflict, Waiting, Encodes, DataEncodes, Placed, PtrsFit;
    if p, op :| 0 <= p < |s.procs| && s.procs[p].pc.Idle? && Callable(op) && t == Begin(s, p, op) {
      assert f == Files(Apply(f.idx, Nothing), Apply(f.dat, Nothing)) && InFile(f.idx, Nothing)
             && InFile(f.dat, Nothing);
      f' := f;
    } else {
      var p :| Enabled(s, p) && t == Step(s, p);
      f' := StepOnFiles(s, p, f);
    }
  }

  lemma InitialFiles(nhash: nat, n: nat, hash: string)
    requires nhash > 0 && |hash| == 7 * (nhash + 1)
    requires forall j | 0 <= j <= nhash :: hash[7 * j..7 * j + 7] == Padded(PTR_SZ, 0)
    ensures FilesHold(Files(hash + [NEWLINE], ""), Initial(nhash, n))
  {
    FreshCorrect(hash, nhash);
  }

  /** Every run is a run on bytes: from the files that db_open creates, each step of each
      process is at most one write to each file, and after it the files hold the state. */
  lemma {:induction false} RunOnFiles(run: seq<State>, nhash: nat, n: nat, hash: string) returns (files: seq<Files>)
    requires IsRun(run, nhash, n) && |hash| == 7 * (nhash + 1)
    requires forall j | 0 <= j <= nhash :: hash[7 * j..7 * j + 7] == Padded(PTR_SZ, 0)
    ensures |files| == |run| && files[0] == Files(hash + [NEWLINE], "")
    ensures forall i | 0 <= i < |run| :: FilesHold(files[i], run[i])
    ensures forall i | 0 < i < |run| :: OneCall(files[i - 1], files[i])
    decreases |run|
  {
    hide Inv, Moves, FilesHold, OneCall, FilesOk, Initial, Carried;
    if |run| == 1 {
      InitialFiles(nhash, n, hash);
      files := [Files(hash + [NEWLINE], "")];
    } else {
      var before := run[..|run| - 1];
      var earlier := RunOnFiles(before, nhash, n, hash);
      RunsAreSafe(before, nhash, n);
      var last := MoveOnFiles(before[|before| - 1], run[|run| - 1], earlier[|before| - 1]);
      files := earlier + [last];
    }
  }

  // ---------- consequences ----------

  /** Locks in the order in which a process may wait for them: a chain first, then one
      of the free list, the end of the data file and the end of the index file. */
  datatype Lock = Chain(h: int) | FreeList | DatEnd | IdxEnd

  function Rank(l: Lock): nat {
    if l.Chain? then 0 else 1
  }

  predicate Holds(pr: Proc, l: Lock, nhash: nat)
    requires nhash > 0
  {
    match l
    case Chain(h) => HoldsChain(pr) && ChainOf(pr, nhash) == h
    case FreeList => HoldsFree(pr)
    case DatEnd => HoldsDat(pr)
    case IdxEnd => HoldsIdx(pr)
  }

  function WaitsFor(pr: Proc, nhash: nat): Option<Lock>
    requires nhash > 0
  {
    match pr.pc
    case ChainWait => Some(Chain(ChainOf(pr, nhash)))
    case DelWait | FreeWait => Some(FreeList)
    case DatWait => Some(DatEnd)
    case IdxWait => Some(IdxEnd)
    case _ => None
  }

  /** Every lock a process holds while it waits ranks below the lock it waits for. */
  lemma WaitsUpwards(pr: Proc, nhash: nat, l: Lock)
    requires nhash > 0 && WaitsFor(pr, nhash).Some? && Holds(pr, l, nhash)
    ensures Rank(l) < Rank(WaitsFor(pr, nhash).value)
  {
  }

  /** A process that waits and cannot proceed is kept waiting by one that holds the lock. */
  lemma Blocker(s: State, p: int)
    returns (q: int)
    requires s.ix.nhash > 0 && Exclusive(s) && 0 <= p < |s.procs| && Waiting(s.procs[p]) && !Enabled(s, p)
    ensures 0 <= q < |s.procs| && q != p && Holds(s.procs[q], WaitsFor(s.procs[p], s.ix.nhash).value, s.ix.nhash)
    ensures s.procs[p].pc.ChainWait? && s.procs[p].op.FetchOp? ==> !s.procs[q].op.FetchOp?
  {
    hide Hash;
    q :| 0 <= q < |s.procs| && q != p && Conflict(Granted(s.procs[p]), s.procs[q], s.ix.nhash);
    assert !Conflict(s.procs[p], s.procs[q], s.ix.nhash);
  }

  /** The locks at work: two processes are never both at the free list, both at the end of the
      data file or both at the end of the index file, and two that are past the lock of one
      chain are both fetching. */
  lemma LocksExclude(s: State, p: int, q: int)
    requires Inv(s) && 0 <= p < |s.procs| && 0 <= q < |s.procs| && p != q
    ensures var a, b := s.procs[p].pc, s.procs[q].pc;
            var atFree := {BlankDat, ReadFree, BlankIdx, SetFree, SetPrev, DelDrop,
                           FreeHead, FreeWalk, FreeTake, FreeDrop, TakenDrop};
            && !(a in atFree && b in atFree)
            && !(a in {DatWrite, DatDrop} && b in {DatWrite, DatDrop})
            && !(a in {IdxWrite, IdxDrop} && b in {IdxWrite, IdxDrop})
    ensures s.ix.nhash > 0
    ensures var a, b := s.procs[p], s.procs[q];
            (a.pc !in {Idle, ChainWait, Dead} && b.pc !in {Idle, ChainWait, Dead}
             && Hash(a.op.key, s.ix.nhash) == Hash(b.op.key, s.ix.nhash)) ==> a.op.FetchOp? && b.op.FetchOp?
  {
    hide DataOk, PendOk, Agree, ProcsOk, History, Layout, Shaped, Hash;
    assert !Conflict(s.procs[p], s.procs[q], s.ix.nhash);
  }

  predicate Active(pr: Proc) {
    !pr.pc.Idle? && !pr.pc.Dead?
  }

  /** No deadlock: as long as some operation is under way, some process can proceed. */
  lemma NoDeadlock(s: State, p: int)
    returns (q: int)
    requires s.ix.nhash > 0 && Exclusive(s) && 0 <= p < |s.procs| && Active(s.procs[p])
    ensures Enabled(s, q)
  {
    hide Hash, Conflict;
    q := p;
    if !Enabled(s, q) {
      q := Blocker(s, q);
      if !Enabled(s, q) {
        WaitsUpwards(s.procs[q], s.ix.nhash, WaitsFor(s.procs[p], s.ix.nhash).value);
        q := Blocker(s, q);
      }
    }
  }

  /** The log, event by event: a call that has returned gave the answer of the map it found
      and changed it accordingly; one that died has at most removed its key. */
  lemma {:induction false} LogIs(log: seq<Event>, n: nat)
    requires ResultsOk(log) && n < |log|
    ensures Replay([]) == map[]
    ensures var before, after := Replay(log[..n]), Replay(log[..n + 1]);
            match log[n]
            case Crashed(op, removed) => after == if removed then before - {op.key} else before
            case Done(op, res) =>
              (match op
              case FetchOp(key) =>
                res == Data(if key in before then Some(before[key]) else None) && after == before
              case DeleteOp(key) => res == Code(if key in before then 0 else -1) && after == before - {key}
              case StoreOp(key, data, flag) =>
                && res == Code(if flag == D.DB_INSERT && key in before then 1
                              else if flag == D.DB_REPLACE && key !in before then -1
                              else if flag != D.DB_INSERT && flag != D.DB_REPLACE && flag != D.DB_STORE then -1 else 0)
                && after == if res == Code(0) then before[key := data] else before)
  {
    hide StepMap, StepResult;
    assert log[..n + 1][..n] == log[..n];
    var k := |log| - 1;
    if n < k {
      LogIs(log[..k], n);
      assert log[..k][..n] == log[..n] && log[..k][..n + 1] == log[..n + 1];
    } else {
      assert log[..n + 1] == log;
      if log[n].Done? {
        StepIs(Replay(log[..n]), log[n].op);
      }
    }
  }

  lemma LogAnswers(log: seq<Event>)
    requires ResultsOk(log)
    ensures forall n | 0 <= n < |log| && log[n].Done? ::
              Answers(log[n].op, log[n].res, Replay(log[..n]), Replay(log[..n + 1]))
  {
    hide Replay, ResultsOk;
    forall n | 0 <= n < |log| && log[n].Done?
      ensures Answers(log[n].op, log[n].res, Replay(log[..n]), Replay(log[..n + 1]))
    {
      LogIs(log, n);
    }
  }

  /** The chain of a key holds its record, and no other record with that key. */
  lemma OnItsChain(s: State, key: string)
    requires Inv(s)
    ensures s.ix.nhash > 0 && 0 <= Hash(key, s.ix.nhash) + 1 < |s.sh.lists|
    ensures var nodes := s.sh.lists[Hash(key, s.ix.nhash) + 1];
            && (key in s.sh.loc ==> exists j :: 0 < j < |nodes| && nodes[j] == s.sh.loc[key]
                                                && nodes[j] in s.ix.recs && s.ix.recs[nodes[j]].key == key)
            && (key !in s.sh.loc ==>
                  forall j | 0 < j < |nodes| && nodes[j] in s.ix.recs :: s.ix.recs[nodes[j]].key != key)
  {
    hide DataOk, Exclusive, PendOk, Agree, ProcsOk, History, Layout, Shaped, Hash;
    KeyOnChain(Eff(s), s.sh, s.limbo.Keys, key);
  }

  /** A hash chain that no writer has locked shows, for every key that belongs on it,
      what the operations completed so far leave under that key, in the order in which
      they gave up their chain locks. */
  lemma UnlockedChainShowsLog(s: State, key: string)
    requires Inv(s)
    requires forall q | 0 <= q < |s.procs| && HoldsChain(s.procs[q]) && Writes(s.procs[q].op) ::
               ChainOf(s.procs[q], s.ix.nhash) != Hash(key, s.ix.nhash) + 1
    ensures Shows(s, key, Replay(s.log)) && ResultsOk(s.log)
    ensures forall n | 0 <= n < |s.log| && s.log[n].Done? ::
              Answers(s.log[n].op, s.log[n].res, Replay(s.log[..n]), Replay(s.log[..n + 1]))
    ensures s.ix.nhash > 0 && 0 <= Hash(key, s.ix.nhash) + 1 < |s.sh.lists|
    ensures var nodes := s.sh.lists[Hash(key, s.ix.nhash) + 1];
            if key in Replay(s.log) then
              exists j :: 0 < j < |nodes| && nodes[j] in s.ix.recs && s.ix.recs[nodes[j]].key == key
                          && ValueAt(s, nodes[j]) == Replay(s.log)[key]
            else forall j | 0 < j < |nodes| && nodes[j] in s.ix.recs :: s.ix.recs[nodes[j]].key != key
  {
    LogAnswers(s.log) by {
      assert ResultsOk(s.log);
    }
    OnItsChain(s, key);
    hide Layout, Shaped, DataOk, PcOk, Shows, PendOk, Exclusive, Hash;
    assert AgreeOn(s, key);
    forall q | 0 <= q < |s.procs| ensures !DirtyOn(s.procs[q], key) {
      assert ProcOk(s, q);
      DirtyWrites(s, q);
    }
  }

  /** A call that has looked for a free record appends only if none on the free list has a key
      and data of the lengths it wants, and otherwise takes the first that has. */
  lemma FirstFitOrNone(s: State, p: int)
    requires Inv(s) && 0 <= p < |s.procs| && s.procs[p].pc in {FreeDrop, FreeTake}
    ensures |s.sh.lists| > 0 && s.procs[p].op.StoreOp?
    ensures var pr, free := s.procs[p], s.sh.lists[0];
            && (pr.pc.FreeTake? ==>
                  && 0 < pr.i < |free| && free[pr.i] == pr.idxoff && pr.idxoff in s.ix.recs
                  && |s.ix.recs[pr.idxoff].key| == |pr.op.key|
                  && s.ix.recs[pr.idxoff].datlen == |pr.op.data| + 1)
            && forall j | 0 < j < (if pr.pc.FreeTake? then pr.i else |free|) && free[j] in s.ix.recs ::
                 |s.ix.recs[free[j]].key| != |pr.op.key| || s.ix.recs[free[j]].datlen != |pr.op.data| + 1
  {
    hide DataOk, Exclusive, Agree, History, Hash, PendOk, Layout, Shaped, HasHead;
    ProcIsOk(s, p);
    ListHead(s, 0);
    var pr, free := s.procs[p], s.sh.lists[0];
    assert NoneFits(s, pr.(i := if pr.pc.FreeTake? then pr.i - 1 else pr.i));
  }

  /** Data of the same length are written over the old; only other data make a store delete
      the record, and a record is deleted when its data have become blanks. */
  lemma InPlaceOrDeleted(s: State, p: int)
    requires Inv(s) && 0 <= p < |s.procs| && s.procs[p].pc in {Overwrite, DelWait, BlankIdx}
    ensures var pr := s.procs[p];
            && pr.idxoff in s.ix.recs && s.ix.recs[pr.idxoff].key == pr.op.key
            && (pr.pc.Overwrite? ==> pr.op.StoreOp? && |ValueAt(s, pr.idxoff)| == |pr.op.data|)
            && (pr.pc.DelWait? && pr.op.StoreOp? ==> |ValueAt(s, pr.idxoff)| != |pr.op.data|)
            && (pr.pc.BlankIdx? ==> forall c | c in ValueAt(s, pr.idxoff) :: c == ' ')
  {
    hide Structure, Exclusive, Agree, History, Hash, PendOk, HasHead, Shows;
    ProcIsOk(s, p);
    assert ExtOk(s, s.procs[p].idxoff);
  }

  /** When no operation is under way every record is on exactly one list, except those
      that a process which died had in its hands. */
  lemma QuietPartition(s: State, x: int)
    requires Inv(s) && Carried(s) && (forall p | 0 <= p < |s.procs| :: !Active(s.procs[p])) && x in s.ix.recs
    ensures s.pend.NoPending?
    ensures x in s.limbo ==> 0 <= s.limbo[x] < |s.procs| && s.procs[s.limbo[x]].pc.Dead?
    ensures x !in s.limbo ==> x in s.sh.owner && 0 <= s.sh.owner[x] < |s.sh.lists| && x in s.sh.lists[s.sh.owner[x]]
    ensures x !in s.limbo ==> forall k | 0 <= k < |s.sh.lists| && x in s.sh.lists[k] :: k == s.sh.owner[x]
    ensures x in s.limbo ==> forall k | 0 <= k < |s.sh.lists| :: x !in s.sh.lists[k]
  {
    hide Filed, Located, Tiled, PtrsFit, RecsFit;
    assert x in s.ix.recs.Keys && x in s.ix.lens.Keys;
    forall k, i | 0 <= k < |s.sh.lists| && 0 <= i < |s.sh.lists[k]|
      ensures s.sh.lists[k][i] in s.sh.owner && s.sh.owner[s.sh.lists[k][i]] == k && s.sh.lists[k][i] !in s.limbo
    {
      OnList(Eff(s), s.sh, s.limbo.Keys, k, i);
    }
    assert s.pend.NoPending?;
    assert x !in s.limbo ==> x in s.sh.owner.Keys;
  }
}
