/** The steps that write, the preservation theorem, and what follows from it. */
module Safety {
  import opened Decimal
  import opened IndexFormat
  import opened IndexFile
  import opened Chains
  import opened Operations
  import opened Runs
  import opened Concurrency
  import opened Interleaving

  // ---------- local steps ----------

  lemma NodesAreRecs(s: State, k: int)
    requires Structure(s)
    ensures forall j | 0 < j < |List(s, k)| :: List(s, k)[j] in s.ix.recs
  {
    hide Layout, Shaped;
    ListCount(s);
    forall j | 0 < j < |List(s, k)| ensures List(s, k)[j] in s.ix.recs {
      NodeKind(Eff(s), s.sh, s.limbo.Keys, k, j);
    }
  }

  lemma PcOfStore(s: State, t: State, p: int, pr: Proc, k: int)
    requires Structure(s) && PendOk(s) && DataOk(s) && PcOk(s, p, pr, k) && t == s.(procs := t.procs) && 0 <= p
    requires k == ChainOf(pr, s.ix.nhash) && (HoldsChain(pr) ==> Callable(pr.op))
    ensures PcOk(t, p, pr, k)
  {
    hide Layout, Shaped, BodyLen, AllBlank, StepMap, StepResult, Hash, Callable;
    NodesAreRecs(s, k);
    NodesAreRecs(s, 0);
    LimboPtrs(s);
    if HoldsChain(pr) {
      hide PcOk;
      if pr.op.key in s.sh.loc { LocInRecs(s, pr.op.key); }
      PcKept(s, t, p, pr, k);
    }
  }

  lemma LimboPtrs(s: State)
    requires Structure(s) && PendOk(s)
    ensures forall y | y in s.limbo :: y in s.ix.recs && y in s.ix.ptrs && y in Eff(s).ptrs && y !in s.sh.owner
  {
    hide ListsOk, Covered, Filed, Located, Tiled, PtrsFit, RecsFit;
    forall y | y in s.limbo ensures y in s.ix.recs && y in Eff(s).ptrs && y in s.ix.ptrs && y !in s.sh.owner {
      assert y in s.limbo.Keys;
      assert y in Eff(s).recs.Keys;
      assert y in Eff(s).ptrs.Keys;
    }
  }

  lemma DirtyStays(s: State, p: int)
    requires Inv(s) && 0 <= p < |s.procs| && (IsLocal(s.procs[p].pc) || IsChecked(s.procs[p].pc))
    ensures Dirty(s.procs[p]) ==> Dirty(Local(s, s.procs[p]))
    ensures Local(s, s.procs[p]).op == s.procs[p].op
    ensures !Local(s, s.procs[p]).pc.Idle? && !Local(s, s.procs[p]).pc.Dead?
    ensures !s.procs[p].pc.SetFree? && !s.procs[p].pc.SetPrev? && Callable(s.procs[p].op)
  {
    hide Layout, Shaped, DataOk, PendOk, Exclusive, History, Agree, At, Passed, Holding, HoldingKey, Taken, Extent,
         Ready,
         Shows, StepMap, StepResult, BodyLen, Hash, Callable;
    assert ProcOk(s, p);
  }

  lemma ProcIsOk(s: State, p: int)
    requires Inv(s) && 0 <= p < |s.procs|
    ensures ProcOk(s, p)
  {
    hide Structure, DataOk, PendOk, Exclusive, Agree, History, ProcOk;
  }

  lemma LocalPc(s: State, p: int)
    requires Inv(s) && Enabled(s, p) && (IsLocal(s.procs[p].pc) || IsChecked(s.procs[p].pc))
    requires !Refused(s, s.procs[p])
    ensures var pr := s.procs[p];
            && PcOk(s, p, Local(s, pr), ChainOf(pr, s.ix.nhash))
            && (NoMoreLocks(pr, Local(s, pr)) ||
                forall q | 0 <= q < |s.procs| && q != p :: !Conflict(Local(s, pr), s.procs[q], s.ix.nhash))
  {
    hide Inv, PcOk, Refused, Conflict, NoMoreLocks;
    match s.procs[p].pc
    case Walk => WalkPc(s, p);
    case FreeWalk => FreeWalkPc(s, p);
    case ReadDat => ReadDatPc(s, p);
    case DelDrop => DelDropPc(s, p);
    case ReadHead | ReadFree | HeadForNew | Reread | FreeHead => HeadPc(s, p);
    case _ =>
      ProcIsOk(s, p);
      PlainPc(s, p);
  }

  lemma LocalFrame(s: State, p: int, pr': Proc)
    requires Inv(s) && 0 <= p < |s.procs| && pr'.op == s.procs[p].op
    requires !s.procs[p].pc.SetFree? && !s.procs[p].pc.SetPrev?
    requires Dirty(s.procs[p]) ==> Dirty(pr')
    ensures var t := Put(s, p, pr');
            && Frame(s, t, p, s.ix.size) && OwnRecord(s, p, s.ix.size) && OwnKey(s, t, p)
            && Structure(t) && DataOk(t) && PendOk(t) && History(t)
  {
    hide Layout, ListsOk, Covered, Filed, Exclusive, Agree, ProcsOk, Hash;
    EndIsFresh(Eff(s));
    LimboPtrs(s);
    var t := Put(s, p, pr');
    assert forall x | x in s.ix.recs :: ExtOk(s, x) ==> ExtOk(t, x);
  }

  /** A step that only reads, or asks for or gives up a lock */
  lemma LocalStep(s: State, p: int)
    requires Inv(s) && Enabled(s, p) && (IsLocal(s.procs[p].pc) || IsChecked(s.procs[p].pc))
    requires !Refused(s, s.procs[p])
    ensures Inv(Put(s, p, Local(s, s.procs[p])))
  {
    hide Layout, Shaped, DataOk, PendOk, History, Agree, PcOk, Local, Frame, OwnRecord, OwnKey, NoMoreLocks, Refused,
         Conflict, Hash, Dirty;
    var pr := s.procs[p];
    var t := Put(s, p, Local(s, pr));
    DirtyStays(s, p);
    LocalPc(s, p);
    LocalFrame(s, p, Local(s, pr));
    ExclusiveKept(s, t, p);
    PcOfStore(s, t, p, Local(s, pr), ChainOf(pr, s.ix.nhash));
    Assemble(s, t, p, s.ix.size);
  }

  // ---------- the end of an operation ----------

  lemma Logged(s: State, t: State, e: Event)
    requires History(s) && t.log == s.log + [e]
    requires e.Done? ==> t.m == StepMap(s.m, e.op) && e.res == StepResult(s.m, e.op)
    requires e.Crashed? ==> t.m == if e.removed then s.m - {e.op.key} else s.m
    ensures History(t)
  {
    assert t.log[..|t.log| - 1] == s.log;
  }

  /** A step that changes neither file: only the process, the abstract map and the log */
  lemma BookFrame(s: State, t: State, p: int, pr': Proc)
    requires Inv(s) && 0 <= p < |s.procs| && t == Put(s, p, pr').(m := t.m, log := t.log)
    requires !s.procs[p].pc.SetFree? && !s.procs[p].pc.SetPrev? && HoldsChain(s.procs[p])
    requires forall key | key != s.procs[p].op.key || !Writes(s.procs[p].op) :: SameKey(s, t, key)
    ensures Frame(s, t, p, s.ix.size) && OwnRecord(s, p, s.ix.size)
    ensures Structure(t) && DataOk(t) && PendOk(t)
  {
    hide Layout, ListsOk, Covered, Filed, Exclusive, Agree, ProcsOk, Hash, SameKey, StepMap;
    EndIsFresh(Eff(s));
    LimboPtrs(s);
    assert forall x | x in s.ix.recs :: ExtOk(s, x) ==> ExtOk(t, x);
  }

  lemma ReleaseStep(s: State, p: int)
    requires Inv(s) && Enabled(s, p) && s.procs[p].pc.Release?
    ensures Inv(Finish(s, p))
  {
    hide Layout, Shaped, DataOk, PendOk, History, Agree, Frame, OwnRecord, Conflict, Hash, StepMap, StepResult;
    var pr := s.procs[p];
    var t := Finish(s, p);
    assert ProcOk(s, p);
    forall key | key != pr.op.key || !Writes(pr.op) ensures SameKey(s, t, key) {
      OtherKeysKept(s.m, pr.op, key);
    }
    BookFrame(s, t, p, pr.(pc := Idle));
    Logged(s, t, Done(pr.op, pr.res));
    ExclusiveKept(s, t, p);
    assert Shows(t, pr.op.key, t.m);
    Assemble(s, t, p, s.ix.size);
  }

  lemma DieStep(s: State, p: int)
    requires Inv(s) && Enabled(s, p) && (IsChecked(s.procs[p].pc) || s.procs[p].pc.LinkHead?)
    ensures Inv(Die(s, p))
  {
    hide Layout, Shaped, DataOk, PendOk, History, Agree, Frame, OwnRecord, Conflict, Hash, StepMap, StepResult, Ready,
         Extent;
    var pr := s.procs[p];
    var t := Die(s, p);
    assert ProcOk(s, p);
    BookFrame(s, t, p, pr.(pc := Dead));
    Logged(s, t, Crashed(pr.op, pr.replaced));
    ExclusiveKept(s, t, p);
    if pr.pc.Walk? {
      OwnKeyShown(s, p);
    }
    assert Shows(t, pr.op.key, t.m);
    Assemble(s, t, p, s.ix.size);
  }

  // ---------- writing a data record in place ----------

  lemma RecPositive(s: State, x: int)
    requires Structure(s) && x in s.ix.recs
    ensures x >= 0
  {
    hide ListsOk, Covered, Filed, Located, PtrsFit, RecsFit;
    assert x in Eff(s).recs.Keys && x in Eff(s).lens.Keys;
    HeaderEnd(Eff(s), x);
  }

  function WithData(s: State, p: int, pr': Proc, x: int, v: string): State
    requires 0 <= p < |s.procs| && x in s.ix.recs
  {
    Put(s, p, pr').(dat := s.dat[s.ix.recs[x].datoff := v])
  }

  /** Writing over one extent with data of the same length is seen through one record only. */
  lemma DataWrite(s: State, p: int, pr': Proc, x: int, v: string)
    requires Inv(s) && 0 <= p < |s.procs| && x in s.ix.recs && MayTouch(s, p, x)
    requires !s.procs[p].pc.SetFree? && !s.procs[p].pc.SetPrev? && pr'.op == s.procs[p].op
    requires |v| + 1 == s.ix.recs[x].datlen
    ensures var t := WithData(s, p, pr', x, v);
            && Frame(s, t, p, x) && Structure(t) && DataOk(t) && PendOk(t) && History(t) && ValueAt(t, x) == v
  {
    hide Layout, ListsOk, Covered, Filed, Located, Exclusive, Agree, ProcsOk, Hash, MayTouch;
    var t := WithData(s, p, pr', x, v);
    LimboPtrs(s);
    RecPositive(s, x);
    assert ExtOk(s, x);
    forall y | y in s.ix.recs ensures ExtOk(t, y) && (y != x ==> SameRec(s, t, y)) {
      assert ExtOk(s, y);
    }
  }

  /** A record on the chain a writing process has locked is its to change. */
  lemma TouchChain(s: State, p: int, k: int, i: int)
    requires Structure(s) && 0 <= p < |s.procs| && HoldsChain(s.procs[p]) && Writes(s.procs[p].op)
    requires k == ChainOf(s.procs[p], s.ix.nhash) && 0 <= i < |List(s, k)|
    ensures MayTouch(s, p, List(s, k)[i])
  {
    hide Layout, Covered, Filed, Located;
    OnList(Eff(s), s.sh, s.limbo.Keys, k, i);
  }

  lemma OwnLoc(s: State, p: int)
    requires Structure(s) && 0 <= p < |s.procs| && s.procs[p].op.key in s.sh.loc
    ensures OwnRecord(s, p, s.sh.loc[s.procs[p].op.key])
  {
    hide Layout, Shaped;
    var x := s.sh.loc[s.procs[p].op.key];
    LocInRecs(s, s.procs[p].op.key);
    forall key | key in s.sh.loc && s.sh.loc[key] == x ensures key == s.procs[p].op.key {
      LocInRecs(s, key);
    }
  }

  lemma BlankDatStep(s: State, p: int)
    requires Inv(s) && Enabled(s, p) && s.procs[p].pc.BlankDat?
    ensures Inv(BlankDatDone(s, p))
  {
    hide Layout, Shaped, PendOk, History, Agree, Frame, OwnRecord, Conflict, Hash, MayTouch;
    var pr := s.procs[p];
    var k := ChainOf(pr, s.ix.nhash);
    var x := pr.idxoff;
    assert ProcOk(s, p);
    assert ExtOk(s, x);
    OwnKeyShown(s, p);
    OwnLoc(s, p);
    TouchChain(s, p, k, pr.i);
    var t := WithData(s, p, pr.(pc := ReadFree), x, Spaces(pr.datlen - 1));
    DataWrite(s, p, pr.(pc := ReadFree), x, Spaces(pr.datlen - 1));
    assert t == BlankDatDone(s, p);
    ExclusiveKept(s, t, p);
    assert PcOk(t, p, t.procs[p], k);
    hide DataOk;
    Assemble(s, t, p, x);
  }

  lemma OverwriteStep(s: State, p: int)
    requires Inv(s) && Enabled(s, p) && s.procs[p].pc.Overwrite?
    ensures Inv(OverwriteDone(s, p))
  {
    hide Layout, Shaped, DataOk, PendOk, History, Agree, Frame, OwnRecord, Conflict, Hash, MayTouch;
    var pr := s.procs[p];
    var k := ChainOf(pr, s.ix.nhash);
    var x := pr.idxoff;
    assert ProcOk(s, p);
    OwnKeyShown(s, p);
    OwnLoc(s, p);
    TouchChain(s, p, k, pr.i);
    var pr' := pr.(pc := Release, res := Code(0));
    var t := WithData(s, p, pr', x, NewData(pr.op));
    DataWrite(s, p, pr', x, NewData(pr.op));
    assert t == OverwriteDone(s, p);
    ExclusiveKept(s, t, p);
    assert PcOk(t, p, pr', k);
    Assemble(s, t, p, x);
  }

  lemma MineTouch(s: State, p: int, x: int)
    requires Structure(s) && 0 <= p < |s.procs| && Mine(s, p, x)
    ensures MayTouch(s, p, x) && OwnRecord(s, p, x)
  {
    hide Layout, Shaped;
    forall key | key in s.sh.loc ensures s.sh.loc[key] != x {
      LocInRecs(s, key);
    }
  }

  lemma ReuseDatStep(s: State, p: int)
    requires Inv(s) && Enabled(s, p) && s.procs[p].pc.ReuseDat?
    ensures Inv(ReuseDatDone(s, p))
  {
    hide Layout, Shaped, DataOk, PendOk, History, Agree, Frame, OwnRecord, Conflict, Hash, MayTouch;
    var pr := s.procs[p];
    var k := ChainOf(pr, s.ix.nhash);
    var x := pr.idxoff;
    assert ProcOk(s, p);
    OwnKeyShown(s, p);
    MineTouch(s, p, x);
    var pr' := pr.(pc := ReuseIdx);
    var t := WithData(s, p, pr', x, NewData(pr.op));
    DataWrite(s, p, pr', x, NewData(pr.op));
    assert t == ReuseDatDone(s, p);
    ExclusiveKept(s, t, p);
    assert PcOk(t, p, pr', k);
    assert Shows(t, pr.op.key, t.m);
    Assemble(s, t, p, x);
  }

  // ---------- steps that change the lists ----------

  /** The holder of the free-list lock is the only one that can leave a pointer pending. */
  lemma NonePending(s: State, p: int)
    requires s.ix.nhash > 0 && Exclusive(s) && PendOk(s) && ProcsOk(s) && 0 <= p < |s.procs|
    requires HoldsFree(s.procs[p]) && !s.procs[p].pc.SetFree? && !s.procs[p].pc.SetPrev?
    ensures s.pend.NoPending? && Eff(s) == s.ix
  {
    hide PcOk;
    forall q | 0 <= q < |s.procs| && q != p ensures !HoldsFree(s.procs[q]) {
      assert !Conflict(s.procs[p], s.procs[q], s.ix.nhash);
    }
    if s.pend.Pending? {
      assert ProcOk(s, s.pend.pid);
      SurgeryWrites(s, s.pend.pid);
    }
  }

  /** A chain another process has locked holds no pending pointer. */
  lemma PrevElsewhere(s: State, p: int, y: int)
    requires s.ix.nhash > 0 && Exclusive(s) && PendOk(s) && ProcsOk(s) && 0 <= p < |s.procs|
    requires HoldsChain(s.procs[p]) && !s.procs[p].pc.SetFree? && !s.procs[p].pc.SetPrev?
    requires y in s.sh.owner ==> s.sh.owner[y] == ChainOf(s.procs[p], s.ix.nhash)
    ensures s.pend.Pending? ==> s.pend.pid != p && s.pend.prev != y
  {
    hide PcOk, Hash;
    if s.pend.Pending? {
      var q := s.pend.pid;
      assert ProcOk(s, q);
      SurgeryWrites(s, q);
      assert q != p && !Conflict(s.procs[p], s.procs[q], s.ix.nhash);
    }
  }

  /** Nodes i - 1 and i of a list, as pointers */
  lemma Neighbours(ix: Index, sh: Shape, limbo: set<int>, k: int, i: int)
    requires Layout(ix) && Shaped(ix, sh, limbo) && 0 <= k < |sh.lists| && 0 < i < |sh.lists[k]|
    ensures var x, prev := sh.lists[k][i], sh.lists[k][i - 1];
            && x in ix.ptrs && prev in ix.ptrs && ix.ptrs[prev] == x && ix.ptrs[x] == Next(sh.lists[k], i)
            && 0 <= x <= PTR_MAX && 0 <= ix.ptrs[x] <= PTR_MAX && x != prev
            && x in sh.owner && prev in sh.owner && sh.owner[x] == k && sh.owner[prev] == k && x in ix.recs
            && x !in limbo && prev !in limbo
  {
    OnList(ix, sh, limbo, k, i);
    OnList(ix, sh, limbo, k, i - 1);
    NodeKind(ix, sh, limbo, k, i);
    assert PtrsFit(ix.ptrs);
  }

  lemma BlankStructure(ix: Index, sh: Shape, limbo: set<int>, k: int, i: int, freeval: int)
    requires Layout(ix) && Shaped(ix, sh, limbo) && 0 < k < |sh.lists| && 0 < i < |sh.lists[k]|
             && 0 <= freeval <= PTR_MAX
    ensures var x, prev := sh.lists[k][i], sh.lists[k][i - 1];
            && x in ix.recs && x in ix.ptrs
            && var t := SetPtr(SetRec(ix, x, freeval, Blanked(ix.recs[x])), prev, ix.ptrs[x]);
               Layout(t) && Shaped(t, Unlink(sh, k, i, sh.loc - {ix.recs[x].key}), limbo + {x})
               && AllBlank(Blanked(ix.recs[x]).key)
  {
    hide Layout, ListsOk, Covered, Filed, Located;
    Neighbours(ix, sh, limbo, k, i);
    var x, prev := sh.lists[k][i], sh.lists[k][i - 1];
    var r := ix.recs[x];
    LayoutParts(ix, x);
    BlankedOk(r);
    var loc := sh.loc - {r.key};
    UnlinkShaped(ix, sh, limbo, k, i, loc);
    var ix1 := SetPtr(ix, prev, ix.ptrs[x]);
    SetPtrLayout(ix, prev, ix.ptrs[x]);
    RewriteLimbo(ix1, Unlink(sh, k, i, loc), limbo + {x}, x, freeval, Blanked(r));
    SetRecLayout(ix1, x, freeval, Blanked(r));
    MapSwap(ix.ptrs, prev, ix.ptrs[x], x, freeval);
  }

  lemma MapSwap(m: map<int, int>, a: int, v: int, b: int, w: int)
    requires a != b
    ensures m[a := v][b := w] == m[b := w][a := v]
  {
  }

  lemma LimboKeys(limbo: map<int, int>, x: int, p: int)
    ensures limbo[x := p].Keys == limbo.Keys + {x} && (limbo - {x}).Keys == limbo.Keys - {x}
  {
  }

  /** The facts a process at BlankIdx relies on, and the index and lists it makes. */
  lemma BlankIdxParts(s: State, p: int)
    requires Inv(s) && 0 <= p < |s.procs| && s.procs[p].pc.BlankIdx?
    ensures var pr := s.procs[p]; var k := ChainOf(pr, s.ix.nhash); var t := BlankIdxDone(s, p); var x := pr.idxoff;
            && s.pend.NoPending? && 0 < k < |s.sh.lists| && 0 < pr.i < |s.sh.lists[k]| && 0 < |s.sh.lists[0]|
            && x == s.sh.lists[k][pr.i] && x in s.ix.recs && x in s.ix.ptrs && x in s.sh.owner && s.sh.owner[x] == k
            && pr.ptroff in s.sh.owner && s.sh.owner[pr.ptroff] == k && pr.ptroff in s.ix.ptrs && pr.ptroff != x
            && x !in s.limbo && pr.ptroff !in s.limbo && 0 <= x <= PTR_MAX && 0 <= pr.ptrval <= PTR_MAX
            && pr.freeval == Next(s.sh.lists[0], 0) && Writes(pr.op)
            && t.sh == Unlink(s.sh, k, pr.i, s.sh.loc - {pr.op.key})
            && Structure(t) && AllBlank(Blanked(s.ix.recs[x]).key)
  {
    hide Layout, Shaped, Exclusive, Agree, History, Hash, AllBlank;
    var pr := s.procs[p];
    var k := ChainOf(pr, s.ix.nhash);
    assert ProcOk(s, p);
    NonePending(s, p);
    ListCount(s);
    ListHead(s, 0);
    ReadNode(s, p, 0, 0);
    Neighbours(s.ix, s.sh, s.limbo.Keys, k, pr.i);
    BlankStructure(s.ix, s.sh, s.limbo.Keys, k, pr.i, pr.freeval);
    LimboKeys(s.limbo, pr.idxoff, p);
  }

  lemma BlankIdxData(s: State, p: int)
    requires Inv(s) && 0 <= p < |s.procs| && s.procs[p].pc.BlankIdx?
    ensures var t := BlankIdxDone(s, p);
            DataOk(t) && forall y | y in s.ix.recs && y != s.procs[p].idxoff :: SameRec(s, t, y)
  {
    hide Layout, Shaped, Exclusive, Agree, History, Hash, AllBlank;
    var x := s.procs[p].idxoff;
    assert ProcOk(s, p);
    var t := BlankIdxDone(s, p);
    forall y | y in s.ix.recs ensures ExtOk(t, y) && (y != x ==> SameRec(s, t, y)) {
      assert ExtOk(s, y);
    }
  }

  lemma BlankIdxFrame(s: State, p: int)
    requires Inv(s) && 0 <= p < |s.procs| && s.procs[p].pc.BlankIdx?
    ensures Frame(s, BlankIdxDone(s, p), p, s.procs[p].idxoff)
  {
    hide Layout, Shaped, Exclusive, Agree, History, Hash, AllBlank, SameRec, PcOk, ExtOk;
    BlankIdxParts(s, p);
    BlankIdxData(s, p);
    LimboPtrs(s);
  }

  lemma BlankIdxPc(s: State, p: int)
    requires Inv(s) && 0 <= p < |s.procs| && s.procs[p].pc.BlankIdx?
    ensures Structure(BlankIdxDone(s, p)) && PendOk(BlankIdxDone(s, p)) && ProcOk(BlankIdxDone(s, p), p)
  {
    hide Layout, Shaped, Exclusive, Agree, History, Hash, AllBlank, DataOk;
    assert ProcOk(s, p);
    BlankIdxParts(s, p);
  }

  lemma BlankIdxStep(s: State, p: int)
    requires Inv(s) && Enabled(s, p) && s.procs[p].pc.BlankIdx?
    ensures Inv(BlankIdxDone(s, p))
  {
    hide Layout, Shaped, DataOk, PendOk, History, Agree, Frame, OwnRecord, Conflict, Hash, MayTouch;
    assert ProcOk(s, p);
    BlankIdxFrame(s, p);
    BlankIdxData(s, p);
    BlankIdxPc(s, p);
    OwnLoc(s, p);
    ExclusiveKept(s, BlankIdxDone(s, p), p);
    SameHistory(s, BlankIdxDone(s, p));
    hide PcOk;
    Assemble(s, BlankIdxDone(s, p), p, s.procs[p].idxoff);
  }

  lemma SameHistory(s: State, t: State)
    requires History(s) && t.m == s.m && t.log == s.log
    ensures History(t)
  {
  }

  // ---------- the free-list head: _db_writeptr(FREE_OFF, idxoff) ----------

  lemma FreeHeadStructure(ix: Index, sh: Shape, limbo: set<int>, x: int, prev: int, save: int)
    requires Layout(ix) && Shaped(ix, sh, limbo) && x in limbo && AllBlank(ix.recs[x].key) && 0 <= x <= PTR_MAX
    requires 0 < |sh.lists| && 0 < |sh.lists[0]| && x in ix.ptrs && ix.ptrs[x] == Next(sh.lists[0], 0)
    ensures 0 in ix.ptrs && Layout(SetPtr(ix, 0, x)) && Shaped(SetPtr(ix, 0, x), Push(sh, 0, x, sh.loc), limbo - {x})
  {
    hide Layout, ListsOk, Covered, Filed, Located;
    OnList(ix, sh, limbo, 0, 0);
    PushShaped(ix, sh, limbo, 0, x, sh.loc);
    assert ListOk(ix.ptrs, sh.owner, sh.lists[0], 0) by { FreeListOk(ix, sh, limbo); }
    assert ix.ptrs[x := ix.ptrs[x]] == ix.ptrs;
    SetPtrLayout(ix, 0, x);
  }

  lemma FreeListOk(ix: Index, sh: Shape, limbo: set<int>)
    requires Shaped(ix, sh, limbo)
    ensures ListOk(ix.ptrs, sh.owner, sh.lists[0], 0)
  {
  }

  lemma SetFreeParts(s: State, p: int)
    requires Inv(s) && 0 <= p < |s.procs| && s.procs[p].pc.SetFree?
    ensures var pr := s.procs[p]; var t := SetFreeDone(s, p); var x := pr.idxoff;
            && 0 < |s.sh.lists| && 0 < |s.sh.lists[0]| && 0 in s.ix.ptrs
            && x in s.limbo && s.limbo[x] == p && x in s.ix.recs && x !in s.sh.owner && 0 !in s.limbo
            && pr.ptroff in s.sh.owner && pr.ptroff in s.ix.ptrs && pr.ptroff != 0 && Writes(pr.op)
            && t.sh == Push(s.sh, 0, x, s.sh.loc)
            && Structure(t)
  {
    hide Layout, Shaped, Exclusive, Agree, History, Hash, AllBlank;
    var pr := s.procs[p];
    var x := pr.idxoff;
    assert ProcOk(s, p);
    ListCount(s);
    ListHead(s, 0);
    OnList(Eff(s), s.sh, s.limbo.Keys, 0, 0);
    LimboPtrs(s);
    FreeHeadOwner(s);
    FreeHeadStructure(Eff(s), s.sh, s.limbo.Keys, x, pr.ptroff, pr.ptrval);
    LimboKeys(s.limbo, x, p);
    MapSwap(s.ix.ptrs, 0, x, pr.ptroff, pr.ptrval);
  }

  lemma FreeHeadOwner(s: State)
    requires Structure(s)
    ensures 0 in s.sh.owner && s.sh.owner[0] == 0
  {
    hide Layout, Covered, Filed, Located;
    OnList(Eff(s), s.sh, s.limbo.Keys, 0, 0);
  }

  /** A step that writes only pointers leaves records and data as they were. */
  lemma PointerData(s: State, t: State)
    requires DataOk(s) && t.ix.recs == s.ix.recs && t.dat == s.dat && t.ext == s.ext && t.dsize == s.dsize
    ensures DataOk(t) && forall y | y in s.ix.recs :: SameRec(s, t, y)
  {
    forall x | x in t.ix.recs ensures ExtOk(t, x) {
      assert ExtOk(s, x);
    }
  }

  lemma SetFreeFrame(s: State, p: int)
    requires Inv(s) && 0 <= p < |s.procs| && s.procs[p].pc.SetFree?
    ensures Frame(s, SetFreeDone(s, p), p, s.procs[p].idxoff) && DataOk(SetFreeDone(s, p)) && PendOk(SetFreeDone(s, p))
  {
    hide Layout, Shaped, Exclusive, Agree, History, Hash, AllBlank, SameRec, ExtOk, DataOk;
    assert ProcOk(s, p);
    SetFreeParts(s, p);
    LimboPtrs(s);
    PointerData(s, SetFreeDone(s, p));
  }

  lemma SetFreeStep(s: State, p: int)
    requires Inv(s) && Enabled(s, p) && s.procs[p].pc.SetFree?
    ensures Inv(SetFreeDone(s, p))
  {
    hide Layout, Shaped, DataOk, PendOk, History, Agree, Frame, OwnRecord, Conflict, Hash, MayTouch;
    assert ProcOk(s, p);
    SetFreeParts(s, p);
    SetFreeFrame(s, p);
    MineTouch(s, p, s.procs[p].idxoff);
    ExclusiveKept(s, SetFreeDone(s, p), p);
    SameHistory(s, SetFreeDone(s, p));
    assert PcOk(SetFreeDone(s, p), p, SetFreeDone(s, p).procs[p], ChainOf(s.procs[p], s.ix.nhash));
    hide PcOk;
    Assemble(s, SetFreeDone(s, p), p, s.procs[p].idxoff);
  }

  // ---------- the predecessor: _db_writeptr(ptroff, saveptr) ----------

  lemma SetPrevStep(s: State, p: int)
    requires Inv(s) && Enabled(s, p) && s.procs[p].pc.SetPrev?
    ensures Inv(SetPrevDone(s, p))
  {
    hide Layout, Shaped, DataOk, History, Agree, OwnRecord, Conflict, Hash, SameRec;
    var t := SetPrevDone(s, p);
    assert ProcOk(s, p);
    assert t.ix == Eff(s) && Eff(t) == Eff(s);
    EndIsFresh(Eff(s));
    LimboPtrs(s);
    PointerData(s, t);
    FreshOwn(s, p);
    ExclusiveKept(s, t, p);
    SameHistory(s, t);
    assert PcOk(t, p, t.procs[p], ChainOf(s.procs[p], s.ix.nhash));
    assert Frame(s, t, p, s.ix.size);
    hide PcOk, Frame;
    Assemble(s, t, p, s.ix.size);
  }

  lemma FreshOwn(s: State, p: int)
    requires Structure(s) && 0 <= p < |s.procs|
    ensures OwnRecord(s, p, s.ix.size) && s.ix.size !in s.ix.recs && s.ix.size !in s.ix.ptrs
  {
    hide ListsOk, Covered, Filed;
    EndIsFresh(Eff(s));
    forall key | key in s.sh.loc ensures s.sh.loc[key] != s.ix.size {
      LocInRecs(s, key);
    }
  }

  // ---------- taking a free record: _db_writeptr in _db_findfree ----------

  lemma FreeTakeParts(s: State, p: int)
    requires Inv(s) && 0 <= p < |s.procs| && s.procs[p].pc.FreeTake?
    ensures var pr := s.procs[p]; var t := FreeTakeDone(s, p); var x := pr.idxoff;
            && s.pend.NoPending? && 0 < |s.sh.lists| && 0 < pr.i < |s.sh.lists[0]|
            && x == s.sh.lists[0][pr.i] && x in s.ix.recs && x in s.ix.ptrs && x in s.sh.owner && s.sh.owner[x] == 0
            && pr.ptroff in s.sh.owner && pr.ptroff in s.ix.ptrs && pr.ptroff != x
            && x !in s.limbo && pr.ptroff !in s.limbo && 0 <= x <= PTR_MAX
            && t.sh == Unlink(s.sh, 0, pr.i, s.sh.loc)
            && Structure(t)
  {
    hide Layout, Shaped, Exclusive, Agree, History, Hash;
    var pr := s.procs[p];
    assert ProcOk(s, p);
    NonePending(s, p);
    ListCount(s);
    Neighbours(s.ix, s.sh, s.limbo.Keys, 0, pr.i);
    UnlinkShaped(s.ix, s.sh, s.limbo.Keys, 0, pr.i, s.sh.loc);
    SetPtrLayout(s.ix, pr.ptroff, pr.ptrval);
    LimboKeys(s.limbo, pr.idxoff, p);
  }

  lemma FreeTakeFrame(s: State, p: int)
    requires Inv(s) && 0 <= p < |s.procs| && s.procs[p].pc.FreeTake?
    ensures Frame(s, FreeTakeDone(s, p), p, s.procs[p].idxoff) && DataOk(FreeTakeDone(s, p))
            && PendOk(FreeTakeDone(s, p))
    ensures OwnRecord(s, p, s.procs[p].idxoff)
  {
    hide Layout, Shaped, Exclusive, Agree, History, Hash, SameRec, ExtOk, DataOk, PcOk;
    FreeTakeParts(s, p);
    LimboPtrs(s);
    PointerData(s, FreeTakeDone(s, p));
    forall key | key in s.sh.loc ensures s.sh.loc[key] != s.procs[p].idxoff {
      LocInRecs(s, key);
    }
  }

  lemma FreeTakePc(s: State, p: int)
    requires Inv(s) && 0 <= p < |s.procs| && s.procs[p].pc.FreeTake?
    ensures ProcOk(FreeTakeDone(s, p), p) && Shows(FreeTakeDone(s, p), s.procs[p].op.key, FreeTakeDone(s, p).m)
  {
    hide Layout, Shaped, Exclusive, Agree, History, Hash, DataOk;
    assert ProcOk(s, p);
    FreeTakeParts(s, p);
    ChainPositive(s, p);
  }

  lemma ChainPositive(s: State, p: int)
    requires s.ix.nhash > 0 && 0 <= p < |s.procs|
    ensures 0 < ChainOf(s.procs[p], s.ix.nhash) <= s.ix.nhash
  {
  }

  lemma FreeTakeStep(s: State, p: int)
    requires Inv(s) && Enabled(s, p) && s.procs[p].pc.FreeTake?
    ensures Inv(FreeTakeDone(s, p))
  {
    hide Layout, Shaped, DataOk, PendOk, History, Agree, Frame, OwnRecord, Conflict, Hash, MayTouch, PcOk;
    FreeTakeParts(s, p);
    FreeTakeFrame(s, p);
    FreeTakePc(s, p);
    ExclusiveKept(s, FreeTakeDone(s, p), p);
    SameHistory(s, FreeTakeDone(s, p));
    Assemble(s, FreeTakeDone(s, p), p, s.procs[p].idxoff);
  }

  // ---------- writing the index record over a reused one ----------

  /** The head of a process's own chain */
  lemma HeadValue(s: State, p: int)
    requires Structure(s) && 0 <= p < |s.procs|
    ensures var k := ChainOf(s.procs[p], s.ix.nhash);
            && 0 < k < |s.sh.lists| && List(s, k) == s.sh.lists[k] && 0 < |s.sh.lists[k]|
            && 7 * k in Eff(s).ptrs && Eff(s).ptrs[7 * k] == Next(s.sh.lists[k], 0)
            && 0 <= Eff(s).ptrs[7 * k] <= PTR_MAX
            && 7 * k in s.sh.owner && s.sh.owner[7 * k] == k && 7 * k !in s.limbo
  {
    hide Layout, Shaped, Hash;
    var k := ChainOf(s.procs[p], s.ix.nhash);
    ListCount(s);
    ListHead(s, k);
    Follow(Eff(s), s.sh, s.limbo.Keys, k, 0);
    OnList(Eff(s), s.sh, s.limbo.Keys, k, 0);
    PtrBounds(Eff(s), 7 * k);
  }

  lemma ReuseStructure(ix: Index, sh: Shape, limbo: set<int>, x: int, v: int, r: Rec)
    requires Layout(ix) && Shaped(ix, sh, limbo) && x in limbo && x in ix.recs && x in ix.ptrs && 0 <= v <= PTR_MAX
    requires KeyOk(r.key) && |r.key| == |ix.recs[x].key| && r.datoff == ix.recs[x].datoff
             && r.datlen == ix.recs[x].datlen
    ensures Layout(SetRec(ix, x, v, r)) && Shaped(SetRec(ix, x, v, r), sh, limbo)
  {
    hide Layout, ListsOk, Covered, Filed, Located, KeyOk;
    LayoutParts(ix, x);
    RewriteLimbo(ix, sh, limbo, x, v, r);
    SetRecLayout(ix, x, v, r);
  }

  lemma ReuseIdxParts(s: State, p: int)
    requires Inv(s) && 0 <= p < |s.procs| && s.procs[p].pc.ReuseIdx?
    ensures var pr := s.procs[p]; var x := pr.idxoff; var t := ReuseIdxDone(s, p);
            && Mine(s, p, x) && x !in s.sh.owner
            && Eff(t) == SetRec(Eff(s), x, pr.head, NewRec(pr)) && Structure(t)
            && (s.pend.Pending? ==> s.pend.prev != x)
            && NewRec(pr).datoff == s.ix.recs[x].datoff && NewRec(pr).datlen == s.ix.recs[x].datlen
  {
    hide Layout, Shaped, Exclusive, Agree, History, Hash, Shows;
    var pr := s.procs[p];
    var x := pr.idxoff;
    assert ProcOk(s, p);
    LimboPtrs(s);
    HeadValue(s, p);
    ReuseStructure(Eff(s), s.sh, s.limbo.Keys, x, pr.head, NewRec(pr));
    if s.pend.Pending? {
      MapSwap(s.ix.ptrs, s.pend.prev, s.pend.save, x, pr.head);
    }
  }

  lemma ReuseIdxData(s: State, p: int)
    requires Inv(s) && 0 <= p < |s.procs| && s.procs[p].pc.ReuseIdx?
    ensures var t := ReuseIdxDone(s, p); var x := s.procs[p].idxoff;
            DataOk(t) && (forall y | y in s.ix.recs && y != x :: SameRec(s, t, y)) && ValueAt(t, x) == ValueAt(s, x)
  {
    hide Layout, Shaped, Exclusive, Agree, History, Hash, PcOk;
    ReuseIdxParts(s, p);
    var t := ReuseIdxDone(s, p);
    forall y | y in t.ix.recs ensures ExtOk(t, y) && (y != s.procs[p].idxoff ==> SameRec(s, t, y)) {
      assert ExtOk(s, y);
    }
  }

  lemma ReuseIdxFrame(s: State, p: int)
    requires Inv(s) && 0 <= p < |s.procs| && s.procs[p].pc.ReuseIdx?
    ensures Frame(s, ReuseIdxDone(s, p), p, s.procs[p].idxoff) && PendOk(ReuseIdxDone(s, p))
  {
    hide Layout, Shaped, Exclusive, Agree, History, Hash, SameRec, ExtOk, PcOk;
    ReuseIdxParts(s, p);
    ReuseIdxData(s, p);
    LimboPtrs(s);
  }

  lemma ReuseIdxPc(s: State, p: int)
    requires Inv(s) && 0 <= p < |s.procs| && s.procs[p].pc.ReuseIdx?
    ensures ProcOk(ReuseIdxDone(s, p), p) && Shows(ReuseIdxDone(s, p), s.procs[p].op.key, ReuseIdxDone(s, p).m)
  {
    hide Layout, Shaped, Exclusive, Agree, History, Hash, DataOk;
    assert ProcOk(s, p);
    ReuseIdxParts(s, p);
    ReuseIdxData(s, p);
  }

  lemma ReuseIdxStep(s: State, p: int)
    requires Inv(s) && Enabled(s, p) && s.procs[p].pc.ReuseIdx?
    ensures Inv(ReuseIdxDone(s, p))
  {
    hide Layout, Shaped, DataOk, PendOk, History, Agree, Frame, OwnRecord, Conflict, Hash, MayTouch, PcOk;
    ReuseIdxParts(s, p);
    ReuseIdxData(s, p);
    ReuseIdxFrame(s, p);
    ReuseIdxPc(s, p);
    MineTouch(s, p, s.procs[p].idxoff);
    ExclusiveKept(s, ReuseIdxDone(s, p), p);
    SameHistory(s, ReuseIdxDone(s, p));
    Assemble(s, ReuseIdxDone(s, p), p, s.procs[p].idxoff);
  }

  // ---------- appending ----------

  lemma DatWriteFrame(s: State, p: int)
    requires Inv(s) && 0 <= p < |s.procs| && s.procs[p].pc.DatWrite?
    ensures var t := DatWriteDone(s, p);
            Frame(s, t, p, s.ix.size) && Structure(t) && DataOk(t) && PendOk(t)
  {
    hide Layout, Shaped, Exclusive, Agree, History, Hash;
    assert ProcOk(s, p);
    FreshOwn(s, p);
    LimboPtrs(s);
    var t := DatWriteDone(s, p);
    forall y | y in s.ix.recs ensures ExtOk(t, y) && SameRec(s, t, y) {
      assert ExtOk(s, y);
    }
  }

  lemma DatWritePc(s: State, p: int)
    requires Inv(s) && 0 <= p < |s.procs| && s.procs[p].pc.DatWrite?
    ensures ProcOk(DatWriteDone(s, p), p)
    ensures Dirty(DatWriteDone(s, p).procs[p]) || Shows(DatWriteDone(s, p), s.procs[p].op.key, DatWriteDone(s, p).m)
  {
    hide Layout, Shaped, Exclusive, Agree, History, Hash, DataOk;
    assert ProcOk(s, p);
  }

  lemma DatWriteStep(s: State, p: int)
    requires Inv(s) && Enabled(s, p) && s.procs[p].pc.DatWrite?
    ensures Inv(DatWriteDone(s, p))
  {
    hide Layout, Shaped, DataOk, PendOk, History, Agree, Frame, OwnRecord, Conflict, Hash, MayTouch, PcOk;
    DatWriteFrame(s, p);
    DatWritePc(s, p);
    FreshOwn(s, p);
    ExclusiveKept(s, DatWriteDone(s, p), p);
    SameHistory(s, DatWriteDone(s, p));
    Assemble(s, DatWriteDone(s, p), p, s.ix.size);
  }

  lemma AppendStructure(ix: Index, sh: Shape, limbo: set<int>, v: int, r: Rec)
    requires Layout(ix) && Shaped(ix, sh, limbo) && 0 <= v <= PTR_MAX && RecOk(r)
    ensures Layout(AddRec(ix, v, r)) && Shaped(AddRec(ix, v, r), sh, limbo + {ix.size})
  {
    hide Layout, Shaped, RecOk;
    AddRecLayout(ix, v, r);
    AddLimbo(ix, sh, limbo, v, r);
  }

  lemma NewRecOk(s: State, p: int)
    requires Inv(s) && 0 <= p < |s.procs| && s.procs[p].pc.IdxWrite?
    ensures RecOk(NewRec(s.procs[p])) && s.procs[p].datoff in s.ext && s.ext[s.procs[p].datoff] == -1 - p
  {
    hide Layout, Shaped, Exclusive, Agree, History, Hash;
    assert ProcOk(s, p);
  }

  lemma IdxWriteParts(s: State, p: int)
    requires Inv(s) && 0 <= p < |s.procs| && s.procs[p].pc.IdxWrite?
    ensures var pr := s.procs[p]; var t := IdxWriteDone(s, p);
            && s.ix.size !in s.ix.recs && s.ix.size !in s.ix.ptrs && s.ix.size !in s.limbo
            && s.ix.size !in s.sh.owner && s.ix.size > 0
            && Eff(t) == AddRec(Eff(s), pr.head, NewRec(pr)) && Structure(t)
  {
    hide Layout, Shaped, Exclusive, Agree, History, Hash, RecOk, Shows, DataOk;
    var pr := s.procs[p];
    assert ProcOk(s, p);
    NewRecOk(s, p);
    LimboPtrs(s);
    FreshOwn(s, p);
    FreshUnowned(s);
    HeadValue(s, p);
    AppendStructure(Eff(s), s.sh, s.limbo.Keys, pr.head, NewRec(pr));
    LimboKeys(s.limbo, s.ix.size, p);
    if s.pend.Pending? {
      MapSwap(s.ix.ptrs, s.pend.prev, s.pend.save, s.ix.size, pr.head);
    }
  }

  lemma FreshUnowned(s: State)
    requires Structure(s)
    ensures s.ix.size !in s.sh.owner && s.ix.size > 0
  {
    hide ListsOk, Covered, Filed, Located;
    EndIsFresh(Eff(s));
    TiledBounds(Eff(s).lens, HeaderSize(s.ix.nhash), s.ix.size, 0);
    assert s.ix.size !in s.sh.owner.Keys;
  }

  lemma IdxWriteData(s: State, p: int)
    requires Inv(s) && 0 <= p < |s.procs| && s.procs[p].pc.IdxWrite?
    ensures var t := IdxWriteDone(s, p);
            && DataOk(t) && (forall y | y in s.ix.recs :: SameRec(s, t, y))
            && (forall o | o in s.ext && s.ext[o] < 0 && s.ext[o] != -1 - p :: SameExtent(s, t, o))
  {
    ProcIsOk(s, p);
    IdxWriteParts(s, p);
    AtIdxWrite(s, p);
    DataThere(s);
    hide Inv, ProcOk, Structure, AddRec, NewRec, Hash, HasHead, Callable;
    forall y | y in s.ix.recs ensures ExtOk(IdxWriteDone(s, p), y) && SameRec(s, IdxWriteDone(s, p), y) {
      RecPositive(s, y);
      IdxWriteOld(s, p, y);
    }
    IdxWriteNew(s, p);
  }

  lemma DataThere(s: State)
    requires Inv(s)
    ensures DataOk(s) && Structure(s)
  {
    hide Structure, DataOk, Exclusive, PendOk, Agree, ProcsOk, History;
  }

  /** An old record: it keeps its extent. */
  lemma IdxWriteOld(s: State, p: int, y: int)
    requires 0 <= p < |s.procs| && Extent(s, p, s.procs[p]) && ExtOk(s, y) && 0 <= y && s.ix.size !in s.ix.recs
    ensures ExtOk(IdxWriteDone(s, p), y) && SameRec(s, IdxWriteDone(s, p), y)
  {
    hide NewRec;
  }

  /** The new one takes the extent that was waiting for it, and the others' extents stay. */
  lemma IdxWriteNew(s: State, p: int)
    requires 0 <= p < |s.procs| && Extent(s, p, s.procs[p]) && s.procs[p].op.StoreOp? && DataOk(s)
    requires s.ix.size !in s.ix.recs && forall y | y in s.ix.recs :: ExtOk(IdxWriteDone(s, p), y)
    ensures var t := IdxWriteDone(s, p);
            DataOk(t) && forall o | o in s.ext && s.ext[o] < 0 && s.ext[o] != -1 - p :: SameExtent(s, t, o)
  {
    var t := IdxWriteDone(s, p);
    assert ExtOk(t, s.ix.size);
    hide ExtOk, NewRec;
    assert forall y | y in t.ix.recs :: y in s.ix.recs || y == s.ix.size;
  }

  lemma IdxWriteFrame(s: State, p: int)
    requires Inv(s) && 0 <= p < |s.procs| && s.procs[p].pc.IdxWrite?
    ensures Frame(s, IdxWriteDone(s, p), p, s.ix.size) && PendOk(IdxWriteDone(s, p))
  {
    hide Layout, Shaped, Exclusive, Agree, History, Hash, SameRec, ExtOk, DataOk, PcOk, SameExtent;
    IdxWriteParts(s, p);
    IdxWriteData(s, p);
    LimboPtrs(s);
  }

  lemma IdxWritePc(s: State, p: int)
    requires s.ix.nhash > 0 && 0 <= p < |s.procs| && s.procs[p].pc.IdxWrite? && ProcOk(s, p)
    requires s.ix.size !in s.ix.recs && s.ix.size > 0
    requires Eff(IdxWriteDone(s, p)) == AddRec(Eff(s), s.procs[p].head, NewRec(s.procs[p]))
    ensures ProcOk(IdxWriteDone(s, p), p)
  {
    AtIdxWrite(s, p);
    IdxWriteReady(s, p);
    hide PcOk, Ready, Hash, BodyLen, Callable, Eff, NewRec, AddRec;
    var t := IdxWriteDone(s, p);
    assert Adding(t, t.procs[p]) && HasHead(t, t.procs[p], ChainOf(t.procs[p], t.ix.nhash));
    AtIdxDrop(t, p);
  }

  lemma AtIdxWrite(s: State, p: int)
    requires s.ix.nhash > 0 && 0 <= p < |s.procs| && s.procs[p].pc.IdxWrite? && ProcOk(s, p)
    ensures var pr := s.procs[p];
            Callable(pr.op) && Adding(s, pr) && HasHead(s, pr, ChainOf(pr, s.ix.nhash)) && Extent(s, p, pr)
  {
    hide Hash, Adding, HasHead, Extent, ChainOf, Callable;
  }

  lemma AtIdxDrop(s: State, p: int)
    requires s.ix.nhash > 0 && 0 <= p < |s.procs| && s.procs[p].pc.IdxDrop? && Callable(s.procs[p].op)
    requires var pr := s.procs[p]; Adding(s, pr) && HasHead(s, pr, ChainOf(pr, s.ix.nhash)) && Ready(s, p, pr)
    ensures ProcOk(s, p)
  {
    hide Hash, Adding, HasHead, Ready, ChainOf, Callable;
  }

  lemma IdxWriteReady(s: State, p: int)
    requires s.ix.nhash > 0 && 0 <= p < |s.procs| && s.procs[p].pc.IdxWrite? && Extent(s, p, s.procs[p])
    requires s.ix.size > 0 && Eff(IdxWriteDone(s, p)) == AddRec(Eff(s), s.procs[p].head, NewRec(s.procs[p]))
    ensures var t := IdxWriteDone(s, p); Ready(t, p, t.procs[p])
  {
    hide BodyLen;
  }

  lemma IdxWriteShows(s: State, p: int)
    requires s.ix.nhash > 0 && 0 <= p < |s.procs| && s.procs[p].pc.IdxWrite? && ProcOk(s, p)
    requires forall key | key in s.sh.loc :: s.sh.loc[key] != s.ix.size
    ensures Dirty(IdxWriteDone(s, p).procs[p]) || Shows(IdxWriteDone(s, p), s.procs[p].op.key, IdxWriteDone(s, p).m)
  {
    hide Hash, BodyLen, At, Passed, Holding, HoldingKey, Taken, Removing, StepMap, StepResult;
  }

  lemma LocApart(s: State, x: int)
    requires Structure(s) && x !in s.ix.recs
    ensures forall key | key in s.sh.loc :: s.sh.loc[key] != x
  {
    hide Layout, ListsOk, Covered, Filed;
  }

  lemma IdxWriteStep(s: State, p: int)
    requires Inv(s) && Enabled(s, p) && s.procs[p].pc.IdxWrite?
    ensures Inv(IdxWriteDone(s, p))
  {
    hide Layout, Shaped, DataOk, PendOk, History, Agree, Frame, OwnRecord, Conflict, Hash, MayTouch, PcOk;
    IdxWriteParts(s, p);
    IdxWriteData(s, p);
    IdxWriteFrame(s, p);
    ProcIsOk(s, p);
    IdxWritePc(s, p);
    LocApart(s, s.ix.size);
    IdxWriteShows(s, p);
    FreshOwn(s, p);
    ExclusiveKept(s, IdxWriteDone(s, p), p);
    SameHistory(s, IdxWriteDone(s, p));
    Assemble(s, IdxWriteDone(s, p), p, s.ix.size);
  }

  // ---------- the chain head ----------

  lemma LinkStructure(ix: Index, sh: Shape, limbo: set<int>, x: int, k: int, key: string)
    requires Layout(ix) && Shaped(ix, sh, limbo) && x in limbo && x in ix.recs && x in ix.ptrs && ix.recs[x].key == key
    requires 0 <= x <= PTR_MAX && key !in sh.loc && k == Hash(key, ix.nhash) + 1
    requires 7 * k in ix.ptrs && ix.ptrs[x] == ix.ptrs[7 * k]
    ensures k < |sh.lists| && |sh.lists[k]| > 0
    ensures Layout(SetPtr(ix, 7 * k, x)) && Shaped(SetPtr(ix, 7 * k, x), Stored(sh, k, x, key), limbo - {x})
  {
    hide Layout, ListsOk, Covered, Filed, Located;
    PushShaped(ix, sh, limbo, k, x, sh.loc[key := x]);
    assert ix.ptrs[x := ix.ptrs[x]] == ix.ptrs;
    SetPtrLayout(ix, 7 * k, x);
  }

  lemma LinkHeadParts(s: State, p: int)
    requires Inv(s) && 0 <= p < |s.procs| && s.procs[p].pc.LinkHead? && s.procs[p].idxoff <= PTR_MAX
    ensures var pr := s.procs[p]; var k := ChainOf(pr, s.ix.nhash); var x := pr.idxoff; var t := LinkHeadDone(s, p);
            && 0 < k < |s.sh.lists| && 0 < |s.sh.lists[k]| && Mine(s, p, x) && Writes(pr.op)
            && 7 * k in s.ix.ptrs && 7 * k !in s.limbo && x !in s.sh.owner
            && (s.pend.Pending? ==> s.pend.pid != p && s.pend.prev != 7 * k && s.pend.prev != x)
            && t.sh == Push(s.sh, k, x, s.sh.loc[pr.op.key := x]) && Eff(t) == SetPtr(Eff(s), 7 * k, x) && Structure(t)
  {
    hide Layout, Shaped, Exclusive, Agree, History, Hash, Shows, DataOk;
    var pr := s.procs[p];
    var k := ChainOf(pr, s.ix.nhash);
    var x := pr.idxoff;
    assert ProcOk(s, p);
    LimboPtrs(s);
    HeadValue(s, p);
    PrevElsewhere(s, p, 7 * k);
    LinkStructure(Eff(s), s.sh, s.limbo.Keys, x, k, pr.op.key);
    LimboKeys(s.limbo, x, p);
    if s.pend.Pending? {
      MapSwap(s.ix.ptrs, s.pend.prev, s.pend.save, 7 * k, x);
    }
  }

  lemma LinkHeadFrame(s: State, p: int)
    requires Inv(s) && 0 <= p < |s.procs| && s.procs[p].pc.LinkHead? && s.procs[p].idxoff <= PTR_MAX
    ensures Frame(s, LinkHeadDone(s, p), p, s.procs[p].idxoff) && DataOk(LinkHeadDone(s, p))
            && PendOk(LinkHeadDone(s, p))
  {
    hide Layout, Shaped, Exclusive, Agree, History, Hash, SameRec, ExtOk, DataOk, PcOk;
    LinkHeadParts(s, p);
    PointerData(s, LinkHeadDone(s, p));
    LimboPtrs(s);
  }

  lemma LinkHeadPc(s: State, p: int)
    requires Inv(s) && 0 <= p < |s.procs| && s.procs[p].pc.LinkHead? && s.procs[p].idxoff <= PTR_MAX
    ensures ProcOk(LinkHeadDone(s, p), p)
  {
    hide Layout, Shaped, Exclusive, Agree, History, Hash, DataOk;
    assert ProcOk(s, p);
    LinkHeadParts(s, p);
  }

  lemma LinkHeadStep(s: State, p: int)
    requires Inv(s) && Enabled(s, p) && s.procs[p].pc.LinkHead? && s.procs[p].idxoff <= PTR_MAX
    ensures Inv(LinkHeadDone(s, p))
  {
    hide Layout, Shaped, DataOk, PendOk, History, Agree, Frame, OwnRecord, Conflict, Hash, MayTouch, PcOk;
    LinkHeadParts(s, p);
    LinkHeadFrame(s, p);
    LinkHeadPc(s, p);
    MineTouch(s, p, s.procs[p].idxoff);
    ExclusiveKept(s, LinkHeadDone(s, p), p);
    SameHistory(s, LinkHeadDone(s, p));
    Assemble(s, LinkHeadDone(s, p), p, s.procs[p].idxoff);
  }

  // ---------- the theorems ----------

  /** Every step of every process keeps the invariant. */
  lemma StepKeepsInv(s: State, p: int)
    requires Inv(s) && Enabled(s, p)
    ensures Inv(Step(s, p))
  {
    hide Inv, Local, BodyLen, NewRec, RecAt;
    match s.procs[p].pc
    case Release => ReleaseStep(s, p);
    case BlankDat => BlankDatStep(s, p);
    case BlankIdx => BlankIdxStep(s, p);
    case SetFree => SetFreeStep(s, p);
    case SetPrev => SetPrevStep(s, p);
    case FreeTake => FreeTakeStep(s, p);
    case ReuseDat => ReuseDatStep(s, p);
    case ReuseIdx => ReuseIdxStep(s, p);
    case DatWrite => DatWriteStep(s, p);
    case IdxWrite => IdxWriteStep(s, p);
    case Overwrite => OverwriteStep(s, p);
    case LinkHead =>
      if s.procs[p].idxoff > PTR_MAX { DieStep(s, p); } else { LinkHeadStep(s, p); }
    case Walk | DatDrop =>
      if Refused(s, s.procs[p]) { DieStep(s, p); } else { LocalStep(s, p); }
    case _ => LocalStep(s, p);
  }
}
