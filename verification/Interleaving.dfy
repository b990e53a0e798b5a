/** Every step of every process keeps the invariant, so all reachable states have it:
    the structure is never broken, locks exclude each other, no deadlock can arise, and
    an unlocked chain shows exactly the operations that have completed on it. */
module Interleaving {
  import opened IndexFormat
  import opened IndexFile
  import opened Chains
  import opened Database
  import opened Runs
  import opened Concurrency

  // ---------- the invariant ----------

  /** The index as it will be once a pending predecessor has been rewritten */
  function Eff(s: State): Index {
    match s.pend
    case NoPending => s.ix
    case Pending(_, prev, save) => SetPtr(s.ix, prev, save)
  }

  ghost predicate ExtOk(s: State, x: int) {
    && x in s.ix.recs && s.ix.recs[x].datoff in s.dat && s.ix.recs[x].datoff in s.ext
    && s.ext[s.ix.recs[x].datoff] == x
    && |s.dat[s.ix.recs[x].datoff]| + 1 == s.ix.recs[x].datlen
  }

  /** Each record has a data extent of its own. */
  ghost predicate DataOk(s: State) {
    && (forall x | x in s.ix.recs :: ExtOk(s, x))
    && (forall o | o in s.dat :: 0 <= o < s.dsize)
    && (forall o | o in s.ext :: o in s.dat)
    && 0 <= s.dsize
  }

  ghost predicate Exclusive(s: State)
    requires s.ix.nhash > 0
  {
    forall p, q | 0 <= p < |s.procs| && 0 <= q < |s.procs| && p != q ::
      !Conflict(s.procs[p], s.procs[q], s.ix.nhash)
  }

  /** Only the process that is deleting a record leaves a pointer pending, and it is on
      the chain that process has locked. */
  ghost predicate PendOk(s: State)
    requires s.ix.nhash > 0
  {
    match s.pend
    case NoPending => true
    case Pending(p, prev, _) =>
      && 0 <= p < |s.procs| && (s.procs[p].pc.SetFree? || s.procs[p].pc.SetPrev?)
      && prev in s.ix.ptrs && prev in s.sh.owner && s.sh.owner[prev] == ChainOf(s.procs[p], s.ix.nhash)
  }

  /** The data the files hold under a key */
  function ValueAt(s: State, x: int): string {
    if x in s.ix.recs && s.ix.recs[x].datoff in s.dat then s.dat[s.ix.recs[x].datoff] else ""
  }

  /** The files show what map m says about a key. */
  ghost predicate Shows(s: State, key: string, m: map<string, string>) {
    && (key in s.sh.loc <==> key in m)
    && (key in m && key in s.sh.loc ==> ValueAt(s, s.sh.loc[key]) == m[key])
  }

  /** The process has changed its key in the files, or is about to report it. */
  predicate Dirty(pr: Proc) {
    match pr.pc
    case ReadFree | BlankIdx | SetFree | SetPrev | DelDrop => true
    case Release => Writes(pr.op)
    case _ => HoldsChain(pr) && pr.replaced
  }

  predicate DirtyOn(pr: Proc, key: string) {
    Dirty(pr) && pr.op.key == key
  }

  ghost predicate AgreeOn(s: State, key: string) {
    (forall p | 0 <= p < |s.procs| :: !DirtyOn(s.procs[p], key)) ==> Shows(s, key, s.m)
  }

  /** Every key that no process is in the middle of changing shows its abstract value. */
  ghost predicate Agree(s: State) {
    forall key :: AgreeOn(s, key)
  }

  function Replay(log: seq<Event>): map<string, string> {
    if |log| == 0 then map[]
    else
      var m := Replay(log[..|log| - 1]);
      match log[|log| - 1]
      case Done(op, _) => StepMap(m, op)
      case Crashed(op, removed) => if removed then m - {op.key} else m
  }

  /** The result of every completed operation is the one the abstract database gave. */
  predicate ResultsOk(log: seq<Event>) {
    if |log| == 0 then true
    else
      && ResultsOk(log[..|log| - 1])
      && (log[|log| - 1].Done? ==>
           log[|log| - 1].res == StepResult(Replay(log[..|log| - 1]), log[|log| - 1].op))
  }

  ghost predicate History(s: State) {
    s.m == Replay(s.log) && ResultsOk(s.log)
  }

  // ---------- what a process knows ----------

  function List(s: State, k: int): seq<int> {
    if 0 <= k < |s.sh.lists| then s.sh.lists[k] else []
  }

  /** Standing at node i of list k, about to look at the next one */
  ghost predicate At(s: State, pr: Proc, k: int) {
    0 <= pr.i < |List(s, k)| && pr.ptroff == List(s, k)[pr.i] && pr.off == Next(List(s, k), pr.i)
  }

  /** None of the nodes passed so far holds the key. */
  ghost predicate Passed(s: State, pr: Proc, k: int) {
    forall j | 0 < j <= pr.i && j < |List(s, k)| ::
      List(s, k)[j] in s.ix.recs && s.ix.recs[List(s, k)[j]].key != pr.op.key
  }

  /** None of the free records passed so far has a key and data of the lengths wanted. */
  ghost predicate NoneFits(s: State, pr: Proc) {
    forall j | 0 < j <= pr.i && j < |List(s, 0)| ::
      && List(s, 0)[j] in s.ix.recs
      && !(|s.ix.recs[List(s, 0)[j]].key| == |pr.op.key| && s.ix.recs[List(s, 0)[j]].datlen == DataLen(pr.op))
  }

  /** Node i of list k is in the buffers, ptroff is its predecessor. */
  ghost predicate Holding(s: State, pr: Proc, k: int) {
    && 0 < pr.i < |List(s, k)|
    && pr.idxoff == List(s, k)[pr.i] && pr.ptroff == List(s, k)[pr.i - 1] && pr.ptrval == Next(List(s, k), pr.i)
    && pr.idxoff in s.ix.recs
    && pr.datoff == s.ix.recs[pr.idxoff].datoff && pr.datlen == s.ix.recs[pr.idxoff].datlen
  }

  ghost predicate HoldingKey(s: State, pr: Proc, k: int) {
    && Holding(s, pr, k) && s.ix.recs[pr.idxoff].key == pr.op.key
    && pr.op.key in s.sh.loc && s.sh.loc[pr.op.key] == pr.idxoff
  }

  /** The operation removes the record it finds. */
  predicate Removes(pr: Proc) {
    pr.op.DeleteOp? || (pr.op.StoreOp? && pr.op.flag != DB_INSERT)
  }

  /** The key is on no chain and the operation is going to add it. */
  ghost predicate Adding(s: State, pr: Proc) {
    && pr.op.StoreOp? && pr.op.key !in s.sh.loc
    && (if pr.replaced then pr.op.key in s.m && pr.op.flag != DB_INSERT
        else pr.op.key !in s.m && pr.op.flag != DB_REPLACE)
  }

  ghost predicate HasHead(s: State, pr: Proc, k: int) {
    0 < |List(s, k)| && pr.head == Next(List(s, k), 0)
  }

  ghost predicate Mine(s: State, p: int, x: int) {
    x in s.limbo && s.limbo[x] == p && x in s.ix.recs && x in s.ix.ptrs
  }

  /** A record of the right lengths, taken off the free list */
  ghost predicate Taken(s: State, p: int, pr: Proc) {
    && Mine(s, p, pr.idxoff) && 0 <= pr.idxoff <= PTR_MAX
    && |s.ix.recs[pr.idxoff].key| == |pr.op.key|
    && pr.datoff == s.ix.recs[pr.idxoff].datoff && s.ix.recs[pr.idxoff].datlen == DataLen(pr.op)
  }

  /** A data extent of this process that no record uses yet */
  ghost predicate Extent(s: State, p: int, pr: Proc) {
    pr.datoff in s.ext && s.ext[pr.datoff] == -1 - p && pr.datoff in s.dat && s.dat[pr.datoff] == NewData(pr.op)
  }

  /** The complete record, not yet on its chain */
  ghost predicate Ready(s: State, p: int, pr: Proc) {
    && Mine(s, p, pr.idxoff) && s.ix.recs[pr.idxoff] == NewRec(pr)
    && pr.idxoff in Eff(s).ptrs && Eff(s).ptrs[pr.idxoff] == pr.head && 0 <= pr.idxoff
    && ValueAt(s, pr.idxoff) == NewData(pr.op)
  }

  ghost predicate Removing(s: State, pr: Proc) {
    Removes(pr) && pr.op.key in s.m && pr.op.key !in s.sh.loc && !pr.replaced
  }

  ghost predicate PcOk(s: State, p: int, pr: Proc, k: int)
    requires s.ix.nhash > 0
  {
    match pr.pc
    case Idle | Dead => true
    case ChainWait | ReadHead => !pr.replaced
    case Walk =>
      !pr.replaced && At(s, pr, k) && Passed(s, pr, k)
    case ReadDat => !pr.replaced && pr.op.FetchOp? && HoldingKey(s, pr, k)
    case DelWait | BlankDat =>
      !pr.replaced && Removes(pr) && HoldingKey(s, pr, k) && (pr.op.StoreOp? ==> pr.datlen != DataLen(pr.op))
    case ReadFree =>
      && !pr.replaced && Removes(pr) && HoldingKey(s, pr, k) && pr.op.key in s.m
      && AllBlank(ValueAt(s, pr.idxoff))
    case BlankIdx =>
      && !pr.replaced && Removes(pr) && HoldingKey(s, pr, k) && pr.op.key in s.m && 0 < |List(s, 0)|
      && AllBlank(ValueAt(s, pr.idxoff))
      && pr.freeval == Next(List(s, 0), 0)
    case SetFree =>
      && Removing(s, pr) && s.pend == Pending(p, pr.ptroff, pr.ptrval) && 0 <= pr.ptrval <= PTR_MAX
      && Mine(s, p, pr.idxoff) && AllBlank(s.ix.recs[pr.idxoff].key) && 0 <= pr.idxoff <= PTR_MAX
      && 0 < |List(s, 0)| && pr.idxoff in Eff(s).ptrs && Eff(s).ptrs[pr.idxoff] == Next(List(s, 0), 0)
    case SetPrev => Removing(s, pr) && s.pend == Pending(p, pr.ptroff, pr.ptrval) && 0 <= pr.ptrval <= PTR_MAX
    case DelDrop => Removing(s, pr)
    case HeadForNew => Adding(s, pr) && !pr.replaced
    case FreeWait | FreeHead => Adding(s, pr) && HasHead(s, pr, k) && !pr.replaced
    case FreeDrop =>
      Adding(s, pr) && HasHead(s, pr, k) && !pr.replaced && pr.i + 1 == |List(s, 0)| && NoneFits(s, pr)
    case FreeWalk => Adding(s, pr) && HasHead(s, pr, k) && !pr.replaced && At(s, pr, 0) && NoneFits(s, pr)
    case FreeTake =>
      && Adding(s, pr) && HasHead(s, pr, k) && !pr.replaced && Holding(s, pr, 0)
      && |s.ix.recs[pr.idxoff].key| == |pr.op.key| && pr.datlen == DataLen(pr.op) && NoneFits(s, pr.(i := pr.i - 1))
    case TakenDrop | ReuseDat => Adding(s, pr) && HasHead(s, pr, k) && !pr.replaced && Taken(s, p, pr)
    case ReuseIdx =>
      Adding(s, pr) && HasHead(s, pr, k) && !pr.replaced && Taken(s, p, pr)
      && ValueAt(s, pr.idxoff) == NewData(pr.op)
    case Reread => Adding(s, pr)
    case DatWait | DatWrite => Adding(s, pr) && HasHead(s, pr, k)
    case DatDrop => Adding(s, pr) && HasHead(s, pr, k) && Extent(s, p, pr)
    case IdxWait | IdxWrite =>
      Adding(s, pr) && HasHead(s, pr, k) && Extent(s, p, pr) && IDXLEN_MIN <= BodyLen(NewRec(pr)) <= IDXLEN_MAX
    case IdxDrop | LinkHead => Adding(s, pr) && HasHead(s, pr, k) && Ready(s, p, pr)
    case Overwrite =>
      !pr.replaced && pr.op.StoreOp? && Removes(pr) && HoldingKey(s, pr, k) && pr.datlen == DataLen(pr.op)
    case Release =>
      pr.res == StepResult(s.m, pr.op) && Shows(s, pr.op.key, StepMap(s.m, pr.op))
  }

  ghost predicate ProcOk(s: State, p: int)
    requires s.ix.nhash > 0 && 0 <= p < |s.procs|
  {
    var pr := s.procs[p];
    (!pr.pc.Idle? && !pr.pc.Dead? ==> Callable(pr.op)) && PcOk(s, p, pr, ChainOf(pr, s.ix.nhash))
  }

  ghost predicate ProcsOk(s: State)
    requires s.ix.nhash > 0
  {
    forall p | 0 <= p < |s.procs| :: ProcOk(s, p)
  }

  ghost predicate Structure(s: State) {
    s.ix.nhash > 0 && Layout(Eff(s)) && Shaped(Eff(s), s.sh, s.limbo.Keys)
  }

  ghost predicate Inv(s: State) {
    && Structure(s) && DataOk(s) && Exclusive(s) && PendOk(s) && Agree(s) && ProcsOk(s) && History(s)
  }

  // ---------- frames ----------

  /** Lists that process p may change now */
  predicate MayChange(s: State, p: int, k: int)
    requires s.ix.nhash > 0 && 0 <= p < |s.procs|
  {
    var pr := s.procs[p];
    || (HoldsChain(pr) && Writes(pr.op) && k == ChainOf(pr, s.ix.nhash))
    || (HoldsFree(pr) && k == 0)
  }

  /** Record x is within reach of process p: on a list it may change, in its hands, or new. */
  ghost predicate MayTouch(s: State, p: int, x: int)
    requires s.ix.nhash > 0 && 0 <= p < |s.procs|
  {
    || (x in s.sh.owner && MayChange(s, p, s.sh.owner[x]))
    || (x in s.limbo && s.limbo[x] == p)
    || x !in s.ix.recs
  }

  ghost predicate SameRec(s: State, t: State, y: int) {
    y in t.ix.recs && (y in s.ix.recs ==> t.ix.recs[y] == s.ix.recs[y]) && ValueAt(t, y) == ValueAt(s, y)
  }

  ghost predicate SameKey(s: State, t: State, key: string) {
    && (key in t.sh.loc <==> key in s.sh.loc) && (key in s.sh.loc && key in t.sh.loc ==> t.sh.loc[key] == s.sh.loc[key])
    && (key in t.m <==> key in s.m) && (key in s.m && key in t.m ==> t.m[key] == s.m[key])
  }

  ghost predicate SameExtent(s: State, t: State, o: int) {
    && o in t.ext && o in t.dat && (o in s.ext ==> t.ext[o] == s.ext[o]) && (o in s.dat ==> t.dat[o] == s.dat[o])
  }

  ghost predicate SameLimbo(s: State, t: State, x: int) {
    && x in t.limbo && (x in s.limbo ==> t.limbo[x] == s.limbo[x]) && x in t.ix.ptrs && x in Eff(t).ptrs
    && (x in Eff(s).ptrs ==> Eff(t).ptrs[x] == Eff(s).ptrs[x])
  }

  /** What a step of process p leaves alone: x is the one record it may change. */
  ghost predicate Frame(s: State, t: State, p: int, x: int)
    requires s.ix.nhash > 0 && 0 <= p < |s.procs|
  {
    && t.ix.nhash == s.ix.nhash && |t.procs| == |s.procs| && t.procs == s.procs[p := t.procs[p]]
    && |t.sh.lists| == |s.sh.lists|
    && (forall k | 0 <= k < |s.sh.lists| && !MayChange(s, p, k) :: t.sh.lists[k] == s.sh.lists[k])
    && (forall y | y in s.limbo && s.limbo[y] != p :: SameLimbo(s, t, y))
    && MayTouch(s, p, x)
    && (forall y | y in s.ix.recs && y != x :: SameRec(s, t, y))
    && (forall key | key != s.procs[p].op.key || !HoldsChain(s.procs[p]) || !Writes(s.procs[p].op) ::
          SameKey(s, t, key))
    && (forall o | o in s.ext && s.ext[o] < 0 && s.ext[o] != -1 - p :: SameExtent(s, t, o))
    && (s.pend.Pending? && s.pend.pid != p ==> t.pend == s.pend)
  }

  // ---------- what one process knows survives the steps of another ----------

  lemma NodeApart(s: State, p: int, x: int, q: int, k: int, j: int)
    requires Structure(s) && Exclusive(s) && 0 <= p < |s.procs| && 0 <= q < |s.procs| && p != q
    requires MayTouch(s, p, x) && 0 <= k < |s.sh.lists| && 0 < j < |s.sh.lists[k]|
    requires !MayChange(s, p, k)
    ensures s.sh.lists[k][j] in s.ix.recs && s.sh.lists[k][j] != x
  {
    hide Layout, Covered, Filed, Located;
    var ix := Eff(s);
    NodeKind(ix, s.sh, s.limbo.Keys, k, j);
    OnList(ix, s.sh, s.limbo.Keys, k, j);
  }

  /** A process with a chain lock or the free-list lock keeps others off that list. */
  lemma LockedOut(s: State, p: int, q: int)
    requires s.ix.nhash > 0 && Exclusive(s) && 0 <= p < |s.procs| && 0 <= q < |s.procs| && p != q
    ensures HoldsChain(s.procs[q]) ==> !MayChange(s, p, ChainOf(s.procs[q], s.ix.nhash))
    ensures HoldsFree(s.procs[q]) ==> !MayChange(s, p, 0)
    ensures HoldsChain(s.procs[q]) && HoldsChain(s.procs[p]) && Writes(s.procs[p].op) ==>
              s.procs[p].op.key != s.procs[q].op.key
  {
    assert !Conflict(s.procs[p], s.procs[q], s.ix.nhash);
  }

  lemma ListKept(s: State, t: State, p: int, x: int, q: int, k: int)
    requires Structure(s) && Exclusive(s) && 0 <= p < |s.procs| && 0 <= q < |s.procs| && p != q
    requires Frame(s, t, p, x) && 0 <= k < |s.sh.lists| && !MayChange(s, p, k)
    ensures List(t, k) == List(s, k)
    ensures forall j | 0 < j < |List(s, k)| :: List(s, k)[j] in s.ix.recs && SameRec(s, t, List(s, k)[j])
  {
    hide Layout, Shaped;
    forall j | 0 < j < |List(s, k)| ensures List(s, k)[j] in s.ix.recs && SameRec(s, t, List(s, k)[j]) {
      NodeApart(s, p, x, q, k, j);
    }
  }

  lemma KeyKept(s: State, t: State, p: int, x: int, q: int)
    requires Structure(s) && Exclusive(s) && 0 <= p < |s.procs| && 0 <= q < |s.procs| && p != q
    requires Frame(s, t, p, x) && HoldsChain(s.procs[q])
    ensures SameKey(s, t, s.procs[q].op.key)
    ensures s.procs[q].op.key in s.sh.loc ==> SameRec(s, t, s.sh.loc[s.procs[q].op.key])
  {
    hide Layout, ListsOk, Covered;
    LockedOut(s, p, q);
    var key := s.procs[q].op.key;
    if key in s.sh.loc {
      var y := s.sh.loc[key];
      assert s.sh.owner[y] == ChainOf(s.procs[q], s.ix.nhash);
      assert y in s.sh.owner.Keys;
    }
  }

  lemma MineKept(s: State, t: State, p: int, x: int, q: int, y: int)
    requires Structure(s) && 0 <= p < |s.procs| && 0 <= q < |s.procs| && p != q
    requires Frame(s, t, p, x) && Mine(s, q, y)
    ensures Mine(t, q, y) && SameRec(s, t, y) && y in Eff(t).ptrs && y in Eff(s).ptrs
            && Eff(t).ptrs[y] == Eff(s).ptrs[y]
  {
    hide Layout, ListsOk, Covered, Filed, Located;
    assert y !in s.sh.owner.Keys;
  }

  /** The frame lemma of the protocol. */
  lemma ProcKept(s: State, t: State, p: int, x: int, q: int)
    requires Structure(s) && Exclusive(s) && ProcsOk(s)
    requires 0 <= p < |s.procs| && 0 <= q < |s.procs| && p != q && Frame(s, t, p, x)
    ensures ProcOk(t, q)
  {
    hide Layout, Shaped, Eff, MayTouch, MayChange;
    var pr := s.procs[q];
    var k := ChainOf(pr, s.ix.nhash);
    assert ProcOk(s, q);
    assert t.procs[q] == pr;
    LockedOut(s, p, q);
    ListCount(s);
    if HoldsChain(pr) {
      ListKept(s, t, p, x, q, k);
      KeyKept(s, t, p, x, q);
      if HoldsFree(pr) {
        ListKept(s, t, p, x, q, 0);
      }
      if Mine(s, q, pr.idxoff) {
        MineKept(s, t, p, x, q, pr.idxoff);
      }
      PcKept(s, t, q, pr, k);
    }
  }

  lemma ListCount(s: State)
    requires Structure(s)
    ensures |s.sh.lists| == s.ix.nhash + 1
  {
    hide Layout, ListsOk, Covered, Filed, Located;
  }

  /** Everything a process's knowledge rests on is the same in both states. */
  ghost predicate SameFor(s: State, t: State, q: int, pr: Proc, k: int) {
    && List(t, k) == List(s, k)
    && (forall j | 0 < j < |List(s, k)| :: List(s, k)[j] in s.ix.recs && SameRec(s, t, List(s, k)[j]))
    && (HoldsFree(pr) ==> List(t, 0) == List(s, 0))
    && (HoldsFree(pr) ==> forall j | 0 < j < |List(s, 0)| :: List(s, 0)[j] in s.ix.recs && SameRec(s, t, List(s, 0)[j]))
    && SameKey(s, t, pr.op.key)
    && (pr.op.key in s.sh.loc ==> SameRec(s, t, s.sh.loc[pr.op.key]))
    && (Mine(s, q, pr.idxoff) ==>
         && Mine(t, q, pr.idxoff) && SameRec(s, t, pr.idxoff)
         && pr.idxoff in Eff(t).ptrs && pr.idxoff in Eff(s).ptrs && Eff(t).ptrs[pr.idxoff] == Eff(s).ptrs[pr.idxoff])
    && (pr.datoff in s.ext && s.ext[pr.datoff] == -1 - q ==> SameExtent(s, t, pr.datoff))
    && (s.pend.Pending? && s.pend.pid == q ==> t.pend == s.pend)
  }

  lemma ListPartsKept(s: State, t: State, q: int, pr: Proc, k: int, l: int)
    requires s.ix.nhash > 0 && HoldsChain(pr) && SameFor(s, t, q, pr, k)
    requires l == k || (l == 0 && HoldsFree(pr))
    ensures At(s, pr, l) ==> At(t, pr, l)
    ensures Holding(s, pr, l) ==> Holding(t, pr, l) && t.ix.recs[pr.idxoff] == s.ix.recs[pr.idxoff]
    ensures HoldingKey(s, pr, k) ==> HoldingKey(t, pr, k) && ValueAt(t, pr.idxoff) == ValueAt(s, pr.idxoff)
    ensures HasHead(s, pr, k) ==> HasHead(t, pr, k)
    ensures Passed(s, pr, k) ==> Passed(t, pr, k)
  {
    hide Layout, Shaped, Eff, Hash;
    if Holding(s, pr, l) {
      assert List(s, l)[pr.i] in s.ix.recs && SameRec(s, t, List(s, l)[pr.i]);
    }
    if Holding(s, pr, k) {
      assert List(s, k)[pr.i] in s.ix.recs && SameRec(s, t, List(s, k)[pr.i]);
    }
  }

  lemma OwnPartsKept(s: State, t: State, q: int, pr: Proc, k: int)
    requires s.ix.nhash > 0 && HoldsChain(pr) && SameFor(s, t, q, pr, k) && 0 <= q
    ensures Adding(s, pr) ==> Adding(t, pr)
    ensures Removing(s, pr) ==> Removing(t, pr)
    ensures pr.op.key in s.m ==> pr.op.key in t.m
    ensures Mine(s, q, pr.idxoff) ==> Mine(t, q, pr.idxoff) && t.ix.recs[pr.idxoff] == s.ix.recs[pr.idxoff]
                                      && ValueAt(t, pr.idxoff) == ValueAt(s, pr.idxoff)
    ensures Taken(s, q, pr) ==> Taken(t, q, pr) && ValueAt(t, pr.idxoff) == ValueAt(s, pr.idxoff)
    ensures Extent(s, q, pr) ==> Extent(t, q, pr)
    ensures Ready(s, q, pr) ==> Ready(t, q, pr)
  {
    hide Layout, Shaped, Eff, Hash;
  }

  lemma ReleaseKept(s: State, t: State, q: int, pr: Proc, k: int)
    requires s.ix.nhash > 0 && HoldsChain(pr) && SameFor(s, t, q, pr, k)
    requires pr.res == StepResult(s.m, pr.op) && Shows(s, pr.op.key, StepMap(s.m, pr.op))
    ensures pr.res == StepResult(t.m, pr.op) && Shows(t, pr.op.key, StepMap(t.m, pr.op))
  {
    hide Layout, Shaped, Eff, Hash;
  }

  lemma PcKept(s: State, t: State, q: int, pr: Proc, k: int)
    requires s.ix.nhash > 0 && t.ix.nhash == s.ix.nhash && k == ChainOf(pr, s.ix.nhash) && HoldsChain(pr)
    requires SameFor(s, t, q, pr, k) && PcOk(s, q, pr, k) && Callable(pr.op) && 0 <= q
    ensures PcOk(t, q, pr, k)
  {
    hide Layout, Shaped, Eff, Hash, BodyLen, AllBlank, Callable, At, Passed, Holding, HoldingKey, HasHead, Adding,
         Removing,
         Taken, Extent, Ready, Shows, StepMap, StepResult, Removes;
    ListPartsKept(s, t, q, pr, k, k);
    if HoldsFree(pr) {
      ListPartsKept(s, t, q, pr, k, 0);
    }
    OwnPartsKept(s, t, q, pr, k);
    match pr.pc
    case Release => ReleaseKept(s, t, q, pr, k);
    case Walk =>
    case SetFree =>
    case BlankIdx =>
    case FreeTake => HoldingRec(s, pr, 0);
    case _ =>
  }

  lemma HoldingRec(s: State, pr: Proc, k: int)
    requires Holding(s, pr, k)
    ensures pr.idxoff in s.ix.recs
  {
  }

  // ---------- putting a step together ----------

  /** Apart from waiting for a lock, no step adds to the locks of its process. */
  predicate NoMoreLocks(pr: Proc, pr': Proc) {
    && pr'.op == pr.op
    && (HoldsChain(pr') ==> HoldsChain(pr)) && (HoldsFree(pr') ==> HoldsFree(pr))
    && (HoldsDat(pr') ==> HoldsDat(pr)) && (HoldsIdx(pr') ==> HoldsIdx(pr))
  }

  lemma ExclusiveKept(s: State, t: State, p: int)
    requires s.ix.nhash > 0 && t.ix.nhash == s.ix.nhash && Exclusive(s) && 0 <= p < |s.procs|
    requires |t.procs| == |s.procs| && t.procs == s.procs[p := t.procs[p]]
    requires NoMoreLocks(s.procs[p], t.procs[p]) ||
             forall q | 0 <= q < |s.procs| && q != p :: !Conflict(t.procs[p], s.procs[q], s.ix.nhash)
    ensures Exclusive(t)
  {
    forall a, b | 0 <= a < |t.procs| && 0 <= b < |t.procs| && a != b
      ensures !Conflict(t.procs[a], t.procs[b], t.ix.nhash)
    {
      assert !Conflict(s.procs[a], s.procs[b], s.ix.nhash) && !Conflict(s.procs[b], s.procs[a], s.ix.nhash);
      if a == p {
        assert !Conflict(t.procs[p], s.procs[b], s.ix.nhash);
      } else if b == p {
        assert !Conflict(t.procs[p], s.procs[a], s.ix.nhash);
      }
    }
  }

  /** Only the record of the process's own key can be the one it touches. */
  ghost predicate OwnRecord(s: State, p: int, x: int)
    requires 0 <= p < |s.procs|
  {
    forall key | key in s.sh.loc && s.sh.loc[key] == x :: key == s.procs[p].op.key
  }

  /** The process's own key is being changed, or shows what the abstract map says. */
  ghost predicate OwnKey(s: State, t: State, p: int)
    requires 0 <= p < |s.procs| && 0 <= p < |t.procs|
  {
    || !HoldsChain(s.procs[p]) || !Writes(s.procs[p].op)
    || (Dirty(t.procs[p]) && t.procs[p].op == s.procs[p].op)
    || Shows(t, s.procs[p].op.key, t.m)
    || (!Dirty(s.procs[p]) && t == s.(procs := t.procs))
  }

  lemma DirtyWrites(s: State, p: int)
    requires s.ix.nhash > 0 && 0 <= p < |s.procs| && ProcOk(s, p)
    ensures Dirty(s.procs[p]) ==> Writes(s.procs[p].op) && HoldsChain(s.procs[p])
  {
    hide Layout, Shaped, Eff, Hash, At, Passed, Holding, HoldingKey, HasHead, Taken, Extent, Ready, Shows, StepMap,
         StepResult;
  }

  lemma AgreeKept(s: State, t: State, p: int, x: int)
    requires Structure(s) && Agree(s) && ProcsOk(s) && 0 <= p < |s.procs|
    requires Frame(s, t, p, x) && OwnRecord(s, p, x) && OwnKey(s, t, p)
    ensures Agree(t)
  {
    forall key ensures AgreeOn(t, key) {
      assert AgreeOn(s, key);
      if forall q | 0 <= q < |t.procs| :: !DirtyOn(t.procs[q], key) {
        AgreeKeyKept(s, t, p, x, key);
      }
    }
  }

  lemma AgreeKeyKept(s: State, t: State, p: int, x: int, key: string)
    requires Structure(s) && AgreeOn(s, key) && ProcsOk(s) && 0 <= p < |s.procs|
    requires Frame(s, t, p, x) && OwnRecord(s, p, x) && OwnKey(s, t, p)
    requires forall q | 0 <= q < |t.procs| :: !DirtyOn(t.procs[q], key)
    ensures Shows(t, key, t.m)
  {
    hide Layout, Shaped, PcOk, MayTouch;
    var pr := s.procs[p];
    assert ProcOk(s, p);
    DirtyWrites(s, p);
    if key == pr.op.key && HoldsChain(pr) && Writes(pr.op) {
      assert !DirtyOn(t.procs[p], key);
      if !Dirty(pr) && t == s.(procs := t.procs) {
        forall q | 0 <= q < |s.procs| ensures !DirtyOn(s.procs[q], key) {
          if q != p { assert !DirtyOn(t.procs[q], key); }
        }
      }
    } else {
      forall q | 0 <= q < |s.procs| ensures !DirtyOn(s.procs[q], key) {
        if q != p { assert !DirtyOn(t.procs[q], key); }
      }
      assert SameKey(s, t, key);
      if key in s.sh.loc {
        LocInRecs(s, key);
        UntouchedKey(s, p, x, key);
        assert SameRec(s, t, s.sh.loc[key]);
      }
    }
  }

  lemma LocInRecs(s: State, key: string)
    requires Structure(s) && key in s.sh.loc
    ensures s.sh.loc[key] in s.ix.recs && s.ix.recs[s.sh.loc[key]].key == key
    ensures s.sh.loc[key] in s.sh.owner && s.sh.owner[s.sh.loc[key]] == Hash(key, s.ix.nhash) + 1
    ensures s.sh.loc[key] !in s.limbo
  {
    hide Layout, ListsOk, Covered;
    var x := s.sh.loc[key];
    assert x in s.sh.owner.Keys;
    assert x in s.ix.recs && x in s.sh.owner && s.sh.owner[x] != 0;
  }

  lemma UntouchedKey(s: State, p: int, x: int, key: string)
    requires Structure(s) && 0 <= p < |s.procs| && key in s.sh.loc
    requires OwnRecord(s, p, x) && MayTouch(s, p, x)
    requires key != s.procs[p].op.key || !HoldsChain(s.procs[p]) || !Writes(s.procs[p].op)
    ensures s.sh.loc[key] != x
  {
    hide Layout, Shaped;
    LocInRecs(s, key);
  }

  lemma Assemble(s: State, t: State, p: int, x: int)
    requires Inv(s) && 0 <= p < |s.procs|
    requires Frame(s, t, p, x) && OwnRecord(s, p, x) && OwnKey(s, t, p)
    requires Structure(t) && DataOk(t) && Exclusive(t) && PendOk(t) && History(t) && ProcOk(t, p)
    ensures Inv(t)
  {
    hide Layout, Shaped, DataOk, PendOk, History, PcOk, Frame, OwnRecord, OwnKey;
    AgreeKept(s, t, p, x);
    SameCount(s, t, p, x);
    forall q | 0 <= q < |t.procs| ensures ProcOk(t, q) {
      if q != p {
        ProcKept(s, t, p, x, q);
      }
    }
  }

  lemma SameCount(s: State, t: State, p: int, x: int)
    requires s.ix.nhash > 0 && 0 <= p < |s.procs| && Frame(s, t, p, x)
    ensures |t.procs| == |s.procs| && t.ix.nhash == s.ix.nhash
  {
  }

  // ---------- steps that change only the process ----------

  /** What a process reads from a pointer field of a list it has locked. */
  lemma ReadNode(s: State, p: int, k: int, i: int)
    requires Structure(s) && Exclusive(s) && PendOk(s) && ProcsOk(s) && 0 <= p < |s.procs|
    requires 0 <= k < |s.sh.lists| && 0 <= i < |s.sh.lists[k]|
    requires (HoldsChain(s.procs[p]) && k == ChainOf(s.procs[p], s.ix.nhash)) || (HoldsFree(s.procs[p]) && k == 0)
    requires !s.procs[p].pc.SetFree? && !s.procs[p].pc.SetPrev?
    ensures s.sh.lists[k][i] in s.ix.ptrs && Ptr(s, s.sh.lists[k][i]) == Next(s.sh.lists[k], i)
    ensures Next(s.sh.lists[k], i) == 0 <==> i + 1 == |s.sh.lists[k]|
    ensures i + 1 < |s.sh.lists[k]| ==> s.sh.lists[k][i + 1] in s.ix.recs
    ensures 0 <= Next(s.sh.lists[k], i) <= PTR_MAX
  {
    hide Layout, ListsOk, Covered, Filed, Located, PcOk;
    var ix := Eff(s);
    var x := s.sh.lists[k][i];
    Follow(ix, s.sh, s.limbo.Keys, k, i);
    OnList(ix, s.sh, s.limbo.Keys, k, i);
    PtrBounds(ix, x);
    match s.pend
    case NoPending =>
    case Pending(q, prev, _) =>
      assert ProcOk(s, q);
      SurgeryWrites(s, q);
      assert p != q && !Conflict(s.procs[p], s.procs[q], s.ix.nhash);
  }

  lemma PtrBounds(ix: Index, x: int)
    requires Layout(ix) && x in ix.ptrs
    ensures 0 <= ix.ptrs[x] <= PTR_MAX
  {
    assert PtrsFit(ix.ptrs);
  }

  lemma SurgeryWrites(s: State, q: int)
    requires s.ix.nhash > 0 && 0 <= q < |s.procs| && ProcOk(s, q)
    requires s.procs[q].pc.SetFree? || s.procs[q].pc.SetPrev?
    ensures Writes(s.procs[q].op) && HoldsChain(s.procs[q]) && HoldsFree(s.procs[q])
  {
  }

  /** A key on a chain a process has locked shows its abstract value unless that very
      process is changing it. */
  lemma OwnKeyShown(s: State, p: int)
    requires Inv(s) && 0 <= p < |s.procs| && HoldsChain(s.procs[p]) && !Dirty(s.procs[p])
    ensures Shows(s, s.procs[p].op.key, s.m)
  {
    hide Layout, Shaped, DataOk, History, PcOk, Shows, PendOk;
    var key := s.procs[p].op.key;
    assert AgreeOn(s, key);
    forall q | 0 <= q < |s.procs| ensures !DirtyOn(s.procs[q], key) {
      assert ProcOk(s, q);
      DirtyWrites(s, q);
      if q != p {
        assert !Conflict(s.procs[p], s.procs[q], s.ix.nhash);
      }
    }
  }

  lemma ListHead(s: State, k: int)
    requires Structure(s) && 0 <= k <= s.ix.nhash
    ensures k < |s.sh.lists| && List(s, k) == s.sh.lists[k] && |List(s, k)| > 0 && List(s, k)[0] == 7 * k
  {
    hide Layout, Covered, Filed, Located;
    assert ListOk(Eff(s).ptrs, s.sh.owner, s.sh.lists[k], k);
  }

  /** A walk along a locked list stays on it. */
  lemma WalkOn(s: State, p: int, pr: Proc, k: int)
    requires Structure(s) && Exclusive(s) && PendOk(s) && ProcsOk(s) && 0 <= p < |s.procs| && s.procs[p] == pr
    requires 0 <= k < |s.sh.lists| && At(s, pr, k)
    requires (HoldsChain(pr) && k == ChainOf(pr, s.ix.nhash)) || (HoldsFree(pr) && k == 0)
    requires !pr.pc.SetFree? && !pr.pc.SetPrev?
    ensures pr.off == 0 <==> pr.i + 1 == |List(s, k)|
    ensures pr.off != 0 ==>
              var l := Loaded(s, pr, pr.off).(i := pr.i + 1);
              && pr.off in s.ix.recs && pr.off == List(s, k)[pr.i + 1]
              && Holding(s, l, k) && At(s, l.(ptroff := pr.off, off := l.ptrval), k)
  {
    hide Layout, Shaped, PcOk, DataOk, PendOk, Exclusive;
    ReadNode(s, p, k, pr.i);
    if pr.off != 0 {
      ReadNode(s, p, k, pr.i + 1);
    }
  }

  /** The walk along the chain compares every record on it with the key. */
  lemma WalkPc(s: State, p: int)
    requires Inv(s) && 0 <= p < |s.procs| && s.procs[p].pc.Walk?
    ensures var pr := s.procs[p];
            && PcOk(s, p, Local(s, pr), ChainOf(pr, s.ix.nhash)) && Local(s, pr).op == pr.op
            && NoMoreLocks(pr, Local(s, pr))
  {
    hide Layout, Shaped, DataOk, PendOk, Exclusive, History, Agree;
    var pr := s.procs[p];
    var k := ChainOf(pr, s.ix.nhash);
    assert ProcOk(s, p);
    ListHead(s, k);
    WalkOn(s, p, pr, k);
    OwnKeyShown(s, p);
    KeyOnChain(Eff(s), s.sh, s.limbo.Keys, pr.op.key);
    assert Eff(s).recs == s.ix.recs && Eff(s).nhash == s.ix.nhash;
    var key := pr.op.key;
    if pr.off == 0 {
      assert key !in s.sh.loc;
    } else if RecAt(s, pr.off).key == key {
      assert HoldingKey(s, Loaded(s, pr, pr.off).(i := pr.i + 1), k);
      assert key in s.m;
    }
  }

  lemma FreeWalkPc(s: State, p: int)
    requires Inv(s) && 0 <= p < |s.procs| && s.procs[p].pc.FreeWalk?
    ensures var pr := s.procs[p];
            && PcOk(s, p, Local(s, pr), ChainOf(pr, s.ix.nhash)) && Local(s, pr).op == pr.op
            && NoMoreLocks(pr, Local(s, pr))
  {
    hide Layout, Shaped, DataOk, PendOk, Exclusive, History, Agree, Shows;
    var pr := s.procs[p];
    assert ProcOk(s, p);
    ListHead(s, 0);
    WalkOn(s, p, pr, 0);
  }

  /** Reads of list heads */
  lemma HeadPc(s: State, p: int)
    requires Inv(s) && 0 <= p < |s.procs|
    requires s.procs[p].pc in {ReadHead, ReadFree, HeadForNew, Reread, FreeHead}
    ensures var pr := s.procs[p];
            && PcOk(s, p, Local(s, pr), ChainOf(pr, s.ix.nhash)) && Local(s, pr).op == pr.op
            && NoMoreLocks(pr, Local(s, pr))
  {
    hide Layout, Shaped, DataOk, PendOk, Exclusive, History, Agree, Shows, Taken, Extent, Ready;
    var pr := s.procs[p];
    var k := ChainOf(pr, s.ix.nhash);
    assert ProcOk(s, p);
    ListHead(s, k);
    ListHead(s, 0);
    ReadNode(s, p, k, 0);
    if HoldsFree(pr) {
      ReadNode(s, p, 0, 0);
    }
  }

  lemma ReadDatPc(s: State, p: int)
    requires Inv(s) && 0 <= p < |s.procs| && s.procs[p].pc.ReadDat?
    ensures var pr := s.procs[p];
            && PcOk(s, p, Local(s, pr), ChainOf(pr, s.ix.nhash)) && Local(s, pr).op == pr.op
            && NoMoreLocks(pr, Local(s, pr))
  {
    hide Layout, Shaped, PendOk, Exclusive, History, Agree;
    assert ProcOk(s, p);
    OwnKeyShown(s, p);
    assert ExtOk(s, s.procs[p].idxoff);
  }

  predicate Plain(pc: PC) {
    pc in {ChainWait, DelWait, FreeWait, DatWait, IdxWait, DelDrop, FreeDrop, TakenDrop, DatDrop, IdxDrop}
  }

  lemma PlainPc(s: State, p: int)
    requires s.ix.nhash > 0 && 0 <= p < |s.procs| && Plain(s.procs[p].pc) && !s.procs[p].pc.DelDrop? && ProcOk(s, p)
    requires !Refused(s, s.procs[p])
    ensures var pr := s.procs[p];
            PcOk(s, p, Local(s, pr), ChainOf(pr, s.ix.nhash)) && Local(s, pr).op == pr.op
            && (Waiting(pr) || NoMoreLocks(pr, Local(s, pr)))
  {
    hide At, Passed, Shows, StepMap, StepResult, BodyLen, Hash, NoMoreLocks;
    PlainLocks(s, p);
  }

  lemma PlainLocks(s: State, p: int)
    requires s.ix.nhash > 0 && 0 <= p < |s.procs| && Plain(s.procs[p].pc) && ProcOk(s, p)
    ensures var pr := s.procs[p]; Waiting(pr) || NoMoreLocks(pr, Local(s, pr))
  {
    hide At, Passed, Shows, StepMap, StepResult, BodyLen, Hash;
  }

  lemma DelDropPc(s: State, p: int)
    requires Inv(s) && 0 <= p < |s.procs| && s.procs[p].pc.DelDrop?
    ensures var pr := s.procs[p];
            && PcOk(s, p, Local(s, pr), ChainOf(pr, s.ix.nhash)) && Local(s, pr).op == pr.op
            && NoMoreLocks(pr, Local(s, pr))
            && Dirty(Local(s, pr))
  {
    hide Layout, Shaped, DataOk, PendOk, Exclusive, History, Agree, At, Passed, Holding, HoldingKey, Taken, Extent,
         Ready, Hash;
    assert ProcOk(s, p);
  }
}
