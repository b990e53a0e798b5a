/** Many processes on one database, interleaved at the granularity of their system
    calls.  Each process runs db_fetch, db_store or db_delete; the locks it holds are a
    function of where it is in that code. */
module Concurrency {
  import opened Common
  import opened Decimal
  import opened IndexFormat
  import opened IndexFile
  import opened Chains
  import opened Operations
  import opened Database
  import opened Runs

  /** The next system call of a process.  *Wait is a blocking lock request, *Drop an
      unlock; Dead is a process that err_dump or err_quit has ended. */
  datatype PC =
    | Idle | ChainWait | ReadHead | Walk | ReadDat | Release | Dead
    | DelWait | BlankDat | ReadFree | BlankIdx | SetFree | SetPrev | DelDrop
    | HeadForNew | FreeWait | FreeHead | FreeWalk | FreeTake | FreeDrop | TakenDrop | ReuseDat | ReuseIdx
    | Reread | DatWait | DatWrite | DatDrop | IdxWait | IdxWrite | IdxDrop | LinkHead
    | Overwrite

  /** Local variables of a process: those of the library, and the position i of the walk */
  datatype Proc = Proc(pc: PC, op: Op, ptroff: int, off: int, idxoff: int, datoff: int, datlen: int, ptrval: int,
                       head: int, freeval: int, replaced: bool, res: Result, i: int)

  /** What happened to an operation when it gave up its chain lock */
  datatype Event = Done(op: Op, res: Result) | Crashed(op: Op, removed: bool)

  /** A predecessor that process pid has still to make skip the record it deletes */
  datatype Pending = NoPending | Pending(pid: int, prev: int, save: int)

  /** ix, dat, dsize and procs are the system; the rest is history: where the records
      are, which are in the hands of one process, who uses each data extent, and the
      abstract database with the log that led to it. */
  datatype State = State(ix: Index, dat: map<int, string>, dsize: int, procs: seq<Proc>,
                         sh: Shape, limbo: map<int, int>, ext: map<int, int>, pend: Pending,
                         m: map<string, string>, log: seq<Event>)

  // ---------- locks ----------

  predicate HoldsChain(pr: Proc) {
    !pr.pc.Idle? && !pr.pc.ChainWait? && !pr.pc.Dead?
  }

  predicate Writes(op: Op) {
    !op.FetchOp?
  }

  predicate HoldsFree(pr: Proc) {
    match pr.pc
    case BlankDat | ReadFree | BlankIdx | SetFree | SetPrev | DelDrop => true
    case FreeHead | FreeWalk | FreeTake | FreeDrop | TakenDrop => true
    case _ => false
  }

  predicate HoldsDat(pr: Proc) {
    pr.pc.DatWrite? || pr.pc.DatDrop?
  }

  predicate HoldsIdx(pr: Proc) {
    pr.pc.IdxWrite? || pr.pc.IdxDrop?
  }

  /** The chain of the key a process works on, as a list number */
  function ChainOf(pr: Proc, nhash: nat): int
    requires nhash > 0
  {
    Hash(pr.op.key, nhash) + 1
  }

  /** Two processes hold locks that exclude each other. */
  predicate Conflict(a: Proc, b: Proc, nhash: nat)
    requires nhash > 0
  {
    || (HoldsChain(a) && HoldsChain(b) && ChainOf(a, nhash) == ChainOf(b, nhash) && (Writes(a.op) || Writes(b.op)))
    || (HoldsFree(a) && HoldsFree(b))
    || (HoldsDat(a) && HoldsDat(b))
    || (HoldsIdx(a) && HoldsIdx(b))
  }

  predicate Waiting(pr: Proc) {
    pr.pc.ChainWait? || pr.pc.DelWait? || pr.pc.FreeWait? || pr.pc.DatWait? || pr.pc.IdxWait?
  }

  /** The process once its lock request has been granted */
  function Granted(pr: Proc): Proc {
    match pr.pc
    case ChainWait => pr.(pc := ReadHead)
    case DelWait => pr.(pc := BlankDat)
    case FreeWait => pr.(pc := FreeHead)
    case DatWait => pr.(pc := DatWrite)
    case IdxWait => pr.(pc := IdxWrite)
    case _ => pr
  }

  /** A process can take its next step: it has one, and if that is a lock request then
      no other process holds a conflicting lock. */
  ghost predicate Enabled(s: State, p: int)
    requires s.ix.nhash > 0
  {
    && 0 <= p < |s.procs|
    && !s.procs[p].pc.Idle? && !s.procs[p].pc.Dead?
    && (Waiting(s.procs[p]) ==>
         forall q | 0 <= q < |s.procs| && q != p :: !Conflict(Granted(s.procs[p]), s.procs[q], s.ix.nhash))
  }

  // ---------- steps ----------

  function Put(s: State, p: int, pr: Proc): State
    requires 0 <= p < |s.procs|
  {
    s.(procs := s.procs[p := pr])
  }

  function Ptr(s: State, x: int): int {
    if x in s.ix.ptrs then s.ix.ptrs[x] else 0
  }

  function RecAt(s: State, x: int): Rec {
    if x in s.ix.recs then s.ix.recs[x] else Rec("", 0, 1)
  }

  function DataLen(op: Op): int {
    if op.StoreOp? then |op.data| + 1 else 0
  }

  function NewData(op: Op): string {
    if op.StoreOp? then op.data else ""
  }

  function NewRec(pr: Proc): Rec {
    Rec(pr.op.key, pr.datoff, DataLen(pr.op))
  }

  /** The end of an unsuccessful search of the chain */
  function NotFound(pr: Proc): Proc {
    match pr.op
    case FetchOp(_) => pr.(pc := Release, res := Data(None))
    case DeleteOp(_) => pr.(pc := Release, res := Code(-1))
    case StoreOp(_, _, flag) =>
      if flag == DB_REPLACE then pr.(pc := Release, res := Code(-1)) else pr.(pc := HeadForNew)
  }

  /** The end of a successful one */
  function Found(pr: Proc): Proc {
    match pr.op
    case FetchOp(_) => pr.(pc := ReadDat)
    case DeleteOp(_) => pr.(pc := DelWait)
    case StoreOp(_, data, flag) =>
      if flag == DB_INSERT then pr.(pc := Release, res := Code(1))
      else if |data| + 1 == pr.datlen then pr.(pc := Overwrite) else pr.(pc := DelWait)
  }

  /** _db_readidx into the local variables */
  function Loaded(s: State, pr: Proc, x: int): Proc {
    var r := RecAt(s, x);
    pr.(idxoff := x, ptrval := Ptr(s, x), datoff := r.datoff, datlen := r.datlen)
  }

  function WalkStep(s: State, pr: Proc): Proc {
    if pr.off == 0 then NotFound(pr)
    else
      var l := Loaded(s, pr, pr.off).(i := pr.i + 1);
      if RecAt(s, pr.off).key == pr.op.key then Found(l) else l.(ptroff := pr.off, off := l.ptrval)
  }

  function FreeWalkStep(s: State, pr: Proc): Proc {
    if pr.off == 0 then pr.(pc := FreeDrop)
    else
      var l := Loaded(s, pr, pr.off).(i := pr.i + 1);
      if |RecAt(s, pr.off).key| == |pr.op.key| && l.datlen == DataLen(pr.op) then l.(pc := FreeTake)
      else l.(ptroff := pr.off, off := l.ptrval)
  }

  /** Steps that change nothing but the process itself */
  function Local(s: State, pr: Proc): Proc
    requires s.ix.nhash > 0
  {
    var k := ChainOf(pr, s.ix.nhash);
    match pr.pc
    case ChainWait | DelWait | FreeWait | DatWait | IdxWait => Granted(pr)
    case ReadHead => pr.(pc := Walk, ptroff := 7 * k, off := Ptr(s, 7 * k), i := 0)
    case Walk => WalkStep(s, pr)
    case ReadDat =>
      pr.(pc := Release, res := Data(if pr.datoff in s.dat then Some(s.dat[pr.datoff]) else None))
    case ReadFree => pr.(pc := BlankIdx, freeval := Ptr(s, 0))
    case DelDrop =>
      if pr.op.DeleteOp? then pr.(pc := Release, res := Code(0)) else pr.(pc := Reread, replaced := true)
    case HeadForNew => pr.(pc := FreeWait, head := Ptr(s, 7 * k))
    case Reread => pr.(pc := DatWait, head := Ptr(s, 7 * k))
    case FreeHead => pr.(pc := FreeWalk, ptroff := 0, off := Ptr(s, 0), i := 0)
    case FreeWalk => FreeWalkStep(s, pr)
    case FreeDrop => pr.(pc := DatWait)
    case TakenDrop => pr.(pc := ReuseDat)
    case DatDrop => pr.(pc := IdxWait)
    case IdxDrop => pr.(pc := LinkHead)
    case _ => pr
  }

  predicate IsLocal(pc: PC) {
    match pc
    case ChainWait | DelWait | FreeWait | DatWait | IdxWait | ReadHead | ReadDat | ReadFree | DelDrop => true
    case HeadForNew | Reread | FreeHead | FreeWalk | FreeDrop | TakenDrop | IdxDrop => true
    case _ => false
  }

  /** Steps that do the same unless the library refuses the record they come to */
  predicate IsChecked(pc: PC) {
    pc.Walk? || pc.DatDrop?
  }

  /** The record on the chain cannot be read because its key has a separator, or the record
      to be appended has an illegal length, which _db_writeidx checks before it asks for the
      lock. */
  predicate Refused(s: State, pr: Proc) {
    match pr.pc
    case Walk => pr.off != 0 && SEP in RecAt(s, pr.off).key
    case DatDrop => !(IDXLEN_MIN <= BodyLen(NewRec(pr)) <= IDXLEN_MAX)
    case _ => false
  }

  function Finish(s: State, p: int): State
    requires 0 <= p < |s.procs|
  {
    var pr := s.procs[p];
    Put(s, p, pr.(pc := Idle)).(m := StepMap(s.m, pr.op), log := s.log + [Done(pr.op, pr.res)])
  }

  /** The process ends; the kernel drops its locks. */
  function Die(s: State, p: int): State
    requires 0 <= p < |s.procs|
  {
    var pr := s.procs[p];
    Put(s, p, pr.(pc := Dead)).(
      m := if pr.replaced then s.m - {pr.op.key} else s.m,
      log := s.log + [Crashed(pr.op, pr.replaced)])
  }

  function BlankDatDone(s: State, p: int): State
    requires 0 <= p < |s.procs|
  {
    var pr := s.procs[p];
    Put(s, p, pr.(pc := ReadFree)).(dat := s.dat[pr.datoff := Spaces(if pr.datlen > 0 then pr.datlen - 1 else 0)])
  }

  /** The record becomes blank and points to the head of the free list; from here on it
      is on no list, and its predecessor's pointer is pending. */
  function BlankIdxDone(s: State, p: int): State
    requires s.ix.nhash > 0 && 0 <= p < |s.procs|
  {
    var pr := s.procs[p];
    var k := ChainOf(pr, s.ix.nhash);
    Put(s, p, pr.(pc := SetFree)).(
      ix := SetRec(s.ix, pr.idxoff, pr.freeval, Blanked(RecAt(s, pr.idxoff))),
      sh := if 0 <= k < |s.sh.lists| && 0 < pr.i < |s.sh.lists[k]|
            then Unlink(s.sh, k, pr.i, s.sh.loc - {pr.op.key}) else s.sh,
      limbo := s.limbo[pr.idxoff := p],
      pend := Pending(p, pr.ptroff, pr.ptrval))
  }

  function SetFreeDone(s: State, p: int): State
    requires 0 <= p < |s.procs|
  {
    var pr := s.procs[p];
    Put(s, p, pr.(pc := SetPrev)).(
      ix := SetPtr(s.ix, FREE_OFF, pr.idxoff),
      sh := if 0 < |s.sh.lists| && 0 < |s.sh.lists[0]| then Push(s.sh, 0, pr.idxoff, s.sh.loc) else s.sh,
      limbo := s.limbo - {pr.idxoff})
  }

  function SetPrevDone(s: State, p: int): State
    requires 0 <= p < |s.procs|
  {
    var pr := s.procs[p];
    Put(s, p, pr.(pc := DelDrop)).(ix := SetPtr(s.ix, pr.ptroff, pr.ptrval), pend := NoPending)
  }

  function FreeTakeDone(s: State, p: int): State
    requires 0 <= p < |s.procs|
  {
    var pr := s.procs[p];
    Put(s, p, pr.(pc := TakenDrop)).(
      ix := SetPtr(s.ix, pr.ptroff, pr.ptrval),
      sh := if 0 < |s.sh.lists| && 0 < pr.i < |s.sh.lists[0]| then Unlink(s.sh, 0, pr.i, s.sh.loc) else s.sh,
      limbo := s.limbo[pr.idxoff := p])
  }

  function ReuseDatDone(s: State, p: int): State
    requires 0 <= p < |s.procs|
  {
    var pr := s.procs[p];
    Put(s, p, pr.(pc := ReuseIdx)).(dat := s.dat[pr.datoff := NewData(pr.op)])
  }

  function ReuseIdxDone(s: State, p: int): State
    requires 0 <= p < |s.procs|
  {
    var pr := s.procs[p];
    Put(s, p, pr.(pc := LinkHead)).(ix := SetRec(s.ix, pr.idxoff, pr.head, NewRec(pr)))
  }

  function DatWriteDone(s: State, p: int): State
    requires 0 <= p < |s.procs|
  {
    var pr := s.procs[p];
    Put(s, p, pr.(pc := DatDrop, datoff := s.dsize)).(
      dat := s.dat[s.dsize := NewData(pr.op)], ext := s.ext[s.dsize := -1 - p], dsize := s.dsize + DataLen(pr.op))
  }

  function IdxWriteDone(s: State, p: int): State
    requires 0 <= p < |s.procs|
  {
    var pr := s.procs[p];
    Put(s, p, pr.(pc := IdxDrop, idxoff := s.ix.size)).(
      ix := AddRec(s.ix, pr.head, NewRec(pr)), limbo := s.limbo[s.ix.size := p], ext := s.ext[pr.datoff := s.ix.size])
  }

  /** The record goes to the front of its chain: the key is in the database. */
  function LinkHeadDone(s: State, p: int): State
    requires s.ix.nhash > 0 && 0 <= p < |s.procs|
  {
    var pr := s.procs[p];
    var k := ChainOf(pr, s.ix.nhash);
    Put(s, p, pr.(pc := Release, res := Code(0))).(
      ix := SetPtr(s.ix, 7 * k, pr.idxoff),
      sh := Stored(s.sh, k, pr.idxoff, pr.op.key),
      limbo := s.limbo - {pr.idxoff})
  }

  function OverwriteDone(s: State, p: int): State
    requires 0 <= p < |s.procs|
  {
    var pr := s.procs[p];
    Put(s, p, pr.(pc := Release, res := Code(0))).(dat := s.dat[pr.datoff := NewData(pr.op)])
  }

  function Step(s: State, p: int): State
    requires s.ix.nhash > 0 && 0 <= p < |s.procs|
  {
    var pr := s.procs[p];
    match pr.pc
    case Release => Finish(s, p)
    case BlankDat => BlankDatDone(s, p)
    case BlankIdx => BlankIdxDone(s, p)
    case SetFree => SetFreeDone(s, p)
    case SetPrev => SetPrevDone(s, p)
    case FreeTake => FreeTakeDone(s, p)
    case ReuseDat => ReuseDatDone(s, p)
    case ReuseIdx => ReuseIdxDone(s, p)
    case DatWrite => DatWriteDone(s, p)
    case Walk | DatDrop => if Refused(s, pr) then Die(s, p) else Put(s, p, Local(s, pr))
    case IdxWrite => IdxWriteDone(s, p)
    case LinkHead => if pr.idxoff > PTR_MAX then Die(s, p) else LinkHeadDone(s, p)
    case Overwrite => OverwriteDone(s, p)
    case _ => Put(s, p, Local(s, pr))
  }

  /** A call enters the library. */
  function Begin(s: State, p: int, op: Op): State
    requires 0 <= p < |s.procs|
  {
    Put(s, p, Proc(ChainWait, op, 0, 0, 0, 0, 0, 0, 0, 0, false, Code(0), 0))
  }

  /** Calls that reach the locks: the flag is known and the data of a legal length. */
  predicate Callable(op: Op) {
    OpOk(op) &&
    (op.StoreOp? ==>
       op.flag in {DB_INSERT, DB_REPLACE, DB_STORE} && DATLEN_MIN <= |op.data| + 1 <= DATLEN_MAX)
  }
}
