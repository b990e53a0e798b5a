/** The steps of the processes on the bytes of the two files: each is at most one write to
    each file, and the files keep saying what the state says. */
module SystemCalls {
  import opened Common
  import opened Decimal
  import opened IndexFormat
  import opened IndexFile
  import opened Chains
  import opened Extents
  import opened FileOrder
  import opened Operations
  import opened Database
  import opened Runs
  import opened Concurrency
  import opened Interleaving
  import opened Safety

  // ---------- what the files are, besides what the operations need ----------

  /** Every data extent lies in the file, and no two of them meet. */
  ghost predicate Placed(dat: map<int, string>, dsize: int) {
    && (forall o | o in dat :: 0 <= o && o + |dat[o]| + 1 <= dsize && NUL !in dat[o])
    && (forall o, q | o in dat && q in dat && o < q :: o + |dat[o]| + 1 <= q)
  }

  /** Also while a deletion is under way every pointer in the index file is in range and the
      extents are apart. */
  ghost predicate FilesOk(s: State) {
    PtrsFit(s.ix.ptrs) && Placed(s.dat, s.dsize)
  }

  /** The index file itself has the layout, not only the one it will be after the pending
      pointer has been written. */
  lemma FileLayout(s: State)
    requires Structure(s) && FilesOk(s) && (s.pend.Pending? ==> s.pend.prev in s.ix.ptrs)
    ensures Layout(s.ix)
  {
    hide Shaped;
    assert Eff(s).ptrs.Keys == s.ix.ptrs.Keys;
  }

  // ---------- the writes of a step ----------

  datatype Write = Nothing | Bytes(off: int, text: string)

  function Apply(file: string, w: Write): string
    requires w.Bytes? ==> 0 <= w.off <= |file|
  {
    if w.Bytes? then WriteAt(file, w.off, w.text) else file
  }

  predicate InFile(file: string, w: Write) {
    w.Bytes? ==> 0 <= w.off <= |file|
  }

  function IndexWrite(s: State, p: int): Write
    requires s.ix.nhash > 0 && 0 <= p < |s.procs|
  {
    var pr := s.procs[p];
    match pr.pc
    case BlankIdx => Bytes(pr.idxoff, Encode(pr.freeval, Blanked(RecAt(s, pr.idxoff))))
    case SetFree => Bytes(FREE_OFF, Padded(PTR_SZ, pr.idxoff))
    case SetPrev => Bytes(pr.ptroff, Padded(PTR_SZ, pr.ptrval))
    case FreeTake => Bytes(pr.ptroff, Padded(PTR_SZ, pr.ptrval))
    case ReuseIdx => Bytes(pr.idxoff, Encode(pr.head, NewRec(pr)))
    case IdxWrite => Bytes(s.ix.size, Encode(pr.head, NewRec(pr)))
    case LinkHead =>
      if pr.idxoff > PTR_MAX then Nothing else Bytes(7 * ChainOf(pr, s.ix.nhash), Padded(PTR_SZ, pr.idxoff))
    case _ => Nothing
  }

  function DataWritten(s: State, p: int): Write
    requires 0 <= p < |s.procs|
  {
    var pr := s.procs[p];
    match pr.pc
    case BlankDat => Bytes(pr.datoff, Spaces(if pr.datlen > 0 then pr.datlen - 1 else 0) + [NEWLINE])
    case ReuseDat | Overwrite => Bytes(pr.datoff, NewData(pr.op) + [NEWLINE])
    case DatWrite => Bytes(s.dsize, NewData(pr.op) + [NEWLINE])
    case _ => Nothing
  }

  /** The data file holds every extent of the state. */
  ghost predicate DataEncodes(dat: string, m: map<int, string>, dsize: int) {
    && |dat| == dsize
    && forall o | o in m :: 0 <= o && o + |m[o]| + 1 <= dsize && dat[o..o + |m[o]| + 1] == m[o] + [NEWLINE]
  }

  // ---------- the data file ----------

  /** Same-length data over an extent, or new data at the end: the extents stay apart. */
  lemma PlacedWrite(m: map<int, string>, dsize: int, o: int, data: string)
    requires Placed(m, dsize) && 0 <= dsize && NUL !in data
    requires (o in m && |data| == |m[o]|) || o == dsize
    ensures Placed(m[o := data], if o == dsize then dsize + |data| + 1 else dsize)
  {
    var m' := m[o := data];
    forall a, b | a in m' && b in m' && a < b ensures a + |m'[a]| + 1 <= b {
    }
  }

  lemma DataWriteEncodes(dat: string, m: map<int, string>, dsize: int, o: int, data: string)
    requires DataEncodes(dat, m, dsize) && Placed(m, dsize) && 0 <= dsize
    requires (o in m && |data| == |m[o]|) || o == dsize
    ensures 0 <= o <= |dat|
    ensures DataEncodes(WriteAt(dat, o, data + [NEWLINE]), m[o := data],
                        if o == dsize then dsize + |data| + 1 else dsize)
  {
    var m', b := m[o := data], data + [NEWLINE];
    var dat' := WriteAt(dat, o, b);
    forall q | q in m' ensures 0 <= q && q + |m'[q]| + 1 <= |dat'| && dat'[q..q + |m'[q]| + 1] == m'[q] + [NEWLINE] {
      if q == o {
        assert dat'[o..o + |b|] == b;
      } else {
        WriteFrame(dat, o, b, q, q + |m[q]| + 1);
      }
    }
  }

  /** The data file as the sequential model sees it */
  lemma DataExtents(s: State, dat: string)
    requires DataOk(s) && FilesOk(s) && DataEncodes(dat, s.dat, s.dsize)
    ensures ExtentsOk(dat, s.ix.recs)
    ensures forall x | x in s.ix.recs :: ExtentOk(dat, s.ix.recs[x]) && Datum(dat, s.ix.recs[x]) == ValueAt(s, x)
  {
    forall x | x in s.ix.recs ensures ExtentOk(dat, s.ix.recs[x]) && Datum(dat, s.ix.recs[x]) == ValueAt(s, x) {
      assert ExtOk(s, x);
      var r := s.ix.recs[x];
      var d := s.dat[r.datoff];
      var e := dat[r.datoff..r.datoff + |d| + 1];
      assert e == d + [NEWLINE];
      assert dat[r.datoff + r.datlen - 1] == e[|d|];
      assert dat[r.datoff..r.datoff + r.datlen - 1] == e[..|d|] == d;
    }
    forall x, y | x in s.ix.recs && y in s.ix.recs && x != y ensures Apart(s.ix.recs[x], s.ix.recs[y]) {
      assert ExtOk(s, x) && ExtOk(s, y);
    }
  }

  /** What a process that is about to write to the data file knows of the place */
  lemma DataPlace(s: State, p: int)
    requires Inv(s) && 0 <= p < |s.procs| && DataWritten(s, p).Bytes?
    ensures 0 <= s.dsize
    ensures var pr := s.procs[p]; pr.pc.DatWrite? ==> pr.op.StoreOp? && NUL !in pr.op.data
    ensures var pr := s.procs[p];
            pr.pc.BlankDat? ==> pr.datlen >= 1 && pr.datoff in s.dat && |s.dat[pr.datoff]| == pr.datlen - 1
    ensures var pr := s.procs[p];
            pr.pc.ReuseDat? || pr.pc.Overwrite? ==>
              pr.op.StoreOp? && NUL !in pr.op.data && pr.datoff in s.dat && |s.dat[pr.datoff]| == |pr.op.data|
  {
    hide Structure, PendOk, Agree, History, Hash, At, Shows, Removing, StepMap, StepResult;
    ProcIsOk(s, p);
    var pr := s.procs[p];
    if !pr.pc.DatWrite? {
      assert ExtOk(s, pr.idxoff);
    }
  }

  /** Where a step writes to the data file */
  function DataOffset(s: State, p: int): int
    requires 0 <= p < |s.procs|
  {
    if s.procs[p].pc.DatWrite? then s.dsize else s.procs[p].datoff
  }

  /** The write of a step and what the step makes of the extents */
  lemma DataWriteStep(s: State, p: int)
    requires s.ix.nhash > 0 && 0 <= p < |s.procs| && DataWritten(s, p).Bytes?
    ensures var o, data := DataOffset(s, p), NewText(s.procs[p]);
            && DataWritten(s, p) == Bytes(o, data + [NEWLINE]) && Step(s, p).dat == s.dat[o := data]
            && Step(s, p).dsize == if s.procs[p].pc.DatWrite? then s.dsize + DataLen(s.procs[p].op) else s.dsize
  {
    hide Hash, Local, Spaces, NewData, DataLen, BodyLen, NewRec;
  }

  /** What is written fits its place: as long as what was there, or at the end of the file. */
  lemma DataFits(s: State, p: int)
    requires Inv(s) && Placed(s.dat, s.dsize) && 0 <= p < |s.procs| && DataWritten(s, p).Bytes?
    ensures var o, data := DataOffset(s, p), NewText(s.procs[p]);
            && 0 <= s.dsize && NUL !in data && ((o in s.dat && |data| == |s.dat[o]|) || o == s.dsize)
            && Step(s, p).dsize == if o == s.dsize then s.dsize + |data| + 1 else s.dsize
  {
    DataPlace(s, p);
    DataWriteStep(s, p);
    BlankText(if s.procs[p].datlen > 0 then s.procs[p].datlen - 1 else 0);
    hide Inv, Step, Spaces, Placed;
    InPlace(s, DataOffset(s, p));
  }

  /** A step on the data file: at most one write, and the file holds every extent of the new
      state. */
  lemma DataStep(s: State, p: int, dat: string)
    requires Inv(s) && FilesOk(s) && Enabled(s, p) && DataEncodes(dat, s.dat, s.dsize)
    ensures var t, w := Step(s, p), DataWritten(s, p);
            InFile(dat, w) && DataEncodes(Apply(dat, w), t.dat, t.dsize)
  {
    ThereAndEnabled(s, p);
    hide Inv, Step, Placed, DataEncodes, DataWritten, NewText, DataOffset, Enabled;
    if DataWritten(s, p).Bytes? {
      DataFits(s, p);
      DataWriteStep(s, p);
      DataWriteEncodes(dat, s.dat, s.dsize, DataOffset(s, p), NewText(s.procs[p]));
    } else {
      SameData(s, p);
    }
  }

  lemma ThereAndEnabled(s: State, p: int)
    requires Inv(s) && Enabled(s, p)
    ensures s.ix.nhash > 0 && 0 <= p < |s.procs|
  {
  }

  /** ... and the extents stay apart. */
  lemma DataKeeps(s: State, p: int)
    requires Inv(s) && FilesOk(s) && Enabled(s, p)
    ensures Placed(Step(s, p).dat, Step(s, p).dsize)
  {
    ThereAndEnabled(s, p);
    hide Inv, Step, Placed, DataWritten, NewText, DataOffset, Enabled;
    if DataWritten(s, p).Bytes? {
      DataFits(s, p);
      DataWriteStep(s, p);
      PlacedWrite(s.dat, s.dsize, DataOffset(s, p), NewText(s.procs[p]));
    } else {
      SameData(s, p);
    }
  }

  /** What a process writes to the data file, without the newline */
  function NewText(pr: Proc): string {
    if pr.pc.BlankDat? then Spaces(if pr.datlen > 0 then pr.datlen - 1 else 0) else NewData(pr.op)
  }

  lemma BlankText(n: nat)
    ensures |Spaces(n)| == n && NUL !in Spaces(n)
  {
    assert forall c | c in Spaces(n) :: c == ' ';
  }

  lemma InPlace(s: State, o: int)
    requires Placed(s.dat, s.dsize)
    ensures o in s.dat ==> o != s.dsize
  {
  }

  lemma SameData(s: State, p: int)
    requires s.ix.nhash > 0 && 0 <= p < |s.procs| && DataWritten(s, p).Nothing?
    ensures Step(s, p).dat == s.dat && Step(s, p).dsize == s.dsize
  {
    hide Hash, Local, AddRec, SetRec, SetPtr, Stored, Push, Unlink, StepMap, BodyLen, Blanked, RecAt, NewRec,
         BlankDatDone, ReuseDatDone, DatWriteDone, OverwriteDone;
    match s.procs[p].pc
    case BlankIdx =>
    case SetFree =>
    case SetPrev =>
    case FreeTake =>
    case ReuseIdx =>
    case IdxWrite =>
    case LinkHead =>
    case _ =>
  }

  // ---------- the index file ----------

  lemma InRange(s: State, p: int)
    requires Structure(s) && 0 <= p < |s.procs|
    ensures 0 < |s.sh.lists| && 0 < |s.sh.lists[0]| && 0 <= Next(s.sh.lists[0], 0) <= PTR_MAX && 0 in Eff(s).ptrs
    ensures var k := ChainOf(s.procs[p], s.ix.nhash);
            && 0 < k < |s.sh.lists| && 0 < |s.sh.lists[k]| && 0 <= Next(s.sh.lists[k], 0) <= PTR_MAX
            && 7 * k in Eff(s).ptrs
  {
    hide Layout, Shaped, Hash;
    HeadValue(s, p);
    HeadPtr(Eff(s), s.sh, s.limbo.Keys, 0);
    OnList(Eff(s), s.sh, s.limbo.Keys, 0, 0);
  }

  lemma SameFields(s: State)
    requires s.ix.nhash > 0 && PendOk(s)
    ensures Eff(s).ptrs.Keys == s.ix.ptrs.Keys
  {
  }

  /** A write after which the index file holds the pointers and records of ix */
  ghost predicate Wrote(idx: string, w: Write, ix: Index) {
    InFile(idx, w) && Encodes(Apply(idx, w), ix)
  }

  /** Writing one pointer field of the file as it is */
  lemma PtrStep(s: State, idx: string, x: int, v: int)
    requires Layout(s.ix) && Encodes(idx, s.ix) && x in s.ix.ptrs && 0 <= v <= PTR_MAX
    ensures Wrote(idx, Bytes(x, Padded(PTR_SZ, v)), SetPtr(s.ix, x, v))
  {
    WritePtrCorrect(idx, s.ix, x, v);
  }

  lemma RecStep(s: State, idx: string, x: int, v: int, r: Rec)
    requires Layout(s.ix) && Encodes(idx, s.ix) && x in s.ix.recs && 0 <= v <= PTR_MAX
    requires RecOk(r) && RecSize(r) == RecSize(s.ix.recs[x])
    ensures Wrote(idx, Bytes(x, Encode(v, r)), SetRec(s.ix, x, v, r))
  {
    RewriteCorrect(idx, s.ix, x, v, r);
  }

  lemma AddStep(s: State, idx: string, v: int, r: Rec)
    requires Layout(s.ix) && Encodes(idx, s.ix) && 0 <= v <= PTR_MAX && RecOk(r)
    ensures Wrote(idx, Bytes(s.ix.size, Encode(v, r)), AddRec(s.ix, v, r))
  {
    AppendCorrect(idx, s.ix, v, r);
  }

  /** What a process that is about to write to the index file knows of what it writes */
  lemma BlankWrite(s: State, p: int)
    requires Inv(s) && 0 <= p < |s.procs| && s.procs[p].pc.BlankIdx?
    ensures var pr := s.procs[p]; var x := pr.idxoff;
            && x in s.ix.recs && 0 <= pr.freeval <= PTR_MAX
            && (RecOk(s.ix.recs[x]) ==>
                  RecOk(Blanked(s.ix.recs[x])) && RecSize(Blanked(s.ix.recs[x])) == RecSize(s.ix.recs[x]))
  {
    hide DataOk, Exclusive, PendOk, Agree, ProcsOk, History, Layout, Shaped, RecOk, Hash, AllBlank;
    BlankIdxParts(s, p);
    InRange(s, p);
    if RecOk(s.ix.recs[s.procs[p].idxoff]) {
      BlankedOk(s.ix.recs[s.procs[p].idxoff]);
    }
  }

  lemma PointerWrite(s: State, p: int)
    requires Inv(s) && 0 <= p < |s.procs| && s.procs[p].pc in {SetFree, SetPrev, FreeTake}
    ensures var pr := s.procs[p]; 0 in s.ix.ptrs
    ensures var pr := s.procs[p]; pr.pc.SetFree? ==> 0 <= pr.idxoff <= PTR_MAX
    ensures var pr := s.procs[p]; !pr.pc.SetFree? ==> pr.ptroff in s.ix.ptrs && 0 <= pr.ptrval <= PTR_MAX
  {
    hide DataOk, Exclusive, Agree, History, Hash, Layout, Shaped, Shows, Removing, Adding, HasHead;
    ProcIsOk(s, p);
    InRange(s, p);
    SameFields(s);
    var pr := s.procs[p];
    if pr.pc.FreeTake? {
      Neighbours(Eff(s), s.sh, s.limbo.Keys, 0, pr.i);
    }
  }

  lemma ReuseWrite(s: State, p: int)
    requires Inv(s) && Layout(s.ix) && 0 <= p < |s.procs| && s.procs[p].pc.ReuseIdx?
    ensures var pr := s.procs[p];
            && 0 <= pr.head <= PTR_MAX && RecOk(NewRec(pr))
            && pr.idxoff in s.ix.recs && RecSize(NewRec(pr)) == RecSize(s.ix.recs[pr.idxoff])
  {
    hide DataOk, Exclusive, Agree, History, Hash, PendOk, Shaped, Shows, Removing, Layout;
    ProcIsOk(s, p);
    InRange(s, p);
    LayoutParts(s.ix, s.procs[p].idxoff);
  }

  lemma AppendWrite(s: State, p: int)
    requires Inv(s) && 0 <= p < |s.procs| && s.procs[p].pc.IdxWrite?
    ensures var pr := s.procs[p]; 0 <= pr.head <= PTR_MAX && RecOk(NewRec(pr))
  {
    hide DataOk, Exclusive, Agree, History, Hash, PendOk, Layout, Shaped, Shows, Removing, RecOk, Extent;
    ProcIsOk(s, p);
    InRange(s, p);
    NewRecOk(s, p);
  }

  lemma LinkWrite(s: State, p: int)
    requires Inv(s) && 0 <= p < |s.procs| && s.procs[p].pc.LinkHead? && s.procs[p].idxoff <= PTR_MAX
    ensures 7 * ChainOf(s.procs[p], s.ix.nhash) in s.ix.ptrs && 0 <= s.procs[p].idxoff
  {
    hide DataOk, Exclusive, Agree, History, Hash, PendOk, Layout, Shaped, Shows, Removing;
    ProcIsOk(s, p);
    LinkHeadParts(s, p);
  }

  lemma SameIndex(s: State, p: int)
    requires s.ix.nhash > 0 && 0 <= p < |s.procs| && IndexWrite(s, p).Nothing?
    ensures Step(s, p).ix == s.ix
  {
    hide Hash, Local, Encode, Padded, StepMap, BodyLen, Blanked, RecAt, NewRec;
    match s.procs[p].pc
    case BlankDat | ReuseDat | DatWrite | Overwrite =>
    case LinkHead =>
    case _ =>
  }

  /** The write of a step and what the step makes of the index, when it sets a pointer, ... */
  lemma PointerStep(s: State, p: int, x: int, v: int)
    requires s.ix.nhash > 0 && 0 <= p < |s.procs|
    requires var pr := s.procs[p];
             match pr.pc
             case SetFree => x == FREE_OFF && v == pr.idxoff
             case SetPrev | FreeTake => x == pr.ptroff && v == pr.ptrval
             case LinkHead => pr.idxoff <= PTR_MAX && x == 7 * ChainOf(pr, s.ix.nhash) && v == pr.idxoff
             case _ => false
    ensures IndexWrite(s, p) == Bytes(x, Padded(PTR_SZ, v)) && Step(s, p).ix == SetPtr(s.ix, x, v)
  {
    hide Padded, Push, Unlink, SetPtr, Stored, Hash, SetRec, AddRec;
  }

  /** ... rewrites a record, ... */
  lemma RewriteStep(s: State, p: int, x: int, v: int, r: Rec)
    requires s.ix.nhash > 0 && 0 <= p < |s.procs|
    requires var pr := s.procs[p];
             match pr.pc
             case BlankIdx => x == pr.idxoff && v == pr.freeval && r == Blanked(RecAt(s, x))
             case ReuseIdx => x == pr.idxoff && v == pr.head && r == NewRec(pr)
             case _ => false
    ensures IndexWrite(s, p) == Bytes(x, Encode(v, r)) && Step(s, p).ix == SetRec(s.ix, x, v, r)
  {
    hide Encode, NewRec, Blanked, RecAt, Unlink, SetPtr, Hash, SetRec, AddRec;
  }

  /** ... or adds one. */
  lemma AddingStep(s: State, p: int)
    requires s.ix.nhash > 0 && 0 <= p < |s.procs| && s.procs[p].pc.IdxWrite?
    ensures var pr := s.procs[p];
            && IndexWrite(s, p) == Bytes(s.ix.size, Encode(pr.head, NewRec(pr)))
            && Step(s, p).ix == AddRec(s.ix, pr.head, NewRec(pr))
  {
    hide Encode, NewRec, Hash, AddRec;
  }

  /** A step on the index file: at most one write, after which the file holds the new state's
      pointers and records. */
  lemma IndexStep(s: State, p: int, idx: string)
    requires Inv(s) && FilesOk(s) && Enabled(s, p) && Encodes(idx, s.ix)
    ensures Wrote(idx, IndexWrite(s, p), Step(s, p).ix)
  {
    FileThere(s);
    hide Step, Encodes, Layout, PtrsFit;
    if IndexWrite(s, p).Nothing? {
      SameIndex(s, p);
    } else {
      IndexWriteStep(s, p, idx);
    }
  }

  lemma IndexWriteStep(s: State, p: int, idx: string)
    requires Inv(s) && Layout(s.ix) && s.ix.nhash > 0 && 0 <= p < |s.procs| && Encodes(idx, s.ix)
    requires IndexWrite(s, p).Bytes?
    ensures Wrote(idx, IndexWrite(s, p), Step(s, p).ix)
  {
    hide Inv, Step, Encodes, Layout, Wrote, Blanked, NewRec, RecOk, RecSize, RecAt, SetPtr, SetRec, AddRec, Hash;
    var pr := s.procs[p];
    match pr.pc
    case BlankIdx =>
      BlankWrite(s, p);
      RecordThere(s, pr.idxoff);
      RecStep(s, idx, pr.idxoff, pr.freeval, Blanked(s.ix.recs[pr.idxoff]));
      RewriteStep(s, p, pr.idxoff, pr.freeval, Blanked(s.ix.recs[pr.idxoff]));
    case SetFree =>
      PointerWrite(s, p);
      PtrStep(s, idx, FREE_OFF, pr.idxoff);
      PointerStep(s, p, FREE_OFF, pr.idxoff);
    case SetPrev | FreeTake =>
      PointerWrite(s, p);
      PtrStep(s, idx, pr.ptroff, pr.ptrval);
      PointerStep(s, p, pr.ptroff, pr.ptrval);
    case ReuseIdx =>
      ReuseWrite(s, p);
      RecStep(s, idx, pr.idxoff, pr.head, NewRec(pr));
      RewriteStep(s, p, pr.idxoff, pr.head, NewRec(pr));
    case IdxWrite =>
      AppendWrite(s, p);
      AddStep(s, idx, pr.head, NewRec(pr));
      AddingStep(s, p);
    case LinkHead =>
      LinkWrite(s, p);
      PtrStep(s, idx, 7 * ChainOf(pr, s.ix.nhash), pr.idxoff);
      PointerStep(s, p, 7 * ChainOf(pr, s.ix.nhash), pr.idxoff);
  }

  lemma WritesKeep(ix: Index, x: int, v: int, r: Rec)
    requires PtrsFit(ix.ptrs) && 0 <= v <= PTR_MAX
    ensures PtrsFit(SetPtr(ix, x, v).ptrs)
    ensures PtrsFit(SetRec(ix, x, v, r).ptrs)
    ensures PtrsFit(AddRec(ix, v, r).ptrs)
  {
  }

  lemma IndexKeeps(s: State, p: int)
    requires Inv(s) && FilesOk(s) && Enabled(s, p)
    ensures PtrsFit(Step(s, p).ix.ptrs)
  {
    FileThere(s);
    hide Step, Layout, PtrsFit;
    if IndexWrite(s, p).Nothing? {
      SameIndex(s, p);
    } else {
      IndexWriteKeeps(s, p);
    }
  }

  lemma IndexWriteKeeps(s: State, p: int)
    requires Inv(s) && PtrsFit(s.ix.ptrs) && Layout(s.ix) && s.ix.nhash > 0
    requires 0 <= p < |s.procs| && IndexWrite(s, p).Bytes?
    ensures PtrsFit(Step(s, p).ix.ptrs)
  {
    hide Inv, Step, Layout, PtrsFit, Blanked, NewRec, RecOk, RecSize, RecAt, SetPtr, SetRec, AddRec, Hash;
    var pr := s.procs[p];
    match pr.pc
    case BlankIdx =>
      BlankWrite(s, p);
      RecordThere(s, pr.idxoff);
      WritesKeep(s.ix, pr.idxoff, pr.freeval, Blanked(s.ix.recs[pr.idxoff]));
      RewriteStep(s, p, pr.idxoff, pr.freeval, Blanked(s.ix.recs[pr.idxoff]));
    case SetFree =>
      PointerWrite(s, p);
      WritesKeep(s.ix, FREE_OFF, pr.idxoff, Rec("", 0, 1));
      PointerStep(s, p, FREE_OFF, pr.idxoff);
    case SetPrev | FreeTake =>
      PointerWrite(s, p);
      WritesKeep(s.ix, pr.ptroff, pr.ptrval, Rec("", 0, 1));
      PointerStep(s, p, pr.ptroff, pr.ptrval);
    case ReuseIdx =>
      ReuseWrite(s, p);
      WritesKeep(s.ix, pr.idxoff, pr.head, NewRec(pr));
      RewriteStep(s, p, pr.idxoff, pr.head, NewRec(pr));
    case IdxWrite =>
      AppendWrite(s, p);
      WritesKeep(s.ix, 0, pr.head, NewRec(pr));
      AddingStep(s, p);
    case LinkHead =>
      LinkWrite(s, p);
      WritesKeep(s.ix, 7 * ChainOf(pr, s.ix.nhash), pr.idxoff, Rec("", 0, 1));
      PointerStep(s, p, 7 * ChainOf(pr, s.ix.nhash), pr.idxoff);
  }

  /** Every step keeps pointers in range and extents apart. */
  lemma StepKeepsFiles(s: State, p: int)
    requires Inv(s) && FilesOk(s) && Enabled(s, p)
    ensures FilesOk(Step(s, p))
  {
    hide Step, PtrsFit, Placed;
    IndexKeeps(s, p);
    DataKeeps(s, p);
  }

  lemma FileThere(s: State)
    requires Inv(s) && FilesOk(s)
    ensures Layout(s.ix)
  {
    hide DataOk, Exclusive, Agree, ProcsOk, History, Layout, FilesOk;
    FileLayout(s);
  }

  lemma RecordThere(s: State, x: int)
    requires Layout(s.ix) && x in s.ix.recs
    ensures RecOk(s.ix.recs[x]) && RecAt(s, x) == s.ix.recs[x]
  {
    hide RecOk;
    LayoutParts(s.ix, x);
  }

  // ---------- both files ----------

  /** The two files of a state, as bytes */
  datatype Files = Files(idx: string, dat: string)

  ghost predicate FilesHold(f: Files, s: State) {
    Encodes(f.idx, s.ix) && DataEncodes(f.dat, s.dat, s.dsize)
  }

  /** One system call later: each file as it was, or written to once */
  ghost predicate OneCall(f: Files, f': Files) {
    exists v, w :: InFile(f.idx, v) && InFile(f.dat, w) && f' == Files(Apply(f.idx, v), Apply(f.dat, w))
  }

  lemma StepOnFiles(s: State, p: int, f: Files) returns (f': Files)
    requires Inv(s) && FilesOk(s) && Enabled(s, p) && FilesHold(f, s)
    ensures FilesHold(f', Step(s, p)) && OneCall(f, f')
  {
    IndexStep(s, p, f.idx);
    DataStep(s, p, f.dat);
    hide Inv, Step, Enabled, Encodes, DataEncodes, Placed, PtrsFit, IndexWrite, DataWritten;
    var v, w := IndexWrite(s, p), DataWritten(s, p);
    f' := Files(Apply(f.idx, v), Apply(f.dat, w));
  }

  /** What the files of a state say, pointer by pointer and record by record, is what the
      steps of a process find there. */
  lemma ReadsFindTheState(s: State, f: Files)
    requires Inv(s) && FilesOk(s) && FilesHold(f, s)
    ensures Layout(s.ix) && ExtentsOk(f.dat, s.ix.recs)
    ensures forall x | x in s.ix.ptrs :: 0 <= x <= |f.idx| - PTR_SZ && Atol(f.idx[x..x + PTR_SZ]) == Ptr(s, x)
    ensures forall x | x in s.ix.recs ::
              var r := RecAt(s, x);
              && Ptr(s, x) >= 0 && ParseRecord(f.idx, x) == ReadBack(Ptr(s, x), r) && CString(Split(r), 0) == r.key
              && r.datoff >= 0 && r.datlen >= 1 && ReadData(f.dat, r.datoff, r.datlen) == Returned(ValueAt(s, x))
  {
    FileThere(s);
    DataExtents(s, f.dat);
    hide Inv, Layout, Encodes, ParseRecord, CString, BodyLen, Split, Atol, FilesOk, ValueAt, ReadData, DataEncodes,
         ExtentOk, ReadBack;
    forall x | x in s.ix.ptrs ensures 0 <= x <= |f.idx| - PTR_SZ && Atol(f.idx[x..x + PTR_SZ]) == Ptr(s, x) {
      ReadCorrect(f.idx, s.ix, x);
      PtrStart(s.ix, x);
    }
    forall x | x in s.ix.recs
      ensures var r := RecAt(s, x);
              && Ptr(s, x) >= 0 && ParseRecord(f.idx, x) == ReadBack(Ptr(s, x), r) && CString(Split(r), 0) == r.key
              && r.datoff >= 0 && r.datlen >= 1 && ReadData(f.dat, r.datoff, r.datlen) == Returned(ValueAt(s, x))
    {
      RecordHere(f.idx, s.ix, x);
      DatumThere(f.dat, s.ix.recs[x]);
    }
  }

  /** A walk along a chain ends its process exactly when the parser refuses the bytes it
      reads; on the free list it never does. */
  lemma WalkReads(s: State, p: int, f: Files)
    requires Inv(s) && FilesOk(s) && FilesHold(f, s) && 0 <= p < |s.procs| && s.procs[p].off != 0
    ensures s.procs[p].pc.Walk? ==> (Refused(s, s.procs[p]) <==> ParseRecord(f.idx, s.procs[p].off).None?)
    ensures s.procs[p].pc.FreeWalk? ==> ParseRecord(f.idx, s.procs[p].off).Some?
  {
    hide Inv, FilesOk, FilesHold, ParseRecord, Layout, ExtentsOk, Atol, CString, Split, ReadData, ValueAt;
    if s.procs[p].pc.Walk? || s.procs[p].pc.FreeWalk? {
      NextIsRecord(s, p);
      ReadsFindTheState(s, f);
    }
  }

  lemma FreeIsBlank(s: State, i: int)
    requires Structure(s) && 0 < |s.sh.lists| && 0 < i < |s.sh.lists[0]| && s.sh.lists[0][i] in s.ix.recs
    ensures AllBlank(s.ix.recs[s.sh.lists[0][i]].key)
  {
    hide Layout, Covered, Located, AllBlank;
    OnList(Eff(s), s.sh, s.limbo.Keys, 0, i);
  }

  /** A walk comes to a record, on the free list to one with a blank key. */
  lemma NextIsRecord(s: State, p: int)
    requires Inv(s) && 0 <= p < |s.procs| && s.procs[p].off != 0 && (s.procs[p].pc.Walk? || s.procs[p].pc.FreeWalk?)
    ensures s.procs[p].off in s.ix.recs && (s.procs[p].pc.FreeWalk? ==> SEP !in s.ix.recs[s.procs[p].off].key)
  {
    hide Layout, Shaped, DataOk, Agree, History, Hash, Interleaving.Passed, Adding, HasHead, Shows, AllBlank, Callable,
         Exclusive, PendOk;
    var pr := s.procs[p];
    var k := if pr.pc.Walk? then ChainOf(pr, s.ix.nhash) else 0;
    ProcIsOk(s, p);
    ListHead(s, k);
    WalkOn(s, p, pr, k);
    if pr.pc.FreeWalk? {
      FreeIsBlank(s, pr.i + 1);
      BlankIsReadable(s.ix.recs[pr.off].key);
    }
  }

  lemma PtrStart(ix: Index, x: int)
    requires Layout(ix) && x in ix.ptrs
    ensures x >= 0
  {
    HeaderEnd(ix, x);
  }
}
