/** The index file as a whole: a pointer table followed by a gapless run of
    variable-length records.  An Index value says what every pointer field and
    every record holds; Encodes ties it to the bytes of the file. */
module IndexFile {
  import opened Decimal
  import opened IndexFormat

  /** ptrs maps the position of every pointer field to its value: the free-list
      pointer at 0, the head of hash chain h at PTR_SZ * (h + 1), and the chain
      pointer of each record at the record's own offset. */
  datatype Index = Index(nhash: nat, ptrs: map<int, int>, recs: map<int, Rec>, lens: map<int, int>, size: int)

  function HeaderSize(nhash: nat): nat {
    7 * (nhash + 1) + 1
  }

  predicate IsSlot(p: int, nhash: int) {
    p % 7 == 0 && 0 <= p <= 7 * nhash
  }

  /** The records whose lengths are given tile the file between from and size. */
  ghost predicate Tiled(lens: map<int, int>, from: int, size: int)
    decreases |lens|
  {
    if |lens| == 0 then from == size
    else from in lens && PREFIX_SZ < lens[from] && Tiled(lens - {from}, from + lens[from], size)
  }

  /** There is a pointer field for the free list, for each chain head, for each record. */
  ghost predicate Fields(fields: set<int>, nhash: nat, recs: set<int>) {
    forall p :: p in fields <==> IsSlot(p, nhash) || p in recs
  }

  ghost predicate PtrsFit(ptrs: map<int, int>) {
    forall p | p in ptrs :: 0 <= ptrs[p] <= PTR_MAX
  }

  ghost predicate RecsFit(recs: map<int, Rec>, lens: map<int, int>) {
    forall x | x in recs :: x in lens && RecOk(recs[x]) && RecSize(recs[x]) == lens[x]
  }

  ghost predicate Layout(ix: Index) {
    && ix.nhash > 0
    && Tiled(ix.lens, HeaderSize(ix.nhash), ix.size)
    && Fields(ix.ptrs.Keys, ix.nhash, ix.lens.Keys)
    && ix.recs.Keys == ix.lens.Keys
    && PtrsFit(ix.ptrs)
    && RecsFit(ix.recs, ix.lens)
  }

  predicate PtrAt(idx: string, p: int, v: int) {
    0 <= p && 0 <= v && p + PTR_SZ <= |idx| && idx[p..p + PTR_SZ] == Padded(PTR_SZ, v)
  }

  predicate RestAt(idx: string, x: int, r: Rec) {
    0 <= x && x + RecSize(r) <= |idx| && idx[x + PTR_SZ..x + RecSize(r)] == Padded(IDXLEN_SZ, BodyLen(r)) + Body(r)
  }

  ghost predicate PtrFields(idx: string, ptrs: map<int, int>) {
    forall p | p in ptrs :: PtrAt(idx, p, ptrs[p])
  }

  ghost predicate RecBodies(idx: string, recs: map<int, Rec>) {
    forall x | x in recs :: RestAt(idx, x, recs[x])
  }

  ghost predicate Encodes(idx: string, ix: Index) {
    && |idx| == ix.size
    && HeaderSize(ix.nhash) <= |idx|
    && idx[HeaderSize(ix.nhash) - 1] == NEWLINE
    && PtrFields(idx, ix.ptrs)
    && RecBodies(idx, ix.recs)
  }

  /** The bytes of a file after write() put b at offset off. */
  function WriteAt(s: string, off: int, b: string): (t: string)
    requires 0 <= off <= |s|
    ensures |t| == if off + |b| <= |s| then |s| else off + |b|
    ensures t[off..off + |b|] == b
  {
    s[..off] + b + if off + |b| <= |s| then s[off + |b|..] else []
  }

  lemma WriteFrame(s: string, off: int, b: string, i: int, j: int)
    requires 0 <= off <= |s| && 0 <= i <= j <= |s|
    requires j <= off || off + |b| <= i
    ensures WriteAt(s, off, b)[i..j] == s[i..j]
  {
  }

  function SetPtr(ix: Index, p: int, v: int): Index {
    ix.(ptrs := ix.ptrs[p := v])
  }

  function SetRec(ix: Index, x: int, v: int, r: Rec): Index {
    ix.(ptrs := ix.ptrs[x := v], recs := ix.recs[x := r])
  }

  function AddRec(ix: Index, v: int, r: Rec): Index {
    Index(ix.nhash, ix.ptrs[ix.size := v], ix.recs[ix.size := r], ix.lens[ix.size := RecSize(r)], ix.size + RecSize(r))
  }

  /** What the file looks like just after db_open has created it */
  function FreshIndex(nhash: nat): Index {
    Index(nhash, map p: int | 0 <= p <= 7 * nhash && p % 7 == 0 :: 0, map[], map[], HeaderSize(nhash))
  }

  lemma {:induction false} TiledBounds(lens: map<int, int>, from: int, size: int, x: int)
    requires Tiled(lens, from, size)
    ensures from <= size
    ensures x in lens ==> from <= x && PREFIX_SZ < lens[x] && x + lens[x] <= size
    ensures x in lens && x != from ==> from in lens && from + lens[from] <= x
    decreases |lens|
  {
    if |lens| > 0 {
      var rest := lens - {from};
      TiledBounds(rest, from + lens[from], size, x);
      assert x in lens && x != from ==> x in rest && rest[x] == lens[x];
    }
  }

  lemma {:induction false} TiledApart(lens: map<int, int>, from: int, size: int, x: int, y: int)
    requires Tiled(lens, from, size) && x in lens && y in lens && x < y
    ensures x + lens[x] <= y
    decreases |lens|
  {
    TiledBounds(lens, from, size, x);
    TiledBounds(lens, from, size, y);
    if x != from {
      TiledApart(lens - {from}, from + lens[from], size, x, y);
    }
  }

  /** After a record comes another record or the end of the file. */
  lemma {:induction false} TiledNext(lens: map<int, int>, from: int, size: int, x: int)
    requires Tiled(lens, from, size) && x in lens
    ensures x + lens[x] in lens || x + lens[x] == size
    decreases |lens|
  {
    var rest := lens - {from};
    if x != from {
      TiledNext(rest, from + lens[from], size, x);
      assert x + rest[x] in rest ==> x + lens[x] in lens;
    } else if |rest| > 0 {
      assert from + lens[from] in rest;
    }
  }

  /** The part of the file that belongs to pointer field p does not meet the part
      that belongs to any other field or record body. */
  lemma FieldsApart(ix: Index, p: int, q: int)
    requires Layout(ix) && p in ix.ptrs && q in ix.ptrs && p != q
    ensures p + PTR_SZ <= q || q + PTR_SZ <= p
    ensures q in ix.recs ==> p + PTR_SZ <= q || q + ix.lens[q] <= p
    ensures q in ix.recs && p in ix.recs ==> p + ix.lens[p] <= q || q + ix.lens[q] <= p
  {
    HeaderEnd(ix, p);
    HeaderEnd(ix, q);
    if p in ix.recs && q in ix.recs {
      TiledApart(ix.lens, HeaderSize(ix.nhash), ix.size, if p < q then p else q, if p < q then q else p);
    } else if p !in ix.recs && q !in ix.recs {
      var a, b := p / 7, q / 7;
      assert p == 7 * a && q == 7 * b;
    }
  }

  lemma HeaderEnd(ix: Index, p: int)
    requires Layout(ix) && p in ix.ptrs
    ensures if p in ix.recs then HeaderSize(ix.nhash) <= p && PREFIX_SZ < ix.lens[p] && p + ix.lens[p] <= ix.size
            else p + PTR_SZ < HeaderSize(ix.nhash)
    ensures HeaderSize(ix.nhash) <= ix.size
  {
    TiledBounds(ix.lens, HeaderSize(ix.nhash), ix.size, p);
    if p !in ix.recs {
      var a := p / 7;
      assert p == 7 * a;
    }
  }

  lemma PtrKept(idx: string, off: int, b: string, q: int, v: int)
    requires 0 <= off <= |idx| && PtrAt(idx, q, v)
    requires q + PTR_SZ <= off || off + |b| <= q
    ensures PtrAt(WriteAt(idx, off, b), q, v)
  {
    WriteFrame(idx, off, b, q, q + PTR_SZ);
  }

  lemma RestKept(idx: string, off: int, b: string, x: int, r: Rec)
    requires 0 <= off <= |idx| && RestAt(idx, x, r)
    requires x + RecSize(r) <= off || off + |b| <= x + PTR_SZ
    ensures RestAt(WriteAt(idx, off, b), x, r)
  {
    WriteFrame(idx, off, b, x + PTR_SZ, x + RecSize(r));
  }

  lemma RecordWritten(idx: string, x: int, v: int, r: Rec)
    requires 0 <= x <= |idx| && 0 <= v <= PTR_MAX && RecOk(r)
    ensures PtrAt(WriteAt(idx, x, Encode(v, r)), x, v)
    ensures RestAt(WriteAt(idx, x, Encode(v, r)), x, r)
  {
    PrefixWidths(v, r);
    EncodedSlices(WriteAt(idx, x, Encode(v, r)), x, v, r);
  }

  lemma NewlineKept(idx: string, off: int, b: string, i: int)
    requires 0 <= off <= |idx| && 0 <= i < |idx| && idx[i] == NEWLINE
    requires i < off || off + |b| <= i
    ensures WriteAt(idx, off, b)[i] == NEWLINE
  {
  }

  lemma SetPtrLayout(ix: Index, p: int, v: int)
    requires Layout(ix) && p in ix.ptrs && 0 <= v <= PTR_MAX
    ensures Layout(SetPtr(ix, p, v))
  {
    assert ix.ptrs[p := v].Keys == ix.ptrs.Keys;
  }

  lemma SetRecLayout(ix: Index, x: int, v: int, r: Rec)
    requires Layout(ix) && x in ix.recs && 0 <= v <= PTR_MAX
    requires RecOk(r) && RecSize(r) == RecSize(ix.recs[x])
    ensures Layout(SetRec(ix, x, v, r))
  {
    assert ix.ptrs[x := v].Keys == ix.ptrs.Keys;
    assert ix.recs[x := r].Keys == ix.recs.Keys;
  }

  lemma {:induction false} TiledExtend(lens: map<int, int>, from: int, size: int, n: int)
    requires Tiled(lens, from, size) && n > PREFIX_SZ
    ensures size !in lens && Tiled(lens[size := n], from, size + n)
    decreases |lens|
  {
    var more := lens[size := n];
    if |lens| == 0 {
      assert more - {from} == map[];
    } else {
      TiledExtend(lens - {from}, from + lens[from], size, n);
      TiledBounds(lens, from, size, from);
      assert more - {from} == (lens - {from})[size := n];
    }
  }

  lemma FieldsExtend(fields: set<int>, nhash: nat, recs: set<int>, x: int)
    requires Fields(fields, nhash, recs) && x !in recs && !IsSlot(x, nhash)
    ensures x !in fields && Fields(fields + {x}, nhash, recs + {x})
  {
  }

  lemma AddRecFits(ix: Index, v: int, r: Rec)
    requires PtrsFit(ix.ptrs) && RecsFit(ix.recs, ix.lens) && 0 <= v <= PTR_MAX && RecOk(r)
    ensures PtrsFit(ix.ptrs[ix.size := v])
    ensures RecsFit(ix.recs[ix.size := r], ix.lens[ix.size := RecSize(r)])
  {
  }

  lemma AddRecKeys(ix: Index, v: int, r: Rec)
    ensures AddRec(ix, v, r).ptrs.Keys == ix.ptrs.Keys + {ix.size}
    ensures AddRec(ix, v, r).lens.Keys == ix.lens.Keys + {ix.size}
    ensures AddRec(ix, v, r).recs.Keys == ix.recs.Keys + {ix.size}
  {
  }

  lemma EndIsFresh(ix: Index)
    requires Layout(ix)
    ensures ix.size !in ix.ptrs && ix.size !in ix.recs && ix.size !in ix.lens && !IsSlot(ix.size, ix.nhash)
  {
    TiledBounds(ix.lens, HeaderSize(ix.nhash), ix.size, ix.size);
  }

  lemma AddRecLayout(ix: Index, v: int, r: Rec)
    requires Layout(ix) && 0 <= v <= PTR_MAX && RecOk(r)
    ensures ix.size !in ix.ptrs && ix.size !in ix.recs
    ensures Layout(AddRec(ix, v, r))
  {
    hide PtrsFit, RecsFit, Fields, Tiled, Digits, IsSlot, KeyOk;
    EndIsFresh(ix);
    AddRecFits(ix, v, r);
    TiledExtend(ix.lens, HeaderSize(ix.nhash), ix.size, RecSize(r));
    FieldsExtend(ix.ptrs.Keys, ix.nhash, ix.lens.Keys, ix.size);
    AddRecKeys(ix, v, r);
  }

  /** A write of n bytes at off that stays clear of every field but those at off. */
  ghost predicate Clear(ix: Index, off: int, n: int) {
    && (forall q | q in ix.ptrs && q != off :: q + PTR_SZ <= off || off + n <= q)
    && (forall x | x in ix.recs && x != off :: x + RecSize(ix.recs[x]) <= off || off + n <= x + PTR_SZ)
    && (HeaderSize(ix.nhash) <= off || off + n < HeaderSize(ix.nhash))
  }

  lemma OthersKept(idx: string, ix: Index, off: int, b: string)
    requires Encodes(idx, ix) && Clear(ix, off, |b|) && 0 <= off <= |idx|
    ensures forall q | q in ix.ptrs && q != off :: PtrAt(WriteAt(idx, off, b), q, ix.ptrs[q])
    ensures forall x | x in ix.recs && x != off :: RestAt(WriteAt(idx, off, b), x, ix.recs[x])
    ensures WriteAt(idx, off, b)[HeaderSize(ix.nhash) - 1] == NEWLINE
  {
    forall q | q in ix.ptrs && q != off ensures PtrAt(WriteAt(idx, off, b), q, ix.ptrs[q]) {
      PtrKept(idx, off, b, q, ix.ptrs[q]);
    }
    forall x | x in ix.recs && x != off ensures RestAt(WriteAt(idx, off, b), x, ix.recs[x]) {
      RestKept(idx, off, b, x, ix.recs[x]);
    }
    NewlineKept(idx, off, b, HeaderSize(ix.nhash) - 1);
  }

  lemma PtrClear(ix: Index, p: int)
    requires Layout(ix) && p in ix.ptrs
    ensures Clear(ix, p, PTR_SZ)
  {
    forall q | q in ix.ptrs && q != p ensures q + PTR_SZ <= p || p + PTR_SZ <= q {
      FieldsApart(ix, p, q);
    }
    forall x | x in ix.recs && x != p ensures x + RecSize(ix.recs[x]) <= p || p + PTR_SZ <= x + PTR_SZ {
      FieldsApart(ix, p, x);
    }
    HeaderEnd(ix, p);
  }

  lemma RecClear(ix: Index, x: int)
    requires Layout(ix) && x in ix.recs
    ensures Clear(ix, x, RecSize(ix.recs[x]))
  {
    forall q | q in ix.ptrs && q != x ensures q + PTR_SZ <= x || x + RecSize(ix.recs[x]) <= q {
      FieldsApart(ix, q, x);
      FieldsApart(ix, x, q);
    }
    forall y | y in ix.recs && y != x ensures y + RecSize(ix.recs[y]) <= x || x + RecSize(ix.recs[x]) <= y + PTR_SZ {
      FieldsApart(ix, x, y);
    }
    HeaderEnd(ix, x);
  }

  lemma EndClear(ix: Index, n: int)
    requires Layout(ix)
    ensures Clear(ix, ix.size, n)
  {
    forall q | q in ix.ptrs ensures q + PTR_SZ <= ix.size && (q in ix.recs ==> q + RecSize(ix.recs[q]) <= ix.size) {
      HeaderEnd(ix, q);
    }
    TiledBounds(ix.lens, HeaderSize(ix.nhash), ix.size, 0);
  }

  lemma WritePtrEncodes(idx: string, ix: Index, p: int, v: int)
    requires Encodes(idx, ix) && Clear(ix, p, PTR_SZ) && p in ix.ptrs && 0 <= v <= PTR_MAX
    ensures 0 <= p <= |idx| - PTR_SZ
    ensures Encodes(WriteAt(idx, p, Padded(PTR_SZ, v)), SetPtr(ix, p, v))
  {
    var b := Padded(PTR_SZ, v);
    PtrWidth(v);
    assert PtrAt(idx, p, ix.ptrs[p]);
    OthersKept(idx, ix, p, b);
    var out := WriteAt(idx, p, b);
    if p in ix.recs {
      RestKept(idx, p, b, p, ix.recs[p]);
    }
    assert RecBodies(out, ix.recs);
    assert PtrFields(out, ix.ptrs[p := v]);
  }

  /** _db_writeptr at byte level: exactly one pointer field of the index changes. */
  lemma WritePtrCorrect(idx: string, ix: Index, p: int, v: int)
    requires Layout(ix) && Encodes(idx, ix) && p in ix.ptrs && 0 <= v <= PTR_MAX
    ensures 0 <= p <= |idx| - PTR_SZ
    ensures Layout(SetPtr(ix, p, v))
    ensures Encodes(WriteAt(idx, p, Padded(PTR_SZ, v)), SetPtr(ix, p, v))
  {
    PtrClear(ix, p);
    WritePtrEncodes(idx, ix, p, v);
    SetPtrLayout(ix, p, v);
  }

  lemma WriteRecEncodes(idx: string, ix: Index, x: int, v: int, r: Rec)
    requires Encodes(idx, ix) && Clear(ix, x, RecSize(r)) && 0 <= x <= |idx| && 0 <= v <= PTR_MAX && RecOk(r)
    ensures var out := WriteAt(idx, x, Encode(v, r));
            && |out| == (if x + RecSize(r) <= |idx| then |idx| else x + RecSize(r))
            && PtrFields(out, ix.ptrs[x := v]) && RecBodies(out, ix.recs[x := r])
            && out[HeaderSize(ix.nhash) - 1] == NEWLINE
  {
    PrefixWidths(v, r);
    OthersKept(idx, ix, x, Encode(v, r));
    RecordWritten(idx, x, v, r);
  }

  /** _db_writeidx over an existing record: legal when the new record is exactly as
      long as the old one, and then nothing else in the file moves. */
  lemma RewriteCorrect(idx: string, ix: Index, x: int, v: int, r: Rec)
    requires Layout(ix) && Encodes(idx, ix) && x in ix.recs && 0 <= v <= PTR_MAX
    requires RecOk(r) && RecSize(r) == RecSize(ix.recs[x])
    ensures 0 <= x <= |idx| - RecSize(r)
    ensures Layout(SetRec(ix, x, v, r))
    ensures Encodes(WriteAt(idx, x, Encode(v, r)), SetRec(ix, x, v, r))
  {
    RecClear(ix, x);
    assert RestAt(idx, x, ix.recs[x]);
    WriteRecEncodes(idx, ix, x, v, r);
    SetRecLayout(ix, x, v, r);
  }

  /** _db_writeidx at the end of the file: one more record, the old ones untouched. */
  lemma AppendCorrect(idx: string, ix: Index, v: int, r: Rec)
    requires Layout(ix) && Encodes(idx, ix) && 0 <= v <= PTR_MAX && RecOk(r)
    ensures ix.size !in ix.ptrs && ix.size !in ix.recs && ix.size == |idx|
    ensures Layout(AddRec(ix, v, r))
    ensures Encodes(WriteAt(idx, |idx|, Encode(v, r)), AddRec(ix, v, r))
  {
    EndClear(ix, RecSize(r));
    WriteRecEncodes(idx, ix, |idx|, v, r);
    AddRecLayout(ix, v, r);
  }

  lemma PtrAtValue(idx: string, p: int, v: int)
    requires PtrAt(idx, p, v)
    ensures p + PTR_SZ <= |idx| && Atol(idx[p..p + PTR_SZ]) == v
  {
    AtolOfPadded(PTR_SZ, v);
  }

  lemma RecordAtValue(idx: string, p: int, v: int, r: Rec)
    requires PtrAt(idx, p, v) && RestAt(idx, p, r) && 0 <= v <= PTR_MAX && RecOk(r)
    ensures ParseRecord(idx, p) == ReadBack(v, r)
    ensures CString(Split(r), 0) == r.key
  {
    EncodedSlices(idx, p, v, r);
    RecordRoundTrip(idx, p, v, r);
  }

  /** Every pointer read from a well-formed file succeeds, and every record read whose key
      has no separator, and returns what the Index says. */
  lemma ReadCorrect(idx: string, ix: Index, p: int)
    requires Layout(ix) && Encodes(idx, ix) && p in ix.ptrs
    ensures p + PTR_SZ <= |idx| && Atol(idx[p..p + PTR_SZ]) == ix.ptrs[p]
    ensures p in ix.recs ==>
              var r := ix.recs[p];
              && ParseRecord(idx, p) == ReadBack(ix.ptrs[p], r)
              && CString(Split(r), 0) == r.key
              && ix.ptrs[p] >= 0 && p + RecSize(r) == p + ix.lens[p] <= |idx| && p > 0
  {
    assert PtrAt(idx, p, ix.ptrs[p]);
    PtrAtValue(idx, p, ix.ptrs[p]);
    if p in ix.recs {
      assert RestAt(idx, p, ix.recs[p]);
      assert p in ix.lens.Keys;
      HeaderEnd(ix, p);
      RecordAtValue(idx, p, ix.ptrs[p], ix.recs[p]);
    }
  }

  /** The same, step by step as _db_readidx reads the file. */
  lemma ReadSteps(idx: string, ix: Index, x: int)
    requires Layout(ix) && Encodes(idx, ix) && x in ix.recs
    ensures var r := ix.recs[x]; var n := BodyLen(r);
            && x in ix.ptrs && x > 0 && RecOk(r) && IDXLEN_MIN <= n <= IDXLEN_MAX
            && x + PREFIX_SZ + n == x + ix.lens[x] <= |idx|
            && Atol(idx[x..x + PTR_SZ]) == ix.ptrs[x] >= 0
            && Atol(idx[x + PTR_SZ..x + PREFIX_SZ]) == n
            && idx[x + PREFIX_SZ..x + PREFIX_SZ + n] == Body(r)
  {
    var r := ix.recs[x];
    assert x in ix.lens.Keys;
    assert PtrAt(idx, x, ix.ptrs[x]);
    assert RestAt(idx, x, r);
    PtrAtValue(idx, x, ix.ptrs[x]);
    RecordFields(idx, x, r);
    AtolOfPadded(IDXLEN_SZ, BodyLen(r));
    HeaderEnd(ix, x);
  }

  /** The end of the file is not the start of a record; at every start of one there is a
      whole record to read. */
  lemma EndOfFile(idx: string, ix: Index)
    requires Layout(ix) && Encodes(idx, ix)
    ensures |idx| == ix.size && ix.size !in ix.recs && ix.size > 0
    ensures forall x | x in ix.recs :: 0 < x && x + PREFIX_SZ + IDXLEN_MIN <= x + RecSize(ix.recs[x]) <= |idx|
  {
    EndIsFresh(ix);
    forall x | x in ix.recs ensures 0 < x && x + PREFIX_SZ + IDXLEN_MIN <= x + RecSize(ix.recs[x]) <= |idx| {
      ReadSteps(idx, ix, x);
    }
  }

  /** The header db_open writes: a pointer field of value 0 for the free list and for
      each chain, then a newline. */
  lemma FreshCorrect(hash: string, nhash: nat)
    requires nhash > 0 && |hash| == 7 * (nhash + 1)
    requires forall j | 0 <= j <= nhash :: hash[7 * j..7 * j + 7] == Padded(PTR_SZ, 0)
    ensures Layout(FreshIndex(nhash)) && Encodes(hash + [NEWLINE], FreshIndex(nhash))
  {
    var ix := FreshIndex(nhash);
    var idx := hash + [NEWLINE];
    forall p | p in ix.ptrs ensures PtrAt(idx, p, ix.ptrs[p]) {
      var j := p / 7;
      assert p == 7 * j;
      assert idx[p..p + 7] == hash[p..p + 7];
    }
  }
}
