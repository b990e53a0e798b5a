/** The records in the order in which a sequential scan of the index file meets them. */
module FileOrder {
  import opened Common
  import opened Decimal
  import opened IndexFormat
  import opened IndexFile
  import opened Chains
  import opened Extents
  import opened Operations

  /** Offsets of the records from position p on, each where the one before it ends */
  function Order(lens: map<int, int>, p: int, size: int): seq<int>
    decreases size - p
  {
    if p in lens && lens[p] > 0 && p + lens[p] <= size then [p] + Order(lens, p + lens[p], size) else []
  }

  /** Those whose key is not all blanks, the ones db_nextrec returns */
  function Visible(recs: map<int, Rec>, xs: seq<int>): seq<int> {
    if |xs| == 0 then []
    else (if xs[0] in recs && !AllBlank(recs[xs[0]].key) then [xs[0]] else []) + Visible(recs, xs[1..])
  }

  ghost predicate Increasing(xs: seq<int>) {
    forall i, j | 0 <= i < j < |xs| :: xs[i] < xs[j]
  }

  /** From a record boundary to the end of the file, record by record */
  ghost predicate OnBoundary(ix: Index, p: int) {
    p in ix.recs || p == ix.size
  }

  lemma {:induction false} OrderAll(lens: map<int, int>, sub: map<int, int>, from: int, size: int)
    requires Tiled(sub, from, size)
    requires forall x | x in sub :: x in lens && lens[x] == sub[x]
    requires size !in lens
    ensures forall x :: x in Order(lens, from, size) <==> x in sub
    decreases |sub|
  {
    if |sub| > 0 {
      TiledBounds(sub, from, size, from);
      var rest := sub - {from};
      var next := from + sub[from];
      OrderAll(lens, rest, next, size);
      assert Order(lens, from, size) == [from] + Order(lens, next, size);
      assert forall x :: x in sub <==> x == from || x in rest;
    }
  }

  lemma {:induction false} OrderIncreasing(lens: map<int, int>, from: int, size: int)
    ensures forall i | 0 <= i < |Order(lens, from, size)| :: from <= Order(lens, from, size)[i]
    ensures Increasing(Order(lens, from, size))
    decreases size - from
  {
    if from in lens && lens[from] > 0 && from + lens[from] <= size {
      OrderIncreasing(lens, from + lens[from], size);
    }
  }

  /** A scan from the first record meets every record exactly once, in file order. */
  lemma ScanMeetsAll(ix: Index)
    requires Layout(ix)
    ensures var xs := Order(ix.lens, HeaderSize(ix.nhash), ix.size);
            && (forall x :: x in xs <==> x in ix.recs)
            && Increasing(xs)
  {
    EndIsFresh(ix);
    OrderAll(ix.lens, ix.lens, HeaderSize(ix.nhash), ix.size);
    OrderIncreasing(ix.lens, HeaderSize(ix.nhash), ix.size);
    assert forall x :: x in ix.recs.Keys <==> x in ix.lens.Keys;
  }

  /** One step of the scan. */
  lemma OrderStep(ix: Index, p: int)
    requires Layout(ix) && p in ix.recs
    ensures p in ix.lens && p + ix.lens[p] <= ix.size && ix.lens[p] > 0
    ensures OnBoundary(ix, p + ix.lens[p])
    ensures Order(ix.lens, p, ix.size) == [p] + Order(ix.lens, p + ix.lens[p], ix.size)
    ensures Visible(ix.recs, Order(ix.lens, p, ix.size)) ==
            (if AllBlank(ix.recs[p].key) then [] else [p]) + Visible(ix.recs, Order(ix.lens, p + ix.lens[p], ix.size))
  {
    assert p in ix.lens.Keys;
    TiledBounds(ix.lens, HeaderSize(ix.nhash), ix.size, p);
    TiledNext(ix.lens, HeaderSize(ix.nhash), ix.size, p);
    assert ([p] + Order(ix.lens, p + ix.lens[p], ix.size))[1..] == Order(ix.lens, p + ix.lens[p], ix.size);
    assert p + ix.lens[p] in ix.lens.Keys ==> p + ix.lens[p] in ix.recs.Keys;
  }

  lemma FirstBoundary(ix: Index)
    requires Layout(ix)
    ensures OnBoundary(ix, HeaderSize(ix.nhash))
  {
    assert HeaderSize(ix.nhash) in ix.lens.Keys || HeaderSize(ix.nhash) == ix.size;
  }

  lemma EndOfOrder(ix: Index)
    requires Layout(ix)
    ensures Visible(ix.recs, Order(ix.lens, ix.size, ix.size)) == []
  {
    EndIsFresh(ix);
  }

  lemma RecExtent(dat: string, recs: map<int, Rec>, x: int)
    requires ExtentsOk(dat, recs) && x in recs
    ensures ExtentOk(dat, recs[x]) && DatumAt(dat, recs, x) == Datum(dat, recs[x])
  {
  }

  lemma BlankPrefix(buf: string, p: int)
    requires 0 <= p < |buf| && buf[p] != SPACE
    requires forall j | 0 <= j < p :: buf[j] == SPACE
    ensures AllBlank(CString(buf, 0)) <==> buf[p] == NUL
  {
    CStringBlanks(buf, 0, p);
  }

  lemma {:induction false} CStringBlanks(buf: string, from: nat, p: int)
    requires from <= p < |buf| && buf[p] != SPACE
    requires forall j | from <= j < p :: buf[j] == SPACE
    ensures AllBlank(CString(buf, from)) <==> buf[p] == NUL
    decreases p - from
  {
    if from < p {
      CStringBlanks(buf, from + 1, p);
      var t := CString(buf, from + 1);
      assert CString(buf, from) == [SPACE] + t;
      assert forall i | 0 <= i < |t| :: CString(buf, from)[i + 1] == t[i];
    } else if buf[p] != NUL {
      assert CString(buf, from)[0] == buf[p];
    }
  }

  lemma {:induction false} VisibleMembers(recs: map<int, Rec>, xs: seq<int>)
    ensures forall x :: x in Visible(recs, xs) <==> x in xs && x in recs && !AllBlank(recs[x].key)
  {
    if |xs| > 0 {
      VisibleMembers(recs, xs[1..]);
      assert forall x :: x in xs <==> x == xs[0] || x in xs[1..];
    }
  }

  lemma {:induction false} VisibleIncreasing(recs: map<int, Rec>, xs: seq<int>)
    requires Increasing(xs)
    ensures Increasing(Visible(recs, xs))
  {
    if |xs| > 0 {
      VisibleIncreasing(recs, xs[1..]);
      VisibleMembers(recs, xs[1..]);
      var v := Visible(recs, xs[1..]);
      forall j | 0 <= j < |v| ensures xs[0] < v[j] {
        assert v[j] in v;
        assert v[j] in xs[1..];
      }
    }
  }

  // ---------- one step of a scan, on the bytes ----------

  /** db_nextrec from position pos on: what it returns (nothing at the end of the file) and
      the position it leaves.  The position need not be the start of a record. */
  function NextAt(idx: string, dat: string, pos: int): Outcome<(Option<(string, string)>, int)>
    decreases |idx| - pos
  {
    if pos >= |idx| then Returned((None, pos))
    else
      match ParseRecord(idx, pos)
      case None => Died
      case Some(p) =>
        var next := pos + PREFIX_SZ + p.idxlen;
        if p.ptrval < 0 then Returned((None, next))
        else if AllBlank(CString(p.body.buf, 0)) then NextAt(idx, dat, next)
        else
          match ReadData(dat, p.body.datoff, p.body.datlen)
          case Died => Died
          case Returned(data) => Returned((Some((CString(p.body.buf, 0), data)), next))
  }

  /** From a record boundary of a well-formed file, db_nextrec returns the first visible
      record that is left and stops on the boundary behind it, or reports the end; it dies
      exactly when that record's key has a separator. */
  lemma {:induction false} NextOnBoundary(ix: Index, idx: string, dat: string, p: int)
    requires Layout(ix) && Encodes(idx, ix) && ExtentsOk(dat, ix.recs) && OnBoundary(ix, p) && p <= |idx|
    ensures var ahead := Visible(ix.recs, Order(ix.lens, p, ix.size)); var next := NextAt(idx, dat, p);
            if ahead == [] then next == Returned((None, |idx|))
            else if SEP in KeyAt(ix.recs, ahead[0]) then next.Died?
            else
              && next.Returned? && next.value.0 == Some((KeyAt(ix.recs, ahead[0]), DatumAt(dat, ix.recs, ahead[0])))
              && OnBoundary(ix, next.value.1) && next.value.1 <= |idx|
              && Visible(ix.recs, Order(ix.lens, next.value.1, ix.size)) == ahead[1..]
    decreases |idx| - p
  {
    hide Layout, Encodes, ExtentsOk, Order, Visible, ParseRecord, CString, AllBlank, DatumAt;
    EndOfFile(idx, ix);
    if p !in ix.recs {
      EndOfOrder(ix);
    } else {
      var r := ix.recs[p];
      OrderStep(ix, p);
      RecordHere(idx, ix, p);
      if AllBlank(r.key) {
        BlankIsReadable(r.key);
        NextOnBoundary(ix, idx, dat, p + ix.lens[p]);
      } else {
        RecExtent(dat, ix.recs, p);
        ReadDatum(dat, r);
      }
    }
  }

  lemma RecordHere(idx: string, ix: Index, p: int)
    requires Layout(ix) && Encodes(idx, ix) && p in ix.recs
    ensures p in ix.ptrs && ix.ptrs[p] >= 0 && p + PREFIX_SZ + BodyLen(ix.recs[p]) == p + ix.lens[p] <= |idx|
    ensures ParseRecord(idx, p) == ReadBack(ix.ptrs[p], ix.recs[p]) && CString(Split(ix.recs[p]), 0) == ix.recs[p].key
  {
    assert p in ix.lens.Keys;
    ReadCorrect(idx, ix, p);
  }

  lemma BlankIsReadable(key: string)
    requires AllBlank(key)
    ensures SEP !in key
  {
  }

  /** How many records a scan returns before one that cannot be read */
  function Clean(recs: map<int, Rec>, xs: seq<int>): (n: nat)
    ensures n <= |xs|
    ensures forall i | 0 <= i < n :: SEP !in KeyAt(recs, xs[i])
    ensures n < |xs| ==> SEP in KeyAt(recs, xs[n])
  {
    if |xs| == 0 || SEP in KeyAt(recs, xs[0]) then 0 else 1 + Clean(recs, xs[1..])
  }

  lemma {:induction false} CleanIs(recs: map<int, Rec>, xs: seq<int>, n: nat)
    requires n <= |xs| && (forall i | 0 <= i < n :: SEP !in KeyAt(recs, xs[i]))
    requires n < |xs| ==> SEP in KeyAt(recs, xs[n])
    ensures Clean(recs, xs) == n
  {
    if n > 0 {
      assert SEP !in KeyAt(recs, xs[0]);
      CleanIs(recs, xs[1..], n - 1);
    }
  }

  /** What is parsed has sensible numbers, and its text ends in a NUL. */
  lemma ParsedRange(idx: string, pos: int)
    ensures ParseRecord(idx, pos).Some? ==>
              var p := ParseRecord(idx, pos).value;
              && p.idxlen >= IDXLEN_MIN && p.body.datoff >= 0 && p.body.datlen >= 1
              && exists e :: 0 <= e < |p.body.buf| && p.body.buf[e] == NUL
  {
    if pos >= 0 && pos + PREFIX_SZ <= |idx| {
      var n := Atol(idx[pos + PTR_SZ..pos + PREFIX_SZ]);
      if IDXLEN_MIN <= n <= IDXLEN_MAX && pos + PREFIX_SZ + n <= |idx| {
        ParsedBody(idx[pos + PREFIX_SZ..pos + PREFIX_SZ + n]);
      }
    }
  }

  lemma ParsedBody(buf: string)
    requires |buf| > 0
    ensures ParseBody(buf).Some? ==>
              var p := ParseBody(buf).value;
              && p.datoff >= 0 && p.datlen >= 1 && exists e :: 0 <= e < |p.buf| && p.buf[e] == NUL
  {
    if ParseBody(buf).Some? {
      var p := ParseBody(buf).value;
      assert p.buf[|buf| - 1] == NUL;
    }
  }

  function KeyAt(recs: map<int, Rec>, x: int): string {
    if x in recs then recs[x].key else ""
  }

  /** What the scan returns: key and data of each visible record */
  ghost function Pairs(recs: map<int, Rec>, dat: string, xs: seq<int>): (out: seq<(string, string)>)
    ensures |out| == |xs|
    ensures forall i | 0 <= i < |xs| :: out[i] == (KeyAt(recs, xs[i]), DatumAt(dat, recs, xs[i]))
  {
    seq(|xs|, i requires 0 <= i < |xs| => (KeyAt(recs, xs[i]), DatumAt(dat, recs, xs[i])))
  }

  lemma BlankIs(s: string)
    ensures AllBlank(s) <==> forall c | c in s :: c == ' '
  {
    assert forall i | 0 <= i < |s| :: s[i] in s;
  }

  /** The whole scan returns each key of the database that is not all blanks once, with
      its data, and nothing else: no deleted record and no blank key. */
  lemma ScanIsContents(ix: Index, sh: Shape, dat: string)
    requires Consistent(ix, sh, dat)
    ensures var xs := Visible(ix.recs, Order(ix.lens, HeaderSize(ix.nhash), ix.size));
            var m := Contents(ix.recs, sh.loc, dat);
            && var out := Pairs(ix.recs, dat, xs);
            && (forall i | 0 <= i < |out| ::
                  out[i].0 in m && (exists c :: c in out[i].0 && c != ' ') && out[i].1 == m[out[i].0])
            && (forall i, j | 0 <= i < j < |out| :: out[i].0 != out[j].0)
            && (forall key | key in m && (exists c :: c in key && c != ' ') ::
                  exists i :: 0 <= i < |out| && out[i].0 == key)
  {
    hide Layout, Order, Visible, DatumAt, KeyOk, AllBlank, ExtentsOk;
    var order := Order(ix.lens, HeaderSize(ix.nhash), ix.size);
    var xs := Visible(ix.recs, order);
    ScanMeetsAll(ix);
    VisibleMembers(ix.recs, order);
    VisibleIncreasing(ix.recs, order);
    var m := Contents(ix.recs, sh.loc, dat);
    var out := Pairs(ix.recs, dat, xs);
    forall i | 0 <= i < |out|
      ensures out[i].0 in sh.loc && sh.loc[out[i].0] == xs[i] && exists c :: c in out[i].0 && c != ' '
    {
      BlankIs(out[i].0);
      assert xs[i] in xs;
      VisibleIsLive(ix, sh, xs[i]);
    }
    forall i, j | 0 <= i < j < |out| ensures out[i].0 != out[j].0 {
      assert xs[i] < xs[j];
    }
    forall key | key in m && (exists c :: c in key && c != ' ') ensures exists i :: 0 <= i < |out| && out[i].0 == key {
      BlankIs(key);
      LiveIsVisible(ix, sh, key);
      var x := sh.loc[key];
      assert x in xs;
      var i :| 0 <= i < |xs| && xs[i] == x;
      assert out[i].0 == key;
    }
  }

  lemma VisibleIsLive(ix: Index, sh: Shape, x: int)
    requires Layout(ix) && Shaped(ix, sh, {}) && x in ix.recs && !AllBlank(ix.recs[x].key)
    ensures ix.recs[x].key in sh.loc && sh.loc[ix.recs[x].key] == x
  {
    LayoutParts(ix, x);
    assert x in sh.owner.Keys;
  }

  lemma LiveIsVisible(ix: Index, sh: Shape, key: string)
    requires Shaped(ix, sh, {}) && key in sh.loc
    ensures sh.loc[key] in ix.recs && ix.recs[sh.loc[key]].key == key
  {
  }
}
