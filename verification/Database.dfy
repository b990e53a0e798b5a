/** The database library: a handle on two files, and the operations that read and
    update the files in place. */
module Database {
  import opened Common
  import opened Decimal
  import opened IndexFormat
  import opened IndexFile
  import opened Chains
  import opened Extents
  import opened Operations
  import opened FileOrder

  const DB_INSERT := 1
  const DB_REPLACE := 2
  const DB_STORE := 3

  lemma StoreFlags()
    ensures DB_INSERT == 1 && DB_REPLACE == 2 && DB_STORE == 3
  {
  }

  datatype Whence = SeekSet | SeekEnd

  /** The two files, shared by every handle. */
  class Disk {
    var idx: string
    var dat: string
    ghost var ix: Index
    ghost var sh: Shape

    constructor (idx: string, dat: string, ghost ix: Index, ghost sh: Shape)
      ensures this.idx == idx && this.dat == dat && this.ix == ix && this.sh == sh
    {
      this.idx, this.dat, this.ix, this.sh := idx, dat, ix, sh;
    }

    /** What every system call keeps: both files are made of well-formed pieces. */
    ghost predicate WellFormed()
      reads this
    {
      Layout(ix) && Encodes(idx, ix) && ExtentsOk(dat, ix.recs)
    }

    /** What every operation keeps: each record is on exactly one list. */
    ghost predicate Valid()
      reads this
    {
      WellFormed() && Shaped(ix, sh, {})
    }

    ghost function Map(): map<string, string>
      reads this
    {
      Contents(ix.recs, sh.loc, dat)
    }
  }

  lemma InMap(ix: Index, sh: Shape, dat: string, key: string)
    ensures key in Contents(ix.recs, sh.loc, dat) <==> key in sh.loc
    ensures key !in sh.loc ==> Contents(ix.recs, sh.loc, dat) - {key} == Contents(ix.recs, sh.loc, dat)
  {
  }

  lemma NoExtents()
    ensures ExtentsOk("", map[])
  {
  }

  lemma LookUp(ix: Index, sh: Shape, dat: string, key: string)
    requires Shaped(ix, sh, {}) && ExtentsOk(dat, ix.recs)
    ensures key in Contents(ix.recs, sh.loc, dat) <==> key in sh.loc
    ensures key in sh.loc ==> sh.loc[key] in ix.recs && ExtentOk(dat, ix.recs[sh.loc[key]]) &&
                              Contents(ix.recs, sh.loc, dat)[key] == Datum(dat, ix.recs[sh.loc[key]])
  {
  }

  lemma PutAgain(m: map<string, string>, key: string, data: string)
    ensures (m - {key})[key := data] == m[key := data]
  {
  }

  lemma LocDrop(loc: map<string, int>, key: string)
    requires key in loc
    ensures |loc - {key}| == |loc| - 1
  {
    assert (loc - {key}).Keys == loc.Keys - {key};
    assert |(loc - {key}).Keys| == |loc.Keys| - 1;
  }

  /** Number of free records */
  function FreeLen(sh: Shape): int {
    if |sh.lists| > 0 then |sh.lists[0]| - 1 else 0
  }

  predicate Fits(ix: Index, x: int, keylen: int, datlen: int) {
    x in ix.recs && |ix.recs[x].key| == keylen && ix.recs[x].datlen == datlen
  }

  /** Some free record has a key and data of these lengths. */
  ghost predicate FreeFits(ix: Index, sh: Shape, keylen: int, datlen: int) {
    |sh.lists| > 0 && exists i :: 0 < i < |sh.lists[0]| && Fits(ix, sh.lists[0][i], keylen, datlen)
  }

  /** A record of the free list that has a key and data of these lengths makes room. */
  lemma FreeFitsIs(ix: Index, sh: Shape, keylen: int, datlen: int)
    ensures FreeFits(ix, sh, keylen, datlen) <==>
              |sh.lists| > 0 &&
              exists i :: 0 < i < |sh.lists[0]| && sh.lists[0][i] in ix.recs
                          && |ix.recs[sh.lists[0][i]].key| == keylen && ix.recs[sh.lists[0][i]].datlen == datlen
  {
    if FreeFits(ix, sh, keylen, datlen) {
      var i :| 0 < i < |sh.lists[0]| && Fits(ix, sh.lists[0][i], keylen, datlen);
    }
  }

  /** Record x is the first of the free list that fits. */
  ghost predicate FirstFit(ix: Index, sh: Shape, x: int, keylen: int, datlen: int) {
    |sh.lists| > 0 && exists i :: 0 < i < |sh.lists[0]| && sh.lists[0][i] == x && Fits(ix, x, keylen, datlen)
                                  && forall j | 0 < j < i :: !Fits(ix, sh.lists[0][j], keylen, datlen)
  }

  /** The formatted record has a legal length and a chain pointer can hold its offset. */
  ghost predicate Appendable(ix: Index, dat: string, key: string, data: string) {
    IDXLEN_MIN <= BodyLen(Rec(key, |dat|, |data| + 1)) <= IDXLEN_MAX && ix.size <= PTR_MAX
  }

  /** The abstract db_store: the new contents and the return code */
  function StoreMap(m: map<string, string>, key: string, data: string, flag: int): map<string, string> {
    if (flag == DB_INSERT && key !in m) || (flag == DB_REPLACE && key in m) || flag == DB_STORE
    then m[key := data] else m
  }

  function StoreCode(m: map<string, string>, key: string, flag: int): int {
    if flag == DB_INSERT then if key in m then 1 else 0
    else if flag == DB_REPLACE then if key in m then 0 else -1
    else if flag == DB_STORE then 0
    else -1
  }

  /** The codes: 1 when an insert finds the key, -1 when a replacement does not or the flag is
      unknown, else 0; the data are stored exactly with code 0. */
  lemma StoreIs(m: map<string, string>, key: string, data: string, flag: int)
    ensures StoreCode(m, key, flag) == 1 <==> flag == DB_INSERT && key in m
    ensures StoreCode(m, key, flag) == -1 <==>
              || (flag == DB_REPLACE && key !in m)
              || (flag != DB_INSERT && flag != DB_REPLACE && flag != DB_STORE)
    ensures StoreCode(m, key, flag) in {1, -1, 0}
    ensures StoreMap(m, key, data, flag) == if StoreCode(m, key, flag) == 0 then m[key := data] else m
  {
  }

  /** Node j of the key's chain is the first record on the walk for the key that cannot be
      read: its own key contains the separator, and no record before it has the key. */
  ghost predicate Unreadable(ix: Index, sh: Shape, key: string, j: int)
    requires ix.nhash > 0
  {
    var k: int := Hash(key, ix.nhash) + 1;
    && k < |sh.lists| && 0 < j < |sh.lists[k]| && SEP in KeyAt(ix.recs, sh.lists[k][j])
    && forall m | 0 < m < j :: KeyAt(ix.recs, sh.lists[k][m]) != key
  }

  /** When looking up a key ends the process */
  ghost predicate WalkDies(ix: Index, sh: Shape, key: string)
    requires ix.nhash > 0
  {
    exists j :: Unreadable(ix, sh, key, j)
  }

  /** The first i nodes of the key's chain have been read, and none has the key. */
  ghost predicate Passed(ix: Index, sh: Shape, key: string, i: int)
    requires ix.nhash > 0
  {
    var k: int := Hash(key, ix.nhash) + 1;
    && k < |sh.lists| && 0 <= i < |sh.lists[k]|
    && forall m | 0 < m <= i :: SEP !in KeyAt(ix.recs, sh.lists[k][m]) && KeyAt(ix.recs, sh.lists[k][m]) != key
  }

  lemma Stuck(ix: Index, sh: Shape, key: string, j: int)
    requires ix.nhash > 0 && Passed(ix, sh, key, j - 1)
    requires var k: int := Hash(key, ix.nhash) + 1; j < |sh.lists[k]| && SEP in KeyAt(ix.recs, sh.lists[k][j])
    ensures WalkDies(ix, sh, key)
  {
    assert Unreadable(ix, sh, key, j);
  }

  /** A walk that has come to the key's record, or to the end of the chain, has not met a
      record that cannot be read. */
  lemma Through(ix: Index, sh: Shape, key: string, i: int)
    requires ix.nhash > 0 && Passed(ix, sh, key, i)
    requires var nodes := sh.lists[Hash(key, ix.nhash) + 1];
             i + 1 < |nodes| ==> SEP !in KeyAt(ix.recs, nodes[i + 1]) && KeyAt(ix.recs, nodes[i + 1]) == key
    ensures !WalkDies(ix, sh, key)
    ensures var nodes := sh.lists[Hash(key, ix.nhash) + 1];
            forall j | 0 < j < |nodes| && KeyAt(ix.recs, nodes[j]) == key :: j >= i + 1
  {
    forall j | Unreadable(ix, sh, key, j) ensures false {
    }
  }

  /** As long as no key in the database contains the separator, no walk dies. */
  lemma WalkLives(ix: Index, sh: Shape, dat: string, key: string)
    requires Shaped(ix, sh, {}) && Layout(ix)
    requires forall q | q in Contents(ix.recs, sh.loc, dat) :: SEP !in q
    ensures !WalkDies(ix, sh, key)
  {
    hide Layout, ListsOk, Covered, Filed, Located, Hash;
    forall j ensures !Unreadable(ix, sh, key, j) {
      var k: int := Hash(key, ix.nhash) + 1;
      if k < |sh.lists| && 0 < j < |sh.lists[k]| && sh.lists[k][j] in ix.recs {
        OnList(ix, sh, {}, k, j);
        ChainLive(ix, sh, sh.lists[k][j]);
        assert ix.recs[sh.lists[k][j]].key in Contents(ix.recs, sh.loc, dat);
      }
    }
  }

  lemma ChainLive(ix: Index, sh: Shape, x: int)
    requires Shaped(ix, sh, {}) && x in ix.recs && x in sh.owner && sh.owner[x] != 0
    ensures ix.recs[x].key in sh.loc
  {
  }

  /** When db_store ends the process: the data is too short or too long, the walk comes to
      a record that cannot be read, or a record has to be appended and cannot be. */
  ghost predicate StoreDies(ix: Index, sh: Shape, dat: string, key: string, data: string, flag: int)
    requires ix.nhash > 0
  {
    && (flag == DB_INSERT || flag == DB_REPLACE || flag == DB_STORE)
    && (|data| + 1 < DATLEN_MIN || |data| + 1 > DATLEN_MAX || WalkDies(ix, sh, key) ||
        (!Appendable(ix, dat, key, data) &&
         if key in sh.loc then flag != DB_INSERT && sh.loc[key] in ix.recs && ix.recs[sh.loc[key]].datlen != |data| + 1
         else flag != DB_REPLACE && !FreeFits(ix, sh, |key|, |data| + 1)))
  }

  /** What a store that ends the process leaves: a deletion that it has already made stays. */
  ghost function MapAfterDeath(ix: Index, sh: Shape, m: map<string, string>, key: string, data: string)
    : map<string, string>
    requires ix.nhash > 0
  {
    if DATLEN_MIN <= |data| + 1 <= DATLEN_MAX && !WalkDies(ix, sh, key) then m - {key} else m
  }

  /** The longest index record there can be */
  const RECORD_MAX := PREFIX_SZ + IDXLEN_MAX

  /** The longest key that always fits: IDXLEN_MAX less three separators, seven digits
      for the offset and four for the length */
  const KEY_MAX := 1010

  /** Neither file has grown by more than one record. */
  predicate Grown(ix: Index, ix': Index, dat: string, dat': string) {
    ix'.size <= ix.size + RECORD_MAX && |dat'| <= |dat| + DATLEN_MAX
  }

  /** What a caller can check to be sure that a record can be appended: the key is not
      empty and leaves room for the offset and the length, and both files are below the
      largest offset that seven digits can hold. */
  lemma RoomToAppend(ix: Index, dat: string, key: string, data: string)
    requires 1 <= |key| <= KEY_MAX && DATLEN_MIN <= |data| + 1 <= DATLEN_MAX && ix.size <= PTR_MAX && |dat| <= PTR_MAX
    ensures Appendable(ix, dat, key, data)
  {
    assert Pow10(0) == 1 && Pow10(1) == 10 && Pow10(2) == 100 && Pow10(3) == 1000;
    assert Pow10(4) == 10000 && Pow10(5) == 100000 && Pow10(6) == 1000000 && Pow10(7) == 10000000;
    DigitsWidth(|dat|, 7);
    DigitsWidth(|data| + 1, 4);
    DigitsAreDigits(|dat|);
    DigitsAreDigits(|data| + 1);
  }

  /** The empty key cannot be stored first with data of one character: its record would
      have a body of five characters. */
  lemma EmptyKeyDies(nhash: nat)
    requires nhash > 0
    ensures StoreDies(FreshIndex(nhash), FreshShape(nhash), "", "", "x", DB_INSERT)
  {
    assert |Digits(0)| == 1 && |Digits(2)| == 1;
  }

  lemma DatumThere(dat: string, r: Rec)
    requires ExtentOk(dat, r)
    ensures ReadData(dat, r.datoff, r.datlen) == Returned(Datum(dat, r)) && r.datoff >= 0 && r.datlen >= 1
  {
    ReadDatum(dat, r);
  }

  /** What _db_dodelete needs at its four writes, and what they make of the files */
  lemma Blanking(ix: Index, sh: Shape, dat: string, k: int, i: int, x: int, prev: int)
    requires Consistent(ix, sh, dat) && k > 0 && NodeAt(sh, k, i, x, prev)
    ensures x in ix.recs && x in ix.ptrs && prev in ix.ptrs && 0 in ix.ptrs && 0 <= x <= PTR_MAX
    ensures 0 <= ix.ptrs[0] <= PTR_MAX && 0 <= ix.ptrs[x] <= PTR_MAX && |sh.lists[0]| > 0
    ensures var r := ix.recs[x];
            && 0 <= r.datoff <= |dat| && r.datlen >= 1 && RecOk(Blanked(r)) && NUL !in r.key
            && x in ix.lens && RecSize(Blanked(r)) == ix.lens[x] && KeyOk(Spaces(|r.key|))
            && var dat' := WriteAt(dat, r.datoff, Spaces(r.datlen - 1) + [NEWLINE]);
            && |dat'| == |dat| && ExtentsOk(dat', ix.recs[x := Blanked(r)]) && ExtentsOk(dat', ix.recs)
            && var ix', sh' := Deleted(ix, x, prev), DeletedShape(sh, k, i, r.key);
            && Layout(ix') && Shaped(ix', sh', {})
            && Contents(ix'.recs, sh'.loc, dat') == Contents(ix.recs, sh.loc, dat) - {r.key}
  {
    hide Layout, ListsOk, Covered, Filed, Located, Contents, ExtentsOk, WriteAt;
    HeadsDiffer(ix, sh, k, i);
    LayoutParts(ix, x);
    LayoutSize(ix, x);
    BlankedOk(ix.recs[x]);
    DeleteCorrect(ix, sh, dat, k, i);
    DeleteExtents(ix, dat, x);
  }

  lemma BlankText(r: Rec)
    ensures Blanked(r) == Rec(Spaces(|r.key|), r.datoff, r.datlen)
  {
  }

  /** A deletion changes the number of free records, and of nothing else. */
  lemma DeletedCounts(ix: Index, sh: Shape, k: int, i: int, x: int, prev: int)
    requires k > 0 && NodeAt(sh, k, i, x, prev) && x in ix.recs && x in ix.ptrs && 0 in ix.ptrs && |sh.lists[0]| > 0
    ensures var ix', sh' := Deleted(ix, x, prev), DeletedShape(sh, k, i, ix.recs[x].key);
            && ix'.recs == ix.recs[x := Blanked(ix.recs[x])] && |ix'.recs| == |ix.recs|
            && ix'.lens == ix.lens && ix'.size == ix.size && ix'.nhash == ix.nhash
            && sh'.loc == sh.loc - {ix.recs[x].key} && FreeLen(sh') == FreeLen(sh) + 1
  {
    assert |ix.recs[x := Blanked(ix.recs[x])]| == |ix.recs|;
  }

  /** The text in a buffer with a NUL behind it is the text without it. */
  lemma CStringOf(t: string, buf: string)
    requires buf == t + [NUL]
    ensures CString(buf, 0) == CString(t, 0)
  {
    SameCString(t, buf, 0);
  }

  lemma {:induction false} SameCString(t: string, buf: string, from: nat)
    requires buf == t + [NUL] && from <= |t|
    ensures CString(buf, from) == CString(t, from)
    decreases |t| - from
  {
    if from < |t| {
      SameCString(t, buf, from + 1);
    }
  }

  /** The records that a scan returns, n in number, are keys of the database with their data. */
  lemma ScannedIs(ix: Index, sh: Shape, dat: string, out: seq<(string, string)>, n: int)
    requires Consistent(ix, sh, dat)
    requires var xs := Visible(ix.recs, Order(ix.lens, HeaderSize(ix.nhash), ix.size));
             && 0 <= n <= |xs| && n == Clean(ix.recs, xs) && out == Pairs(ix.recs, dat, xs[..n])
    ensures var m := Contents(ix.recs, sh.loc, dat);
            var xs := Visible(ix.recs, Order(ix.lens, HeaderSize(ix.nhash), ix.size));
            && ((forall key | key in m :: ':' !in key) ==> n == |xs|)
            && (forall i | 0 <= i < |out| ::
                  out[i].0 in m && out[i].1 == m[out[i].0] && exists c :: c in out[i].0 && c != ' ')
            && (forall i, j | 0 <= i < j < |out| :: out[i].0 != out[j].0)
            && (n == |xs| ==> forall key | key in m && (exists c :: c in key && c != ' ') ::
                  exists i :: 0 <= i < |out| && out[i].0 == key)
  {
    hide Consistent, Contents, Visible, Order, DatumAt;
    ScanIsContents(ix, sh, dat);
    var m := Contents(ix.recs, sh.loc, dat);
    var xs := Visible(ix.recs, Order(ix.lens, HeaderSize(ix.nhash), ix.size));
    var all := Pairs(ix.recs, dat, xs);
    forall i | 0 <= i < n ensures out[i] == all[i] {
      assert xs[..n][i] == xs[i];
    }
    if n < |xs| {
      assert all[n].0 in m;
    } else {
      assert xs[..n] == xs;
    }
  }

  lemma AfterHeader(ix: Index, idx: string)
    requires Layout(ix) && Encodes(idx, ix)
    ensures OnBoundary(ix, HeaderSize(ix.nhash)) && HeaderSize(ix.nhash) == 7 * (ix.nhash + 1) + 1 <= |idx|
  {
    FirstBoundary(ix);
  }

  lemma ZeroField()
    ensures Padded(PTR_SZ, 0) == "      0"
  {
    assert Digits(0) == "0" && Spaces(6) == "      ";
  }

  class DB {
    const disk: Disk
    const nhash: nat
    var idxpos: int      // file offset of idxfd
    var idxbuf: string
    var datbuf: string
    var idxoff: int
    var idxlen: int
    var datoff: int
    var datlen: int
    var ptrval: int
    var ptroff: int
    var chainoff: int
    var cntDelok: nat
    var cntDelerr: nat
    var cntFetchok: nat
    var cntFetcherr: nat
    var cntNextrec: nat
    var cntStor1: nat
    var cntStor2: nat
    var cntStor3: nat
    var cntStor4: nat
    var cntStorerr: nat

    ghost predicate Valid()
      reads this, disk
    {
      disk.Valid() && nhash == disk.ix.nhash
    }

    /** db_open with O_CREAT | O_TRUNC: both files start empty and the header is written. */
    constructor Create(nhash: nat)
      requires nhash > 0
      ensures fresh(disk) && Valid() && disk.Map() == map[]
      ensures LiveDrift() == FreeDrift() == TotalDrift() == 0 && Rewound()
      ensures disk.ix.size == HeaderSize(nhash) && disk.dat == "" && this.nhash == nhash
      ensures |disk.idx| == 7 * (nhash + 1) + 1 && disk.idx[7 * (nhash + 1)] == '\n'
      ensures forall j | 0 <= j <= nhash :: disk.idx[7 * j..7 * j + 7] == "      0"
    {
      hide Layout, Encodes, Shaped, ExtentsOk;
      var hash := EmptyTable(nhash);
      FreshCorrect(hash, nhash);
      FreshShaped(nhash);
      NoExtents();
      disk := new Disk(hash + [NEWLINE], "", FreshIndex(nhash), FreshShape(nhash));
      this.nhash := nhash;
      idxbuf, datbuf := "", "";
      idxpos, idxoff := HeaderSize(nhash), HeaderSize(nhash);
      idxlen, datoff, datlen, ptrval, ptroff, chainoff := 0, 0, 0, 0, 0, 0;
      cntDelok, cntDelerr, cntFetchok, cntFetcherr, cntNextrec := 0, 0, 0, 0, 0;
      cntStor1, cntStor2, cntStor3, cntStor4, cntStorerr := 0, 0, 0, 0, 0;
      new;
      assert disk.Map() == map[];
      ZeroField();
      forall j | 0 <= j <= nhash ensures disk.idx[7 * j..7 * j + 7] == "      0" {
        assert disk.idx[7 * j..7 * j + 7] == hash[7 * j..7 * j + 7];
      }
    }

    /** The pointer table: nhash + 1 pointer fields of value 0 */
    static method EmptyTable(nhash: nat) returns (hash: string)
      ensures |hash| == 7 * (nhash + 1)
      ensures forall j | 0 <= j <= nhash :: hash[7 * j..7 * j + 7] == Padded(PTR_SZ, 0)
    {
      var asciiptr := Padded(PTR_SZ, 0);
      PtrWidth(0);
      hash := "";
      for i := 0 to nhash + 1
        invariant |hash| == 7 * i
        invariant forall j | 0 <= j < i :: hash[7 * j..7 * j + 7] == asciiptr
      {
        forall j | 0 <= j < i ensures (hash + asciiptr)[7 * j..7 * j + 7] == asciiptr {
          assert (hash + asciiptr)[7 * j..7 * j + 7] == hash[7 * j..7 * j + 7];
        }
        hash := hash + asciiptr;
      }
    }

    /** db_open of an existing database: another handle on the same files. */
    constructor Open(disk: Disk, nhash: nat)
      requires disk.Valid() && nhash == disk.ix.nhash
      ensures this.disk == disk && Valid() && Rewound()
    {
      this.disk, this.nhash := disk, nhash;
      idxbuf, datbuf := "", "";
      idxpos, idxoff := HeaderSize(nhash), HeaderSize(nhash);
      idxlen, datoff, datlen, ptrval, ptroff, chainoff := 0, 0, 0, 0, 0, 0;
      cntDelok, cntDelerr, cntFetchok, cntFetcherr, cntNextrec := 0, 0, 0, 0, 0;
      cntStor1, cntStor2, cntStor3, cntStor4, cntStorerr := 0, 0, 0, 0, 0;
    }

    /** The next db_nextrec starts with the first record of the file. */
    ghost predicate Rewound()
      reads this, disk
    {
      idxpos == HeaderSize(nhash)
    }

    /** How far the number of live, of free and of all records is from what this
        handle's counters say.  No operation changes these differences. */
    ghost function LiveDrift(): int
      reads `cntStor1, `cntStor2, `cntDelok, disk`sh
    {
      |disk.sh.loc| - (cntStor1 + cntStor2 - cntDelok)
    }

    ghost function FreeDrift(): int
      reads `cntDelok, `cntStor3, `cntStor2, disk`sh
    {
      FreeLen(disk.sh) - (cntDelok + cntStor3 - cntStor2)
    }

    ghost function TotalDrift(): int
      reads `cntStor1, `cntStor3, disk`ix
    {
      |disk.ix.recs| - (cntStor1 + cntStor3)
    }

    /** Calls of db_store that have stored something */
    function Stores(): int
      reads this
    {
      cntStor1 + cntStor2 + cntStor3 + cntStor4
    }

    /** The buffers describe the index record at x. */
    ghost predicate AtRecord(x: int)
      reads this, disk
    {
      && x in disk.ix.recs && x in disk.ix.ptrs
      && idxoff == x && ptrval == disk.ix.ptrs[x]
      && datoff == disk.ix.recs[x].datoff && datlen == disk.ix.recs[x].datlen
      && |disk.ix.recs[x].key| < |idxbuf| && idxbuf[|disk.ix.recs[x].key|] == NUL
      && CString(idxbuf, 0) == disk.ix.recs[x].key
    }

    // ---------- system-call level ----------

    method ReadPtr(offset: int) returns (ptr: int)
      requires disk.WellFormed() && offset in disk.ix.ptrs
      modifies this`idxpos
      ensures ptr == disk.ix.ptrs[offset] && 0 <= ptr <= PTR_MAX
      ensures idxpos == offset + PTR_SZ
    {
      ReadCorrect(disk.idx, disk.ix, offset);
      assert PtrsFit(disk.ix.ptrs);
      HeaderEnd(disk.ix, offset);
      var asciiptr := disk.idx[offset..offset + PTR_SZ];
      idxpos := offset + PTR_SZ;
      ptr := Atol(asciiptr);
    }

    /** Reads the record at offset, or at the file position when offset is 0; -1 at the end
        of the file.  The result is what the bytes say, wherever the position is; at a record
        of a well-formed file it is that record, unless its key contains the separator. */
    method ReadIdx(offset: int) returns (res: Outcome<int>)
      modifies this`idxpos, this`idxoff, this`idxlen, this`idxbuf, this`datoff, this`datlen, this`ptrval
      ensures var pos := if offset == 0 then old(idxpos) else offset;
              if offset == 0 && pos >= |disk.idx| then res == Returned(-1) && idxpos == pos
              else match ParseRecord(disk.idx, pos)
                   case None => res.Died?
                   case Some(p) => res == Returned(p.ptrval) && InBuffers(p, pos)
      ensures var pos := if offset == 0 then old(idxpos) else offset;
              disk.WellFormed() && pos in disk.ix.recs ==>
                && (res.Died? <==> SEP in disk.ix.recs[pos].key)
                && (res.Returned? ==> AtRecord(pos) && res.value == ptrval >= 0 && idxpos == pos + disk.ix.lens[pos])
    {
      hide Layout, Encodes, ExtentsOk, Digits, Atol, CString, KeyOk, Line, ParseBody;
      var idx := disk.idx;
      var pos := if offset == 0 then idxpos else offset;
      if disk.WellFormed() && pos in disk.ix.recs {
        RecordHere(idx, disk.ix, pos);
        SplitKey(disk.ix.recs[pos]);
      }
      if offset == 0 && pos >= |idx| {
        idxoff := pos;
        return Returned(-1);
      }
      if pos < 0 || pos + PREFIX_SZ > |idx| {
        return Died;
      }
      var ptr := Atol(idx[pos..pos + PTR_SZ]);
      var len := Atol(idx[pos + PTR_SZ..pos + PREFIX_SZ]);
      if len < IDXLEN_MIN || len > IDXLEN_MAX || pos + PREFIX_SZ + len > |idx| {
        return Died;
      }
      var parsed := SplitBuffer(idx[pos + PREFIX_SZ..pos + PREFIX_SZ + len]);
      if parsed.None? {
        return Died;
      }
      idxoff, idxpos, ptrval, idxlen := pos, pos + PREFIX_SZ + len, ptr, len;
      idxbuf, datoff, datlen := parsed.value.buf, parsed.value.datoff, parsed.value.datlen;
      return Returned(ptr);
    }

    /** The handle describes a record just read from position pos. */
    predicate InBuffers(p: ParsedRecord, pos: int)
      reads this
    {
      && idxoff == pos && idxpos == pos + PREFIX_SZ + p.idxlen
      && ptrval == p.ptrval && idxlen == p.idxlen
      && idxbuf == p.body.buf && datoff == p.body.datoff && datlen == p.body.datlen
    }

    /** The second half of _db_readidx: the newline and the separators become NULs, and the
        numbers are read; None where a sanity check fails. */
    static method SplitBuffer(buf: string) returns (parsed: Option<Parsed>)
      requires |buf| > 0
      ensures parsed == ParseBody(buf)
    {
      if buf[|buf| - 1] != NEWLINE {
        return None;
      }
      var fields := buf[|buf| - 1 := NUL];
      var ptr1 := StrChr(fields, 0, SEP);
      if ptr1 < 0 {
        return None;
      }
      fields := fields[ptr1 := NUL];
      var ptr2 := StrChr(fields, ptr1 + 1, SEP);
      if ptr2 < 0 {
        return None;
      }
      fields := fields[ptr2 := NUL];
      if StrChr(fields, ptr2 + 1, SEP) >= 0 {
        return None;
      }
      var datoff := Atol(CString(fields, ptr1 + 1));
      if datoff < 0 {
        return None;
      }
      var datlen := Atol(CString(fields, ptr2 + 1));
      if datlen <= 0 || datlen > DATLEN_MAX {
        return None;
      }
      return Some(Parsed(fields, datoff, datlen));
    }

    /** Reads the data record that the handle describes; for an extent of a well-formed file
        it is the datum. */
    method ReadDat() returns (res: Outcome<string>)
      requires datoff >= 0 && datlen >= 1
      modifies this`datbuf
      ensures res == ReadData(disk.dat, datoff, datlen)
      ensures res.Died? <==> datoff + datlen > |disk.dat| || disk.dat[datoff + datlen - 1] != '\n'
      ensures res.Returned? ==>
                && |res.value| < datlen && res.value == disk.dat[datoff..datoff + |res.value|] && NUL !in res.value
                && (|res.value| < datlen - 1 ==> disk.dat[datoff + |res.value|] == NUL)
    {
      if datoff + datlen > |disk.dat| || disk.dat[datoff + datlen - 1] != NEWLINE {
        return Died;
      }
      var buf := disk.dat[datoff..datoff + datlen];
      datbuf := buf[datlen - 1 := NUL];
      CStringOf(disk.dat[datoff..datoff + datlen - 1], datbuf);
      ghost var text := disk.dat[datoff..datoff + datlen - 1];
      CStringIs(text, 0);
      assert text[..|CString(text, 0)|] == disk.dat[datoff..datoff + |CString(text, 0)|];
      return Returned(CString(datbuf, 0));
    }

    method WritePtr(offset: int, ptrval: int) returns (ok: bool)
      requires disk.WellFormed() && offset in disk.ix.ptrs
      modifies this`idxpos, disk`idx, disk`ix
      ensures ok <==> 0 <= ptrval <= PTR_MAX
      ensures ok ==> disk.WellFormed() && disk.ix == SetPtr(old(disk.ix), offset, ptrval)
      ensures !ok ==> unchanged(disk)
      ensures |disk.idx| == old(|disk.idx|)
    {
      if ptrval < 0 || ptrval > PTR_MAX {
        return false;
      }
      var asciiptr := Padded(PTR_SZ, ptrval);
      PtrWidth(ptrval);
      WritePtrCorrect(disk.idx, disk.ix, offset, ptrval);
      disk.idx := WriteAt(disk.idx, offset, asciiptr);
      disk.ix := SetPtr(disk.ix, offset, ptrval);
      idxpos := offset + PTR_SZ;
      return true;
    }

    method WriteDat(data: string, offset: int, whence: Whence)
      requires whence.SeekSet? ==> 0 <= offset <= |disk.dat|
      modifies this`datoff, this`datlen, disk`dat
      ensures datoff == if whence.SeekEnd? then old(|disk.dat|) else offset
      ensures datlen == |data| + 1
      ensures disk.dat == WriteAt(old(disk.dat), datoff, data + "\n")
    {
      datoff := if whence.SeekEnd? then |disk.dat| else offset;
      datlen := |data| + 1;
      disk.dat := WriteAt(disk.dat, datoff, data + [NEWLINE]);
    }

    /** Writes the index record of `key` for the data record just written.  Fails when the
        pointer is out of range or the formatted record too short or too long. */
    method WriteIdx(key: string, offset: int, whence: Whence, ptrval: int) returns (ok: bool)
      requires Layout(disk.ix) && Encodes(disk.idx, disk.ix) && KeyOk(key)
      requires 0 <= datoff && 1 <= datlen <= DATLEN_MAX
      requires whence.SeekSet? ==> offset in disk.ix.recs && RecSize(Rec(key, datoff, datlen)) == disk.ix.lens[offset]
      modifies this`ptrval, this`idxbuf, this`idxoff, this`idxpos, disk`idx, disk`ix
      ensures ok <==> 0 <= ptrval <= PTR_MAX && IDXLEN_MIN <= BodyLen(Rec(key, datoff, datlen)) <= IDXLEN_MAX
      ensures whence.SeekSet? && 0 <= ptrval <= PTR_MAX ==> ok
      ensures !ok ==> unchanged(disk)
      ensures ok ==> Layout(disk.ix) && Encodes(disk.idx, disk.ix)
      ensures ok ==> idxoff == if whence.SeekEnd? then old(disk.ix.size) else offset
      ensures ok ==> disk.ix == (if whence.SeekEnd? then AddRec(old(disk.ix), ptrval, Rec(key, datoff, datlen))
                                 else SetRec(old(disk.ix), offset, ptrval, Rec(key, datoff, datlen)))
      ensures ok && whence.SeekEnd? ==> idxoff !in old(disk.ix.ptrs) && idxoff !in old(disk.ix.recs)
      ensures whence.SeekSet? ==> |disk.idx| == old(|disk.idx|)
    {
      hide Layout, Encodes, WriteAt, Padded, Digits, Encode, Body, KeyOk, AddRec, SetRec;
      this.ptrval := ptrval;
      if ptrval < 0 || ptrval > PTR_MAX {
        return false;
      }
      ghost var r := Rec(key, datoff, datlen);
      if whence.SeekSet? {
        LayoutParts(disk.ix, offset);
        LayoutSize(disk.ix, offset);
      }
      Formatted(ptrval, r);
      idxbuf := key + [SEP] + Digits(datoff) + [SEP] + Digits(datlen) + [NEWLINE];
      var len := |idxbuf|;
      if len < IDXLEN_MIN || len > IDXLEN_MAX {
        return false;
      }
      PrefixWidths(ptrval, r);
      var record := Padded(PTR_SZ, ptrval) + Padded(IDXLEN_SZ, len) + idxbuf;
      var off := if whence.SeekEnd? then |disk.idx| else offset;
      if whence.SeekEnd? {
        AppendCorrect(disk.idx, disk.ix, ptrval, r);
        disk.ix := AddRec(disk.ix, ptrval, r);
      } else {
        RewriteCorrect(disk.idx, disk.ix, offset, ptrval, r);
        disk.ix := SetRec(disk.ix, offset, ptrval, r);
      }
      disk.idx := WriteAt(disk.idx, off, record);
      idxoff, idxpos := off, off + |record|;
      return true;
    }

    // ---------- searching ----------

    method HashKey(key: string) returns (hval: nat)
      requires nhash > 0
      ensures hval == Hash(key, nhash)
    {
      hval := 0;
      for i := 0 to |key|
        invariant hval == HashPrefix(key, i)
      {
        hval := (hval + SignedChar(key[i]) * (i + 1)) % ULONG;
      }
      hval := hval % nhash;
    }

    /** Offset of the head pointer of a chain: the free-list pointer comes before it. */
    static function ChainOff(h: nat): (off: int)
      ensures off == 7 * (h + 1)
    {
      h * PTR_SZ + PTR_SZ
    }

    /** Walks the key's chain.  On success the buffers hold the record and ptroff the
        pointer that leads to it: node i and node i - 1 of the chain. */
    method FindAndLock(key: string) returns (rc: Outcome<int>, ghost i: int)
      requires Valid()
      modifies this`idxpos, this`idxoff, this`idxlen, this`idxbuf, this`datoff, this`datlen, this`ptrval,
               this`ptroff, this`chainoff
      ensures rc.Died? <==> WalkDies(disk.ix, disk.sh, key)
      ensures rc.Returned? ==> chainoff == 7 * (Hash(key, nhash) + 1)
      ensures rc.Returned? ==> rc.value == if key in disk.sh.loc then 0 else -1
      ensures 0 < Hash(key, nhash) + 1 < |disk.sh.lists|
      ensures rc == Returned(0) ==> NodeAt(disk.sh, Hash(key, nhash) + 1, i, disk.sh.loc[key], ptroff)
      ensures rc == Returned(0) ==> AtRecord(disk.sh.loc[key]) && disk.ix.recs[disk.sh.loc[key]].key == key
    {
      hide Layout, Encodes, ExtentsOk, ListsOk, Covered, Filed, Located, WalkDies, ParseRecord;
      var h := HashKey(key);
      ghost var ix, sh := disk.ix, disk.sh;
      KeyOnChain(ix, sh, {}, key);
      ghost var k: int := h + 1;
      ghost var nodes := sh.lists[k];
      chainoff := ChainOff(h);
      ptroff := chainoff;
      i := 0;
      OnList(ix, sh, {}, k, 0);
      Follow(ix, sh, {}, k, 0);
      var offset := ReadPtr(ptroff);
      while offset != 0
        invariant 0 <= i < |nodes| && ptroff == nodes[i] && offset == Next(nodes, i)
        invariant offset != 0 <==> i + 1 < |nodes|
        invariant chainoff == ChainOff(h)
        invariant Passed(ix, sh, key, i)
        decreases |nodes| - i
      {
        Follow(ix, sh, {}, k, i);
        var nextoffset := ReadIdx(offset);
        if nextoffset.Died? {
          Stuck(ix, sh, key, i + 1);
          return Died, i;
        }
        if CString(idxbuf, 0) == key {
          break;
        }
        ptroff := offset;
        i := i + 1;
        Follow(ix, sh, {}, k, i);
        offset := nextoffset.value;
      }
      Through(ix, sh, key, i);
      i := i + 1;
      rc := Returned(if offset == 0 then -1 else 0);
    }

    method Fetch(key: string) returns (res: Outcome<Option<string>>)
      requires Valid()
      modifies this
      ensures Valid() && unchanged(disk)
      ensures res.Died? <==> WalkDies(disk.ix, disk.sh, key)
      ensures res.Returned? ==> res.value == if key in disk.Map() then Some(disk.Map()[key]) else None
      ensures res.Returned? ==> cntFetchok == old(cntFetchok) + if res.value.Some? then 1 else 0
      ensures res.Returned? ==> cntFetcherr == old(cntFetcherr) + if res.value.None? then 1 else 0
      ensures LiveDrift() == old(LiveDrift())
      ensures FreeDrift() == old(FreeDrift())
      ensures TotalDrift() == old(TotalDrift())
    {
      hide Layout, Encodes, ExtentsOk, Shaped, Contents, ExtentOk, DatumAt, CString, WalkDies,
           DB.LiveDrift, DB.FreeDrift, DB.TotalDrift;
      LookUp(disk.ix, disk.sh, disk.dat, key);
      var rc, i := FindAndLock(key);
      if rc.Died? {
        return Died;
      }
      if rc.value < 0 {
        cntFetcherr := cntFetcherr + 1;
        return Returned(None);
      }
      ghost var r := disk.ix.recs[disk.sh.loc[key]];
      DatumThere(disk.dat, r);
      var data := ReadDat();
      cntFetchok := cntFetchok + 1;
      return Returned(Some(data.value));
    }

    method Delete(key: string) returns (res: Outcome<int>)
      requires Valid()
      modifies this, disk
      ensures Valid()
      ensures res.Died? <==> WalkDies(old(disk.ix), old(disk.sh), key)
      ensures res.Died? ==> unchanged(disk)
      ensures res.Returned? ==> res.value == if key in old(disk.Map()) then 0 else -1
      ensures res.Returned? ==> cntDelok == old(cntDelok) + if res.value == 0 then 1 else 0
      ensures res.Returned? ==> cntDelerr == old(cntDelerr) + if res.value == 0 then 0 else 1
      ensures res.Returned? ==> disk.Map() == old(disk.Map()) - {key}
      ensures |disk.idx| == old(|disk.idx|) && |disk.dat| == old(|disk.dat|) && disk.ix.size == old(disk.ix.size)
      ensures LiveDrift() == old(LiveDrift())
      ensures FreeDrift() == old(FreeDrift())
      ensures TotalDrift() == old(TotalDrift())
    {
      hide Layout, Encodes, ExtentsOk, Shaped, Contents, Disk.WellFormed, DeletedShape, NodeAt, Hash, CString, WalkDies;
      ghost var live, free, total := |disk.sh.loc|, FreeLen(disk.sh), |disk.ix.recs|;
      InMap(disk.ix, disk.sh, disk.dat, key);
      var rc, i := FindAndLock(key);
      if rc.Died? {
        return Died;
      }
      if rc.value == 0 {
        LocDrop(disk.sh.loc, key);
        DoDelete(key, i);
        assert |disk.sh.loc| == live - 1 && FreeLen(disk.sh) == free + 1 && |disk.ix.recs| == total;
        cntDelok := cntDelok + 1;
      } else {
        assert |disk.sh.loc| == live && FreeLen(disk.sh) == free && |disk.ix.recs| == total;
        cntDelerr := cntDelerr + 1;
      }
      return rc;
    }

    /** Deletes the record the buffers describe, which is node i of its chain. */
    method DoDelete(ghost key: string, ghost i: int)
      requires Valid() && key in disk.sh.loc && AtRecord(disk.sh.loc[key])
      requires disk.ix.recs[disk.sh.loc[key]].key == key
      requires NodeAt(disk.sh, Hash(key, nhash) + 1, i, disk.sh.loc[key], ptroff)
      modifies this`datbuf, this`idxbuf, this`idxpos, this`idxoff, this`ptrval, this`datoff, this`datlen, disk
      ensures Valid()
      ensures disk.Map() == old(disk.Map()) - {key}
      ensures 0 <= Hash(key, nhash) && disk.sh == DeletedShape(old(disk.sh), Hash(key, nhash) + 1, i, key)
      ensures disk.sh.loc == old(disk.sh.loc) - {key}
      ensures disk.ix.lens == old(disk.ix.lens) && disk.ix.size == old(disk.ix.size)
      ensures |disk.idx| == old(|disk.idx|) && |disk.dat| == old(|disk.dat|)
      ensures |disk.ix.recs| == old(|disk.ix.recs|) && disk.ix.nhash == old(disk.ix.nhash)
      ensures FreeLen(disk.sh) == FreeLen(old(disk.sh)) + 1
      ensures 0 <= old(datoff) <= old(datoff) + old(datlen) <= |disk.dat|
      ensures forall i | old(datoff) <= i < old(datoff) + old(datlen) - 1 :: disk.dat[i] == ' '
      ensures old(idxoff) in disk.ix.recs && forall c | c in disk.ix.recs[old(idxoff)].key :: c == ' '
    {
      hide Layout, Encodes, ExtentsOk, Shaped, Contents, WriteAt, KeyOk, AllBlank, Digits, CString, ExtentOk,
           DeletedShape, Spaces, Blanked, Hash;
      ghost var ix, sh, dat := disk.ix, disk.sh, disk.dat;
      ghost var k: int := Hash(key, nhash) + 1;
      ghost var x, prev := idxoff, ptroff;
      ghost var r := ix.recs[x];
      Blanking(ix, sh, dat, k, i, x, prev);
      BlankData();
      BlankKey(key);
      BlankText(r);
      var saveptr := ptrval;
      WriteDat(CString(datbuf, 0), datoff, SeekSet);
      var freeptr := ReadPtr(FREE_OFF);
      var ok := WriteIdx(CString(idxbuf, 0), idxoff, SeekSet, freeptr);
      ok := WritePtr(FREE_OFF, idxoff);
      ok := WritePtr(ptroff, saveptr);
      DeletedCounts(ix, sh, k, i, x, prev);
      disk.sh := DeletedShape(sh, k, i, key);
    }

    /** Looks along the free list for a record with a key and data of the given lengths
        and takes the first one it finds off the list. */
    method FindFree(keylen: int, wanted: int) returns (rc: int)
      requires Valid()
      modifies this`idxpos, this`idxoff, this`idxlen, this`idxbuf, this`datoff, this`datlen, this`ptrval, disk`idx,
               disk`ix, disk`sh
      ensures rc == if FreeFits(old(disk.ix), old(disk.sh), keylen, wanted) then 0 else -1
      ensures rc == -1 ==> unchanged(disk)
      ensures rc == 0 ==> FirstFit(old(disk.ix), old(disk.sh), idxoff, keylen, wanted)
      ensures rc == 0 ==>
                && disk.WellFormed() && Shaped(disk.ix, disk.sh, {idxoff})
                && Fits(disk.ix, idxoff, keylen, wanted)
                && datoff == disk.ix.recs[idxoff].datoff && datlen == wanted
                && 0 <= idxoff <= PTR_MAX
      ensures disk.ix.recs == old(disk.ix.recs) && disk.ix.lens == old(disk.ix.lens)
              && disk.ix.nhash == old(disk.ix.nhash)
      ensures disk.sh.loc == old(disk.sh.loc) && |disk.idx| == old(|disk.idx|) && disk.ix.size == old(disk.ix.size)
      ensures rc == 0 ==> FreeLen(disk.sh) == FreeLen(old(disk.sh)) - 1
      ensures forall k | 0 < k <= nhash :: HeadOf(disk.ix, k) == HeadOf(old(disk.ix), k)
    {
      hide Layout, Encodes, ExtentsOk, ListsOk, Covered, Filed, Located, DatumAt, KeyOk, ParseRecord;
      ghost var ix, sh := disk.ix, disk.sh;
      ghost var nodes := sh.lists[0];
      HeadPtr(ix, sh, {}, 0);
      OnList(ix, sh, {}, 0, 0);
      Follow(ix, sh, {}, 0, 0);
      ghost var i := 0;
      var saveoffset := FREE_OFF;
      var offset := ReadPtr(saveoffset);
      while offset != 0
        invariant 0 <= i < |nodes| && saveoffset == nodes[i] && offset == Next(nodes, i)
        invariant offset != 0 <==> i + 1 < |nodes|
        invariant unchanged(disk)
        invariant forall j | 0 < j <= i :: !Fits(ix, nodes[j], keylen, wanted)
        decreases |nodes| - i
      {
        Follow(ix, sh, {}, 0, i);
        FreeReadable(ix, sh, i + 1);
        var nextoffset := ReadIdx(offset);
        assert nextoffset.Returned?;
        if |CString(idxbuf, 0)| == keylen && datlen == wanted {
          break;
        }
        saveoffset := offset;
        i := i + 1;
        Follow(ix, sh, {}, 0, i);
        offset := nextoffset.value;
      }
      if offset == 0 {
        rc := -1;
      } else {
        assert Fits(ix, nodes[i + 1], keylen, wanted);
        UnlinkShaped(ix, sh, {}, 0, i + 1, sh.loc);
        assert {} + {nodes[i + 1]} == {nodes[i + 1]};
        FreeNode(ix, sh, i + 1);
        var ok := WritePtr(saveoffset, ptrval);
        assert ok;
        disk.sh := Unlink(sh, 0, i + 1, sh.loc);
        HeadsApart(ix, sh, i);
        rc := 0;
      }
    }

    /** Appends a record for a new key to both files and puts it on its chain. */
    method AppendRecord(key: string, data: string, head: int) returns (ok: bool)
      requires Valid() && KeyOk(key) && NUL !in data && key !in disk.sh.loc
      requires DATLEN_MIN <= |data| + 1 <= DATLEN_MAX
      requires chainoff == 7 * (Hash(key, nhash) + 1) && head == HeadOf(disk.ix, Hash(key, nhash) + 1)
      modifies this`idxpos, this`idxoff, this`idxbuf, this`datoff, this`datlen, this`ptrval, disk
      ensures ok <==> Appendable(old(disk.ix), old(disk.dat), key, data)
      ensures ok ==> Valid() && disk.Map() == old(disk.Map())[key := data]
      ensures ok ==> |disk.idx| > old(|disk.idx|)
      ensures !ok ==> disk.WellFormed() && disk.Map() == old(disk.Map())
      ensures ok ==> disk.sh == Stored(old(disk.sh), Hash(key, nhash) + 1, old(disk.ix.size), key)
      ensures ok ==> |disk.sh.loc| == |old(disk.sh.loc)| + 1 && |disk.ix.recs| == |old(disk.ix.recs)| + 1
      ensures ok ==> disk.ix.size <= old(disk.ix.size) + RECORD_MAX && |disk.dat| == old(|disk.dat|) + |data| + 1
      ensures ok ==> FreeLen(disk.sh) == FreeLen(old(disk.sh))
    {
      hide Layout, Encodes, ExtentsOk, Shaped, Contents, KeyOk, WriteAt, Digits, Hash, BodyLen, DB.AtRecord;
      ghost var ix, sh, dat := disk.ix, disk.sh, disk.dat;
      ghost var k: int := Hash(key, nhash) + 1;
      ghost var r := Rec(key, |dat|, |data| + 1);
      HeadPtr(ix, sh, {}, k);
      EndIsFresh(ix);
      EndOfFile(disk.idx, ix);
      AppendUnseen(ix, sh, dat, key, data);
      AppendExtents(ix, dat, key, data);
      WriteDat(data, 0, SeekEnd);
      ok := WriteIdx(key, 0, SeekEnd, head);
      if ok {
        EndOfFile(disk.idx, disk.ix);
        if ix.size <= PTR_MAX {
          AppendKey(ix, sh, dat, key, data);
        }
        ok := WritePtr(chainoff, idxoff);
        if ok {
          disk.sh := Stored(sh, k, idxoff, key);
        }
      }
    }

    /** Writes a new key into record idxoff, which FindFree has taken off the free list. */
    method ReuseRecord(key: string, data: string, head: int)
      requires disk.WellFormed() && Shaped(disk.ix, disk.sh, {idxoff}) && nhash == disk.ix.nhash
      requires KeyOk(key) && NUL !in data && key !in disk.sh.loc && 0 <= idxoff <= PTR_MAX
      requires Fits(disk.ix, idxoff, |key|, |data| + 1) && datoff == disk.ix.recs[idxoff].datoff
      requires chainoff == 7 * (Hash(key, nhash) + 1) && head == HeadOf(disk.ix, Hash(key, nhash) + 1)
      modifies this`idxpos, this`idxoff, this`idxbuf, this`datoff, this`datlen, this`ptrval, disk
      ensures Valid() && disk.Map() == old(disk.Map())[key := data]
      ensures |disk.idx| == old(|disk.idx|) && |disk.dat| == old(|disk.dat|)
      ensures disk.sh == Stored(old(disk.sh), Hash(key, nhash) + 1, old(idxoff), key)
      ensures |disk.sh.loc| == |old(disk.sh.loc)| + 1 && |disk.ix.recs| == |old(disk.ix.recs)|
      ensures FreeLen(disk.sh) == FreeLen(old(disk.sh)) && disk.ix.size == old(disk.ix.size)
    {
      hide Layout, Encodes, ExtentsOk, ListsOk, Covered, Filed, Located, DatumAt, KeyOk;
      ghost var ix, sh, dat, x := disk.ix, disk.sh, disk.dat, idxoff;
      ghost var k: int := Hash(key, nhash) + 1;
      HeadPtr(ix, sh, {x}, k);
      ReuseKey(ix, sh, dat, x, key, data);
      ReuseExtents(ix, dat, x, key, data);
      WriteDat(data, datoff, SeekSet);
      var ok := WriteIdx(key, idxoff, SeekSet, head);
      assert |ix.recs[x := Rec(key, datoff, datlen)]| == |ix.recs|;
      ok := WritePtr(chainoff, idxoff);
      assert ok;
      disk.sh := Stored(sh, k, x, key);
    }

    /** Puts a new key into the first free record that fits or, when there is none, at the
        end of the files. */
    method AddRecord(key: string, data: string) returns (ok: bool, reused: bool)
      requires Valid() && KeyOk(key) && NUL !in data && key !in disk.sh.loc
      requires DATLEN_MIN <= |data| + 1 <= DATLEN_MAX
      requires chainoff == 7 * (Hash(key, nhash) + 1)
      modifies this`idxpos, this`idxoff, this`idxlen, this`idxbuf, this`datoff, this`datlen, this`ptrval, disk
      ensures reused <==> FreeFits(old(disk.ix), old(disk.sh), |key|, |data| + 1)
      ensures ok <==> reused || Appendable(old(disk.ix), old(disk.dat), key, data)
      ensures ok ==> Valid() && disk.Map() == old(disk.Map())[key := data]
      ensures reused ==> |disk.idx| == old(|disk.idx|) && |disk.dat| == old(|disk.dat|)
      ensures ok && !reused ==> |disk.idx| > old(|disk.idx|) && |disk.dat| == old(|disk.dat|) + |data| + 1
      ensures !ok ==> disk.WellFormed() && disk.Map() == old(disk.Map())
      ensures ok ==> Grown(old(disk.ix), disk.ix, old(disk.dat), disk.dat)
      ensures ok ==> |disk.sh.loc| == |old(disk.sh.loc)| + 1
      ensures ok ==> FreeLen(disk.sh) == FreeLen(old(disk.sh)) - if reused then 1 else 0
      ensures ok ==> |disk.ix.recs| == |old(disk.ix.recs)| + if reused then 0 else 1
    {
      hide Layout, Encodes, ExtentsOk, Shaped, Contents, KeyOk, FreeFits, Appendable, CString, Hash, Stored;
      ghost var k: int := Hash(key, nhash) + 1;
      HeadPtr(disk.ix, disk.sh, {}, k);
      var ptrval := ReadPtr(chainoff);
      var rc := FindFree(|key|, |data| + 1);
      assert HeadOf(disk.ix, k) == ptrval;
      reused := rc == 0;
      if reused {
        ReuseRecord(key, data, ptrval);
        ok := true;
      } else {
        ok := AppendRecord(key, data, ptrval);
      }
    }

    /** db_store for a key that is not in the database and may be inserted. */
    method Insert(key: string, data: string) returns (ok: bool)
      requires Valid() && KeyOk(key) && NUL !in data && key !in disk.sh.loc
      requires DATLEN_MIN <= |data| + 1 <= DATLEN_MAX
      requires chainoff == 7 * (Hash(key, nhash) + 1)
      modifies this, disk
      ensures ok <==>
                || FreeFits(old(disk.ix), old(disk.sh), |key|, |data| + 1)
                || Appendable(old(disk.ix), old(disk.dat), key, data)
      ensures ok ==> Valid() && disk.Map() == old(disk.Map())[key := data]
      ensures FreeFits(old(disk.ix), old(disk.sh), |key|, |data| + 1) ==>
                |disk.idx| == old(|disk.idx|) && |disk.dat| == old(|disk.dat|)
      ensures ok && !FreeFits(old(disk.ix), old(disk.sh), |key|, |data| + 1) ==>
                |disk.idx| > old(|disk.idx|) && |disk.dat| == old(|disk.dat|) + |data| + 1
      ensures !ok ==> disk.WellFormed() && disk.Map() == old(disk.Map())
      ensures chainoff == old(chainoff)
      ensures cntStor3 == old(cntStor3) && cntStor4 == old(cntStor4) && cntStorerr == old(cntStorerr)
      ensures cntStor1 + cntStor2 == old(cntStor1) + old(cntStor2) + 1
      ensures ok ==> Grown(old(disk.ix), disk.ix, old(disk.dat), disk.dat)
      ensures ok ==> LiveDrift() == old(LiveDrift())
      ensures ok ==> FreeDrift() == old(FreeDrift())
      ensures ok ==> TotalDrift() == old(TotalDrift())
    {
      hide Layout, Encodes, ExtentsOk, Shaped, Contents, KeyOk, FreeFits, Appendable, CString, Hash, Disk.WellFormed,
           Disk.Map;
      ghost var live, free, total := |disk.sh.loc|, FreeLen(disk.sh), |disk.ix.recs|;
      var reused;
      ok, reused := AddRecord(key, data);
      if reused {
        cntStor2 := cntStor2 + 1;
        assert |disk.sh.loc| == live + 1 && FreeLen(disk.sh) == free - 1 && |disk.ix.recs| == total;
      } else {
        cntStor1 := cntStor1 + 1;
        assert ok ==> |disk.sh.loc| == live + 1 && FreeLen(disk.sh) == free && |disk.ix.recs| == total + 1;
      }
    }

    /** Deletes the record in the buffers, node i of its chain, and appends a new one. */
    method DeleteAndAppend(key: string, data: string, ghost i: int) returns (ok: bool)
      requires Valid() && KeyOk(key) && NUL !in data && key in disk.sh.loc && AtRecord(disk.sh.loc[key])
      requires DATLEN_MIN <= |data| + 1 <= DATLEN_MAX
      requires chainoff == 7 * (Hash(key, nhash) + 1)
      requires disk.ix.recs[disk.sh.loc[key]].key == key
      requires NodeAt(disk.sh, Hash(key, nhash) + 1, i, disk.sh.loc[key], ptroff)
      modifies this`datbuf, this`idxbuf, this`idxpos, this`idxoff, this`ptrval, this`datoff, this`datlen, disk
      ensures ok <==> Appendable(old(disk.ix), old(disk.dat), key, data)
      ensures ok ==> Valid() && disk.Map() == old(disk.Map())[key := data]
      ensures !ok ==> disk.WellFormed() && disk.Map() == old(disk.Map()) - {key}
      ensures ok ==> |disk.idx| > old(|disk.idx|) && |disk.dat| == old(|disk.dat|) + |data| + 1
      ensures ok ==> |disk.sh.loc| == |old(disk.sh.loc)| && |disk.ix.recs| == |old(disk.ix.recs)| + 1
      ensures ok ==> FreeLen(disk.sh) == FreeLen(old(disk.sh)) + 1
      ensures ok ==> Grown(old(disk.ix), disk.ix, old(disk.dat), disk.dat)
    {
      hide Layout, Encodes, ExtentsOk, Shaped, Contents, KeyOk, CString, DeletedShape;
      ghost var k: int := Hash(key, nhash) + 1;
      LocDrop(disk.sh.loc, key);
      PutAgain(disk.Map(), key, data);
      DoDelete(key, i);
      HeadPtr(disk.ix, disk.sh, {}, k);
      var ptrval := ReadPtr(chainoff);
      ok := AppendRecord(key, data, ptrval);
    }

    /** Writes data of the same length over that of the record in the buffers. */
    method OverwriteInPlace(key: string, data: string)
      requires Valid() && NUL !in data && key in disk.sh.loc && AtRecord(disk.sh.loc[key])
      requires disk.ix.recs[disk.sh.loc[key]].key == key && |data| + 1 == datlen
      modifies this`datoff, this`datlen, disk`dat
      ensures Valid() && disk.Map() == old(disk.Map())[key := data] && |disk.dat| == old(|disk.dat|)
      ensures |disk.idx| == old(|disk.idx|)
    {
      hide Layout, Encodes, ExtentsOk, Shaped, Contents, KeyOk, CString;
      OverwriteKey(disk.ix, disk.sh, disk.dat, key, data);
      WriteDat(data, datoff, SeekSet);
    }

    /** db_store for a key whose record, node i of its chain, is in the buffers. */
    method Replace(key: string, data: string, ghost i: int) returns (ok: bool)
      requires Valid() && KeyOk(key) && NUL !in data && key in disk.sh.loc && AtRecord(disk.sh.loc[key])
      requires DATLEN_MIN <= |data| + 1 <= DATLEN_MAX
      requires chainoff == 7 * (Hash(key, nhash) + 1)
      requires disk.ix.recs[disk.sh.loc[key]].key == key
      requires NodeAt(disk.sh, Hash(key, nhash) + 1, i, disk.sh.loc[key], ptroff)
      modifies this, disk
      ensures ok <==> |data| + 1 == old(datlen) || Appendable(old(disk.ix), old(disk.dat), key, data)
      ensures |data| + 1 == old(datlen) ==> |disk.idx| == old(|disk.idx|) && |disk.dat| == old(|disk.dat|)
      ensures ok && |data| + 1 != old(datlen) ==>
                |disk.idx| > old(|disk.idx|) && |disk.dat| == old(|disk.dat|) + |data| + 1
      ensures ok ==> Valid() && disk.Map() == old(disk.Map())[key := data]
      ensures !ok ==> disk.WellFormed() && disk.Map() == old(disk.Map()) - {key}
      ensures chainoff == old(chainoff)
      ensures cntStor1 == old(cntStor1) && cntStor2 == old(cntStor2) && cntStorerr == old(cntStorerr)
      ensures cntStor3 + cntStor4 == old(cntStor3) + old(cntStor4) + 1
      ensures ok ==> Grown(old(disk.ix), disk.ix, old(disk.dat), disk.dat)
      ensures ok ==> LiveDrift() == old(LiveDrift())
      ensures ok ==> FreeDrift() == old(FreeDrift())
      ensures ok ==> TotalDrift() == old(TotalDrift())
    {
      hide Layout, Encodes, ExtentsOk, Shaped, Contents, KeyOk, CString, Appendable, NodeAt, Hash, Disk.WellFormed,
           Disk.Map;
      ghost var live, free, total := |disk.sh.loc|, FreeLen(disk.sh), |disk.ix.recs|;
      if |data| + 1 != datlen {
        ok := DeleteAndAppend(key, data, i);
        cntStor3 := cntStor3 + 1;
        assert ok ==> |disk.sh.loc| == live && FreeLen(disk.sh) == free + 1 && |disk.ix.recs| == total + 1;
      } else {
        OverwriteInPlace(key, data);
        ok := true;
        cntStor4 := cntStor4 + 1;
        assert |disk.sh.loc| == live && FreeLen(disk.sh) == free && |disk.ix.recs| == total;
      }
    }

    /** db_store.  It either returns a code, or ends the process when the data has an
        illegal length or a record that must be appended does not fit the format. */
    method Store(key: string, data: string, flag: int) returns (res: Outcome<int>)
      requires Valid() && KeyOk(key) && NUL !in data
      modifies this, disk
      ensures res.Died? <==> StoreDies(old(disk.ix), old(disk.sh), old(disk.dat), key, data, flag)
      ensures res.Died? ==> disk.WellFormed()
      ensures res.Died? ==> disk.Map() == MapAfterDeath(old(disk.ix), old(disk.sh), old(disk.Map()), key, data)
      ensures res.Returned? ==> Valid()
      ensures res.Returned? ==> (res.value == 1 <==> flag == DB_INSERT && key in old(disk.Map()))
      ensures res.Returned? ==> (res.value == -1 <==>
                || (flag == DB_REPLACE && key !in old(disk.Map()))
                || (flag != DB_INSERT && flag != DB_REPLACE && flag != DB_STORE))
      ensures res.Returned? ==> res.value == 1 || res.value == -1 || res.value == 0
      ensures res.Returned? ==>
                disk.Map() == if res.value == 0 then old(disk.Map())[key := data] else old(disk.Map())
      ensures res.Returned? && flag in {DB_INSERT, DB_REPLACE, DB_STORE} ==>
                && Stores() == old(Stores()) + (if res.value == 0 then 1 else 0)
                && cntStorerr == old(cntStorerr) + (if res.value == 0 then 0 else 1)
      ensures key !in old(disk.Map()) && FreeFits(old(disk.ix), old(disk.sh), |key|, |data| + 1) ==>
                |disk.idx| == old(|disk.idx|) && |disk.dat| == old(|disk.dat|)
      ensures res == Returned(0) && key in old(disk.Map()) ==>
                if |data| == |old(disk.Map())[key]| then
                  |disk.idx| == old(|disk.idx|) && |disk.dat| == old(|disk.dat|)
                else |disk.idx| > old(|disk.idx|) && |disk.dat| == old(|disk.dat|) + |data| + 1
      ensures res.Returned? ==> Grown(old(disk.ix), disk.ix, old(disk.dat), disk.dat)
      ensures res.Returned? ==> LiveDrift() == old(LiveDrift())
      ensures res.Returned? ==> FreeDrift() == old(FreeDrift())
      ensures res.Returned? ==> TotalDrift() == old(TotalDrift())
    {
      hide Layout, Encodes, ExtentsOk, Shaped, Contents, FreeFits, Appendable, CString, Hash, WalkDies, NodeAt,
           DB.LiveDrift, DB.FreeDrift, DB.TotalDrift;
      LookUp(disk.ix, disk.sh, disk.dat, key);
      hide Disk.WellFormed, Datum, Disk.Map;
      if flag != DB_INSERT && flag != DB_REPLACE && flag != DB_STORE {
        return Returned(-1);
      }
      if |data| + 1 < DATLEN_MIN || |data| + 1 > DATLEN_MAX {
        return Died;
      }
      var rc, i := FindAndLock(key);
      if rc.Died? {
        return Died;
      }
      var ok;
      if rc.value < 0 {
        if flag == DB_REPLACE {
          cntStorerr := cntStorerr + 1;
          return Returned(-1);
        }
        ok := Insert(key, data);
      } else {
        if flag == DB_INSERT {
          cntStorerr := cntStorerr + 1;
          return Returned(1);
        }
        ok := Replace(key, data, i);
      }
      return if ok then Returned(0) else Died;
    }

    // ---------- sequential access ----------

    /** What a scan that goes on from the current position has still to return */
    ghost function Ahead(): seq<int>
      reads this, disk
    {
      Visible(disk.ix.recs, Order(disk.ix.lens, idxpos, disk.ix.size))
    }

    method Rewind()
      requires Valid()
      modifies this`idxpos, this`idxoff
      ensures OnBoundary(disk.ix, idxpos) && idxpos == 7 * (nhash + 1) + 1 <= |disk.idx| && Rewound()
      ensures Ahead() == Visible(disk.ix.recs, Order(disk.ix.lens, HeaderSize(nhash), disk.ix.size))
    {
      AfterHeader(disk.ix, disk.idx);
      hide *;
      var offset := (nhash + 1) * PTR_SZ;
      idxpos := offset + 1;
      idxoff := idxpos;
    }

    /** Steps to the next record whose key is not all blanks; None at the end of the file.
        The result is what the bytes from the file position on say. */
    method NextRec() returns (res: Outcome<Option<(string, string)>>)
      modifies this
      ensures var next := NextAt(disk.idx, disk.dat, old(idxpos));
              if next.Died? then res.Died? else res == Returned(next.value.0) && idxpos == next.value.1
      ensures res.Returned? ==> cntNextrec == old(cntNextrec) + if res.value.Some? then 1 else 0
      ensures LiveDrift() == old(LiveDrift()) && FreeDrift() == old(FreeDrift()) && TotalDrift() == old(TotalDrift())
    {
      hide ParseRecord, AllBlank, CString, Disk.WellFormed, AtRecord, DB.LiveDrift, DB.FreeDrift, DB.TotalDrift;
      ghost var all := NextAt(disk.idx, disk.dat, idxpos);
      var blank := true;
      while blank
        invariant if blank then NextAt(disk.idx, disk.dat, idxpos) == all
                  else datoff >= 0 && datlen >= 1 && all == match ReadData(disk.dat, datoff, datlen)
                         case Died => Died
                         case Returned(data) => Returned((Some((CString(idxbuf, 0), data)), idxpos))
        invariant cntNextrec == old(cntNextrec)
        invariant LiveDrift() == old(LiveDrift()) && FreeDrift() == old(FreeDrift())
                  && TotalDrift() == old(TotalDrift())
        decreases blank, |disk.idx| - idxpos
      {
        ParsedRange(disk.idx, idxpos);
        var next := ReadIdx(0);
        if next.Died? {
          return Died;
        }
        if next.value < 0 {
          return Returned(None);
        }
        blank := SkipBlanks(idxbuf);
      }
      var key := CString(idxbuf, 0);
      var data := ReadDat();
      if data.Died? {
        return Died;
      }
      cntNextrec := cntNextrec + 1;
      return Returned(Some((key, data.value)));
    }

    /** Runs over the key in the buffer until a NUL or a nonblank. */
    static method SkipBlanks(buf: string) returns (blank: bool)
      requires exists p :: 0 <= p < |buf| && buf[p] == NUL
      ensures blank <==> AllBlank(CString(buf, 0))
      ensures blank <==> forall c | c in CString(buf, 0) :: c == ' '
    {
      BlankIs(CString(buf, 0));
      ghost var e :| 0 <= e < |buf| && buf[e] == NUL;
      var p := 0;
      while buf[p] == SPACE
        invariant 0 <= p <= e
        invariant forall j | 0 <= j < p :: buf[j] == SPACE
        decreases e - p
      {
        p := p + 1;
      }
      BlankPrefix(buf, p);
      blank := buf[p] == NUL;
    }

    /** A whole scan: db_rewind, then db_nextrec until it returns NULL.  It returns the
        visible records in file order, up to the first that cannot be read, if any. */
    method Scan() returns (out: seq<(string, string)>, died: bool)
      requires Valid()
      modifies this
      ensures Valid()
      ensures var xs := Visible(disk.ix.recs, Order(disk.ix.lens, HeaderSize(nhash), disk.ix.size));
              && out == Pairs(disk.ix.recs, disk.dat, xs[..Clean(disk.ix.recs, xs)])
              && (died <==> Clean(disk.ix.recs, xs) < |xs|)
      ensures (forall key | key in disk.Map() :: ':' !in key) ==> !died
      ensures forall i | 0 <= i < |out| ::
                && out[i].0 in disk.Map() && out[i].1 == disk.Map()[out[i].0] && exists c :: c in out[i].0 && c != ' '
      ensures forall i, j | 0 <= i < j < |out| :: out[i].0 != out[j].0
      ensures !died ==> forall key | key in disk.Map() && (exists c :: c in key && c != ' ') ::
                          exists i :: 0 <= i < |out| && out[i].0 == key
    {
      hide Layout, Encodes, ExtentsOk, Shaped, DatumAt, KeyOk, Order, Visible, NextAt;
      Rewind();
      out, died := [], false;
      ghost var all := Ahead();
      ghost var n := 0;
      while true
        invariant Valid() && OnBoundary(disk.ix, idxpos) && idxpos <= |disk.idx|
        invariant 0 <= n <= |all| && |out| == n && Ahead() == all[n..]
        invariant forall j | 0 <= j < n ::
                    && SEP !in KeyAt(disk.ix.recs, all[j])
                    && out[j] == (KeyAt(disk.ix.recs, all[j]), DatumAt(disk.dat, disk.ix.recs, all[j]))
        decreases |all| - n
      {
        NextOnBoundary(disk.ix, disk.idx, disk.dat, idxpos);
        var rec := NextRec();
        if rec.Died? {
          died := true;
          break;
        }
        if rec.value.None? {
          break;
        }
        out := out + [rec.value.value];
        n := n + 1;
      }
      CleanIs(disk.ix.recs, all, n);
      ScannedIs(disk.ix, disk.sh, disk.dat, out, n);
    }

    /** Sets the data buffer to blanks, as many as the data is long. */
    method BlankData()
      requires datlen >= 1
      modifies this`datbuf
      ensures CString(datbuf, 0) == Spaces(datlen - 1)
    {
      var blanks := [];
      for j := 0 to datlen - 1
        invariant blanks == Spaces(j)
      {
        blanks := blanks + [SPACE];
      }
      datbuf := blanks + [NUL];
      CStringUpTo(datbuf, 0, datlen - 1);
      assert datbuf[0..datlen - 1] == blanks;
    }

    /** Overwrites the key in the index buffer with blanks, up to its terminating NUL. */
    method BlankKey(ghost key: string)
      requires NUL !in key && |key| < |idxbuf| && idxbuf[|key|] == NUL && CString(idxbuf, 0) == key
      modifies this`idxbuf
      ensures CString(idxbuf, 0) == Spaces(|key|)
    {
      CStringPrefix(idxbuf, 0, |key|);
      var p := 0;
      while idxbuf[p] != NUL
        invariant 0 <= p <= |key| && |idxbuf| == old(|idxbuf|)
        invariant forall j | 0 <= j < p :: idxbuf[j] == SPACE
        invariant forall j | p <= j < |idxbuf| :: idxbuf[j] == old(idxbuf)[j]
        decreases |key| - p
      {
        idxbuf := idxbuf[p := SPACE];
        p := p + 1;
      }
      assert forall j | 0 <= j < |key| :: key[j] in key;
      CStringUpTo(idxbuf, 0, p);
      assert idxbuf[0..p] == Spaces(p);
    }
  }
}
