/** The effect of each database operation on the whole structure, as a composition of
    the pointer and record writes it performs. */
module Operations {
  import opened Common
  import opened IndexFormat
  import opened IndexFile
  import opened Chains
  import opened Extents
  import opened Decimal

  /** A database at rest: both files well-formed, every record on exactly one list. */
  ghost predicate Consistent(ix: Index, sh: Shape, dat: string) {
    Layout(ix) && ExtentsOk(dat, ix.recs) && Shaped(ix, sh, {})
  }

  function Blanked(r: Rec): Rec {
    Rec(Spaces(|r.key|), r.datoff, r.datlen)
  }

  lemma BlankedOk(r: Rec)
    requires RecOk(r)
    ensures RecOk(Blanked(r)) && RecSize(Blanked(r)) == RecSize(r) && AllBlank(Blanked(r).key)
  {
    var s := Spaces(|r.key|);
    assert forall c | c in s :: c == ' ';
  }

  /** The index after _db_dodelete: the record rewritten as the head of the free list
      and its predecessor made to skip it. */
  function Deleted(ix: Index, x: int, prev: int): Index
    requires x in ix.ptrs && x in ix.recs && 0 in ix.ptrs
  {
    SetPtr(SetPtr(SetRec(ix, x, ix.ptrs[0], Blanked(ix.recs[x])), 0, x), prev, ix.ptrs[x])
  }

  function DeletedShape(sh: Shape, k: int, i: int, key: string): Shape
    requires 0 < k < |sh.lists| && 0 < i < |sh.lists[k]| && 0 < |sh.lists[0]|
  {
    Push(Unlink(sh, k, i, sh.loc - {key}), 0, sh.lists[k][i], sh.loc - {key})
  }

  lemma DeleteIndexes(ix: Index, x: int, prev: int)
    requires x in ix.ptrs && x in ix.recs && 0 in ix.ptrs && prev in ix.ptrs
    requires x != prev && x != 0 && prev != 0
    ensures var unlinked := SetPtr(ix, prev, ix.ptrs[x]);
            var blanked := SetRec(unlinked, x, ix.ptrs[0], Blanked(ix.recs[x]));
            && blanked.ptrs[0] == ix.ptrs[0]
            && SetPtr(SetPtr(blanked, x, blanked.ptrs[0]), 0, x) == Deleted(ix, x, prev)
  {
    var p: map<int, int> := ix.ptrs;
    assert p[prev := p[x]][x := p[0]][x := p[0]][0 := x] == p[x := p[0]][0 := x][prev := p[x]];
  }

  lemma HeadsDiffer(ix: Index, sh: Shape, k: int, i: int)
    requires Layout(ix) && Shaped(ix, sh, {}) && 0 < k < |sh.lists| && 0 < i < |sh.lists[k]|
    ensures |sh.lists[0]| > 0 && sh.lists[0][0] == 0 && 0 in ix.ptrs
    ensures sh.lists[k][i] in ix.ptrs && sh.lists[k][i - 1] in ix.ptrs && sh.lists[k][i] in ix.recs
    ensures sh.lists[k][i] != 0 && sh.lists[k][i - 1] != 0 && sh.lists[k][i] != sh.lists[k][i - 1]
    ensures sh.lists[k][i] in sh.owner && sh.owner[sh.lists[k][i]] == k
    ensures 0 <= sh.lists[k][i] <= PTR_MAX
  {
    assert PtrsFit(ix.ptrs);
    assert ListOk(ix.ptrs, sh.owner, sh.lists[0], 0);
    OnList(ix, sh, {}, 0, 0);
    OnList(ix, sh, {}, k, i);
    OnList(ix, sh, {}, k, i - 1);
    NodeKind(ix, sh, {}, k, i);
  }

  /** Deleting a record keeps the partition: it leaves its chain and heads the free list. */
  lemma DeleteShaped(ix: Index, sh: Shape, k: int, i: int)
    requires Layout(ix) && Shaped(ix, sh, {}) && 0 < k < |sh.lists| && 0 < i < |sh.lists[k]|
    requires sh.lists[k][i] in ix.recs
    ensures var x, prev := sh.lists[k][i], sh.lists[k][i - 1];
            && x in ix.ptrs && prev in ix.ptrs && 0 in ix.ptrs && |sh.lists[0]| > 0
            && Layout(Deleted(ix, x, prev))
            && Shaped(Deleted(ix, x, prev), DeletedShape(sh, k, i, ix.recs[x].key), {})
  {
    hide Layout, ListsOk, Covered, Filed, Located;
    var x, prev := sh.lists[k][i], sh.lists[k][i - 1];
    var key := ix.recs[x].key;
    HeadsDiffer(ix, sh, k, i);
    LayoutParts(ix, x);
    BlankedOk(ix.recs[x]);
    var ix1 := SetPtr(ix, prev, ix.ptrs[x]);
    var sh1 := Unlink(sh, k, i, sh.loc - {key});
    UnlinkShaped(ix, sh, {}, k, i, sh.loc - {key});
    SetPtrLayout(ix, prev, ix.ptrs[x]);
    var ix2 := SetRec(ix1, x, ix.ptrs[0], Blanked(ix.recs[x]));
    SetRecLayout(ix1, x, ix.ptrs[0], Blanked(ix.recs[x]));
    RewriteLimbo(ix1, sh1, {} + {x}, x, ix.ptrs[0], Blanked(ix.recs[x]));
    DeleteIndexes(ix, x, prev);
    PushShaped(ix2, sh1, {} + {x}, 0, x, sh.loc - {key});
    assert {} + {x} - {x} == {};
    SetPtrLayout(ix2, x, ix2.ptrs[0]);
    SetPtrLayout(SetPtr(ix2, x, ix2.ptrs[0]), 0, x);
  }

  lemma LayoutParts(ix: Index, x: int)
    requires Layout(ix) && x in ix.recs
    ensures x in ix.ptrs && 0 in ix.ptrs && RecOk(ix.recs[x]) && NUL !in ix.recs[x].key
    ensures 0 <= ix.ptrs[x] <= PTR_MAX && 0 <= ix.ptrs[0] <= PTR_MAX
  {
    assert IsSlot(0, ix.nhash);
    assert x in ix.lens.Keys;
  }

  // ---------- the abstract map ----------

  lemma ContentsPut(recs: map<int, Rec>, loc: map<string, int>, dat: string,
                    recs': map<int, Rec>, loc': map<string, int>, dat': string, key: string)
    requires loc'.Keys == loc.Keys + {key}
    requires forall k | k in loc && k != key ::
               loc'[k] == loc[k] && DatumAt(dat', recs', loc[k]) == DatumAt(dat, recs, loc[k])
    ensures Contents(recs', loc', dat') == Contents(recs, loc, dat)[key := DatumAt(dat', recs', loc'[key])]
  {
  }

  lemma ContentsDrop(recs: map<int, Rec>, loc: map<string, int>, dat: string,
                     recs': map<int, Rec>, dat': string, key: string)
    requires forall k | k in loc && k != key :: DatumAt(dat', recs', loc[k]) == DatumAt(dat, recs, loc[k])
    ensures Contents(recs', loc - {key}, dat') == Contents(recs, loc, dat) - {key}
  {
  }

  /** Different keys are in different records. */
  lemma OtherKeys(ix: Index, sh: Shape, limbo: set<int>, x: int)
    requires Shaped(ix, sh, limbo) && x in ix.recs
    ensures forall k | k in sh.loc && k != ix.recs[x].key :: sh.loc[k] in ix.recs && sh.loc[k] != x
    ensures forall k | k in sh.loc :: sh.loc[k] in sh.owner && sh.loc[k] !in limbo && sh.owner[sh.loc[k]] > 0
  {
  }

  lemma Same(recs: map<int, Rec>, dat: string, recs': map<int, Rec>, dat': string, x: int)
    requires ExtentsOk(dat, recs) && ExtentsOk(dat', recs') && x in recs && x in recs'
    requires recs'[x] == recs[x] && Datum(dat', recs[x]) == Datum(dat, recs[x])
    ensures DatumAt(dat', recs', x) == DatumAt(dat, recs, x)
  {
  }

  /** What _db_dodelete does to the database as a whole. */
  lemma DeleteCorrect(ix: Index, sh: Shape, dat: string, k: int, i: int)
    requires Consistent(ix, sh, dat) && 0 < k < |sh.lists| && 0 < i < |sh.lists[k]|
    requires sh.lists[k][i] in ix.recs
    ensures var x, prev := sh.lists[k][i], sh.lists[k][i - 1];
            var r := ix.recs[x];
            && x in ix.ptrs && prev in ix.ptrs && 0 in ix.ptrs && |sh.lists[0]| > 0 && 0 <= r.datoff <= |dat|
            && r.datlen > 0
            && var dat' := WriteAt(dat, r.datoff, Spaces(r.datlen - 1) + [NEWLINE]);
               var ix', sh' := Deleted(ix, x, prev), DeletedShape(sh, k, i, r.key);
            && Consistent(ix', sh', dat') && |dat'| == |dat|
            && Contents(ix'.recs, sh'.loc, dat') == Contents(ix.recs, sh.loc, dat) - {r.key}
  {
    hide Layout, ListsOk, Covered, Filed, Located;
    var x, prev := sh.lists[k][i], sh.lists[k][i - 1];
    var r := ix.recs[x];
    DeleteShaped(ix, sh, k, i);
    HeadsDiffer(ix, sh, k, i);
    assert ExtentOk(dat, r);
    var blanks := Spaces(r.datlen - 1);
    var dat' := WriteAt(dat, r.datoff, blanks + [NEWLINE]);
    Overwrite(dat, ix.recs, x, blanks);
    Rekey(dat', ix.recs, x, Blanked(r));
    var recs' := ix.recs[x := Blanked(r)];
    OtherKeys(ix, sh, {}, x);
    forall key | key in sh.loc && key != r.key
      ensures DatumAt(dat', recs', sh.loc[key]) == DatumAt(dat, ix.recs, sh.loc[key])
    {
      Same(ix.recs, dat, recs', dat', sh.loc[key]);
    }
    ContentsDrop(ix.recs, sh.loc, dat, recs', dat', r.key);
  }

  function HeadOf(ix: Index, k: int): int {
    if 7 * k in ix.ptrs then ix.ptrs[7 * k] else 0
  }

  /** The index after db_store has appended a record to the file and to chain k */
  function Appended(ix: Index, k: int, r: Rec): Index {
    SetPtr(AddRec(ix, HeadOf(ix, k), r), 7 * k, ix.size)
  }

  /** The index after db_store has reused record x for chain k */
  function Reused(ix: Index, x: int, k: int, r: Rec): Index {
    SetPtr(SetRec(ix, x, HeadOf(ix, k), r), 7 * k, x)
  }

  function Stored(sh: Shape, k: int, x: int, key: string): Shape {
    if 0 <= k < |sh.lists| && 0 < |sh.lists[k]| then Push(sh, k, x, sh.loc[key := x]) else sh
  }

  /** While a deletion is under way the extents stay well-formed. */
  lemma DeleteExtents(ix: Index, dat: string, x: int)
    requires ExtentsOk(dat, ix.recs) && x in ix.recs
    ensures var r := ix.recs[x];
            && 0 <= r.datoff <= |dat| && r.datlen > 0
            && var dat' := WriteAt(dat, r.datoff, Spaces(r.datlen - 1) + [NEWLINE]);
            ExtentsOk(dat', ix.recs) && ExtentsOk(dat', ix.recs[x := Blanked(r)])
  {
    var r := ix.recs[x];
    assert ExtentOk(dat, r);
    Overwrite(dat, ix.recs, x, Spaces(r.datlen - 1));
    Rekey(WriteAt(dat, r.datoff, Spaces(r.datlen - 1) + [NEWLINE]), ix.recs, x, Blanked(r));
  }

  /** Pointing a chain head at a record in limbo files the record under its key. */
  lemma LinkNew(ix: Index, sh: Shape, x: int, k: int, key: string)
    requires Layout(ix) && Shaped(ix, sh, {x}) && x in ix.recs && ix.recs[x].key == key
    requires 0 <= x <= PTR_MAX && key !in sh.loc && k == Hash(key, ix.nhash) + 1
    requires x in ix.ptrs && 7 * k in ix.ptrs && ix.ptrs[x] == ix.ptrs[7 * k]
    ensures k < |sh.lists| && |sh.lists[k]| > 0
    ensures Layout(SetPtr(ix, 7 * k, x)) && Shaped(SetPtr(ix, 7 * k, x), Stored(sh, k, x, key), {})
  {
    hide Layout, ListsOk, Covered, Filed, Located;
    PushShaped(ix, sh, {x}, k, x, sh.loc[key := x]);
    assert SetPtr(ix, x, ix.ptrs[7 * k]) == ix by {
      assert ix.ptrs[x := ix.ptrs[x]] == ix.ptrs;
    }
    assert {x} - {x} == {};
    SetPtrLayout(ix, 7 * k, x);
  }

  /** db_store when it appends: a new record at the end of both files, at the front of
      its chain. */
  lemma AppendKey(ix: Index, sh: Shape, dat: string, key: string, data: string)
    requires Consistent(ix, sh, dat) && key !in sh.loc && NUL !in data
    requires var r := Rec(key, |dat|, |data| + 1); RecOk(r) && ix.size <= PTR_MAX
    ensures var k := Hash(key, ix.nhash) + 1;
            var dat' := WriteAt(dat, |dat|, data + [NEWLINE]);
            var ix' := Appended(ix, k, Rec(key, |dat|, |data| + 1));
            var sh' := Stored(sh, k, ix.size, key);
            && 7 * k in ix.ptrs && 0 <= HeadOf(ix, k) <= PTR_MAX && k < |sh.lists| && |sh.lists[k]| > 0
            && Consistent(ix', sh', dat') && ExtentsOk(dat', ix.recs) && ix.size !in ix.recs
            && Contents(ix'.recs, sh'.loc, dat') == Contents(ix.recs, sh.loc, dat)[key := data]
  {
    hide Layout, ListsOk, Covered, Filed, Located;
    var r := Rec(key, |dat|, |data| + 1);
    var k := Hash(key, ix.nhash) + 1;
    var x := ix.size;
    HeadPtr(ix, sh, {}, k);
    AddRecLayout(ix, ix.ptrs[7 * k], r);
    AddLimbo(ix, sh, {}, ix.ptrs[7 * k], r);
    assert {} + {x} == {x};
    var ix1 := AddRec(ix, ix.ptrs[7 * k], r);
    LinkNew(ix1, sh, x, k, key);
    Append(dat, ix.recs, x, key, data);
    var dat' := WriteAt(dat, |dat|, data + [NEWLINE]);
    OtherKeys(ix1, sh, {x}, x);
    RecordsFound(ix, sh);
    forall q | q in sh.loc && q != key
      ensures DatumAt(dat', ix1.recs, sh.loc[q]) == DatumAt(dat, ix.recs, sh.loc[q])
    {
      Same(ix.recs, dat, ix1.recs, dat', sh.loc[q]);
    }
    ContentsPut(ix.recs, sh.loc, dat, ix1.recs, sh.loc[key := x], dat', key);
  }

  lemma AppendExtents(ix: Index, dat: string, key: string, data: string)
    requires ExtentsOk(dat, ix.recs) && ix.size !in ix.recs && NUL !in data
    ensures var dat' := WriteAt(dat, |dat|, data + [NEWLINE]);
            ExtentsOk(dat', ix.recs) && ExtentsOk(dat', ix.recs[ix.size := Rec(key, |dat|, |data| + 1)])
  {
    Append(dat, ix.recs, ix.size, key, data);
  }

  /** Data at the end of the file, and a record that is on no list, change no key's data. */
  lemma AppendUnseen(ix: Index, sh: Shape, dat: string, key: string, data: string)
    requires Shaped(ix, sh, {}) && ExtentsOk(dat, ix.recs) && ix.size !in ix.recs && NUL !in data
    ensures var dat' := WriteAt(dat, |dat|, data + [NEWLINE]); var r := Rec(key, |dat|, |data| + 1);
            && Contents(ix.recs, sh.loc, dat') == Contents(ix.recs, sh.loc, dat)
            && Contents(ix.recs[ix.size := r], sh.loc, dat') == Contents(ix.recs, sh.loc, dat)
  {
    hide ListsOk, Covered, Filed, ExtentOk;
    Append(dat, ix.recs, ix.size, key, data);
    var dat', r := WriteAt(dat, |dat|, data + [NEWLINE]), Rec(key, |dat|, |data| + 1);
    RecordsFound(ix, sh);
    forall q | q in sh.loc
      ensures DatumAt(dat', ix.recs, sh.loc[q]) == DatumAt(dat, ix.recs, sh.loc[q])
      ensures DatumAt(dat', ix.recs[ix.size := r], sh.loc[q]) == DatumAt(dat, ix.recs, sh.loc[q])
    {
      Same(ix.recs, dat, ix.recs, dat', sh.loc[q]);
      Same(ix.recs, dat, ix.recs[ix.size := r], dat', sh.loc[q]);
    }
  }

  /** Free records can be read: their keys are blanks. */
  lemma FreeReadable(ix: Index, sh: Shape, i: int)
    requires Layout(ix) && Shaped(ix, sh, {}) && |sh.lists| > 0 && 0 < i < |sh.lists[0]|
    ensures sh.lists[0][i] in ix.recs && SEP !in ix.recs[sh.lists[0][i]].key
  {
    OnList(ix, sh, {}, 0, i);
    NodeKind(ix, sh, {}, 0, i);
    FiledUnder(ix, sh, sh.lists[0][i]);
  }

  /** The nodes of the free list are not chain heads. */
  lemma HeadsApart(ix: Index, sh: Shape, i: int)
    requires Layout(ix) && Shaped(ix, sh, {}) && 0 < |sh.lists| && 0 <= i < |sh.lists[0]|
    ensures forall k | 0 < k <= ix.nhash :: 7 * k != sh.lists[0][i]
  {
    OnList(ix, sh, {}, 0, i);
    forall k | 0 < k <= ix.nhash ensures 7 * k != sh.lists[0][i] {
      OnList(ix, sh, {}, k, 0);
    }
  }

  lemma ReuseExtents(ix: Index, dat: string, x: int, key: string, data: string)
    requires ExtentsOk(dat, ix.recs) && x in ix.recs && |data| + 1 == ix.recs[x].datlen && NUL !in data
    ensures var r := ix.recs[x];
            && 0 <= r.datoff <= |dat|
            && var dat' := WriteAt(dat, r.datoff, data + [NEWLINE]);
            ExtentsOk(dat', ix.recs) && ExtentsOk(dat', ix.recs[x := Rec(key, r.datoff, r.datlen)])
  {
    assert ExtentOk(dat, ix.recs[x]);
    Overwrite(dat, ix.recs, x, data);
    Rekey(WriteAt(dat, ix.recs[x].datoff, data + [NEWLINE]), ix.recs, x,
          Rec(key, ix.recs[x].datoff, ix.recs[x].datlen));
  }

  /** The value a free-list node's pointer has, for _db_findfree to write */
  lemma FreeNode(ix: Index, sh: Shape, i: int)
    requires Layout(ix) && Shaped(ix, sh, {}) && 0 < |sh.lists| && 0 < i < |sh.lists[0]|
    ensures sh.lists[0][i] in ix.ptrs && sh.lists[0][i - 1] in ix.ptrs
    ensures ix.ptrs[sh.lists[0][i - 1]] == sh.lists[0][i]
    ensures 0 <= sh.lists[0][i] <= PTR_MAX && 0 <= ix.ptrs[sh.lists[0][i]] <= PTR_MAX
  {
    assert PtrsFit(ix.ptrs);
    hide Shaped, Layout, ListOk;
    OnList(ix, sh, {}, 0, i);
    OnList(ix, sh, {}, 0, i - 1);
  }

  lemma RecordsFound(ix: Index, sh: Shape)
    requires Shaped(ix, sh, {})
    ensures forall q | q in sh.loc :: sh.loc[q] in ix.recs
  {
  }

  lemma HeadPtr(ix: Index, sh: Shape, limbo: set<int>, k: int)
    requires Layout(ix) && Shaped(ix, sh, limbo) && 0 <= k <= ix.nhash
    ensures 7 * k in ix.ptrs && 0 <= ix.ptrs[7 * k] <= PTR_MAX && k < |sh.lists| && |sh.lists[k]| > 0 && 0 <= ix.size
    ensures 7 * k !in ix.recs && 7 * k !in limbo
  {
    assert ListOk(ix.ptrs, sh.owner, sh.lists[k], k);
    OnList(ix, sh, limbo, k, 0);
    NodeKind(ix, sh, limbo, k, 0);
    HeaderEnd(ix, 7 * k);
    assert PtrsFit(ix.ptrs);
  }

  /** db_store when it reuses record x, which _db_findfree has just taken off the free
      list: same place in both files, new key and data of the same lengths. */
  lemma ReuseKey(ix: Index, sh: Shape, dat: string, x: int, key: string, data: string)
    requires Layout(ix) && ExtentsOk(dat, ix.recs) && Shaped(ix, sh, {x}) && x in ix.recs && x <= PTR_MAX
    requires key !in sh.loc && KeyOk(key) && NUL !in data
    requires |key| == |ix.recs[x].key| && |data| + 1 == ix.recs[x].datlen
    ensures var k := Hash(key, ix.nhash) + 1;
            && 7 * k in ix.ptrs && x in ix.ptrs && 0 <= HeadOf(ix, k) <= PTR_MAX && k < |sh.lists| && |sh.lists[k]| > 0
    ensures var r := Rec(key, ix.recs[x].datoff, ix.recs[x].datlen);
            0 <= r.datoff <= |dat| && RecOk(r) && x in ix.lens && RecSize(r) == ix.lens[x]
    ensures var k := Hash(key, ix.nhash) + 1;
            var r := Rec(key, ix.recs[x].datoff, ix.recs[x].datlen);
            var dat' := WriteAt(dat, r.datoff, data + [NEWLINE]);
            var ix' := Reused(ix, x, k, r);
            var sh' := Stored(sh, k, x, key);
            && Consistent(ix', sh', dat') && ExtentsOk(dat', ix.recs) && |dat'| == |dat|
            && Contents(ix'.recs, sh'.loc, dat') == Contents(ix.recs, sh.loc, dat)[key := data]
  {
    hide Layout, Shaped, ExtentsOk, Contents, WriteAt, Hash;
    ReuseIndex(ix, sh, x, key);
    ReuseData(ix, sh, dat, x, key, data);
  }

  /** The index side of it */
  lemma ReuseIndex(ix: Index, sh: Shape, x: int, key: string)
    requires Layout(ix) && Shaped(ix, sh, {x}) && x in ix.recs && x <= PTR_MAX
    requires key !in sh.loc && KeyOk(key) && |key| == |ix.recs[x].key|
    ensures var k := Hash(key, ix.nhash) + 1;
            && 7 * k in ix.ptrs && x in ix.ptrs && 0 <= HeadOf(ix, k) <= PTR_MAX && k < |sh.lists| && |sh.lists[k]| > 0
    ensures var r := Rec(key, ix.recs[x].datoff, ix.recs[x].datlen);
            RecOk(r) && x in ix.lens && RecSize(r) == ix.lens[x]
    ensures var k := Hash(key, ix.nhash) + 1;
            var r := Rec(key, ix.recs[x].datoff, ix.recs[x].datlen);
            Layout(Reused(ix, x, k, r)) && Shaped(Reused(ix, x, k, r), Stored(sh, k, x, key), {})
  {
    hide Layout, ListsOk, Covered, Filed, Located, Hash;
    var r := Rec(key, ix.recs[x].datoff, ix.recs[x].datlen);
    var k := Hash(key, ix.nhash) + 1;
    HeadPtr(ix, sh, {x}, k);
    LayoutParts(ix, x);
    LayoutSize(ix, x);
    var ix1 := SetRec(ix, x, ix.ptrs[7 * k], r);
    SetRecLayout(ix, x, ix.ptrs[7 * k], r);
    RewriteLimbo(ix, sh, {x}, x, ix.ptrs[7 * k], r);
    LinkNew(ix1, sh, x, k, key);
  }

  /** The data side */
  lemma ReuseData(ix: Index, sh: Shape, dat: string, x: int, key: string, data: string)
    requires Shaped(ix, sh, {x}) && ExtentsOk(dat, ix.recs) && x in ix.recs && key !in sh.loc && NUL !in data
    requires |data| + 1 == ix.recs[x].datlen
    requires var k := Hash(key, ix.nhash) + 1; 7 * k in ix.ptrs && k < |sh.lists| && |sh.lists[k]| > 0
    ensures var k := Hash(key, ix.nhash) + 1;
            var r := Rec(key, ix.recs[x].datoff, ix.recs[x].datlen);
            && 0 <= r.datoff <= |dat|
            && var dat' := WriteAt(dat, r.datoff, data + [NEWLINE]);
            var ix', sh' := Reused(ix, x, k, r), Stored(sh, k, x, key);
            && ExtentsOk(dat', ix'.recs) && ExtentsOk(dat', ix.recs) && |dat'| == |dat|
            && Contents(ix'.recs, sh'.loc, dat') == Contents(ix.recs, sh.loc, dat)[key := data]
  {
    hide ListsOk, Covered, Filed, Hash, WriteAt;
    var r := Rec(key, ix.recs[x].datoff, ix.recs[x].datlen);
    assert ExtentOk(dat, ix.recs[x]);
    Overwrite(dat, ix.recs, x, data);
    var dat' := WriteAt(dat, r.datoff, data + [NEWLINE]);
    Rekey(dat', ix.recs, x, r);
    OtherKeys(ix, sh, {x}, x);
    hide ExtentsOk, ExtentOk;
    var recs' := ix.recs[x := r];
    forall q | q in sh.loc && q != key
      ensures DatumAt(dat', recs', sh.loc[q]) == DatumAt(dat, ix.recs, sh.loc[q])
    {
      Same(ix.recs, dat, recs', dat', sh.loc[q]);
    }
    ContentsPut(ix.recs, sh.loc, dat, recs', sh.loc[key := x], dat', key);
  }

  lemma LayoutSize(ix: Index, x: int)
    requires Layout(ix) && x in ix.recs
    ensures x in ix.lens && RecSize(ix.recs[x]) == ix.lens[x] && x >= 0
  {
    assert x in ix.lens.Keys;
    LayoutParts(ix, x);
    HeaderEnd(ix, x);
  }

  /** db_store when the new data is as long as the old: only that key changes. */
  lemma OverwriteKey(ix: Index, sh: Shape, dat: string, key: string, data: string)
    requires Consistent(ix, sh, dat) && key in sh.loc && NUL !in data
    requires sh.loc[key] in ix.recs && ix.recs[sh.loc[key]].key == key
    requires |data| + 1 == ix.recs[sh.loc[key]].datlen
    ensures var r := ix.recs[sh.loc[key]];
            && 0 <= r.datoff <= |dat|
            && var dat' := WriteAt(dat, r.datoff, data + [NEWLINE]);
            && ExtentsOk(dat', ix.recs) && |dat'| == |dat|
            && Contents(ix.recs, sh.loc, dat') == Contents(ix.recs, sh.loc, dat)[key := data]
  {
    hide Layout, ListsOk, Covered, Filed, Located;
    var x := sh.loc[key];
    var r := ix.recs[x];
    assert ExtentOk(dat, r);
    var dat' := WriteAt(dat, r.datoff, data + [NEWLINE]);
    Overwrite(dat, ix.recs, x, data);
    OtherKeys(ix, sh, {}, x);
    forall q | q in sh.loc && q != key
      ensures DatumAt(dat', ix.recs, sh.loc[q]) == DatumAt(dat, ix.recs, sh.loc[q])
    {
      Same(ix.recs, dat, ix.recs, dat', sh.loc[q]);
    }
    assert sh.loc.Keys + {key} == sh.loc.Keys;
    ContentsPut(ix.recs, sh.loc, dat, ix.recs, sh.loc, dat', key);
  }

  /** The partition, read off a database at rest: a record is on one list only, once,
      and that is the free list or the chain of its key.  The free records are those with
      a blank key, except one that has been stored under that blank key itself. */
  lemma Partition(ix: Index, sh: Shape, x: int)
    requires Layout(ix) && Shaped(ix, sh, {}) && x in ix.recs
    ensures exists k, i :: 0 <= k < |sh.lists| && 0 < i < |sh.lists[k]| && sh.lists[k][i] == x
    ensures forall k, i, m, j | 0 <= k < |sh.lists| && 0 <= i < |sh.lists[k]| && 0 <= m < |sh.lists|
              && 0 <= j < |sh.lists[m]|
              && sh.lists[k][i] == x && sh.lists[m][j] == x :: k == m && i == j
    ensures forall k, i | 0 <= k < |sh.lists| && 0 <= i < |sh.lists[k]| && sh.lists[k][i] == x ::
              if k == 0 then AllBlank(ix.recs[x].key) else k == Hash(ix.recs[x].key, ix.nhash) + 1
    ensures (exists i :: 0 <= i < |sh.lists[0]| && sh.lists[0][i] == x) <==>
            AllBlank(ix.recs[x].key) && !(ix.recs[x].key in sh.loc && sh.loc[ix.recs[x].key] == x)
  {
    hide Filed, Located, Tiled, PtrsFit, RecsFit, KeyOk, Hash, AllBlank;
    LayoutParts(ix, x);
    assert x in sh.owner.Keys;
    var k := sh.owner[x];
    var i :| 0 <= i < |sh.lists[k]| && sh.lists[k][i] == x;
    NodeKind(ix, sh, {}, k, 0);
    assert 0 < i;
    FiledUnder(ix, sh, x);
    forall m, j | 0 <= m < |sh.lists| && 0 <= j < |sh.lists[m]| && sh.lists[m][j] == x ensures m == k && j == i {
      OnList(ix, sh, {}, m, j);
    }
  }

  lemma FiledUnder(ix: Index, sh: Shape, x: int)
    requires Shaped(ix, sh, {}) && x in ix.recs && x in sh.owner
    ensures if sh.owner[x] == 0 then AllBlank(ix.recs[x].key) else sh.owner[x] == Hash(ix.recs[x].key, ix.nhash) + 1
    ensures sh.owner[x] == 0 <==> AllBlank(ix.recs[x].key) && !(ix.recs[x].key in sh.loc && sh.loc[ix.recs[x].key] == x)
  {
  }
}
