/** The data file: one newline-terminated extent for each index record. */
module Extents {
  import opened Common
  import opened IndexFormat
  import opened IndexFile

  ghost predicate ExtentOk(dat: string, r: Rec) {
    && 0 <= r.datoff && 1 <= r.datlen && r.datoff + r.datlen <= |dat|
    && dat[r.datoff + r.datlen - 1] == NEWLINE
    && NUL !in dat[r.datoff..r.datoff + r.datlen - 1]
  }

  predicate Apart(r: Rec, s: Rec) {
    r.datoff + r.datlen <= s.datoff || s.datoff + s.datlen <= r.datoff
  }

  /** Every extent lies in the file and ends in a newline, and no two of them meet. */
  ghost predicate ExtentsOk(dat: string, recs: map<int, Rec>) {
    && (forall x | x in recs :: ExtentOk(dat, recs[x]))
    && (forall x, y | x in recs && y in recs && x != y :: Apart(recs[x], recs[y]))
  }

  function Datum(dat: string, r: Rec): string
    requires ExtentOk(dat, r)
  {
    dat[r.datoff..r.datoff + r.datlen - 1]
  }

  /** _db_readdat on the bytes of the data file: the text up to the newline that must end
      the extent, as a C string */
  function ReadData(dat: string, off: int, len: int): Outcome<string>
    requires off >= 0 && len >= 1
  {
    if off + len > |dat| || dat[off + len - 1] != NEWLINE then Died
    else Returned(CString(dat[off..off + len - 1], 0))
  }

  lemma {:induction false} CStringAll(s: string, from: nat)
    requires from <= |s| && forall i | from <= i < |s| :: s[i] != NUL
    ensures CString(s, from) == s[from..]
    decreases |s| - from
  {
    if from < |s| {
      CStringAll(s, from + 1);
    }
  }

  lemma ReadDatum(dat: string, r: Rec)
    requires ExtentOk(dat, r)
    ensures ReadData(dat, r.datoff, r.datlen) == Returned(Datum(dat, r))
  {
    var s := dat[r.datoff..r.datoff + r.datlen - 1];
    assert forall i | 0 <= i < |s| :: s[i] in s;
    CStringAll(s, 0);
  }

  /** What the record at x holds, in a data file where its extent is well-formed */
  ghost function DatumAt(dat: string, recs: map<int, Rec>, x: int): string {
    if x in recs && ExtentOk(dat, recs[x]) then Datum(dat, recs[x]) else ""
  }

  /** The abstract database: each key on a chain with its data. */
  ghost function Contents(recs: map<int, Rec>, loc: map<string, int>, dat: string): map<string, string> {
    map key | key in loc :: DatumAt(dat, recs, loc[key])
  }

  lemma ExtentKept(dat: string, r: Rec, off: int, b: string)
    requires ExtentOk(dat, r) && 0 <= off <= |dat|
    requires r.datoff + r.datlen <= off || off + |b| <= r.datoff
    ensures ExtentOk(WriteAt(dat, off, b), r) && Datum(WriteAt(dat, off, b), r) == Datum(dat, r)
  {
    WriteFrame(dat, off, b, r.datoff, r.datoff + r.datlen - 1);
    WriteFrame(dat, off, b, r.datoff + r.datlen - 1, r.datoff + r.datlen);
    assert WriteAt(dat, off, b)[r.datoff + r.datlen - 1..r.datoff + r.datlen][0] == NEWLINE;
  }

  /** Overwriting one extent with data of the same length changes that datum alone. */
  lemma Overwrite(dat: string, recs: map<int, Rec>, x: int, data: string)
    requires ExtentsOk(dat, recs) && x in recs && |data| + 1 == recs[x].datlen && NUL !in data
    ensures var out := WriteAt(dat, recs[x].datoff, data + [NEWLINE]);
            && |out| == |dat| && ExtentsOk(out, recs)
            && Datum(out, recs[x]) == data
            && (forall y | y in recs && y != x :: Datum(out, recs[y]) == Datum(dat, recs[y]))
  {
    var off := recs[x].datoff;
    var b := data + [NEWLINE];
    var out := WriteAt(dat, off, b);
    assert out[off..off + |b|] == b;
    assert out[off..off + |data|] == b[..|data|] == data;
    forall y | y in recs ensures ExtentOk(out, recs[y]) && (y != x ==> Datum(out, recs[y]) == Datum(dat, recs[y])) {
      assert ExtentOk(dat, recs[y]);
      if y != x {
        assert Apart(recs[x], recs[y]);
        ExtentKept(dat, recs[y], off, b);
      }
    }
  }

  /** Appending leaves every extent as it was; the new one is apart from all of them. */
  lemma Append(dat: string, recs: map<int, Rec>, x: int, key: string, data: string)
    requires ExtentsOk(dat, recs) && NUL !in data && x !in recs
    ensures var out, r := WriteAt(dat, |dat|, data + [NEWLINE]), Rec(key, |dat|, |data| + 1);
            && ExtentsOk(out, recs) && ExtentsOk(out, recs[x := r])
            && (forall y | y in recs :: Datum(out, recs[y]) == Datum(dat, recs[y]))
            && Datum(out, r) == data
  {
    var b := data + [NEWLINE];
    var out, r := WriteAt(dat, |dat|, b), Rec(key, |dat|, |data| + 1);
    assert out == dat + b;
    assert out[|dat|..|dat| + |data|] == data;
    forall y | y in recs ensures ExtentOk(out, recs[y]) && Datum(out, recs[y]) == Datum(dat, recs[y]) {
      assert ExtentOk(dat, recs[y]);
      ExtentKept(dat, recs[y], |dat|, b);
    }
    var more := recs[x := r];
    forall y, z | y in more && z in more && y != z ensures Apart(more[y], more[z]) {
      if y != x { assert ExtentOk(dat, recs[y]); }
      if z != x { assert ExtentOk(dat, recs[z]); }
      if y != x && z != x { assert Apart(recs[y], recs[z]); }
    }
  }

  /** Extents depend on where the records' data is, not on their keys. */
  lemma Rekey(dat: string, recs: map<int, Rec>, x: int, r: Rec)
    requires ExtentsOk(dat, recs) && x in recs
    requires r.datoff == recs[x].datoff && r.datlen == recs[x].datlen
    ensures ExtentsOk(dat, recs[x := r])
  {
    var out := recs[x := r];
    forall y, z | y in out && z in out && y != z ensures Apart(out[y], out[z]) {
      assert Apart(recs[y], recs[z]);
    }
    assert ExtentOk(dat, recs[x]);
  }
}
