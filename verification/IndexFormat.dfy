/** The text of one index record and the parsing of it back, with every sanity
    check the library makes while it parses. */
module IndexFormat {
  import opened Common
  import opened Decimal

  const IDXLEN_SZ := 4
  const PTR_SZ := 7
  const PTR_MAX := 9999999
  const FREE_OFF := 0
  const PREFIX_SZ := PTR_SZ + IDXLEN_SZ
  const IDXLEN_MIN := 6
  const IDXLEN_MAX := 1024
  const DATLEN_MIN := 2
  const DATLEN_MAX := 1024
  const SEP := ':'
  const SPACE := ' '
  const NEWLINE := '\n'

  /** The sizes and limits of the format, and the characters that delimit its fields */
  lemma Limits()
    ensures PTR_SZ == 7 && IDXLEN_SZ == 4 && FREE_OFF == 0 && PTR_MAX == 9999999
    ensures IDXLEN_MIN == 6 && IDXLEN_MAX == 1024 && DATLEN_MIN == 2 && DATLEN_MAX == 1024
    ensures SEP == ':' && SPACE == ' ' && NEWLINE == '\n'
  {
  }

  /** What an index record says about its data record; the chain pointer in front
      of it is kept apart (IndexFile.Index.ptrs). */
  datatype Rec = Rec(key: string, datoff: int, datlen: int)

  /** The record as it stands in the buffer after the separators became NULs. */
  datatype Parsed = Parsed(buf: string, datoff: int, datlen: int)

  datatype ParsedRecord = ParsedRecord(ptrval: int, idxlen: int, body: Parsed)

  /** A key is a C string. */
  predicate KeyOk(key: string) {
    NUL !in key
  }

  /** The format has no way to quote the separator, so not every key can be read back. */
  predicate Readable(key: string) {
    NUL !in key && SEP !in key
  }

  predicate AllBlank(s: string) {
    forall i | 0 <= i < |s| :: s[i] == SPACE
  }

  function BodyLen(r: Rec): nat {
    |r.key| + |Digits(r.datoff)| + |Digits(r.datlen)| + 3
  }

  /** The formatted record: key, data offset, data length */
  function Body(r: Rec): (s: string)
    ensures |s| == BodyLen(r)
  {
    Line(r.key, Digits(r.datoff), Digits(r.datlen), SEP, SEP, NEWLINE)
  }

  function RecSize(r: Rec): nat {
    PREFIX_SZ + BodyLen(r)
  }

  /** The lengths the library accepts for a record it writes or reads. */
  predicate RecOk(r: Rec) {
    && KeyOk(r.key)
    && 0 <= r.datoff
    && IDXLEN_MIN <= BodyLen(r) <= IDXLEN_MAX
    && 1 <= r.datlen <= DATLEN_MAX
  }

  function Prefix(ptrval: int, r: Rec): string {
    Padded(PTR_SZ, ptrval) + Padded(IDXLEN_SZ, BodyLen(r))
  }

  function Encode(ptrval: int, r: Rec): string {
    Prefix(ptrval, r) + Body(r)
  }

  /** strchr() from position `from`: the first c before the terminating NUL, or -1 */
  function StrChr(s: string, from: nat, c: char): (r: int)
    requires from <= |s|
    ensures r == -1 || from <= r < |s|
    decreases |s| - from
  {
    if from == |s| || s[from] == NUL then -1
    else if s[from] == c then from
    else StrChr(s, from + 1, c)
  }

  /** The C string that starts at position `from` of a buffer */
  function CString(s: string, from: nat): (t: string)
    requires from <= |s|
    decreases |s| - from
  {
    if from == |s| || s[from] == NUL then [] else [s[from]] + CString(s, from + 1)
  }

  /** The second half of _db_readidx, on the bytes that follow the length field;
      None where the library calls err_dump. */
  function ParseBody(buf: string): Option<Parsed>
    requires |buf| > 0
  {
    if buf[|buf| - 1] != NEWLINE then None
    else
      var b0 := buf[|buf| - 1 := NUL];
      var p1 := StrChr(b0, 0, SEP);
      if p1 < 0 then None
      else
        var b1 := b0[p1 := NUL];
        var p2 := StrChr(b1, p1 + 1, SEP);
        if p2 < 0 then None
        else
          var b2 := b1[p2 := NUL];
          var datoff := Atol(CString(b2, p1 + 1));
          var datlen := Atol(CString(b2, p2 + 1));
          if StrChr(b2, p2 + 1, SEP) >= 0 || datoff < 0 || datlen <= 0 || datlen > DATLEN_MAX then None
          else Some(Parsed(b2, datoff, datlen))
  }

  /** _db_readidx on the bytes of the index file */
  function ParseRecord(idx: string, off: int): Option<ParsedRecord> {
    if off < 0 || off + PREFIX_SZ > |idx| then None
    else
      var ptrval := Atol(idx[off..off + PTR_SZ]);
      var idxlen := Atol(idx[off + PTR_SZ..off + PREFIX_SZ]);
      if idxlen < IDXLEN_MIN || idxlen > IDXLEN_MAX || off + PREFIX_SZ + idxlen > |idx| then None
      else
        match ParseBody(idx[off + PREFIX_SZ..off + PREFIX_SZ + idxlen])
        case None => None
        case Some(p) => Some(ParsedRecord(ptrval, idxlen, p))
  }

  // ---------- the hash function ----------

  /** char is signed on the platforms the library is built for. */
  function SignedChar(c: char): int {
    if c as int >= 128 then c as int - 256 else c as int
  }

  const ULONG := 0x1_0000_0000_0000_0000

  /** The unsigned long accumulated over the first n characters of the key */
  function HashPrefix(key: string, n: nat): (h: nat)
    requires n <= |key|
    ensures h < ULONG
  {
    if n == 0 then 0 else (HashPrefix(key, n - 1) + SignedChar(key[n - 1]) * n) % ULONG
  }

  function Hash(key: string, nhash: nat): (h: nat)
    requires nhash > 0
    ensures h < nhash
  {
    HashPrefix(key, |key|) % nhash
  }

  /** The sum of the characters, each times its position counted from 1 */
  function Weighted(key: string, n: nat): int
    requires n <= |key|
  {
    if n == 0 then 0 else Weighted(key, n - 1) + SignedChar(key[n - 1]) * n
  }

  lemma ModAdd(a: int, b: int)
    ensures (a % 0x1_0000_0000_0000_0000 + b) % 0x1_0000_0000_0000_0000 == (a + b) % 0x1_0000_0000_0000_0000
  {
  }

  /** The accumulation that wraps at every step gives the wrapped sum. */
  lemma {:induction false} HashPrefixIsSum(key: string, n: nat)
    requires n <= |key|
    ensures HashPrefix(key, n) == Weighted(key, n) % ULONG
  {
    if n > 0 {
      HashPrefixIsSum(key, n - 1);
      ModAdd(Weighted(key, n - 1), SignedChar(key[n - 1]) * n);
    }
  }

  /** The chain of a key: the sum of its characters as signed bytes, each times its position
      counted from 1, wrapped to 64 bits, modulo the number of chains */
  lemma HashIsSum(key: string, nhash: nat)
    requires nhash > 0
    ensures Weighted(key, 0) == 0
    ensures forall i | 0 <= i < |key| ::
              Weighted(key, i + 1) == Weighted(key, i) +
                                      (if key[i] as int < 128 then key[i] as int else key[i] as int - 256) * (i + 1)
    ensures Hash(key, nhash) == Weighted(key, |key|) % 0x1_0000_0000_0000_0000 % nhash
    ensures Hash(key, nhash) < nhash
  {
    HashPrefixIsSum(key, |key|);
    forall i | 0 <= i < |key|
      ensures Weighted(key, i + 1) == Weighted(key, i) +
                                      (if key[i] as int < 128 then key[i] as int else key[i] as int - 256) * (i + 1)
    {
      assert SignedChar(key[i]) == if key[i] as int < 128 then key[i] as int else key[i] as int - 256;
    }
  }

  // ---------- lemmas ----------

  lemma {:induction false} StrChrFinds(s: string, from: nat, p: nat, c: char)
    requires from <= p < |s| && s[p] == c && c != NUL
    requires forall i | from <= i < p :: s[i] != c && s[i] != NUL
    ensures StrChr(s, from, c) == p
    decreases p - from
  {
    if from < p {
      StrChrFinds(s, from + 1, p, c);
    }
  }

  lemma {:induction false} StrChrMisses(s: string, from: nat, p: nat, c: char)
    requires from <= p < |s| && s[p] == NUL
    requires forall i | from <= i < p :: s[i] != c
    ensures StrChr(s, from, c) == -1
    decreases p - from
  {
    if from < p {
      StrChrMisses(s, from + 1, p, c);
    }
  }

  lemma {:induction false} CStringUpTo(s: string, from: nat, p: nat)
    requires from <= p < |s| && s[p] == NUL
    requires forall i | from <= i < p :: s[i] != NUL
    ensures CString(s, from) == s[from..p]
    decreases p - from
  {
    if from < p {
      CStringUpTo(s, from + 1, p);
    }
  }

  function Line(k: string, d: string, l: string, sep1: char, sep2: char, end: char): string {
    k + [sep1] + d + [sep2] + l + [end]
  }

  lemma LineUpdates(k: string, d: string, l: string, a: char, b: char, c: char)
    ensures var s := Line(k, d, l, a, b, c);
            var p1, p2, e := |k|, |k| + 1 + |d|, |k| + |d| + |l| + 2;
            && |s| == e + 1 && s[p1] == a && s[p2] == b && s[e] == c
            && s[e := NUL] == Line(k, d, l, a, b, NUL)
            && s[p1 := NUL] == Line(k, d, l, NUL, b, c)
            && s[p2 := NUL] == Line(k, d, l, a, NUL, c)
  {
  }

  /** If there is a separator before any NUL, strchr finds one no later. */
  lemma {:induction false} StrChrFindsBy(s: string, from: nat, w: nat, c: char)
    requires from <= w < |s| && s[w] == c && c != NUL
    requires forall i | from <= i < w :: s[i] != NUL
    ensures from <= StrChr(s, from, c) <= w
    decreases w - from
  {
    if s[from] != c {
      StrChrFindsBy(s, from + 1, w, c);
    }
  }

  lemma {:induction false} CStringPrefix(s: string, from: nat, p: nat)
    requires from <= p < |s| && s[p] == NUL && |CString(s, from)| == p - from
    ensures CString(s, from) == s[from..p]
    decreases p - from
  {
    if from < p {
      CStringPrefix(s, from + 1, p);
    }
  }

  lemma {:induction false} FieldEnd(a: string, f: string, z: string, c: char)
    requires c != NUL && c !in f && NUL !in f && |z| > 0 && z[0] == c
    ensures StrChr(a + f + z, |a|, c) == |a| + |f|
  {
    var s := a + f + z;
    forall i | |a| <= i < |a| + |f| ensures s[i] != c && s[i] != NUL {
      assert s[i] == f[i - |a|] && f[i - |a|] in f;
    }
    StrChrFinds(s, |a|, |a| + |f|, c);
  }

  lemma {:induction false} NoSeparator(a: string, f: string, c: char)
    requires c !in f
    ensures StrChr(a + f + [NUL], |a|, c) == -1
  {
    var s := a + f + [NUL];
    forall i | |a| <= i < |a| + |f| ensures s[i] != c {
      assert s[i] == f[i - |a|] && f[i - |a|] in f;
    }
    StrChrMisses(s, |a|, |a| + |f|, c);
  }

  lemma {:induction false} FieldString(a: string, f: string, z: string)
    requires NUL !in f && |z| > 0 && z[0] == NUL
    ensures CString(a + f + z, |a|) == f
  {
    var s := a + f + z;
    forall i | |a| <= i < |a| + |f| ensures s[i] != NUL {
      assert s[i] == f[i - |a|] && f[i - |a|] in f;
    }
    CStringUpTo(s, |a|, |a| + |f|);
    assert s[|a|..|a| + |f|] == f;
  }

  lemma LineSplits(k: string, d: string, l: string, a: char, b: char, c: char)
    ensures Line(k, d, l, a, b, c) == [] + k + ([a] + d + [b] + l + [c])
    ensures Line(k, d, l, a, b, c) == (k + [a]) + d + ([b] + l + [c])
    ensures Line(k, d, l, a, b, c) == (k + [a] + d + [b]) + l + [c]
    ensures |k + [a]| == |k| + 1 && |k + [a] + d + [b]| == |k| + |d| + 2
  {
  }

  lemma Separators(k: string, d: string, l: string)
    requires Readable(k) && Readable(d) && Readable(l)
    ensures StrChr(Line(k, d, l, SEP, SEP, NUL), 0, SEP) == |k|
    ensures StrChr(Line(k, d, l, NUL, SEP, NUL), |k| + 1, SEP) == |k| + 1 + |d|
    ensures StrChr(Line(k, d, l, NUL, NUL, NUL), |k| + |d| + 2, SEP) == -1
  {
    LineSplits(k, d, l, SEP, SEP, NUL);
    FieldEnd([], k, [SEP] + d + [SEP] + l + [NUL], SEP);
    LineSplits(k, d, l, NUL, SEP, NUL);
    FieldEnd(k + [NUL], d, [SEP] + l + [NUL], SEP);
    LineSplits(k, d, l, NUL, NUL, NUL);
    NoSeparator(k + [NUL] + d + [NUL], l, SEP);
  }

  lemma FieldStrings(k: string, d: string, l: string)
    requires NUL !in k && NUL !in d && NUL !in l
    ensures var s := Line(k, d, l, NUL, NUL, NUL);
            CString(s, 0) == k && CString(s, |k| + 1) == d && CString(s, |k| + |d| + 2) == l
  {
    LineSplits(k, d, l, NUL, NUL, NUL);
    FieldString([], k, [NUL] + d + [NUL] + l + [NUL]);
    FieldString(k + [NUL], d, [NUL] + l + [NUL]);
    FieldString(k + [NUL] + d + [NUL], l, [NUL]);
  }

  lemma DigitsAreClean(n: nat)
    ensures Readable(Digits(n))
  {
    DigitsAreDigits(n);
    var s := Digits(n);
    assert forall c | c in s :: IsDigit(c);
  }

  lemma ParseSteps(buf: string, b0: string, b1: string, b2: string, p1: nat, p2: nat)
    requires |buf| > 0 && buf[|buf| - 1] == NEWLINE && b0 == buf[|buf| - 1 := NUL]
    requires p1 < p2 < |buf|
    requires StrChr(b0, 0, SEP) == p1 && b1 == b0[p1 := NUL]
    requires StrChr(b1, p1 + 1, SEP) == p2 && b2 == b1[p2 := NUL]
    requires StrChr(b2, p2 + 1, SEP) == -1
    requires 0 <= Atol(CString(b2, p1 + 1)) && 1 <= Atol(CString(b2, p2 + 1)) <= DATLEN_MAX
    ensures ParseBody(buf) ==
            Some(Parsed(b2, Atol(CString(b2, p1 + 1)), Atol(CString(b2, p2 + 1))))
  {
  }

  lemma ParseLine(k: string, d: string, l: string)
    requires Readable(k) && Readable(d) && Readable(l)
    requires 0 <= Atol(d) && 1 <= Atol(l) <= DATLEN_MAX
    ensures ParseBody(Line(k, d, l, SEP, SEP, NEWLINE)) ==
            Some(Parsed(Line(k, d, l, NUL, NUL, NUL), Atol(d), Atol(l)))
  {
    LineUpdates(k, d, l, SEP, SEP, NEWLINE);
    LineUpdates(k, d, l, SEP, SEP, NUL);
    LineUpdates(k, d, l, NUL, SEP, NUL);
    Separators(k, d, l);
    FieldStrings(k, d, l);
    ParseSteps(Line(k, d, l, SEP, SEP, NEWLINE), Line(k, d, l, SEP, SEP, NUL), Line(k, d, l, NUL, SEP, NUL),
               Line(k, d, l, NUL, NUL, NUL), |k|, |k| + 1 + |d|);
  }

  /** The record buffer after the three terminators have been put in */
  function Split(r: Rec): string {
    Line(r.key, Digits(r.datoff), Digits(r.datlen), NUL, NUL, NUL)
  }

  lemma SplitKey(r: Rec)
    ensures |r.key| < |Split(r)| && Split(r)[|r.key|] == NUL
  {
  }

  /** Reading back the body of a record just formatted yields its key, data offset
      and data length: no err_dump branch of _db_readidx is taken. */
  lemma BodyRoundTrip(r: Rec)
    requires Readable(r.key) && 0 <= r.datoff && 1 <= r.datlen <= DATLEN_MAX
    ensures ParseBody(Body(r)) == Some(Parsed(Split(r), r.datoff, r.datlen))
    ensures CString(Split(r), 0) == r.key
  {
    var d, l := Digits(r.datoff), Digits(r.datlen);
    DigitsAreClean(r.datoff);
    DigitsAreClean(r.datlen);
    AtolOfDigits(r.datoff);
    AtolOfDigits(r.datlen);
    ParseLine(r.key, d, l);
    FieldStrings(r.key, d, l);
  }

  /** The parts of a body that is split are its key and its numbers, whatever the key. */
  lemma KeyBack(r: Rec)
    requires NUL !in r.key && 0 <= r.datoff && 0 <= r.datlen
    ensures CString(Split(r), 0) == r.key
  {
    DigitsAreClean(r.datoff);
    DigitsAreClean(r.datlen);
    FieldStrings(r.key, Digits(r.datoff), Digits(r.datlen));
  }

  lemma LineNoNul(k: string, d: string, l: string, i: int)
    requires NUL !in k && NUL !in d && NUL !in l && 0 <= i < |k| + |d| + |l| + 2
    ensures Line(k, d, l, SEP, SEP, NUL)[i] != NUL
  {
    if i < |k| { assert k[i] in k; }
    else if |k| < i < |k| + 1 + |d| { assert d[i - |k| - 1] in d; }
    else if |k| + 1 + |d| < i { assert l[i - |k| - |d| - 2] in l; }
  }

  /** Three separators before the terminating NUL: the third is found after the first
      two have been replaced. */
  lemma ThreeSeparators(b0: string, q: nat, r: nat, t: nat)
    requires q < r < t < |b0| && b0[q] == SEP && b0[r] == SEP && b0[t] == SEP
    requires forall i | 0 <= i <= t :: b0[i] != NUL
    ensures 0 <= StrChr(b0, 0, SEP) <= q
    ensures var p1 := StrChr(b0, 0, SEP); var b1 := b0[p1 := NUL]; var p2 := StrChr(b1, p1 + 1, SEP);
            p1 < p2 <= r && StrChr(b1[p2 := NUL], p2 + 1, SEP) >= 0
  {
    StrChrFindsBy(b0, 0, q, SEP);
    var p1 := StrChr(b0, 0, SEP);
    var b1 := b0[p1 := NUL];
    StrChrFindsBy(b1, p1 + 1, r, SEP);
    var p2 := StrChr(b1, p1 + 1, SEP);
    StrChrFindsBy(b1[p2 := NUL], p2 + 1, t, SEP);
  }

  /** With a separator in the key the line has three, and the parser refuses it. */
  lemma TooManySeparators(k: string, d: string, l: string)
    requires NUL !in k && SEP in k && NUL !in d && NUL !in l
    ensures ParseBody(Line(k, d, l, SEP, SEP, NEWLINE)) == None
  {
    hide CString, Atol, StrChr;
    LineUpdates(k, d, l, SEP, SEP, NEWLINE);
    LineUpdates(k, d, l, SEP, SEP, NUL);
    var b0 := Line(k, d, l, SEP, SEP, NUL);
    forall i | 0 <= i < |b0| - 1 ensures b0[i] != NUL {
      LineNoNul(k, d, l, i);
    }
    var q :| 0 <= q < |k| && k[q] == SEP;
    assert b0[q] == SEP;
    ThreeSeparators(b0, q, |k|, |k| + 1 + |d|);
  }

  /** A record can be read back exactly when its key contains no separator: db_store
      accepts any key, but one with a ':' leaves a record that every later walk of its
      chain that comes to it refuses to read. */
  lemma ReadableIffNoSeparator(r: Rec)
    requires NUL !in r.key && 0 <= r.datoff && 1 <= r.datlen <= DATLEN_MAX
    ensures ParseBody(Body(r)).Some? <==> SEP !in r.key
  {
    DigitsAreClean(r.datoff);
    DigitsAreClean(r.datlen);
    if SEP in r.key {
      TooManySeparators(r.key, Digits(r.datoff), Digits(r.datlen));
    } else {
      BodyRoundTrip(r);
    }
  }

  lemma BodyText(r: Rec)
    requires RecOk(r)
    ensures ParseBody(Body(r)) == if SEP in r.key then None else Some(Parsed(Split(r), r.datoff, r.datlen))
    ensures CString(Split(r), 0) == r.key
  {
    ReadableIffNoSeparator(r);
    KeyBack(r);
    if SEP !in r.key {
      BodyRoundTrip(r);
    }
  }

  /** A chain pointer always fills its field exactly. */
  lemma PtrWidth(v: int)
    requires 0 <= v <= PTR_MAX
    ensures |Padded(PTR_SZ, v)| == PTR_SZ
  {
    assert Pow10(7) == 10000000 by {
      assert Pow10(0) == 1 && Pow10(1) == 10 && Pow10(2) == 100 && Pow10(3) == 1000;
      assert Pow10(4) == 10000 && Pow10(5) == 100000 && Pow10(6) == 1000000;
    }
    PaddedWidth(PTR_SZ, v);
  }

  /** A record as _db_writeidx formats it */
  lemma Formatted(ptrval: int, r: Rec)
    ensures Body(r) == r.key + ":" + Digits(r.datoff) + ":" + Digits(r.datlen) + "\n"
    ensures Encode(ptrval, r) == Padded(7, ptrval) + Padded(4, |Body(r)|) + Body(r)
  {
  }

  /** The record with key Alpha whose data, five characters and the newline, start the data
      file, and which record 53 follows on the chain */
  lemma Sample()
    ensures Encode(53, Rec("Alpha", 0, 6)) == "     53  10Alpha:0:6\n"
  {
    assert Digits(0) == "0" && Digits(6) == "6" && Digits(5) == "5" && Digits(1) == "1";
    assert Digits(53) == "53" && Digits(10) == "10";
    assert Spaces(5) == "     " && Spaces(2) == "  ";
  }

  // ---------- which bytes are a record ----------

  lemma {:induction false} CStringIs(s: string, from: nat)
    requires from <= |s|
    ensures var n := |CString(s, from)|;
            && from + n <= |s| && CString(s, from) == s[from..from + n] && NUL !in CString(s, from)
            && (from + n < |s| ==> s[from + n] == NUL)
    decreases |s| - from
  {
    if from < |s| && s[from] != NUL {
      CStringIs(s, from + 1);
    }
  }

  lemma {:induction false} StrChrIs(s: string, from: nat, c: char)
    requires from <= |s| && c != NUL
    ensures var r := StrChr(s, from, c);
            if r < 0 then c !in CString(s, from)
            else r < |s| && s[r] == c && forall i | from <= i < r :: s[i] != c && s[i] != NUL
    decreases |s| - from
  {
    if from < |s| && s[from] != NUL && s[from] != c {
      StrChrIs(s, from + 1, c);
    }
  }

  lemma {:induction false} CStringBehind(a: string, l: string, from: nat)
    requires from <= |l|
    ensures CString(a + l + [NUL], |a| + from) == CString(l, from)
    decreases |l| - from
  {
    var s := a + l + [NUL];
    assert s[|a| + from] == if from < |l| then l[from] else NUL;
    if from < |l| {
      CStringBehind(a, l, from + 1);
    }
  }

  /** A line of three fields: neither key nor offset has a separator or a NUL, the length has
      no separator before a NUL, and the numbers are in range. */
  ghost predicate ThreeFields(line: string, k: string, d: string, l: string) {
    && line == k + ":" + d + ":" + l + "\n"
    && ':' !in k && NUL !in k && ':' !in d && NUL !in d && ':' !in CString(l, 0)
    && 0 <= Atol(d) && 1 <= Atol(CString(l, 0)) <= 1024
  }

  /** Whatever has three fields is read as they say ... */
  lemma FieldsAreRead(line: string, k: string, d: string, l: string)
    requires ThreeFields(line, k, d, l)
    ensures ParseBody(line) == Some(Parsed(k + [NUL] + d + [NUL] + l + [NUL], Atol(d), Atol(CString(l, 0))))
  {
    hide Atol;
    LineUpdates(k, d, l, SEP, SEP, NEWLINE);
    LineUpdates(k, d, l, SEP, SEP, NUL);
    LineUpdates(k, d, l, NUL, SEP, NUL);
    LineSplits(k, d, l, SEP, SEP, NUL);
    FieldEnd([], k, [SEP] + d + [SEP] + l + [NUL], SEP);
    LineSplits(k, d, l, NUL, SEP, NUL);
    FieldEnd(k + [NUL], d, [SEP] + l + [NUL], SEP);
    LineSplits(k, d, l, NUL, NUL, NUL);
    FieldString(k + [NUL], d, [NUL] + l + [NUL]);
    CStringBehind(k + [NUL] + d + [NUL], l, 0);
    NotThere(k + [NUL] + d + [NUL] + l + [NUL], |k| + |d| + 2, SEP);
    hide CString, StrChr;
    ParseSteps(line, Line(k, d, l, SEP, SEP, NUL), Line(k, d, l, NUL, SEP, NUL), Line(k, d, l, NUL, NUL, NUL),
               |k|, |k| + 1 + |d|);
  }

  lemma {:induction false} NotThere(s: string, from: nat, c: char)
    requires from <= |s| && c != NUL && c !in CString(s, from)
    ensures StrChr(s, from, c) == -1
    decreases |s| - from
  {
    if from < |s| && s[from] != NUL {
      assert CString(s, from)[0] == s[from] && CString(s, from)[1..] == CString(s, from + 1);
      NotThere(s, from + 1, c);
    }
  }

  /** Where the parser has found the separators of a line that it reads */
  ghost predicate FoundAt(line: string, p1: int, p2: int) {
    && |line| > 0 && line[|line| - 1] == NEWLINE && 0 <= p1 < p2 < |line| - 1
    && line[p1] == SEP && line[p2] == SEP
    && (forall i | 0 <= i < p1 :: line[i] != SEP && line[i] != NUL)
    && (forall i | p1 < i < p2 :: line[i] != SEP && line[i] != NUL)
    && var b2 := line[p1 := NUL][p2 := NUL][|line| - 1 := NUL];
       && SEP !in CString(b2, p2 + 1)
       && 0 <= Atol(CString(b2, p1 + 1)) && 1 <= Atol(CString(b2, p2 + 1)) <= DATLEN_MAX
  }

  lemma Positions(line: string) returns (p1: int, p2: int)
    requires |line| > 0 && ParseBody(line).Some?
    ensures FoundAt(line, p1, p2)
  {
    hide Atol, CString, StrChr;
    var b0 := line[|line| - 1 := NUL];
    p1 := StrChr(b0, 0, SEP);
    StrChrIs(b0, 0, SEP);
    var b1 := b0[p1 := NUL];
    p2 := StrChr(b1, p1 + 1, SEP);
    StrChrIs(b1, p1 + 1, SEP);
    var b2 := b1[p2 := NUL];
    StrChrIs(b2, p2 + 1, SEP);
    assert 0 <= p1 < p2 < |line| - 1;
    assert b2 == line[p1 := NUL][p2 := NUL][|line| - 1 := NUL];
    forall i | 0 <= i < p1 ensures line[i] != SEP && line[i] != NUL {
      assert b0[i] == line[i];
    }
    forall i | p1 < i < p2 ensures line[i] != SEP && line[i] != NUL {
      assert b1[i] == line[i];
    }
    assert line[p1] == SEP && line[p2] == SEP;
    assert SEP !in CString(b2, p2 + 1);
    assert 0 <= Atol(CString(b2, p1 + 1)) && 1 <= Atol(CString(b2, p2 + 1)) <= DATLEN_MAX;
  }

  lemma Pieces(line: string, p1: int, p2: int)
    requires 0 <= p1 < p2 < |line| - 1 && line[p1] == SEP && line[p2] == SEP && line[|line| - 1] == NEWLINE
    ensures var k, d, l := line[..p1], line[p1 + 1..p2], line[p2 + 1..|line| - 1];
            && line == k + ":" + d + ":" + l + "\n"
            && line[p1 := NUL][p2 := NUL][|line| - 1 := NUL] == k + [NUL] + d + [NUL] + l + [NUL]
            && line[p1 := NUL][p2 := NUL][|line| - 1 := NUL] == (k + [NUL]) + d + ([NUL] + l + [NUL])
            && |k + [NUL]| == p1 + 1 && |k + [NUL] + d + [NUL]| == p2 + 1
  {
  }

  /** ... and whatever is read has three fields. */
  lemma ReadHasFields(line: string) returns (k: string, d: string, l: string)
    requires |line| > 0 && ParseBody(line).Some?
    ensures ThreeFields(line, k, d, l)
  {
    var p1, p2 := Positions(line);
    hide ParseBody, Atol, StrChr, CString, FoundAt;
    k, d, l := line[..p1], line[p1 + 1..p2], line[p2 + 1..|line| - 1];
    NamesClean(line, p1, p2);
    NumbersThere(line, p1, p2);
  }

  lemma NamesClean(line: string, p1: int, p2: int)
    requires FoundAt(line, p1, p2)
    ensures var k, d, l := line[..p1], line[p1 + 1..p2], line[p2 + 1..|line| - 1];
            && line == k + ":" + d + ":" + l + "\n" && SEP !in k && NUL !in k && SEP !in d && NUL !in d
  {
    hide Atol, CString;
    Pieces(line, p1, p2);
    NoneIn(line, 0, p1, line[..p1]);
    NoneIn(line, p1 + 1, p2, line[p1 + 1..p2]);
  }

  lemma NumbersThere(line: string, p1: int, p2: int)
    requires FoundAt(line, p1, p2)
    ensures var d, l := line[p1 + 1..p2], line[p2 + 1..|line| - 1];
            SEP !in CString(l, 0) && 0 <= Atol(d) && 1 <= Atol(CString(l, 0)) <= DATLEN_MAX
  {
    hide Atol, CString;
    var k, d, l := line[..p1], line[p1 + 1..p2], line[p2 + 1..|line| - 1];
    Pieces(line, p1, p2);
    NoneIn(line, p1 + 1, p2, d);
    FieldString(k + [NUL], d, [NUL] + l + [NUL]);
    CStringBehind(k + [NUL] + d + [NUL], l, 0);
  }

  lemma NoneIn(s: string, from: nat, p: nat, f: string)
    requires from <= p <= |s| && f == s[from..p] && forall i | from <= i < p :: s[i] != SEP && s[i] != NUL
    ensures SEP !in f && NUL !in f
  {
    forall c | c in f ensures c != SEP && c != NUL {
      var i :| 0 <= i < |f| && f[i] == c;
      assert s[from + i] == c;
    }
  }

  /** The bytes at a position are read as a record exactly when there are eleven, the last
      four give a length from 6 to 1024, and as many bytes follow that are read. */
  lemma RecordIs(idx: string, off: int)
    ensures ParseRecord(idx, off).Some? <==>
              && 0 <= off && off + 11 <= |idx| && 6 <= Atol(idx[off + 7..off + 11]) <= 1024
              && off + 11 + Atol(idx[off + 7..off + 11]) <= |idx|
              && ParseBody(idx[off + 11..off + 11 + Atol(idx[off + 7..off + 11])]).Some?
    ensures ParseRecord(idx, off).Some? ==>
              && ParseRecord(idx, off).value.ptrval == Atol(idx[off..off + 7])
              && ParseRecord(idx, off).value.idxlen == Atol(idx[off + 7..off + 11])
              && ParseBody(idx[off + 11..off + 11 + Atol(idx[off + 7..off + 11])]) ==
                 Some(ParseRecord(idx, off).value.body)
  {
    hide Atol, ParseBody;
  }

  /** The fixed-width fields never overflow for the pointers and lengths in use. */
  lemma PrefixWidths(ptrval: int, r: Rec)
    requires 0 <= ptrval <= PTR_MAX && BodyLen(r) <= IDXLEN_MAX
    ensures |Padded(PTR_SZ, ptrval)| == PTR_SZ
    ensures |Padded(IDXLEN_SZ, BodyLen(r))| == IDXLEN_SZ
    ensures |Encode(ptrval, r)| == RecSize(r)
  {
    assert Pow10(4) == 10000 by {
      assert Pow10(0) == 1 && Pow10(1) == 10 && Pow10(2) == 100 && Pow10(3) == 1000;
    }
    PtrWidth(ptrval);
    PaddedWidth(IDXLEN_SZ, BodyLen(r));
  }

  /** The chain pointer field round-trips. */
  lemma PointerRoundTrip(ptrval: int)
    ensures Atol(Padded(PTR_SZ, ptrval)) == ptrval
  {
    AtolOfPadded(PTR_SZ, ptrval);
  }

  lemma EncodedSlices(idx: string, off: int, ptrval: int, r: Rec)
    requires RecOk(r) && 0 <= ptrval <= PTR_MAX
    requires 0 <= off && off + RecSize(r) <= |idx|
    ensures idx[off..off + RecSize(r)] == Encode(ptrval, r) <==>
            && idx[off..off + PTR_SZ] == Padded(PTR_SZ, ptrval)
            && idx[off + PTR_SZ..off + RecSize(r)] == Padded(IDXLEN_SZ, BodyLen(r)) + Body(r)
  {
    PrefixWidths(ptrval, r);
    var e := Encode(ptrval, r);
    var s := idx[off..off + RecSize(r)];
    assert idx[off..off + PTR_SZ] == s[..PTR_SZ];
    assert idx[off + PTR_SZ..off + RecSize(r)] == s[PTR_SZ..];
    assert s == s[..PTR_SZ] + s[PTR_SZ..];
    assert e[..PTR_SZ] == Padded(PTR_SZ, ptrval);
    assert e == Padded(PTR_SZ, ptrval) + (Padded(IDXLEN_SZ, BodyLen(r)) + Body(r));
  }

  lemma ParseFields(idx: string, off: int, n: nat, b: string)
    requires 0 <= off && off + PREFIX_SZ + n <= |idx| && n == |b| && IDXLEN_MIN <= n <= IDXLEN_MAX
    requires Atol(idx[off + PTR_SZ..off + PREFIX_SZ]) == n
    requires idx[off + PREFIX_SZ..off + PREFIX_SZ + n] == b
    ensures ParseRecord(idx, off) ==
            match ParseBody(b) case None => None case Some(p) => Some(ParsedRecord(Atol(idx[off..off + PTR_SZ]), n, p))
  {
  }

  /** What the bytes of a record say, when they can be read */
  function ReadBack(ptrval: int, r: Rec): Option<ParsedRecord> {
    if SEP in r.key then None else Some(ParsedRecord(ptrval, BodyLen(r), Parsed(Split(r), r.datoff, r.datlen)))
  }

  /** A record written anywhere in the index file is read back as it was written, from
      the bytes alone; with a separator in its key it is refused. */
  lemma RecordRoundTrip(idx: string, off: int, ptrval: int, r: Rec)
    requires RecOk(r) && 0 <= ptrval <= PTR_MAX
    requires 0 <= off && off + RecSize(r) <= |idx|
    requires idx[off..off + RecSize(r)] == Encode(ptrval, r)
    ensures ParseRecord(idx, off) == ReadBack(ptrval, r)
    ensures CString(Split(r), 0) == r.key
  {
    hide Digits, Padded, Line, ParseBody, ParseRecord, KeyOk, Atol, CString;
    EncodedSlices(idx, off, ptrval, r);
    RecordFields(idx, off, r);
    AtolOfPadded(PTR_SZ, ptrval);
    AtolOfPadded(IDXLEN_SZ, BodyLen(r));
    BodyText(r);
    ParseFields(idx, off, BodyLen(r), Body(r));
  }

  lemma RecordFields(idx: string, off: int, r: Rec)
    requires RecOk(r) && 0 <= off && off + RecSize(r) <= |idx|
    requires idx[off + PTR_SZ..off + RecSize(r)] == Padded(IDXLEN_SZ, BodyLen(r)) + Body(r)
    ensures idx[off + PTR_SZ..off + PREFIX_SZ] == Padded(IDXLEN_SZ, BodyLen(r))
    ensures idx[off + PREFIX_SZ..off + RecSize(r)] == Body(r)
  {
    PrefixWidths(0, r);
    var s := idx[off + PTR_SZ..off + RecSize(r)];
    assert idx[off + PTR_SZ..off + PREFIX_SZ] == s[..IDXLEN_SZ];
    assert idx[off + PREFIX_SZ..off + RecSize(r)] == s[IDXLEN_SZ..];
  }
}
