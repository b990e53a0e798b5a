/** Copying a file through rot13: block after block, and with asynchronous reads and
    writes that complete in any order. */
module Rot13 {
  import opened Common

  predicate IsAlpha(c: int) {
    'A' as int <= c <= 'Z' as int || 'a' as int <= c <= 'z' as int
  }

  function Translate(c: int): int {
    if IsAlpha(c) then
      if c >= 'n' as int then c - 13
      else if c >= 'a' as int then c + 13
      else if c >= 'N' as int then c - 13
      else c + 13
    else c
  }

  /** A letter goes to the one 13 places on, around the end of the alphabet and in its own
      case; every other byte stays. */
  lemma TranslateIs(c: int)
    ensures 'a' as int <= c <= 'z' as int ==> Translate(c) == 'a' as int + (c - 'a' as int + 13) % 26
    ensures 'A' as int <= c <= 'Z' as int ==> Translate(c) == 'A' as int + (c - 'A' as int + 13) % 26
    ensures !('a' as int <= c <= 'z' as int) && !('A' as int <= c <= 'Z' as int) ==> Translate(c) == c
  {
  }

  function Translated(s: seq<int>): (t: seq<int>)
    ensures |t| == |s|
    ensures forall i | 0 <= i < |s| :: t[i] == Translate(s[i])
  {
    seq(|s|, i requires 0 <= i < |s| => Translate(s[i]))
  }

  lemma TranslatedAdd(s: seq<int>, t: seq<int>)
    ensures Translated(s + t) == Translated(s) + Translated(t)
  {
  }

  /** Running the program on its own output restores the input. */
  lemma TranslatedTwice(s: seq<int>)
    ensures Translated(Translated(s)) == s
  {
    forall i | 0 <= i < |s| ensures Translate(Translate(s[i])) == s[i] {
    }
  }

  /** Letter by letter, what a translated text is */
  lemma TranslatedIs(s: seq<int>)
    ensures |Translated(s)| == |s|
    ensures forall i | 0 <= i < |s| && 'a' as int <= s[i] <= 'z' as int ::
              Translated(s)[i] == 'a' as int + (s[i] - 'a' as int + 13) % 26
    ensures forall i | 0 <= i < |s| && 'A' as int <= s[i] <= 'Z' as int ::
              Translated(s)[i] == 'A' as int + (s[i] - 'A' as int + 13) % 26
    ensures forall i | 0 <= i < |s| && !('a' as int <= s[i] <= 'z' as int)
                            && !('A' as int <= s[i] <= 'Z' as int) :: Translated(s)[i] == s[i]
  {
    forall i | 0 <= i < |s| ensures Translated(s)[i] == Translate(s[i]) {
    }
    forall i | 0 <= i < |s| {
      TranslateIs(s[i]);
    }
  }

  /** The simple program: read a block, translate the buffer in place, write it. */
  method Sequential(input: seq<int>, bsz: nat) returns (out: seq<int>)
    requires bsz > 0
    ensures out == Translated(input) && |out| == |input|
    ensures forall i | 0 <= i < |input| && 'a' as int <= input[i] <= 'z' as int ::
              out[i] == 'a' as int + (input[i] - 'a' as int + 13) % 26
    ensures forall i | 0 <= i < |input| && 'A' as int <= input[i] <= 'Z' as int ::
              out[i] == 'A' as int + (input[i] - 'A' as int + 13) % 26
    ensures forall i | 0 <= i < |input| && !('a' as int <= input[i] <= 'z' as int)
                            && !('A' as int <= input[i] <= 'Z' as int) :: out[i] == input[i]
  {
    hide Translated;
    out := [];
    var pos := 0;
    assert input[..0] == [];
    while pos < |input|
      invariant 0 <= pos <= |input|
      invariant out == Translated(input[..pos])
    {
      var n := Min(bsz, |input| - pos);
      var buf := new int[n](i requires 0 <= i < n && pos + n <= |input| => input[pos + i]);
      assert buf[..] == input[pos..pos + n];
      TranslateBuffer(buf, n);
      TranslatedAdd(input[..pos], input[pos..pos + n]);
      out := out + buf[..];
      assert input[..pos + n] == input[..pos] + input[pos..pos + n];
      pos := pos + n;
    }
    assert input[..pos] == input;
    TranslatedIs(input);
  }

  method TranslateBuffer(buf: array<int>, n: nat)
    requires n == buf.Length
    modifies buf
    ensures buf[..] == Translated(old(buf[..]))
    ensures forall i | 0 <= i < n && 'a' as int <= old(buf[i]) <= 'z' as int ::
              buf[i] == 'a' as int + (old(buf[i]) - 'a' as int + 13) % 26
    ensures forall i | 0 <= i < n && 'A' as int <= old(buf[i]) <= 'Z' as int ::
              buf[i] == 'A' as int + (old(buf[i]) - 'A' as int + 13) % 26
    ensures forall i | 0 <= i < n && !('a' as int <= old(buf[i]) <= 'z' as int)
                            && !('A' as int <= old(buf[i]) <= 'Z' as int) :: buf[i] == old(buf[i])
  {
    for i := 0 to n
      invariant forall j | 0 <= j < i :: buf[j] == Translate(old(buf[j]))
      invariant forall j | i <= j < n :: buf[j] == old(buf[j])
    {
      buf[i] := Translate(buf[i]);
    }
    TranslatedIs(old(buf[..]));
  }

  // ---------- asynchronous I/O ----------

  datatype RwOp = Unused | ReadPending | WritePending

  /** One buffer with its control block: what it is doing, for which part of the file */
  datatype Buf = Buf(op: RwOp, last: bool, offset: int, nbytes: int, data: seq<int>)

  function Zeros(n: nat): (z: seq<int>)
    ensures |z| == n
  {
    seq(n, _ => 0)
  }

  /** A write at an offset, with a hole filled by zeros when it starts past the end */
  function PWrite(out: seq<int>, off: nat, data: seq<int>): (t: seq<int>)
    ensures |t| == if off + |data| > |out| then off + |data| else |out|
    ensures forall j | 0 <= j < |data| :: t[off + j] == data[j]
    ensures forall j | 0 <= j < |out| && (j < off || off + |data| <= j) :: t[j] == out[j]
  {
    var base := if off > |out| then out + Zeros(off - |out|) else out;
    base[..off] + data + if off + |data| < |base| then base[off + |data|..] else []
  }

  /** The block of the input that starts at off */
  function Block(input: seq<int>, off: int, bsz: nat): seq<int>
    requires 0 <= off <= |input|
  {
    input[off..Min(off + bsz, |input|)]
  }

  ghost predicate BufOk(b: Buf, input: seq<int>, off: int, bsz: nat) {
    b.op != Unused ==>
      && 0 <= b.offset < |input| && b.offset + bsz <= off
      && (b.last || b.offset + bsz < |input|)
      && (b.op.WritePending? ==> b.data == Translated(Block(input, b.offset, bsz)) && b.nbytes == |b.data|)
  }

  /** Position j of the file is in the hands of a buffer. */
  ghost predicate InFlight(bufs: seq<Buf>, j: int, bsz: nat) {
    exists i :: 0 <= i < |bufs| && bufs[i].op != Unused && bufs[i].offset <= j < bufs[i].offset + bsz
  }

  ghost predicate Written(out: seq<int>, input: seq<int>, j: int)
    requires 0 <= j < |input|
  {
    j < |out| && out[j] == Translate(input[j])
  }

  function Busy(bufs: seq<Buf>): (n: nat)
    ensures n <= |bufs|
  {
    if |bufs| == 0 then 0 else Busy(bufs[..|bufs| - 1]) + if bufs[|bufs| - 1].op == Unused then 0 else 1
  }

  /** Completions a buffer still needs before it is unused again */
  function Needs(b: Buf): nat {
    match b.op
    case Unused => 0
    case ReadPending => 2
    case WritePending => 1
  }

  function Remaining(bufs: seq<Buf>): nat {
    if |bufs| == 0 then 0 else Remaining(bufs[..|bufs| - 1]) + Needs(bufs[|bufs| - 1])
  }

  function CountTrue(done: seq<bool>): nat {
    if |done| == 0 then 0 else CountTrue(done[..|done| - 1]) + if done[|done| - 1] then 1 else 0
  }

  /** Number of blocks of a file */
  function Blocks(size: int, bsz: nat): nat
    requires bsz > 0
    decreases if size > 0 then size else 0
  {
    if size <= 0 then 0 else 1 + Blocks(size - bsz, bsz)
  }

  /** The state of the copy: everything before off is written or in flight, and the
      buffers in flight are for different blocks. */
  ghost predicate CopyOk(bufs: seq<Buf>, input: seq<int>, out: seq<int>, off: int, bsz: nat) {
    && 0 <= off && |out| <= |input|
    && (forall i | 0 <= i < |bufs| :: BufOk(bufs[i], input, off, bsz))
    && (forall i, k | 0 <= i < k < |bufs| && bufs[i].op != Unused && bufs[k].op != Unused ::
          bufs[i].offset + bsz <= bufs[k].offset || bufs[k].offset + bsz <= bufs[i].offset)
    && (forall j | 0 <= j < |input| && j < off :: InFlight(bufs, j, bsz) || Written(out, input, j))
  }

  ghost predicate Idle(bufs: seq<Buf>) {
    forall i | 0 <= i < |bufs| :: bufs[i].op == Unused
  }

  lemma {:induction false} BusySet(bufs: seq<Buf>, i: int, b: Buf)
    requires 0 <= i < |bufs|
    ensures Busy(bufs[i := b]) == Busy(bufs) - (if bufs[i].op == Unused then 0 else 1) +
            (if b.op == Unused then 0 else 1)
  {
    var n := |bufs| - 1;
    if i < n {
      assert bufs[i := b][..n] == bufs[..n][i := b];
      BusySet(bufs[..n], i, b);
    } else {
      assert bufs[i := b][..n] == bufs[..n];
    }
  }

  lemma {:induction false} RemainingSet(bufs: seq<Buf>, i: int, b: Buf)
    requires 0 <= i < |bufs|
    ensures Remaining(bufs[i := b]) == Remaining(bufs) - Needs(bufs[i]) + Needs(b)
    ensures Remaining(bufs) >= Needs(bufs[i])
  {
    var n := |bufs| - 1;
    if i < n {
      assert bufs[i := b][..n] == bufs[..n][i := b];
      RemainingSet(bufs[..n], i, b);
    } else {
      assert bufs[i := b][..n] == bufs[..n];
    }
  }

  lemma {:induction false} RemainingZero(bufs: seq<Buf>)
    requires Idle(bufs)
    ensures Remaining(bufs) == 0
  {
    if |bufs| > 0 {
      assert bufs[|bufs| - 1].op == Unused;
      RemainingZero(bufs[..|bufs| - 1]);
    }
  }

  lemma {:induction false} BusyZero(bufs: seq<Buf>)
    ensures Busy(bufs) == 0 <==> Idle(bufs)
  {
    if |bufs| > 0 {
      BusyZero(bufs[..|bufs| - 1]);
      if Busy(bufs) == 0 {
        forall i | 0 <= i < |bufs| ensures bufs[i].op == Unused {
          assert i < |bufs| - 1 ==> bufs[..|bufs| - 1][i] == bufs[i];
        }
      }
    }
  }

  lemma Start(bufs: seq<Buf>, input: seq<int>, bsz: nat)
    requires forall i | 0 <= i < |bufs| :: bufs[i].op == Unused
    ensures CopyOk(bufs, input, [], 0, bsz) && Busy(bufs) == 0 && Remaining(bufs) == 0
  {
    BusyZero(bufs);
    RemainingZero(bufs);
  }

  /** What is known of one buffer in flight: a read that comes back short is the last. */
  lemma InHand(bufs: seq<Buf>, input: seq<int>, out: seq<int>, off: int, bsz: nat, i: int)
    requires CopyOk(bufs, input, out, off, bsz) && 0 <= i < |bufs| && bufs[i].op != Unused
    ensures 0 <= off && 0 <= bufs[i].offset < |input|
    ensures |Block(input, bufs[i].offset, bsz)| != bsz ==> bufs[i].last
  {
    assert BufOk(bufs[i], input, off, bsz);
  }

  lemma {:induction false} MoreTrue(done: seq<bool>, n: nat)
    requires n <= |done|
    ensures CountTrue(done[..n]) <= CountTrue(done)
  {
    if n < |done| {
      MoreTrue(done[..|done| - 1], n);
      assert done[..|done| - 1][..n] == done[..n];
    } else {
      assert done[..n] == done;
    }
  }

  lemma CountNext(done: seq<bool>, n: nat)
    requires n < |done|
    ensures CountTrue(done[..n + 1]) == CountTrue(done[..n]) + if done[n] then 1 else 0
  {
    assert done[..n + 1][..n] == done[..n];
  }

  lemma CountNone(done: seq<bool>)
    requires |done| == 0
    ensures CountTrue(done) == 0
  {
  }

  /** The number of blocks is the size divided by the block size, rounded up. */
  lemma {:induction false} BlocksIs(size: int, bsz: nat)
    requires bsz > 0
    ensures Blocks(size, bsz) == if size <= 0 then 0 else (size + bsz - 1) / bsz
    decreases if size > 0 then size else 0
  {
    if size > 0 {
      BlocksIs(size - bsz, bsz);
      if size > bsz {
        OneLess(size + bsz - 1, bsz);
      } else {
        OneLess(size + bsz - 1, bsz);
        assert (size - 1) / bsz == 0 by {
          Small(size - 1, bsz);
        }
      }
    }
  }

  lemma NoBlocks(size: nat, bsz: nat)
    requires bsz > 0
    ensures size == 0 ==> (size + bsz - 1) / bsz == 0
  {
    if size == 0 {
      Small(bsz - 1, bsz);
    }
  }

  lemma OneLess(a: int, b: nat)
    requires 0 < b <= a
    ensures a / b == (a - b) / b + 1
  {
    var q, m := (a - b) / b, (a - b) % b;
    assert a - b == q * b + m && 0 <= m < b;
    Quotient(a, b, q + 1, m);
  }

  lemma Small(a: int, b: nat)
    requires 0 <= a < b
    ensures a / b == 0
  {
  }

  lemma Quotient(a: int, b: nat, q: int, m: int)
    requires b > 0 && a == q * b + m && 0 <= m < b
    ensures a / b == q
  {
    var d := a / b - q;
    assert (a / b) * b + a % b == a;
    assert d * b == m - a % b;
    Factor(d, b);
  }

  lemma Factor(d: int, b: int)
    requires b > 0
    ensures d >= 1 ==> d * b >= b
    ensures d <= -1 ==> d * b <= -b
  {
  }

  lemma {:induction false} CountTrueIs(done: seq<bool>)
    ensures CountTrue(done) == multiset(done)[true]
  {
    if |done| > 0 {
      CountTrueIs(done[..|done| - 1]);
      assert done == done[..|done| - 1] + [done[|done| - 1]];
    }
  }

  lemma BlocksStep(size: int, bsz: nat)
    requires bsz > 0 && size > 0
    ensures Blocks(size, bsz) == 1 + Blocks(size - bsz, bsz)
  {
  }

  lemma BlocksNone(size: int, bsz: nat)
    requires bsz > 0 && size <= 0
    ensures Blocks(size, bsz) == 0
  {
  }

  lemma SomeBusy(bufs: seq<Buf>) returns (i: int)
    requires Busy(bufs) > 0
    ensures 0 <= i < |bufs| && bufs[i].op != Unused
  {
    BusyZero(bufs);
    i :| 0 <= i < |bufs| && bufs[i].op != Unused;
  }

  lemma IdleNone(bufs: seq<Buf>)
    requires |bufs| == 0
    ensures Idle(bufs)
  {
  }

  lemma IdleMore(bufs: seq<Buf>, i: int)
    requires 0 <= i < |bufs| && Idle(bufs[..i]) && bufs[i].op == Unused
    ensures Idle(bufs[..i + 1])
  {
  }

  lemma StartRead(bufs: seq<Buf>, input: seq<int>, out: seq<int>, off: int, bsz: nat, i: int, b: Buf)
    requires CopyOk(bufs, input, out, off, bsz) && bsz > 0 && 0 <= i < |bufs|
    requires bufs[i].op == Unused && off < |input|
    requires b.op == ReadPending && b.offset == off && (b.last || off + bsz < |input|)
    ensures CopyOk(bufs[i := b], input, out, off + bsz, bsz)
  {
    var bufs' := bufs[i := b];
    forall j | 0 <= j < |input| && j < off + bsz ensures InFlight(bufs', j, bsz) || Written(out, input, j) {
      if j >= off {
        assert bufs'[i].offset <= j < bufs'[i].offset + bsz;
      } else if !Written(out, input, j) {
        var k :| 0 <= k < |bufs| && bufs[k].op != Unused && bufs[k].offset <= j < bufs[k].offset + bsz;
        assert bufs'[k] == bufs[k];
      }
    }
  }

  lemma ReadToWrite(bufs: seq<Buf>, input: seq<int>, out: seq<int>, off: int, bsz: nat, i: int, b: Buf)
    requires CopyOk(bufs, input, out, off, bsz) && 0 <= i < |bufs| && bufs[i].op == ReadPending
    requires b.op == WritePending && b.offset == bufs[i].offset && b.last == bufs[i].last
    requires b.data == Translated(Block(input, b.offset, bsz)) && b.nbytes == |b.data|
    ensures CopyOk(bufs[i := b], input, out, off, bsz)
  {
    var bufs' := bufs[i := b];
    forall j | 0 <= j < |input| && j < off ensures InFlight(bufs', j, bsz) || Written(out, input, j) {
      if !Written(out, input, j) {
        var k :| 0 <= k < |bufs| && bufs[k].op != Unused && bufs[k].offset <= j < bufs[k].offset + bsz;
        assert bufs'[k].op != Unused && bufs'[k].offset == bufs[k].offset;
      }
    }
  }

  lemma BlockAt(b: Buf, input: seq<int>, off: int, bsz: nat, j: int)
    requires BufOk(b, input, off, bsz) && b.op == WritePending && 0 <= j < |input|
    ensures 0 <= b.offset && |b.data| <= bsz
    ensures b.offset <= j < b.offset + bsz <==> b.offset <= j < b.offset + |b.data|
    ensures b.offset <= j < b.offset + |b.data| ==> b.data[j - b.offset] == Translate(input[j])
    ensures b.offset + |b.data| <= |input|
  {
  }

  /** A completed write turns its own block from in flight to written and keeps what
      was written elsewhere. */
  lemma WriteDoneAt(bufs: seq<Buf>, input: seq<int>, out: seq<int>, off: int, bsz: nat, i: int, b: Buf, j: int)
    requires 0 <= i < |bufs| && BufOk(bufs[i], input, off, bsz) && bufs[i].op == WritePending && b.op == Unused
    requires 0 <= j < |input| && (InFlight(bufs, j, bsz) || Written(out, input, j))
    ensures 0 <= bufs[i].offset
    ensures InFlight(bufs[i := b], j, bsz) || Written(PWrite(out, bufs[i].offset, bufs[i].data), input, j)
  {
    hide Translated, Block, BufOk, PWrite, Translate;
    var o, data := bufs[i].offset, bufs[i].data;
    BlockAt(bufs[i], input, off, bsz, j);
    if o <= j < o + |data| {
      assert PWrite(out, o, data)[o + (j - o)] == data[j - o];
    } else if !Written(out, input, j) {
      var k :| 0 <= k < |bufs| && bufs[k].op != Unused && bufs[k].offset <= j < bufs[k].offset + bsz;
      assert bufs[i := b][k] == bufs[k];
    }
  }

  lemma WriteDone(bufs: seq<Buf>, input: seq<int>, out: seq<int>, off: int, bsz: nat, i: int, b: Buf)
    requires CopyOk(bufs, input, out, off, bsz) && 0 <= i < |bufs| && bufs[i].op == WritePending && b.op == Unused
    ensures 0 <= bufs[i].offset
    ensures CopyOk(bufs[i := b], input, PWrite(out, bufs[i].offset, bufs[i].data), off, bsz)
  {
    hide PWrite, InFlight, Written, Translated, Block;
    var bufs' := bufs[i := b];
    assert BufOk(bufs[i], input, off, bsz);
    BlockAt(bufs[i], input, off, bsz, bufs[i].offset);
    var out' := PWrite(out, bufs[i].offset, bufs[i].data);
    forall j | 0 <= j < |input| && j < off ensures InFlight(bufs', j, bsz) || Written(out', input, j) {
      WriteDoneAt(bufs, input, out, off, bsz, i, b, j);
    }
  }

  lemma AllWritten(bufs: seq<Buf>, input: seq<int>, out: seq<int>, off: int, bsz: nat)
    requires CopyOk(bufs, input, out, off, bsz) && off >= |input| && Busy(bufs) == 0
    ensures out == Translated(input)
  {
    BusyZero(bufs);
    forall j | 0 <= j < |input| ensures j < |out| && out[j] == Translate(input[j]) {
      assert InFlight(bufs, j, bsz) || Written(out, input, j);
    }
    if |input| > 0 {
      assert Written(out, input, |input| - 1);
    }
  }

  /** The main loop, over the polls that are made */
  method CopyLoop(input: seq<int>, bsz: nat, nbuf: nat, done: seq<bool>) returns (out: seq<int>, finished: bool)
    requires bsz > 0 && nbuf > 0
    ensures finished ==> out == Translated(input)
    ensures finished <==> CountTrue(done) >= 2 * Blocks(|input|, bsz)
  {
    hide CopyOk, Busy, Idle, BufOk, Block, Translated, PWrite, Remaining, CountTrue, Blocks;
    var size := |input|;
    var bufs := new Buf[nbuf](_ => Buf(Unused, false, 0, 0, []));
    var aiolist := new bool[nbuf](_ => false);
    out, finished := [], false;
    var off, numop, polls := 0, 0, 0;
    ghost var issued: int := 0;
    CountNone(done[..0]);
    Start(bufs[..], input, bsz);
    while true
      invariant CopyOk(bufs[..], input, out, off, bsz) && numop == Busy(bufs[..])
      invariant forall i | 0 <= i < nbuf :: aiolist[i] <==> bufs[i].op != Unused
      invariant 0 <= polls <= |done|
      invariant issued + Blocks(size - off, bsz) == Blocks(size, bsz)
      invariant CountTrue(done[..polls]) + Remaining(bufs[..]) == 2 * issued
      decreases |done| - polls + if off < size then size - off else 0
    {
      ghost var off0, polls0 := off, polls;
      IdleNone(bufs[..0]);
      for i := 0 to nbuf
        invariant CopyOk(bufs[..], input, out, off, bsz) && numop == Busy(bufs[..])
        invariant forall k | 0 <= k < nbuf :: aiolist[k] <==> bufs[k].op != Unused
        invariant polls0 <= polls <= |done| && off0 <= off
        invariant issued + Blocks(size - off, bsz) == Blocks(size, bsz)
        invariant CountTrue(done[..polls]) + Remaining(bufs[..]) == 2 * issued
        invariant off == off0 && polls == polls0 ==> (i == 0 || off >= size) && Idle(bufs[..i])
        invariant off != off0 ==> off0 < size && off0 < off
      {
        ghost var before := bufs[..];
        match bufs[i].op
        case Unused =>
          if off < size {
            var b := bufs[i].(op := ReadPending, offset := off);
            if off + bsz >= size {
              b := b.(last := true);
            }
            b := b.(nbytes := bsz);
            StartRead(before, input, out, off, bsz, i, b);
            BusySet(before, i, b);
            RemainingSet(before, i, b);
            BlocksStep(size - off, bsz);
            issued := issued + 1;
            off := off + bsz;
            bufs[i] := b;
            aiolist[i] := true;
            numop := numop + 1;
            assert bufs[..] == before[i := b];
          } else if off == off0 && polls == polls0 {
            assert before[..i] == bufs[..i] && before[..i + 1] == bufs[..i + 1];
            IdleMore(before, i);
          }
        case ReadPending =>
          RemainingSet(before, i, bufs[i]);
          if polls == |done| {
            assert done[..polls] == done;
            return out, false;
          }
          CountNext(done, polls);
          polls := polls + 1;
          if done[polls - 1] {
            InHand(before, input, out, off, bsz, i);
            var data := Block(input, bufs[i].offset, bsz);
            var n := |data|;
            assert !(n != bsz && !bufs[i].last);
            var tr := Translated(data);
            var b := bufs[i].(op := WritePending, nbytes := n, data := tr);
            ReadToWrite(before, input, out, off, bsz, i, b);
            BusySet(before, i, b);
            RemainingSet(before, i, b);
            bufs[i] := b;
            assert bufs[..] == before[i := b];
          }
        case WritePending =>
          RemainingSet(before, i, bufs[i]);
          if polls == |done| {
            assert done[..polls] == done;
            return out, false;
          }
          CountNext(done, polls);
          polls := polls + 1;
          if done[polls - 1] {
            var b := bufs[i].(op := Unused);
            InHand(before, input, out, off, bsz, i);
            WriteDone(before, input, out, off, bsz, i, b);
            BusySet(before, i, b);
            RemainingSet(before, i, b);
            out := PWrite(out, bufs[i].offset, bufs[i].data);
            aiolist[i] := false;
            bufs[i] := b;
            numop := numop - 1;
            assert bufs[..] == before[i := b];
          }
      }
      assert bufs[..nbuf] == bufs[..];
      BusyZero(bufs[..]);
      if numop == 0 {
        if off >= size {
          break;
        }
      } else {
        // aio_suspend: there is an operation to wait for
        ghost var i := SomeBusy(bufs[..]);
        assert aiolist[i];
      }
    }
    AllWritten(bufs[..], input, out, off, bsz);
    BusyZero(bufs[..]);
    RemainingZero(bufs[..]);
    BlocksNone(size - off, bsz);
    MoreTrue(done, polls);
    finished := true;
  }

  /** The asynchronous program.  done[n] is what the n-th aio_error poll finds: the
      operation complete or still in progress.  A run stops unfinished when the list of
      polls is used up; it finishes exactly when the list lets two operations complete
      for each block of the file, in whatever order. */
  method Asynchronous(input: seq<int>, bsz: nat, nbuf: nat, done: seq<bool>) returns (out: seq<int>, finished: bool)
    requires bsz > 0 && nbuf > 0
    ensures finished ==> out == Translated(input) && |out| == |input|
    ensures finished ==> forall i | 0 <= i < |input| && 'a' as int <= input[i] <= 'z' as int ::
              out[i] == 'a' as int + (input[i] - 'a' as int + 13) % 26
    ensures finished ==> forall i | 0 <= i < |input| && 'A' as int <= input[i] <= 'Z' as int ::
              out[i] == 'A' as int + (input[i] - 'A' as int + 13) % 26
    ensures finished ==> forall i | 0 <= i < |input| && !('a' as int <= input[i] <= 'z' as int)
                            && !('A' as int <= input[i] <= 'Z' as int) :: out[i] == input[i]
    ensures finished <==> multiset(done)[true] >= 2 * ((|input| + bsz - 1) / bsz)
  {
    TranslatedIs(input);
    CountTrueIs(done);
    BlocksIs(|input|, bsz);
    NoBlocks(|input|, bsz);
    hide Translated, CountTrue, Blocks;
    out, finished := CopyLoop(input, bsz, nbuf, done);
  }

  /** Both programs copy a file to the same result. */
  method BothWays(input: seq<int>, bsz: nat, nbuf: nat, done: seq<bool>)
    returns (fast: seq<int>, simple: seq<int>, finished: bool)
    requires bsz > 0 && nbuf > 0
    ensures finished ==> fast == simple
  {
    fast, finished := Asynchronous(input, bsz, nbuf, done);
    simple := Sequential(input, bsz);
  }
}
