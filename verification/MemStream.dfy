/** A stream over a memory buffer: fmemopen. */
module MemStream {
  import opened Common

  /** The flag bits of a stream */
  datatype Flags = Flags(read: bool, write: bool, append: bool, truncate: bool)

  const NO_FLAGS := Flags(false, false, false, false)

  // ---------- the type string ----------

  predicate IsModeLetter(c: char) {
    c == 'r' || c == 'w' || c == 'a'
  }

  /** One of r, w, a, followed by any number of + and b */
  predicate TypeOk(kind: string) {
    |kind| > 0 && IsModeLetter(kind[0]) && forall i | 1 <= i < |kind| :: kind[i] == '+' || kind[i] == 'b'
  }

  /** What a legal type string asks for: w writes from scratch, a appends, + adds both
      reading and writing. */
  function Meaning(kind: string): Flags
    requires TypeOk(kind)
  {
    var plus := '+' in kind;
    Flags(kind[0] == 'r' || plus, kind[0] == 'w' || plus, kind[0] == 'a', kind[0] == 'w')
  }

  /** type_to_flags: legal strings get their flags, every other string none. */
  method TypeToFlags(kind: string) returns (flags: Flags)
    ensures flags == if TypeOk(kind) then Meaning(kind) else NO_FLAGS
    ensures flags == NO_FLAGS <==> |kind| == 0 || kind[0] !in "rwa" || exists i :: 1 <= i < |kind| && kind[i] !in "+b"
    ensures flags != NO_FLAGS ==> (flags.read <==> kind[0] == 'r' || '+' in kind)
    ensures flags != NO_FLAGS ==> (flags.write <==> kind[0] == 'w' || '+' in kind)
    ensures flags != NO_FLAGS ==> (flags.append <==> kind[0] == 'a') && (flags.truncate <==> kind[0] == 'w')
  {
    flags := NO_FLAGS;
    var i := 0;
    while i < |kind|
      invariant 0 <= i <= |kind|
      invariant i == 0 ==> flags == NO_FLAGS
      invariant i > 0 ==> TypeOk(kind[..i]) && flags == Meaning(kind[..i])
      decreases |kind| - i
    {
      ghost var before := kind[..i];
      assert kind[..i + 1] == before + [kind[i]];
      match kind[i] {
      case 'r' =>
        if flags != NO_FLAGS { return NO_FLAGS; }
        flags := flags.(read := true);
      case 'w' =>
        if flags != NO_FLAGS { return NO_FLAGS; }
        flags := flags.(write := true, truncate := true);
      case 'a' =>
        if flags != NO_FLAGS { return NO_FLAGS; }
        flags := flags.(append := true);
      case '+' =>
        if flags == NO_FLAGS { return NO_FLAGS; }
        flags := flags.(read := true, write := true);
      case 'b' =>
        if flags == NO_FLAGS { return NO_FLAGS; }
      case _ =>
        return NO_FLAGS;
      }
      i := i + 1;
    }
    assert kind[..i] == kind;
  }

  // ---------- the file a read-and-write stream behaves as ----------

  /** A file of limited size with a position */
  datatype File = File(data: string, pos: int, limit: int, append: bool)

  datatype Whence = SeekSet | SeekCur | SeekEnd

  datatype Op = Read(len: nat) | Write(data: string) | Seek(to: int, whence: Whence)

  datatype Result = Bytes(data: string) | Count(n: int)

  /** data with chunk written over it from position off on */
  function Overlay(data: string, off: int, chunk: string): (r: string)
    requires 0 <= off <= |data|
    ensures |r| == if off + |chunk| < |data| then |data| else off + |chunk|
  {
    data[..off] + chunk + if off + |chunk| < |data| then data[off + |chunk|..] else []
  }

  lemma OverlayAt(data: string, off: int, chunk: string)
    requires 0 <= off <= |data| && off + |chunk| <= |data|
    ensures forall i | 0 <= i < |data| ::
              Overlay(data, off, chunk)[i] == if off <= i < off + |chunk| then chunk[i - off] else data[i]
  {
  }

  predicate FileOk(f: File) {
    0 <= f.pos <= |f.data| <= f.limit
  }

  function FileStep(f: File, op: Op): (r: (File, Result))
    requires FileOk(f)
    ensures FileOk(r.0)
  {
    match op
    case Read(len) =>
      var n := Min(len, |f.data| - f.pos);
      (f.(pos := f.pos + n), Bytes(f.data[f.pos..f.pos + n]))
    case Write(data) =>
      var off := if f.append then |f.data| else f.pos;
      var n := Min(|data|, f.limit - off);
      (f.(data := Overlay(f.data, off, data[..n]), pos := off + n), Count(n))
    case Seek(to, whence) =>
      var off := to + match whence case SeekSet => 0 case SeekCur => f.pos case SeekEnd => |f.data|;
      if off < 0 || off > |f.data| then (f, Count(-1)) else (f.(pos := off), Count(off))
  }

  function FileRun(f: File, ops: seq<Op>): (r: (File, seq<Result>))
    requires FileOk(f)
    ensures FileOk(r.0)
  {
    if |ops| == 0 then (f, [])
    else
      var before := FileRun(f, ops[..|ops| - 1]);
      var last := FileStep(before.0, ops[|ops| - 1]);
      (last.0, before.1 + [last.1])
  }

  lemma RunNext(f: File, ops: seq<Op>, op: Op)
    requires FileOk(f)
    ensures var before := FileRun(f, ops); var last := FileStep(before.0, op);
            FileRun(f, ops + [op]) == (last.0, before.1 + [last.1])
  {
    hide FileStep;
    assert (ops + [op])[..|ops|] == ops;
  }

  lemma RunOne(f: File, op: Op)
    requires FileOk(f)
    ensures FileRun(f, [op]) == (FileStep(f, op).0, [FileStep(f, op).1])
  {
    hide FileStep;
    RunNext(f, [], op);
    assert [] + [op] == [op];
    assert FileRun(f, []) == (f, []);
    assert [] + [FileStep(f, op).1] == [FileStep(f, op).1];
  }

  lemma RunTwo(f: File, a: Op, b: Op)
    requires FileOk(f)
    ensures var s := FileStep(f, a); var t := FileStep(s.0, b); FileRun(f, [a, b]) == (t.0, [s.1, t.1])
  {
    hide FileStep, FileRun;
    RunOne(f, a);
    RunNext(f, [a], b);
    assert [a] + [b] == [a, b];
    var s := FileStep(f, a);
    assert [s.1] + [FileStep(s.0, b).1] == [s.1, FileStep(s.0, b).1];
  }

  /** Two reads in a row give what one read of both lengths gives. */
  lemma TwoReads(f: File, m: nat, n: nat)
    requires FileOk(f)
    ensures var two, one := FileRun(f, [Read(m), Read(n)]), FileRun(f, [Read(m + n)]);
            && two.0 == one.0 && |two.1| == 2 && |one.1| == 1
            && two.1[0].Bytes? && two.1[1].Bytes? && one.1[0] == Bytes(two.1[0].data + two.1[1].data)
  {
    hide FileRun;
    RunTwo(f, Read(m), Read(n));
    RunOne(f, Read(m + n));
    TwoSteps(f, m, n);
  }

  lemma TwoSteps(f: File, m: nat, n: nat)
    requires FileOk(f)
    ensures var first, all := FileStep(f, Read(m)), FileStep(f, Read(m + n)); var second := FileStep(first.0, Read(n));
            && second.0 == all.0 && first.1.Bytes? && second.1.Bytes?
            && all.1 == Bytes(first.1.data + second.1.data)
  {
  }

  /** Reading back what was written: a write of which n characters fit, a seek back over them
      and a read give those characters, at the end of the file if it is appended to, else at
      the position. */
  lemma WriteSeekRead(f: File, data: string)
    requires FileOk(f)
    ensures var off := if f.append then |f.data| else f.pos;
            var n := if |data| <= f.limit - off then |data| else f.limit - off;
            FileRun(f, [Write(data), Seek(-n, SeekCur), Read(n)]).1 == [Count(n), Count(off), Bytes(data[..n])]
  {
    hide FileRun, FileStep;
    var off := if f.append then |f.data| else f.pos;
    var n := if |data| <= f.limit - off then |data| else f.limit - off;
    var a, b, c := Op.Write(data), Op.Seek(-n, SeekCur), Op.Read(n);
    RunTwo(f, a, b);
    RunNext(f, [a, b], c);
    assert [a, b] + [c] == [a, b, c];
    Back(f, data, off, n);
  }

  lemma Back(f: File, data: string, off: int, n: int)
    requires FileOk(f) && off == (if f.append then |f.data| else f.pos)
    requires 0 <= n == if |data| <= f.limit - off then |data| else f.limit - off
    ensures var a := FileStep(f, Write(data)); var b := FileStep(a.0, Seek(-n, SeekCur));
            var c := FileStep(b.0, Read(n));
            a.1 == Count(n) && b.1 == Count(off) && c.1 == Bytes(data[..n])
  {
    assert FileStep(f, Write(data)).0.data[off..off + n] == data[..n];
  }

  // ---------- the stream ----------

  /** find_end: the position of the first NUL, or the size */
  method FindEnd(buf: array<char>) returns (off: nat)
    ensures off <= buf.Length && NUL !in buf[..off] && (off < buf.Length ==> buf[off] == NUL)
  {
    off := 0;
    while off < buf.Length
      invariant off <= buf.Length && NUL !in buf[..off]
    {
      if buf[off] == NUL {
        break;
      }
      off := off + 1;
    }
  }

  /** memcpy to position off */
  method Copy(buf: array<char>, off: nat, data: string)
    requires off + |data| <= buf.Length
    modifies buf
    ensures buf[..] == Overlay(old(buf[..]), off, data)
  {
    for i := 0 to |data|
      invariant forall j | 0 <= j < buf.Length :: buf[j] == if off <= j < off + i then data[j - off] else old(buf[j])
    {
      buf[off + i] := data[i];
    }
  }

  /** The buffer with the NULs that mstream_write puts in behind what it has written: in
      write-only modes at the position, or over the last character; else where the file has
      grown, if there is room. */
  function Ended(s: string, f: Flags, pos: int, grown: bool): string
    requires |s| > 0 && 0 <= pos <= |s|
  {
    if !f.read then s[Min(pos, |s| - 1) := NUL]
    else if grown && f.write && pos < |s| then s[pos := NUL]
    else s
  }

  class Stream {
    const buf: array<char>
    const flags: Flags
    var vsize: int
    var curpos: int

    /** The position is inside the virtual size, and that inside the buffer. */
    ghost predicate Valid()
      reads this
    {
      0 <= curpos <= vsize <= buf.Length && buf.Length > 0
    }

    predicate ReadWrite()
    {
      flags.read && flags.write
    }

    /** Open for writing or appending, not for reading */
    predicate WriteOnly()
    {
      (flags.write || flags.append) && !flags.read
    }

    /** What the stream holds, as a file */
    ghost function AsFile(): File
      requires Valid()
      reads this, buf
    {
      File(buf[..vsize], curpos, buf.Length, flags.append)
    }

    /** The state in which fmemopen leaves a stream, given the buffer it uses and, when
        that is the caller's, the position of its first NUL */
    constructor (buf: array<char>, flags: Flags, callers: bool, end: nat)
      requires buf.Length > 0 && end <= buf.Length
      ensures Valid() && this.buf == buf && this.flags == flags
      ensures curpos == if flags.append && callers then end else 0
      ensures vsize == if flags.append then curpos else if flags.truncate then 0 else buf.Length
    {
      this.buf, this.flags := buf, flags;
      var pos := if flags.append && callers then end else 0;
      curpos := pos;
      vsize := if flags.append then pos else if flags.truncate then 0 else buf.Length;
    }

    /** mstream_read */
    method Read(len: nat) returns (nr: int, data: string)
      requires Valid()
      modifies this`curpos
      ensures Valid()
      ensures !flags.read ==> nr == -1 && curpos == old(curpos)
      ensures flags.read ==>
                && nr == (if len <= vsize - old(curpos) then len else vsize - old(curpos))
                && data == buf[old(curpos)..old(curpos) + nr] && curpos == old(curpos) + nr
      ensures flags.read ==> (AsFile(), Bytes(data)) == FileStep(old(AsFile()), Op.Read(len))
    {
      data := "";
      if !flags.read {
        return -1, data;
      }
      if curpos >= vsize {
        assert buf[..vsize][curpos..curpos] == data;
        return 0, data;
      }
      nr := Min(len, vsize - curpos);
      data := buf[curpos..curpos + nr];
      assert buf[..vsize][curpos..curpos + nr] == data;
      curpos := curpos + nr;
    }

    /** mstream_write: memcpy into the buffer, then the terminating NULs */
    method Write(data: string) returns (nw: int)
      requires Valid()
      modifies this`curpos, this`vsize, buf
      ensures Valid()
      ensures !flags.write && !flags.append ==> nw == -1 && unchanged(this) && buf[..] == old(buf[..])
      ensures flags.write || flags.append ==>
                var off := if flags.append then old(vsize) else old(curpos);
                && nw == Min(|data|, buf.Length - off) && curpos == off + nw
                && vsize == (if off + nw > old(vsize) then off + nw else old(vsize))
                && buf[..] == Ended(Overlay(old(buf[..]), off, data[..nw]), flags, off + nw, off + nw > old(vsize))
      ensures flags.write || flags.append ==>
                var off := if flags.append then old(vsize) else old(curpos);
                var end := if curpos < buf.Length then curpos else buf.Length - 1;
                forall i | 0 <= i < buf.Length ::
                  buf[i] == (if !flags.read && i == end then NUL
                             else if flags.read && flags.write && curpos > old(vsize) && i == curpos then NUL
                             else if off <= i < off + nw then data[i - off] else old(buf[i]))
      ensures ReadWrite() ==> (AsFile(), Count(nw)) == FileStep(old(AsFile()), Op.Write(data))
    {
      hide Overlay;
      if !flags.write && !flags.append {
        return -1;
      }
      var off := if flags.append then vsize else curpos;
      nw := Min(|data|, buf.Length - off);
      ghost var was, vsize0 := buf[..], vsize;
      Copy(buf, off, data[..nw]);
      ghost var written := buf[..];
      OverlayAt(was, off, data[..nw]);
      curpos := off + nw;
      if curpos > vsize {
        vsize := curpos;
        if flags.read && flags.write && vsize < buf.Length {
          buf[vsize] := NUL;
        }
      }
      if (flags.write || flags.append) && !flags.read {
        if curpos < buf.Length {
          buf[curpos] := NUL;
        } else {
          buf[buf.Length - 1] := NUL;
        }
      }
      assert buf[..] == Ended(written, flags, off + nw, off + nw > vsize0);
      if ReadWrite() {
        assert buf[..vsize] == written[..vsize];
        OverlayPrefix(was, vsize0, off, data[..nw], vsize);
      }
    }

    /** mstream_seek */
    method Seek(to: int, whence: Whence) returns (off: int)
      requires Valid()
      modifies this`curpos
      ensures Valid()
      ensures var there := to + match whence case SeekSet => 0 case SeekCur => old(curpos) case SeekEnd => vsize;
              if 0 <= there <= vsize then off == curpos == there else off == -1 && curpos == old(curpos)
      ensures (AsFile(), Count(off)) == FileStep(old(AsFile()), Op.Seek(to, whence))
    {
      off := match whence case SeekSet => to case SeekCur => curpos + to case SeekEnd => vsize + to;
      if off < 0 || off > vsize {
        return -1;
      }
      curpos := off;
    }

    /** One operation on a stream that is open for reading and writing */
    method Perform(op: Op) returns (res: Result)
      requires Valid() && ReadWrite()
      modifies this, buf
      ensures Valid() && (AsFile(), res) == FileStep(old(AsFile()), op)
    {
      match op
      case Read(len) =>
        var nr, data := Read(len);
        res := Bytes(data);
      case Write(data) =>
        var nw := Write(data);
        res := Count(nw);
      case Seek(to, whence) =>
        var off := Seek(to, whence);
        res := Count(off);
    }

    /** Any mixture of operations on a read-and-write stream gives what the file gives. */
    method Run(ops: seq<Op>) returns (results: seq<Result>)
      requires Valid() && ReadWrite()
      modifies this, buf
      ensures Valid() && (AsFile(), results) == FileRun(old(AsFile()), ops)
    {
      results := [];
      for n := 0 to |ops|
        invariant Valid() && (AsFile(), results) == FileRun(old(AsFile()), ops[..n])
      {
        assert ops[..n + 1][..n] == ops[..n];
        var res := Perform(ops[n]);
        results := results + [res];
      }
      assert ops[..|ops|] == ops;
    }

    /** Everything written so far is text, cut where the buffer ends; a full buffer has
        lost its last character to the terminating NUL. */
    ghost predicate Holds(text: string)
      reads this, buf
    {
      var k := Min(|text|, buf.Length);
      && buf.Length > 0 && curpos == vsize == k
      && buf[..Min(k, buf.Length - 1)] == text[..Min(k, buf.Length - 1)]
      && buf[Min(k, buf.Length - 1)] == NUL
    }

    /** The position is at the end of text, cut where the buffer ends, of which the last
        character may already have given way to a NUL. */
    ghost predicate Behind(text: string)
      reads this, buf
    {
      var k := Min(|text|, buf.Length);
      buf.Length > 0 && curpos == vsize == k && buf[..Min(k, buf.Length - 1)] == text[..Min(k, buf.Length - 1)]
    }

    method WriteMore(data: string, ghost text: string)
      requires Valid() && WriteOnly() && Behind(text)
      modifies this, buf
      ensures Valid() && Behind(text + data) && Holds(text + data)
    {
      hide Overlay, FileStep, AsFile;
      ghost var was, end := buf[..], vsize;
      var nw := Write(data);
      Terminated(was, end, text, data, buf[..]);
    }

    /** Successive writes without seeks to a write-only stream: the buffer holds the
        NUL-terminated, possibly cut, concatenation of what was there and what was written. */
    method WriteAll(texts: seq<string>, ghost start: string)
      requires Valid() && WriteOnly() && |texts| > 0
      requires curpos == vsize == |start| && buf[..vsize] == start
      modifies this, buf
      ensures Valid() && Holds(start + Concat(texts))
    {
      assert start + Concat(texts[..0]) == start;
      assert Behind(start);
      for n := 0 to |texts|
        invariant Valid() && Behind(start + Concat(texts[..n]))
        invariant n > 0 ==> Holds(start + Concat(texts[..n]))
      {
        assert texts[..n + 1][..n] == texts[..n];
        ghost var text := start + Concat(texts[..n]);
        WriteMore(texts[n], text);
        assert start + Concat(texts[..n + 1]) == text + texts[n];
      }
      assert texts[..|texts|] == texts;
    }
  }

  function Concat(texts: seq<string>): string {
    if |texts| == 0 then "" else Concat(texts[..|texts| - 1]) + texts[|texts| - 1]
  }

  /** The part of an overlaid buffer up to the new virtual size is the overlaid part. */
  lemma OverlayPrefix(was: string, vsize: int, off: int, chunk: string, vsize': int)
    requires 0 <= off <= vsize <= |was| && off + |chunk| <= |was|
    requires vsize' == if off + |chunk| > vsize then off + |chunk| else vsize
    ensures Overlay(was, off, chunk)[..vsize'] == Overlay(was[..vsize], off, chunk)
  {
  }

  /** One more write to a write-only stream that is at its end */
  lemma Terminated(was: string, end: int, text: string, data: string, now: string)
    requires |was| > 0 && end == Min(|text|, |was|) && |now| == |was|
    requires was[..Min(end, |was| - 1)] == text[..Min(end, |was| - 1)]
    requires var n := Min(|data|, |was| - end);
             now == Overlay(was, end, data[..n])[Min(end + n, |was| - 1) := NUL]
    ensures var k := Min(|text + data|, |was|);
            && k == end + Min(|data|, |was| - end)
            && now[..Min(k, |was| - 1)] == (text + data)[..Min(k, |was| - 1)] && now[Min(k, |was| - 1)] == NUL
  {
  }

  /** fmemopen itself: None where it reports EINVAL. */
  method Open(buf: Option<array<char>>, size: nat, kind: string) returns (ms: Option<Stream>)
    requires buf.Some? ==> buf.value.Length == size
    ensures ms.None? <==>
              || size == 0 || (buf.None? && !('+' in kind))
              || |kind| == 0 || kind[0] !in "rwa" || exists i :: 1 <= i < |kind| && kind[i] !in "+b"
    ensures ms.Some? ==> TypeOk(kind) && ms.value.flags == Meaning(kind)
    ensures ms.Some? ==>
              && (ms.value.flags.read <==> kind[0] == 'r' || '+' in kind)
              && (ms.value.flags.write <==> kind[0] == 'w' || '+' in kind)
              && (ms.value.flags.append <==> kind[0] == 'a') && (ms.value.flags.truncate <==> kind[0] == 'w')
    ensures ms.Some? ==>
              && ms.value.Valid() && ms.value.buf.Length == size
              && (buf.Some? ==> ms.value.buf == buf.value) && (buf.None? ==> fresh(ms.value.buf))
    ensures ms.Some? && buf.None? ==> ms.value.curpos == 0
    ensures ms.Some? && kind[0] == 'w' ==> ms.value.vsize == ms.value.curpos == 0
    ensures ms.Some? && kind[0] == 'r' ==> ms.value.vsize == size && ms.value.curpos == 0
    ensures ms.Some? && kind[0] == 'a' ==> ms.value.vsize == ms.value.curpos
    ensures ms.Some? && kind[0] == 'a' && buf.Some? ==>
              && NUL !in ms.value.buf[..ms.value.vsize]
              && (ms.value.vsize < size ==> ms.value.buf[ms.value.vsize] == NUL)
  {
    if size == 0 {
      return None;
    }
    var flags := TypeToFlags(kind);
    if flags == NO_FLAGS {
      return None;
    }
    if buf.None? {
      if !(flags.read && flags.write) {
        return None;
      }
      var own := new char[size];
      var s := new Stream(own, flags, false, 0);
      ms := Some(s);
    } else {
      var end := FindEnd(buf.value);
      var s := new Stream(buf.value, flags, true, end);
      ms := Some(s);
    }
  }
}
