/** Descending a file hierarchy with one shared, growable path buffer. */
module TreeWalk {
  import opened Common

  datatype Mode = Regular | Block | Character | Fifo | Link | Socket

  /** What the callback is told: a file, a directory, an unreadable directory, a name
      that cannot be examined. */
  datatype Kind = FtwF(mode: Mode) | FtwD | FtwDNR | FtwNS

  datatype Event = Event(path: string, kind: Kind)

  /** What lstat() says about a path */
  datatype Stat = NoStat | NotDirectory(mode: Mode) | Directory

  /** A finite hierarchy.  A Locked directory cannot be read; the names of a Folder
      include "." and ".." where readdir() delivers them. */
  datatype Tree = Gone | Leaf(mode: Mode) | Locked | Folder(names: seq<string>, subs: seq<Tree>)

  predicate IsDot(name: string) {
    name == "." || name == ".."
  }

  /** Two texts joined as the program joins them */
  function Join(path: string, name: string): string {
    path + "/" + name
  }

  // ---------- the specification: a pure preorder walk ----------

  /** The calls made for the tree at path, and the value returned, when f is what the
      callback answers and the walk stops at the first answer that is not 0 */
  function Visit(path: string, t: Tree, f: (string, Kind) -> int): (seq<Event>, int)
    decreases t, 0
  {
    match t
    case Gone => ([Event(path, FtwNS)], f(path, FtwNS))
    case Leaf(m) => ([Event(path, FtwF(m))], f(path, FtwF(m)))
    case Locked =>
      var ret := f(path, FtwD);
      if ret != 0 then ([Event(path, FtwD)], ret)
      else ([Event(path, FtwD), Event(path + "/", FtwDNR)], f(path + "/", FtwDNR))
    case Folder(names, subs) =>
      var ret := f(path, FtwD);
      if ret != 0 then ([Event(path, FtwD)], ret)
      else
        var rest := VisitAll(path, names, subs, f);
        ([Event(path, FtwD)] + rest.0, rest.1)
  }

  function VisitAll(path: string, names: seq<string>, subs: seq<Tree>, f: (string, Kind) -> int): (seq<Event>, int)
    decreases subs, 1
  {
    if |subs| == 0 || |names| == 0 then ([], 0)
    else if IsDot(names[0]) then VisitAll(path, names[1..], subs[1..], f)
    else
      var first := Visit(Join(path, names[0]), subs[0], f);
      if first.1 != 0 then first
      else
        var rest := VisitAll(path, names[1..], subs[1..], f);
        (first.0 + rest.0, rest.1)
  }

  /** Every event of the hierarchy in preorder, with no regard to answers */
  function Preorder(path: string, t: Tree): seq<Event>
    decreases t, 0
  {
    match t
    case Gone => [Event(path, FtwNS)]
    case Leaf(m) => [Event(path, FtwF(m))]
    case Locked => [Event(path, FtwD), Event(path + "/", FtwDNR)]
    case Folder(names, subs) => [Event(path, FtwD)] + PreorderAll(path, names, subs)
  }

  function PreorderAll(path: string, names: seq<string>, subs: seq<Tree>): seq<Event>
    decreases subs, 1
  {
    if |subs| == 0 || |names| == 0 then []
    else
      (if IsDot(names[0]) then [] else Preorder(Join(path, names[0]), subs[0])) +
      PreorderAll(path, names[1..], subs[1..])
  }

  /** The entries of a directory are reported one after the other, each as a hierarchy of its
      own under the directory's path; those named "." and ".." are not reported. */
  lemma {:induction false} EntryByEntry(path: string, names: seq<string>, subs: seq<Tree>, i: nat)
    requires i < |names| == |subs|
    ensures PreorderAll(path, [], []) == []
    ensures PreorderAll(path, names[..i + 1], subs[..i + 1]) ==
            PreorderAll(path, names[..i], subs[..i]) +
            if names[i] == "." || names[i] == ".." then [] else Preorder(path + "/" + names[i], subs[i])
    decreases i
  {
    hide Preorder;
    if i == 0 {
      assert names[..1] == [names[0]] && subs[..1] == [subs[0]] && names[..0] == [] && subs[..0] == [];
      OneEntry(path, names[0], subs[0]);
    } else {
      EntryByEntry(path, names[1..], subs[1..], i - 1);
      assert names[..i + 1][1..] == names[1..][..i] && subs[..i + 1][1..] == subs[1..][..i];
      assert names[..i][1..] == names[1..][..i - 1] && subs[..i][1..] == subs[1..][..i - 1];
      var here := if IsDot(names[0]) then [] else Preorder(Join(path, names[0]), subs[0]);
      assert PreorderAll(path, names[..i + 1], subs[..i + 1]) ==
             here + PreorderAll(path, names[1..][..i], subs[1..][..i]);
      assert PreorderAll(path, names[..i], subs[..i]) ==
             here + PreorderAll(path, names[1..][..i - 1], subs[1..][..i - 1]);
    }
  }

  lemma OneEntry(path: string, name: string, sub: Tree)
    ensures PreorderAll(path, [name], [sub]) ==
            if name == "." || name == ".." then [] else Preorder(path + "/" + name, sub)
  {
    hide Preorder;
    assert [name][1..] == [] && [sub][1..] == [];
    assert PreorderAll(path, [], []) == [];
  }

  /** What is reported of each kind of file; a directory comes before its entries. */
  lemma PreorderIs(path: string, t: Tree)
    ensures t.Gone? ==> Preorder(path, t) == [Event(path, FtwNS)]
    ensures t.Leaf? ==> Preorder(path, t) == [Event(path, FtwF(t.mode))]
    ensures t.Locked? ==> Preorder(path, t) == [Event(path, FtwD), Event(path + "/", FtwDNR)]
    ensures t.Folder? ==> Preorder(path, t) == [Event(path, FtwD)] + PreorderAll(path, t.names, t.subs)
  {
  }

  /** All that is reported of an entry is reported, in one stretch, of its directory. */
  lemma {:induction false} EntryInside(path: string, t: Tree, i: nat) returns (before: seq<Event>, after: seq<Event>)
    requires t.Folder? && i < |t.names| == |t.subs| && t.names[i] != "." && t.names[i] != ".."
    ensures Preorder(path, t) == before + Preorder(path + "/" + t.names[i], t.subs[i]) + after
    ensures |before| > 0 && before[0] == Event(path, FtwD)
  {
    hide PreorderAll, Preorder;
    PreorderIs(path, t);
    after := RestOf(path, t.names, t.subs, i + 1);
    EntryByEntry(path, t.names, t.subs, i);
    before := [Event(path, FtwD)] + PreorderAll(path, t.names[..i], t.subs[..i]);
  }

  lemma {:induction false} RestOf(path: string, names: seq<string>, subs: seq<Tree>, i: nat) returns (after: seq<Event>)
    requires i <= |names| == |subs|
    ensures PreorderAll(path, names, subs) == PreorderAll(path, names[..i], subs[..i]) + after
    decreases |names| - i
  {
    hide PreorderAll, Preorder;
    if i == |names| {
      assert names[..i] == names && subs[..i] == subs;
      after := [];
    } else {
      EntryByEntry(path, names, subs, i);
      var later := RestOf(path, names, subs, i + 1);
      after := (if names[i] == "." || names[i] == ".." then [] else Preorder(path + "/" + names[i], subs[i])) + later;
    }
  }

  /** Every event of an entry is an event of its directory, and every event of a directory is
      its own or one of an entry. */
  lemma {:induction false} EventsOf(path: string, t: Tree, e: Event)
    requires t.Folder? && |t.names| == |t.subs|
    ensures e in Preorder(path, t) <==>
              || e == Event(path, FtwD)
              || exists i :: 0 <= i < |t.names| && t.names[i] != "." && t.names[i] != ".."
                             && e in Preorder(path + "/" + t.names[i], t.subs[i])
  {
    hide PreorderAll, Preorder;
    PreorderIs(path, t);
    var n := |t.names|;
    assert t.names[..n] == t.names && t.subs[..n] == t.subs;
    EventsUpTo(path, t, e, n);
  }

  lemma {:induction false} EventsUpTo(path: string, t: Tree, e: Event, n: nat)
    requires t.Folder? && n <= |t.names| == |t.subs|
    ensures e in PreorderAll(path, t.names[..n], t.subs[..n]) <==>
              exists i :: 0 <= i < n && t.names[i] != "." && t.names[i] != ".."
                          && e in Preorder(path + "/" + t.names[i], t.subs[i])
  {
    hide PreorderAll, Preorder;
    if n > 0 {
      EntryByEntry(path, t.names, t.subs, n - 1);
      EventsUpTo(path, t, e, n - 1);
    } else {
      assert t.names[..0] == [] && t.subs[..0] == [];
      NoEntries(path);
    }
  }

  lemma NoEntries(path: string)
    ensures PreorderAll(path, [], []) == []
  {
  }

  /** All answers but the last are 0, and the last one is returned. */
  ghost predicate StopsRight(log: seq<Event>, ret: int, f: (string, Kind) -> int) {
    && (forall i | 0 <= i < |log| - 1 :: f(log[i].path, log[i].kind) == 0)
    && (|log| > 0 ==> ret == f(log[|log| - 1].path, log[|log| - 1].kind))
    && (|log| == 0 ==> ret == 0)
  }

  /** The walk makes the calls of the preorder, up to and including the first whose
      answer is not 0, and all of them when there is none. */
  lemma {:induction false} VisitIsPreorder(path: string, t: Tree, f: (string, Kind) -> int)
    ensures var v := Visit(path, t, f);
            && v.0 <= Preorder(path, t) && (v.1 == 0 ==> v.0 == Preorder(path, t))
            && StopsRight(v.0, v.1, f) && |v.0| > 0
    decreases t, 0
  {
    match t
    case Folder(names, subs) =>
      if f(path, FtwD) == 0 {
        VisitAllIsPreorder(path, names, subs, f);
        var v, rest := Visit(path, t, f), VisitAll(path, names, subs, f);
        assert v.0 == [Event(path, FtwD)] + rest.0;
        forall i | 0 <= i < |v.0| - 1 ensures f(v.0[i].path, v.0[i].kind) == 0 {
          if i > 0 { assert v.0[i] == rest.0[i - 1]; }
        }
        assert |rest.0| > 0 ==> v.0[|v.0| - 1] == rest.0[|rest.0| - 1];
      }
    case _ =>
  }

  lemma {:induction false} VisitAllIsPreorder(path: string, names: seq<string>, subs: seq<Tree>,
                                                f: (string, Kind) -> int)
    ensures var v := VisitAll(path, names, subs, f);
            && v.0 <= PreorderAll(path, names, subs) && (v.1 == 0 ==> v.0 == PreorderAll(path, names, subs))
            && StopsRight(v.0, v.1, f)
    decreases subs, 1
  {
    hide Visit, Preorder;
    if |subs| > 0 && |names| > 0 {
      VisitAllIsPreorder(path, names[1..], subs[1..], f);
      if !IsDot(names[0]) {
        VisitIsPreorder(Join(path, names[0]), subs[0], f);
        var v := VisitAll(path, names, subs, f);
        var first, rest := Visit(Join(path, names[0]), subs[0], f), VisitAll(path, names[1..], subs[1..], f);
        if first.1 == 0 {
          forall i | 0 <= i < |v.0| - 1 ensures f(v.0[i].path, v.0[i].kind) == 0 {
            if i < |first.0| {
              assert v.0[i] == first.0[i];
            } else {
              assert v.0[i] == rest.0[i - |first.0|];
            }
          }
          assert v.0 == first.0 + rest.0;
          assert |rest.0| > 0 ==> v.0[|v.0| - 1] == rest.0[|rest.0| - 1];
          assert |rest.0| == 0 ==> v.0[|v.0| - 1] == first.0[|first.0| - 1];
        }
      }
    }
  }

  // ---------- the program ----------

  /** File names are C strings of at most nameMax characters. */
  predicate NamesOk(t: Tree, nameMax: nat) {
    t.Folder? ==>
      && |t.names| == |t.subs|
      && (forall i | 0 <= i < |t.names| :: |t.names[i]| <= nameMax && NUL !in t.names[i])
      && (forall i | 0 <= i < |t.subs| :: NamesOk(t.subs[i], nameMax))
  }

  /** What the file system holds at path is the tree t. */
  ghost predicate Found(lstat: string -> Stat, opendir: string -> Option<seq<string>>, path: string, t: Tree)
    decreases t
  {
    match t
    case Gone => lstat(path) == NoStat
    case Leaf(m) => lstat(path) == NotDirectory(m)
    case Locked => lstat(path) == Directory && opendir(path + "/") == None
    case Folder(names, subs) =>
      && lstat(path) == Directory && opendir(path + "/") == Some(names) && |names| == |subs|
      && forall i | 0 <= i < |subs| && !IsDot(names[i]) :: Found(lstat, opendir, Join(path, names[i]), subs[i])
  }

  /** What an event says of its path is what lstat and opendir say of it. */
  ghost predicate True(lstat: string -> Stat, opendir: string -> Option<seq<string>>, e: Event) {
    match e.kind
    case FtwF(mode) => lstat(e.path) == NotDirectory(mode)
    case FtwD => lstat(e.path) == Directory
    case FtwNS => lstat(e.path) == NoStat
    case FtwDNR => opendir(e.path) == None
  }

  lemma {:induction false} AllTrue(lstat: string -> Stat, opendir: string -> Option<seq<string>>, path: string, t: Tree)
    requires Found(lstat, opendir, path, t)
    ensures forall e | e in Preorder(path, t) :: True(lstat, opendir, e)
    decreases t
  {
    if t.Folder? {
      forall e | e in Preorder(path, t) ensures True(lstat, opendir, e) {
        EventsOf(path, t, e);
        if e != Event(path, FtwD) {
          var i :| 0 <= i < |t.names| && t.names[i] != "." && t.names[i] != ".."
                   && e in Preorder(path + "/" + t.names[i], t.subs[i]);
          AllTrue(lstat, opendir, path + "/" + t.names[i], t.subs[i]);
        }
      }
    }
  }

  /** What the walk of a tree comes to, by what lstat and opendir say */
  lemma VisitCases(lstat: string -> Stat, opendir: string -> Option<seq<string>>, f: (string, Kind) -> int,
                   path: string, t: Tree)
    requires Found(lstat, opendir, path, t)
    ensures var stat, v := lstat(path), Visit(path, t, f);
            match stat
            case NoStat => v == ([Event(path, FtwNS)], f(path, FtwNS))
            case NotDirectory(m) => v == ([Event(path, FtwF(m))], f(path, FtwF(m)))
            case Directory =>
              var ret := f(path, FtwD);
              if ret != 0 then v == ([Event(path, FtwD)], ret)
              else match opendir(path + "/")
                   case None => v == ([Event(path, FtwD), Event(path + "/", FtwDNR)], f(path + "/", FtwDNR))
                   case Some(names) =>
                     && t.Folder? && t.names == names
                     && var rest := VisitAll(path, names, t.subs, f); v == ([Event(path, FtwD)] + rest.0, rest.1)
  {
    hide VisitAll;
  }

  class Walker {
    const nameMax: nat
    const lstat: string -> Stat
    const opendir: string -> Option<seq<string>>
    const func: (string, Kind) -> int
    var fullpath: array<char>
    var pathlen: nat
    var log: seq<Event>

    ghost predicate Represents(path: string, t: Tree) {
      Found(lstat, opendir, path, t)
    }

    /** The buffer is large enough for one more name after any path it may hold. */
    ghost predicate RoomOk()
      reads this
    {
      fullpath.Length == pathlen && pathlen >= nameMax + 2
    }

    /** The buffer holds the C string p. */
    ghost predicate Holds(p: string)
      reads this, fullpath
    {
      NUL !in p && |p| < fullpath.Length && fullpath[..|p|] == p && fullpath[|p|] == NUL
    }

    /** path_alloc() with its size, then the copy of the starting pathname: myftw */
    constructor (pathname: string, size: nat, nameMax: nat, lstat: string -> Stat,
                 opendir: string -> Option<seq<string>>, func: (string, Kind) -> int)
      requires NUL !in pathname && size >= nameMax + 2
      ensures RoomOk() && Holds(pathname) && log == [] && fresh(fullpath)
      ensures this.nameMax == nameMax && this.lstat == lstat && this.opendir == opendir && this.func == func
    {
      this.nameMax, this.lstat, this.opendir, this.func := nameMax, lstat, opendir, func;
      var len := if size <= |pathname| then |pathname| * 2 else size;
      fullpath := new char[len](_ => NUL);
      pathlen := len;
      log := [];
      new;
      Append(0, pathname);
    }

    /** strcpy(&fullpath[n], name) */
    method Append(n: nat, name: string)
      requires n + |name| < fullpath.Length && NUL !in name
      modifies fullpath
      ensures fullpath[..n] == old(fullpath[..n]) && fullpath[n..n + |name|] == name && fullpath[n + |name|] == NUL
    {
      for i := 0 to |name|
        invariant fullpath[..n] == old(fullpath[..n])
        invariant forall j | 0 <= j < i :: fullpath[n + j] == name[j]
      {
        fullpath[n + i] := name[i];
      }
      fullpath[n + |name|] := NUL;
    }

    /** strlen(fullpath) */
    method Length(ghost p: string) returns (n: nat)
      requires Holds(p)
      ensures n == |p|
    {
      n := 0;
      assert forall j | 0 <= j < |p| :: fullpath[j] == fullpath[..|p|][j] && p[j] in p;
      while fullpath[n] != NUL
        invariant n <= |p|
        decreases |p| - n
      {
        n := n + 1;
      }
    }

    method AddSlash(n: nat, ghost p: string)
      requires n == |p| && Holds(p) && n + 1 < fullpath.Length
      modifies fullpath
      ensures fullpath[..n + 1] == p + "/" && fullpath[..n] == p && fullpath[n + 1] == NUL
    {
      fullpath[n] := '/';
      fullpath[n + 1] := NUL;
      assert fullpath[..n] == p;
    }

    method Call(path: string, kind: Kind) returns (ret: int)
      modifies this`log
      ensures log == old(log) + [Event(path, kind)] && ret == func(path, kind)
    {
      log := log + [Event(path, kind)];
      ret := func(path, kind);
    }

    /** Doubles the buffer, keeping what it holds. */
    method Grow(ghost p: string)
      requires RoomOk() && Holds(p)
      modifies this`fullpath, this`pathlen
      ensures RoomOk() && Holds(p) && fresh(fullpath) && |p| + nameMax + 2 <= pathlen == 2 * old(pathlen)
    {
      var bigger := new char[pathlen * 2](_ => NUL);
      forall i | 0 <= i < pathlen {
        bigger[i] := fullpath[i];
      }
      assert bigger[..|p|] == fullpath[..|p|];
      pathlen := pathlen * 2;
      fullpath := bigger;
    }

    /** The recursive descent.  It is given nothing but the buffer: the hierarchy it
        finds is whatever the file system holds under the path in it. */
    method DoPath(ghost p: string, ghost t: Tree) returns (ret: int)
      requires RoomOk() && Holds(p) && Represents(p, t) && NamesOk(t, nameMax)
      modifies this, fullpath
      ensures RoomOk() && (fullpath == old(fullpath) || fresh(fullpath)) && pathlen >= old(pathlen)
      ensures |p| < fullpath.Length && fullpath[..|p|] == p
      ensures log == old(log) + Visit(p, t, func).0 && ret == Visit(p, t, func).1
      decreases t, 2
    {
      VisitCases(lstat, opendir, func, p, t);
      hide Visit, VisitAll, NamesOk, Represents;
      var n := Length(p);
      var path := fullpath[..n];
      var stat := lstat(path);
      if stat == NoStat {
        ret := Call(path, FtwNS);
        return;
      }
      if stat != Directory {
        ret := Call(path, FtwF(stat.mode));
        return;
      }
      ret := Call(path, FtwD);
      if ret != 0 {
        return;
      }
      ret := Descend(n, p, t);
    }

    /** The rest of dopath, for a directory of which the callback has said go on */
    method Descend(length: nat, ghost p: string, ghost t: Tree) returns (ret: int)
      requires RoomOk() && Holds(p) && length == |p|
      requires opendir(p + "/").Some? ==> t.Folder? && t.names == opendir(p + "/").value
      requires Represents(p, t) && NamesOk(t, nameMax)
      modifies this, fullpath
      ensures RoomOk() && (fullpath == old(fullpath) || fresh(fullpath)) && pathlen >= old(pathlen)
      ensures |p| < fullpath.Length && fullpath[..|p|] == p
      ensures match opendir(p + "/")
              case None => log == old(log) + [Event(p + "/", FtwDNR)] && ret == func(p + "/", FtwDNR)
              case Some(names) =>
                var rest := VisitAll(p, names, t.subs, func); log == old(log) + rest.0 && ret == rest.1
      decreases t, 1
    {
      hide Visit, VisitAll, NamesOk, Represents;
      var n := length;
      if n + nameMax + 2 > pathlen {
        Grow(p);
      }
      AddSlash(n, p);
      n := n + 1;
      var dp := opendir(fullpath[..n]);
      if dp == None {
        ret := Call(fullpath[..n], FtwDNR);
        assert fullpath[..n][..|p|] == fullpath[..|p|];
        return;
      }
      ret := ReadDirectory(p, n, dp.value, t);
      fullpath[n - 1] := NUL;
      assert fullpath[..|p|] == fullpath[..n][..|p|];
    }

    /** The loop over the names of a directory: each is put after the slash, and the
        slash and all before it are there again when the descent comes back. */
    method ReadDirectory(ghost p: string, n: nat, names: seq<string>, ghost t: Tree) returns (ret: int)
      requires RoomOk() && NUL !in p && n == |p| + 1 && n + nameMax + 1 <= pathlen && fullpath[..n] == p + "/"
      requires t.Folder? && t.names == names && Represents(p, t) && NamesOk(t, nameMax)
      modifies this, fullpath
      ensures RoomOk() && (fullpath == old(fullpath) || fresh(fullpath)) && pathlen >= old(pathlen)
      ensures n < fullpath.Length && fullpath[..n] == p + "/"
      ensures log == old(log) + VisitAll(p, names, t.subs, func).0 && ret == VisitAll(p, names, t.subs, func).1
      decreases t, 0
    {
      hide Visit, VisitAll;
      ghost var all := VisitAll(p, names, t.subs, func);
      ret := 0;
      var i := 0;
      assert names[0..] == names && t.subs[0..] == t.subs;
      while i < |names|
        invariant 0 <= i <= |names|
        invariant RoomOk() && (fullpath == old(fullpath) || fresh(fullpath)) && pathlen >= old(pathlen)
        invariant fullpath[..n] == p + "/"
        invariant log + VisitAll(p, names[i..], t.subs[i..], func).0 == old(log) + all.0
        invariant ret == 0 && VisitAll(p, names[i..], t.subs[i..], func).1 == all.1
        decreases |names| - i
      {
        VisitNext(p, names, t.subs, func, i);
        if !IsDot(names[i]) {
          ret := Enter(p, n, names[i], t.subs[i]);
          if ret != 0 {
            return;
          }
        }
        i := i + 1;
      }
      VisitEnd(p, names, t.subs, func);
    }

    method Enter(ghost p: string, n: nat, name: string, ghost sub: Tree) returns (ret: int)
      requires RoomOk() && NUL !in p && n == |p| + 1 && n + |name| + 1 <= pathlen && fullpath[..n] == p + "/"
      requires NUL !in name && Represents(Join(p, name), sub) && NamesOk(sub, nameMax)
      modifies this, fullpath
      ensures RoomOk() && (fullpath == old(fullpath) || fresh(fullpath)) && pathlen >= old(pathlen)
      ensures n <= fullpath.Length && fullpath[..n] == p + "/"
      ensures log == old(log) + Visit(Join(p, name), sub, func).0 && ret == Visit(Join(p, name), sub, func).1
      decreases sub, 3
    {
      hide Visit, Found, NamesOk;
      ghost var q := Join(p, name);
      Append(n, name);
      assert fullpath[..|q|] == fullpath[..n] + fullpath[n..n + |name|];
      ret := DoPath(q, sub);
      assert fullpath[..n] == fullpath[..|q|][..n];
    }
  }

  /** One turn of the directory loop, in the specification */
  lemma VisitNext(p: string, names: seq<string>, subs: seq<Tree>, f: (string, Kind) -> int, i: nat)
    requires i < |names| == |subs|
    ensures var here, rest := VisitAll(p, names[i..], subs[i..], f), VisitAll(p, names[i + 1..], subs[i + 1..], f);
            if IsDot(names[i]) then here == rest
            else var first := Visit(Join(p, names[i]), subs[i], f);
                 if first.1 != 0 then here == first else here == (first.0 + rest.0, rest.1)
  {
    hide Visit;
    assert names[i..][1..] == names[i + 1..] && subs[i..][1..] == subs[i + 1..];
  }

  lemma VisitEnd(p: string, names: seq<string>, subs: seq<Tree>, f: (string, Kind) -> int)
    requires |names| == |subs|
    ensures VisitAll(p, names[|names|..], subs[|names|..], f) == ([], 0)
  {
  }

  /** myftw: the calls are the preorder of the hierarchy, complete when every answer is 0. */
  method Walk(pathname: string, size: nat, nameMax: nat, lstat: string -> Stat, opendir: string -> Option<seq<string>>,
              func: (string, Kind) -> int, ghost t: Tree) returns (log: seq<Event>, ret: int)
    requires NUL !in pathname && size >= nameMax + 2 && NamesOk(t, nameMax)
    requires Found(lstat, opendir, pathname, t)
    ensures log <= Preorder(pathname, t) && StopsRight(log, ret, func)
    ensures ret == 0 ==> log == Preorder(pathname, t)
    ensures |log| > 0 && log[0].path == pathname && ret == func(log[|log| - 1].path, log[|log| - 1].kind)
    ensures forall i | 0 <= i < |log| - 1 :: func(log[i].path, log[i].kind) == 0
    ensures ret == 0 && t.Folder? ==>
              forall i, e | 0 <= i < |t.names| && t.names[i] != "." && t.names[i] != ".."
                            && e in Preorder(pathname + "/" + t.names[i], t.subs[i]) :: e in log
    ensures forall e | e in log ::
              match e.kind
              case FtwF(mode) => lstat(e.path) == NotDirectory(mode)
              case FtwD => lstat(e.path) == Directory
              case FtwNS => lstat(e.path) == NoStat
              case FtwDNR => opendir(e.path) == None
  {
    var w := new Walker(pathname, size, nameMax, lstat, opendir, func);
    ret := w.DoPath(pathname, t);
    log := w.log;
    VisitIsPreorder(pathname, t, func);
    PreorderIs(pathname, t);
    AllTrue(lstat, opendir, pathname, t);
    forall e | e in log ensures True(lstat, opendir, e) {
      assert e in Preorder(pathname, t);
    }
    if ret == 0 && t.Folder? {
      forall i, e | 0 <= i < |t.names| && t.names[i] != "." && t.names[i] != ".."
                    && e in Preorder(pathname + "/" + t.names[i], t.subs[i]) ensures e in log {
        EventsOf(pathname, t, e);
      }
    }
  }

  // ---------- counting the files of each type ----------

  predicate Counted(kind: Kind) {
    kind.FtwF? || kind.FtwD?
  }

  /** How many of the calls are about a file of this kind */
  function Times(log: seq<Event>, kind: Kind): nat {
    if |log| == 0 then 0 else Times(log[..|log| - 1], kind) + if log[|log| - 1].kind == kind then 1 else 0
  }

  class Tally {
    var nreg: nat
    var ndir: nat
    var nblk: nat
    var nchr: nat
    var nfifo: nat
    var nslink: nat
    var nsock: nat

    /** The counter of a kind of file */
    function Of(kind: Kind): nat
      requires Counted(kind)
      reads this
    {
      match kind
      case FtwD => ndir
      case FtwF(Regular) => nreg
      case FtwF(Block) => nblk
      case FtwF(Character) => nchr
      case FtwF(Fifo) => nfifo
      case FtwF(Link) => nslink
      case FtwF(Socket) => nsock
    }

    constructor ()
      ensures forall k: Kind | Counted(k) :: Of(k) == 0
    {
      nreg, ndir, nblk, nchr, nfifo, nslink, nsock := 0, 0, 0, 0, 0, 0, 0;
    }

    /** myfunc: one counter grows, and the walk is told to go on. */
    method MyFunc(kind: Kind) returns (ret: int)
      modifies this
      ensures ret == 0
      ensures forall k: Kind | Counted(k) :: Of(k) == old(Of(k)) + if k == kind then 1 else 0
      ensures nreg == old(nreg) + if kind == FtwF(Regular) then 1 else 0
      ensures ndir == old(ndir) + if kind == FtwD then 1 else 0
      ensures nblk == old(nblk) + if kind == FtwF(Block) then 1 else 0
      ensures nchr == old(nchr) + if kind == FtwF(Character) then 1 else 0
      ensures nfifo == old(nfifo) + if kind == FtwF(Fifo) then 1 else 0
      ensures nslink == old(nslink) + if kind == FtwF(Link) then 1 else 0
      ensures nsock == old(nsock) + if kind == FtwF(Socket) then 1 else 0
    {
      match kind {
        case FtwF(Regular) => nreg := nreg + 1;
        case FtwF(Block) => nblk := nblk + 1;
        case FtwF(Character) => nchr := nchr + 1;
        case FtwF(Fifo) => nfifo := nfifo + 1;
        case FtwF(Link) => nslink := nslink + 1;
        case FtwF(Socket) => nsock := nsock + 1;
        case FtwD => ndir := ndir + 1;
        case FtwDNR | FtwNS =>
      }
      ret := 0;
    }

    function Total(): nat
      reads this
    {
      nreg + ndir + nblk + nchr + nfifo + nslink + nsock
    }
  }

  lemma TimesIs(log: seq<Event>, kind: Kind)
    ensures Times(log, kind) == |set i | 0 <= i < |log| && log[i].kind == kind|
  {
    TimesUpTo(log, |log|, kind);
    assert log[..|log|] == log;
  }

  lemma {:induction false} TimesUpTo(log: seq<Event>, n: nat, kind: Kind)
    requires n <= |log|
    ensures Times(log[..n], kind) == |set i | 0 <= i < n && log[i].kind == kind|
  {
    if n > 0 {
      TimesUpTo(log, n - 1, kind);
      assert log[..n][..n - 1] == log[..n - 1] && log[..n][n - 1] == log[n - 1];
      hide Times;
      OneIndex((set i | 0 <= i < n - 1 && log[i].kind == kind), (set i | 0 <= i < n && log[i].kind == kind), n - 1,
               log[n - 1].kind == kind);
    }
  }

  lemma {:induction false} TimesAdd(a: seq<Event>, b: seq<Event>, kind: Kind)
    ensures Times(a + b, kind) == Times(a, kind) + Times(b, kind)
  {
    if |b| == 0 {
      assert a + b == a;
    } else {
      TimesAdd(a, b[..|b| - 1], kind);
      assert (a + b)[..|a + b| - 1] == a + b[..|b| - 1];
    }
  }

  /** Whatever is to be counted in an entry is counted in its directory. */
  lemma EntryCounted(path: string, t: Tree, i: nat, kind: Kind)
    requires t.Folder? && i < |t.names| == |t.subs| && t.names[i] != "." && t.names[i] != ".."
    ensures Times(Preorder(path, t), kind) >= Times(Preorder(path + "/" + t.names[i], t.subs[i]), kind)
  {
    var before, after := EntryInside(path, t, i);
    TimesAdd(before + Preorder(path + "/" + t.names[i], t.subs[i]), after, kind);
    TimesAdd(before, Preorder(path + "/" + t.names[i], t.subs[i]), kind);
  }

  lemma TimesNext(log: seq<Event>, n: nat)
    requires n < |log|
    ensures forall k :: Times(log[..n + 1], k) == Times(log[..n], k) + if log[n].kind == k then 1 else 0
  {
    assert log[..n + 1][..n] == log[..n];
  }

  lemma NoTimes()
    ensures forall k :: Times([], k) == 0
  {
  }

  lemma TotalOf(tally: Tally)
    ensures tally.Total() == tally.Of(FtwD) + tally.Of(FtwF(Regular)) + tally.Of(FtwF(Block)) +
            tally.Of(FtwF(Character)) +
                             tally.Of(FtwF(Fifo)) + tally.Of(FtwF(Link)) + tally.Of(FtwF(Socket))
  {
  }

  /** Every call is about one kind of file. */
  lemma {:induction false} TimesAddUp(log: seq<Event>)
    ensures |log| == Times(log, FtwD) + Times(log, FtwF(Regular)) + Times(log, FtwF(Block)) +
            Times(log, FtwF(Character)) +
                     Times(log, FtwF(Fifo)) + Times(log, FtwF(Link)) + Times(log, FtwF(Socket)) +
                     Times(log, FtwDNR) + Times(log, FtwNS)
  {
    if |log| > 0 {
      TimesAddUp(log[..|log| - 1]);
      match log[|log| - 1].kind
      case FtwF(Regular) | FtwF(Block) | FtwF(Character) | FtwF(Fifo) | FtwF(Link) | FtwF(Socket) =>
      case FtwD | FtwDNR | FtwNS =>
    }
  }

  /** The whole program: with a callback that always says go on, every file of the
      hierarchy is counted once, under its own type. */
  method Count(pathname: string, size: nat, nameMax: nat, lstat: string -> Stat, opendir: string -> Option<seq<string>>,
               ghost t: Tree) returns (tally: Tally)
    requires NUL !in pathname && size >= nameMax + 2 && NamesOk(t, nameMax)
    requires Found(lstat, opendir, pathname, t)
    ensures var all := Preorder(pathname, t);
            && tally.nreg == |set i | 0 <= i < |all| && all[i].kind == FtwF(Regular)|
            && tally.ndir == |set i | 0 <= i < |all| && all[i].kind == FtwD|
            && tally.nblk == |set i | 0 <= i < |all| && all[i].kind == FtwF(Block)|
            && tally.nchr == |set i | 0 <= i < |all| && all[i].kind == FtwF(Character)|
            && tally.nfifo == |set i | 0 <= i < |all| && all[i].kind == FtwF(Fifo)|
            && tally.nslink == |set i | 0 <= i < |all| && all[i].kind == FtwF(Link)|
            && tally.nsock == |set i | 0 <= i < |all| && all[i].kind == FtwF(Socket)|
    ensures t.Folder? ==> forall i, k | 0 <= i < |t.names| && t.names[i] != "." && t.names[i] != ".." && Counted(k) ::
              tally.Of(k) >= Times(Preorder(pathname + "/" + t.names[i], t.subs[i]), k)
    ensures var all := Preorder(pathname, t); tally.Total() == |all| - Times(all, FtwDNR) - Times(all, FtwNS)
  {
    hide Tally.Of, Tally.Total, Times, Found, NamesOk, Preorder;
    var log, ret := Walk(pathname, size, nameMax, lstat, opendir, (_, _) => 0, t);
    assert ret == 0;
    NoTimes();
    assert log[..0] == [];
    tally := new Tally();
    for n := 0 to |log|
      invariant fresh(tally) && forall k: Kind | Counted(k) :: tally.Of(k) == Times(log[..n], k)
    {
      TimesNext(log, n);
      var answer := tally.MyFunc(log[n].kind);
    }
    assert log[..|log|] == log;
    TimesAddUp(log);
    TotalOf(tally);
    if t.Folder? {
      SameLength(t, nameMax);
      forall i, k | 0 <= i < |t.names| && t.names[i] != "." && t.names[i] != ".." && Counted(k)
        ensures tally.Of(k) >= Times(Preorder(pathname + "/" + t.names[i], t.subs[i]), k)
      {
        EntryCounted(pathname, t, i, k);
      }
    }
    Fields(tally, log);
  }

  lemma SameLength(t: Tree, nameMax: nat)
    requires NamesOk(t, nameMax) && t.Folder?
    ensures |t.names| == |t.subs|
  {
  }

  /** The counters, each by the kind of file it is for */
  lemma Fields(tally: Tally, log: seq<Event>)
    requires forall k: Kind | Counted(k) :: tally.Of(k) == Times(log, k)
    ensures tally.nreg == |set i | 0 <= i < |log| && log[i].kind == FtwF(Regular)|
    ensures tally.ndir == |set i | 0 <= i < |log| && log[i].kind == FtwD|
    ensures tally.nblk == |set i | 0 <= i < |log| && log[i].kind == FtwF(Block)|
    ensures tally.nchr == |set i | 0 <= i < |log| && log[i].kind == FtwF(Character)|
    ensures tally.nfifo == |set i | 0 <= i < |log| && log[i].kind == FtwF(Fifo)|
    ensures tally.nslink == |set i | 0 <= i < |log| && log[i].kind == FtwF(Link)|
    ensures tally.nsock == |set i | 0 <= i < |log| && log[i].kind == FtwF(Socket)|
  {
    hide Times;
    assert tally.Of(FtwF(Regular)) == tally.nreg && tally.Of(FtwD) == tally.ndir;
    assert tally.Of(FtwF(Block)) == tally.nblk && tally.Of(FtwF(Character)) == tally.nchr;
    assert tally.Of(FtwF(Fifo)) == tally.nfifo && tally.Of(FtwF(Link)) == tally.nslink;
    assert tally.Of(FtwF(Socket)) == tally.nsock;
    TimesIs(log, FtwF(Regular));
    TimesIs(log, FtwD);
    TimesIs(log, FtwF(Block));
    TimesIs(log, FtwF(Character));
    TimesIs(log, FtwF(Fifo));
    TimesIs(log, FtwF(Link));
    TimesIs(log, FtwF(Socket));
  }
}
