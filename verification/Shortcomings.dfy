/** Inputs on which the programs do not do what one would like, run to the end. */
module Shortcomings {
  import opened Common
  import opened Decimal
  import opened IndexFormat
  import opened IndexFile
  import opened Chains
  import opened Extents
  import opened Operations
  import opened FileOrder
  import opened Database
  import MemStream
  import TreeWalk
  import Alternation
  import InodeCount
  import ScanBuffer
  import Feedback

  /** A live record with a blank key: db_fetch finds it, a scan passes over it. */
  method BlankKeyUnseen()
    returns (rc: Outcome<int>, found: Outcome<Option<string>>, out: seq<(string, string)>, died: bool)
    ensures rc == Returned(0) && found == Returned(Some("x")) && out == [] && !died
  {
    hide Contents, WalkDies, StoreDies, Hash, Visible, Order, ExtentsOk, Encodes, Shaped, Layout;
    var db := new DB.Create(137);
    StoreLives(db.disk.ix, db.disk.sh, db.disk.dat, " ", "x", DB_INSERT);
    rc := db.Store(" ", "x", DB_INSERT);
    assert db.disk.Map() == map[" " := "x"];
    WalkLives(db.disk.ix, db.disk.sh, db.disk.dat, " ");
    found := db.Fetch(" ");
    OnlyBlank(db.disk.ix, db.disk.sh, db.disk.dat);
    out, died := db.Scan();
  }

  lemma OnlyBlank(ix: Index, sh: Shape, dat: string)
    requires Consistent(ix, sh, dat) && Contents(ix.recs, sh.loc, dat) == map[" " := "x"]
    ensures Visible(ix.recs, Order(ix.lens, HeaderSize(ix.nhash), ix.size)) == []
  {
    var order := Order(ix.lens, HeaderSize(ix.nhash), ix.size);
    assert AllBlank(" ");
    forall x | x in ix.recs ensures AllBlank(ix.recs[x].key) {
      if !AllBlank(ix.recs[x].key) {
        VisibleIsLive(ix, sh, x);
        InMap(ix, sh, dat, ix.recs[x].key);
      }
    }
    AllUnseen(ix.recs, order);
  }

  lemma {:induction false} AllUnseen(recs: map<int, Rec>, xs: seq<int>)
    requires forall x | x in recs :: AllBlank(recs[x].key)
    ensures Visible(recs, xs) == []
  {
    if |xs| > 0 {
      AllUnseen(recs, xs[1..]);
    }
  }

  /** A key with the separator: db_store takes it, and the next lookup of it dies. */
  method SeparatorKeyUnreadable() returns (rc: Outcome<int>, found: Outcome<Option<string>>)
    ensures rc == Returned(0) && found.Died?
  {
    hide Contents, WalkDies, StoreDies, Hash, ExtentsOk, Encodes, Shaped, Layout;
    var db := new DB.Create(137);
    StoreLives(db.disk.ix, db.disk.sh, db.disk.dat, "a:b", "x", DB_INSERT);
    rc := db.Store("a:b", "x", DB_INSERT);
    assert db.disk.Map() == map["a:b" := "x"];
    InMap(db.disk.ix, db.disk.sh, db.disk.dat, "a:b");
    SeparatorDies(db.disk.ix, db.disk.sh, "a:b");
    found := db.Fetch("a:b");
  }

  /** A replacement that cannot be appended: the process ends, and the key is gone. */
  method LongKeyLost(key: string) returns (db: DB, first: Outcome<int>, second: Outcome<int>)
    requires |key| == 1019 && NUL !in key && SEP !in key
    ensures first == Returned(0) && second.Died?
    ensures db.disk.WellFormed() && db.disk.Map() == map[]
  {
    hide Contents, WalkDies, StoreDies, Hash, ExtentsOk, Encodes, Shaped, Layout, Appendable;
    db := new DB.Create(137);
    JustFits(db.disk.ix, db.disk.sh, db.disk.dat, key);
    first := db.Store(key, "x", DB_INSERT);
    assert db.disk.Map() == map[key := "x"];
    TooLong(db.disk.ix, db.disk.sh, db.disk.dat, key);
    second := db.Store(key, "some more data", DB_REPLACE);
  }

  lemma JustFits(ix: Index, sh: Shape, dat: string, key: string)
    requires Layout(ix) && Shaped(ix, sh, {}) && ix.size <= PTR_MAX && dat == ""
    requires Contents(ix.recs, sh.loc, dat) == map[] && |key| == 1019
    ensures !StoreDies(ix, sh, dat, key, "x", DB_INSERT)
  {
    WalkLives(ix, sh, dat, key);
    assert |Digits(0)| == 1 && |Digits(2)| == 1;
  }

  lemma TooLong(ix: Index, sh: Shape, dat: string, key: string)
    requires Consistent(ix, sh, dat) && Contents(ix.recs, sh.loc, dat) == map[key := "x"] && |key| == 1019
             && SEP !in key
    ensures StoreDies(ix, sh, dat, key, "some more data", DB_REPLACE) && !WalkDies(ix, sh, key)
  {
    WalkLives(ix, sh, dat, key);
    LookUp(ix, sh, dat, key);
    DigitsAreDigits(|dat|);
    assert |Digits(15)| == 2;
  }

  /** Looking up a key that is in the database and contains the separator always dies. */
  lemma SeparatorDies(ix: Index, sh: Shape, key: string)
    requires Layout(ix) && Shaped(ix, sh, {}) && key in sh.loc && SEP in key
    ensures WalkDies(ix, sh, key)
  {
    KeyOnChain(ix, sh, {}, key);
    var k: int := Hash(key, ix.nhash) + 1;
    var x := sh.loc[key];
    var j :| 0 < j < |sh.lists[k]| && sh.lists[k][j] == x;
    FirstUnreadable(ix, sh, key, j);
  }

  /** If a node of the key's chain has the key, which cannot be read, some first node cannot. */
  lemma {:induction false} FirstUnreadable(ix: Index, sh: Shape, key: string, j: int)
    requires ix.nhash > 0 && SEP in key
    requires var k: int := Hash(key, ix.nhash) + 1;
             k < |sh.lists| && 0 < j < |sh.lists[k]| && KeyAt(ix.recs, sh.lists[k][j]) == key
    ensures WalkDies(ix, sh, key)
    decreases j
  {
    var k: int := Hash(key, ix.nhash) + 1;
    if m :| 0 < m < j && KeyAt(ix.recs, sh.lists[k][m]) == key {
      FirstUnreadable(ix, sh, key, m);
    } else {
      assert Unreadable(ix, sh, key, j);
    }
  }

  lemma StoreLives(ix: Index, sh: Shape, dat: string, key: string, data: string, flag: int)
    requires Layout(ix) && Shaped(ix, sh, {}) && ix.size <= PTR_MAX && |dat| <= PTR_MAX
    requires Contents(ix.recs, sh.loc, dat) == map[]
    requires 1 <= |key| <= KEY_MAX && DATLEN_MIN <= |data| + 1 <= DATLEN_MAX
    ensures !StoreDies(ix, sh, dat, key, data, flag)
  {
    WalkLives(ix, sh, dat, key);
    RoomToAppend(ix, dat, key, data);
  }

  // ---------- the other programs ----------

  /** A full table of inodes: with room for one, a second inode met twice is counted twice. */
  lemma CountedTwice()
    ensures InodeCount.Recounted([ScanBuffer.Node(1, 10), ScanBuffer.Node(2, 5), ScanBuffer.Node(2, 5)], 1) == 5
  {
    var a, b, c := ScanBuffer.Node(1, 10), ScanBuffer.Node(2, 5), ScanBuffer.Node(2, 5);
    assert [a, b, c][..2] == [a, b] && [a, b][..1] == [a] && [a][..0] == [];
    assert InodeCount.Distinct([a]) == [1] && InodeCount.Table([a], 1) == [1];
    assert InodeCount.Distinct([a, b]) == [1, 2] && InodeCount.Table([a, b], 1) == [1];
    assert InodeCount.Recounted([a], 1) == 0 && InodeCount.Recounted([a, b], 1) == 0;
  }

  /** One message more than the array holds, all within five minutes: the last one finds it full. */
  lemma BurstDoesNotFit(max: nat, now: int)
    ensures !Feedback.Fits(Burst(max + 1, now), max)
  {
    BurstLoad(max, now);
    assert Burst(max + 1, now)[..max] == Burst(max, now);
  }

  /** n messages at the same time */
  function Burst(n: nat, now: int): seq<Feedback.Turn> {
    seq(n, _ => Feedback.Turn(Some(Feedback.Message('A', now)), now, now))
  }

  lemma {:induction false} BurstLoad(n: nat, now: int)
    ensures Feedback.Load(Burst(n, now)) == n && |Feedback.Received(Burst(n, now))| == n
    ensures Feedback.Recent(Feedback.Received(Burst(n, now)), now - 300) == Feedback.Received(Burst(n, now))
  {
    if n > 0 {
      BurstLoad(n - 1, now);
      BurstNext(n, now);
      Feedback.RecentAdd(Feedback.Received(Burst(n - 1, now)), [Feedback.Message('A', now)], now - 300);
    }
  }

  lemma BurstNext(n: nat, now: int)
    requires n > 0
    ensures var all := Feedback.Received(Burst(n, now));
            && all == Feedback.Received(Burst(n - 1, now)) + [Feedback.Message('A', now)]
            && Feedback.Load(Burst(n, now)) == |Feedback.Recent(all, now - 300)|
            && Feedback.Recent([Feedback.Message('A', now)], now - 300) == [Feedback.Message('A', now)]
  {
    assert Burst(n, now)[..n - 1] == Burst(n - 1, now);
  }

  /** A write-only stream whose buffer is filled to the end loses the last character. */
  method LastCharacterLost() returns (buf: array<char>)
    ensures buf[..] == ['a', NUL]
  {
    buf := new char[2](_ => 'z');
    var ms := MemStream.Open(Some(buf), 2, "w");
    assert 'w' !in "+" && MemStream.TypeOk("w");
    var nw := ms.value.Write("ab");
    assert MemStream.Overlay(['z', 'z'], 0, "ab") == "ab";
  }

  /** An unreadable directory is reported under a path that is not its own. */
  lemma SlashAdded()
    ensures TreeWalk.Event("d/", TreeWalk.FtwDNR) in TreeWalk.Preorder("d", TreeWalk.Locked)
  {
    assert TreeWalk.Preorder("d", TreeWalk.Locked)[1] == TreeWalk.Event("d/", TreeWalk.FtwDNR);
  }

  /** An odd number of rounds: the counter ends one higher. */
  lemma OddCounter(n: int, schedule: seq<Alternation.Who>)
    requires n > 0 && n % 2 == 1 && Alternation.Over(Alternation.Run(n, schedule))
    ensures Alternation.Run(n, schedule).counter == n + 1
  {
    Alternation.EveryRun(n, schedule);
  }
}
