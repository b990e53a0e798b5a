/** Whole runs: any mixture of operations, through any of the handles open on the
    database, against the abstract map. */
module Runs {
  import opened Common
  import opened IndexFormat
  import opened IndexFile
  import opened Chains
  import opened Extents
  import opened Database

  datatype Op = FetchOp(key: string) | StoreOp(key: string, data: string, flag: int) | DeleteOp(key: string)

  datatype Result = Data(value: Option<string>) | Code(rc: int)

  predicate OpOk(op: Op) {
    op.StoreOp? ==> KeyOk(op.key) && NUL !in op.data
  }

  function StepMap(m: map<string, string>, op: Op): map<string, string> {
    match op
    case FetchOp(_) => m
    case StoreOp(key, data, flag) => StoreMap(m, key, data, flag)
    case DeleteOp(key) => m - {key}
  }

  function StepResult(m: map<string, string>, op: Op): Result {
    match op
    case FetchOp(key) => Data(if key in m then Some(m[key]) else None)
    case StoreOp(key, _, flag) => Code(StoreCode(m, key, flag))
    case DeleteOp(key) => Code(if key in m then 0 else -1)
  }

  /** What each call answers and what it makes of the map */
  lemma StepIs(m: map<string, string>, op: Op)
    ensures var res, after := StepResult(m, op), StepMap(m, op);
            match op
            case FetchOp(key) =>
              res == Data(if key in m then Some(m[key]) else None) && after == m
            case DeleteOp(key) => res == Code(if key in m then 0 else -1) && after == m - {key}
            case StoreOp(key, data, flag) =>
              && res == Code(if flag == DB_INSERT && key in m then 1
                            else if flag == DB_REPLACE && key !in m then -1
                            else if flag != DB_INSERT && flag != DB_REPLACE && flag != DB_STORE then -1 else 0)
              && after == if res == Code(0) then m[key := data] else m
  {
  }

  /** The answer of a call, and what becomes of the map */
  predicate Answers(op: Op, res: Result, before: map<string, string>, after: map<string, string>) {
    match op
    case FetchOp(key) =>
      res == Data(if key in before then Some(before[key]) else None) && after == before
    case DeleteOp(key) => res == Code(if key in before then 0 else -1) && after == before - {key}
    case StoreOp(key, data, flag) =>
      && res == Code(if flag == DB_INSERT && key in before then 1
                    else if flag == DB_REPLACE && key !in before then -1
                    else if flag != DB_INSERT && flag != DB_REPLACE && flag != DB_STORE then -1 else 0)
      && after == if res == Code(0) then before[key := data] else before
  }

  function RunMap(m: map<string, string>, ops: seq<Op>): map<string, string> {
    if |ops| == 0 then m else StepMap(RunMap(m, ops[..|ops| - 1]), ops[|ops| - 1])
  }

  function RunResults(m: map<string, string>, ops: seq<Op>): seq<Result> {
    if |ops| == 0 then []
    else RunResults(m, ops[..|ops| - 1]) + [StepResult(RunMap(m, ops[..|ops| - 1]), ops[|ops| - 1])]
  }

  /** The answers of a run, and the map after each call, one by one */
  lemma {:induction false} RunIs(m: map<string, string>, ops: seq<Op>, n: nat)
    requires n < |ops|
    ensures RunMap(m, []) == m && |RunResults(m, ops)| == |ops|
    ensures Answers(ops[n], RunResults(m, ops)[n], RunMap(m, ops[..n]), RunMap(m, ops[..n + 1]))
  {
    hide StepMap, StepResult;
    StepIs(RunMap(m, ops[..n]), ops[n]);
    assert ops[..n + 1][..n] == ops[..n];
    ResultAt(m, ops, n);
  }

  lemma {:induction false} ResultAt(m: map<string, string>, ops: seq<Op>, n: nat)
    requires n < |ops|
    ensures |RunResults(m, ops)| == |ops| && RunResults(m, ops)[n] == StepResult(RunMap(m, ops[..n]), ops[n])
  {
    hide StepMap, StepResult;
    var k := |ops| - 1;
    if n < k {
      ResultAt(m, ops[..k], n);
      assert ops[..k][..n] == ops[..n];
    }
    ResultsLength(m, ops);
    ResultsLength(m, ops[..k]);
  }

  lemma {:induction false} ResultsLength(m: map<string, string>, ops: seq<Op>)
    ensures |RunResults(m, ops)| == |ops|
  {
    hide StepMap, StepResult;
    if |ops| > 0 {
      ResultsLength(m, ops[..|ops| - 1]);
    }
  }

  /** The first k answers of a run */
  lemma AnswersAre(m: map<string, string>, calls: seq<Op>, results: seq<Result>)
    requires |results| <= |calls| && results == RunResults(m, calls[..|results|])
    ensures forall n | 0 <= n < |results| ::
              Answers(calls[n], results[n], RunMap(m, calls[..n]), RunMap(m, calls[..n + 1]))
  {
    hide RunMap, RunResults, Answers;
    forall n | 0 <= n < |results|
      ensures Answers(calls[n], results[n], RunMap(m, calls[..n]), RunMap(m, calls[..n + 1]))
    {
      RunIs(m, calls[..|results|], n);
      assert calls[..|results|][..n] == calls[..n] && calls[..|results|][..n + 1] == calls[..n + 1];
    }
  }

  /** When a call ends its process */
  ghost predicate OpDies(ix: Index, sh: Shape, dat: string, op: Op)
    requires ix.nhash > 0
  {
    match op
    case FetchOp(key) => WalkDies(ix, sh, key)
    case StoreOp(key, data, flag) => StoreDies(ix, sh, dat, key, data, flag)
    case DeleteOp(key) => WalkDies(ix, sh, key)
  }

  /** Performs one operation through one handle. */
  method Perform(db: DB, op: Op) returns (res: Outcome<Result>)
    requires db.Valid() && OpOk(op)
    modifies db, db.disk
    ensures res.Died? <==> OpDies(old(db.disk.ix), old(db.disk.sh), old(db.disk.dat), op)
    ensures res.Died? ==> db.disk.WellFormed() && db.disk.Map() in {old(db.disk.Map()), old(db.disk.Map()) - {op.key}}
    ensures res.Returned? ==> Grown(old(db.disk.ix), db.disk.ix, old(db.disk.dat), db.disk.dat)
    ensures res.Returned? ==> db.Valid()
    ensures res.Returned? ==> db.disk.Map() == StepMap(old(db.disk.Map()), op)
    ensures res.Returned? ==> res.value == StepResult(old(db.disk.Map()), op)
    ensures res.Returned? ==>
              var before, after := old(db.disk.Map()), db.disk.Map();
              match op
              case FetchOp(key) =>
                res.value == Data(if key in before then Some(before[key]) else None) && after == before
              case DeleteOp(key) => res.value == Code(if key in before then 0 else -1) && after == before - {key}
              case StoreOp(key, data, flag) =>
                && res.value == Code(if flag == DB_INSERT && key in before then 1
                                    else if flag == DB_REPLACE && key !in before then -1
                                    else if flag != DB_INSERT && flag != DB_REPLACE && flag != DB_STORE then -1 else 0)
                && after == if res.value == Code(0) then before[key := data] else before
    ensures res.Returned? ==>
              && db.LiveDrift() == old(db.LiveDrift()) && db.FreeDrift() == old(db.FreeDrift())
              && db.TotalDrift() == old(db.TotalDrift())
  {
    StepIs(db.disk.Map(), op);
    assert db.disk.ix.nhash > 0;
    hide StoreDies, WalkDies, Shaped, Layout, Encodes, ExtentsOk, Contents, StoreMap, StoreCode, MapAfterDeath;
    match op
    case FetchOp(key) =>
      var p := db.Fetch(key);
      res := match p case Returned(d) => Returned(Data(d)) case Died => Died;
    case StoreOp(key, data, flag) =>
      DeathMaps(db.disk.ix, db.disk.sh, db.disk.Map(), key, data);
      StoreIs(db.disk.Map(), key, data, flag);
      var rc := db.Store(key, data, flag);
      res := match rc case Returned(c) => Returned(Code(c)) case Died => Died;
    case DeleteOp(key) =>
      var rc := db.Delete(key);
      res := match rc case Returned(c) => Returned(Code(c)) case Died => Died;
  }

  lemma DeathMaps(ix: Index, sh: Shape, m: map<string, string>, key: string, data: string)
    requires ix.nhash > 0
    ensures MapAfterDeath(ix, sh, m, key, data) in {m, m - {key}}
  {
  }

  /** There is room in both files for n calls that each append a record. */
  predicate Room(size: int, datsize: int, n: int) {
    size + RECORD_MAX * n <= PTR_MAX && datsize + DATLEN_MAX * n <= PTR_MAX
  }

  /** A store has data of a legal length, and a key that is not empty, leaves room for the
      numbers and has no separator. */
  predicate LengthsOk(op: Op) {
    op.StoreOp? ==> 1 <= |op.key| <= KEY_MAX && SEP !in op.key && DATLEN_MIN <= |op.data| + 1 <= DATLEN_MAX
  }

  /** Every key can be read back. */
  ghost predicate AllReadable(m: map<string, string>) {
    forall key | key in m :: SEP !in key
  }

  /** What makes sure that call n of a run returns: legal lengths, no key in the database
      that cannot be read, and room for what all calls so far may have added */
  ghost predicate Safe(size: int, datsize: int, m: map<string, string>, ops: seq<Op>, n: nat)
    requires n < |ops|
  {
    LengthsOk(ops[n]) && AllReadable(RunMap(m, ops[..n])) && Room(size, datsize, n + 1)
  }

  /** What a caller can check before a run to be sure that no call of it dies */
  ghost predicate Affordable(size: int, datsize: int, m: map<string, string>, ops: seq<Op>) {
    Room(size, datsize, |ops|) && AllReadable(m) && forall i | 0 <= i < |ops| :: LengthsOk(ops[i])
  }

  lemma AffordableIs(size: int, datsize: int, m: map<string, string>, ops: seq<Op>)
    ensures Affordable(size, datsize, m, ops) <==>
              && size + 1035 * |ops| <= 9999999 && datsize + 1024 * |ops| <= 9999999
              && (forall key | key in m :: ':' !in key)
              && forall i | 0 <= i < |ops| && ops[i].StoreOp? ::
                   1 <= |ops[i].key| <= 1010 && ':' !in ops[i].key && 2 <= |ops[i].data| + 1 <= 1024
  {
    assert Affordable(size, datsize, m, ops) ==> forall i | 0 <= i < |ops| :: LengthsOk(ops[i]);
  }

  lemma {:induction false} AffordableIsSafe(size: int, datsize: int, m: map<string, string>, ops: seq<Op>, n: nat)
    requires Affordable(size, datsize, m, ops) && n < |ops|
    ensures Safe(size, datsize, m, ops, n)
  {
    hide AllReadable, LengthsOk, StepMap;
    ReadableSoFar(m, ops, n);
  }

  lemma {:induction false} ReadableSoFar(m: map<string, string>, ops: seq<Op>, n: nat)
    requires AllReadable(m) && n <= |ops| && forall i | 0 <= i < n :: LengthsOk(ops[i])
    ensures AllReadable(RunMap(m, ops[..n]))
  {
    hide AllReadable, LengthsOk, StepMap;
    if n > 0 {
      ReadableSoFar(m, ops, n - 1);
      assert ops[..n][..n - 1] == ops[..n - 1];
      StaysReadable(RunMap(m, ops[..n - 1]), ops[n - 1]);
    }
  }

  lemma StaysReadable(m: map<string, string>, op: Op)
    requires AllReadable(m) && LengthsOk(op)
    ensures AllReadable(StepMap(m, op))
  {
  }

  lemma Survives(ix: Index, sh: Shape, dat: string, op: Op)
    requires LengthsOk(op) && Room(ix.size, |dat|, 1)
    requires Layout(ix) && Shaped(ix, sh, {}) && AllReadable(Contents(ix.recs, sh.loc, dat))
    ensures !OpDies(ix, sh, dat, op)
  {
    hide WalkDies;
    WalkLives(ix, sh, dat, op.key);
    if op.StoreOp? {
      RoomToAppend(ix, dat, op.key, op.data);
    }
  }

  /** The same with a condition that speaks of the map and the sizes only: with legal
      lengths, room for one more record and no key that cannot be read the call returns. */
  method PerformSafely(db: DB, op: Op) returns (res: Outcome<Result>)
    requires db.Valid() && OpOk(op)
    modifies db, db.disk
    ensures res.Returned? ==> db.Valid()
    ensures res.Returned? ==> db.disk.Map() == StepMap(old(db.disk.Map()), op)
    ensures res.Returned? ==> res.value == StepResult(old(db.disk.Map()), op)
    ensures res.Died? ==> db.disk.WellFormed() && db.disk.Map() in {old(db.disk.Map()), old(db.disk.Map()) - {op.key}}
    ensures LengthsOk(op) && AllReadable(old(db.disk.Map())) && Room(old(db.disk.ix.size), old(|db.disk.dat|), 1) ==>
              res.Returned?
    ensures res.Returned? ==> Grown(old(db.disk.ix), db.disk.ix, old(db.disk.dat), db.disk.dat)
    ensures res.Returned? ==>
              && db.LiveDrift() == old(db.LiveDrift()) && db.FreeDrift() == old(db.FreeDrift())
              && db.TotalDrift() == old(db.TotalDrift())
  {
    hide StepMap, StepResult, Contents, OpDies, Room, LengthsOk, AllReadable, Shaped, Disk.WellFormed;
    if LengthsOk(op) && AllReadable(db.disk.Map()) && Room(db.disk.ix.size, |db.disk.dat|, 1) {
      Parts(db.disk);
      Survives(db.disk.ix, db.disk.sh, db.disk.dat, op);
    }
    res := Perform(db, op);
  }

  lemma Parts(disk: Disk)
    requires disk.WellFormed()
    ensures Layout(disk.ix) && |disk.idx| == disk.ix.size
  {
  }

  /** n calls have not added more than n records to either file. */
  predicate Within(size: int, datsize: int, size': int, datsize': int, n: int) {
    size' <= size + RECORD_MAX * n && datsize' <= datsize + DATLEN_MAX * n
  }

  lemma WithinNext(size: int, datsize: int, ix: Index, dat: string, n: int)
    requires Within(size, datsize, ix.size, |dat|, n)
    ensures Room(size, datsize, n + 1) ==> Room(ix.size, |dat|, 1)
    ensures forall ix', dat' | Grown(ix, ix', dat, dat') :: Within(size, datsize, ix'.size, |dat'|, n + 1)
  {
  }

  /** The refinement theorem: however the operations are spread over the handles, the
      results are those of the abstract map, up to the end or to a call that dies.  Such a
      call is not Safe, and leaves the map as it was or without the call's key. */
  method Run(handles: seq<DB>, disk: Disk, ops: seq<(int, Op)>) returns (results: seq<Result>, died: bool)
    requires forall i | 0 <= i < |handles| :: handles[i].disk == disk && handles[i].Valid()
    requires forall i | 0 <= i < |ops| :: 0 <= ops[i].0 < |handles| && OpOk(ops[i].1)
    requires disk.Valid()
    modifies handles, disk
    ensures |results| <= |ops| && (!died <==> |results| == |ops|)
    ensures results == RunResults(old(disk.Map()), Calls(ops)[..|results|])
    ensures RunMap(old(disk.Map()), []) == old(disk.Map())
    ensures forall n | 0 <= n < |results| ::
              var m, calls := old(disk.Map()), Calls(ops);
              Answers(calls[n], results[n], RunMap(m, calls[..n]), RunMap(m, calls[..n + 1]))
    ensures !died ==> disk.Valid() && disk.Map() == RunMap(old(disk.Map()), Calls(ops))
    ensures died ==> !Safe(old(disk.ix.size), old(|disk.dat|), old(disk.Map()), Calls(ops), |results|)
    ensures died ==> disk.WellFormed() && LeftByDeath(old(disk.Map()), Calls(ops), |results|, disk.Map())
    ensures died ==>
              || old(|disk.idx|) + 1035 * |ops| > 9999999 || old(|disk.dat|) + 1024 * |ops| > 9999999
              || (exists key :: key in old(disk.Map()) && ':' in key)
              || exists i :: 0 <= i < |ops| && Calls(ops)[i].StoreOp? &&
                   var op := Calls(ops)[i]; !(1 <= |op.key| <= 1010 && ':' !in op.key && 2 <= |op.data| + 1 <= 1024)
  {
    hide StepMap, StepResult, Contents, Room, LengthsOk, AllReadable, Shaped, Disk.WellFormed, OpOk, Disk.Map, Within,
         Grown, Affordable;
    Parts(disk);
    AffordableIs(disk.ix.size, |disk.dat|, disk.Map(), Calls(ops));
    results, died := [], false;
    ghost var calls, m0 := Calls(ops), disk.Map();
    ghost var size, datsize := disk.ix.size, |disk.dat|;
    WithinStart(size, datsize);
    hide Answers;
    for n := 0 to |ops|
      invariant |results| == n && disk.Valid()
      invariant forall i | 0 <= i < |handles| :: handles[i].Valid()
      invariant disk.Map() == RunMap(m0, calls[..n])
      invariant results == RunResults(m0, calls[..n])
      invariant Within(size, datsize, disk.ix.size, |disk.dat|, n)
    {
      assert calls[..n + 1][..n] == calls[..n];
      WithinNext(size, datsize, disk.ix, disk.dat, n);
      if Affordable(size, datsize, m0, calls) {
        AffordableIsSafe(size, datsize, m0, calls, n);
      }
      var res := PerformSafely(handles[ops[n].0], ops[n].1);
      if res.Died? {
        AnswersAre(m0, calls, results);
        return results, true;
      }
      results := results + [res.value];
    }
    assert calls[..|ops|] == calls;
    AnswersAre(m0, calls, results);
  }

  /** What call n leaves when it dies: the map as it was, or without the call's key */
  ghost predicate LeftByDeath(m: map<string, string>, ops: seq<Op>, n: nat, left: map<string, string>)
    requires n < |ops|
  {
    var before := RunMap(m, ops[..n]);
    left == before || left == before - {ops[n].key}
  }

  /** A database created empty and used through one handle: the counters account for
      every record, live or free, after any number of operations. */
  method RunFresh(nhash: nat, ops: seq<Op>) returns (db: DB, results: seq<Result>, died: bool)
    requires nhash > 0 && forall i | 0 <= i < |ops| :: OpOk(ops[i])
    ensures |results| <= |ops| && (!died <==> |results| == |ops|)
    ensures results == RunResults(map[], ops[..|results|])
    ensures forall n | 0 <= n < |results| ::
              Answers(ops[n], results[n], RunMap(map[], ops[..n]), RunMap(map[], ops[..n + 1]))
    ensures died ==> !Safe(HeaderSize(nhash), 0, map[], ops, |results|)
    ensures died ==> db.disk.WellFormed() && LeftByDeath(map[], ops, |results|, db.disk.Map())
    ensures died ==>
              || 7 * (nhash + 1) + 1 + 1035 * |ops| > 9999999 || 1024 * |ops| > 9999999
              || exists i :: 0 <= i < |ops| && ops[i].StoreOp? &&
                   !(1 <= |ops[i].key| <= 1010 && ':' !in ops[i].key && 2 <= |ops[i].data| + 1 <= 1024)
    ensures !died ==>
              && db.Valid() && db.disk.Map() == RunMap(map[], ops)
              && |db.disk.sh.loc| == db.cntStor1 + db.cntStor2 - db.cntDelok
              && FreeLen(db.disk.sh) == db.cntDelok + db.cntStor3 - db.cntStor2
              && |db.disk.ix.recs| == db.cntStor1 + db.cntStor3
  {
    hide StepMap, StepResult, Contents, Room, LengthsOk, AllReadable, Shaped, Disk.WellFormed, OpOk, Disk.Map, Within,
         Grown, Affordable, DB.LiveDrift, DB.FreeDrift, DB.TotalDrift;
    AffordableIs(HeaderSize(nhash), 0, map[], ops);
    db := new DB.Create(nhash);
    results, died := [], false;
    WithinStart(db.disk.ix.size, 0);
    hide Answers;
    for n := 0 to |ops|
      invariant |results| == n && db.Valid() && fresh(db) && fresh(db.disk)
      invariant db.disk.Map() == RunMap(map[], ops[..n])
      invariant results == RunResults(map[], ops[..n])
      invariant Within(HeaderSize(nhash), 0, db.disk.ix.size, |db.disk.dat|, n)
      invariant db.LiveDrift() == db.FreeDrift() == db.TotalDrift() == 0
    {
      assert ops[..n + 1][..n] == ops[..n];
      WithinNext(HeaderSize(nhash), 0, db.disk.ix, db.disk.dat, n);
      if Affordable(HeaderSize(nhash), 0, map[], ops) {
        AffordableIsSafe(HeaderSize(nhash), 0, map[], ops, n);
      }
      var res := PerformSafely(db, ops[n]);
      if res.Died? {
        AnswersAre(map[], ops, results);
        return db, results, true;
      }
      results := results + [res.value];
    }
    assert ops[..|ops|] == ops;
    Drifts(db);
    AnswersAre(map[], ops, results);
  }

  lemma WithinStart(size: int, datsize: int)
    ensures Within(size, datsize, size, datsize, 0)
  {
  }

  /** Without drift the counters give the numbers of records. */
  lemma Drifts(db: DB)
    requires db.LiveDrift() == db.FreeDrift() == db.TotalDrift() == 0
    ensures |db.disk.sh.loc| == db.cntStor1 + db.cntStor2 - db.cntDelok
    ensures FreeLen(db.disk.sh) == db.cntDelok + db.cntStor3 - db.cntStor2
    ensures |db.disk.ix.recs| == db.cntStor1 + db.cntStor3
  {
  }

  function Calls(ops: seq<(int, Op)>): (calls: seq<Op>)
    ensures |calls| == |ops|
    ensures forall i | 0 <= i < |ops| :: calls[i] == ops[i].1
  {
    seq(|ops|, i requires 0 <= i < |ops| => ops[i].1)
  }

  /** An operation on one key leaves every other key as it was, and a fetch leaves them all. */
  lemma OtherKeysKept(m: map<string, string>, op: Op, key: string)
    requires key != op.key || op.FetchOp?
    ensures key in StepMap(m, op) <==> key in m
    ensures key in m ==> StepMap(m, op)[key] == m[key]
  {
  }
}
