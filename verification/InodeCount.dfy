/** The counter thread: adds up sizes, counting each inode once as long as the table of
    inodes has room. */
module InodeCount {
  import opened Common
  import opened ScanBuffer

  /** The inodes delivered, each at its first delivery */
  function Distinct(nodes: seq<Node>): seq<int> {
    if |nodes| == 0 then []
    else
      var d := Distinct(nodes[..|nodes| - 1]);
      if nodes[|nodes| - 1].inode in d then d else d + [nodes[|nodes| - 1].inode]
  }

  /** The total the program is meant for: every inode with the size first delivered */
  function FirstSizes(nodes: seq<Node>): nat {
    if |nodes| == 0 then 0
    else
      FirstSizes(nodes[..|nodes| - 1]) +
      if nodes[|nodes| - 1].inode in Distinct(nodes[..|nodes| - 1]) then 0 else nodes[|nodes| - 1].size
  }

  /** What the table of at most max inodes holds */
  function Table(nodes: seq<Node>, max: nat): (t: seq<int>)
    ensures |t| <= max
  {
    if |nodes| == 0 then []
    else
      var t := Table(nodes[..|nodes| - 1], max);
      if nodes[|nodes| - 1].inode !in t && |t| < max then t + [nodes[|nodes| - 1].inode] else t
  }

  /** Sizes counted again because the inode had no place in the table */
  function Recounted(nodes: seq<Node>, max: nat): nat {
    if |nodes| == 0 then 0
    else
      var before, last := nodes[..|nodes| - 1], nodes[|nodes| - 1];
      Recounted(before, max) +
      if last.inode in Distinct(before) && last.inode !in Table(before, max) then last.size else 0
  }

  /** The inodes that have been delivered, and none else */
  lemma {:induction false} DistinctIs(nodes: seq<Node>, inode: int)
    ensures inode in Distinct(nodes) <==> exists i :: 0 <= i < |nodes| && nodes[i].inode == inode
  {
    if |nodes| > 0 {
      var m := |nodes| - 1;
      DistinctIs(nodes[..m], inode);
      forall i | 0 <= i < m ensures nodes[..m][i] == nodes[i] {
      }
    }
  }

  /** What one more node adds: to the list of inodes and to the total meant, if its inode has
      not been delivered before; to what is counted again, if it has and found no place. */
  lemma OneMore(nodes: seq<Node>, node: Node, max: nat)
    ensures Distinct([]) == [] && FirstSizes([]) == 0 && Recounted([], max) == 0
    ensures var known := exists i :: 0 <= i < |nodes| && nodes[i].inode == node.inode;
            var d := Distinct(nodes);
            && Distinct(nodes + [node]) == (if known then d else d + [node.inode])
            && Known(nodes + [node], max) ==
               Known(nodes, max) + (if node.inode in d[..if |d| < max then |d| else max] then 1 else 0)
            && FirstSizes(nodes + [node]) == FirstSizes(nodes) + (if known then 0 else node.size)
            && Recounted(nodes + [node], max) ==
               Recounted(nodes, max) +
               if known && node.inode !in d[..if |d| < max then |d| else max] then node.size else 0
  {
    assert (nodes + [node])[..|nodes|] == nodes;
    DistinctIs(nodes, node.inode);
    TableIsPrefix(nodes, max);
  }

  /** Deliveries of an inode that is in the table by then */
  function Known(nodes: seq<Node>, max: nat): nat {
    if |nodes| == 0 then 0
    else
      var before := nodes[..|nodes| - 1];
      Known(before, max) + if nodes[|nodes| - 1].inode in Table(before, max) then 1 else 0
  }

  lemma {:induction false} DistinctNoRepeat(nodes: seq<Node>)
    ensures NoRepeat(Distinct(nodes))
  {
    if |nodes| > 0 {
      DistinctNoRepeat(nodes[..|nodes| - 1]);
    }
  }

  /** The table is filled with the first inodes delivered and never changes once full. */
  lemma {:induction false} TableIsPrefix(nodes: seq<Node>, max: nat)
    ensures Table(nodes, max) == Distinct(nodes)[..if |Distinct(nodes)| < max then |Distinct(nodes)| else max]
  {
    if |nodes| > 0 {
      TableIsPrefix(nodes[..|nodes| - 1], max);
      var d := Distinct(nodes[..|nodes| - 1]);
      var t := Table(nodes[..|nodes| - 1], max);
      assert |t| < max ==> t == d;
    }
  }

  lemma {:induction false} DistinctGrows(nodes: seq<Node>, n: nat)
    requires n <= |nodes|
    ensures Distinct(nodes[..n]) <= Distinct(nodes)
  {
    if n < |nodes| {
      DistinctGrows(nodes[..|nodes| - 1], n);
      assert nodes[..|nodes| - 1][..n] == nodes[..n];
    } else {
      assert nodes[..n] == nodes;
    }
  }

  /** With room for every inode nothing is counted twice. */
  lemma {:induction false} NothingRecounted(nodes: seq<Node>, max: nat)
    requires |Distinct(nodes)| <= max
    ensures Recounted(nodes, max) == 0
  {
    if |nodes| > 0 {
      var before := nodes[..|nodes| - 1];
      DistinctGrows(nodes, |nodes| - 1);
      NothingRecounted(before, max);
      TableIsPrefix(before, max);
      assert Distinct(before)[..|Distinct(before)|] == Distinct(before);
    }
  }

  /** Every repeated delivery of an inode that is not in the table is of size 0. */
  ghost predicate RepeatsKnown(nodes: seq<Node>, max: nat) {
    forall i | 0 <= i < |nodes| && nodes[i].inode in Distinct(nodes[..i]) && nodes[i].inode !in Table(nodes, max) ::
      nodes[i].size == 0
  }

  /** An inode already delivered has its place in the table by then, or never. */
  lemma {:induction false} PlaceOrNever(nodes: seq<Node>, n: nat, max: nat, inode: int)
    requires n <= |nodes| && inode in Distinct(nodes[..n])
    ensures inode in Table(nodes[..n], max) <==> inode in Table(nodes, max)
  {
    TableIsPrefix(nodes[..n], max);
    TableIsPrefix(nodes, max);
    DistinctGrows(nodes, n);
    DistinctNoRepeat(nodes);
    var d, all := Distinct(nodes[..n]), Distinct(nodes);
    var i :| 0 <= i < |d| && d[i] == inode;
    assert all[i] == inode;
    var t, t' := Table(nodes[..n], max), Table(nodes, max);
    if i < max {
      assert t[i] == inode && t'[i] == inode;
    } else {
      forall j | 0 <= j < |t'| ensures t'[j] != inode {
        assert t'[j] == all[j];
      }
      forall j | 0 <= j < |t| ensures t[j] != inode {
        assert t[j] == d[j] == all[j];
      }
    }
  }

  /** Exactly when nothing is counted twice: no inode of positive size comes again that has
      not got a place in the table, which holds the first max distinct ones. */
  lemma {:induction false} RecountedNothingIff(nodes: seq<Node>, max: nat)
    ensures Recounted(nodes, max) == 0 <==> RepeatsKnown(nodes, max)
  {
    RecountedUpTo(nodes, |nodes|, max);
    assert nodes[..|nodes|] == nodes;
  }

  lemma {:induction false} RecountedUpTo(nodes: seq<Node>, n: nat, max: nat)
    requires n <= |nodes|
    ensures Recounted(nodes[..n], max) == 0 <==>
              forall i | 0 <= i < n && nodes[i].inode in Distinct(nodes[..i]) && nodes[i].inode !in Table(nodes, max) ::
                nodes[i].size == 0
  {
    hide Table, Distinct;
    if n > 0 {
      RecountedUpTo(nodes, n - 1, max);
      assert nodes[..n][..n - 1] == nodes[..n - 1];
      if nodes[n - 1].inode in Distinct(nodes[..n - 1]) {
        PlaceOrNever(nodes, n - 1, max, nodes[n - 1].inode);
      }
    }
  }

  class InodeTracker {
    const inodes: array<int>
    var count: int

    ghost predicate Valid()
      reads this
    {
      0 <= count <= inodes.Length
    }

    ghost function Contents(): seq<int>
      requires Valid()
      reads this, inodes
    {
      inodes[..count]
    }

    constructor (max: nat)
      ensures Valid() && fresh(inodes) && inodes.Length == max && Contents() == []
    {
      inodes := new int[max](_ => 0);
      count := 0;
    }

    /** is_inode_visited */
    method IsVisited(inode: int) returns (found: bool)
      requires Valid()
      modifies this`count, inodes
      ensures Valid() && found == (inode in old(Contents()))
      ensures Contents() == old(Contents()) + if !found && |old(Contents())| < inodes.Length then [inode] else []
    {
      found := false;
      var i := 0;
      while i < count
        invariant 0 <= i <= count && !found
        invariant inode !in inodes[..i]
      {
        if inodes[i] == inode {
          found := true;
          break;
        }
        i := i + 1;
      }
      if !found && count < inodes.Length {
        inodes[count] := inode;
        count := count + 1;
      }
    }
  }

  lemma CountStart(max: nat)
    ensures Distinct([]) == [] && FirstSizes([]) == 0 && Table([], max) == [] && Recounted([], max) == 0
    ensures Known([], max) == 0
  {
  }

  /** What one more node changes: the total grows by its size unless its inode is in the
      table, and skipped by one if it is; as long as the table has room for every inode
      it holds them all. */
  lemma CountNext(nodes: seq<Node>, n: nat, max: nat)
    requires n < |nodes|
    ensures var t, node := Table(nodes[..n], max), nodes[n];
            && Known(nodes[..n + 1], max) == Known(nodes[..n], max) + (if node.inode in t then 1 else 0)
            && Table(nodes[..n + 1], max) == (if node.inode !in t && |t| < max then t + [node.inode] else t)
            && FirstSizes(nodes[..n + 1]) + Recounted(nodes[..n + 1], max) ==
               FirstSizes(nodes[..n]) + Recounted(nodes[..n], max) + (if node.inode in t then 0 else node.size)
            && (|Distinct(nodes[..n + 1])| <= max ==>
                  && |Distinct(nodes[..n])| <= max
                  && |Distinct(nodes[..n + 1])| == |Distinct(nodes[..n])| + if node.inode in t then 0 else 1)
  {
    assert nodes[..n + 1][..n] == nodes[..n];
    TableIsPrefix(nodes[..n], max);
    var d := Distinct(nodes[..n]);
    assert |d| <= max ==> Table(nodes[..n], max) == d;
  }

  /** counter_thread, over the nodes in the order in which the buffer delivers them */
  method CounterThread(nodes: seq<Node>, max: nat) returns (total: nat, processed: nat, skipped: nat, table: seq<int>)
    ensures total == FirstSizes(nodes) + Recounted(nodes, max)
    ensures |Distinct(nodes)| <= max ==>
              total == FirstSizes(nodes) && table == Distinct(nodes) && processed == skipped + |table|
    ensures table == Distinct(nodes)[..if |Distinct(nodes)| < max then |Distinct(nodes)| else max]
    ensures processed == |nodes|
    ensures skipped == Known(nodes, max)
    ensures total == FirstSizes(nodes) <==> RepeatsKnown(nodes, max)
  {
    hide Distinct, FirstSizes, Table, Recounted, Known;
    var tracker := new InodeTracker(max);
    CountStart(max);
    assert nodes[..0] == [];
    total, processed, skipped := 0, 0, 0;
    var i := 0;
    while i < |nodes|
      invariant 0 <= i == processed <= |nodes|
      invariant tracker.Valid() && fresh(tracker) && fresh(tracker.inodes) && tracker.inodes.Length == max
      invariant tracker.Contents() == Table(nodes[..i], max)
      invariant total == FirstSizes(nodes[..i]) + Recounted(nodes[..i], max)
      invariant |Distinct(nodes[..i])| <= max ==> processed == skipped + |Distinct(nodes[..i])|
      invariant skipped == Known(nodes[..i], max)
    {
      CountNext(nodes, i, max);
      processed := processed + 1;
      var found := tracker.IsVisited(nodes[i].inode);
      if found {
        skipped := skipped + 1;
      } else {
        total := total + nodes[i].size;
      }
      i := i + 1;
    }
    assert nodes[..i] == nodes;
    table := tracker.inodes[..tracker.count];
    TableIsPrefix(nodes, max);
    RecountedNothingIff(nodes, max);
    if |Distinct(nodes)| <= max {
      NothingRecounted(nodes, max);
    }
  }
}
