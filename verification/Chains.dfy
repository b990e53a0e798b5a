/** The free list and the hash chains threaded through the pointer fields of the
    index file, and the surgery the library performs on them. */
module Chains {
  import opened Common
  import opened IndexFormat
  import opened IndexFile

  /** Where every record is.  lists[0] is the free list and lists[h + 1] is hash chain
      h; each list starts with the position of its head pointer.  owner gives the list
      a pointer field is on, loc the record that holds a key. */
  datatype Shape = Shape(lists: seq<seq<int>>, owner: map<int, int>, loc: map<string, int>)

  function Next(nodes: seq<int>, i: int): int
    requires 0 <= i < |nodes|
  {
    if i + 1 < |nodes| then nodes[i + 1] else 0
  }

  /** Node i of list k holds the offset of node i + 1. */
  ghost predicate Linked(ptrs: map<int, int>, owner: map<int, int>, nodes: seq<int>, k: int, i: int)
    requires 0 <= i < |nodes|
  {
    && nodes[i] in ptrs && nodes[i] in owner && owner[nodes[i]] == k
    && ptrs[nodes[i]] == Next(nodes, i)
  }

  ghost predicate ListOk(ptrs: map<int, int>, owner: map<int, int>, nodes: seq<int>, k: int) {
    && |nodes| >= 1 && nodes[0] == 7 * k && NoRepeat(nodes)
    && (forall i | 0 <= i < |nodes| :: Linked(ptrs, owner, nodes, k, i))
  }

  ghost predicate ListsOk(ptrs: map<int, int>, owner: map<int, int>, lists: seq<seq<int>>) {
    forall k | 0 <= k < |lists| :: ListOk(ptrs, owner, lists[k], k)
  }

  /** Each pointer field that has an owner is on its owner's list. */
  ghost predicate Covered(owner: map<int, int>, lists: seq<seq<int>>) {
    forall p | p in owner :: 0 <= owner[p] < |lists| && p in lists[owner[p]]
  }

  /** Free records have blank keys; the others are on the chain of their key's hash. */
  ghost predicate Filed(nhash: nat, recs: map<int, Rec>, owner: map<int, int>, loc: map<string, int>)
    requires nhash > 0
  {
    forall x | x in recs && x in owner ::
      if owner[x] == 0 then AllBlank(recs[x].key)
      else owner[x] == Hash(recs[x].key, nhash) + 1 && recs[x].key in loc && loc[recs[x].key] == x
  }

  ghost predicate Located(recs: map<int, Rec>, owner: map<int, int>, loc: map<string, int>) {
    forall key | key in loc ::
      loc[key] in recs && loc[key] in owner && owner[loc[key]] > 0 && recs[loc[key]].key == key
  }

  /** The partition invariant.  limbo holds the records that are on no list because
      an operation has taken them off one and not yet put them on another. */
  ghost predicate Shaped(ix: Index, sh: Shape, limbo: set<int>) {
    && ix.nhash > 0
    && |sh.lists| == ix.nhash + 1
    && limbo <= ix.recs.Keys
    && sh.owner.Keys == ix.ptrs.Keys - limbo
    && ListsOk(ix.ptrs, sh.owner, sh.lists)
    && Covered(sh.owner, sh.lists)
    && Filed(ix.nhash, ix.recs, sh.owner, sh.loc)
    && Located(ix.recs, sh.owner, sh.loc)
  }

  function Without<T>(s: seq<T>, i: int): seq<T>
    requires 0 <= i < |s|
  {
    s[..i] + s[i + 1..]
  }

  function Unlink(sh: Shape, k: int, i: int, loc: map<string, int>): Shape
    requires 0 <= k < |sh.lists| && 0 < i < |sh.lists[k]|
  {
    Shape(sh.lists[k := Without(sh.lists[k], i)], sh.owner - {sh.lists[k][i]}, loc)
  }

  function Push(sh: Shape, k: int, x: int, loc: map<string, int>): Shape
    requires 0 <= k < |sh.lists| && 0 < |sh.lists[k]|
  {
    Shape(sh.lists[k := [7 * k, x] + sh.lists[k][1..]], sh.owner[x := k], loc)
  }

  /** Record x is node i of list k, and prev the node before it. */
  ghost predicate NodeAt(sh: Shape, k: int, i: int, x: int, prev: int) {
    0 <= k < |sh.lists| && 0 < i < |sh.lists[k]| && sh.lists[k][i] == x && sh.lists[k][i - 1] == prev
  }

  // ---------- membership ----------

  lemma OnList(ix: Index, sh: Shape, limbo: set<int>, k: int, i: int)
    requires Shaped(ix, sh, limbo) && 0 <= k < |sh.lists| && 0 <= i < |sh.lists[k]|
    ensures ListOk(ix.ptrs, sh.owner, sh.lists[k], k) && Linked(ix.ptrs, sh.owner, sh.lists[k], k, i)
    ensures sh.lists[k][i] in ix.ptrs && sh.lists[k][i] !in limbo
  {
  }

  /** The head pointers are the fields in the header; every other node is a record. */
  lemma NodeKind(ix: Index, sh: Shape, limbo: set<int>, k: int, i: int)
    requires Layout(ix) && Shaped(ix, sh, limbo) && 0 <= k < |sh.lists| && 0 <= i < |sh.lists[k]|
    ensures i > 0 ==> sh.lists[k][i] in ix.recs && sh.lists[k][i] >= HeaderSize(ix.nhash)
    ensures sh.lists[k][0] !in ix.recs
  {
    OnList(ix, sh, limbo, k, i);
    OnList(ix, sh, limbo, k, 0);
    var p := sh.lists[k][i];
    HeaderEnd(ix, 7 * k);
    assert IsSlot(7 * k, ix.nhash);
    if i > 0 {
      if p !in ix.recs {
        assert IsSlot(p, ix.nhash);
        var m := p / 7;
        assert p == 7 * m && 0 <= m < |sh.lists|;
        OnList(ix, sh, limbo, m, 0);
        assert false;
      }
      HeaderEnd(ix, p);
    }
  }

  /** What following a pointer from node i of a list gives. */
  lemma Follow(ix: Index, sh: Shape, limbo: set<int>, k: int, i: int)
    requires Layout(ix) && Shaped(ix, sh, limbo) && 0 <= k < |sh.lists| && 0 <= i < |sh.lists[k]|
    ensures sh.lists[k][i] in ix.ptrs && ix.ptrs[sh.lists[k][i]] == Next(sh.lists[k], i)
    ensures Next(sh.lists[k], i) == 0 <==> i + 1 == |sh.lists[k]|
    ensures i + 1 < |sh.lists[k]| ==> sh.lists[k][i + 1] in ix.recs
  {
    OnList(ix, sh, limbo, k, i);
    if i + 1 < |sh.lists[k]| {
      NodeKind(ix, sh, limbo, k, i + 1);
    }
  }

  /** A walk of the key's own chain finds the record that holds it, and only that one. */
  lemma KeyOnChain(ix: Index, sh: Shape, limbo: set<int>, key: string)
    requires Layout(ix) && Shaped(ix, sh, limbo)
    ensures var k := Hash(key, ix.nhash) + 1;
            && 0 <= k < |sh.lists| && |sh.lists[k]| > 0
            && (key in sh.loc ==> sh.loc[key] in ix.recs && ix.recs[sh.loc[key]].key == key &&
                                  exists i :: 0 < i < |sh.lists[k]| && sh.lists[k][i] == sh.loc[key])
            && (forall i | 0 < i < |sh.lists[k]| :: sh.lists[k][i] in ix.recs &&
                 (ix.recs[sh.lists[k][i]].key == key ==> key in sh.loc && sh.loc[key] == sh.lists[k][i]))
  {
    var k := Hash(key, ix.nhash) + 1;
    if key in sh.loc {
      var x := sh.loc[key];
      assert sh.owner[x] == k && x in sh.lists[k];
      var i :| 0 <= i < |sh.lists[k]| && sh.lists[k][i] == x;
      NodeKind(ix, sh, limbo, k, 0);
      assert i > 0;
    }
    forall i | 0 < i < |sh.lists[k]|
      ensures sh.lists[k][i] in ix.recs
      ensures ix.recs[sh.lists[k][i]].key == key ==> key in sh.loc && sh.loc[key] == sh.lists[k][i]
    {
      OnList(ix, sh, limbo, k, i);
      NodeKind(ix, sh, limbo, k, i);
    }
  }

  // ---------- surgery ----------

  lemma WithoutNodes(s: seq<int>, i: int)
    requires 0 < i < |s| && NoRepeat(s)
    ensures NoRepeat(Without(s, i)) && Without(s, i)[0] == s[0]
    ensures forall p :: p in Without(s, i) <==> p in s && p != s[i]
  {
    var t := Without(s, i);
    forall p | p in s && p != s[i] ensures p in t {
      var j :| 0 <= j < |s| && s[j] == p;
      assert t[if j < i then j else j - 1] == p;
    }
  }

  lemma UnlinkList(ptrs: map<int, int>, owner: map<int, int>, nodes: seq<int>, k: int, i: int)
    requires ListOk(ptrs, owner, nodes, k) && 0 < i < |nodes|
    ensures nodes[i - 1] in ptrs && nodes[i] in ptrs
    ensures ListOk(ptrs[nodes[i - 1] := ptrs[nodes[i]]], owner - {nodes[i]}, Without(nodes, i), k)
  {
    assert Linked(ptrs, owner, nodes, k, i - 1) && Linked(ptrs, owner, nodes, k, i);
    WithoutNodes(nodes, i);
    var t := Without(nodes, i);
    var ptrs', owner' := ptrs[nodes[i - 1] := ptrs[nodes[i]]], owner - {nodes[i]};
    forall j | 0 <= j < |t| ensures Linked(ptrs', owner', t, k, j) {
      var m := if j < i then j else j + 1;
      assert t[j] == nodes[m];
      assert Linked(ptrs, owner, nodes, k, m);
    }
  }

  lemma OtherList(ptrs: map<int, int>, owner: map<int, int>, nodes: seq<int>, k: int,
                  ptrs': map<int, int>, owner': map<int, int>)
    requires ListOk(ptrs, owner, nodes, k)
    requires forall p | p in owner && owner[p] == k ::
               p in owner' && owner'[p] == k && (p in ptrs ==> p in ptrs' && ptrs'[p] == ptrs[p])
    ensures ListOk(ptrs', owner', nodes, k)
  {
    forall j | 0 <= j < |nodes| ensures Linked(ptrs', owner', nodes, k, j) {
      assert Linked(ptrs, owner, nodes, k, j);
    }
  }

  lemma UnlinkCovered(owner: map<int, int>, lists: seq<seq<int>>, k: int, i: int)
    requires Covered(owner, lists) && 0 <= k < |lists| && 0 < i < |lists[k]| && NoRepeat(lists[k])
    ensures Covered(owner - {lists[k][i]}, lists[k := Without(lists[k], i)])
  {
    WithoutNodes(lists[k], i);
  }

  lemma UnlinkFiled(nhash: nat, recs: map<int, Rec>, owner: map<int, int>, loc: map<string, int>, x: int)
    requires nhash > 0 && x in recs && x in owner
    requires Filed(nhash, recs, owner, loc) && Located(recs, owner, loc)
    ensures var loc' := if owner[x] > 0 then loc - {recs[x].key} else loc;
            Filed(nhash, recs, owner - {x}, loc') && Located(recs, owner - {x}, loc')
  {
  }

  lemma PushCovered(owner: map<int, int>, lists: seq<seq<int>>, k: int, x: int)
    requires Covered(owner, lists) && 0 <= k < |lists| && |lists[k]| > 0 && lists[k][0] == 7 * k
    ensures Covered(owner[x := k], lists[k := [7 * k, x] + lists[k][1..]])
  {
    var nodes := lists[k];
    var lists' := lists[k := [7 * k, x] + nodes[1..]];
    var owner' := owner[x := k];
    forall p | p in owner' ensures 0 <= owner'[p] < |lists'| && p in lists'[owner'[p]] {
      if p == x {
        assert lists'[k][1] == x;
      } else if owner[p] == k {
        var j :| 0 <= j < |nodes| && nodes[j] == p;
        assert lists'[k][if j == 0 then 0 else j + 1] == p;
      }
    }
  }

  /** Making the predecessor skip a record takes exactly that record off its list. */
  lemma UnlinkShaped(ix: Index, sh: Shape, limbo: set<int>, k: int, i: int, loc: map<string, int>)
    requires Layout(ix) && Shaped(ix, sh, limbo) && 0 <= k < |sh.lists| && 0 < i < |sh.lists[k]|
    requires var x := sh.lists[k][i];
             loc == if k > 0 && x in ix.recs then sh.loc - {ix.recs[x].key} else sh.loc
    ensures sh.lists[k][i - 1] in ix.ptrs && sh.lists[k][i] in ix.ptrs
    ensures Shaped(SetPtr(ix, sh.lists[k][i - 1], ix.ptrs[sh.lists[k][i]]), Unlink(sh, k, i, loc),
            limbo + {sh.lists[k][i]})
  {
    var nodes := sh.lists[k];
    var x, prev := nodes[i], nodes[i - 1];
    OnList(ix, sh, limbo, k, i);
    OnList(ix, sh, limbo, k, i - 1);
    NodeKind(ix, sh, limbo, k, i);
    UnlinkList(ix.ptrs, sh.owner, nodes, k, i);
    WithoutNodes(nodes, i);
    var ix' := SetPtr(ix, prev, ix.ptrs[x]);
    var sh' := Unlink(sh, k, i, loc);
    assert ListsOk(ix'.ptrs, sh'.owner, sh'.lists) by {
      forall m | 0 <= m < |sh'.lists| ensures ListOk(ix'.ptrs, sh'.owner, sh'.lists[m], m) {
        if m != k {
          OtherList(ix.ptrs, sh.owner, sh.lists[m], m, ix'.ptrs, sh'.owner);
        }
      }
    }
    UnlinkCovered(sh.owner, sh.lists, k, i);
    UnlinkFiled(ix.nhash, ix.recs, sh.owner, sh.loc, x);
    assert ix'.ptrs.Keys == ix.ptrs.Keys;
  }

  lemma PushList(ptrs: map<int, int>, owner: map<int, int>, nodes: seq<int>, k: int, x: int)
    requires ListOk(ptrs, owner, nodes, k) && x in ptrs && x !in owner && 7 * k in ptrs
    ensures ListOk(ptrs[x := ptrs[7 * k]][7 * k := x], owner[x := k], [7 * k, x] + nodes[1..], k)
  {
    assert Linked(ptrs, owner, nodes, k, 0);
    var t := [7 * k, x] + nodes[1..];
    var ptrs', owner' := ptrs[x := ptrs[7 * k]][7 * k := x], owner[x := k];
    forall j | 0 <= j < |t| ensures Linked(ptrs', owner', t, k, j) {
      if j > 1 {
        assert t[j] == nodes[j - 1] && Linked(ptrs, owner, nodes, k, j - 1);
      }
    }
    forall a, b | 0 <= a < b < |t| ensures t[a] != t[b] {
      if b > 1 {
        assert Linked(ptrs, owner, nodes, k, b - 1);
      }
    }
  }

  lemma PushFiled(nhash: nat, recs: map<int, Rec>, owner: map<int, int>, loc: map<string, int>,
                  k: int, x: int, loc': map<string, int>)
    requires nhash > 0 && k >= 0 && x in recs && x !in owner
    requires Filed(nhash, recs, owner, loc) && Located(recs, owner, loc)
    requires if k == 0 then AllBlank(recs[x].key) && loc' == loc
             else k == Hash(recs[x].key, nhash) + 1 && recs[x].key !in loc && loc' == loc[recs[x].key := x]
    ensures Filed(nhash, recs, owner[x := k], loc') && Located(recs, owner[x := k], loc')
  {
  }

  /** Writing the old head into a record and the record into the head puts exactly
      that record at the front of the list. */
  lemma PushShaped(ix: Index, sh: Shape, limbo: set<int>, k: int, x: int, loc: map<string, int>)
    requires Layout(ix) && Shaped(ix, sh, limbo) && 0 <= k < |sh.lists| && x in limbo
    requires if k == 0 then AllBlank(ix.recs[x].key) && loc == sh.loc
             else var key := ix.recs[x].key;
                  k == Hash(key, ix.nhash) + 1 && key !in sh.loc && loc == sh.loc[key := x]
    ensures 7 * k in ix.ptrs && x in ix.ptrs && |sh.lists[k]| > 0
    ensures Shaped(SetPtr(SetPtr(ix, x, ix.ptrs[7 * k]), 7 * k, x), Push(sh, k, x, loc), limbo - {x})
  {
    OnList(ix, sh, limbo, k, 0);
    NodeKind(ix, sh, limbo, k, 0);
    var nodes := sh.lists[k];
    PushList(ix.ptrs, sh.owner, nodes, k, x);
    var ix' := SetPtr(SetPtr(ix, x, ix.ptrs[7 * k]), 7 * k, x);
    var sh' := Push(sh, k, x, loc);
    assert ListsOk(ix'.ptrs, sh'.owner, sh'.lists) by {
      forall m | 0 <= m < |sh'.lists| ensures ListOk(ix'.ptrs, sh'.owner, sh'.lists[m], m) {
        if m != k {
          OtherList(ix.ptrs, sh.owner, sh.lists[m], m, ix'.ptrs, sh'.owner);
        }
      }
    }
    PushCovered(sh.owner, sh.lists, k, x);
    PushFiled(ix.nhash, ix.recs, sh.owner, sh.loc, k, x, loc);
    assert ix'.ptrs.Keys == ix.ptrs.Keys;
  }

  /** A record in limbo may be rewritten freely. */
  lemma RewriteLimbo(ix: Index, sh: Shape, limbo: set<int>, x: int, v: int, r: Rec)
    requires Shaped(ix, sh, limbo) && x in limbo && x in ix.ptrs
    ensures Shaped(SetRec(ix, x, v, r), sh, limbo)
  {
    var ix' := SetRec(ix, x, v, r);
    assert ListsOk(ix'.ptrs, sh.owner, sh.lists) by {
      forall m | 0 <= m < |sh.lists| ensures ListOk(ix'.ptrs, sh.owner, sh.lists[m], m) {
        OtherList(ix.ptrs, sh.owner, sh.lists[m], m, ix'.ptrs, sh.owner);
      }
    }
  }

  /** A record just appended is in limbo until a chain points to it. */
  lemma AddLimbo(ix: Index, sh: Shape, limbo: set<int>, v: int, r: Rec)
    requires Shaped(ix, sh, limbo) && ix.size !in ix.ptrs && ix.size !in ix.recs
    ensures Shaped(AddRec(ix, v, r), sh, limbo + {ix.size})
  {
    var ix' := AddRec(ix, v, r);
    assert ListsOk(ix'.ptrs, sh.owner, sh.lists) by {
      forall m | 0 <= m < |sh.lists| ensures ListOk(ix'.ptrs, sh.owner, sh.lists[m], m) {
        OtherList(ix.ptrs, sh.owner, sh.lists[m], m, ix'.ptrs, sh.owner);
      }
    }
    assert sh.owner.Keys == ix'.ptrs.Keys - (limbo + {ix.size});
  }

  /** All lists empty */
  function FreshShape(nhash: nat): Shape {
    Shape(seq(nhash + 1, k => [7 * k]), map p: int | 0 <= p <= 7 * nhash && p % 7 == 0 :: p / 7, map[])
  }

  lemma FreshShaped(nhash: nat)
    requires nhash > 0
    ensures Shaped(FreshIndex(nhash), FreshShape(nhash), {})
  {
    var ix, sh := FreshIndex(nhash), FreshShape(nhash);
    forall k | 0 <= k < |sh.lists| ensures ListOk(ix.ptrs, sh.owner, sh.lists[k], k) {
      assert sh.lists[k] == [7 * k];
      assert IsSlot(7 * k, nhash);
    }
    forall p | p in sh.owner ensures 0 <= sh.owner[p] < |sh.lists| && p in sh.lists[sh.owner[p]] {
      var j := p / 7;
      assert p == 7 * j && sh.lists[j] == [7 * j];
    }
  }
}
