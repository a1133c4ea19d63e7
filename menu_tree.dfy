/** The labelled tree shared by the navigation-menu editors: top-level (1st)
    nodes whose `children` hold 2nd-level nodes, whose `children` hold 3rd-level
    leaves with a `path`. Ids are allocated as "largest id anywhere + 1", inserts
    go under a chosen parent, and deletes drop a node with its whole subtree. */
module MenuTree {
  import opened Common

  /** A node's `children` key: missing, or an array. */
  datatype Children = NoChildren | ChildList(nodes: seq<MenuNode>)

  datatype MenuNode = MenuNode(id: int, name: string, path: Option<string>, children: Children)

  /** `n.children ?? []` */
  function Kids(n: MenuNode): seq<MenuNode> {
    match n.children
    case NoChildren => []
    case ChildList(ns) => ns
  }

  /** Every id of the forest, in pre-order. */
  function IdList(nodes: seq<MenuNode>): seq<int>
    decreases nodes
  {
    if nodes == [] then [] else SubtreeIds(nodes[0]) + IdList(nodes[1..])
  }

  /** Every id of the subtree rooted at `n`, in pre-order. */
  function SubtreeIds(n: MenuNode): seq<int>
    decreases n
  {
    [n.id] + match n.children
             case NoChildren => []
             case ChildList(ns) => IdList(ns)
  }

  lemma SubtreeIdsKids(n: MenuNode)
    ensures SubtreeIds(n) == [n.id] + IdList(Kids(n))
  {
  }

  lemma {:induction false} IdListAppend(a: seq<MenuNode>, b: seq<MenuNode>)
    ensures IdList(a + b) == IdList(a) + IdList(b)
  {
    if a == [] {
      assert a + b == b;
    } else {
      assert (a + b)[0] == a[0] && (a + b)[1..] == a[1..] + b;
      IdListAppend(a[1..], b);
    }
  }

  lemma {:induction false} IdListSplit(t: seq<MenuNode>, i: int)
    requires 0 <= i <= |t|
    ensures IdList(t) == IdList(t[..i]) + IdList(t[i..])
  {
    if i == 0 {
      assert t[..0] == [] && t[0..] == t;
    } else {
      var h, rest := t[..i], t[1..];
      IdListSplit(rest, i - 1);
      assert rest[..i - 1] == h[1..] && rest[i - 1..] == t[i..];
      assert h[0] == t[0];
      assert IdList(h) == SubtreeIds(t[0]) + IdList(h[1..]);
    }
  }

  /** The ids of the first `i + 1` nodes: those of the first `i`, then the subtree of node `i`. */
  lemma IdListSnoc(t: seq<MenuNode>, i: int)
    requires 0 <= i < |t|
    ensures IdList(t[..i + 1]) == IdList(t[..i]) + SubtreeIds(t[i])
  {
    var u := t[..i + 1];
    IdListSplit(u, i);
    assert u[..i] == t[..i];
    var w := u[i..];
    assert w[0] == t[i] && w[1..] == [];
    assert IdList(w) == SubtreeIds(t[i]) + IdList(w[1..]);
  }

  lemma IdListSingle(n: MenuNode)
    ensures IdList([n]) == SubtreeIds(n)
  {
    assert [n][1..] == [];
  }

  lemma IdListCons(n: MenuNode, rest: seq<MenuNode>)
    ensures IdList([n] + rest) == SubtreeIds(n) + IdList(rest)
  {
    assert ([n] + rest)[0] == n && ([n] + rest)[1..] == rest;
  }

  /** The subtree of any node of the forest is part of the forest's ids. */
  lemma {:induction false} SubtreeInIdList(t: seq<MenuNode>, i: int)
    requires 0 <= i < |t|
    ensures multiset(SubtreeIds(t[i])) <= multiset(IdList(t))
  {
    if i > 0 {
      SubtreeInIdList(t[1..], i - 1);
    }
  }

  /** No id occurs twice. */
  ghost predicate UniqueIds(ids: seq<int>) {
    forall v :: multiset(ids)[v] <= 1
  }

  lemma UniqueParts(a: seq<int>, b: seq<int>)
    requires UniqueIds(a + b)
    ensures UniqueIds(a) && UniqueIds(b)
  {
    assert multiset(a + b) == multiset(a) + multiset(b);
    forall v
      ensures multiset(a)[v] <= 1 && multiset(b)[v] <= 1
    {
      assert multiset(a + b)[v] == multiset(a)[v] + multiset(b)[v];
    }
  }

  lemma UniqueApart(a: seq<int>, b: seq<int>, v: int)
    requires UniqueIds(a + b)
    ensures v in a ==> v !in b
  {
    assert multiset(a + b) == multiset(a) + multiset(b);
    assert multiset(a + b)[v] == multiset(a)[v] + multiset(b)[v];
  }

  lemma UniqueSub(a: seq<int>, b: seq<int>)
    requires multiset(a) <= multiset(b) && UniqueIds(b)
    ensures UniqueIds(a)
  {
    forall v
      ensures multiset(a)[v] <= 1
    {
      assert multiset(a)[v] <= multiset(b)[v];
    }
  }

  /** The id the editors give a new node: one more than the largest id at any
      depth, and 1 for an empty tree. */
  function NextMenuId(menus: seq<MenuNode>): (r: int)
    ensures r >= 1
    ensures forall i :: 0 <= i < |IdList(menus)| ==> IdList(menus)[i] < r
    ensures r == 1 || r - 1 in IdList(menus)
    ensures menus == [] ==> r == 1
  {
    MaxId(IdList(menus)) + 1
  }

  /** The fresh id is not the id of any node already in the tree. */
  lemma NextMenuIdIsFresh(menus: seq<MenuNode>)
    ensures NextMenuId(menus) !in IdList(menus)
  {
  }

  /** The children of one node hold fewer nodes than the whole forest. */
  lemma KidsSmaller(nodes: seq<MenuNode>, i: int)
    requires 0 <= i < |nodes|
    ensures |IdList(Kids(nodes[i]))| < |IdList(nodes)|
  {
    assert nodes == nodes[..i] + ([nodes[i]] + nodes[i + 1..]);
    IdListAppend(nodes[..i], [nodes[i]] + nodes[i + 1..]);
    IdListCons(nodes[i], nodes[i + 1..]);
    SubtreeIdsKids(nodes[i]);
  }

  lemma MaxIdSubtree(n: MenuNode)
    ensures MaxId(SubtreeIds(n)) == Max(MaxId([n.id]), MaxId(IdList(Kids(n))))
  {
    SubtreeIdsKids(n);
    MaxIdAppend([n.id], IdList(Kids(n)));
  }

  /** The recursive `walk` of the allocator: visits every node of `nodes` in
      order, raising `max` to the node's id and descending into non-empty
      children. */
  method Walk(nodes: seq<MenuNode>, max0: int) returns (max: int)
    requires max0 >= 0
    ensures max == Max(max0, MaxId(IdList(nodes)))
    decreases |IdList(nodes)|
  {
    max := max0;
    for i := 0 to |nodes|
      invariant max == Max(max0, MaxId(IdList(nodes[..i])))
    {
      var n := nodes[i];
      max := Max(max, n.id);
      if |Kids(n)| > 0 {
        KidsSmaller(nodes, i);
        max := Walk(Kids(n), max);
      }
      IdListSnoc(nodes, i);
      MaxIdAppend(IdList(nodes[..i]), SubtreeIds(n));
      MaxIdSubtree(n);
    }
    assert nodes[..|nodes|] == nodes;
  }

  /** `nextMenuIdFrom`: a mutable `max` from 0, raised by a walk over every node. */
  method NextMenuIdFrom(menus: seq<MenuNode>) returns (id: int)
    ensures id == NextMenuId(menus)
  {
    var max := 0;
    max := Walk(menus, max);
    id := max + 1;
  }

  // ---------------------------------------------------------------------------
  // Tree edits: `prev.map(m => m.id !== p ? m : edit(m))` and `prev.filter(...)`.
  // ---------------------------------------------------------------------------

  /** `t.map(m => m.id !== id ? m : f(m))` */
  function UpdateWhere(t: seq<MenuNode>, id: int, f: MenuNode -> MenuNode): (r: seq<MenuNode>)
    ensures |r| == |t|
  {
    if t == [] then []
    else [if t[0].id == id then f(t[0]) else t[0]] + UpdateWhere(t[1..], id, f)
  }

  /** The update replaces the nodes with that id by their image under `f` and
      keeps every other node where it was. */
  lemma {:induction false} UpdateWhereShape(t: seq<MenuNode>, id: int, f: MenuNode -> MenuNode)
    ensures forall i :: 0 <= i < |t| && t[i].id != id ==> UpdateWhere(t, id, f)[i] == t[i]
    ensures forall i :: 0 <= i < |t| && t[i].id == id ==> UpdateWhere(t, id, f)[i] == f(t[i])
  {
    if t != [] {
      UpdateWhereShape(t[1..], id, f);
      var r := UpdateWhere(t, id, f);
      assert r[1..] == UpdateWhere(t[1..], id, f);
      forall i | 0 < i < |t|
        ensures r[i] == UpdateWhere(t[1..], id, f)[i - 1] && t[i] == t[1..][i - 1]
      {
      }
    }
  }

  lemma UpdateWhereCons(t: seq<MenuNode>, id: int, f: MenuNode -> MenuNode)
    requires t != []
    ensures UpdateWhere(t, id, f) == [if t[0].id == id then f(t[0]) else t[0]] + UpdateWhere(t[1..], id, f)
  {
  }

  /** Some top-level node has id `p`. */
  predicate HasTop(t: seq<MenuNode>, p: int) {
    exists i :: 0 <= i < |t| && t[i].id == p
  }

  lemma TopInIdList(t: seq<MenuNode>, i: int)
    requires 0 <= i < |t|
    ensures t[i].id in IdList(t)
  {
    SubtreeInIdList(t, i);
    assert t[i].id in multiset(SubtreeIds(t[i]));
  }

  /** `{ ...m, children: [...(m.children ?? []), x] }` */
  function AppendKid(x: MenuNode): MenuNode -> MenuNode {
    (m: MenuNode) => m.(children := ChildList(Kids(m) + [x]))
  }

  /** Appends `x` to the children of every top-level node with id `parent`;
      nothing else changes. */
  function AddChild(t: seq<MenuNode>, parent: int, x: MenuNode): (r: seq<MenuNode>)
    ensures |r| == |t|
  {
    UpdateWhere(t, parent, AppendKid(x))
  }

  /** Only the top-level nodes with id `parent` change, and only by the new last child `x`. */
  lemma AddChildShape(t: seq<MenuNode>, parent: int, x: MenuNode)
    ensures var r := AddChild(t, parent, x);
      forall i :: 0 <= i < |t| && t[i].id != parent ==> r[i] == t[i]
    ensures var r := AddChild(t, parent, x);
      forall i :: 0 <= i < |t| && t[i].id == parent ==>
      r[i].id == t[i].id && r[i].name == t[i].name && r[i].path == t[i].path
      && Kids(r[i]) == Kids(t[i]) + [x]
  {
    UpdateWhereShape(t, parent, AppendKid(x));
  }

  /** With unique ids, two top-level nodes with the same id are the same node. */
  lemma TopIdsDistinct(t: seq<MenuNode>, i: int, j: int)
    requires UniqueIds(IdList(t)) && 0 <= i < |t| && 0 <= j < |t| && t[i].id == t[j].id
    ensures i == j
  {
    if i < j {
      TopIdsOrdered(t, i, j);
    } else if j < i {
      TopIdsOrdered(t, j, i);
    }
  }

  lemma TopIdsOrdered(t: seq<MenuNode>, i: int, j: int)
    requires 0 <= i < j < |t| && t[i].id == t[j].id
    ensures !UniqueIds(IdList(t))
  {
    var v := t[i].id;
    assert t == t[..j] + t[j..];
    IdListAppend(t[..j], t[j..]);
    TopInIdList(t[..j], i);
    TopInIdList(t[j..], 0);
    assert multiset(IdList(t)) == multiset(IdList(t[..j])) + multiset(IdList(t[j..]));
    assert multiset(IdList(t))[v] >= 2;
  }

  /** Without a top-level node of that id, an update leaves the forest as it is. */
  lemma {:induction false} UpdateWhereMissing(t: seq<MenuNode>, id: int, f: MenuNode -> MenuNode)
    requires !HasTop(t, id)
    ensures UpdateWhere(t, id, f) == t
  {
    UpdateWhereShape(t, id, f);
  }

  lemma ReplaceMiddle(a: multiset<int>, m: multiset<int>, m': multiset<int>, c: multiset<int>, d: multiset<int>)
    requires m' == m + d
    ensures a + (m' + c) == a + (m + c) + d
  {
  }

  lemma Regroup(a: multiset<int>, b: multiset<int>, c: multiset<int>)
    ensures a + (b + c) == (a + b) + c
    ensures a + (b + c) == b + (a + c)
  {
  }

  /** The ids of a forest around its node at `i`. */
  lemma IdListAround(t: seq<MenuNode>, i: int)
    requires 0 <= i < |t|
    ensures IdList(t) == IdList(t[..i]) + (SubtreeIds(t[i]) + IdList(t[i + 1..]))
  {
    IdListSplit(t, i);
    var u := t[i..];
    assert u[0] == t[i] && u[1..] == t[i + 1..];
    assert IdList(u) == SubtreeIds(t[i]) + IdList(t[i + 1..]);
  }

  /** With unique ids, an update of the node at `i` replaces that node only. */
  lemma UpdateWhereAt(t: seq<MenuNode>, id: int, f: MenuNode -> MenuNode, i: int)
    requires UniqueIds(IdList(t)) && 0 <= i < |t| && t[i].id == id
    ensures UpdateWhere(t, id, f) == t[..i] + ([f(t[i])] + t[i + 1..])
    ensures IdList(UpdateWhere(t, id, f)) == IdList(t[..i]) + (SubtreeIds(f(t[i])) + IdList(t[i + 1..]))
  {
    var r := UpdateWhere(t, id, f);
    UpdateWhereShape(t, id, f);
    forall j | 0 <= j < |t| && j != i
      ensures r[j] == t[j]
    {
      if t[j].id == id {
        TopIdsDistinct(t, i, j);
      }
    }
    assert r == t[..i] + ([f(t[i])] + t[i + 1..]);
    assert r[..i] == t[..i] && r[i] == f(t[i]) && r[i + 1..] == t[i + 1..];
    IdListAround(r, i);
  }

  lemma AppendKidIds(m: MenuNode, x: MenuNode)
    ensures SubtreeIds(AppendKid(x)(m)) == SubtreeIds(m) + SubtreeIds(x)
  {
    var m' := AppendKid(x)(m);
    assert m'.id == m.id && Kids(m') == Kids(m) + [x];
    SubtreeIdsKids(m);
    SubtreeIdsKids(m');
    IdListAppend(Kids(m), [x]);
    IdListSingle(x);
    assert SubtreeIds(m') == [m.id] + (IdList(Kids(m)) + SubtreeIds(x));
  }

  /** With unique ids, inserting under `parent` adds exactly the ids of `x`,
      once, when the parent exists, and nothing otherwise. */
  lemma AddChildIds(t: seq<MenuNode>, parent: int, x: MenuNode)
    requires UniqueIds(IdList(t))
    ensures multiset(IdList(AddChild(t, parent, x)))
         == multiset(IdList(t)) + (if HasTop(t, parent) then multiset(SubtreeIds(x)) else multiset{})
  {
    if HasTop(t, parent) {
      var i :| 0 <= i < |t| && t[i].id == parent;
      var a, h, h', c := IdList(t[..i]), SubtreeIds(t[i]), SubtreeIds(AppendKid(x)(t[i])), IdList(t[i + 1..]);
      UpdateWhereAt(t, parent, AppendKid(x), i);
      assert IdList(AddChild(t, parent, x)) == a + (h' + c);
      AppendKidIds(t[i], x);
      assert multiset(h') == multiset(h) + multiset(SubtreeIds(x));
      IdListAround(t, i);
      assert IdList(t) == a + (h + c);
      ReplaceMiddle(multiset(a), multiset(h), multiset(h'), multiset(c), multiset(SubtreeIds(x)));
    } else {
      UpdateWhereMissing(t, parent, AppendKid(x));
    }
  }

  /** `{ ...m1, children: (m1.children ?? []).map(m2 => m2.id !== p2 ? m2 : append x) }` */
  function AppendGrandkid(p2: int, x: MenuNode): MenuNode -> MenuNode {
    (m: MenuNode) => m.(children := ChildList(AddChild(Kids(m), p2, x)))
  }

  /** Appends `x` under every 2nd-level node with id `p2` whose parent has id `p1`. */
  function AddGrandchild(t: seq<MenuNode>, p1: int, p2: int, x: MenuNode): (r: seq<MenuNode>)
    ensures |r| == |t|
  {
    UpdateWhere(t, p1, AppendGrandkid(p2, x))
  }

  /** Only the top-level nodes with id `p1` change, and only by an insert under `p2` among their children. */
  lemma AddGrandchildShape(t: seq<MenuNode>, p1: int, p2: int, x: MenuNode)
    ensures var r := AddGrandchild(t, p1, p2, x);
      forall i :: 0 <= i < |t| && t[i].id != p1 ==> r[i] == t[i]
    ensures var r := AddGrandchild(t, p1, p2, x);
      forall i :: 0 <= i < |t| && t[i].id == p1 ==>
      r[i].id == t[i].id && r[i].name == t[i].name && r[i].path == t[i].path
      && Kids(r[i]) == AddChild(Kids(t[i]), p2, x)
  {
    UpdateWhereShape(t, p1, AppendGrandkid(p2, x));
  }

  /** Some top-level node with id `p1` has a child with id `p2`. */
  predicate HasPair(t: seq<MenuNode>, p1: int, p2: int) {
    exists i :: 0 <= i < |t| && t[i].id == p1 && HasTop(Kids(t[i]), p2)
  }

  lemma AppendGrandkidIds(h: MenuNode, p2: int, x: MenuNode)
    requires UniqueIds(SubtreeIds(h))
    ensures multiset(SubtreeIds(AppendGrandkid(p2, x)(h))) == multiset(SubtreeIds(h))
      + (if HasTop(Kids(h), p2) then multiset(SubtreeIds(x)) else multiset{})
  {
    SubtreeIdsKids(h);
    SubtreeIdsKids(AppendGrandkid(p2, x)(h));
    UniqueParts([h.id], IdList(Kids(h)));
    AddChildIds(Kids(h), p2, x);
  }

  /** With unique ids, inserting under the pair (`p1`, `p2`) adds exactly the
      ids of `x`, once, when the pair exists, and nothing otherwise. */
  lemma AddGrandchildIds(t: seq<MenuNode>, p1: int, p2: int, x: MenuNode)
    requires UniqueIds(IdList(t))
    ensures multiset(IdList(AddGrandchild(t, p1, p2, x)))
         == multiset(IdList(t)) + (if HasPair(t, p1, p2) then multiset(SubtreeIds(x)) else multiset{})
  {
    if HasTop(t, p1) {
      var i :| 0 <= i < |t| && t[i].id == p1;
      var d := if HasTop(Kids(t[i]), p2) then multiset(SubtreeIds(x)) else multiset{};
      assert multiset(SubtreeIds(AppendGrandkid(p2, x)(t[i]))) == multiset(SubtreeIds(t[i])) + d by {
        SubtreeInIdList(t, i);
        UniqueSub(SubtreeIds(t[i]), IdList(t));
        AppendGrandkidIds(t[i], p2, x);
      }
      assert HasPair(t, p1, p2) == HasTop(Kids(t[i]), p2) by {
        if HasPair(t, p1, p2) {
          var j :| 0 <= j < |t| && t[j].id == p1 && HasTop(Kids(t[j]), p2);
          TopIdsDistinct(t, i, j);
        }
      }
      UpdateWhereAt(t, p1, AppendGrandkid(p2, x), i);
      IdListAround(t, i);
      ReplaceMiddle(multiset(IdList(t[..i])), multiset(SubtreeIds(t[i])),
        multiset(SubtreeIds(AppendGrandkid(p2, x)(t[i]))), multiset(IdList(t[i + 1..])), d);
    } else {
      UpdateWhereMissing(t, p1, AppendGrandkid(p2, x));
    }
  }

  /** Adding one node with no children whose id is fresh keeps ids unique. */
  lemma UniqueAfterAdding(before: seq<int>, after: seq<int>, x: MenuNode)
    requires UniqueIds(before) && Kids(x) == [] && x.id !in before
    requires multiset(after) == multiset(before) + multiset(SubtreeIds(x))
          || multiset(after) == multiset(before)
    ensures UniqueIds(after)
  {
    SubtreeIdsKids(x);
    assert SubtreeIds(x) == [x.id];
    forall v
      ensures multiset(after)[v] <= 1
    {
      assert multiset(before)[x.id] == 0;
    }
  }

  /** Every create takes its id from `NextMenuId` of the whole tree and adds a
      node without children, so ids stay unique across the tree: appending at
      the top level, ... */
  lemma AppendTopKeepsIdsUnique(t: seq<MenuNode>, x: MenuNode)
    requires UniqueIds(IdList(t)) && Kids(x) == [] && x.id == NextMenuId(t)
    ensures UniqueIds(IdList(t + [x]))
  {
    NextMenuIdIsFresh(t);
    IdListAppend(t, [x]);
    IdListSingle(x);
    UniqueAfterAdding(IdList(t), IdList(t + [x]), x);
  }

  /** ... under a 1st-level parent, ... */
  lemma AddChildKeepsIdsUnique(t: seq<MenuNode>, p1: int, x: MenuNode)
    requires UniqueIds(IdList(t)) && Kids(x) == [] && x.id == NextMenuId(t)
    ensures UniqueIds(IdList(AddChild(t, p1, x)))
  {
    NextMenuIdIsFresh(t);
    AddChildIds(t, p1, x);
    UniqueAfterAdding(IdList(t), IdList(AddChild(t, p1, x)), x);
  }

  /** ... and under a (1st, 2nd) pair. */
  lemma AddGrandchildKeepsIdsUnique(t: seq<MenuNode>, p1: int, p2: int, x: MenuNode)
    requires UniqueIds(IdList(t)) && Kids(x) == [] && x.id == NextMenuId(t)
    ensures UniqueIds(IdList(AddGrandchild(t, p1, p2, x)))
  {
    NextMenuIdIsFresh(t);
    AddGrandchildIds(t, p1, p2, x);
    UniqueAfterAdding(IdList(t), IdList(AddGrandchild(t, p1, p2, x)), x);
  }

  /** `t.filter(m => m.id !== id)` */
  function RemoveById(t: seq<MenuNode>, id: int): (r: seq<MenuNode>)
    ensures |r| <= |t|
    ensures forall i :: 0 <= i < |r| ==> r[i].id != id
  {
    if t == [] then []
    else (if t[0].id == id then [] else [t[0]]) + RemoveById(t[1..], id)
  }

  /** The nodes a delete by `id` drops. */
  function NodesWithId(t: seq<MenuNode>, id: int): seq<MenuNode> {
    if t == [] then []
    else (if t[0].id == id then [t[0]] else []) + NodesWithId(t[1..], id)
  }

  /** A delete keeps, in their order, exactly the nodes with another id. */
  lemma {:induction false} RemoveByIdKeepsOthers(t: seq<MenuNode>, id: int)
    ensures IsSubsequence(RemoveById(t, id), t)
    ensures forall n :: n in t && n.id != id ==> n in RemoveById(t, id)
  {
    if t != [] {
      var rest := RemoveById(t[1..], id);
      RemoveByIdKeepsOthers(t[1..], id);
      assert t == [t[0]] + t[1..];
      if t[0].id == id {
        assert RemoveById(t, id) == rest;
        SubsequenceDropHead(rest, t);
      } else {
        assert RemoveById(t, id) == [t[0]] + rest;
        assert ([t[0]] + rest)[1..] == rest;
      }
    }
  }

  /** The ids of a forest split into those of the nodes a delete keeps and
      those of the nodes it drops. */
  lemma {:induction false} RemoveByIdPartition(t: seq<MenuNode>, id: int)
    ensures multiset(IdList(t))
         == multiset(IdList(RemoveById(t, id))) + multiset(IdList(NodesWithId(t, id)))
  {
    if t != [] {
      var h, rest := t[0], t[1..];
      var k, d := RemoveById(rest, id), NodesWithId(rest, id);
      RemoveByIdPartition(rest, id);
      assert multiset(IdList(t)) == multiset(SubtreeIds(h)) + multiset(IdList(rest)) by {
        assert t == [h] + rest;
        IdListCons(h, rest);
      }
      var mh, mk, md := multiset(SubtreeIds(h)), multiset(IdList(k)), multiset(IdList(d));
      Regroup(mh, mk, md);
      if h.id == id {
        assert RemoveById(t, id) == k;
        assert NodesWithId(t, id) == [h] + d;
        IdListCons(h, d);
        assert multiset(IdList([h] + d)) == mh + md;
      } else {
        assert RemoveById(t, id) == [h] + k;
        assert NodesWithId(t, id) == d;
        IdListCons(h, k);
        assert multiset(IdList([h] + k)) == mh + mk;
      }
    }
  }

  lemma RemoveByIdIds(t: seq<MenuNode>, id: int)
    ensures multiset(IdList(RemoveById(t, id))) <= multiset(IdList(t))
  {
    RemoveByIdPartition(t, id);
  }

  lemma {:induction false} NodesWithIdHas(t: seq<MenuNode>, i: int) returns (j: int)
    requires 0 <= i < |t|
    ensures 0 <= j < |NodesWithId(t, t[i].id)| && NodesWithId(t, t[i].id)[j] == t[i]
  {
    var id := t[i].id;
    var head := if t[0].id == id then [t[0]] else [];
    assert NodesWithId(t, id) == head + NodesWithId(t[1..], id);
    if i == 0 {
      j := 0;
    } else {
      assert t[1..][i - 1] == t[i];
      var j' := NodesWithIdHas(t[1..], i - 1);
      j := |head| + j';
    }
  }

  /** Cascade: with unique ids, deleting a node removes the id of every node
      of its subtree from the tree. */
  lemma RemoveByIdCascades(t: seq<MenuNode>, i: int, v: int)
    requires UniqueIds(IdList(t)) && 0 <= i < |t|
    requires v in SubtreeIds(t[i])
    ensures v !in IdList(RemoveById(t, t[i].id))
  {
    var d := NodesWithId(t, t[i].id);
    var keep := RemoveById(t, t[i].id);
    RemoveByIdPartition(t, t[i].id);
    var j := NodesWithIdHas(t, i);
    SubtreeInIdList(d, j);
    assert multiset(SubtreeIds(d[j]))[v] >= 1;
    assert multiset(IdList(d))[v] >= 1;
    assert multiset(IdList(t))[v] == multiset(IdList(keep))[v] + multiset(IdList(d))[v];
    assert multiset(IdList(keep))[v] == 0;
  }

  /** `{ ...m, children: (m.children ?? []).filter(c => c.id !== id) }` */
  function DropKid(id: int): MenuNode -> MenuNode {
    (m: MenuNode) => m.(children := ChildList(RemoveById(Kids(m), id)))
  }

  /** Deletes the 2nd-level nodes with id `id` under the 1st-level node(s) with id `p1`. */
  function RemoveChild(t: seq<MenuNode>, p1: int, id: int): (r: seq<MenuNode>)
    ensures |r| == |t|
  {
    UpdateWhere(t, p1, DropKid(id))
  }

  /** Only the top-level nodes with id `p1` change, and only by losing their children with id `id`. */
  lemma RemoveChildShape(t: seq<MenuNode>, p1: int, id: int)
    ensures var r := RemoveChild(t, p1, id);
      forall i :: 0 <= i < |t| && t[i].id != p1 ==> r[i] == t[i]
    ensures var r := RemoveChild(t, p1, id);
      forall i :: 0 <= i < |t| && t[i].id == p1 ==>
      r[i].id == t[i].id && r[i].name == t[i].name && r[i].path == t[i].path
      && Kids(r[i]) == RemoveById(Kids(t[i]), id)
  {
    UpdateWhereShape(t, p1, DropKid(id));
  }

  /** `{ ...m1, children: (m1.children ?? []).map(m2 => m2.id !== p2 ? m2 : drop id) }` */
  function DropGrandkid(p2: int, id: int): MenuNode -> MenuNode {
    (m: MenuNode) => m.(children := ChildList(RemoveChild(Kids(m), p2, id)))
  }

  /** Deletes the 3rd-level nodes with id `id` under the pair (`p1`, `p2`). */
  function RemoveGrandchild(t: seq<MenuNode>, p1: int, p2: int, id: int): (r: seq<MenuNode>)
    ensures |r| == |t|
  {
    UpdateWhere(t, p1, DropGrandkid(p2, id))
  }

  /** Only the top-level nodes with id `p1` change, and only by a delete under `p2` among their children. */
  lemma RemoveGrandchildShape(t: seq<MenuNode>, p1: int, p2: int, id: int)
    ensures var r := RemoveGrandchild(t, p1, p2, id);
      forall i :: 0 <= i < |t| && t[i].id != p1 ==> r[i] == t[i]
    ensures var r := RemoveGrandchild(t, p1, p2, id);
      forall i :: 0 <= i < |t| && t[i].id == p1 ==>
      r[i].id == t[i].id && r[i].name == t[i].name && r[i].path == t[i].path
      && Kids(r[i]) == RemoveChild(Kids(t[i]), p2, id)
  {
    UpdateWhereShape(t, p1, DropGrandkid(p2, id));
  }

  /** Cascade one level down: with unique ids, deleting a 2nd-level node
      removes the id of every node of its subtree from the tree. */
  lemma RemoveChildCascades(t: seq<MenuNode>, i: int, j: int, v: int)
    requires UniqueIds(IdList(t)) && 0 <= i < |t| && 0 <= j < |Kids(t[i])|
    requires v in SubtreeIds(Kids(t[i])[j])
    ensures v !in IdList(RemoveChild(t, t[i].id, Kids(t[i])[j].id))
  {
    var p1, id := t[i].id, Kids(t[i])[j].id;
    var a, m, c := IdList(t[..i]), SubtreeIds(t[i]), IdList(t[i + 1..]);
    var kids := IdList(Kids(t[i]));
    SubtreeIdsKids(t[i]);
    assert v in kids by {
      SubtreeInIdList(Kids(t[i]), j);
      assert v in multiset(kids);
    }
    IdListAround(t, i);
    UniqueParts(a, m + c);
    UniqueApart(a, m + c, v);
    UniqueParts(m, c);
    UniqueApart(m, c, v);
    UniqueParts([p1], kids);
    UniqueApart([p1], kids, v);
    RemoveByIdCascades(Kids(t[i]), j, v);
    UpdateWhereAt(t, p1, DropKid(id), i);
    SubtreeIdsKids(DropKid(id)(t[i]));
  }

  /** An edit of the matching branches that only drops ids drops ids from the tree. */
  lemma {:induction false} UpdateWhereShrinks(t: seq<MenuNode>, id: int, f: MenuNode -> MenuNode)
    requires forall m :: multiset(SubtreeIds(f(m))) <= multiset(SubtreeIds(m))
    ensures multiset(IdList(UpdateWhere(t, id, f))) <= multiset(IdList(t))
  {
    if t != [] {
      var h := if t[0].id == id then f(t[0]) else t[0];
      var rest := UpdateWhere(t[1..], id, f);
      UpdateWhereShrinks(t[1..], id, f);
      UpdateWhereCons(t, id, f);
      IdListCons(h, rest);
      assert IdList(t) == SubtreeIds(t[0]) + IdList(t[1..]);
      assert multiset(SubtreeIds(h)) <= multiset(SubtreeIds(t[0]));
    }
  }

  lemma RemoveChildIds(t: seq<MenuNode>, p1: int, id: int)
    ensures multiset(IdList(RemoveChild(t, p1, id))) <= multiset(IdList(t))
  {
    forall m
      ensures multiset(SubtreeIds(DropKid(id)(m))) <= multiset(SubtreeIds(m))
    {
      SubtreeIdsKids(m);
      SubtreeIdsKids(DropKid(id)(m));
      RemoveByIdIds(Kids(m), id);
    }
    UpdateWhereShrinks(t, p1, DropKid(id));
  }

  lemma RemoveGrandchildIds(t: seq<MenuNode>, p1: int, p2: int, id: int)
    ensures multiset(IdList(RemoveGrandchild(t, p1, p2, id))) <= multiset(IdList(t))
  {
    forall m
      ensures multiset(SubtreeIds(DropGrandkid(p2, id)(m))) <= multiset(SubtreeIds(m))
    {
      SubtreeIdsKids(m);
      SubtreeIdsKids(DropGrandkid(p2, id)(m));
      RemoveChildIds(Kids(m), p2, id);
    }
    UpdateWhereShrinks(t, p1, DropGrandkid(p2, id));
  }

  /** Deletes only drop nodes, so ids stay unique: a 1st-level delete, ... */
  lemma RemoveByIdKeepsIdsUnique(t: seq<MenuNode>, id: int)
    requires UniqueIds(IdList(t))
    ensures UniqueIds(IdList(RemoveById(t, id)))
  {
    RemoveByIdIds(t, id);
    UniqueSub(IdList(RemoveById(t, id)), IdList(t));
  }

  /** ... a 2nd-level delete, ... */
  lemma RemoveChildKeepsIdsUnique(t: seq<MenuNode>, p1: int, id: int)
    requires UniqueIds(IdList(t))
    ensures UniqueIds(IdList(RemoveChild(t, p1, id)))
  {
    RemoveChildIds(t, p1, id);
    UniqueSub(IdList(RemoveChild(t, p1, id)), IdList(t));
  }

  /** ... and a 3rd-level delete. */
  lemma RemoveGrandchildKeepsIdsUnique(t: seq<MenuNode>, p1: int, p2: int, id: int)
    requires UniqueIds(IdList(t))
    ensures UniqueIds(IdList(RemoveGrandchild(t, p1, p2, id)))
  {
    RemoveGrandchildIds(t, p1, p2, id);
    UniqueSub(IdList(RemoveGrandchild(t, p1, p2, id)), IdList(t));
  }
}
