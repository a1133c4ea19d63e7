/** The category editor's tree and its id allocator, which, unlike the
    navigation-menu allocator, looks at two levels only. */
module CategoryTree {
  import opened Common

  /** `{ id, name, children? }`: `children` may be missing. */
  datatype CategoryNode = CategoryNode(id: int, name: string, children: Option<seq<CategoryNode>>)

  /** `p.children ?? []` */
  function ChildrenOf(p: CategoryNode): seq<CategoryNode> {
    p.children.GetOr([])
  }

  function ChildIds(cs: seq<CategoryNode>): (ids: seq<int>)
    ensures |ids| == |cs| && forall j :: 0 <= j < |cs| ==> ids[j] == cs[j].id
  {
    seq(|cs|, j requires 0 <= j < |cs| => cs[j].id)
  }

  /** The ids the allocator visits, in its order: each top-level id followed by
      the ids of that node's direct children. */
  function TwoLevelIds(cats: seq<CategoryNode>): seq<int> {
    if cats == [] then [] else [cats[0].id] + ChildIds(ChildrenOf(cats[0])) + TwoLevelIds(cats[1..])
  }

  lemma {:induction false} TwoLevelIdsAppend(a: seq<CategoryNode>, b: seq<CategoryNode>)
    ensures TwoLevelIds(a + b) == TwoLevelIds(a) + TwoLevelIds(b)
  {
    if a == [] {
      assert a + b == b;
    } else {
      assert (a + b)[0] == a[0] && (a + b)[1..] == a[1..] + b;
      TwoLevelIdsAppend(a[1..], b);
    }
  }

  /** The value `nextIdFrom` returns: one more than the largest top-level or
      direct-child id, and 1 for an empty list. */
  function NextId(cats: seq<CategoryNode>): (r: int)
    ensures r >= 1
    ensures cats == [] ==> r == 1
    ensures forall k :: 0 <= k < |TwoLevelIds(cats)| ==> TwoLevelIds(cats)[k] < r
  {
    MaxId(TwoLevelIds(cats)) + 1
  }

  lemma ChildIdsSnoc(kids: seq<CategoryNode>, j: int)
    requires 0 <= j < |kids|
    ensures ChildIds(kids[..j + 1]) == ChildIds(kids[..j]) + [kids[j].id]
  {
  }

  lemma TwoLevelIdsSnoc(cats: seq<CategoryNode>, i: int)
    requires 0 <= i < |cats|
    ensures TwoLevelIds(cats[..i + 1]) == TwoLevelIds(cats[..i]) + ([cats[i].id] + ChildIds(ChildrenOf(cats[i])))
  {
    assert cats[..i + 1] == cats[..i] + [cats[i]];
    TwoLevelIdsAppend(cats[..i], [cats[i]]);
  }

  /** `nextIdFrom`: a mutable `max` from 0, raised over every top-level node and,
      in an inner loop, over that node's children. */
  method NextIdFrom(cats: seq<CategoryNode>) returns (id: int)
    ensures id == NextId(cats)
  {
    var max := 0;
    for i := 0 to |cats|
      invariant max == MaxId(TwoLevelIds(cats[..i]))
    {
      var p := cats[i];
      max := Max(max, p.id);
      var kids := ChildrenOf(p);
      for j := 0 to |kids|
        invariant max == Max(MaxId(TwoLevelIds(cats[..i])), MaxId([p.id] + ChildIds(kids[..j])))
      {
        ChildIdsSnoc(kids, j);
        assert [p.id] + ChildIds(kids[..j + 1]) == ([p.id] + ChildIds(kids[..j])) + [kids[j].id];
        MaxIdAppend([p.id] + ChildIds(kids[..j]), [kids[j].id]);
        max := Max(max, kids[j].id);
      }
      assert kids[..|kids|] == kids;
      TwoLevelIdsSnoc(cats, i);
      MaxIdAppend(TwoLevelIds(cats[..i]), [p.id] + ChildIds(kids));
    }
    assert cats[..|cats|] == cats;
    id := max + 1;
  }

  /** The id of every top-level node and of every direct child is among the visited ids. */
  lemma {:induction false} TwoLevelIdsCover(cats: seq<CategoryNode>, i: int)
    requires 0 <= i < |cats|
    ensures cats[i].id in TwoLevelIds(cats)
    ensures forall j :: 0 <= j < |ChildrenOf(cats[i])| ==> ChildrenOf(cats[i])[j].id in TwoLevelIds(cats)
  {
    var head := [cats[0].id] + ChildIds(ChildrenOf(cats[0]));
    if i == 0 {
      assert forall j :: 0 <= j < |ChildrenOf(cats[0])| ==> ChildrenOf(cats[0])[j].id == head[j + 1];
    } else {
      TwoLevelIdsCover(cats[1..], i - 1);
      assert cats[1..][i - 1] == cats[i];
    }
  }

  /** The allocated id is above every top-level id and every direct-child id. */
  lemma NextIdAboveTwoLevels(cats: seq<CategoryNode>, i: int)
    requires 0 <= i < |cats|
    ensures cats[i].id < NextId(cats)
    ensures forall j :: 0 <= j < |ChildrenOf(cats[i])| ==> ChildrenOf(cats[i])[j].id < NextId(cats)
  {
    TwoLevelIdsCover(cats, i);
  }

  /** Only two levels count: the id allocated next can be the id of a grandchild
      already in the list. */
  lemma GrandchildIgnored()
    ensures var leaf := CategoryNode(3, "c", None);
            var cats := [CategoryNode(1, "a", Some([CategoryNode(2, "b", Some([leaf]))]))];
            NextId(cats) == leaf.id
  {
    var leaf := CategoryNode(3, "c", None);
    var mid := CategoryNode(2, "b", Some([leaf]));
    var cats := [CategoryNode(1, "a", Some([mid]))];
    assert ChildIds([mid]) == [2];
    assert TwoLevelIds(cats) == [1, 2];
  }
}
