/** The product admin page's category column (`findCategoryPath` in
    `admin/page.tsx`): a product's `categoryId` names a 3rd-level node of the
    navigation-menu tree, shown with its ancestors as "a / b / c". */
module AdminCategoryPath {
  import opened Common
  import opened MenuTree

  /** `${m1.name} / ${m2.name} / ${m3.name}` */
  function PathOf(m1: MenuNode, m2: MenuNode, m3: MenuNode): string {
    m1.name + " / " + m2.name + " / " + m3.name
  }

  /** A rendered path is never the "no category" text: it has a `/` and that text has none. */
  lemma PathIsNotNoCategory(m1: MenuNode, m2: MenuNode, m3: MenuNode)
    ensures PathOf(m1, m2, m3) != NoCategory
  {
    assert PathOf(m1, m2, m3)[|m1.name| + 1] == '/';
  }

  /** The first `Some` that `f` gives along `s`, in order. */
  function FirstSome<T>(s: seq<T>, f: T -> Option<string>): Option<string> {
    if s == [] then None
    else if f(s[0]).Some? then f(s[0])
    else FirstSome(s[1..], f)
  }

  lemma {:induction false} FirstSomeAppend<T>(a: seq<T>, b: seq<T>, f: T -> Option<string>)
    ensures FirstSome(a + b, f) == if FirstSome(a, f).Some? then FirstSome(a, f) else FirstSome(b, f)
  {
    if a == [] {
      assert a + b == b;
    } else {
      assert (a + b)[0] == a[0] && (a + b)[1..] == a[1..] + b;
      FirstSomeAppend(a[1..], b, f);
    }
  }

  lemma FirstSomeSnoc<T>(s: seq<T>, i: int, f: T -> Option<string>)
    requires 0 <= i < |s|
    ensures FirstSome(s[..i + 1], f) == if FirstSome(s[..i], f).Some? then FirstSome(s[..i], f) else f(s[i])
  {
    assert s[..i + 1] == s[..i] + [s[i]];
    FirstSomeAppend(s[..i], [s[i]], f);
  }

  /** When nothing before position `i` gives `Some` and `s[i]` does, that is the result. */
  lemma FirstSomeFoundAt<T>(s: seq<T>, i: int, f: T -> Option<string>)
    requires 0 <= i < |s| && FirstSome(s[..i], f) == None && f(s[i]).Some?
    ensures FirstSome(s, f) == f(s[i])
  {
    FirstSomeSnoc(s, i, f);
    assert s == s[..i + 1] + s[i + 1..];
    FirstSomeAppend(s[..i + 1], s[i + 1..], f);
  }

  lemma {:induction false} FirstSomeWitness<T>(s: seq<T>, f: T -> Option<string>) returns (i: int)
    requires FirstSome(s, f).Some?
    ensures 0 <= i < |s| && f(s[i]) == FirstSome(s, f)
  {
    if f(s[0]).Some? {
      i := 0;
    } else {
      i := FirstSomeWitness(s[1..], f);
      i := i + 1;
    }
  }

  lemma {:induction false} FirstSomeAny<T>(s: seq<T>, f: T -> Option<string>, i: int)
    requires 0 <= i < |s| && f(s[i]).Some?
    ensures FirstSome(s, f).Some?
  {
    if i > 0 && f(s[0]).None? {
      FirstSomeAny(s[1..], f, i - 1);
    }
  }

  /** The test of the innermost loop for one 3rd-level node. */
  function LeafHit(m1: MenuNode, m2: MenuNode, id: int): MenuNode -> Option<string> {
    (m3: MenuNode) => if m3.id == id then Some(PathOf(m1, m2, m3)) else None
  }

  /** The middle loop for one 2nd-level node: its first matching child. */
  function MidHit(m1: MenuNode, id: int): MenuNode -> Option<string> {
    (m2: MenuNode) => FirstSome(Kids(m2), LeafHit(m1, m2, id))
  }

  /** The outer loop for one 1st-level node: its first matching grandchild. */
  function TopHit(id: int): MenuNode -> Option<string> {
    (m1: MenuNode) => FirstSome(Kids(m1), MidHit(m1, id))
  }

  /** What `findCategoryPath` returns: the "no category" text for a missing or
      zero id, else the path of the first 3rd-level node with that id in
      pre-order, else the "no category" text. */
  function CategoryPath(menuTree: seq<MenuNode>, categoryId: Option<int>): string {
    if categoryId.None? || categoryId.value == 0 then NoCategory
    else FirstSome(menuTree, TopHit(categoryId.value)).GetOr(NoCategory)
  }

  /** The innermost loop of `findCategoryPath`, over the children of `m2`
      (`m2.children ?? []`): the path of the first one with the id. */
  method SearchLeaves(m1: MenuNode, m2: MenuNode, id: int) returns (hit: Option<string>)
    ensures hit == FirstSome(Kids(m2), LeafHit(m1, m2, id))
  {
    var leaves := Kids(m2);
    for k := 0 to |leaves|
      invariant FirstSome(leaves[..k], LeafHit(m1, m2, id)) == None
    {
      var m3 := leaves[k];
      if m3.id == id {
        FirstSomeFoundAt(leaves, k, LeafHit(m1, m2, id));
        return Some(PathOf(m1, m2, m3));
      }
      FirstSomeSnoc(leaves, k, LeafHit(m1, m2, id));
    }
    assert leaves[..|leaves|] == leaves;
    hit := None;
  }

  /** The middle loop, over the children of `m1`: the first hit among their children. */
  method SearchMids(m1: MenuNode, id: int) returns (hit: Option<string>)
    ensures hit == FirstSome(Kids(m1), MidHit(m1, id))
  {
    var mids := Kids(m1);
    for j := 0 to |mids|
      invariant FirstSome(mids[..j], MidHit(m1, id)) == None
    {
      var found := SearchLeaves(m1, mids[j], id);
      if found.Some? {
        FirstSomeFoundAt(mids, j, MidHit(m1, id));
        return found;
      }
      FirstSomeSnoc(mids, j, MidHit(m1, id));
    }
    assert mids[..|mids|] == mids;
    hit := None;
  }

  /** `findCategoryPath`: three nested loops over the 1st, 2nd and 3rd levels
      with `?? []` for missing children, returning at the first match. */
  method FindCategoryPath(menuTree: seq<MenuNode>, categoryId: Option<int>) returns (r: string)
    ensures r == CategoryPath(menuTree, categoryId)
  {
    if categoryId.None? || categoryId.value == 0 {
      return NoCategory;
    }
    var id := categoryId.value;
    for i := 0 to |menuTree|
      invariant FirstSome(menuTree[..i], TopHit(id)) == None
    {
      var found := SearchMids(menuTree[i], id);
      if found.Some? {
        FirstSomeFoundAt(menuTree, i, TopHit(id));
        return found.value;
      }
      FirstSomeSnoc(menuTree, i, TopHit(id));
    }
    assert menuTree[..|menuTree|] == menuTree;
    r := NoCategory;
  }

  /** A missing or zero id gives the "no category" text, whatever the tree. */
  lemma MissingIdHasNoCategory(menuTree: seq<MenuNode>, categoryId: Option<int>)
    requires categoryId.None? || categoryId == Some(0)
    ensures CategoryPath(menuTree, categoryId) == NoCategory
  {
  }

  /** A hit is the path of a 3rd-level node with the id. */
  lemma HitIsLeafPath(menuTree: seq<MenuNode>, id: int) returns (i: int, j: int, k: int)
    requires FirstSome(menuTree, TopHit(id)).Some?
    ensures 0 <= i < |menuTree| && 0 <= j < |Kids(menuTree[i])| && 0 <= k < |Kids(Kids(menuTree[i])[j])|
    ensures Kids(Kids(menuTree[i])[j])[k].id == id
    ensures FirstSome(menuTree, TopHit(id))
         == Some(PathOf(menuTree[i], Kids(menuTree[i])[j], Kids(Kids(menuTree[i])[j])[k]))
  {
    i := FirstSomeWitness(menuTree, TopHit(id));
    var m1 := menuTree[i];
    j := FirstSomeWitness(Kids(m1), MidHit(m1, id));
    var m2 := Kids(m1)[j];
    k := FirstSomeWitness(Kids(m2), LeafHit(m1, m2, id));
  }

  /** Soundness: a result other than the "no category" text is the path of a
      3rd-level node whose id is the requested one. */
  lemma CategoryPathSound(menuTree: seq<MenuNode>, id: int) returns (i: int, j: int, k: int)
    requires CategoryPath(menuTree, Some(id)) != NoCategory
    ensures 0 <= i < |menuTree| && 0 <= j < |Kids(menuTree[i])| && 0 <= k < |Kids(Kids(menuTree[i])[j])|
    ensures Kids(Kids(menuTree[i])[j])[k].id == id
    ensures CategoryPath(menuTree, Some(id))
         == PathOf(menuTree[i], Kids(menuTree[i])[j], Kids(Kids(menuTree[i])[j])[k])
  {
    i, j, k := HitIsLeafPath(menuTree, id);
  }

  /** A hit is never the "no category" text. */
  lemma HitIsNotNoCategory(menuTree: seq<MenuNode>, id: int)
    requires FirstSome(menuTree, TopHit(id)).Some?
    ensures FirstSome(menuTree, TopHit(id)).value != NoCategory
  {
    var i, j, k := HitIsLeafPath(menuTree, id);
    PathIsNotNoCategory(menuTree[i], Kids(menuTree[i])[j], Kids(Kids(menuTree[i])[j])[k]);
  }

  /** A 3rd-level node with the id makes the search hit. */
  lemma LeafMakesHit(menuTree: seq<MenuNode>, id: int, i: int, j: int, k: int)
    requires 0 <= i < |menuTree| && 0 <= j < |Kids(menuTree[i])| && 0 <= k < |Kids(Kids(menuTree[i])[j])|
    requires Kids(Kids(menuTree[i])[j])[k].id == id
    ensures FirstSome(menuTree, TopHit(id)).Some?
  {
    var m1 := menuTree[i];
    var m2 := Kids(m1)[j];
    FirstSomeAny(Kids(m2), LeafHit(m1, m2, id), k);
    FirstSomeAny(Kids(m1), MidHit(m1, id), j);
    FirstSomeAny(menuTree, TopHit(id), i);
  }

  /** Completeness: when some 3rd-level node has the (non-zero) id, the result
      is a path and not the "no category" text. */
  lemma CategoryPathComplete(menuTree: seq<MenuNode>, id: int, i: int, j: int, k: int)
    requires id != 0
    requires 0 <= i < |menuTree| && 0 <= j < |Kids(menuTree[i])| && 0 <= k < |Kids(Kids(menuTree[i])[j])|
    requires Kids(Kids(menuTree[i])[j])[k].id == id
    ensures CategoryPath(menuTree, Some(id)) != NoCategory
  {
    LeafMakesHit(menuTree, id, i, j, k);
    HitIsNotNoCategory(menuTree, id);
  }

  /** Only 3rd-level nodes match: an id that no 3rd-level node carries gives the
      "no category" text, even when a 1st- or 2nd-level node has it. */
  lemma OnlyLeavesMatch(menuTree: seq<MenuNode>, id: int)
    requires forall i, j, k :: 0 <= i < |menuTree| && 0 <= j < |Kids(menuTree[i])| && 0 <= k < |Kids(Kids(menuTree[i])[j])|
               ==> Kids(Kids(menuTree[i])[j])[k].id != id
    ensures CategoryPath(menuTree, Some(id)) == NoCategory
  {
    if id != 0 && FirstSome(menuTree, TopHit(id)).Some? {
      var i, j, k := HitIsLeafPath(menuTree, id);
    }
  }

  /** The first match in array order wins: a match in the earlier part of the
      tree hides any match in the later part. */
  lemma FirstMatchWins(a: seq<MenuNode>, b: seq<MenuNode>, id: int)
    requires id != 0
    ensures CategoryPath(a + b, Some(id))
         == if CategoryPath(a, Some(id)) != NoCategory then CategoryPath(a, Some(id)) else CategoryPath(b, Some(id))
  {
    FirstSomeAppend(a, b, TopHit(id));
    if FirstSome(a, TopHit(id)).Some? {
      var i, j, k := HitIsLeafPath(a, id);
      PathIsNotNoCategory(a[i], Kids(a[i])[j], Kids(Kids(a[i])[j])[k]);
    }
  }
}
