/** The consumer storefront (`consumer/page.tsx`): products mapped onto the
    two-level category list, the search filter, the category caption and the
    merging add-to-cart. */
module ConsumerPage {
  import opened Common
  import opened Slots
  import opened CategoryTree
  import opened CartItems
  import opened Browser

  /** `p.primaryCategory` as the server may send it: missing, an object whose
      `id` may be missing, or a bare number. */
  datatype CategoryField = Missing | AsObject(id: Option<int>) | AsNumber(n: int)

  /** A product as the products endpoint returns it. */
  datatype RawProduct = RawProduct(id: int, title: string, price: int, imageUrl: Option<string>,
                                   primaryCategory: CategoryField, primaryCategoryId: Option<int>,
                                   secondaryCategory: CategoryField, secondaryCategoryId: Option<int>)

  /** `{ id, name }` of a resolved category. */
  datatype CategoryRef = CategoryRef(id: int, name: string)

  /** A product after the mapping in `fetchProducts`. */
  datatype Product = Product(id: int, title: string, price: int, imageUrl: Option<string>,
                             primaryCategory: Option<CategoryRef>, secondaryCategory: Option<CategoryRef>)

  /** `f?.id ?? idField ?? f`: the key looked up. `None` stands for a value no
      numeric category id can equal (`undefined`, or an object without `id`). */
  function CategoryKey(f: CategoryField, idField: Option<int>): Option<int> {
    if f.AsObject? && f.id.Some? then f.id
    else if idField.Some? then idField
    else if f.AsNumber? then Some(f.n)
    else None
  }

  /** The order in which the three spellings of a category are tried. */
  lemma CategoryKeyPrecedence(f: CategoryField, idField: Option<int>)
    ensures f.AsObject? && f.id.Some? ==> CategoryKey(f, idField) == f.id
    ensures !(f.AsObject? && f.id.Some?) && idField.Some? ==> CategoryKey(f, idField) == idField
    ensures f.AsNumber? && idField.None? ==> CategoryKey(f, idField) == Some(f.n)
    ensures CategoryKey(f, idField).None? <==> !(f.AsObject? && f.id.Some?) && idField.None? && !f.AsNumber?
  {
  }

  /** `list.find((c) => c.id === key)`, as the position of the node found. */
  function FindCategory(cs: seq<CategoryNode>, key: Option<int>): (k: Option<nat>)
    ensures k.Some? ==>
      key.Some? && k.value < |cs| && cs[k.value].id == key.value
      && forall j :: 0 <= j < k.value ==> cs[j].id != key.value
    ensures k.None? && key.Some? ==> forall j :: 0 <= j < |cs| ==> cs[j].id != key.value
  {
    if key.None? || cs == [] then None
    else if cs[0].id == key.value then Some(0)
    else match FindCategory(cs[1..], key)
      case Some(k) => Some(k + 1)
      case None => None
  }

  function RefOf(c: CategoryNode): CategoryRef {
    CategoryRef(c.id, c.name)
  }

  /** One element of the mapping in `fetchProducts`: the primary is looked up in
      the category list, the secondary only among that primary's children. */
  function MapProduct(cats: seq<CategoryNode>, p: RawProduct): (r: Product)
    ensures r.id == p.id && r.title == p.title && r.price == p.price && r.imageUrl == p.imageUrl
    ensures r.secondaryCategory.Some? ==> r.primaryCategory.Some?
  {
    var k1 := FindCategory(cats, CategoryKey(p.primaryCategory, p.primaryCategoryId));
    if k1.None? then Product(p.id, p.title, p.price, p.imageUrl, None, None)
    else
      var primary := cats[k1.value];
      var k2 := FindCategory(ChildrenOf(primary), CategoryKey(p.secondaryCategory, p.secondaryCategoryId));
      var secondary := if k2.None? then None else Some(RefOf(ChildrenOf(primary)[k2.value]));
      Product(p.id, p.title, p.price, p.imageUrl, Some(RefOf(primary)), secondary)
  }

  /** A resolved primary is the first top-level node with the product's primary
      key, and a resolved secondary is a child of that very node with the
      product's secondary key. */
  lemma MappedCategoriesAreNested(cats: seq<CategoryNode>, p: RawProduct) returns (i: nat, j: nat)
    requires MapProduct(cats, p).secondaryCategory.Some?
    ensures i < |cats| && j < |ChildrenOf(cats[i])|
    ensures Some(cats[i].id) == CategoryKey(p.primaryCategory, p.primaryCategoryId)
    ensures MapProduct(cats, p).primaryCategory == Some(RefOf(cats[i]))
    ensures Some(ChildrenOf(cats[i])[j].id) == CategoryKey(p.secondaryCategory, p.secondaryCategoryId)
    ensures MapProduct(cats, p).secondaryCategory == Some(RefOf(ChildrenOf(cats[i])[j]))
  {
    i := FindCategory(cats, CategoryKey(p.primaryCategory, p.primaryCategoryId)).value;
    j := FindCategory(ChildrenOf(cats[i]), CategoryKey(p.secondaryCategory, p.secondaryCategoryId)).value;
  }

  /** A primary key that names no top-level node leaves both categories unset. */
  lemma UnknownPrimaryUnmapped(cats: seq<CategoryNode>, p: RawProduct)
    requires forall c :: c in cats ==> Some(c.id) != CategoryKey(p.primaryCategory, p.primaryCategoryId)
    ensures MapProduct(cats, p).primaryCategory.None? && MapProduct(cats, p).secondaryCategory.None?
  {
  }

  /** A secondary id that lives under another primary is not found. */
  lemma SecondaryUnderOtherPrimaryIgnored()
    ensures var cats := [CategoryNode(1, "a", Some([])), CategoryNode(2, "b", Some([CategoryNode(7, "x", None)]))];
            var p := RawProduct(10, "t", 0, None, AsNumber(1), None, AsNumber(7), None);
            MapProduct(cats, p) == Product(10, "t", 0, None, Some(CategoryRef(1, "a")), None)
  {
  }

  /** `getCategoryName` */
  function CategoryName(cats: seq<CategoryNode>, primaryId: Option<int>, secondaryId: Option<int>): string {
    var k1 := FindCategory(cats, primaryId);
    if k1.None? then NoCategory
    else
      var kids := ChildrenOf(cats[k1.value]);
      var k2 := FindCategory(kids, secondaryId);
      if k2.None? then NoCategory
      else cats[k1.value].name + " / " + kids[k2.value].name
  }

  /** The caption is the "no category" text exactly when the primary is not
      found or the secondary is not found among that primary's children;
      otherwise it is the two names joined by " / ". */
  lemma CategoryNameCases(cats: seq<CategoryNode>, primaryId: Option<int>, secondaryId: Option<int>)
    ensures var k1 := FindCategory(cats, primaryId);
      CategoryName(cats, primaryId, secondaryId) == NoCategory <==>
        k1.None? || FindCategory(ChildrenOf(cats[k1.value]), secondaryId).None?
    ensures var k1 := FindCategory(cats, primaryId);
      k1.Some? && FindCategory(ChildrenOf(cats[k1.value]), secondaryId).Some? ==>
        var kids := ChildrenOf(cats[k1.value]);
        CategoryName(cats, primaryId, secondaryId)
          == cats[k1.value].name + " / " + kids[FindCategory(kids, secondaryId).value].name
  {
    var k1 := FindCategory(cats, primaryId);
    if k1.Some? {
      var kids := ChildrenOf(cats[k1.value]);
      var k2 := FindCategory(kids, secondaryId);
      if k2.Some? {
        var a := cats[k1.value].name;
        var r := a + " / " + kids[k2.value].name;
        assert r[|a| + 1] == '/';
      }
    }
  }

  function NameOr(c: Option<CategoryRef>): string {
    if c.Some? then c.value.name else ""
  }

  /** The search test for one product. */
  function Matches(q: string): Product -> bool {
    (p: Product) =>
      Contains(Lower(p.title), Lower(q))
      || Contains(Lower(NameOr(p.primaryCategory)), Lower(q))
      || Contains(Lower(NameOr(p.secondaryCategory)), Lower(q))
  }

  /** `filteredProducts`: all products for a blank query, else those whose title
      or either category name contains the query, ignoring case. */
  function FilteredProducts(products: seq<Product>, q: string): seq<Product> {
    if IsBlank(q) then products else Filter(products, Matches(q))
  }

  /** The filter keeps products in their order and drops no matching one. */
  lemma FilteredIsSubsequence(products: seq<Product>, q: string)
    ensures IsSubsequence(FilteredProducts(products, q), products)
    ensures IsBlank(q) ==> FilteredProducts(products, q) == products
    ensures forall p :: p in FilteredProducts(products, q) <==> p in products && (IsBlank(q) || Matches(q)(p))
  {
    if IsBlank(q) {
      SubsequenceRefl(products);
    } else {
      FilterIsSubsequence(products, Matches(q));
      forall p | p in Filter(products, Matches(q))
        ensures p in products && Matches(q)(p)
      {
        var r := Filter(products, Matches(q));
        FilterCount(products, Matches(q), p);
      }
    }
  }

  lemma LowerKeepsBlank(s: string)
    ensures IsBlank(Lower(s)) == IsBlank(s)
  {
    BlankIffAllWhitespace(s);
    BlankIffAllWhitespace(Lower(s));
    forall i | 0 <= i < |s|
      ensures IsWhitespace(Lower(s)[i]) == IsWhitespace(s[i])
    {
      LowerCharIdempotent(s[i]);
    }
  }

  /** The search ignores the case of the query. */
  lemma SearchIgnoresQueryCase(products: seq<Product>, q: string)
    ensures FilteredProducts(products, Lower(q)) == FilteredProducts(products, q)
  {
    LowerKeepsBlank(q);
    LowerIdempotent(q);
    if !IsBlank(q) {
      FilterSameTest(products, Matches(Lower(q)), Matches(q));
    }
  }

  /** A query longer than the title and both category names matches nothing. */
  lemma LongQueryMatchesNothing(p: Product, q: string)
    requires |q| > |p.title| && |q| > |NameOr(p.primaryCategory)| && |q| > |NameOr(p.secondaryCategory)|
    ensures !Matches(q)(p)
  {
    assert |Lower(q)| == |q|;
    assert |Lower(p.title)| == |p.title|;
    assert |Lower(NameOr(p.primaryCategory))| == |NameOr(p.primaryCategory)|;
    assert |Lower(NameOr(p.secondaryCategory))| == |NameOr(p.secondaryCategory)|;
  }

  /** A product is found by its own title. */
  lemma TitleFindsProduct(p: Product)
    requires p.title != [] && !IsWhitespace(p.title[0])
    ensures FilteredProducts([p], p.title) == [p]
  {
    NotBlankAt(p.title, 0);
    assert OccursAt(Lower(p.title), Lower(p.title), 0);
    FilterKeepsAll([p], Matches(p.title));
  }

  /** The query is not trimmed before matching: a product whose category names
      are no longer than its title is not found by its title after a leading
      blank, although it is found by the title itself. */
  lemma UntrimmedQueryMisses(p: Product)
    requires p.title != [] && !IsWhitespace(p.title[0])
    requires |NameOr(p.primaryCategory)| <= |p.title| && |NameOr(p.secondaryCategory)| <= |p.title|
    ensures FilteredProducts([p], " " + p.title) == []
  {
    var q := " " + p.title;
    NotBlankAt(q, 1);
    LongQueryMatchesNothing(p, q);
    FilterNoneKept([p], Matches(q));
  }

  /** What `addToCart` did: stored the cart, or stopped with an exception
      thrown by `JSON.parse` or by `find` on a non-array. */
  datatype AddOutcome = Added | Threw

  /** `existing.qty += 1` as JavaScript evaluates it on a stored quantity:
      `undefined + 1` is `NaN`, which is stored as `null`; `null + 1` is 1. */
  function Bump(q: QtyField): QtyField {
    match q
    case QtyMissing => QtyNull
    case QtyNull => Qty(1)
    case Qty(n) => Qty(n + 1)
  }

  /** The entry `addToCart` pushes for a product not yet in the cart. */
  function NewLine(p: Product): RawCartItem {
    RawCartItem(p.id, Some(p.title), Some(p.price), p.imageUrl, Qty(1))
  }

  /** The stored cart after `addToCart` on a parsed array. */
  function MergeIntoCart(cart: seq<RawCartItem>, p: Product): seq<RawCartItem> {
    match FindById(cart, p.id)
    case Some(k) => cart[k := cart[k].(qty := Bump(cart[k].qty))]
    case None => cart + [NewLine(p)]
  }

  /** A product already in the cart: the first item with its id gets one more,
      the length and every other item stay. */
  lemma MergeExisting(cart: seq<RawCartItem>, p: Product, i: nat)
    requires i < |cart| && cart[i].id == p.id
    ensures var r := MergeIntoCart(cart, p); var k := FindById(cart, p.id).value;
      |r| == |cart| && k <= i && r[k] == cart[k].(qty := Bump(cart[k].qty))
      && (forall j :: 0 <= j < |cart| && j != k ==> r[j] == cart[j])
      && (cart[k].qty.Qty? ==> r[k].qty == Qty(cart[k].qty.n + 1))
  {
  }

  /** A product not in the cart is appended at the end with quantity 1. */
  lemma MergeNew(cart: seq<RawCartItem>, p: Product)
    requires forall j :: 0 <= j < |cart| ==> cart[j].id != p.id
    ensures MergeIntoCart(cart, p) == cart + [RawCartItem(p.id, Some(p.title), Some(p.price), p.imageUrl, Qty(1))]
  {
  }

  /** Merging never introduces a duplicate id, and the ids afterwards are the
      ids before plus the product's. */
  lemma MergeKeepsDistinct(cart: seq<RawCartItem>, p: Product)
    ensures DistinctIds(cart) ==> DistinctIds(MergeIntoCart(cart, p))
    ensures forall x :: x in MergeIntoCart(cart, p) ==> x.id == p.id || x in cart
    ensures forall j :: 0 <= j < |cart| ==> exists x :: x in MergeIntoCart(cart, p) && x.id == cart[j].id
    ensures exists x :: x in MergeIntoCart(cart, p) && x.id == p.id
  {
    var r := MergeIntoCart(cart, p);
    var k := FindById(cart, p.id);
    if k.Some? {
      assert r[k.value].id == p.id;
      forall j | 0 <= j < |cart|
        ensures r[j] in r && r[j].id == cart[j].id
      {
      }
    } else {
      assert r[|cart|].id == p.id;
      forall j | 0 <= j < |cart|
        ensures r[j] in r && r[j].id == cart[j].id
      {
      }
    }
  }

  /** `addToCart`: reads the `cart` key (`saved ? JSON.parse(saved) : []`),
      increments the first item with the product's id or pushes a new one, and
      writes the array back. Unparsable or non-array contents throw before the
      write. */
  method AddToCart(ls: LocalStorage, p: Product) returns (outcome: AddOutcome)
    modifies ls`cart
    ensures old(ls.cart).Corrupt? || old(ls.cart).NotArray? ==> outcome == Threw && ls.cart == old(ls.cart)
    ensures old(ls.cart).Absent? ==> outcome == Added && ls.cart == Items([NewLine(p)])
    ensures old(ls.cart).Items? ==> outcome == Added && ls.cart == Items(MergeIntoCart(old(ls.cart).items, p))
  {
    var cart: seq<RawCartItem>;
    match ls.cart {
      case Corrupt => return Threw;
      case NotArray => return Threw;
      case Absent => cart := [];
      case Items(xs) => cart := xs;
    }
    var existing := FindById(cart, p.id);
    if existing.Some? {
      var k := existing.value;
      cart := cart[k := cart[k].(qty := Bump(cart[k].qty))];
    } else {
      cart := cart + [NewLine(p)];
    }
    ls.cart := SaveArray(cart);
    outcome := Added;
  }
}
