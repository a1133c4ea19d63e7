/** The shopping cart kept under the `cart` storage key, as the cart, consumer,
    product and orders pages read and write it. */
module CartItems {
  import opened Common
  import opened Slots

  /** The `qty` field as it sits in storage: missing (the product page stores
      products without one), `null` (`JSON.stringify` writes NaN as `null`), or a number. */
  datatype QtyField = QtyMissing | QtyNull | Qty(n: int)

  /** A stored cart entry; the fields a writer may leave out are optional. */
  datatype RawCartItem = RawCartItem(id: int, title: Option<string>, price: Option<int>,
                                     imageUrl: Option<string>, qty: QtyField)

  /** A cart entry after normalisation, as the cart and orders pages display it. */
  datatype CartItem = CartItem(id: int, title: string, price: int, imageUrl: Option<string>, qty: int)

  /** `Math.max(1, Number(item.qty ?? 1))` */
  function NormalizeQty(q: QtyField): (n: int)
    ensures n >= 1
    ensures n == (if q.Qty? && q.n >= 1 then q.n else 1)
  {
    match q
    case Qty(k) => Max(1, k)
    case _ => 1
  }

  /** One element of the normalising `map`: `title ?? ""`, `price ?? 0`, `imageUrl ?? null`. */
  function Normalize(raw: RawCartItem): (c: CartItem)
    ensures c.id == raw.id && c.imageUrl == raw.imageUrl
    ensures c.title == (if raw.title.Some? then raw.title.value else "")
    ensures c.price == (if raw.price.Some? then raw.price.value else 0)
    ensures c.qty >= 1
  {
    CartItem(raw.id, raw.title.GetOr(""), raw.price.GetOr(0), raw.imageUrl, NormalizeQty(raw.qty))
  }

  predicate AllQtyPositive(cart: seq<CartItem>) {
    forall i :: 0 <= i < |cart| ==> cart[i].qty >= 1
  }

  /** The normalising `map` over a stored array. */
  function NormalizeAll(xs: seq<RawCartItem>): (cart: seq<CartItem>)
    ensures |cart| == |xs| && forall i :: 0 <= i < |cart| ==> cart[i] == Normalize(xs[i])
    ensures AllQtyPositive(cart)
  {
    seq(|xs|, i requires 0 <= i < |xs| => Normalize(xs[i]))
  }

  /** `loadCart`: no value, an unparsable value or a non-array gives the empty
      cart; an array is normalised element by element. */
  function LoadCart(slot: Slot<RawCartItem>): (cart: seq<CartItem>)
    ensures !slot.Items? ==> cart == []
    ensures slot.Items? ==> cart == NormalizeAll(slot.items)
    ensures AllQtyPositive(cart)
  {
    NormalizeAll(LoadArrayOrEmpty(slot))
  }

  function ToRaw(c: CartItem): RawCartItem {
    RawCartItem(c.id, Some(c.title), Some(c.price), c.imageUrl, Qty(c.qty))
  }

  /** `localStorage.setItem("cart", JSON.stringify(cart))` for a normalised cart. */
  function SaveCart(cart: seq<CartItem>): (slot: Slot<RawCartItem>)
    ensures slot.Items? && |slot.items| == |cart|
  {
    Items(seq(|cart|, i requires 0 <= i < |cart| => ToRaw(cart[i])))
  }

  /** What a page writes is what the next load shows, as long as every quantity is
      at least 1 (which every cart built from a load is). */
  lemma LoadAfterSaveCart(cart: seq<CartItem>)
    requires AllQtyPositive(cart)
    ensures LoadCart(SaveCart(cart)) == cart
  {
    var r := LoadCart(SaveCart(cart));
    assert forall i :: 0 <= i < |cart| ==> r[i] == cart[i];
  }

  /** `cart.find((item) => item.id === id)`, as the position of the item found. */
  function FindById(cart: seq<RawCartItem>, id: int): (k: Option<nat>)
    ensures k.Some? ==>
      k.value < |cart| && cart[k.value].id == id && forall j :: 0 <= j < k.value ==> cart[j].id != id
    ensures k.None? ==> forall j :: 0 <= j < |cart| ==> cart[j].id != id
  {
    if cart == [] then None
    else if cart[0].id == id then Some(0)
    else match FindById(cart[1..], id)
      case Some(k) => Some(k + 1)
      case None => None
  }

  /** No two stored items share an id. */
  predicate DistinctIds(cart: seq<RawCartItem>) {
    forall i, j :: 0 <= i < j < |cart| ==> cart[i].id != cart[j].id
  }

  /** Appending an item whose id is not yet present keeps the ids distinct
      exactly when they were. */
  lemma AppendFreshId(cart: seq<RawCartItem>, x: RawCartItem)
    requires forall j :: 0 <= j < |cart| ==> cart[j].id != x.id
    ensures DistinctIds(cart + [x]) <==> DistinctIds(cart)
  {
    var r := cart + [x];
    if DistinctIds(r) {
      forall i, j | 0 <= i < j < |cart|
        ensures cart[i].id != cart[j].id
      {
        assert r[i] == cart[i] && r[j] == cart[j];
      }
    }
  }

  /** `item.qty || 1`: a zero quantity counts as 1. */
  function OrOne(q: int): int {
    if q == 0 then 1 else q
  }

  /** `handleQtyChange`: the items with this id get quantity `max(1, (qty || 1) + delta)`. */
  function QtyChanged(cart: seq<CartItem>, id: int, delta: int): (r: seq<CartItem>)
    ensures |r| == |cart|
    ensures forall i :: 0 <= i < |r| ==> r[i] == cart[i].(qty := r[i].qty)
    ensures forall i :: 0 <= i < |r| && cart[i].id != id ==> r[i] == cart[i]
    ensures forall i :: 0 <= i < |r| && cart[i].id == id ==>
      r[i].qty >= 1 && (cart[i].qty >= 1 ==> r[i].qty == Max(1, cart[i].qty + delta))
  {
    seq(|cart|, i requires 0 <= i < |cart| =>
      if cart[i].id == id then cart[i].(qty := Max(1, OrOne(cart[i].qty) + delta)) else cart[i])
  }

  /** A quantity change keeps every quantity at least 1. */
  lemma QtyChangedKeepsPositive(cart: seq<CartItem>, id: int, delta: int)
    requires AllQtyPositive(cart)
    ensures AllQtyPositive(QtyChanged(cart, id, delta))
  {
  }

  /** Pressing "+" and then "-" on the same item gives the cart back. */
  lemma IncThenDecRestores(cart: seq<CartItem>, id: int)
    requires AllQtyPositive(cart)
    ensures QtyChanged(QtyChanged(cart, id, 1), id, -1) == cart
  {
    var up := QtyChanged(cart, id, 1);
    var down := QtyChanged(up, id, -1);
    forall i | 0 <= i < |cart|
      ensures down[i] == cart[i]
    {
      if cart[i].id == id {
        assert up[i].qty == cart[i].qty + 1;
      }
    }
  }

  /** `cart.filter((item) => item.id !== productId)` */
  function Removed(cart: seq<CartItem>, id: int): (r: seq<CartItem>)
    ensures |r| <= |cart|
    ensures forall i :: 0 <= i < |r| ==> r[i].id != id
  {
    if cart == [] then []
    else if cart[0].id == id then Removed(cart[1..], id)
    else [cart[0]] + Removed(cart[1..], id)
  }

  /** The items with this id, in order (the part `Removed` drops). */
  function WithId(cart: seq<CartItem>, id: int): seq<CartItem> {
    if cart == [] then []
    else if cart[0].id == id then [cart[0]] + WithId(cart[1..], id)
    else WithId(cart[1..], id)
  }

  /** Removing by id drops exactly the items with that id, as many times as they
      occur, and keeps the others in their order. */
  lemma {:induction false} RemovedExactly(cart: seq<CartItem>, id: int)
    ensures IsSubsequence(Removed(cart, id), cart)
    ensures forall x :: multiset(Removed(cart, id))[x] == (if x.id == id then 0 else multiset(cart)[x])
  {
    if cart != [] {
      RemovedExactly(cart[1..], id);
      var rest := Removed(cart[1..], id);
      assert cart == [cart[0]] + cart[1..];
      assert multiset(cart) == multiset{cart[0]} + multiset(cart[1..]);
      if cart[0].id != id {
        assert ([cart[0]] + rest)[1..] == rest;
        assert multiset(Removed(cart, id)) == multiset{cart[0]} + multiset(rest);
      } else {
        SubsequenceDropHead(rest, cart);
      }
    }
  }

  /** `(Number(item.price) || 0) * (Number(item.qty) || 1)` */
  function LineTotal(c: CartItem): int {
    c.price * OrOne(c.qty)
  }

  /** `totalPrice`: the `reduce` from the left over the line totals. */
  function Total(cart: seq<CartItem>): int {
    if cart == [] then 0 else Total(cart[..|cart| - 1]) + LineTotal(cart[|cart| - 1])
  }

  lemma {:induction false} TotalAppend(a: seq<CartItem>, b: seq<CartItem>)
    ensures Total(a + b) == Total(a) + Total(b)
    decreases |b|
  {
    if b == [] {
      assert a + b == a;
    } else {
      var ab := a + b;
      assert ab[..|ab| - 1] == a + b[..|b| - 1];
      assert ab[|ab| - 1] == b[|b| - 1];
      TotalAppend(a, b[..|b| - 1]);
    }
  }

  lemma TotalCons(c: CartItem, rest: seq<CartItem>)
    ensures Total([c] + rest) == LineTotal(c) + Total(rest)
  {
    TotalAppend([c], rest);
    assert [c][..0] == [];
  }

  /** The total is the total of what removing `id` keeps plus the total of the
      lines with that id. */
  lemma {:induction false} TotalSplitsById(cart: seq<CartItem>, id: int)
    ensures Total(cart) == Total(Removed(cart, id)) + Total(WithId(cart, id))
  {
    if cart != [] {
      assert cart == [cart[0]] + cart[1..];
      TotalSplitsById(cart[1..], id);
      TotalCons(cart[0], cart[1..]);
      if cart[0].id == id {
        TotalCons(cart[0], WithId(cart[1..], id));
      } else {
        TotalCons(cart[0], Removed(cart[1..], id));
      }
    }
  }

  /** With no negative price and every quantity at least 1, the total is not negative. */
  lemma {:induction false} TotalNonNegative(cart: seq<CartItem>)
    requires forall i :: 0 <= i < |cart| ==> cart[i].price >= 0
    requires AllQtyPositive(cart)
    ensures Total(cart) >= 0
  {
    if cart != [] {
      TotalNonNegative(cart[..|cart| - 1]);
    }
  }
}
