/** The product detail page (`product/page.tsx`, of which only fragments are
    present): the add-to-cart that refuses a product already in the cart, the
    checkout button and the login probe. */
module ProductPage {
  import opened Common
  import opened Slots
  import opened CartItems
  import opened Browser

  /** The product the page fetched; the fields the cart needs. */
  datatype ProductInfo = ProductInfo(id: int, title: string, price: int, imageUrl: Option<string>)

  /** What `handleAddToCart` did. */
  datatype AddOutcome = NoProduct | AlreadyInCart | AddedToCart | Threw

  /** The result of the `/auth/me` probe: its `role`, or a failure (a non-OK
      response or a thrown error). */
  datatype Probe = ProbeOk(role: string) | ProbeFailed

  /** `cart.push(product)`: the product object as it is, without `qty`. */
  function AsCartEntry(p: ProductInfo): (item: RawCartItem)
    ensures item.id == p.id && item.qty == QtyMissing
  {
    RawCartItem(p.id, Some(p.title), Some(p.price), p.imageUrl, QtyMissing)
  }

  /** An entry pushed without `qty` is loaded with quantity 1. */
  lemma PushedEntryLoadsWithQtyOne(p: ProductInfo)
    ensures LoadCart(Items([AsCartEntry(p)])) == [CartItem(p.id, p.title, p.price, p.imageUrl, 1)]
  {
  }

  class ProductView {
    var product: Option<ProductInfo>
    var isLogin: bool
    var userRole: string
    const ls: LocalStorage

    /** The declarations of the page's state are not part of the fragments, so
        the initial values are given. */
    constructor(ls: LocalStorage, product: Option<ProductInfo>, isLogin: bool, userRole: string)
      ensures this.ls == ls && this.product == product && this.isLogin == isLogin && this.userRole == userRole
    {
      this.ls := ls;
      this.product := product;
      this.isLogin := isLogin;
      this.userRole := userRole;
    }

    /** `handleAddToCart`: without a product nothing happens; the `cart` key is
        parsed (`|| "[]"`), and an unparsable or non-array value throws; a
        product whose id is already there is refused and nothing is written;
        otherwise it is pushed at the end and the cart written back. */
    method HandleAddToCart() returns (outcome: AddOutcome)
      modifies ls`cart
      ensures product.None? ==> outcome == NoProduct && ls.cart == old(ls.cart)
      ensures product.Some? && (old(ls.cart).Corrupt? || old(ls.cart).NotArray?) ==>
        outcome == Threw && ls.cart == old(ls.cart)
      ensures product.Some? && (old(ls.cart).Absent? || old(ls.cart).Items?) ==>
        var items := LoadArrayOrEmpty(old(ls.cart));
        (FindById(items, product.value.id).Some? ==> outcome == AlreadyInCart && ls.cart == old(ls.cart))
        && (FindById(items, product.value.id).None? ==>
              outcome == AddedToCart && ls.cart == Items(items + [AsCartEntry(product.value)]))
      ensures outcome != AddedToCart ==> ls.cart == old(ls.cart)
      ensures old(ls.cart).Items? && DistinctIds(old(ls.cart).items) ==> ls.cart.Items? && DistinctIds(ls.cart.items)
      ensures outcome == AddedToCart ==> ls.cart.Items? && DistinctIds(ls.cart.items) == DistinctIds(LoadArrayOrEmpty(old(ls.cart)))
    {
      if product.None? {
        return NoProduct;
      }
      var p := product.value;
      var cart: seq<RawCartItem>;
      match ls.cart {
        case Corrupt => return Threw;
        case NotArray => return Threw;
        case Absent => cart := [];
        case Items(xs) => cart := xs;
      }
      var existing := FindById(cart, p.id);
      if existing.Some? {
        return AlreadyInCart;
      }
      AppendFreshId(cart, AsCartEntry(p));
      cart := cart + [AsCartEntry(p)];
      ls.cart := SaveArray(cart);
      outcome := AddedToCart;
    }

    /** `handleCheckout`: to `/checkout` when logged in, otherwise an alert and
        `/login`. */
    method HandleCheckout() returns (alerted: bool, target: string)
      ensures isLogin ==> !alerted && target == "/checkout"
      ensures !isLogin ==> alerted && target == "/login"
    {
      if isLogin {
        return false, "/checkout";
      }
      return true, "/login";
    }

    /** `checkUserRole`: a successful probe logs in with the returned role and
        stores both; a failed one logs out with the role `"consumer"` and leaves
        storage alone. */
    method CheckUserRole(probe: Probe)
      modifies this`isLogin, this`userRole, ls`isLogin, ls`userRole
      ensures probe.ProbeOk? ==>
        isLogin && userRole == probe.role && ls.isLogin == Some(true) && ls.userRole == Some(probe.role)
      ensures probe.ProbeFailed? ==>
        !isLogin && userRole == "consumer" && ls.isLogin == old(ls.isLogin) && ls.userRole == old(ls.userRole)
    {
      match probe {
        case ProbeOk(role) =>
          isLogin := true;
          userRole := role;
          ls.isLogin := Some(true);
          ls.userRole := Some(role);
        case ProbeFailed =>
          isLogin := false;
          userRole := "consumer";
      }
    }
  }
}
