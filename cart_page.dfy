/** The cart page (`cart/page.tsx`): the normalised cart in component state,
    written back to the `cart` key after every change, and the login gate in
    front of the payment modal. */
module CartPage {
  import opened Common
  import opened Slots
  import opened CartItems
  import opened Browser

  /** What the checkout button did: opened the payment modal or alerted. */
  datatype CheckoutResult = ModalOpened | LoginRequired

  class CartView {
    var cart: seq<CartItem>
    /** `boolean | null`: `None` until the login probe answers. */
    var isLogin: Option<bool>
    var showCheckout: bool
    const ls: LocalStorage

    constructor(ls: LocalStorage)
      ensures this.ls == ls && cart == [] && isLogin == None && !showCheckout
    {
      this.ls := ls;
      cart := [];
      isLogin := None;
      showCheckout := false;
    }

    /** `loadCart`: the cart becomes the normalised stored cart. */
    method LoadCart()
      modifies this`cart
      ensures cart == CartItems.LoadCart(ls.cart)
      ensures AllQtyPositive(cart)
    {
      cart := CartItems.LoadCart(ls.cart);
    }

    /** `handleQtyChange`: only the matching items' quantities change, to
        `max(1, (qty || 1) + delta)`; the result is stored and shown, and reloading
        the stored cart gives the cart shown. */
    method HandleQtyChange(productId: int, delta: int)
      modifies this`cart, ls`cart
      ensures cart == QtyChanged(old(cart), productId, delta)
      ensures ls.cart == SaveCart(cart)
      ensures old(AllQtyPositive(cart)) ==> AllQtyPositive(cart) && CartItems.LoadCart(ls.cart) == cart
    {
      var updated := QtyChanged(cart, productId, delta);
      ls.cart := SaveCart(updated);
      cart := updated;
      if AllQtyPositive(cart) {
        LoadAfterSaveCart(cart);
      }
    }

    /** `handleRemoveFromCart`: the items with the id go, the rest keep their
        order; the result is stored and shown. */
    method HandleRemoveFromCart(productId: int)
      modifies this`cart, ls`cart
      ensures cart == Removed(old(cart), productId)
      ensures ls.cart == SaveCart(cart)
      ensures old(AllQtyPositive(cart)) ==> CartItems.LoadCart(ls.cart) == cart
    {
      var updated := Removed(cart, productId);
      RemovedExactly(cart, productId);
      ls.cart := SaveCart(updated);
      cart := updated;
      if AllQtyPositive(old(cart)) {
        forall i | 0 <= i < |cart|
          ensures cart[i].qty >= 1
        {
          assert cart[i] in multiset(cart);
        }
        LoadAfterSaveCart(cart);
      }
    }

    /** `handleCheckout`: the modal opens only when `isLogin` is exactly `true`. */
    method HandleCheckout() returns (r: CheckoutResult)
      modifies this`showCheckout
      ensures isLogin == Some(true) ==> r == ModalOpened && showCheckout
      ensures isLogin != Some(true) ==> r == LoginRequired && showCheckout == old(showCheckout)
    {
      if isLogin != Some(true) {
        return LoginRequired;
      }
      showCheckout := true;
      r := ModalOpened;
    }
  }
}
