/** The payment modal (`modal/CheckoutModal.tsx`): a login gate, then the
    caller's callbacks and the move to the order page with the chosen payment
    method in the query. */
module CheckoutModal {
  import opened Payment

  /** The side effects `goOrders` performs, in the order performed. */
  datatype Effect = AlertLoginRequired | CallOnPaid | CallOnClose | Navigate(url: string)

  const OrdersPrefix: string := "/orders?pm="

  /** `/orders?pm=${pm}` */
  function OrdersUrl(pm: PaymentTag): (url: string)
    ensures |url| > |OrdersPrefix| && url[..|OrdersPrefix|] == OrdersPrefix
    ensures url[|OrdersPrefix|..] == TagText(pm)
  {
    OrdersPrefix + TagText(pm)
  }

  /** `requireLogin`: true when logged in, otherwise an alert and false. */
  method RequireLogin(isLogin: bool) returns (ok: bool, effects: seq<Effect>)
    ensures ok == isLogin
    ensures effects == (if isLogin then [] else [AlertLoginRequired])
  {
    if !isLogin {
      return false, [AlertLoginRequired];
    }
    return true, [];
  }

  /** `goOrders(pm)`: without login only the alert; with login, `onPaid` when
      the caller gave one, then `onClose`, then the navigation. */
  method GoOrders(isLogin: bool, hasOnPaid: bool, pm: PaymentTag) returns (effects: seq<Effect>)
    ensures !isLogin ==> effects == [AlertLoginRequired]
    ensures isLogin ==> effects == (if hasOnPaid then [CallOnPaid] else []) + [CallOnClose, Navigate(OrdersUrl(pm))]
  {
    var ok;
    ok, effects := RequireLogin(isLogin);
    if !ok {
      return;
    }
    if hasOnPaid {
      effects := effects + [CallOnPaid];
    }
    effects := effects + [CallOnClose];
    effects := effects + [Navigate(OrdersUrl(pm))];
  }
}
