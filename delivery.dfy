/** The delivery page (`delivery/page.tsx`): the stored `delivery_current`
    record normalised for display, its labels, image paths and total. */
module DeliveryPage {
  import opened Common
  import opened CartItems
  import opened Payment

  const NoImage: string := "/no-image.png"

  /** An absolute `http(s)://` url or a root-relative path. */
  predicate KeptAsIs(url: string) {
    StartsWith(url, "http://") || StartsWith(url, "https://") || StartsWith(url, "/")
  }

  /** `resolveImageSrc`: no url or an empty one gives the placeholder; absolute
      `http(s)://` urls and root-relative paths are kept; anything else is made
      root-relative. */
  function ResolveImageSrc(imageUrl: Option<string>): (src: string)
    ensures imageUrl.None? || imageUrl.value == [] ==> src == NoImage
    ensures imageUrl.Some? && imageUrl.value != [] && KeptAsIs(imageUrl.value) ==> src == imageUrl.value
    ensures imageUrl.Some? && imageUrl.value != [] && !KeptAsIs(imageUrl.value) ==> src == "/" + imageUrl.value
  {
    if imageUrl.None? || imageUrl.value == [] then NoImage
    else
      var url := imageUrl.value;
      if StartsWith(url, "http://") || StartsWith(url, "https://") then url
      else if StartsWith(url, "/") then url
      else "/" + url
  }

  /** Every resolved source is root-relative or starts with `http`. */
  lemma ResolvedIsRootOrHttp(imageUrl: Option<string>)
    ensures var src := ResolveImageSrc(imageUrl);
      StartsWith(src, "/") || StartsWith(src, "http")
  {
    var src := ResolveImageSrc(imageUrl);
    if imageUrl.Some? && imageUrl.value != [] && (StartsWith(imageUrl.value, "http://") || StartsWith(imageUrl.value, "https://")) {
      assert src[..4] == src[..7][..4];
    }
  }

  /** Resolving a resolved source changes nothing. */
  lemma ResolveIdempotent(imageUrl: Option<string>)
    ensures ResolveImageSrc(Some(ResolveImageSrc(imageUrl))) == ResolveImageSrc(imageUrl)
  {
  }

  /** `Delivery["status"]` */
  datatype Status = Ready | Shipping | Done

  /** `statusLabel` */
  function StatusLabel(s: Status): string {
    match s
    case Ready => "배송준비중"
    case Shipping => "배송중"
    case Done => "배송완료"
  }

  /** The three statuses have three different labels. */
  lemma StatusLabelInjective(a: Status, b: Status)
    requires StatusLabel(a) == StatusLabel(b)
    ensures a == b
  {
  }

  /** `paymentLabel` */
  function PaymentLabel(pm: PaymentTag): string {
    if pm == Kakao then "카카오페이" else "신용카드"
  }

  /** The two payment methods have different labels. */
  lemma PaymentLabelInjective(a: PaymentTag, b: PaymentTag)
    requires PaymentLabel(a) == PaymentLabel(b)
    ensures a == b
  {
  }

  /** A parsed record: every field may be missing. `items` is `None` when the
      field is not an array. */
  datatype RawDelivery = RawDelivery(deliveryId: Option<string>, createdAt: Option<string>,
                                     status: Option<string>, address: Option<string>,
                                     paymentMethod: Option<string>, totalPrice: Option<int>,
                                     items: Option<seq<RawCartItem>>)

  /** What the `delivery_current` key holds: nothing (or the empty string), text
      `JSON.parse` rejects, `null` (reading a field of it throws), or a value
      whose fields are read (a non-object value reads as all fields missing). */
  datatype StoredDelivery = NoDelivery | Unparsable | ParsedNull | Record(raw: RawDelivery)

  /** A delivery as the page displays it. */
  datatype Delivery = Delivery(deliveryId: string, createdAt: string, status: Status, address: string,
                               paymentMethod: PaymentTag, totalPrice: int, items: seq<CartItem>)

  /** `parsed.status === "SHIPPING" || parsed.status === "DONE" ? parsed.status : "READY"` */
  function StatusOf(s: Option<string>): (st: Status)
    ensures st == Shipping <==> s == Some("SHIPPING")
    ensures st == Done <==> s == Some("DONE")
  {
    if s == Some("SHIPPING") then Shipping else if s == Some("DONE") then Done else Ready
  }

  /** `parsed.paymentMethod === "kakao" ? "kakao" : "card"` */
  function PaymentOf(pm: Option<string>): (t: PaymentTag)
    ensures t == Kakao <==> pm == Some("kakao")
  {
    if pm.Some? then CoerceTag(pm.value) else Card
  }

  /** The load effect. The clock enters as `nowMillis` (the text of
      `Date.now()`) and `nowIso` (`new Date().toISOString()`). */
  function NormalizeDelivery(stored: StoredDelivery, nowMillis: string, nowIso: string): (d: Option<Delivery>)
    ensures d.Some? <==> stored.Record?
    ensures d.Some? ==> AllQtyPositive(d.value.items)
    ensures d.Some? ==> (d.value.status == Ready <==> stored.raw.status != Some("SHIPPING") && stored.raw.status != Some("DONE"))
    ensures d.Some? ==> (d.value.paymentMethod == Card <==> stored.raw.paymentMethod != Some("kakao"))
    ensures d.Some? ==> d.value.deliveryId == stored.raw.deliveryId.GetOr("D-" + nowMillis)
    ensures d.Some? ==> d.value.items == NormalizeAll(stored.raw.items.GetOr([]))
  {
    match stored
    case Record(raw) =>
      Some(Delivery(raw.deliveryId.GetOr("D-" + nowMillis), raw.createdAt.GetOr(nowIso),
                    StatusOf(raw.status), raw.address.GetOr(""), PaymentOf(raw.paymentMethod),
                    raw.totalPrice.GetOr(0), NormalizeAll(raw.items.GetOr([]))))
    case _ => None
  }

  /** `delivery.items.reduce((acc, it) => acc + it.price * it.qty, 0)` */
  function ItemsSum(items: seq<CartItem>): int {
    if items == [] then 0 else ItemsSum(items[..|items| - 1]) + items[|items| - 1].price * items[|items| - 1].qty
  }

  /** With every quantity at least 1 this sum is the cart page's total. */
  lemma {:induction false} ItemsSumIsCartTotal(items: seq<CartItem>)
    requires AllQtyPositive(items)
    ensures ItemsSum(items) == Total(items)
  {
    if items != [] {
      ItemsSumIsCartTotal(items[..|items| - 1]);
    }
  }

  /** `computedTotal` */
  function ComputedTotal(d: Option<Delivery>): int {
    if d.None? then 0
    else if d.value.totalPrice > 0 then d.value.totalPrice
    else ItemsSum(d.value.items)
  }

  /** The displayed total of a loaded record is its stored total when that is
      positive, otherwise the cart total of its normalised items. */
  lemma ComputedTotalOfLoaded(stored: StoredDelivery, nowMillis: string, nowIso: string)
    ensures var d := NormalizeDelivery(stored, nowMillis, nowIso);
      ComputedTotal(d) == (if d.None? then 0
                           else if d.value.totalPrice > 0 then d.value.totalPrice
                           else Total(d.value.items))
  {
    var d := NormalizeDelivery(stored, nowMillis, nowIso);
    if d.Some? {
      ItemsSumIsCartTotal(d.value.items);
    }
  }
}
