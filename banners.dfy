/** The three banner strips of the home page (`ScrollBanner`, `SpotBanner`,
    `SmallBanner`). Each fetches a list, keeps the visible items, sorts them by
    `sortOrder` and renders one card per item; the two router-aware strips send
    a click either to a new tab (an absolute `http(s)://` link) or through the
    Next.js router. */
module Banners {
  import opened Common
  import opened StableSort

  /** `API_ROOT`, the prefix of every image path the server stores. */
  const ApiRoot: string := "http://localhost:9999"
  /** The label of a scroll-banner button whose own text is blank. */
  const DefaultButtonText: string := "구매하기"
  /** The image of a spotlight item without one. */
  const SpotFallbackImage: string := "/img/air.png"

  /** What the list request gave: it failed (a network error, a status that is
      not `ok`, a body that is not JSON), or its JSON body is or is not an array. */
  datatype Response<T> = RequestFailed | NotAnArray | ArrayBody(items: seq<T>)

  /** A field of the JSON body that may be absent, `null` or a string. */
  datatype JsonString = Undefined | Null | Str(s: string)

  /** `ScrollBannerItem`: `null` and a missing field are both `None`. */
  datatype ScrollItem = ScrollItem(
    id: int, title: string, imageUrl: Option<string>, linkUrl: Option<string>,
    buttonText: Option<string>, buttonLinkUrl: Option<string>,
    sortOrder: Option<int>, visibleYn: Option<string>)

  /** `SpotItem` */
  datatype SpotItem = SpotItem(
    id: int, title: string, imageUrl: Option<string>, linkUrl: Option<string>,
    sortOrder: Option<int>, visibleYn: Option<string>)

  /** `BannerItem` of the carousel: `imageUrl` is declared a string, but nothing
      checks that the server sent one. */
  datatype SmallItem = SmallItem(
    id: int, title: string, desc: string, imageUrl: JsonString, linkUrl: Option<string>,
    sortOrder: Option<int>, visibleYn: Option<string>)

  /** What a click does: nothing, `window.open(url, "_blank", …)`, or `router.push(url)`. */
  datatype GoAction = Ignore | OpenNewTab(url: string) | RouterPush(url: string)

  // ---------------------------------------------------------------------------
  // Visibility and order, shared by the three strips.

  /** `(visibleYn ?? "Y") === "Y"` */
  predicate IsShown(visibleYn: Option<string>) {
    visibleYn.GetOr("Y") == "Y"
  }

  /** `sortOrder ?? 0`, the key the comparator subtracts. */
  function OrderKey(sortOrder: Option<int>): int {
    sortOrder.GetOr(0)
  }

  /** `list.filter(visible).sort(bySortOrder)`: `Array.prototype.sort` is stable. */
  function VisibleSorted<T(==)>(list: seq<T>, shown: T -> bool, key: T -> int): (r: seq<T>)
    ensures SortedBy(r, key)
    ensures |r| <= |list|
  {
    SortBy(Filter(list, shown), key)
  }

  /** Every copy of a visible item is kept, and no hidden item: the result is a
      permutation of exactly the visible items. */
  lemma VisibleSortedCount<T>(list: seq<T>, shown: T -> bool, key: T -> int, x: T)
    ensures multiset(VisibleSorted(list, shown, key))[x] == if shown(x) then multiset(list)[x] else 0
  {
    FilterCount(list, shown, x);
  }

  /** An item is shown exactly when it is in the list and visible. */
  lemma VisibleSortedMembers<T>(list: seq<T>, shown: T -> bool, key: T -> int)
    ensures forall x :: x in VisibleSorted(list, shown, key) <==> x in list && shown(x)
  {
    forall x
      ensures x in VisibleSorted(list, shown, key) <==> x in list && shown(x)
    {
      VisibleSortedCount(list, shown, key, x);
      assert x in VisibleSorted(list, shown, key) <==> x in multiset(VisibleSorted(list, shown, key));
      assert x in list <==> x in multiset(list);
    }
  }

  /** Items with equal `sortOrder` keep the order they arrived in. */
  lemma VisibleSortedStable<T>(list: seq<T>, shown: T -> bool, key: T -> int, k: int)
    ensures KeyGroup(VisibleSorted(list, shown, key), key, k) == KeyGroup(Filter(list, shown), key, k)
  {
    SortIsStable(Filter(list, shown), key, k);
  }

  /** A list that is all visible and already in order is shown as it is. */
  lemma VisibleSortedOfSorted<T>(list: seq<T>, shown: T -> bool, key: T -> int)
    requires forall i :: 0 <= i < |list| ==> shown(list[i])
    requires SortedBy(list, key)
    ensures VisibleSorted(list, shown, key) == list
  {
    FilterKeepsAll(list, shown);
    SortOfSorted(list, key);
  }

  /** `Array.isArray(data) ? data : []`, with a thrown request giving `[]` too. */
  function ListFrom<T>(resp: Response<T>): seq<T> {
    if resp.ArrayBody? then resp.items else []
  }

  predicate ScrollShown(b: ScrollItem) { IsShown(b.visibleYn) }
  function ScrollKey(b: ScrollItem): int { OrderKey(b.sortOrder) }
  predicate SpotShown(b: SpotItem) { IsShown(b.visibleYn) }
  function SpotKey(b: SpotItem): int { OrderKey(b.sortOrder) }
  predicate SmallShown(b: SmallItem) { IsShown(b.visibleYn) }
  function SmallKey(b: SmallItem): int { OrderKey(b.sortOrder) }

  // ---------------------------------------------------------------------------
  // Links.

  /** `/^https?:\/\//i.test(url)`. Without the `u` flag a case-insensitive
      JavaScript regular expression folds no non-ASCII character onto an ASCII
      one, so ASCII lower-casing decides the match exactly. */
  predicate IsExternal(url: string) {
    StartsWith(Lower(url), "http://") || StartsWith(Lower(url), "https://")
  }

  /** `go(url)` of the scroll and spotlight strips. */
  function Go(url: Option<string>): (r: GoAction)
    ensures r == Ignore <==> url.None? || url.value == ""
    ensures r != Ignore ==> r.url == url.value
    ensures r.OpenNewTab? <==> url.Some? && IsExternal(url.value)
  {
    if url.None? || url.value == "" then Ignore
    else if IsExternal(url.value) then OpenNewTab(url.value)
    else RouterPush(url.value)
  }

  /** The scheme test ignores case: a link and its lower-cased form go the same way. */
  lemma GoIgnoresCase(url: string)
    ensures Go(Some(Lower(url))).OpenNewTab? == Go(Some(url)).OpenNewTab?
    ensures Go(Some(Lower(url))) == Ignore <==> Go(Some(url)) == Ignore
  {
    LowerIdempotent(url);
  }

  /** `HTTPS://` in capitals is still an external link. */
  lemma UpperCaseSchemeIsExternal(rest: string)
    ensures Go(Some("HTTPS://" + rest)) == OpenNewTab("HTTPS://" + rest)
  {
    var u := "HTTPS://" + rest;
    assert Lower(u)[..8] == "https://";
  }

  /** A site path (starting with `/`) goes through the router. */
  lemma SitePathIsPushed(rest: string)
    ensures Go(Some("/" + rest)) == RouterPush("/" + rest)
  {
    assert Lower("/" + rest)[0] == '/';
  }

  // ---------------------------------------------------------------------------
  // Scroll banner.

  /** `(b.buttonText ?? "").trim() || "구매하기"` */
  function ButtonLabel(buttonText: Option<string>): string {
    var t := Trim(buttonText.GetOr(""));
    if t == [] then DefaultButtonText else t
  }

  /** The default label is its own trim. */
  lemma DefaultLabelTrimmed()
    ensures Trim(DefaultButtonText) == DefaultButtonText
  {
    TrimOfTrimmed(DefaultButtonText);
  }

  /** The label is never blank and carries no surrounding white space. */
  lemma ButtonLabelTrimmed(buttonText: Option<string>)
    ensures !IsBlank(ButtonLabel(buttonText))
    ensures Trim(ButtonLabel(buttonText)) == ButtonLabel(buttonText)
  {
    if Trim(buttonText.GetOr("")) == [] {
      DefaultLabelTrimmed();
    } else {
      TrimIdempotent(buttonText.GetOr(""));
    }
  }

  /** A button text with something in it is shown trimmed; a missing or blank one gives the default. */
  lemma ButtonLabelChoice(buttonText: Option<string>)
    ensures buttonText.Some? && !IsBlank(buttonText.value) ==> ButtonLabel(buttonText) == Trim(buttonText.value)
    ensures buttonText.None? || IsBlank(buttonText.value) ==> ButtonLabel(buttonText) == DefaultButtonText
  {
  }

  /** `b.buttonLinkUrl ?? b.linkUrl`: only a missing or `null` button link falls back. */
  function ButtonTarget(b: ScrollItem): Option<string> {
    if b.buttonLinkUrl.Some? then b.buttonLinkUrl else b.linkUrl
  }

  /** The button follows its own link when it has one, and the card's otherwise;
      an empty button link is not replaced by the card's, so the button does nothing. */
  lemma ButtonGo(b: ScrollItem)
    ensures b.buttonLinkUrl.None? ==> Go(ButtonTarget(b)) == Go(b.linkUrl)
    ensures b.buttonLinkUrl.Some? ==> Go(ButtonTarget(b)) == Go(b.buttonLinkUrl)
    ensures b.buttonLinkUrl == Some("") ==> Go(ButtonTarget(b)) == Ignore
  {
  }

  /** `b.imageUrl ? `${API_ROOT}${b.imageUrl}` : null` */
  function ScrollImage(imageUrl: Option<string>): (r: Option<string>)
    ensures r.None? <==> imageUrl.None? || imageUrl.value == ""
    ensures r.Some? ==> StartsWith(r.value, ApiRoot) && r.value[|ApiRoot|..] == imageUrl.value
  {
    if imageUrl.None? || imageUrl.value == "" then None else Some(ApiRoot + imageUrl.value)
  }

  /** One card of the scroll strip: the image (or the "no image" box), the
      title, whether the card has `role="button"` and a hand cursor, what
      clicking the card and its button does, and the button label. */
  datatype ScrollCard = ScrollCard(
    key: int, image: Option<string>, title: string, clickable: bool,
    cardClick: GoAction, buttonClick: GoAction, buttonLabel: string)

  function ScrollCardOf(b: ScrollItem): ScrollCard {
    ScrollCard(b.id, ScrollImage(b.imageUrl), b.title, b.linkUrl.Some? && b.linkUrl.value != "",
               Go(b.linkUrl), Go(ButtonTarget(b)), ButtonLabel(b.buttonText))
  }

  /** The card looks clickable exactly when clicking it does something. */
  lemma ScrollCardClickable(b: ScrollItem)
    ensures ScrollCardOf(b).clickable <==> ScrollCardOf(b).cardClick != Ignore
  {
  }

  /** What the strip renders: `null` (`None`) while loading or with nothing
      visible, else one card per visible item in display order. */
  function ScrollRender(loading: bool, list: seq<ScrollItem>): (r: Option<seq<ScrollCard>>)
    ensures r.None? <==> loading || VisibleSorted(list, ScrollShown, ScrollKey) == []
    ensures r.Some? ==> |r.value| == |VisibleSorted(list, ScrollShown, ScrollKey)|
    ensures r.Some? ==> forall i :: 0 <= i < |r.value| ==>
      r.value[i] == ScrollCardOf(VisibleSorted(list, ScrollShown, ScrollKey)[i])
  {
    var shown := VisibleSorted(list, ScrollShown, ScrollKey);
    if loading || shown == [] then None
    else Some(seq(|shown|, i requires 0 <= i < |shown| => ScrollCardOf(shown[i])))
  }

  /** Nothing renders while loading; otherwise the strip renders exactly when
      the list holds a visible item. */
  lemma ScrollRendersVisible(loading: bool, list: seq<ScrollItem>)
    ensures ScrollRender(loading, list).None? <==> loading || forall b :: b in list ==> !ScrollShown(b)
  {
    VisibleSortedMembers(list, ScrollShown, ScrollKey);
    var shown := VisibleSorted(list, ScrollShown, ScrollKey);
    if shown != [] {
      assert shown[0] in shown;
    }
  }

  /** `fetchList`: the list the strip holds after the request settles. */
  function ScrollFetch(resp: Response<ScrollItem>): seq<ScrollItem> {
    ListFrom(resp)
  }

  /** A failed request or a body that is not an array renders nothing. */
  lemma ScrollFailureRendersNothing(resp: Response<ScrollItem>)
    requires !resp.ArrayBody?
    ensures ScrollRender(false, ScrollFetch(resp)) == None
  {
  }

  // ---------------------------------------------------------------------------
  // Spotlight.

  /** `item.imageUrl ? `${API_ROOT}${item.imageUrl}` : "/img/air.png"` */
  function SpotImage(imageUrl: Option<string>): (r: string)
    ensures imageUrl.Some? && imageUrl.value != "" ==>
      StartsWith(r, ApiRoot) && r[|ApiRoot|..] == imageUrl.value
  {
    if imageUrl.None? || imageUrl.value == "" then SpotFallbackImage else ApiRoot + imageUrl.value
  }

  /** The fallback picture is shown exactly when the item has no image of its own. */
  lemma SpotImageFallback(imageUrl: Option<string>)
    ensures SpotImage(imageUrl) == SpotFallbackImage <==> imageUrl.None? || imageUrl.value == ""
  {
    if imageUrl.Some? && imageUrl.value != "" {
      assert SpotImage(imageUrl)[0] == 'h';
    }
  }

  /** One icon of the spotlight strip. */
  datatype SpotTile = SpotTile(key: int, image: string, title: string, cursor: bool, click: GoAction)

  function SpotTileOf(item: SpotItem): SpotTile {
    SpotTile(item.id, SpotImage(item.imageUrl), item.title,
             item.linkUrl.Some? && item.linkUrl.value != "", Go(item.linkUrl))
  }

  /** The hand cursor is shown exactly when clicking does something. */
  lemma SpotTileCursor(item: SpotItem)
    ensures SpotTileOf(item).cursor <==> SpotTileOf(item).click != Ignore
  {
  }

  /** What the spotlight renders: nothing while loading or with nothing
      visible, else one icon per visible item in display order. */
  function SpotRender(loading: bool, list: seq<SpotItem>): (r: Option<seq<SpotTile>>)
    ensures r.None? <==> loading || VisibleSorted(list, SpotShown, SpotKey) == []
    ensures r.Some? ==> |r.value| == |VisibleSorted(list, SpotShown, SpotKey)|
    ensures r.Some? ==> forall i :: 0 <= i < |r.value| ==>
      r.value[i] == SpotTileOf(VisibleSorted(list, SpotShown, SpotKey)[i])
  {
    var shown := VisibleSorted(list, SpotShown, SpotKey);
    if loading || shown == [] then None
    else Some(seq(|shown|, i requires 0 <= i < |shown| => SpotTileOf(shown[i])))
  }

  /** Nothing renders while loading; otherwise the strip renders exactly when
      the list holds a visible item. */
  lemma SpotRendersVisible(loading: bool, list: seq<SpotItem>)
    ensures SpotRender(loading, list).None? <==> loading || forall b :: b in list ==> !SpotShown(b)
  {
    VisibleSortedMembers(list, SpotShown, SpotKey);
    var shown := VisibleSorted(list, SpotShown, SpotKey);
    if shown != [] {
      assert shown[0] in shown;
    }
  }

  // ---------------------------------------------------------------------------
  // Carousel.

  /** `b.imageUrl?.startsWith("http") ? b.imageUrl : `${API_ROOT}${b.imageUrl}``:
      a missing or `null` field is interpolated as the text `undefined` or `null`. */
  function SmallImage(imageUrl: JsonString): (r: string)
    ensures StartsWith(r, "http")
    ensures imageUrl.Str? && StartsWith(imageUrl.s, "http") ==> r == imageUrl.s
    ensures !(imageUrl.Str? && StartsWith(imageUrl.s, "http")) ==> StartsWith(r, ApiRoot)
  {
    match imageUrl
    case Str(s) => if StartsWith(s, "http") then s else ApiRoot + s
    case Undefined => ApiRoot + "undefined"
    case Null => ApiRoot + "null"
  }

  /** A source the rule produced passes through it again unchanged. */
  lemma SmallImageIdempotent(imageUrl: JsonString)
    ensures SmallImage(Str(SmallImage(imageUrl))) == SmallImage(imageUrl)
  {
  }

  /** The `http` test is case-sensitive (unlike the link test of the other
      strips): a capitalised absolute link is prefixed with the API root. */
  lemma SmallImageCaseSensitive(rest: string)
    ensures SmallImage(Str("HTTP://" + rest)) == ApiRoot + "HTTP://" + rest
  {
    assert ("HTTP://" + rest)[0] == 'H';
  }

  /** `fetchBanners`: the visible items in display order; a failed request or
      a body that is not an array gives none. */
  function SmallFetch(resp: Response<SmallItem>): (r: seq<SmallItem>)
    ensures !resp.ArrayBody? ==> r == []
    ensures SortedBy(r, SmallKey)
  {
    VisibleSorted(ListFrom(resp), SmallShown, SmallKey)
  }

  /** One slide of the carousel. */
  datatype Slide = Slide(key: int, image: string, title: string, desc: string, click: Option<string>)

  /** `if (b.linkUrl) window.location.href = b.linkUrl`: the carousel follows
      any non-empty link in the same tab, with no external/internal split. */
  function SmallClick(linkUrl: Option<string>): (r: Option<string>)
    ensures r.None? <==> linkUrl.None? || linkUrl.value == ""
    ensures r.Some? ==> r == linkUrl
  {
    if linkUrl.None? || linkUrl.value == "" then None else linkUrl
  }

  function SlideOf(b: SmallItem): Slide {
    Slide(b.id, SmallImage(b.imageUrl), b.title, b.desc, SmallClick(b.linkUrl))
  }

  /** What the carousel renders: nothing for an empty item list, else one slide per item. */
  function SmallRender(items: seq<SmallItem>): (r: Option<seq<Slide>>)
    ensures r.None? <==> items == []
    ensures r.Some? ==> |r.value| == |items| && forall i :: 0 <= i < |items| ==> r.value[i] == SlideOf(items[i])
  {
    if items == [] then None
    else Some(seq(|items|, i requires 0 <= i < |items| => SlideOf(items[i])))
  }

  /** The carousel renders exactly when the response holds a visible item. */
  lemma SmallRendersVisible(resp: Response<SmallItem>)
    ensures SmallRender(SmallFetch(resp)).Some? <==> exists b :: b in ListFrom(resp) && SmallShown(b)
  {
    VisibleSortedMembers(ListFrom(resp), SmallShown, SmallKey);
    if SmallFetch(resp) != [] {
      assert SmallFetch(resp)[0] in SmallFetch(resp);
    }
  }
}
