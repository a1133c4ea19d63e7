/** The order page (`orders/page.tsx`): the normalised cart, the address form
    and the payment method taken from the `pm` query parameter. */
module OrdersPage {
  import opened Common
  import opened Slots
  import opened CartItems
  import opened Payment
  import opened Browser
  import CheckoutModal

  /** `OrderDetails`; `paymentMethod` can only hold one of the two tags. */
  datatype OrderDetails = OrderDetails(address: string, detailAddress: string, paymentMethod: PaymentTag)

  /** The `name` of the input a change event comes from. */
  datatype FormField = Address | DetailAddress | PaymentMethod

  /** The text of `s` before the first `c`; all of `s` when there is none. */
  function Before(s: string, c: char): (r: string)
    ensures |r| <= |s| && r == s[..|r|]
    ensures c !in r
    ensures |r| < |s| ==> s[|r|] == c
  {
    if s == [] || s[0] == c then [] else [s[0]] + Before(s[1..], c)
  }

  /** The pieces of `s` between the occurrences of `c` (`s.split(c)`). */
  function SplitOn(s: string, c: char): (parts: seq<string>)
    ensures |parts| >= 1
    ensures forall i :: 0 <= i < |parts| ==> c !in parts[i]
    decreases |s|
  {
    var head := Before(s, c);
    if |head| == |s| then [s] else [head] + SplitOn(s[|head| + 1..], c)
  }

  /** `parts.join(c)` */
  function Join(parts: seq<string>, c: char): string {
    if |parts| == 0 then []
    else if |parts| == 1 then parts[0]
    else parts[0] + [c] + Join(parts[1..], c)
  }

  /** Splitting and joining again gives back the text. */
  lemma {:induction false} JoinSplitOn(s: string, c: char)
    ensures Join(SplitOn(s, c), c) == s
    decreases |s|
  {
    var head := Before(s, c);
    if |head| < |s| {
      var rest := s[|head| + 1..];
      JoinSplitOn(rest, c);
      var tail := SplitOn(rest, c);
      assert SplitOn(s, c) == [head] + tail;
      assert s == head + [c] + rest;
    }
  }

  /** `Before` stops at the first `c`, so a prefix without `c` passes through. */
  lemma {:induction false} BeforeAppend(a: string, b: string, c: char)
    requires c !in a
    ensures Before(a + b, c) == a + Before(b, c)
  {
    if a != [] {
      assert (a + b)[0] == a[0] && (a + b)[1..] == a[1..] + b;
      BeforeAppend(a[1..], b, c);
      assert a == [a[0]] + a[1..];
    } else {
      assert a + b == b && a + Before(b, c) == Before(b, c);
    }
  }

  /** Without a `c`, `Before` keeps the whole text. */
  lemma BeforeAbsent(s: string, c: char)
    requires c !in s
    ensures Before(s, c) == s
  {
    BeforeAppend(s, [], c);
    assert s + [] == s;
  }

  /** The text before the first `c` of `a + [c] + b`, when `a` has none, is `a`. */
  lemma BeforeAt(a: string, b: string, c: char)
    requires c !in a
    ensures Before(a + [c] + b, c) == a
  {
    BeforeAppend(a, [c] + b, c);
    assert a + [c] + b == a + ([c] + b);
    assert a + [] == a;
  }

  /** `url.search` without its `?`: the text after the first `?`, up to the
      fragment; empty when the URL has no query. */
  function QueryOf(url: string): (q: string)
    ensures '#' !in q
  {
    var h := Before(url, '#');
    var b := Before(h, '?');
    if |b| < |h| then h[|b| + 1..] else []
  }

  /** The query of `base?q` is `q` when neither part has a fragment and the
      base has no `?`. */
  lemma QueryOfMarked(base: string, q: string)
    requires '?' !in base && '#' !in base && '#' !in q
    ensures QueryOf(base + "?" + q) == q
  {
    var url := base + ['?'] + q;
    assert url == base + "?" + q;
    assert '#' !in url by {
      forall i | 0 <= i < |url| ensures url[i] != '#' {
        if i < |base| { assert url[i] == base[i]; }
        else if i > |base| { assert url[i] == q[i - |base| - 1]; }
      }
    }
    BeforeAbsent(url, '#');
    BeforeAt(base, q, '?');
    assert url[|base| + 1..] == q;
  }

  /** The name of a query entry: the text before its first `=`. */
  function ParamName(entry: string): string {
    Before(entry, '=')
  }

  /** The value of a query entry: the text after its first `=`, or empty. */
  function ParamValue(entry: string): string {
    var name := Before(entry, '=');
    if |name| < |entry| then entry[|name| + 1..] else []
  }

  /** An entry written as `name=value` reads back as that name and value. */
  lemma ParamRoundTrip(name: string, value: string)
    requires '=' !in name
    ensures ParamName(name + "=" + value) == name
    ensures ParamValue(name + "=" + value) == value
  {
    assert name + "=" + value == name + ['='] + value;
    BeforeAt(name, value, '=');
    assert (name + ['='] + value)[|name| + 1..] == value;
  }

  /** The position of the first entry called `name`. */
  function FirstNamed(entries: seq<string>, name: string): (k: Option<nat>)
    ensures k.Some? ==> k.value < |entries| && ParamName(entries[k.value]) == name
    ensures forall j :: 0 <= j < |entries| && (k.None? || j < k.value) ==> ParamName(entries[j]) != name
  {
    if entries == [] then None
    else if ParamName(entries[0]) == name then Some(0)
    else match FirstNamed(entries[1..], name)
      case None => None
      case Some(k) => Some(k + 1)
  }

  /** The `&`-separated entries of the URL's query. */
  function Params(url: string): (entries: seq<string>)
    ensures Join(entries, '&') == QueryOf(url)
  {
    JoinSplitOn(QueryOf(url), '&');
    SplitOn(QueryOf(url), '&')
  }

  /** `new URL(href).searchParams.get("pm")`: the value of the first query
      entry named `pm`, and nothing when there is none. */
  function PmQuery(url: string): (pm: Option<string>)
    ensures pm.None? <==> forall j :: 0 <= j < |Params(url)| ==> ParamName(Params(url)[j]) != "pm"
    ensures pm.Some? ==> '&' !in pm.value && '#' !in pm.value
  {
    var entries := Params(url);
    match FirstNamed(entries, "pm")
      case None => None
      case Some(k) =>
        assert '#' !in entries[k] by {
          if '#' in entries[k] {
            var i :| 0 <= i < |entries[k]| && entries[k][i] == '#';
            JoinHas(entries, '&', k, i);
          }
        }
        Some(ParamValue(entries[k]))
  }

  /** The value found is that of an entry named `pm`, and no earlier entry is
      named `pm`. */
  lemma PmQueryFirstEntry(url: string)
    requires PmQuery(url).Some?
    ensures exists k :: (0 <= k < |Params(url)| && ParamName(Params(url)[k]) == "pm"
      && ParamValue(Params(url)[k]) == PmQuery(url).value
      && (forall j :: 0 <= j < k ==> ParamName(Params(url)[j]) != "pm"))
  {
    var k := FirstNamed(Params(url), "pm").value;
    assert ParamValue(Params(url)[k]) == PmQuery(url).value;
  }

  /** A character of an entry is a character of the joined text. */
  lemma {:induction false} JoinHas(parts: seq<string>, c: char, k: int, i: int)
    requires 0 <= k < |parts| && 0 <= i < |parts[k]|
    ensures parts[k][i] in Join(parts, c)
  {
    if |parts| > 1 {
      if k == 0 {
        assert Join(parts, c)[i] == parts[0][i];
      } else {
        JoinHas(parts[1..], c, k - 1, i);
        assert Join(parts, c) == parts[0] + [c] + Join(parts[1..], c);
      }
    }
  }

  class OrderPage {
    var cart: seq<CartItem>
    var orderDetails: OrderDetails
    const ls: LocalStorage

    /** The initial state: empty cart, empty address, card payment. */
    constructor(ls: LocalStorage)
      ensures this.ls == ls && cart == [] && orderDetails == OrderDetails("", "", Card)
    {
      this.ls := ls;
      cart := [];
      orderDetails := OrderDetails("", "", Card);
    }

    /** `loadCart`: the same normalisation as the cart page. */
    method LoadCart()
      modifies this`cart
      ensures cart == CartItems.LoadCart(ls.cart)
      ensures AllQtyPositive(cart)
      ensures !ls.cart.Items? ==> cart == []
    {
      cart := CartItems.LoadCart(ls.cart);
    }

    /** The `pm` effect: the payment method changes only to an exact `"kakao"` or
        `"card"`; any other value, or none, leaves the form as it was. */
    method ApplyPmQuery(pm: Option<string>)
      modifies this`orderDetails
      ensures pm.Some? && AcceptTag(pm.value).Some? ==>
        orderDetails == old(orderDetails).(paymentMethod := AcceptTag(pm.value).value)
        && TagText(orderDetails.paymentMethod) == pm.value
      ensures pm.None? || AcceptTag(pm.value).None? ==> orderDetails == old(orderDetails)
    {
      if pm.Some? {
        var tag := AcceptTag(pm.value);
        if tag.Some? {
          orderDetails := orderDetails.(paymentMethod := tag.value);
        }
      }
    }

    /** `handleChange`: the payment field coerces anything but `"kakao"` to card;
        the other fields take the value as typed; nothing else changes. */
    method HandleChange(field: FormField, value: string)
      modifies this`orderDetails
      ensures field == PaymentMethod ==>
        orderDetails == old(orderDetails).(paymentMethod := CoerceTag(value))
        && (orderDetails.paymentMethod == Kakao <==> value == "kakao")
      ensures field == Address ==> orderDetails == old(orderDetails).(address := value)
      ensures field == DetailAddress ==> orderDetails == old(orderDetails).(detailAddress := value)
    {
      match field {
        case PaymentMethod =>
          var v := CoerceTag(value);
          orderDetails := orderDetails.(paymentMethod := v);
        case Address =>
          orderDetails := orderDetails.(address := value);
        case DetailAddress =>
          orderDetails := orderDetails.(detailAddress := value);
      }
    }
  }

  /** A character other than `c` that no part holds is not in the joined text. */
  lemma {:induction false} JoinLacks(parts: seq<string>, c: char, x: char)
    requires x != c && forall i :: 0 <= i < |parts| ==> x !in parts[i]
    ensures x !in Join(parts, c)
  {
    if |parts| > 1 {
      JoinLacks(parts[1..], c, x);
      var rest := Join(parts[1..], c);
      forall i | 0 <= i < |parts[0]| + 1 + |rest| ensures (parts[0] + [c] + rest)[i] != x {
        if i < |parts[0]| { assert (parts[0] + [c] + rest)[i] == parts[0][i]; }
        else if i > |parts[0]| { assert (parts[0] + [c] + rest)[i] == rest[i - |parts[0]| - 1]; }
      }
    }
  }

  /** Joining entries without `c` and splitting at `c` gives the entries back. */
  lemma {:induction false} SplitOnJoin(parts: seq<string>, c: char)
    requires |parts| >= 1 && forall i :: 0 <= i < |parts| ==> c !in parts[i]
    ensures SplitOn(Join(parts, c), c) == parts
  {
    if |parts| == 1 {
      BeforeAbsent(parts[0], c);
    } else {
      var rest := Join(parts[1..], c);
      var s := parts[0] + [c] + rest;
      assert Join(parts, c) == s;
      BeforeAt(parts[0], rest, c);
      assert s[|parts[0]| + 1..] == rest;
      SplitOnJoin(parts[1..], c);
      assert parts == [parts[0]] + parts[1..];
    }
  }

  /** The `pm` of `base?e1&e2&…` is the value of the first entry named `pm`. */
  lemma PmQueryOfEntries(base: string, entries: seq<string>)
    requires '?' !in base && '#' !in base && |entries| >= 1
    requires forall i :: 0 <= i < |entries| ==> '&' !in entries[i] && '#' !in entries[i]
    ensures PmQuery(base + "?" + Join(entries, '&'))
      == match FirstNamed(entries, "pm")
           case None => None
           case Some(k) => Some(ParamValue(entries[k]))
  {
    JoinLacks(entries, '&', '#');
    QueryOfMarked(base, Join(entries, '&'));
    SplitOnJoin(entries, '&');
  }

  /** The hand-off from the payment modal: whatever origin the browser puts in
      front of `/orders?pm=<tag>`, the order page reads back exactly the tag
      that was chosen. */
  lemma PaymentHandOff(origin: string, pm: PaymentTag)
    requires '?' !in origin && '#' !in origin
    ensures PmQuery(origin + CheckoutModal.OrdersUrl(pm)) == Some(TagText(pm))
    ensures AcceptTag(PmQuery(origin + CheckoutModal.OrdersUrl(pm)).value) == Some(pm)
  {
    var tag := TagText(pm);
    assert '&' !in tag && '#' !in tag;
    var base := origin + "/orders";
    assert '?' !in base && '#' !in base by {
      assert '?' !in "/orders" && '#' !in "/orders";
    }
    assert CheckoutModal.OrdersUrl(pm) == "/orders" + "?pm=" + tag;
    assert origin + CheckoutModal.OrdersUrl(pm) == base + "?pm=" + tag;
    PmOnlyEntry(base, tag);
    AcceptTagText(pm);
  }

  /** A query whose only entry is `pm=<tag>` reads back the tag. */
  lemma PmOnlyEntry(base: string, tag: string)
    requires '?' !in base && '#' !in base && '&' !in tag && '#' !in tag
    ensures PmQuery(base + "?pm=" + tag) == Some(tag)
  {
    var e := "pm" + "=" + tag;
    assert base + "?pm=" + tag == base + "?" + Join([e], '&');
    ParamRoundTrip("pm", tag);
    PmQueryOfEntries(base, [e]);
  }

  /** Entries after `pm` do not change its value. */
  lemma LaterParamsIgnored(tag: string, other: string)
    requires '&' !in tag && '#' !in tag && '&' !in other && '#' !in other
    ensures PmQuery("/orders?pm=" + tag + "&" + other) == Some(tag)
  {
    var e := "pm" + "=" + tag;
    assert "/orders?pm=" + tag + "&" + other == "/orders" + "?" + Join([e, other], '&');
    ParamRoundTrip("pm", tag);
    PmQueryOfEntries("/orders", [e, other]);
  }

  /** Entries before `pm` with another name are skipped. */
  lemma EarlierParamsSkipped(name: string, value: string, tag: string)
    requires name != "pm" && '=' !in name
    requires '&' !in name + value && '#' !in name + value && '&' !in tag && '#' !in tag
    ensures PmQuery("/orders?" + name + "=" + value + "&pm=" + tag) == Some(tag)
  {
    var e1 := name + "=" + value;
    var e2 := "pm" + "=" + tag;
    assert '&' !in e1 && '#' !in e1;
    assert "/orders?" + name + "=" + value + "&pm=" + tag == "/orders" + "?" + Join([e1, e2], '&');
    ParamRoundTrip(name, value);
    ParamRoundTrip("pm", tag);
    PmQueryOfEntries("/orders", [e1, e2]);
  }

  /** A repeated `pm` takes its first value. */
  lemma FirstPmWins(first: string, second: string)
    requires '&' !in first && '#' !in first && '&' !in second && '#' !in second
    ensures PmQuery("/orders?pm=" + first + "&pm=" + second) == Some(first)
  {
    var e1 := "pm" + "=" + first;
    var e2 := "pm" + "=" + second;
    assert "/orders?pm=" + first + "&pm=" + second == "/orders" + "?" + Join([e1, e2], '&');
    ParamRoundTrip("pm", first);
    PmQueryOfEntries("/orders", [e1, e2]);
  }
}
