/** The payment-method tag the checkout modal, the order page and the delivery
    page pass along: the literal `"kakao" | "card"` type. */
module Payment {
  import opened Common

  datatype PaymentTag = Kakao | Card

  /** The tag as text, as it appears in `/orders?pm=…` and in stored records. */
  function TagText(t: PaymentTag): (s: string)
    ensures s == "kakao" || s == "card"
  {
    match t
    case Kakao => "kakao"
    case Card => "card"
  }

  /** `pm === "kakao" || pm === "card"`: only the two exact texts are tags. */
  function AcceptTag(s: string): (r: Option<PaymentTag>)
    ensures r.Some? <==> (s == "kakao" || s == "card")
    ensures r.Some? ==> TagText(r.value) == s
  {
    if s == "kakao" then Some(Kakao) else if s == "card" then Some(Card) else None
  }

  /** `value === "kakao" ? "kakao" : "card"`: anything but `"kakao"` is card. */
  function CoerceTag(s: string): (t: PaymentTag)
    ensures t == Kakao <==> s == "kakao"
  {
    if s == "kakao" then Kakao else Card
  }

  /** A tag written as text is accepted back as the same tag. */
  lemma AcceptTagText(t: PaymentTag)
    ensures AcceptTag(TagText(t)) == Some(t)
  {
  }

  /** Coercing a tag's text gives the tag back, and coercion agrees with acceptance
      wherever acceptance succeeds. */
  lemma CoerceAgreesWithAccept(s: string)
    ensures CoerceTag(TagText(CoerceTag(s))) == CoerceTag(s)
    ensures AcceptTag(s).Some? ==> CoerceTag(s) == AcceptTag(s).value
  {
  }
}
