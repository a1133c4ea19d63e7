/** The product editor modal (`modal/ProductModal.tsx`): the size/stock list,
    the product-information (spec) list, the price and category inputs, and the
    checks in front of saving. */
module ProductModal {
  import opened Common
  import opened StableSort

  datatype SizeStock = SizeStock(size: int, stock: int)
  /** `{ label, value }` (`label` is a Dafny keyword, hence `labelText`). */
  datatype SpecItem = SpecItem(labelText: string, value: string)
  datatype Mode = Create | Edit | View

  predicate IsDigit(c: char) {
    '0' <= c <= '9'
  }

  predicate AllDigits(s: string) {
    forall i :: 0 <= i < |s| ==> IsDigit(s[i])
  }

  /** The value of a string of decimal digits. */
  function DigitsValue(s: string): nat
    requires AllDigits(s)
  {
    if s == [] then 0 else DigitsValue(s[..|s| - 1]) * 10 + (s[|s| - 1] as int - '0' as int)
  }

  /** `Number(text)` on a trimmed input, for whole numbers: the empty text is 0,
      an optional sign followed by digits is that integer, and anything else is
      `NaN` (`None`). */
  function ParseNumber(s: string): (n: Option<int>)
    ensures s == [] ==> n == Some(0)
    ensures AllDigits(s) ==> n == Some(DigitsValue(s))
    ensures n.Some? && n.value < 0 ==> s[0] == '-'
  {
    if s == [] then Some(0)
    else if AllDigits(s) then Some(DigitsValue(s))
    else if |s| > 1 && (s[0] == '-' || s[0] == '+') && AllDigits(s[1..]) then
      var v: int := DigitsValue(s[1..]);
      Some(if s[0] == '-' then -v else v)
    else None
  }

  /** The decimal text of a natural number, without leading zeros. */
  function DecimalText(n: nat): (s: string)
    ensures s != [] && AllDigits(s)
  {
    if n < 10 then [('0' as int + n) as char]
    else DecimalText(n / 10) + [('0' as int + n % 10) as char]
  }

  /** Reading back the decimal text of a number gives the number. */
  lemma {:induction false} ParseDecimalText(n: nat)
    ensures DigitsValue(DecimalText(n)) == n
    ensures ParseNumber(DecimalText(n)) == Some(n)
  {
    var s := DecimalText(n);
    if n >= 10 {
      ParseDecimalText(n / 10);
      assert s[..|s| - 1] == DecimalText(n / 10);
    } else {
      assert s[..0] == [];
    }
  }

  /** A negative number's text with a minus sign reads back as that number. */
  lemma ParseNegative(n: nat)
    requires n > 0
    ensures ParseNumber("-" + DecimalText(n)) == Some(-(n as int))
  {
    ParseDecimalText(n);
    var s := "-" + DecimalText(n);
    assert s[1..] == DecimalText(n);
    assert !IsDigit(s[0]);
  }

  function SizeKey(s: SizeStock): int {
    s.size
  }

  /** `form.sizes.some((s) => s.size === size)` */
  predicate HasSize(sizes: seq<SizeStock>, size: int) {
    size in Keys(sizes, SizeKey)
  }

  /** No size occurs twice in the list. */
  ghost predicate SizesUnique(sizes: seq<SizeStock>) {
    KeysDistinct(sizes, SizeKey)
  }

  /** The list after a size is accepted: appended, then sorted by size. */
  function WithSize(sizes: seq<SizeStock>, x: SizeStock): seq<SizeStock> {
    SortBy(sizes + [x], SizeKey)
  }

  /** A new size makes the list one longer, sorted by size, a permutation of
      the old list plus the new entry, and keeps the sizes unique. */
  lemma WithSizeProperties(sizes: seq<SizeStock>, x: SizeStock)
    requires !HasSize(sizes, x.size)
    ensures var r := WithSize(sizes, x);
      |r| == |sizes| + 1 && SortedBy(r, SizeKey) && multiset(r) == multiset(sizes) + multiset{x}
      && (SizesUnique(sizes) ==> SizesUnique(r))
  {
    if SizesUnique(sizes) {
      var s := sizes + [x];
      forall i | 0 <= i < |sizes|
        ensures sizes[i].size != x.size
      {
        assert Keys(sizes, SizeKey)[i] == sizes[i].size;
      }
      assert KeysDistinct(s, SizeKey);
      SortKeepsDistinct(s, SizeKey);
    }
  }

  /** `filter((_, i) => i !== idx)`: the entry at `idx` goes, an index outside
      the list removes nothing. */
  function RemoveAt<T>(s: seq<T>, idx: int): (r: seq<T>)
    ensures 0 <= idx < |s| ==> |r| == |s| - 1
    ensures 0 <= idx < |s| ==> forall j :: 0 <= j < idx ==> r[j] == s[j]
    ensures 0 <= idx < |s| ==> forall j :: idx <= j < |r| ==> r[j] == s[j + 1]
    ensures !(0 <= idx < |s|) ==> r == s
  {
    if 0 <= idx < |s| then s[..idx] + s[idx + 1..] else s
  }

  /** Putting the removed entry back at its index restores the list. */
  lemma RemoveAtInverse<T>(s: seq<T>, idx: int)
    requires 0 <= idx < |s|
    ensures RemoveAt(s, idx)[..idx] + [s[idx]] + RemoveAt(s, idx)[idx..] == s
  {
    assert s == s[..idx] + [s[idx]] + s[idx + 1..];
  }

  /** `value.replace(/[^0-9]/g, "")` */
  function DigitsOnly(value: string): (r: string)
    ensures AllDigits(r)
    ensures IsSubsequence(r, value)
    ensures forall c :: c in value && IsDigit(c) ==> c in r
  {
    FilterIsSubsequence(value, IsDigit);
    Filter(value, IsDigit)
  }

  /** Filtering the digits of what is already digits changes nothing. */
  lemma DigitsOnlyIdempotent(value: string)
    ensures DigitsOnly(DigitsOnly(value)) == DigitsOnly(value)
  {
    FilterIdempotent(value, IsDigit);
  }

  /** Why `addSize` stopped with an alert. */
  datatype SizeRefusal = SizeInvalid | StockInvalid | DuplicateSize

  /** The checks of `addSize`, in order: the size must parse to a number above
      0, the stock to a number not below 0, and the size must be new to the list. */
  function SizeCheck(sizes: seq<SizeStock>, sizeText: string, stockText: string): Outcome<SizeRefusal> {
    var size, stock := ParseNumber(Trim(sizeText)), ParseNumber(Trim(stockText));
    if size.None? || size.value <= 0 then Refused(SizeInvalid)
    else if stock.None? || stock.value < 0 then Refused(StockInvalid)
    else if HasSize(sizes, size.value) then Refused(DuplicateSize)
    else Done
  }

  /** Once the checks of `addSize` pass, both inputs are numbers. */
  lemma SizeCheckParses(sizes: seq<SizeStock>, sizeText: string, stockText: string)
    requires SizeCheck(sizes, sizeText, stockText) == Done
    ensures ParseNumber(Trim(sizeText)).Some? && ParseNumber(Trim(stockText)).Some?
    ensures ParseNumber(Trim(sizeText)).value > 0 && ParseNumber(Trim(stockText)).value >= 0
    ensures !HasSize(sizes, ParseNumber(Trim(sizeText)).value)
  {
  }

  /** The entry `addSize` adds once its checks pass (which make both inputs
      numbers, see `SizeCheckParses`). */
  function SizeEntry(sizeText: string, stockText: string): SizeStock {
    SizeStock(ParseNumber(Trim(sizeText)).GetOr(0), ParseNumber(Trim(stockText)).GetOr(0))
  }

  /** The inputs are trimmed before `Number`: a size typed after an ideographic
      space is still size 5. */
  lemma PaddedSizeAccepted()
    ensures SizeCheck([], "\U{3000}5", "0") == Done
    ensures SizeEntry("\U{3000}5", "0") == SizeStock(5, 0)
  {
    assert "\U{3000}5" == ['\U{3000}'] + "5";
    TrimLeadingWhitespace('\U{3000}', "5");
    TrimOfTrimmed("5");
    TrimOfTrimmed("0");
    assert DigitsValue("5") == 5;
    assert DigitsValue("0") == 0;
  }

  /** Why `addSpec` stopped with an alert. */
  datatype SpecRefusal = LabelRequired | ValueRequired

  /** Why `handleSave` stopped with an alert before building the request. */
  datatype SaveRefusal = NoSizes | NoSpecs | NoImage

  datatype Outcome<R> = Done | Refused(reason: R)

  /** A change event from one of the form's inputs; a category select gives
      `None` for its empty option. */
  datatype FormChange =
    | TitleChanged(text: string)
    | DescChanged(text: string)
    | PriceChanged(text: string)
    | Category1Changed(id: Option<int>)
    | Category2Changed(id: Option<int>)

  class ProductEditor {
    var title: string
    var desc: string
    var price: string
    var sizes: seq<SizeStock>
    var specs: seq<SpecItem>
    var sizeInput: string
    var stockInput: string
    var specLabel: string
    var specValue: string
    var category1: Option<int>
    var category2: Option<int>
    var hasImageFile: bool
    const mode: Mode

    /** The initial form: every text empty, no sizes, specs, categories or image. */
    constructor(mode: Mode)
      ensures this.mode == mode && title == "" && desc == "" && price == ""
      ensures sizes == [] && specs == [] && sizeInput == "" && stockInput == ""
      ensures specLabel == "" && specValue == ""
      ensures category1 == None && category2 == None && !hasImageFile
    {
      this.mode := mode;
      title, desc, price := "", "", "";
      sizes, specs := [], [];
      sizeInput, stockInput, specLabel, specValue := "", "", "", "";
      category1, category2 := None, None;
      hasImageFile := false;
    }

    /** `addSize`: the size must be a number above 0, the stock a number not
        below 0, and the size new to the list; then the entry is added, the
        list sorted by size and both inputs cleared. */
    method AddSize() returns (outcome: Outcome<SizeRefusal>)
      modifies this`sizes, this`sizeInput, this`stockInput
      ensures outcome == SizeCheck(old(sizes), old(sizeInput), old(stockInput))
      ensures outcome.Refused? ==>
        sizes == old(sizes) && sizeInput == old(sizeInput) && stockInput == old(stockInput)
      ensures outcome == Done ==>
        sizes == WithSize(old(sizes), SizeEntry(old(sizeInput), old(stockInput))) && sizeInput == "" && stockInput == ""
    {
      var current, sizeText, stockText := sizes, sizeInput, stockInput;
      outcome := SizeCheck(current, sizeText, stockText);
      if outcome == Done {
        sizes, sizeInput, stockInput := WithSize(current, SizeEntry(sizeText, stockText)), "", "";
      }
    }

    /** `addSpec`: the label and then the value must be non-blank; the pair is
        appended as typed (untrimmed) and both inputs cleared. */
    method AddSpec() returns (outcome: Outcome<SpecRefusal>)
      modifies this`specs, this`specLabel, this`specValue
      ensures outcome == (if IsBlank(old(specLabel)) then Refused(LabelRequired)
                          else if IsBlank(old(specValue)) then Refused(ValueRequired)
                          else Done)
      ensures outcome.Refused? ==>
        specs == old(specs) && specLabel == old(specLabel) && specValue == old(specValue)
      ensures outcome == Done ==>
        specs == old(specs) + [SpecItem(old(specLabel), old(specValue))] && specLabel == "" && specValue == ""
    {
      if IsBlank(specLabel) {
        return Refused(LabelRequired);
      }
      if IsBlank(specValue) {
        return Refused(ValueRequired);
      }
      specs := specs + [SpecItem(specLabel, specValue)];
      specLabel := "";
      specValue := "";
      outcome := Done;
    }

    /** `removeSpec(idx)` */
    method RemoveSpec(idx: int)
      modifies this`specs
      ensures specs == RemoveAt(old(specs), idx)
    {
      specs := RemoveAt(specs, idx);
    }

    /** `onChange`: the price keeps only its digits; choosing a 1st category
        clears the 2nd; the other inputs take the value as typed. */
    method OnChange(change: FormChange)
      modifies this`title, this`desc, this`price, this`category1, this`category2
      ensures change.TitleChanged? ==> title == change.text && unchanged(this`desc, this`price, this`category1, this`category2)
      ensures change.DescChanged? ==> desc == change.text && unchanged(this`title, this`price, this`category1, this`category2)
      ensures change.PriceChanged? ==> price == DigitsOnly(change.text) && unchanged(this`title, this`desc, this`category1, this`category2)
      ensures change.Category1Changed? ==> category1 == change.id && category2 == None && unchanged(this`title, this`desc, this`price)
      ensures change.Category2Changed? ==> category2 == change.id && unchanged(this`title, this`desc, this`price, this`category1)
      ensures AllDigits(old(price)) ==> AllDigits(price)
    {
      match change {
        case TitleChanged(text) => title := text;
        case DescChanged(text) => desc := text;
        case PriceChanged(text) => price := DigitsOnly(text);
        case Category1Changed(id) =>
          category1 := id;
          category2 := None;
        case Category2Changed(id) => category2 := id;
      }
    }

    /** The checks at the top of `handleSave`, in order: at least one size, at
        least one spec, and an image file when creating. */
    method CheckSave() returns (outcome: Outcome<SaveRefusal>)
      ensures outcome == (if sizes == [] then Refused(NoSizes)
                          else if specs == [] then Refused(NoSpecs)
                          else if mode == Create && !hasImageFile then Refused(NoImage)
                          else Done)
      ensures outcome == Done ==> |sizes| >= 1 && |specs| >= 1 && (mode == Create ==> hasImageFile)
    {
      if |sizes| == 0 {
        return Refused(NoSizes);
      }
      if |specs| == 0 {
        return Refused(NoSpecs);
      }
      if mode == Create && !hasImageFile {
        return Refused(NoImage);
      }
      outcome := Done;
    }
  }
}
