/** What a page can read back from one `localStorage` key that holds a JSON array. */
module Slots {

  /** `Absent`: `getItem` gave `null` or the empty string; `Corrupt`: `JSON.parse`
      throws; `NotArray`: the text parses to something other than an array;
      `Items`: an array with these elements. */
  datatype Slot<T> = Absent | Corrupt | NotArray | Items(items: seq<T>)

  /** The loaders of the two admin trees: anything but an array reads as `[]`. */
  function LoadArrayOrEmpty<T>(slot: Slot<T>): seq<T> {
    match slot
    case Items(xs) => xs
    case _ => []
  }

  /** `setItem(key, JSON.stringify(xs))` */
  function SaveArray<T>(xs: seq<T>): Slot<T> {
    Items(xs)
  }

  /** Saving a list and loading it back gives the same list. */
  lemma LoadAfterSave<T>(xs: seq<T>)
    ensures LoadArrayOrEmpty(SaveArray(xs)) == xs
  {
  }

  /** A missing, unparsable or non-array value loads as the empty list. */
  lemma LoadOfNonArray<T>(slot: Slot<T>)
    requires !slot.Items?
    ensures LoadArrayOrEmpty(slot) == []
  {
  }
}
