/** The category editor's storage helpers (`admin/cate/page.tsx`). */
module CategoryPage {
  import opened Slots
  import opened CategoryTree
  import opened Browser

  /** `loadCategoriesLS`: a missing, unparsable or non-array value reads as `[]`;
      an array is returned as stored. */
  method LoadCategoriesLS(ls: LocalStorage) returns (cats: seq<CategoryNode>)
    ensures !ls.categories.Items? ==> cats == []
    ensures ls.categories.Items? ==> cats == ls.categories.items
  {
    cats := LoadArrayOrEmpty(ls.categories);
  }

  /** `saveCategoriesLS`: writes the whole list under the `categories` key. */
  method SaveCategoriesLS(ls: LocalStorage, cats: seq<CategoryNode>)
    modifies ls`categories
    ensures ls.categories == Items(cats)
  {
    ls.categories := SaveArray(cats);
  }

  /** Saving a list and then loading gives the same list back, and the next id
      allocated for it is the same as before the save. */
  method SaveThenLoad(ls: LocalStorage, cats: seq<CategoryNode>) returns (loaded: seq<CategoryNode>, nextId: int)
    modifies ls`categories
    ensures loaded == cats
    ensures nextId == NextId(cats)
  {
    SaveCategoriesLS(ls, cats);
    loaded := LoadCategoriesLS(ls);
    nextId := NextIdFrom(loaded);
  }
}
