/** The browser's `localStorage`, seen through the keys the modelled pages use.
    Each key holds what parsing its text gives; `JSON.parse`/`JSON.stringify`
    themselves are not modelled. */
module Browser {
  import opened Common
  import opened Slots
  import MenuTree
  import CategoryTree
  import CartItems

  class LocalStorage {
    /** `nav_menus`: the navigation-menu tree of both menu editors. */
    var navMenus: Slot<MenuTree.MenuNode>
    /** `categories`: the category editor's list. */
    var categories: Slot<CategoryTree.CategoryNode>
    /** `cart`: the shopping cart. */
    var cart: Slot<CartItems.RawCartItem>
    /** `isLogin` and `userRole`, as the product page stores them. */
    var isLogin: Option<bool>
    var userRole: Option<string>

    /** An empty storage: no key holds a value. */
    constructor()
      ensures navMenus == Absent && categories == Absent && cart == Absent
      ensures isLogin == None && userRole == None
    {
      navMenus := Absent;
      categories := Absent;
      cart := Absent;
      isLogin := None;
      userRole := None;
    }
  }
}
