/** The second navigation-menu editor (`admin/menu/page2.tsx`). It edits the
    same `nav_menus` tree as the first, with three differences: a new 1st-level
    node is written with the key `Children` (so it has no `children` field),
    a 3rd-level path is prefixed with `/` instead of being refused, and
    `createMenu3` leaves its inputs as they were. */
module NavMenuPage2 {
  import opened Common
  import opened Slots
  import opened MenuTree
  import opened Browser
  import NavMenuPage

  /** `path.startsWith("/") ? path : `/${path}`` */
  function NormalizePath(path: string): (r: string)
    ensures StartsWith(r, "/")
    ensures StartsWith(path, "/") ==> r == path
    ensures !StartsWith(path, "/") ==> r == "/" + path
  {
    if StartsWith(path, "/") then path else "/" + path
  }

  /** Normalising twice is normalising once. */
  lemma NormalizePathIdempotent(path: string)
    ensures NormalizePath(NormalizePath(path)) == NormalizePath(path)
  {
  }

  /** The normalised path ends with the path as typed and adds at most one character. */
  lemma NormalizePathKeepsPath(path: string)
    ensures var r := NormalizePath(path);
      |path| <= |r| <= |path| + 1 && r[|r| - |path|..] == path
  {
  }

  /** The alerts of this page's `createMenu3`: as on the first editor, but
      there is no check for a leading `/`. */
  function Menu3Check(name: string, path: string, sel1: Option<int>, sel2: Option<int>): (r: NavMenuPage.Outcome)
    ensures r == NavMenuPage.Applied <==> name != [] && path != [] && sel1.Some? && sel2.Some?
    ensures r != NavMenuPage.Applied ==> r.Refused? && r.reason != NavMenuPage.PathNeedsSlash
    ensures path != [] && StartsWith(path, "/") ==> r == NavMenuPage.Menu3Check(name, path, sel1, sel2)
  {
    if name == [] then NavMenuPage.Refused(NavMenuPage.NameRequired)
    else if path == [] then NavMenuPage.Refused(NavMenuPage.PathRequired)
    else if sel1.None? then NavMenuPage.Refused(NavMenuPage.Menu1NotSelected)
    else if sel2.None? then NavMenuPage.Refused(NavMenuPage.Menu2NotSelected)
    else NavMenuPage.Applied
  }

  class NavMenuEditorV2 {
    var menuList: seq<MenuNode>
    var menu1Name: string
    var menu2Name: string
    var menu3Name: string
    var menu3Path: string
    var selectedMenu1Id: Option<int>
    var selectedMenu2Id: Option<int>
    const ls: LocalStorage

    constructor(ls: LocalStorage)
      ensures this.ls == ls && menuList == []
      ensures menu1Name == "" && menu2Name == "" && menu3Name == "" && menu3Path == ""
      ensures selectedMenu1Id == None && selectedMenu2Id == None
    {
      this.ls := ls;
      menuList := [];
      menu1Name, menu2Name, menu3Name, menu3Path := "", "", "", "";
      selectedMenu1Id, selectedMenu2Id := None, None;
    }

    ghost predicate IdsUnique()
      reads this
    {
      UniqueIds(IdList(menuList))
    }

    /** `fetchMenus` over this page's `loadMenusLS`. */
    method FetchMenus()
      modifies this`menuList
      ensures menuList == (if ls.navMenus.Items? then ls.navMenus.items else [])
    {
      menuList := LoadArrayOrEmpty(ls.navMenus);
    }

    /** `createMenu1`: as on the first editor, except that the new node has no
        `children` field. */
    method CreateMenu1() returns (outcome: NavMenuPage.Outcome)
      modifies this`menuList, this`menu1Name, ls`navMenus
      ensures IsBlank(old(menu1Name)) ==>
        outcome == NavMenuPage.Refused(NavMenuPage.NameRequired) && menuList == old(menuList)
        && menu1Name == old(menu1Name) && ls.navMenus == old(ls.navMenus)
      ensures !IsBlank(old(menu1Name)) ==>
        outcome == NavMenuPage.Applied && menu1Name == ""
        && menuList == old(menuList) + [MenuNode(NextMenuId(old(menuList)), Trim(old(menu1Name)), None, NoChildren)]
        && ls.navMenus == Items(menuList)
      ensures old(IdsUnique()) ==> IdsUnique()
    {
      var name := Trim(menu1Name);
      if name == [] {
        return NavMenuPage.Refused(NavMenuPage.NameRequired);
      }
      var id := NextMenuIdFrom(menuList);
      var node := MenuNode(id, name, None, NoChildren);
      if IdsUnique() {
        AppendTopKeepsIdsUnique(menuList, node);
      }
      menuList := menuList + [node];
      ls.navMenus := SaveArray(menuList);
      menu1Name := "";
      outcome := NavMenuPage.Applied;
    }

    /** `createMenu2`: a missing `children` array counts as empty; the new node
        goes to the selected 1st-level node only. */
    method CreateMenu2() returns (outcome: NavMenuPage.Outcome)
      modifies this`menuList, this`menu2Name, ls`navMenus
      ensures IsBlank(old(menu2Name)) ==> outcome == NavMenuPage.Refused(NavMenuPage.NameRequired)
      ensures !IsBlank(old(menu2Name)) && old(selectedMenu1Id).None? ==>
        outcome == NavMenuPage.Refused(NavMenuPage.Menu1NotSelected)
      ensures outcome.Refused? ==>
        menuList == old(menuList) && menu2Name == old(menu2Name) && ls.navMenus == old(ls.navMenus)
      ensures !IsBlank(old(menu2Name)) && old(selectedMenu1Id).Some? ==>
        outcome == NavMenuPage.Applied && menu2Name == ""
        && menuList == AddChild(old(menuList), old(selectedMenu1Id).value,
                                MenuNode(NextMenuId(old(menuList)), Trim(old(menu2Name)), None, ChildList([])))
        && ls.navMenus == Items(menuList)
      ensures old(IdsUnique()) ==> IdsUnique()
    {
      var name := Trim(menu2Name);
      if name == [] {
        return NavMenuPage.Refused(NavMenuPage.NameRequired);
      }
      if selectedMenu1Id.None? {
        return NavMenuPage.Refused(NavMenuPage.Menu1NotSelected);
      }
      var parentId := selectedMenu1Id.value;
      var id := NextMenuIdFrom(menuList);
      var node := MenuNode(id, name, None, ChildList([]));
      if IdsUnique() {
        AddChildKeepsIdsUnique(menuList, parentId, node);
      }
      menuList := AddChild(menuList, parentId, node);
      ls.navMenus := SaveArray(menuList);
      menu2Name := "";
      outcome := NavMenuPage.Applied;
    }

    /** `createMenu3`: changes nothing unless the name and the path are
        non-blank and both parents are selected (`Menu3Check`); then the leaf
        `{id, name, path: normalizedPath}` goes under the selected pair only.
        The inputs are not cleared. */
    method CreateMenu3() returns (outcome: NavMenuPage.Outcome)
      modifies this`menuList, ls`navMenus
      ensures outcome == Menu3Check(Trim(old(menu3Name)), Trim(old(menu3Path)), old(selectedMenu1Id), old(selectedMenu2Id))
      ensures outcome.Refused? ==> menuList == old(menuList) && ls.navMenus == old(ls.navMenus)
      ensures outcome == NavMenuPage.Applied ==>
        menuList == AddGrandchild(old(menuList), old(selectedMenu1Id).value, old(selectedMenu2Id).value,
                                  MenuNode(NextMenuId(old(menuList)), Trim(old(menu3Name)),
                                           Some(NormalizePath(Trim(old(menu3Path)))), NoChildren))
        && ls.navMenus == Items(menuList)
      ensures old(IdsUnique()) ==> IdsUnique()
    {
      var name := Trim(menu3Name);
      var path := Trim(menu3Path);
      outcome := Menu3Check(name, path, selectedMenu1Id, selectedMenu2Id);
      if outcome == NavMenuPage.Applied {
        var p1, p2 := selectedMenu1Id.value, selectedMenu2Id.value;
        var normalizedPath := NormalizePath(path);
        var id := NextMenuIdFrom(menuList);
        var leaf := MenuNode(id, name, Some(normalizedPath), NoChildren);
        if IdsUnique() {
          AddGrandchildKeepsIdsUnique(menuList, p1, p2, leaf);
        }
        menuList := AddGrandchild(menuList, p1, p2, leaf);
        ls.navMenus := SaveArray(menuList);
      }
    }

    /** `deleteMenu1`: removes the whole subtree, clears a matching 1st
        selection and resets the 2nd selection. */
    method DeleteMenu1(menu1Id: int, confirmed: bool) returns (outcome: NavMenuPage.Outcome)
      modifies this`menuList, this`selectedMenu1Id, this`selectedMenu2Id, ls`navMenus
      ensures !confirmed ==>
        outcome == NavMenuPage.Cancelled && menuList == old(menuList) && ls.navMenus == old(ls.navMenus)
        && selectedMenu1Id == old(selectedMenu1Id) && selectedMenu2Id == old(selectedMenu2Id)
      ensures confirmed ==>
        outcome == NavMenuPage.Applied && menuList == RemoveById(old(menuList), menu1Id)
        && ls.navMenus == Items(menuList)
        && selectedMenu1Id == (if old(selectedMenu1Id) == Some(menu1Id) then None else old(selectedMenu1Id))
        && selectedMenu2Id == None
      ensures old(IdsUnique()) ==> IdsUnique()
    {
      if !confirmed {
        return NavMenuPage.Cancelled;
      }
      if IdsUnique() {
        RemoveByIdKeepsIdsUnique(menuList, menu1Id);
      }
      menuList := RemoveById(menuList, menu1Id);
      ls.navMenus := SaveArray(menuList);
      if selectedMenu1Id == Some(menu1Id) {
        selectedMenu1Id := None;
      }
      selectedMenu2Id := None;
      outcome := NavMenuPage.Applied;
    }

    /** `deleteMenu2`: filters the children of the matching 1st-level node only
        and clears a matching 2nd selection. */
    method DeleteMenu2(menu1Id: int, menu2Id: int, confirmed: bool) returns (outcome: NavMenuPage.Outcome)
      modifies this`menuList, this`selectedMenu2Id, ls`navMenus
      ensures !confirmed ==>
        outcome == NavMenuPage.Cancelled && menuList == old(menuList) && ls.navMenus == old(ls.navMenus)
        && selectedMenu2Id == old(selectedMenu2Id)
      ensures confirmed ==>
        outcome == NavMenuPage.Applied && menuList == RemoveChild(old(menuList), menu1Id, menu2Id)
        && ls.navMenus == Items(menuList)
        && selectedMenu2Id == (if old(selectedMenu2Id) == Some(menu2Id) then None else old(selectedMenu2Id))
      ensures old(IdsUnique()) ==> IdsUnique()
    {
      if !confirmed {
        return NavMenuPage.Cancelled;
      }
      if IdsUnique() {
        RemoveChildKeepsIdsUnique(menuList, menu1Id, menu2Id);
      }
      menuList := RemoveChild(menuList, menu1Id, menu2Id);
      ls.navMenus := SaveArray(menuList);
      if selectedMenu2Id == Some(menu2Id) {
        selectedMenu2Id := None;
      }
      outcome := NavMenuPage.Applied;
    }

    /** `deleteMenu3`: removes only the leaves with that id under the
        (menu1Id, menu2Id) pair. */
    method DeleteMenu3(menu1Id: int, menu2Id: int, menu3Id: int, confirmed: bool) returns (outcome: NavMenuPage.Outcome)
      modifies this`menuList, ls`navMenus
      ensures !confirmed ==>
        outcome == NavMenuPage.Cancelled && menuList == old(menuList) && ls.navMenus == old(ls.navMenus)
      ensures confirmed ==>
        outcome == NavMenuPage.Applied && menuList == RemoveGrandchild(old(menuList), menu1Id, menu2Id, menu3Id)
        && ls.navMenus == Items(menuList)
      ensures old(IdsUnique()) ==> IdsUnique()
    {
      if !confirmed {
        return NavMenuPage.Cancelled;
      }
      if IdsUnique() {
        RemoveGrandchildKeepsIdsUnique(menuList, menu1Id, menu2Id, menu3Id);
      }
      menuList := RemoveGrandchild(menuList, menu1Id, menu2Id, menu3Id);
      ls.navMenus := SaveArray(menuList);
      outcome := NavMenuPage.Applied;
    }
  }
}
