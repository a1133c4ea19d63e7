/** The navigation-menu editor (`admin/menu/page.tsx`): a three-level menu
    tree kept in component state and mirrored to the `nav_menus` storage key.
    A 3rd-level path must already start with `/`. */
module NavMenuPage {
  import opened Common
  import opened Slots
  import opened MenuTree
  import opened Browser

  /** Why a handler stopped with an `alert` instead of editing the tree. */
  datatype Refusal = NameRequired | PathRequired | PathNeedsSlash | Menu1NotSelected | Menu2NotSelected

  /** What a handler did: edited the tree, showed an alert, or was cancelled at `confirm`. */
  datatype Outcome = Applied | Refused(reason: Refusal) | Cancelled

  /** The alerts of `createMenu3`, in the order the handler checks: a blank
      name, a blank path, a path without a leading `/`, no 1st selection, no
      2nd selection. */
  function Menu3Check(name: string, path: string, sel1: Option<int>, sel2: Option<int>): (r: Outcome)
    ensures r == Applied <==> name != [] && path != [] && StartsWith(path, "/") && sel1.Some? && sel2.Some?
    ensures r != Applied ==> r.Refused?
    ensures name == [] ==> r == Refused(NameRequired)
    ensures name != [] && path == [] ==> r == Refused(PathRequired)
  {
    if name == [] then Refused(NameRequired)
    else if path == [] then Refused(PathRequired)
    else if !StartsWith(path, "/") then Refused(PathNeedsSlash)
    else if sel1.None? then Refused(Menu1NotSelected)
    else if sel2.None? then Refused(Menu2NotSelected)
    else Applied
  }

  class NavMenuEditor {
    var menuList: seq<MenuNode>
    var menu1Name: string
    var menu2Name: string
    var menu3Name: string
    var menu3Path: string
    /** `selectedMenu1Id`/`selectedMenu2Id`: `""` (nothing selected) is `None`. */
    var selectedMenu1Id: Option<int>
    var selectedMenu2Id: Option<int>
    const ls: LocalStorage

    /** The initial component state: an empty tree, empty inputs, nothing selected. */
    constructor(ls: LocalStorage)
      ensures this.ls == ls && menuList == []
      ensures menu1Name == "" && menu2Name == "" && menu3Name == "" && menu3Path == ""
      ensures selectedMenu1Id == None && selectedMenu2Id == None
    {
      this.ls := ls;
      menuList := [];
      menu1Name, menu2Name, menu3Name, menu3Path := "", "", "", "";
      selectedMenu1Id, selectedMenu2Id := None, None;
    }

    /** Every node id in the tree, at any depth, occurs once. */
    ghost predicate IdsUnique()
      reads this
    {
      UniqueIds(IdList(menuList))
    }

    /** `fetchMenus`: the tree becomes what `loadMenusLS` reads, the empty tree
        when the key is missing, unparsable or not an array. */
    method FetchMenus()
      modifies this`menuList
      ensures menuList == (if ls.navMenus.Items? then ls.navMenus.items else [])
    {
      menuList := LoadArrayOrEmpty(ls.navMenus);
    }

    /** `createMenu1`: a blank name changes nothing; otherwise a new top-level
        node with a fresh id, the trimmed name and an empty `children` array is
        appended at the end, the tree is saved and the input cleared. */
    method CreateMenu1() returns (outcome: Outcome)
      modifies this`menuList, this`menu1Name, ls`navMenus
      ensures IsBlank(old(menu1Name)) ==>
        outcome == Refused(NameRequired) && menuList == old(menuList)
        && menu1Name == old(menu1Name) && ls.navMenus == old(ls.navMenus)
      ensures !IsBlank(old(menu1Name)) ==>
        outcome == Applied && menu1Name == ""
        && menuList == old(menuList) + [MenuNode(NextMenuId(old(menuList)), Trim(old(menu1Name)), None, ChildList([]))]
        && ls.navMenus == Items(menuList)
      ensures old(IdsUnique()) ==> IdsUnique()
    {
      var name := Trim(menu1Name);
      if name == [] {
        return Refused(NameRequired);
      }
      var id := NextMenuIdFrom(menuList);
      var node := MenuNode(id, name, None, ChildList([]));
      if IdsUnique() {
        AppendTopKeepsIdsUnique(menuList, node);
      }
      menuList := menuList + [node];
      ls.navMenus := SaveArray(menuList);
      menu1Name := "";
      outcome := Applied;
    }

    /** `createMenu2`: needs a non-blank name and a selected 1st-level menu; the
        new node, with a fresh id and an empty `children` array, is appended to
        the children of the selected 1st-level node only. */
    method CreateMenu2() returns (outcome: Outcome)
      modifies this`menuList, this`menu2Name, ls`navMenus
      ensures IsBlank(old(menu2Name)) ==> outcome == Refused(NameRequired)
      ensures !IsBlank(old(menu2Name)) && old(selectedMenu1Id).None? ==> outcome == Refused(Menu1NotSelected)
      ensures outcome.Refused? ==>
        menuList == old(menuList) && menu2Name == old(menu2Name) && ls.navMenus == old(ls.navMenus)
      ensures !IsBlank(old(menu2Name)) && old(selectedMenu1Id).Some? ==>
        outcome == Applied && menu2Name == ""
        && menuList == AddChild(old(menuList), old(selectedMenu1Id).value,
                                MenuNode(NextMenuId(old(menuList)), Trim(old(menu2Name)), None, ChildList([])))
        && ls.navMenus == Items(menuList)
      ensures old(IdsUnique()) ==> IdsUnique()
    {
      var name := Trim(menu2Name);
      if name == [] {
        return Refused(NameRequired);
      }
      if selectedMenu1Id.None? {
        return Refused(Menu1NotSelected);
      }
      var parentId := selectedMenu1Id.value;
      var id := NextMenuIdFrom(menuList);
      var node := MenuNode(id, name, None, ChildList([]));
      if IdsUnique() {
        AddChildKeepsIdsUnique(menuList, parentId, node);
      }
      menuList := AddChild(menuList, parentId, node);
      ls.navMenus := SaveArray(menuList);
      menu2Name := "";
      outcome := Applied;
    }

    /** `createMenu3`: the checks run in the order of `Menu3Check`; then the
        leaf `{id, name, path}` is appended under the selected (1st, 2nd) pair
        only and both inputs are cleared. */
    method CreateMenu3() returns (outcome: Outcome)
      modifies this`menuList, this`menu3Name, this`menu3Path, ls`navMenus
      ensures outcome == Menu3Check(Trim(old(menu3Name)), Trim(old(menu3Path)), old(selectedMenu1Id), old(selectedMenu2Id))
      ensures outcome.Refused? ==>
        menuList == old(menuList) && ls.navMenus == old(ls.navMenus)
        && menu3Name == old(menu3Name) && menu3Path == old(menu3Path)
      ensures outcome == Applied ==>
        menuList == AddGrandchild(old(menuList), old(selectedMenu1Id).value, old(selectedMenu2Id).value,
                                  MenuNode(NextMenuId(old(menuList)), Trim(old(menu3Name)), Some(Trim(old(menu3Path))), NoChildren))
        && ls.navMenus == Items(menuList) && menu3Name == "" && menu3Path == ""
      ensures old(IdsUnique()) ==> IdsUnique()
    {
      var name := Trim(menu3Name);
      var path := Trim(menu3Path);
      outcome := Menu3Check(name, path, selectedMenu1Id, selectedMenu2Id);
      if outcome == Applied {
        var menu1Id, menu2Id := selectedMenu1Id.value, selectedMenu2Id.value;
        var id := NextMenuIdFrom(menuList);
        var leaf := MenuNode(id, name, Some(path), NoChildren);
        if IdsUnique() {
          AddGrandchildKeepsIdsUnique(menuList, menu1Id, menu2Id, leaf);
        }
        var updated := AddGrandchild(menuList, menu1Id, menu2Id, leaf);
        menuList, menu3Name, menu3Path := updated, "", "";
        ls.navMenus := SaveArray(updated);
      }
    }

    /** `deleteMenu1`: after `confirm`, the 1st-level node and its whole subtree
        go, the others keep their order; a matching 1st selection and any 2nd
        selection are cleared. */
    method DeleteMenu1(menu1Id: int, confirmed: bool) returns (outcome: Outcome)
      modifies this`menuList, this`selectedMenu1Id, this`selectedMenu2Id, ls`navMenus
      ensures !confirmed ==>
        outcome == Cancelled && menuList == old(menuList) && ls.navMenus == old(ls.navMenus)
        && selectedMenu1Id == old(selectedMenu1Id) && selectedMenu2Id == old(selectedMenu2Id)
      ensures confirmed ==>
        outcome == Applied && menuList == RemoveById(old(menuList), menu1Id)
        && ls.navMenus == Items(menuList)
        && selectedMenu1Id == (if old(selectedMenu1Id) == Some(menu1Id) then None else old(selectedMenu1Id))
        && selectedMenu2Id == None
      ensures old(IdsUnique()) ==> IdsUnique()
    {
      if !confirmed {
        return Cancelled;
      }
      if IdsUnique() {
        RemoveByIdKeepsIdsUnique(menuList, menu1Id);
      }
      menuList := RemoveById(menuList, menu1Id);
      ls.navMenus := SaveArray(menuList);
      if selectedMenu1Id == Some(menu1Id) {
        selectedMenu1Id := None;
      }
      selectedMenu2Id := None;
      outcome := Applied;
    }

    /** `deleteMenu2`: after `confirm`, only the children of the matching
        1st-level node are filtered; a matching 2nd selection is cleared. */
    method DeleteMenu2(menu1Id: int, menu2Id: int, confirmed: bool) returns (outcome: Outcome)
      modifies this`menuList, this`selectedMenu2Id, ls`navMenus
      ensures !confirmed ==>
        outcome == Cancelled && menuList == old(menuList) && ls.navMenus == old(ls.navMenus)
        && selectedMenu2Id == old(selectedMenu2Id)
      ensures confirmed ==>
        outcome == Applied && menuList == RemoveChild(old(menuList), menu1Id, menu2Id)
        && ls.navMenus == Items(menuList)
        && selectedMenu2Id == (if old(selectedMenu2Id) == Some(menu2Id) then None else old(selectedMenu2Id))
      ensures old(IdsUnique()) ==> IdsUnique()
    {
      if !confirmed {
        return Cancelled;
      }
      if IdsUnique() {
        RemoveChildKeepsIdsUnique(menuList, menu1Id, menu2Id);
      }
      menuList := RemoveChild(menuList, menu1Id, menu2Id);
      ls.navMenus := SaveArray(menuList);
      if selectedMenu2Id == Some(menu2Id) {
        selectedMenu2Id := None;
      }
      outcome := Applied;
    }

    /** `deleteMenu3`: after `confirm`, only the leaves under the matching
        (1st, 2nd) pair are filtered; the selections stay. */
    method DeleteMenu3(menu1Id: int, menu2Id: int, menu3Id: int, confirmed: bool) returns (outcome: Outcome)
      modifies this`menuList, ls`navMenus
      ensures !confirmed ==> outcome == Cancelled && menuList == old(menuList) && ls.navMenus == old(ls.navMenus)
      ensures confirmed ==>
        outcome == Applied && menuList == RemoveGrandchild(old(menuList), menu1Id, menu2Id, menu3Id)
        && ls.navMenus == Items(menuList)
      ensures old(IdsUnique()) ==> IdsUnique()
    {
      if !confirmed {
        return Cancelled;
      }
      if IdsUnique() {
        RemoveGrandchildKeepsIdsUnique(menuList, menu1Id, menu2Id, menu3Id);
      }
      menuList := RemoveGrandchild(menuList, menu1Id, menu2Id, menu3Id);
      ls.navMenus := SaveArray(menuList);
      outcome := Applied;
    }
  }
}
