# Shop frontend client state, modelled in Dafny

This project models the client-side state logic of a Next.js shop frontend. Covered:

- the two navigation-menu editors, which keep a three-level menu tree in `localStorage`;
- the category editor's id allocator;
- the admin product list's category-path lookup;
- the cart, with its normalising loader, quantity changes, removal and total;
- the consumer page: add-to-cart, category mapping and search;
- the product page's add-to-cart, checkout and login probe;
- the checkout modal and the order page's payment hand-off;
- the delivery page's normalisation and labels;
- the product editor modal: sizes, specs, price digits and the save checks;
- the three home-page banner strips;
- the cross-fading hero video.

`localStorage` is a class (`Browser.LocalStorage`) with one field per key. The key's text is seen through what parsing it gives: absent, unparsable, not an array, or an array of items. A page that updates its state step by step is a class whose methods change its fields. List, tree and string transforms are functions, with lemmas that state what the code promises about them.

Modules:

- `Common`: `Option`, JavaScript `trim` (every ECMAScript white-space and line-terminator character), ASCII `toLowerCase`, `includes`, `filter`, subsequences.
- `StableSort`: the stable `Array.prototype.sort`.
- `Slots`: one storage key holding an array.
- `MenuTree`: the menu tree and its edits.
- `NavMenuPage` and `NavMenuPage2`: the two menu editors.
- `CategoryTree` and `CategoryPage`: the category editor.
- `AdminCategoryPath`: the admin product list's category path.
- `CartItems` and `CartPage`: the cart.
- `ConsumerPage`: the consumer page.
- `ProductPage`: the product page.
- `Payment`, `CheckoutModal` and `OrdersPage`: checkout and orders.
- `DeliveryPage`: the delivery page.
- `ProductModal`: the product editor modal.
- `Banners`: the three banner strips.
- `HeroVideoModel`: the hero video.

## Model

| member | source | states |
|---|---|---|
| Common.BlankIffAllWhitespace | src/app/admin/menu/page.tsx:99-100 | a name is blank after `trim` exactly when every character of it is ECMAScript white space or a line terminator (tab, VT, FF, space, NBSP, BOM, every Unicode space separator, LF, CR, U+2028, U+2029) |
| Common.TrimShape | src/app/admin/menu/page.tsx:99 | the trimmed name is a contiguous piece of the input that neither starts nor ends with white space |
| Common.TrimIdempotent | src/app/admin/menu/page.tsx:99 | trimming twice is trimming once |
| Common.TrimLeadingWhitespace | src/modal/ProductModal.tsx:204 | a white-space character in front of the text does not change what `trim` gives |
| Common.IdeographicSpaceTrimmed | src/app/admin/menu/page.tsx:99-100 | `trim` removes Unicode space separators such as U+3000: alone it makes a blank name, in front of a word it is stripped |
| Slots.LoadAfterSave | src/app/admin/menu/page.tsx:26-42 | saving a tree and loading it back gives the same tree |
| Slots.LoadOfNonArray | src/app/admin/menu/page.tsx:26-37 | an absent, unparsable or non-array value loads as the empty tree |
| MenuTree.NextMenuId | src/app/admin/menu/page.tsx:44-54 | the allocated id is at least 1, is 1 for an empty tree, and is above every id at any depth (it is one more than an id present, or 1) |
| MenuTree.NextMenuIdIsFresh | src/app/admin/menu/page.tsx:44-54 | the allocated id is not in the tree |
| MenuTree.Walk | src/app/admin/menu/page.tsx:46-51 | the recursive walk leaves `max` at the larger of its start and the largest id in the visited subtrees |
| MenuTree.NextMenuIdFrom | src/app/admin/menu/page.tsx:44-54 | the loop-and-recursion allocator returns `NextMenuId` |
| MenuTree.UpdateWhereShape | src/app/admin/menu/page.tsx:121-126 | the `map` that edits the node with a given id: nodes with other ids stay, nodes with that id get the edit |
| MenuTree.AddChildShape | src/app/admin/menu/page.tsx:119-127 | `createMenu2`'s update: only a top-level node with the parent id gets the new child, appended after its (possibly missing) children |
| MenuTree.AddChildIds | src/app/admin/menu/page.tsx:119-127 | the ids after adding a child are the old ids plus the new node's ids when the parent exists, and are unchanged otherwise |
| MenuTree.AddGrandchildShape | src/app/admin/menu/page.tsx:144-160 | `createMenu3`'s update: only 2nd-level nodes with `menu2Id` under a top-level node with `menu1Id` get the leaf |
| MenuTree.AddGrandchildIds | src/app/admin/menu/page.tsx:144-160 | the ids after adding a leaf are the old ids plus the leaf's when the pair exists, and are unchanged otherwise |
| MenuTree.AppendTopKeepsIdsUnique | src/app/admin/menu/page.tsx:103-106 | appending a top-level node with a fresh id keeps all ids in the tree unique |
| MenuTree.AddChildKeepsIdsUnique | src/app/admin/menu/page.tsx:119-127 | adding a 2nd-level node with a fresh id keeps all ids unique |
| MenuTree.AddGrandchildKeepsIdsUnique | src/app/admin/menu/page.tsx:144-160 | adding a leaf with a fresh id keeps all ids unique |
| MenuTree.RemoveById | src/app/admin/menu/page.tsx:169 | `prev.filter(m => m.id !== menu1Id)` is no longer and keeps no node with that id |
| MenuTree.RemoveByIdKeepsOthers | src/app/admin/menu/page.tsx:169 | deleting a 1st-level node keeps the other nodes, in order |
| MenuTree.RemoveByIdPartition | src/app/admin/menu/page.tsx:169 | the tree's ids split exactly into the ids that remain and those of the removed subtrees |
| MenuTree.RemoveByIdCascades | src/app/admin/menu/page.tsx:166-175 | with unique ids, every id of the removed node's subtree is gone afterwards |
| MenuTree.RemoveChildShape | src/app/admin/menu/page.tsx:180-183 | `deleteMenu2` filters only the children of the matching 1st-level node |
| MenuTree.RemoveChildCascades | src/app/admin/menu/page.tsx:177-188 | with unique ids, the removed 2nd-level node's subtree ids are gone |
| MenuTree.RemoveGrandchildShape | src/app/admin/menu/page.tsx:193-201 | `deleteMenu3` filters only the leaves under the matching pair |
| MenuTree.RemoveChildIds | src/app/admin/menu/page.tsx:180-183 | deleting a child never adds an id |
| MenuTree.RemoveGrandchildIds | src/app/admin/menu/page.tsx:193-201 | deleting a leaf never adds an id |
| MenuTree.RemoveByIdKeepsIdsUnique | src/app/admin/menu/page.tsx:166-175 | deleting a top-level node keeps all ids unique |
| MenuTree.RemoveChildKeepsIdsUnique | src/app/admin/menu/page.tsx:177-188 | deleting a child keeps all ids unique |
| MenuTree.RemoveGrandchildKeepsIdsUnique | src/app/admin/menu/page.tsx:190-206 | deleting a leaf keeps all ids unique |
| NavMenuPage.Menu3Check | src/app/admin/menu/page.tsx:133-139 | `createMenu3` applies exactly when name and path are non-blank, the path starts with `/` and both parents are selected; a blank name or path is reported first |
| NavMenuPage.NavMenuEditor.FetchMenus | src/app/admin/menu/page.tsx:94-97 | the tree becomes the stored array, or empty |
| NavMenuPage.NavMenuEditor.CreateMenu1 | src/app/admin/menu/page.tsx:99-110 | a blank name changes nothing; otherwise exactly one `{fresh id, trimmed name, children: []}` is appended, saved, and the input cleared; ids stay unique |
| NavMenuPage.NavMenuEditor.CreateMenu2 | src/app/admin/menu/page.tsx:112-130 | refuses a blank name or a missing 1st selection without change; otherwise adds the child under the selected parent only, saves, clears the input; ids stay unique |
| NavMenuPage.NavMenuEditor.CreateMenu3 | src/app/admin/menu/page.tsx:132-164 | the outcome is `Menu3Check`; a refusal changes nothing; otherwise the leaf `{id, name, path}` is added under the selected pair only and both inputs are cleared; ids stay unique |
| NavMenuPage.NavMenuEditor.DeleteMenu1 | src/app/admin/menu/page.tsx:166-175 | a cancelled confirm changes nothing; otherwise the subtree goes, a matching 1st selection and any 2nd selection are cleared; ids stay unique |
| NavMenuPage.NavMenuEditor.DeleteMenu2 | src/app/admin/menu/page.tsx:177-188 | after confirm only the matching parent's children are filtered and a matching 2nd selection is cleared |
| NavMenuPage.NavMenuEditor.DeleteMenu3 | src/app/admin/menu/page.tsx:190-206 | after confirm only the leaves under the matching pair are filtered |
| NavMenuPage2.NormalizePath | src/app/admin/menu/page2.tsx:206 | the normalised path always starts with `/` and is the path itself when it already did |
| NavMenuPage2.NormalizePathIdempotent | src/app/admin/menu/page2.tsx:206 | normalising twice is normalising once |
| NavMenuPage2.NormalizePathKeepsPath | src/app/admin/menu/page2.tsx:206 | the result ends with the typed path and adds at most one character |
| NavMenuPage2.Menu3Check | src/app/admin/menu/page2.tsx:195-200 | applies exactly when name and path are non-blank and both parents are selected; never refuses for a missing `/`; agrees with the first editor on paths that start with `/` |
| NavMenuPage2.NavMenuEditorV2.FetchMenus | src/app/admin/menu/page2.tsx:136-139 | the tree becomes the stored array, or empty |
| NavMenuPage2.NavMenuEditorV2.CreateMenu1 | src/app/admin/menu/page2.tsx:146-162 | as the first editor, but the new node has no `children` field (it is written as `Children`) |
| NavMenuPage2.NavMenuEditorV2.CreateMenu2 | src/app/admin/menu/page2.tsx:165-187 | a missing `children` counts as empty and only the selected parent gets the child |
| NavMenuPage2.NavMenuEditorV2.CreateMenu3 | src/app/admin/menu/page2.tsx:190-237 | the outcome is this page's `Menu3Check`; when applied the leaf with the normalised path is added under the selected pair only; the inputs are not cleared |
| NavMenuPage2.NavMenuEditorV2.DeleteMenu1 | src/app/admin/menu/page2.tsx:261-273 | removes the whole subtree and resets the 2nd selection |
| NavMenuPage2.NavMenuEditorV2.DeleteMenu2 | src/app/admin/menu/page2.tsx:275-291 | filters only the matching parent's children |
| NavMenuPage2.NavMenuEditorV2.DeleteMenu3 | src/app/admin/menu/page2.tsx:293-316 | removes only the leaves with that id under the pair |
| CategoryTree.NextId | src/app/admin/cate/page.tsx:45-54 | the allocated id is at least 1, is 1 for an empty list, and is above every visited id |
| CategoryTree.NextIdFrom | src/app/admin/cate/page.tsx:45-54 | the nested loops return `NextId` |
| CategoryTree.NextIdAboveTwoLevels | src/app/admin/cate/page.tsx:47-51 | the allocated id exceeds every top-level id and every direct-child id |
| CategoryTree.GrandchildIgnored | src/app/admin/cate/page.tsx:47-51 | only two levels are inspected: the next id can equal a grandchild's id |
| CategoryPage.LoadCategoriesLS | src/app/admin/cate/page.tsx:27-38 | an absent, unparsable or non-array value loads as `[]`, an array as itself |
| CategoryPage.SaveCategoriesLS | src/app/admin/cate/page.tsx:40-43 | the key holds the list afterwards |
| CategoryPage.SaveThenLoad | src/app/admin/cate/page.tsx:27-43 | saving then loading gives the same list, and the next id is computed from it |
| AdminCategoryPath.SearchLeaves | src/app/admin/page.tsx:120-124 | the innermost loop returns the first matching leaf's path |
| AdminCategoryPath.SearchMids | src/app/admin/page.tsx:119-125 | the middle loop returns the first hit in array order |
| AdminCategoryPath.FindCategoryPath | src/app/admin/page.tsx:116-128 | the three nested loops compute `CategoryPath`: the first match in pre-order, or "카테고리 없음" |
| AdminCategoryPath.MissingIdHasNoCategory | src/app/admin/page.tsx:117 | a missing or zero `categoryId` gives "카테고리 없음" |
| AdminCategoryPath.CategoryPathSound | src/app/admin/page.tsx:118-123 | a found path names a 3rd-level node with that id and is `m1 / m2 / m3` |
| AdminCategoryPath.CategoryPathComplete | src/app/admin/page.tsx:118-127 | an id present at the 3rd level always produces a path |
| AdminCategoryPath.OnlyLeavesMatch | src/app/admin/page.tsx:118-121 | an id found only at the 1st or 2nd level gives "카테고리 없음" |
| AdminCategoryPath.FirstMatchWins | src/app/admin/page.tsx:118-124 | a match in an earlier part of the tree wins over a later one |
| CartItems.NormalizeQty | src/app/cart/page.tsx:44 | `Math.max(1, Number(qty ?? 1))`: at least 1, the stored value when it is at least 1 |
| CartItems.Normalize | src/app/cart/page.tsx:39-45 | each loaded item keeps its id and image, defaults title and price, and has qty ≥ 1 |
| CartItems.LoadCart | src/app/cart/page.tsx:31-50 | absent, unparsable or non-array storage loads as the empty cart; every loaded item has qty ≥ 1 |
| CartItems.LoadAfterSaveCart | src/app/cart/page.tsx:84 | a cart with positive quantities reads back as itself |
| CartItems.QtyChanged | src/app/cart/page.tsx:76-82 | same length and order, only `qty` of the matching items changes, to `max(1, (qty or 1) + delta)` |
| CartItems.QtyChangedKeepsPositive | src/app/cart/page.tsx:78 | quantities stay ≥ 1 |
| CartItems.IncThenDecRestores | src/app/cart/page.tsx:78 | +1 then −1 restores a cart whose quantities are ≥ 1 |
| CartItems.Removed | src/app/cart/page.tsx:92 | no item with the id remains |
| CartItems.RemovedExactly | src/app/cart/page.tsx:92 | removal keeps the order and drops every copy of the items with that id and nothing else |
| CartItems.TotalSplitsById | src/app/cart/page.tsx:100-102 | the total is the total without an id plus the total of that id's items |
| CartItems.TotalNonNegative | src/app/cart/page.tsx:100-102 | with non-negative prices and positive quantities the total is not negative |
| CartPage.CartView.LoadCart | src/app/cart/page.tsx:31-50 | the displayed cart is the normalised stored cart |
| CartPage.CartView.HandleQtyChange | src/app/cart/page.tsx:75-86 | the cart becomes `QtyChanged` and storage reads back as the displayed cart |
| CartPage.CartView.HandleRemoveFromCart | src/app/cart/page.tsx:91-95 | the cart becomes `Removed` and storage reads back as the displayed cart |
| CartPage.CartView.HandleCheckout | src/app/cart/page.tsx:107-113 | the modal opens only when `isLogin` is exactly `true` |
| ConsumerPage.CategoryKeyPrecedence | src/app/consumer/page.tsx:68-76 | the category key is the object's `id`, else the `…CategoryId` field, else a bare number |
| ConsumerPage.MappedCategoriesAreNested | src/app/consumer/page.tsx:78-84 | a mapped secondary category is a child of the mapped primary |
| ConsumerPage.UnknownPrimaryUnmapped | src/app/consumer/page.tsx:78-84 | an unknown primary leaves both categories unmapped |
| ConsumerPage.CategoryNameCases | src/app/consumer/page.tsx:106-112 | "카테고리 없음" unless the primary is found and the secondary is found among its children; otherwise the names joined by " / " |
| ConsumerPage.FilteredIsSubsequence | src/app/consumer/page.tsx:148-155 | the search keeps products in order, returns all for a blank query, and keeps exactly the matching products |
| ConsumerPage.SearchIgnoresQueryCase | src/app/consumer/page.tsx:150-153 | lower-casing the query does not change the result |
| ConsumerPage.TitleFindsProduct | src/app/consumer/page.tsx:149-151 | a product is found by its own title |
| ConsumerPage.UntrimmedQueryMisses | src/app/consumer/page.tsx:148-153 | the query is only trimmed for the blank test: a leading space can hide a product |
| ConsumerPage.MergeExisting | src/app/consumer/page.tsx:137-139 | a product already in the cart bumps the first matching item's qty by one; the length and other items stay |
| ConsumerPage.MergeNew | src/app/consumer/page.tsx:140-141 | a new product is appended with qty 1 |
| ConsumerPage.MergeKeepsDistinct | src/app/consumer/page.tsx:137-143 | merging never introduces a duplicate id and loses no id |
| ConsumerPage.AddToCart | src/app/consumer/page.tsx:134-145 | an absent cart starts a new one holding the product with qty 1; unparsable or non-array storage throws without writing; otherwise the merged cart is stored |
| ProductPage.PushedEntryLoadsWithQtyOne | src/app/product/page.tsx:63 | a product pushed without `qty` loads with quantity 1 |
| ProductPage.ProductView.HandleAddToCart | src/app/product/page.tsx:54-67 | nothing without a product; an id already present leaves the cart alone; otherwise the product is appended and stored; no duplicate id is created |
| ProductPage.ProductView.HandleCheckout | src/app/product/page.tsx:70-77 | `/checkout` when logged in, an alert and `/login` otherwise |
| ProductPage.ProductView.CheckUserRole | src/app/product/page.tsx:20-39 | a successful probe stores login and role; a failed one logs out with role `"consumer"` |
| Payment.AcceptTagText | src/modal/CheckoutModal.tsx:24 | the two payment tags survive the trip through their text |
| Payment.CoerceAgreesWithAccept | src/app/orders/page.tsx:98 | coercing agrees with accepting wherever the text is a tag, and a coerced tag survives the trip through its text |
| CheckoutModal.OrdersUrl | src/modal/CheckoutModal.tsx:32 | the target is `/orders?pm=` followed by exactly the tag |
| CheckoutModal.RequireLogin | src/modal/CheckoutModal.tsx:15-21 | passes exactly when logged in, and alerts otherwise |
| CheckoutModal.GoOrders | src/modal/CheckoutModal.tsx:24-33 | logged out: only the alert; logged in: `onPaid` (if given), then `onClose`, then navigation |
| OrdersPage.PmQuery | src/app/orders/page.tsx:84-85 | `searchParams.get("pm")`: nothing exactly when no entry of the query (after the first `?`, before any `#`, split at `&`) is named `pm`; a value never holds `&` or `#` |
| OrdersPage.PmQueryFirstEntry | src/app/orders/page.tsx:84-85 | the value found is that of an entry named `pm`, and no earlier entry has that name |
| OrdersPage.Params | src/app/orders/page.tsx:84-85 | the query's entries joined with `&` give back the query |
| OrdersPage.JoinSplitOn | src/app/orders/page.tsx:84-85 | splitting the query at `&` and joining again gives it back |
| OrdersPage.SplitOnJoin | src/app/orders/page.tsx:84-85 | entries without `&`, joined and split again, come back as they were |
| OrdersPage.QueryOfMarked | src/app/orders/page.tsx:84 | the query of `base?q` is `q` when there is no fragment |
| OrdersPage.ParamRoundTrip | src/app/orders/page.tsx:85 | an entry `name=value` reads back as that name and value |
| OrdersPage.PmQueryOfEntries | src/app/orders/page.tsx:84-85 | the `pm` of `base?e1&e2&…` is the value of the first entry named `pm` |
| OrdersPage.LaterParamsIgnored | src/app/orders/page.tsx:84-86 | entries after `pm` leave its value alone |
| OrdersPage.EarlierParamsSkipped | src/app/orders/page.tsx:84-86 | entries with another name before `pm` are skipped |
| OrdersPage.FirstPmWins | src/app/orders/page.tsx:85 | a repeated `pm` reads as its first value |
| OrdersPage.PmOnlyEntry | src/app/orders/page.tsx:84-85 | a query whose only entry is `pm=<tag>` reads back the tag, whatever path precedes it |
| OrdersPage.PaymentHandOff | src/app/orders/page.tsx:84-88 | whatever origin the browser puts before the modal's `/orders?pm=<tag>`, the order page reads back and accepts exactly that tag |
| OrdersPage.OrderPage.LoadCart | src/app/orders/page.tsx:55-74 | absent or unparsable storage gives `[]`; every item has qty ≥ 1 |
| OrdersPage.OrderPage.ApplyPmQuery | src/app/orders/page.tsx:83-89 | only `kakao` or `card` change the payment method |
| OrdersPage.OrderPage.HandleChange | src/app/orders/page.tsx:94-104 | `paymentMethod` maps anything but `kakao` to `card`; another field updates only itself |
| DeliveryPage.ResolveImageSrc | src/app/delivery/page.tsx:26-32 | empty gives `/no-image.png`; `http(s)://` and `/` urls stay; anything else gets a `/` |
| DeliveryPage.ResolvedIsRootOrHttp | src/app/delivery/page.tsx:26-32 | a resolved source starts with `/` or `http` |
| DeliveryPage.ResolveIdempotent | src/app/delivery/page.tsx:26-32 | resolving twice is resolving once |
| DeliveryPage.StatusLabelInjective | src/app/delivery/page.tsx:34-38 | distinct statuses get distinct labels |
| DeliveryPage.PaymentLabelInjective | src/app/delivery/page.tsx:40-42 | distinct payment methods get distinct labels |
| DeliveryPage.NormalizeDelivery | src/app/delivery/page.tsx:57-86 | a stored record normalises to a delivery: unknown status is READY, non-kakao is card, items have qty ≥ 1 |
| DeliveryPage.ComputedTotalOfLoaded | src/app/delivery/page.tsx:88-93 | the total is the stored total when positive, else the cart total of the items |
| ProductModal.ParseDecimalText | src/modal/ProductModal.tsx:205-206 | a decimal numeral parses back to its value |
| ProductModal.PaddedSizeAccepted | src/modal/ProductModal.tsx:205-206 | the inputs are trimmed before `Number`: a size typed after an ideographic space is accepted as 5 |
| ProductModal.WithSizeProperties | src/modal/ProductModal.tsx:210-213 | a new size makes the list one longer, sorted by size, a permutation of old plus new, and keeps sizes unique |
| ProductModal.RemoveAtInverse | src/modal/ProductModal.tsx:197-202 | putting the removed entry back at `idx` restores the list |
| ProductModal.DigitsOnly | src/modal/ProductModal.tsx:168-170 | the price keeps only digits, in order, and every digit typed |
| ProductModal.DigitsOnlyIdempotent | src/modal/ProductModal.tsx:169 | filtering digits twice is filtering once |
| ProductModal.ProductEditor.AddSize | src/modal/ProductModal.tsx:204-216 | the outcome is `SizeCheck`: a bad size, a bad stock or a duplicate size is refused without change; otherwise the new size is added and inputs cleared |
| ProductModal.ProductEditor.AddSpec | src/modal/ProductModal.tsx:184-195 | a blank label or value is refused; otherwise the untrimmed pair is appended and inputs cleared |
| ProductModal.ProductEditor.RemoveSpec | src/modal/ProductModal.tsx:197-202 | exactly the entry at `idx` goes |
| ProductModal.ProductEditor.OnChange | src/modal/ProductModal.tsx:164-179 | each field changes only itself; price keeps digits only; changing `category1` resets `category2` |
| ProductModal.ProductEditor.CheckSave | src/modal/ProductModal.tsx:221-232 | refuses no sizes, then no specs, then create mode without an image |
| Banners.VisibleSorted | src/app/common/ScrollBanner.tsx:62-66 | the shown list is ordered non-decreasing by `sortOrder ?? 0` (the same chain is in SpotBanner.tsx:62-66 and SmallBanner.tsx:27-29) |
| Banners.VisibleSortedCount | src/app/common/ScrollBanner.tsx:63-65 | every copy of a visible item is kept and no hidden one: a permutation of the visible items |
| Banners.VisibleSortedMembers | src/app/common/ScrollBanner.tsx:64 | an item is shown exactly when it is in the list and `visibleYn` is missing or `"Y"` |
| Banners.VisibleSortedStable | src/app/common/ScrollBanner.tsx:65 | items with equal `sortOrder` keep their input order |
| Banners.VisibleSortedOfSorted | src/app/common/SpotBanner.tsx:62-66 | an all-visible list already in order is shown as it is |
| Banners.Go | src/app/common/ScrollBanner.tsx:69-76 | nothing for a missing or empty url; a new tab exactly for `http(s)://` links, the router otherwise, with the url unchanged |
| Banners.GoIgnoresCase | src/app/common/SpotBanner.tsx:70 | the scheme test ignores case |
| Banners.UpperCaseSchemeIsExternal | src/app/common/ScrollBanner.tsx:71 | `HTTPS://…` opens a new tab |
| Banners.SitePathIsPushed | src/app/common/ScrollBanner.tsx:75 | a `/` path goes through the router |
| Banners.ButtonLabelTrimmed | src/app/common/ScrollBanner.tsx:88 | the button label is never blank and is already trimmed |
| Banners.ButtonLabelChoice | src/app/common/ScrollBanner.tsx:88 | a non-blank text is shown trimmed; a missing or blank one gives "구매하기" |
| Banners.ButtonGo | src/app/common/ScrollBanner.tsx:124 | the button follows its own link when non-null, even an empty one (then it does nothing), else the card's link |
| Banners.ScrollImage | src/app/common/ScrollBanner.tsx:87 | no image for a missing or empty url; otherwise the API root followed by exactly the url |
| Banners.ScrollCardClickable | src/app/common/ScrollBanner.tsx:93-95 | a card has `role="button"` and a hand cursor exactly when clicking it does something |
| Banners.ScrollRendersVisible | src/app/common/ScrollBanner.tsx:78-79 | nothing renders while loading; otherwise the strip renders exactly when some item is visible |
| Banners.ScrollFailureRendersNothing | src/app/common/ScrollBanner.tsx:44-55 | a failed request or a non-array body renders nothing |
| Banners.SpotImage | src/app/common/SpotBanner.tsx:90-92 | an image url is prefixed with the API root |
| Banners.SpotImageFallback | src/app/common/SpotBanner.tsx:90-92 | `/img/air.png` is shown exactly when the item has no image |
| Banners.SpotTileCursor | src/app/common/SpotBanner.tsx:97-98 | the hand cursor shows exactly when clicking does something |
| Banners.SpotRendersVisible | src/app/common/SpotBanner.tsx:77-78 | nothing renders while loading or with nothing visible |
| Banners.SmallImage | src/app/common/SmallBanner.tsx:48-50 | the source always starts with `http`; a url starting with `http` is used as is; anything else, including a missing field, gets the API root |
| Banners.SmallImageIdempotent | src/app/common/SmallBanner.tsx:48-50 | a produced source passes through the rule unchanged |
| Banners.SmallImageCaseSensitive | src/app/common/SmallBanner.tsx:48 | the `http` test is case-sensitive: `HTTP://…` is prefixed |
| Banners.SmallFetch | src/app/common/SmallBanner.tsx:19-36 | a failed request or a non-array body gives no items; the items are ordered by `sortOrder` |
| Banners.SmallClick | src/app/common/SmallBanner.tsx:63-65 | a non-empty link is followed as is, an empty one is not |
| Banners.SmallRender | src/app/common/SmallBanner.tsx:42-47 | nothing for an empty list, else one slide per item |
| Banners.SmallRendersVisible | src/app/common/SmallBanner.tsx:24-42 | the carousel renders exactly when the response holds a visible item |
| HeroVideoModel.NextIndex | src/components/HeroVideo.tsx:22 | the next index is in [0, 5) and wraps from 4 to 0 |
| HeroVideoModel.VisibleElement | src/components/HeroVideo.tsx:51-52 | the element it names is visible and the other is not |
| HeroVideoModel.VisibleSource | src/components/HeroVideo.tsx:51-75 | the visible element shows `videos[videoIndex]` when idle and `videos[nextIndex]` during a transition |
| HeroVideoModel.HiddenHoldsNext | src/components/HeroVideo.tsx:29-30 | the element `goToNext` plays already holds the next clip and becomes the visible one |
| HeroVideoModel.FadeKeepsPicture | src/components/HeroVideo.tsx:33-37 | when the fade completes, the visible element and its source stay the same |
| HeroVideoModel.AdvanceNShape | src/components/HeroVideo.tsx:22 | after n transitions the index has moved n places mod 5 and the element role flipped n times |
| HeroVideoModel.FadesCycle | src/components/HeroVideo.tsx:34-35 | five transitions return to the starting clip on the other element; ten return to the start |
| HeroVideoModel.HeroVideo.constructor | src/components/HeroVideo.tsx:16-18 | clip 0 on the first element, no transition |
| HeroVideoModel.HeroVideo.GoToNext | src/components/HeroVideo.tsx:24-38 | a no-op while a transition runs; otherwise sets the flag, plays the hidden element and queues the fade update, leaving index and roles |
| HeroVideoModel.HeroVideo.CompleteFade | src/components/HeroVideo.tsx:33-37 | the index moves to the next clip, the roles swap, the flag clears |
| HeroVideoModel.HeroVideo.OnTimeUpdate | src/components/HeroVideo.tsx:65-70 | starts the next transition exactly after 5 s on the visible element with no transition running, plays the other element and keeps the index and roles until the fade completes; otherwise changes nothing |
| HeroVideoModel.HeroVideo.OnEnded | src/components/HeroVideo.tsx:64 | calls `goToNext`: while a transition runs nothing changes; otherwise the flag is set, the hidden element plays, and the index and roles stay until the fade completes |

## Left out

- Network I/O is not modelled: `fetch`, the `/auth/me` probes, product and category requests, and image uploads. Their results are parameters (a `Response`, a `Probe`), or their callers are not modelled.
- `JSON.parse` and `JSON.stringify` are not modelled. A storage key is read as absent, unparsable, a non-array value, or an array of already-typed items. Fields of the wrong JSON type (a string `qty`, say) are not modelled.
- `Number(...)` on non-numeric text (NaN) and floating point are not modelled. Prices, quantities and sizes are integers. `ProductModal.ParseNumber` accepts an optional sign and decimal digits only, so exponents, hex and fractions are not modelled.
- PmQuery: query entries are not percent-decoded and `+` is not read as a space, so `pm=%6Bakao` is not `kakao` in the model as it is in the browser.
- `toLowerCase` is ASCII only in this model. The search on the consumer page lower-cases non-ASCII letters too, so its matching is modelled only for ASCII case.
- `alert`, `confirm`, `router.push`, `window.open` and `window.location` are not performed. A confirm is a boolean input; an alert or a navigation is a returned result.
- React's asynchronous state updates, re-render timing and effect ordering are not modelled. A handler's state updates are applied at once.
- A handler fired twice before a re-render (with stale closures) is not modelled. `onEnded` and `onTimeUpdate` could both call `goToNext` in that window.
- `setTimeout` is not modelled, and neither is video playback (`play()`, `currentTime`, `autoPlay`). In `HeroVideoModel` the fade timer is the explicit `CompleteFade` event and the playback time is a parameter.
- Only the fields the logic reads are modelled. Spread-copied extra fields (`...p`, `...m1`) and stray keys are not. `page2.tsx` writes a `Children` key; it is modelled as the absence of `children`.
- The login role probe's `undefined` role (a response without `role`) is not distinguished from a string role.
- `handlePlaceOrder` and the delivery record write of `orders/page.tsx` are not in the source text and are not modelled.
- `createPrimary` and `deletePrimary` of `admin/cate/page.tsx` are not in the source text and are not modelled.
- The missing parts of the component bodies of `product/page.tsx` and `delivery/page.tsx` are not modelled; only the helpers present are.
- The banner and video admin pages are not modelled; their `sortOrder` sort and required-field checks repeat the display rules.
- Markup, styles, headers, footers and the login and member pages are not modelled.
- The SSR guard `typeof window === "undefined"` is not modelled; the model always runs in a browser.
- ProductModal.ProductEditor.AddSize: its contract says the list becomes `WithSize` (a stable sort of the old sizes plus the new one). Sortedness, the permutation and uniqueness are stated by `WithSizeProperties`, not by the method.
- DeliveryPage.NormalizeDelivery: `imageUrl ?? null` is kept as an `Option`, so `null` and a missing field are the same.

## Notes on the code

- In `product/page.tsx` a successful `checkUserRole` stores `data.role` as given; only a failed probe sets `"consumer"`. The model follows the code.
- The second menu editor's `createMenu1` writes the key `Children`, so the new 1st-level node has no `children` field. `createMenu2` still works there because it reads `m1.children ?? []`.
- The category editor's allocator looks at two levels only (`GrandchildIgnored`). The menu editors' allocator walks the whole tree.
- The consumer search trims the query only to test it for blankness. The match uses the untrimmed query (`UntrimmedQueryMisses`).
- The carousel's image rule tests for `http` case-sensitively and interpolates a missing `imageUrl` as `undefined`. The other strips test `http(s)://` case-insensitively.
