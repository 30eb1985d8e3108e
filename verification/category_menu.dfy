/**
 The slide-in category menu. An entry with children expands and collapses
 when clicked; an entry without children selects its own name; a child
 entry, shown only while its parent is expanded, selects the child's name.
 */
module CategoryMenu {
  import opened Js
  import opened Types
  import opened Catalog

  /** `category.subcategories && category.subcategories.length > 0`. */
  predicate HasSubcategories(c: Category) {
    c.subcategories.Some? && |c.subcategories.value| > 0
  }

  /** The result of a click: whether the entry is now expanded, and the
      name passed to the selection callback, if any. */
  datatype ClickResult = ClickResult(expanded: bool, selected: Option<string>)

  /** `handleSelect` on a top-level entry. */
  function ClickItem(c: Category, expanded: bool): (r: ClickResult)
    ensures HasSubcategories(c) ==> r.expanded == !expanded && r.selected.None?
    ensures !HasSubcategories(c) ==> r.expanded == expanded && r.selected == Some(c.name)
  {
    if HasSubcategories(c) then ClickResult(!expanded, None) else ClickResult(expanded, Some(c.name))
  }

  /** The child entries on screen. */
  function VisibleChildren(c: Category, expanded: bool): (r: seq<Category>)
    ensures r != [] <==> HasSubcategories(c) && expanded
    ensures r != [] ==> r == c.subcategories.value
  {
    if HasSubcategories(c) && expanded then c.subcategories.value else []
  }

  /** Clicking a shown child selects that child's name. */
  function ClickChild(c: Category, expanded: bool, k: nat): (r: Option<string>)
    requires k < |VisibleChildren(c, expanded)|
    ensures r == Some(c.subcategories.value[k].name)
  {
    Some(VisibleChildren(c, expanded)[k].name)
  }

  /** A top-level entry is highlighted when it is the selection and has no children. */
  predicate ItemHighlighted(c: Category, selected: string) {
    selected == c.name && !HasSubcategories(c)
  }

  predicate ChildHighlighted(sub: Category, selected: string) {
    selected == sub.name
  }

  /** Two clicks on an entry with children restore its state and select nothing. */
  lemma ParentClickTwice(c: Category, expanded: bool)
    requires HasSubcategories(c)
    ensures ClickItem(c, ClickItem(c, expanded).expanded).expanded == expanded
    ensures ClickItem(c, expanded).selected.None?
  {
  }

  /** A parent entry is never highlighted; a leaf is highlighted exactly when
      its name is the selection, and clicking it makes it so. */
  lemma HighlightRules(c: Category, selected: string, expanded: bool)
    ensures HasSubcategories(c) ==> !ItemHighlighted(c, selected)
    ensures !HasSubcategories(c) ==> (ItemHighlighted(c, selected) <==> selected == c.name)
    ensures !HasSubcategories(c) ==> ItemHighlighted(c, ClickItem(c, expanded).selected.value)
  {
  }

  /** In the catalogue, Skincare is a leaf and Haircare opens onto its three children. */
  lemma CatalogueMenu()
    ensures ClickItem(CATEGORIES[0], false).selected == Some("Skincare")
    ensures |VisibleChildren(CATEGORIES[1], ClickItem(CATEGORIES[1], false).expanded)| == 3
    ensures VisibleChildren(CATEGORIES[1], false) == []
  {
  }
}
