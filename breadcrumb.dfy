/** The breadcrumb trail: its schema.org `BreadcrumbList` entries and the
    `aria-current` marker of each rendered crumb. */
module Breadcrumb {
  import opened Wrappers

  const BaseUrl := "https://johndeveloper.blog"

  /** A crumb as given: its `label` (`labelText` here, since `label` is a
      Dafny keyword) and optional `href`. */
  datatype Item = Item(labelText: string, href: Option<string>)

  /** `item.href ?`: present and non-empty. */
  predicate HasLink(item: Item)
  {
    item.href.Some? && item.href.value != ""
  }

  /** One `ListItem`; `url` is `None` where the source leaves `item` undefined. */
  datatype ListItem = ListItem(position: nat, name: string, url: Option<string>)

  const HomeEntry := ListItem(1, "Home", Some(BaseUrl))

  /** The entry for the item at `index`. */
  function Entry(item: Item, index: nat): (e: ListItem)
    ensures e.position == index + 2 && e.name == item.labelText
    ensures e.url.Some? <==> HasLink(item)
    ensures HasLink(item) ==> e.url.value == BaseUrl + item.href.value
  {
    ListItem(index + 2, item.labelText, if HasLink(item) then Some(BaseUrl + item.href.value) else None)
  }

  /** `itemListElement`: Home, then one entry per item. */
  function ItemListElement(items: seq<Item>): (r: seq<ListItem>)
    ensures |r| == |items| + 1
    ensures r[0] == HomeEntry
    ensures forall i :: 0 <= i < |items| ==> r[i + 1] == Entry(items[i], i)
  {
    [HomeEntry] + seq(|items|, i requires 0 <= i < |items| => Entry(items[i], i))
  }

  /** Positions run 1, 2, ..., n + 1 in list order, and the names are "Home"
      followed by the item labels in input order. */
  lemma Positions(items: seq<Item>)
    ensures var r := ItemListElement(items);
      && (forall i :: 0 <= i < |r| ==> r[i].position == i + 1)
      && r[0].name == "Home"
      && (forall i :: 0 <= i < |items| ==> r[i + 1].name == items[i].labelText)
  {
    var r := ItemListElement(items);
    forall i | 0 <= i < |r| ensures r[i].position == i + 1 {
      if i > 0 {
        assert r[(i - 1) + 1] == Entry(items[i - 1], i - 1);
      }
    }
  }

  /** `aria-current` of the crumb at `index`: a plain crumb is always the
      current page, a link only when it is the last crumb. */
  function AriaCurrent(items: seq<Item>, index: nat): (r: Option<string>)
    requires index < |items|
  {
    if !HasLink(items[index]) then Some("page")
    else if index == |items| - 1 then Some("page")
    else None
  }

  /** The rendered crumbs, one per item, in input order. */
  datatype Crumb = Crumb(labelText: string, isLink: bool, ariaCurrent: Option<string>)

  function Crumbs(items: seq<Item>): (r: seq<Crumb>)
    ensures |r| == |items|
    ensures forall i :: 0 <= i < |items| ==>
              r[i] == Crumb(items[i].labelText, HasLink(items[i]), AriaCurrent(items, i))
  {
    seq(|items|, i requires 0 <= i < |items| => Crumb(items[i].labelText, HasLink(items[i]), AriaCurrent(items, i)))
  }

  /** A crumb is marked current exactly when it is not a link or it is the
      last one. */
  lemma CurrentRule(items: seq<Item>, index: nat)
    requires index < |items|
    ensures Crumbs(items)[index].ariaCurrent.Some? <==> !HasLink(items[index]) || index == |items| - 1
    ensures Crumbs(items)[index].ariaCurrent.Some? ==> Crumbs(items)[index].ariaCurrent.value == "page"
  {
  }

  /** When every item is a link, exactly one crumb, the last, is marked. */
  lemma OneCurrentAmongLinks(items: seq<Item>)
    requires items != []
    requires forall i :: 0 <= i < |items| ==> HasLink(items[i])
    ensures forall i :: 0 <= i < |items| ==> (Crumbs(items)[i].ariaCurrent.Some? <==> i == |items| - 1)
  {
  }
}
