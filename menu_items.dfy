/**
 * The navigation menu: four fixed entries, of which the page being shown
 * is left out. Rendered on the server, the menu is empty.
 */
module MenuItems {
  import opened JsArray

  // `label` is a reserved word in Dafny; the field is called `text` here.
  datatype MenuItem = MenuItem(text: string, href: string)

  const Menu: seq<MenuItem> := [
    MenuItem("Home", "/"),
    MenuItem("About", "/about"),
    MenuItem("Contact", "/contact"),
    MenuItem("Product", "/product")
  ]

  /**
   * `getMenuItems()`, given whether it runs in a browser and the current
   * `pathname`: nothing on the server, and in a browser only menu entries
   * that do not link to the current path.
   */
  function GetMenuItems(browser: bool, path: string): (r: seq<MenuItem>)
    ensures !browser ==> r == []
    ensures |r| <= |Menu|
    ensures forall x :: x in r ==> x in Menu && x.href != path
  {
    if !browser then []
    else
      FilterMembers(Menu, (i: MenuItem) => path != i.href);
      Filter(Menu, (i: MenuItem) => path != i.href)
  }

  /** No two entries share a link. */
  lemma MenuLinksDistinct()
    ensures forall i, j :: 0 <= i < j < |Menu| ==> Menu[i].href != Menu[j].href
  {
  }

  /** At most one entry of a menu with distinct links has a given link. */
  lemma {:induction false} RejectedAtMostOnce(items: seq<MenuItem>, path: string)
    requires forall i, j :: 0 <= i < j < |items| ==> items[i].href != items[j].href
    ensures Rejected(items, (i: MenuItem) => path != i.href) == if exists k :: 0 <= k < |items| && items[k].href == path then 1 else 0
    decreases |items|
  {
    if |items| > 0 {
      var tail := items[1..];
      RejectedAtMostOnce(tail, path);
      if items[0].href == path {
        forall k | 0 <= k < |tail| ensures tail[k].href != path {
          assert tail[k] == items[k + 1];
        }
      } else if exists k :: 0 <= k < |items| && items[k].href == path {
        var k :| 0 <= k < |items| && items[k].href == path;
        assert tail[k - 1].href == path;
      }
    }
  }

  /**
   * On the server the menu is empty. In a browser it is every entry whose
   * link is not the current path: all four on any other page, three on
   * one of theirs.
   */
  lemma MenuLeavesOutCurrentPage(browser: bool, path: string)
    ensures !browser ==> GetMenuItems(browser, path) == []
    ensures browser ==>
      && (forall x :: x in GetMenuItems(browser, path) <==> x in Menu && x.href != path)
      && |GetMenuItems(browser, path)| == if exists k :: 0 <= k < |Menu| && Menu[k].href == path then 3 else 4
  {
    var keep := (i: MenuItem) => path != i.href;
    FilterMembers(Menu, keep);
    FilterLength(Menu, keep);
    MenuLinksDistinct();
    RejectedAtMostOnce(Menu, path);
  }

  /** On a page that is not in the menu nothing is left out, and the entries keep their order. */
  lemma OtherPageKeepsAll(path: string)
    requires forall k :: 0 <= k < |Menu| ==> Menu[k].href != path
    ensures GetMenuItems(true, path) == Menu
  {
    var keep := (i: MenuItem) => path != i.href;
    KeepAll(Menu, keep);
  }

  lemma {:induction false} KeepAll(items: seq<MenuItem>, keep: MenuItem -> bool)
    requires forall k :: 0 <= k < |items| ==> keep(items[k])
    ensures Filter(items, keep) == items
    decreases |items|
  {
    if |items| > 0 {
      KeepAll(items[1..], keep);
    }
  }
}
