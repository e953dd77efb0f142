/** The bottom navigation bar: its fixed table of items and the rule that
    highlights the item for the current location. */
module BottomNav {
  import opened Text

  /** An entry of `navItems`: its `label` and `path` (the icon is left out). */
  datatype NavItem = NavItem(name: string, path: string)

  /** `navItems`, in the order the bar shows them. */
  const NavItems: seq<NavItem> := [
    NavItem("Home", "/"),
    NavItem("Profile", "/profile"),
    NavItem("Post", "/new-post"),
    NavItem("Notifications", "/notifications"),
    NavItem("Chats", "/chats")]

  /** `isActive`: the pathname is the item's path, or the item is Profile
      and the pathname starts with `/profile`. */
  predicate IsActive(item: NavItem, pathname: string): (b: bool)
    ensures b ==> StartsWith(pathname, item.path)
  {
    pathname == item.path || (item.path == "/profile" && StartsWith(pathname, "/profile"))
  }

  /** Every item is highlighted on its own path. */
  lemma ActiveOnOwnPath()
    ensures forall i :: 0 <= i < |NavItems| ==> IsActive(NavItems[i], NavItems[i].path)
  {
  }

  /** Profile is highlighted on every pathname below `/profile`, such as a
      profile page `/profile/abc`, and no other item is. */
  lemma ProfileActiveBelowProfile(pathname: string)
    requires StartsWith(pathname, "/profile")
    ensures IsActive(NavItems[1], pathname)
    ensures forall i :: 0 <= i < |NavItems| && i != 1 ==> !IsActive(NavItems[i], pathname)
  {
    assert pathname[1] == 'p';
  }

  /** No pathname highlights two items. */
  lemma AtMostOneActive(pathname: string, i: nat, j: nat)
    requires i < |NavItems| && j < |NavItems|
    requires IsActive(NavItems[i], pathname) && IsActive(NavItems[j], pathname)
    ensures i == j
  {
    if StartsWith(pathname, "/profile") {
      ProfileActiveBelowProfile(pathname);
    }
  }

  /** Exactly the item paths and the pathnames below `/profile` highlight
      an item. */
  lemma SomeItemActive(pathname: string)
    ensures (exists i :: 0 <= i < |NavItems| && IsActive(NavItems[i], pathname)) <==>
      (pathname in ["/", "/new-post", "/notifications", "/chats"] || StartsWith(pathname, "/profile"))
  {
    if pathname in ["/", "/new-post", "/notifications", "/chats"] {
      var i := if pathname == "/" then 0 else if pathname == "/new-post" then 2
        else if pathname == "/notifications" then 3 else 4;
      assert IsActive(NavItems[i], pathname);
    } else if StartsWith(pathname, "/profile") {
      assert IsActive(NavItems[1], pathname);
    }
  }

  /** A chat page and the search page highlight nothing. */
  lemma NothingActiveOnChatOrSearch(chatId: string)
    ensures forall i :: 0 <= i < |NavItems| ==> !IsActive(NavItems[i], "/chat/" + chatId)
    ensures forall i :: 0 <= i < |NavItems| ==> !IsActive(NavItems[i], "/search")
  {
    var p := "/chat/" + chatId;
    assert p[1] == 'c' && p[5] == '/';
    SomeItemActive(p);
    SomeItemActive("/search");
  }
}
