/** components/layout/sidebar.tsx: which navigation item is highlighted for the current path. */
module Sidebar {
  import opened Strings

  /** The `href`s of `NAV_ITEMS`, in order. */
  const NavItems: seq<string> := ["/dashboard", "/tasks", "/tasks/new"]

  /**
   * An item is active on its own path; the task list is also active under
   * "/tasks/", except for paths starting with "/tasks/new".
   */
  predicate IsActive(href: string, pathname: string)
    ensures href != "/tasks" ==> (IsActive(href, pathname) <==> pathname == href)
    ensures IsActive(href, pathname) && pathname != href ==> href == "/tasks" && StartsWith(pathname, "/tasks/")
  {
    pathname == href
    || (href == "/tasks" && StartsWith(pathname, "/tasks/") && !StartsWith(pathname, "/tasks/new"))
  }

  /** The items highlighted on `pathname`. */
  function ActiveItems(pathname: string): (r: set<string>)
    ensures forall h :: h in r <==> h in NavItems && IsActive(h, pathname)
    ensures |r| <= 1
  {
    AtMostOneActive(pathname);
    set h | h in NavItems && IsActive(h, pathname)
  }

  /** No two items are highlighted at once. */
  lemma AtMostOneActive(pathname: string)
    ensures forall i, j :: 0 <= i < j < |NavItems| ==> !(IsActive(NavItems[i], pathname) && IsActive(NavItems[j], pathname))
    ensures |set h | h in NavItems && IsActive(h, pathname)| <= 1
  {
    var s := set h | h in NavItems && IsActive(h, pathname);
    if StartsWith(pathname, "/tasks/new") {
      StartsWithExtends(pathname, "/tasks/", "new");
    }
    if pathname == "/tasks/new" {
      assert pathname[..|"/tasks/new"|] == "/tasks/new";
    }
    if pathname == "/dashboard" {
      assert !StartsWith(pathname, "/tasks/") by { assert pathname[1] != "/tasks/"[1]; }
      assert s == {"/dashboard"};
    } else if pathname == "/tasks" {
      assert s == {"/tasks"};
    } else if pathname == "/tasks/new" {
      assert s == {"/tasks/new"};
    } else if IsActive("/tasks", pathname) {
      assert s == {"/tasks"};
    } else {
      assert s == {};
    }
  }

  /** Dashboard and New Task are active only on their exact paths. */
  lemma ExactItems(pathname: string)
    ensures IsActive("/dashboard", pathname) <==> pathname == "/dashboard"
    ensures IsActive("/tasks/new", pathname) <==> pathname == "/tasks/new"
  {
  }

  /** The task list stays active on a task's pages, but not under "/tasks/new", not even "/tasks/newest". */
  lemma TasksSubtree(id: string)
    requires !StartsWith(id, "new")
    ensures IsActive("/tasks", "/tasks/" + id + "/edit")
    ensures !IsActive("/tasks", "/tasks/new" + id)
    ensures ActiveItems("/tasks/newest") == {}
  {
    var p := "/tasks/" + id + "/edit";
    var tail := id + "/edit";
    assert p[..|"/tasks/"|] == "/tasks/";
    assert p[7..] == tail;
    NotNewPrefix(id);
    assert !StartsWith(p, "/tasks/new") by {
      if |p| >= 10 {
        assert p[..10][7..] == tail[..3];
      }
    }
    var q := "/tasks/new" + id;
    assert q[..|"/tasks/new"|] == "/tasks/new";
    var n := "/tasks/newest";
    assert n[..10] == "/tasks/new";
    assert n[..7] == "/tasks/";
    assert n != "/tasks/new" && n != "/dashboard" && n != "/tasks";
  }

  /** A task id that does not start with "new" keeps its edit page out of the "/tasks/new" subtree. */
  lemma NotNewPrefix(id: string)
    requires !StartsWith(id, "new")
    ensures !StartsWith(id + "/edit", "new")
  {
    var t := id + "/edit";
    if |id| >= 3 {
      assert t[..3] == id[..3];
    } else {
      assert t[|id|] == '/';
      assert "new"[|id|] != '/';
    }
  }
}
