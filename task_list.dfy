/**
 * components/tasks/task-list.tsx: the filter state of the task list, the
 * query string it sends to GET /api/tasks, and the texts it derives from the
 * listing. A query string is a sequence of name/value pairs, as in
 * `URLSearchParams`; encoding is not modelled.
 */
module TaskList {
  import opened Wrappers
  import opened Strings
  import TasksRoute

  type Params = seq<(string, string)>

  /** `params.get(name)`: the value of the first pair with that name. */
  function Lookup(q: Params, name: string): Option<string> {
    if q == [] then None else if q[0].0 == name then Some(q[0].1) else Lookup(q[1..], name)
  }

  /** The pairs of `q` without those named `name`. */
  function Remove(q: Params, name: string): (r: Params)
    ensures |r| <= |q|
    ensures Lookup(r, name) == None
    ensures forall other :: other != name ==> Lookup(r, other) == Lookup(q, other)
  {
    if q == [] then []
    else if q[0].0 == name then Remove(q[1..], name)
    else [q[0]] + Remove(q[1..], name)
  }

  /** The first pair named `name` takes the value `v`; later pairs with that name go. */
  function Replace(q: Params, name: string, v: string): (r: Params)
    requires Lookup(q, name).Some?
    ensures |r| <= |q|
    ensures Lookup(r, name) == Some(v)
    ensures forall other :: other != name ==> Lookup(r, other) == Lookup(q, other)
    ensures q[0].0 != name ==> r[0] == q[0]
  {
    if q[0].0 == name then [(name, v)] + Remove(q[1..], name)
    else [q[0]] + Replace(q[1..], name, v)
  }

  lemma {:induction false} LookupAppend(q: Params, name: string, v: string, other: string)
    requires Lookup(q, name).None?
    ensures Lookup(q + [(name, v)], name) == Some(v)
    ensures other != name ==> Lookup(q + [(name, v)], other) == Lookup(q, other)
  {
    if q != [] {
      assert (q + [(name, v)])[1..] == q[1..] + [(name, v)];
      LookupAppend(q[1..], name, v, other);
    }
  }

  /** `params.set(name, v)`: afterwards `name` reads as `v` and every other name reads as before. */
  function SetParam(q: Params, name: string, v: string): (r: Params)
    ensures |r| <= |q| + 1
    ensures Lookup(r, name) == Some(v)
    ensures forall other :: other != name ==> Lookup(r, other) == Lookup(q, other)
    ensures q != [] && q[0].0 != name ==> r[0] == q[0]
    ensures Lookup(q, name).None? ==> r == q + [(name, v)]
  {
    if Lookup(q, name).None? then
      forall other ensures other != name ==> Lookup(q + [(name, v)], other) == Lookup(q, other) {
        LookupAppend(q, name, v, other);
      }
      LookupAppend(q, name, v, name);
      q + [(name, v)]
    else Replace(q, name, v)
  }

  /** The list's filter state. `searchInput` is the text box; `search` is its debounced copy. */
  class ListState {
    var page: nat
    var search: string
    var status: string
    var searchInput: string

    constructor ()
      ensures page == 1 && search == "" && status == "" && searchInput == ""
    {
      page := 1;
      search := "";
      status := "";
      searchInput := "";
    }

    /**
     * The query `fetchTasks` sends: always the page; the search only when it
     * is non-empty; the status only when it is non-empty and not "ALL".
     */
    method BuildQuery() returns (q: Params)
      ensures q == [("page", NatToDecimal(page))]
                 + (if search != [] then [("search", search)] else [])
                 + (if status != [] && status != "ALL" then [("status", status)] else [])
      ensures Lookup(q, "page") == Some(NatToDecimal(page))
      ensures Lookup(q, "search") == if search != [] then Some(search) else None
      ensures Lookup(q, "status") == if status != [] && status != "ALL" then Some(status) else None
      ensures forall name :: name !in {"page", "search", "status"} ==> Lookup(q, name) == None
    {
      q := [];
      q := SetParam(q, "page", NatToDecimal(page));
      if search != [] {
        q := SetParam(q, "search", search);
      }
      if status != [] && status != "ALL" {
        q := SetParam(q, "status", status);
      }
    }

    method HandleStatusChange(value: string)
      modifies this
      ensures status == value && page == 1
      ensures search == old(search) && searchInput == old(searchInput)
    {
      status := value;
      page := 1;
    }

    method HandleClear()
      modifies this
      ensures searchInput == "" && search == "" && status == "" && page == 1
    {
      searchInput := "";
      search := "";
      status := "";
      page := 1;
    }

    /** `onSearchChange`: typing changes only the text box. */
    method SetSearchInput(value: string)
      modifies this
      ensures searchInput == value
      ensures page == old(page) && search == old(search) && status == old(status)
    {
      searchInput := value;
    }

    /** The debounce timer fires: the text box becomes the search, back on page 1. */
    method CommitSearch()
      modifies this
      ensures search == old(searchInput) && page == 1
      ensures searchInput == old(searchInput) && status == old(status)
    {
      search := searchInput;
      page := 1;
    }

    /** `onPageChange` from the pagination control. */
    method SetPage(p: nat)
      modifies this
      ensures page == p && search == old(search) && status == old(status) && searchInput == old(searchInput)
    {
      page := p;
    }
  }

  /** The page the client writes is the page the server reads back. */
  lemma ServerReadsPage(page: nat)
    requires page >= 1
    ensures TasksRoute.PageParam(Some(DecimalValue(NatToDecimal(page)))) == page
  {
    DecimalRoundTrip(page);
  }

  /** After Clear the query is the first page alone, whatever the state was. */
  method ClearedQuery(s: ListState) returns (q: Params)
    modifies s
    ensures q == [("page", "1")]
  {
    s.HandleClear();
    q := s.BuildQuery();
    assert NatToDecimal(1) == "1";
  }

  /** "task" exactly when the total is 1, "tasks" otherwise (0 included). */
  function Noun(total: int): (r: string)
    ensures r == "task" <==> total == 1
    ensures r == "tasks" <==> total != 1
  {
    "task" + (if total != 1 then "s" else "")
  }

  /** The empty state's title, description and action link. */
  datatype EmptyState = EmptyState(title: string, description: string, actionHref: Option<string>)

  /**
   * With a search or a status set, the list says nothing was found and offers
   * no link; with neither, it invites creating the first task. The status test
   * is truthiness, so the "ALL" choice counts as a filter here although the
   * query leaves it out.
   */
  function EmptyStateFor(search: string, status: string): (e: EmptyState)
    ensures e.actionHref.Some? <==> search == "" && status == ""
    ensures e.actionHref.Some? ==> e.actionHref.value == "/tasks/new" && e.title == "No tasks yet"
    ensures e.actionHref.None? ==> e.title == "No tasks found"
  {
    if search != [] || status != [] then
      EmptyState("No tasks found", "Try adjusting your filters or search term.", None)
    else
      EmptyState("No tasks yet", "Get started by creating your first task.", Some("/tasks/new"))
  }
}
