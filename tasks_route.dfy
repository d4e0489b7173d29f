/**
 * app/api/tasks/route.ts: GET lists the caller's tasks a page at a time,
 * filtered by status and by a title search; POST creates a task for the
 * caller. The task table is a sequence, newest first.
 */
module TasksRoute {
  import opened Wrappers
  import opened Strings
  import opened TaskTypes
  import opened TaskValidation
  import opened Auth

  /** A row of the task table. */
  datatype Task = Task(
    id: string,
    title: string,
    description: Option<string>,
    status: Status,
    priority: Priority,
    dueDate: Option<string>,
    createdAt: nat,
    userId: string)

  /** lib/constants.ts: the default page size. */
  const ItemsPerPage: int := 10
  const MaxLimit: int := 50

  /**
   * `Math.max(1, parseInt(page || "1"))`, for a parameter that is absent or
   * empty (`None`) or parses to an integer.
   */
  function PageParam(p: Option<int>): (r: int)
    ensures r >= 1
    ensures p.Some? && p.value >= 1 ==> r == p.value
    ensures p.None? || p.value < 1 ==> r == 1
  {
    if p.None? then 1 else if p.value < 1 then 1 else p.value
  }

  /** `Math.min(50, Math.max(1, parseInt(limit || "10")))`. */
  function LimitParam(l: Option<int>): (r: int)
    ensures 1 <= r <= MaxLimit
    ensures l.None? ==> r == ItemsPerPage
    ensures l.Some? && 1 <= l.value <= MaxLimit ==> r == l.value
    ensures l.Some? && l.value < 1 ==> r == 1
    ensures l.Some? && l.value > MaxLimit ==> r == MaxLimit
  {
    var v := if l.None? then ItemsPerPage else l.value;
    if v > MaxLimit then MaxLimit else if v < 1 then 1 else v
  }

  /** Clamping is idempotent: a page or limit the server reports back is accepted unchanged. */
  lemma ParamsIdempotent(p: Option<int>, l: Option<int>)
    ensures PageParam(Some(PageParam(p))) == PageParam(p)
    ensures LimitParam(Some(LimitParam(l))) == LimitParam(l)
  {
  }

  /** `(page - 1) * limit`: the rows on the pages before `page`. */
  function Skip(page: int, limit: int): (r: int)
    ensures page >= 1 && limit >= 1 ==> r >= 0
  {
    (page - 1) * limit
  }

  /** `Math.ceil(total / limit)`: the fewest pages of `limit` rows that hold `total` rows. */
  function TotalPages(total: nat, limit: int): (r: nat)
    requires limit >= 1
    ensures r * limit >= total
    ensures r == 0 || (r - 1) * limit < total
    ensures r == 0 <==> total == 0
  {
    var q := (total + limit - 1) / limit;
    var m := (total + limit - 1) % limit;
    assert q * limit + m == total + limit - 1;
    assert (q - 1) * limit == q * limit - limit;
    q
  }

  /** The `where` object: the owner, and the optional status and title conditions. */
  datatype Where = Where(userId: string, status: Option<Status>, titleContains: Option<string>)

  /**
   * The filter for a query: always the caller's own rows; a status only when
   * it is one of the three names; a title search only when the search is
   * non-empty.
   */
  function WhereFor(userId: string, status: Option<string>, search: Option<string>): (w: Where)
    ensures w.userId == userId
    ensures w.status.Some? <==> status.Some? && status.value in {"PENDING", "IN_PROGRESS", "COMPLETED"}
    ensures w.status.Some? ==> StatusName(w.status.value) == status.value
    ensures w.titleContains.Some? <==> Present(search)
    ensures w.titleContains.Some? ==> w.titleContains == search
  {
    var st := if status.Some? && status.value != [] then ParseStatus(status.value) else None;
    Where(userId, st, if Present(search) then search else None)
  }

  /** The handler builds the `where` object field by field. */
  method BuildWhere(userId: string, status: Option<string>, search: Option<string>) returns (w: Where)
    ensures w == WhereFor(userId, status, search)
  {
    w := Where(userId, None, None);
    if status.Some? && status.value != [] && ParseStatus(status.value).Some? {
      w := w.(status := ParseStatus(status.value));
    }
    if search.Some? && search.value != [] {
      w := w.(titleContains := search);
    }
  }

  /** `contains` with `mode: "insensitive"`, on ASCII letters. */
  predicate ContainsInsensitive(title: string, search: string) {
    Includes(Lower(title), Lower(search))
  }

  predicate Matches(t: Task, w: Where) {
    && t.userId == w.userId
    && (w.status.Some? ==> t.status == w.status.value)
    && (w.titleContains.Some? ==> ContainsInsensitive(t.title, w.titleContains.value))
  }

  /** The rows matching `w`, in table order. */
  function Filter(tasks: seq<Task>, w: Where): (r: seq<Task>)
    ensures |r| <= |tasks|
    ensures forall t :: t in r <==> t in tasks && Matches(t, w)
  {
    if tasks == [] then []
    else
      var rest := Filter(tasks[1..], w);
      assert forall t :: t in tasks <==> t == tasks[0] || t in tasks[1..];
      if Matches(tasks[0], w) then [tasks[0]] + rest else rest
  }

  /** `skip`/`take`: the `take` rows that follow the first `skip` ones, or fewer at the end. */
  function Slice(s: seq<Task>, skip: nat, take: nat): (r: seq<Task>)
    ensures |r| <= take
    ensures |r| == if skip >= |s| then 0 else if skip + take <= |s| then take else |s| - skip
    ensures forall i :: 0 <= i < |r| ==> r[i] == s[skip + i]
  {
    if skip >= |s| then [] else if skip + take <= |s| then s[skip..skip + take] else s[skip..]
  }

  /** A page only holds rows of the sequence it was cut from. */
  lemma SliceWithin(s: seq<Task>, skip: nat, take: nat)
    ensures forall t :: t in Slice(s, skip, take) ==> t in s
  {
    var r := Slice(s, skip, take);
    forall t | t in r
      ensures t in s
    {
      var i :| 0 <= i < |r| && r[i] == t;
      assert t == s[skip + i];
    }
  }

  /**
   * Paging loses nothing: the row at position `i` of the matching rows is on
   * page `i / limit + 1`, which is one of the `totalPages` pages.
   */
  lemma {:induction false} EveryRowOnSomePage(s: seq<Task>, limit: int, i: int)
    requires limit >= 1 && 0 <= i < |s|
    ensures var p := i / limit + 1;
      && 1 <= p <= TotalPages(|s|, limit)
      && var page := Slice(s, Skip(p, limit), limit);
         i % limit < |page| && page[i % limit] == s[i]
  {
    var q := i / limit;
    var m := i % limit;
    assert q * limit + m == i;
    assert Skip(q + 1, limit) == q * limit;
  }

  /** The pagination block of a listing. */
  datatype Pagination = Pagination(page: int, limit: int, total: nat, totalPages: nat)

  datatype TasksBody =
    | TasksError(error: string)
    | ValidationFailed(details: set<string>)
    | Listing(tasks: seq<Task>, pagination: Pagination)
    | CreatedTask(task: Task)

  datatype TasksResponse = TasksResponse(status: nat, body: TasksBody)

  const Unauthorized: TasksResponse := TasksResponse(401, TasksError("Unauthorized"))
  const ServerError: TasksResponse := TasksResponse(500, TasksError("Internal server error"))

  /**
   * The row POST creates from validated data: the owner is the token's
   * subject; status and priority default to PENDING and MEDIUM; an empty or
   * missing description, and a missing due date, become null.
   */
  function NewTask(d: TaskData, id: string, owner: string, now: nat): (t: Task)
    requires d.title.Some?
    ensures t.id == id && t.userId == owner && t.createdAt == now && t.title == d.title.value
    ensures t.status == if d.status.Some? then d.status.value else Pending
    ensures t.priority == if d.priority.Some? then d.priority.value else Medium
    ensures t.description.Some? <==> d.description.Given? && d.description.value != []
    ensures t.description.Some? ==> t.description.value == d.description.value
    ensures t.dueDate.Some? <==> d.dueDate.Given? && d.dueDate.value != []
    ensures t.dueDate.Some? ==> t.dueDate.value == d.dueDate.value
  {
    Task(
      id,
      d.title.value,
      if d.description.Given? && d.description.value != [] then Some(d.description.value) else None,
      if d.status.Some? then d.status.value else Pending,
      if d.priority.Some? then d.priority.value else Medium,
      if d.dueDate.Given? && d.dueDate.value != [] then Some(d.dueDate.value) else None,
      now,
      owner)
  }

  class TaskServer {
    const env: Env
    var tasks: seq<Task>

    constructor (env: Env)
      ensures this.env == env && tasks == []
    {
      this.env := env;
      tasks := [];
    }

    /**
     * GET /api/tasks. Authentication comes first; then the page of matching
     * rows and the pagination block. Every row shown is the caller's, and at
     * most 50 are shown.
     */
    method List(header: Option<string>, now: nat, page: Option<int>, limit: Option<int>,
                status: Option<string>, search: Option<string>) returns (resp: TasksResponse)
      ensures GetAuthUser(env, header, now).None? ==> resp == Unauthorized
      ensures GetAuthUser(env, header, now).Some? ==>
        var owner := GetAuthUser(env, header, now).value.userId;
        var p := PageParam(page);
        var l := LimitParam(limit);
        var rows := Filter(tasks, WhereFor(owner, status, search));
        && resp.status == 200
        && resp.body == Listing(Slice(rows, Skip(p, l), l), Pagination(p, l, |rows|, TotalPages(|rows|, l)))
        && |resp.body.tasks| <= MaxLimit
        && forall t :: t in resp.body.tasks ==> t in tasks && t.userId == owner
    {
      var user := GetAuthUser(env, header, now);
      if user.None? {
        return Unauthorized;
      }
      var p := PageParam(page);
      var l := LimitParam(limit);
      var w := BuildWhere(user.value.userId, status, search);
      var rows := Filter(tasks, w);
      var shown := Slice(rows, Skip(p, l), l);
      SliceWithin(rows, Skip(p, l), l);
      resp := TasksResponse(200, Listing(shown, Pagination(p, l, |rows|, TotalPages(|rows|, l))));
    }

    /**
     * POST /api/tasks. Authentication first; a body that is not JSON throws
     * (500); a body that fails the create schema gives 400 with the failing
     * fields; otherwise one row is added and returned with 201.
     */
    method Create(header: Option<string>, now: nat, body: Option<RawTask>, isDateTime: string -> bool,
                  newId: string) returns (resp: TasksResponse)
      modifies this
      ensures GetAuthUser(env, header, now).None? ==> resp == Unauthorized && tasks == old(tasks)
      ensures GetAuthUser(env, header, now).Some? ==>
        var owner := GetAuthUser(env, header, now).value.userId;
        if body.None? then resp == ServerError && tasks == old(tasks)
        else
          match ParseCreate(body.value, isDateTime)
          case Failure(fields) => resp == TasksResponse(400, ValidationFailed(fields)) && tasks == old(tasks)
          case Success(d) =>
            d.title.Some?
            && tasks == [NewTask(d, newId, owner, now)] + old(tasks)
            && resp == TasksResponse(201, CreatedTask(NewTask(d, newId, owner, now)))
    {
      var user := GetAuthUser(env, header, now);
      if user.None? {
        return Unauthorized;
      }
      if body.None? {
        return ServerError;
      }
      var validation := ParseCreate(body.value, isDateTime);
      if validation.Failure? {
        return TasksResponse(400, ValidationFailed(validation.error));
      }
      CreateAcceptsExactly(body.value, isDateTime);
      AcceptedValues(body.value, false, isDateTime);
      var task := NewTask(validation.value, newId, user.value.userId, now);
      tasks := [task] + tasks;
      resp := TasksResponse(201, CreatedTask(task));
    }
  }

  /** A matching row put in front of the table comes first among the matching rows. */
  lemma FilterKeepsHead(t: Task, tasks: seq<Task>, w: Where)
    requires Matches(t, w)
    ensures Filter([t] + tasks, w) == [t] + Filter(tasks, w)
  {
    assert ([t] + tasks)[1..] == tasks;
  }

  /** A task just created is the first row of its owner's unfiltered first page. */
  lemma NewTaskListedFirst(t: Task, tasks: seq<Task>, limit: Option<int>)
    ensures var rows := Filter([t] + tasks, WhereFor(t.userId, None, None));
      var l := LimitParam(limit);
      var page := Slice(rows, Skip(PageParam(None), l), l);
      |page| >= 1 && page[0] == t
  {
    var w := WhereFor(t.userId, None, None);
    assert w == Where(t.userId, None, None);
    FilterKeepsHead(t, tasks, w);
    var rows := Filter([t] + tasks, w);
    var l := LimitParam(limit);
    assert Skip(PageParam(None), l) == 0;
    var page := Slice(rows, 0, l);
    assert |page| >= 1 && page[0] == rows[0];
  }
}
