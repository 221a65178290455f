/** The two routers and where the server mounts them: a static table from
    (method, path) to the chain of steps the request runs through, the
    guard first wherever the route is private. Paths are matched as the
    web framework does by default, except for case: an optional trailing
    slash, `/:id` standing for exactly one non-empty segment, and the first
    registered route that matches both path and method wins. */
module Routes {

  import opened Common
  import opened Strings
  import opened AuthMiddleware

  datatype Verb = Get | Post | Put | Delete

  /** The controller functions a route can end in. */
  datatype Handler =
    | RegisterUser | LoginUser | UpdateUser
    | GetExpenseSummary | GetExpenses | SetExpense | UpdateExpense | DeleteExpense

  predicate IsExpenseHandler(h: Handler) {
    h in {GetExpenseSummary, GetExpenses, SetExpense, UpdateExpense, DeleteExpense}
  }

  /** A step of a chain: the guard `protect`, or a controller function. */
  datatype Step = Guard | Run(handler: Handler)

  /** A route path: a literal (`/summary`, `/`) or the one-parameter `/:id`. */
  datatype Pattern = Literal(path: string) | IdParam

  datatype Route = Route(pattern: Pattern, verb: Verb, chain: seq<Step>)

  const AuthMount := "/api/auth"
  const ExpensesMount := "/api/expenses"

  /** The expense router, in registration order. */
  const ExpenseTable: seq<Route> := [
    Route(Literal("/summary"), Get, [Guard, Run(GetExpenseSummary)]),
    Route(Literal("/"), Get, [Guard, Run(GetExpenses)]),
    Route(Literal("/"), Post, [Guard, Run(SetExpense)]),
    Route(IdParam, Delete, [Guard, Run(DeleteExpense)]),
    Route(IdParam, Put, [Guard, Run(UpdateExpense)])
  ]

  /** The auth router, in registration order. */
  const AuthTable: seq<Route> := [
    Route(Literal("/register"), Post, [Run(RegisterUser)]),
    Route(Literal("/login"), Post, [Run(LoginUser)]),
    Route(Literal("/update"), Put, [Guard, Run(UpdateUser)])
  ]

  /** A path relative to a router matches a pattern. */
  predicate PathMatches(p: Pattern, rel: string) {
    match p
    case Literal(route) =>
      rel == route || (route != "/" && rel == route + "/")
    case IdParam =>
      |rel| >= 2 && rel[0] == '/' &&
      var seg := if rel[|rel| - 1] == '/' then rel[1..|rel| - 1] else rel[1..];
      seg != "" && '/' !in seg
  }

  /** The position of the first route of the table matching the method and
      path: no earlier route matches both. */
  function FirstMatchAt(table: seq<Route>, verb: Verb, rel: string): (r: Option<nat>)
    ensures r.Some? ==> r.value < |table| && table[r.value].verb == verb && PathMatches(table[r.value].pattern, rel)
    ensures r.Some? ==> forall k :: 0 <= k < r.value ==> !(table[k].verb == verb && PathMatches(table[k].pattern, rel))
    ensures r.None? <==> forall k :: 0 <= k < |table| ==> !(table[k].verb == verb && PathMatches(table[k].pattern, rel))
  {
    if table == [] then None
    else if table[0].verb == verb && PathMatches(table[0].pattern, rel) then Some(0)
    else match FirstMatchAt(table[1..], verb, rel)
      case None => None
      case Some(k) => Some(k + 1)
  }

  /** The first route of the table matching the method and path. */
  function FirstMatch(table: seq<Route>, verb: Verb, rel: string): (r: Option<Route>)
    ensures r.Some? ==> r.value in table && r.value.verb == verb && PathMatches(r.value.pattern, rel)
    ensures r.None? <==> forall k :: 0 <= k < |table| ==> !(table[k].verb == verb && PathMatches(table[k].pattern, rel))
    ensures r.Some? ==> FirstMatchAt(table, verb, rel).Some? && r.value == table[FirstMatchAt(table, verb, rel).value]
  {
    if table == [] then None
    else if table[0].verb == verb && PathMatches(table[0].pattern, rel) then Some(table[0])
    else FirstMatch(table[1..], verb, rel)
  }

  /** The path seen by a router mounted at `mount`, when the request path is
      under it: the rest of the path, or "/" for the mount point itself. */
  function Under(mount: string, path: string): (r: Option<string>)
    ensures r.Some? ==> r.value != "" && r.value[0] == '/'
  {
    if |path| < |mount| || path[..|mount|] != mount then None
    else if |path| == |mount| then Some("/")
    else if path[|mount|] == '/' then Some(path[|mount|..])
    else None
  }

  /** The chain of the first route of a router matching the request. */
  function Routed(table: seq<Route>, verb: Verb, rel: string): (r: Option<seq<Step>>)
    ensures r.Some? <==> FirstMatch(table, verb, rel).Some?
    ensures r.Some? ==> r.value == FirstMatch(table, verb, rel).value.chain
  {
    match FirstMatch(table, verb, rel)
    case Some(route) => Some(route.chain)
    case None => None
  }

  /** The chain a request runs through, or None when neither router claims it;
      the auth router is mounted first. */
  function Dispatch(verb: Verb, path: string): (r: Option<seq<Step>>)
    ensures r.Some? ==> exists route :: (route in AuthTable || route in ExpenseTable) && r.value == route.chain
  {
    match Under(AuthMount, path)
    case Some(rel) => Routed(AuthTable, verb, rel)
    case None =>
      match Under(ExpensesMount, path)
      case Some(rel) => Routed(ExpenseTable, verb, rel)
      case None => None
  }

  /** Running a chain: the guard's outcome either ends the request or attaches
      its user; the handler then runs with whatever user is attached. The
      result is the handler that ran and the user it saw. */
  function Execute(chain: seq<Step>, guard: Outcome, attached: Option<PublicUser>): (r: Option<(Handler, Option<PublicUser>)>)
    ensures r.Some? ==> exists k :: 0 <= k < |chain| && chain[k] == Run(r.value.0)
  {
    if chain == [] then None
    else match chain[0]
      case Guard =>
        if guard.Reject? then None else Execute(chain[1..], guard, Some(guard.user))
      case Run(h) => Some((h, attached))
  }

  /** Every expense route puts the guard before its handler, and nothing else. */
  lemma ExpenseRoutesGuarded()
    ensures forall route :: route in ExpenseTable ==>
      |route.chain| == 2 && route.chain[0] == Guard && route.chain[1].Run? && IsExpenseHandler(route.chain[1].handler)
  {}

  /** Register and login are public; update is guarded. */
  lemma AuthRoutesGuarding()
    ensures forall route :: route in AuthTable ==>
      (route.chain[|route.chain| - 1] == Run(UpdateUser) <==> route.chain == [Guard, Run(UpdateUser)])
    ensures forall route :: route in AuthTable && route.chain[0] != Guard ==>
      route.chain in {[Run(RegisterUser)], [Run(LoginUser)]}
  {}

  /** Whatever the request and the guard's verdict, an expense handler or the
      profile update runs only when the guard let the request through, and it
      then sees the guard's user. */
  lemma GuardedHandlersSeeUser(verb: Verb, path: string, guard: Outcome, attached: Option<PublicUser>)
    requires Dispatch(verb, path).Some?
    requires var ran := Execute(Dispatch(verb, path).value, guard, attached);
      ran.Some? && (IsExpenseHandler(ran.value.0) || ran.value.0 == UpdateUser)
    ensures guard.Proceed?
    ensures Execute(Dispatch(verb, path).value, guard, attached).value.1 == Some(guard.user)
  {
    ExpenseRoutesGuarded();
    AuthRoutesGuarding();
  }

  /** A path under a mount point reaches its router as the rest of the path. */
  lemma UnderMount(mount: string, rel: string)
    requires rel == "" || rel[0] == '/'
    ensures Under(mount, mount + rel) == Some(if rel == "" then "/" else rel)
  {
    assert (mount + rel)[..|mount|] == mount;
    if rel != "" {
      assert (mount + rel)[|mount|..] == rel;
    }
  }

  /** No path under the expense mount is under the auth mount. */
  lemma MountsApart(rel: string)
    ensures Under(AuthMount, ExpensesMount + rel) == None
  {
    var path := ExpensesMount + rel;
    if |path| >= |AuthMount| {
      assert path[..|AuthMount|][5] == 'e' != AuthMount[5];
    }
  }

  /** A request under the expense mount goes to the expense router. */
  lemma ExpensesDispatch(verb: Verb, rel: string)
    requires rel == "" || rel[0] == '/'
    ensures Dispatch(verb, ExpensesMount + rel) == Routed(ExpenseTable, verb, if rel == "" then "/" else rel)
  {
    MountsApart(rel);
    UnderMount(ExpensesMount, rel);
  }

  /** A request under the auth mount goes to the auth router. */
  lemma AuthDispatch(verb: Verb, rel: string)
    requires rel == "" || rel[0] == '/'
    ensures Dispatch(verb, AuthMount + rel) == Routed(AuthTable, verb, if rel == "" then "/" else rel)
  {
    UnderMount(AuthMount, rel);
  }

  /** Within the expense router: `/summary` answers GET, and `/` answers GET
      and POST, each with or without the trailing slash. */
  lemma LiteralRouter()
    ensures Routed(ExpenseTable, Get, "/summary") == Some([Guard, Run(GetExpenseSummary)])
    ensures Routed(ExpenseTable, Get, "/summary/") == Some([Guard, Run(GetExpenseSummary)])
    ensures Routed(ExpenseTable, Get, "/") == Some([Guard, Run(GetExpenses)])
    ensures Routed(ExpenseTable, Post, "/") == Some([Guard, Run(SetExpense)])
  {
    var t := ExpenseTable;
    assert PathMatches(t[0].pattern, "/summary/") by {
      assert "/summary" + "/" == "/summary/";
    }
    assert !PathMatches(t[0].pattern, "/") by {
      assert |"/summary"| != |"/"|;
    }
    assert FirstMatch(t[2..], Post, "/") == Some(t[2]);
    assert FirstMatch(t[1..], Post, "/") == FirstMatch(t[2..], Post, "/");
    assert FirstMatch(t[1..], Get, "/") == Some(t[1]);
  }

  /** `GET /api/expenses/summary` is the summary, behind the guard. */
  lemma SummaryRoute()
    ensures Dispatch(Get, ExpensesMount + "/summary") == Some([Guard, Run(GetExpenseSummary)])
    ensures Dispatch(Get, ExpensesMount + "/summary/") == Some([Guard, Run(GetExpenseSummary)])
  {
    LiteralRouter();
    ExpensesDispatch(Get, "/summary");
    ExpensesDispatch(Get, "/summary/");
  }

  /** `GET` and `POST /api/expenses` (with or without the trailing slash)
      list and create, behind the guard. */
  lemma CollectionRoutes()
    ensures Dispatch(Get, ExpensesMount) == Some([Guard, Run(GetExpenses)])
    ensures Dispatch(Post, ExpensesMount) == Some([Guard, Run(SetExpense)])
    ensures Dispatch(Get, ExpensesMount + "/") == Some([Guard, Run(GetExpenses)])
    ensures Dispatch(Post, ExpensesMount + "/") == Some([Guard, Run(SetExpense)])
  {
    LiteralRouter();
    assert ExpensesMount + "" == ExpensesMount;
    ExpensesDispatch(Get, "");
    ExpensesDispatch(Post, "");
    ExpensesDispatch(Get, "/");
    ExpensesDispatch(Post, "/");
  }

  /** `/:id` takes exactly one non-empty segment. */
  lemma IdSegment(id: string)
    requires id != "" && '/' !in id
    ensures PathMatches(IdParam, "/" + id)
  {
    var rel := "/" + id;
    assert rel[1..] == id;
    assert rel[|rel| - 1] == id[|id| - 1];
  }

  /** Within the expense router, DELETE and PUT of a one-segment path skip
      the GET and POST routes and land on the `/:id` routes. */
  lemma IdRouter(rel: string)
    requires PathMatches(IdParam, rel)
    ensures Routed(ExpenseTable, Delete, rel) == Some([Guard, Run(DeleteExpense)])
    ensures Routed(ExpenseTable, Put, rel) == Some([Guard, Run(UpdateExpense)])
  {
    var t := ExpenseTable;
    assert FirstMatch(t[4..], Put, rel) == Some(t[4]);
    assert FirstMatch(t[3..], Delete, rel) == Some(t[3]);
    assert FirstMatch(t[3..], Put, rel) == FirstMatch(t[4..], Put, rel);
    assert FirstMatch(t[2..], Put, rel) == FirstMatch(t[3..], Put, rel);
    assert FirstMatch(t[2..], Delete, rel) == FirstMatch(t[3..], Delete, rel);
    assert FirstMatch(t[1..], Put, rel) == FirstMatch(t[2..], Put, rel);
    assert FirstMatch(t[1..], Delete, rel) == FirstMatch(t[2..], Delete, rel);
  }

  /** A request for one id under the expense mount goes to the expense
      router as `/<id>`. */
  lemma IdDispatch(verb: Verb, id: string)
    ensures Dispatch(verb, ExpensesMount + "/" + id) == Routed(ExpenseTable, verb, "/" + id)
  {
    assert ExpensesMount + "/" + id == ExpensesMount + ("/" + id);
    ExpensesDispatch(verb, "/" + id);
  }

  /** `DELETE /api/expenses/<id>` reaches delete, behind the guard, for any
      one-segment id, "summary" included. */
  lemma DeleteRoute(id: string)
    requires id != "" && '/' !in id
    ensures Dispatch(Delete, ExpensesMount + "/" + id) == Some([Guard, Run(DeleteExpense)])
  {
    IdDispatch(Delete, id);
    IdSegment(id);
    IdRouter("/" + id);
  }

  /** `PUT /api/expenses/<id>` reaches update, behind the guard, for any
      one-segment id, "summary" included. */
  lemma UpdateRoute(id: string)
    requires id != "" && '/' !in id
    ensures Dispatch(Put, ExpensesMount + "/" + id) == Some([Guard, Run(UpdateExpense)])
  {
    IdDispatch(Put, id);
    IdSegment(id);
    IdRouter("/" + id);
  }

  /** Within the auth router: register and login answer POST, update answers
      PUT, and login answers nothing else. */
  lemma AuthRouter()
    ensures Routed(AuthTable, Post, "/register") == Some([Run(RegisterUser)])
    ensures Routed(AuthTable, Post, "/login") == Some([Run(LoginUser)])
    ensures Routed(AuthTable, Put, "/update") == Some([Guard, Run(UpdateUser)])
    ensures Routed(AuthTable, Get, "/login") == None
  {}

  /** The auth routes under their mount point; login answers POST only. */
  lemma AuthRouteTable()
    ensures Dispatch(Post, AuthMount + "/register") == Some([Run(RegisterUser)])
    ensures Dispatch(Post, AuthMount + "/login") == Some([Run(LoginUser)])
    ensures Dispatch(Put, AuthMount + "/update") == Some([Guard, Run(UpdateUser)])
    ensures Dispatch(Get, AuthMount + "/login") == None
  {
    AuthRouter();
    AuthDispatch(Post, "/register");
    AuthDispatch(Post, "/login");
    AuthDispatch(Put, "/update");
    AuthDispatch(Get, "/login");
  }
}
