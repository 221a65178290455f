/** The pieces put together: a registered user can log in; the token a login
    hands out, sent back in the header the client's interceptor builds, gets
    the request past the guard to the handler with that user attached; the
    query the dashboard sends is read back by the list endpoint as the
    filters it shows; and loading page after page fills the dashboard with
    the matches in order, all of them once a short page arrives. */
module Flows {

  import opened Common
  import opened Strings
  import opened Calendar
  import opened Crypto
  import AC = AuthController
  import MW = AuthMiddleware
  import Api
  import R = Routes
  import EC = ExpenseController
  import D = Dashboard

  // ===== register, log in, get past the guard =====

  /** After registration appended `u`, logging in with the same email and
      password succeeds and answers for `u`. */
  lemma RegisteredUserLogsIn(users: seq<AC.User>, h: Hasher, cfg: TokenConfig,
                             name: string, email: string, password: string, id: Id, now: int)
    requires name != "" && email != "" && password != ""
    requires AC.FindByEmail(users, email).None?
    ensures var u := AC.User(id, name, email, h.hash(password));
      AC.LoginUser(users + [u], h, cfg, email, password, now) == Success(200, AC.Respond(cfg, u, now))
  {
    var u := AC.User(id, name, email, h.hash(password));
    var all := users + [u];
    assert all[|users|].email == email;
    assert forall k :: 0 <= k < |users| ==> all[k] == users[k];
    assert AC.FindByEmail(all, email) == Some(|users|);
  }

  /** The guard's lookup over the user collection. */
  function UserLookup(users: seq<AC.User>): Id -> MW.Lookup {
    (id: Id) => MW.LookupIn(users, id)
  }

  /** With unique ids, a stored user's id resolves to that user. */
  lemma LookupOwnId(users: seq<AC.User>, u: AC.User)
    requires AC.UniqueUserIds(users) && u in users
    ensures UserLookup(users)(u.id) == MW.Found(MW.WithoutPassword(u))
  {
    var r := AC.FindUserById(users, u.id);
    assert r.Some?;
  }

  /** A token issued to a stored user, sent as the interceptor's bearer
      header, lets the guard through on behalf of that user (without the
      password hash) for 30 days less a second, and is rejected as expired
      from 30 days on. */
  lemma IssuedTokenPassesGuard(users: seq<AC.User>, cfg: TokenConfig, u: AC.User, now: int, later: int)
    requires SoundSigner(cfg.signer) && AC.UniqueUserIds(users) && u in users
    ensures var header := Some(Api.BearerHeader(AC.Respond(cfg, u, now).token));
      && (later <= now + (ExpiresIn - 1) * 1000 ==>
            MW.Decide(header, cfg, later, UserLookup(users)) == MW.Proceed(MW.WithoutPassword(u)))
      && (later >= now + ExpiresIn * 1000 ==>
            MW.Decide(header, cfg, later, UserLookup(users)) == MW.Reject(401, MW.TokenExpired))
  {
    var token := AC.Respond(cfg, u, now).token;
    TokenShape(cfg, u.id, now);
    Api.BearerRoundTrip(token);
    AC.RespondTokenVerifies(cfg, u, now, later);
    LookupOwnId(users, u);
  }

  /** A successful login answers for a stored user `u` with that email, and
      its token opens the guard for `u` until it expires. */
  lemma LoginTokenPassesGuard(users: seq<AC.User>, h: Hasher, cfg: TokenConfig,
                              email: string, password: string, now: int, later: int) returns (u: AC.User)
    requires SoundSigner(cfg.signer) && AC.UniqueUserIds(users)
    requires AC.LoginUser(users, h, cfg, email, password, now).Success?
    requires later <= now + (ExpiresIn - 1) * 1000
    ensures u in users && u.email == email
    ensures AC.LoginUser(users, h, cfg, email, password, now) == Success(200, AC.Respond(cfg, u, now))
    ensures MW.Decide(Some(Api.BearerHeader(AC.Respond(cfg, u, now).token)), cfg, later, UserLookup(users))
      == MW.Proceed(MW.WithoutPassword(u))
  {
    u := users[AC.FindByEmail(users, email).value];
    IssuedTokenPassesGuard(users, cfg, u, now, later);
  }

  /** A guarded route, run with the guard's verdict on a stored user's live
      token, reaches its handler, which sees that user. */
  lemma GuardedRouteSeesUser(verb: R.Verb, path: string, handler: R.Handler,
                             users: seq<AC.User>, cfg: TokenConfig, u: AC.User, now: int, later: int)
    requires R.Dispatch(verb, path) == Some([R.Guard, R.Run(handler)])
    requires SoundSigner(cfg.signer) && AC.UniqueUserIds(users) && u in users
    requires later <= now + (ExpiresIn - 1) * 1000
    ensures var verdict := MW.Decide(Some(Api.BearerHeader(AC.Respond(cfg, u, now).token)), cfg, later, UserLookup(users));
      R.Execute(R.Dispatch(verb, path).value, verdict, None) == Some((handler, Some(MW.WithoutPassword(u))))
  {
    IssuedTokenPassesGuard(users, cfg, u, now, later);
  }

  /** For instance, deleting an expense by id right after logging in. */
  lemma LoggedInDeleteReachesHandler(id: string, users: seq<AC.User>, h: Hasher, cfg: TokenConfig,
                                     email: string, password: string, now: int) returns (u: AC.User)
    requires id != "" && '/' !in id
    requires SoundSigner(cfg.signer) && AC.UniqueUserIds(users)
    requires AC.LoginUser(users, h, cfg, email, password, now).Success?
    ensures u in users && u.email == email
    ensures R.Dispatch(R.Delete, R.ExpensesMount + "/" + id) == Some([R.Guard, R.Run(R.DeleteExpense)])
    ensures var token := AC.LoginUser(users, h, cfg, email, password, now).value.token;
      var verdict := MW.Decide(Some(Api.BearerHeader(token)), cfg, now, UserLookup(users));
      R.Execute([R.Guard, R.Run(R.DeleteExpense)], verdict, None) == Some((R.DeleteExpense, Some(MW.WithoutPassword(u))))
  {
    u := LoginTokenPassesGuard(users, h, cfg, email, password, now, now);
    R.DeleteRoute(id);
    GuardedRouteSeesUser(R.Delete, R.ExpensesMount + "/" + id, R.DeleteExpense, users, cfg, u, now, now);
  }

  /** A request without a header never reaches a guarded handler. */
  lemma NoHeaderStopsAtGuard(chain: seq<R.Step>, cfg: TokenConfig, now: int, lookup: Id -> MW.Lookup, attached: Option<MW.PublicUser>)
    requires chain != [] && chain[0] == R.Guard
    ensures MW.Decide(None, cfg, now, lookup) == MW.Reject(401, MW.NoToken)
    ensures R.Execute(chain, MW.Decide(None, cfg, now, lookup), attached) == None
  {}

  // ===== the dashboard's query, as the list endpoint reads it =====

  /** `parseInt` of a query value the dashboard sends: its decimal value, or
      None (NaN) when there is none or it is not a decimal numeral. */
  function ReadNumber(v: Option<string>): (r: Option<int>)
    ensures v.Some? && ParseDecimal(v.value).Some? ==> r == Some(ParseDecimal(v.value).value)
    ensures v.None? ==> r.None?
  {
    match v
    case None => None
    case Some(s) =>
      match ParseDecimal(s)
      case None => None
      case Some(n) => Some(n)
  }

  /** The list query the endpoint builds from the parameters: the category
      ("" when absent) and the numbers read back. */
  function ServerQuery(params: seq<D.Param>): EC.ListQuery {
    EC.ListQuery(D.GetParam(params, D.CategoryKey).GetOr(""),
                 ReadNumber(D.GetParam(params, D.YearKey)),
                 ReadNumber(D.GetParam(params, D.MonthKey)),
                 ReadNumber(D.GetParam(params, D.PageKey)),
                 ReadNumber(D.GetParam(params, D.LimitKey)))
  }

  /** The endpoint reads the page number and the limit of 10 back exactly,
      the category when it is not "All", and no year or month where the
      dashboard left them at "All". */
  lemma QueryReadBack(category: string, month: string, year: string, p: nat)
    ensures var q := ServerQuery(D.FetchParams(category, month, year, p));
      && q.page == Some(p) && q.limit == Some(D.PageSize)
      && q.category == (if category != D.All then category else "")
      && (year == D.All ==> q.year.None?)
      && (month == D.All ==> q.month.None?)
  {
    D.FetchParamsValues(category, month, year, p, D.CategoryKey);
    D.FetchParamsValues(category, month, year, p, D.MonthKey);
    D.FetchParamsValues(category, month, year, p, D.YearKey);
    D.FetchParamsValues(category, month, year, p, D.PageKey);
    D.FetchParamsValues(category, month, year, p, D.LimitKey);
    ParseNatToDecimal(p);
    ParseNatToDecimal(D.PageSize);
  }

  /** Two fetches with the same filters differ only in the page they ask for. */
  lemma PagesShareQuery(category: string, month: string, year: string, p: nat)
    ensures ServerQuery(D.FetchParams(category, month, year, p)) == EC.WithPage(ServerQuery(D.FetchParams(category, month, year, 1)), p)
  {
    QueryReadBack(category, month, year, p);
    QueryReadBack(category, month, year, 1);
    D.FetchParamsValues(category, month, year, p, D.MonthKey);
    D.FetchParamsValues(category, month, year, 1, D.MonthKey);
    D.FetchParamsValues(category, month, year, p, D.YearKey);
    D.FetchParamsValues(category, month, year, 1, D.YearKey);
  }

  /** A year sent as digits is read back as that year, and the month too
      unless it was left at "All". */
  lemma DatedQuery(category: string, month: string, y: nat, p: nat)
    requires month == D.All || exists m: nat :: month == IntToDecimal(m)
    ensures var q := ServerQuery(D.FetchParams(category, month, IntToDecimal(y), p));
      && q.category == (if category != D.All then category else "")
      && q.year == Some(y)
      && (month == D.All ==> q.month.None?)
      && (forall m: nat :: month == IntToDecimal(m) ==> q.month == Some(m))
  {
    var year := IntToDecimal(y);
    QueryReadBack(category, month, year, p);
    D.FetchParamsValues(category, month, year, p, D.MonthKey);
    D.FetchParamsValues(category, month, year, p, D.YearKey);
    ParseNatToDecimal(y);
    assert year != D.All by {
      assert year[0] != 'A';
    }
    forall m: nat | month == IntToDecimal(m)
      ensures ServerQuery(D.FetchParams(category, month, year, p)).month == Some(m)
    {
      ParseNatToDecimal(m);
      assert month != D.All by {
        assert month[0] != 'A';
      }
    }
  }

  /** After 'This Month' in month `nowMonth` (0-based) of year `nowYear`, the
      list endpoint returns the caller's records of that civil month (and of
      the chosen category). */
  lemma ThisMonthQuery(caller: Id, category: string, nowMonth: int, nowYear: int, p: nat, e: EC.Expense)
    requires 0 <= nowMonth <= 11 && nowYear >= 100
    ensures var q := ServerQuery(D.FetchParams(category, IntToDecimal(nowMonth + 1), IntToDecimal(nowYear), p));
      && EC.WellFormedQuery(q)
      && (EC.Matches(EC.BuildMatch(caller, q), e) <==>
            && e.userId == caller
            && (category != D.All && category != "" ==> e.category == category)
            && InMonth(e.date, nowYear, nowMonth + 1))
  {
    DatedQuery(category, IntToDecimal(nowMonth + 1), nowYear, p);
    var q := ServerQuery(D.FetchParams(category, IntToDecimal(nowMonth + 1), IntToDecimal(nowYear), p));
    assert q.month == Some(nowMonth + 1);
    EC.MatchMeaning(caller, q, e);
  }

  /** After 'This Year' in year `nowYear`, it returns the caller's records of
      that civil year. */
  lemma ThisYearQuery(caller: Id, category: string, nowYear: int, p: nat, e: EC.Expense)
    requires nowYear >= 100
    ensures var q := ServerQuery(D.FetchParams(category, D.All, IntToDecimal(nowYear), p));
      && EC.WellFormedQuery(q)
      && (EC.Matches(EC.BuildMatch(caller, q), e) <==>
            && e.userId == caller
            && (category != D.All && category != "" ==> e.category == category)
            && InYear(e.date, nowYear))
  {
    DatedQuery(category, D.All, nowYear, p);
    var q := ServerQuery(D.FetchParams(category, D.All, IntToDecimal(nowYear), p));
    EC.MatchMeaning(caller, q, e);
  }

  // ===== page after page =====

  /** The query the dashboard sends, its page and limit aside, is one the
      endpoint pages with a positive limit. */
  predicate Pageable(q: EC.ListQuery) {
    EC.WellFormedQuery(q) && q.limit.Some? && q.limit.value >= 1
  }

  /** The matches the endpoint pages through. */
  function AllMatches(records: seq<EC.Expense>, caller: Id, q: EC.ListQuery): seq<EC.Expense>
    requires EC.WellFormedQuery(q)
  {
    EC.FindNewestFirst(records, EC.BuildMatch(caller, q))
  }

  lemma WindowsJoin(s: seq<EC.Expense>, a: nat, b: nat)
    ensures EC.Window(s, 0, a) + EC.Window(s, a, b) == EC.Window(s, 0, a + b)
  {
    var x, y := EC.Min(a, |s|), EC.Min(a + b, |s|);
    assert s[0..x] + s[x..y] == s[0..y];
  }

  /** A window that comes back short ends the sequence: everything up to it
      is the whole sequence. */
  lemma ShortWindowEnds(s: seq<EC.Expense>, a: nat, b: nat)
    requires |EC.Window(s, a, b)| < b
    ensures EC.Window(s, 0, a + b) == s
  {}

  /** Page n + 1 of the query is the window of the matches after n full
      pages, the limit being the one asked for or the default of 10. */
  lemma PageIsWindow(records: seq<EC.Expense>, caller: Id, q: EC.ListQuery, n: nat)
    requires EC.WellFormedQuery(q) && EC.PageLimit(q) >= 1
    ensures EC.WellFormedQuery(EC.WithPage(q, n + 1)) && EC.ValidPaging(EC.WithPage(q, n + 1))
    ensures EC.StartIndex(EC.WithPage(q, n + 1)) == n * EC.PageLimit(q)
    ensures EC.GetExpenses(records, caller, EC.WithPage(q, n + 1)).value
      == EC.Window(AllMatches(records, caller, q), EC.StartIndex(EC.WithPage(q, n + 1)), EC.PageLimit(q))
  {
    EC.PageStart(q, n);
    assert EC.BuildMatch(caller, EC.WithPage(q, n + 1)) == EC.BuildMatch(caller, q);
  }

  /** The list endpoint answering the dashboard's request. */
  function Answer(records: seq<EC.Expense>, caller: Id, params: seq<D.Param>): seq<EC.Expense>
    requires EC.WellFormedQuery(ServerQuery(params)) && EC.ValidPaging(ServerQuery(params))
  {
    EC.GetExpenses(records, caller, ServerQuery(params)).value
  }

  /** After `i` pages of the query `q` the dashboard holds the first `i`
      pages of the matches, and expects no more only when the last was short. */
  ghost predicate ShowsPages(d: D.DashboardState, records: seq<EC.Expense>, caller: Id, q: EC.ListQuery, i: nat)
    reads d
    requires Pageable(q)
  {
    && d.Valid() && d.page == i && i >= 1
    && d.expenses == EC.Window(AllMatches(records, caller, q), 0, i * D.PageSize)
    && (!d.hasMore ==> |EC.Window(AllMatches(records, caller, q), (i - 1) * D.PageSize, D.PageSize)| < D.PageSize)
  }

  /** The query the dashboard's current filters send for page 1. */
  function FirstQuery(d: D.DashboardState): EC.ListQuery
    reads d
  {
    ServerQuery(D.FetchParams(d.filterCategory, d.filterMonth, d.filterYear, 1))
  }

  /** The endpoint's answer to page `i + 1` of the dashboard's filters is
      the window of the matches after `i` full pages. */
  lemma AnswerIsWindow(records: seq<EC.Expense>, caller: Id, cat: string, month: string, year: string, i: nat)
    requires EC.WellFormedQuery(ServerQuery(D.FetchParams(cat, month, year, 1)))
    ensures var q := ServerQuery(D.FetchParams(cat, month, year, 1));
      var params := D.FetchParams(cat, month, year, i + 1);
      && Pageable(q)
      && EC.WellFormedQuery(ServerQuery(params)) && EC.ValidPaging(ServerQuery(params))
      && Answer(records, caller, params) == EC.Window(AllMatches(records, caller, q), i * D.PageSize, D.PageSize)
  {
    var q := ServerQuery(D.FetchParams(cat, month, year, 1));
    QueryReadBack(cat, month, year, 1);
    PagesShareQuery(cat, month, year, i + 1);
    assert EC.PageLimit(q) == D.PageSize;
    PageIsWindow(records, caller, q, i);
  }

  /** A first page of a query with a positive limit is its first window. */
  lemma FirstWindow(records: seq<EC.Expense>, caller: Id, q: EC.ListQuery)
    requires Pageable(q) && q.page == Some(1)
    ensures EC.ValidPaging(q) && EC.StartIndex(q) == 0
    ensures EC.GetExpenses(records, caller, q).value == EC.Window(AllMatches(records, caller, q), 0, q.limit.value)
  {
    assert EC.PageNumber(q) == 1 && EC.PageLimit(q) == q.limit.value;
    assert EC.StartIndex(q) == 0;
  }

  /** The endpoint's answer to page 1 of the dashboard's filters is the
      first window of the matches. */
  lemma FirstAnswer(records: seq<EC.Expense>, caller: Id, cat: string, month: string, year: string)
    requires EC.WellFormedQuery(ServerQuery(D.FetchParams(cat, month, year, 1)))
    ensures var q := ServerQuery(D.FetchParams(cat, month, year, 1));
      && Pageable(q) && EC.ValidPaging(q)
      && Answer(records, caller, D.FetchParams(cat, month, year, 1)) == EC.Window(AllMatches(records, caller, q), 0, D.PageSize)
  {
    var q := ServerQuery(D.FetchParams(cat, month, year, 1));
    QueryReadBack(cat, month, year, 1);
    FirstWindow(records, caller, q);
  }

  /** The refresh, answered by the list endpoint, shows the first page. */
  method FirstPage(d: D.DashboardState, records: seq<EC.Expense>, caller: Id)
    requires EC.WellFormedQuery(FirstQuery(d))
    modifies d
    ensures FirstQuery(d) == old(FirstQuery(d)) && Pageable(FirstQuery(d))
    ensures ShowsPages(d, records, caller, FirstQuery(d), 1)
  {
    var cat, month, year := d.filterCategory, d.filterMonth, d.filterYear;
    FirstAnswer(records, caller, cat, month, year);
    var data := Answer(records, caller, D.FetchParams(cat, month, year, 1));
    var params := d.Refresh(data);
    assert d.filterCategory == cat && d.filterMonth == month && d.filterYear == year;
  }

  /** Load more, answered by the list endpoint, shows one page more. */
  method NextPage(d: D.DashboardState, records: seq<EC.Expense>, caller: Id, i: nat)
    requires EC.WellFormedQuery(FirstQuery(d)) && Pageable(FirstQuery(d))
    requires ShowsPages(d, records, caller, FirstQuery(d), i)
    modifies d
    ensures FirstQuery(d) == old(FirstQuery(d))
    ensures ShowsPages(d, records, caller, FirstQuery(d), i + 1)
  {
    ghost var all := AllMatches(records, caller, FirstQuery(d));
    AnswerIsWindow(records, caller, d.filterCategory, d.filterMonth, d.filterYear, i);
    WindowsJoin(all, i * D.PageSize, D.PageSize);
    var data := Answer(records, caller, D.FetchParams(d.filterCategory, d.filterMonth, d.filterYear, i + 1));
    var params := d.LoadMore(data);
  }

  /** The dashboard refreshed and then asked for more `n - 1` times, each
      request answered by the list endpoint: it holds the first `n` pages of
      the matches, in order, and once it expects no more it holds them all. */
  method Browse(d: D.DashboardState, records: seq<EC.Expense>, caller: Id, n: nat)
    requires n >= 1
    requires EC.WellFormedQuery(FirstQuery(d))
    modifies d
    ensures FirstQuery(d) == old(FirstQuery(d)) && Pageable(FirstQuery(d))
    ensures d.page == n
    ensures d.expenses == EC.Window(AllMatches(records, caller, FirstQuery(d)), 0, n * D.PageSize)
    ensures !d.hasMore ==> d.expenses == AllMatches(records, caller, FirstQuery(d))
  {
    FirstPage(d, records, caller);
    ghost var q := FirstQuery(d);
    var i := 1;
    while i < n
      invariant 1 <= i <= n
      invariant FirstQuery(d) == q
      invariant ShowsPages(d, records, caller, q, i)
    {
      NextPage(d, records, caller, i);
      i := i + 1;
    }
    if !d.hasMore {
      ShortWindowEnds(AllMatches(records, caller, q), (n - 1) * D.PageSize, D.PageSize);
    }
  }
}
