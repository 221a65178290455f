/** The expense controller: the list query (`getExpenses`), the summary
    aggregate (`getExpenseSummary`) and the owner-scoped create, update and
    delete operations over a mutable expense collection (`setExpense`,
    `updateExpense`, `deleteExpense`). Dates are milliseconds since the
    epoch; amounts are integers. */
module ExpenseController {

  import opened Common
  import opened Calendar

  /** A stored expense document. */
  datatype Expense = Expense(id: Id, title: string, amount: int, category: string, date: int, userId: Id)

  predicate UniqueIds(s: seq<Expense>) {
    forall i, j :: 0 <= i < j < |s| ==> s[i].id != s[j].id
  }

  predicate NoDuplicates(s: seq<Expense>) {
    forall i, j :: 0 <= i < j < |s| ==> s[i] != s[j]
  }

  // ===== the store's filter: the `match` object of getExpenses =====

  datatype DateRange = DateRange(gte: int, lte: int)

  /** `{ userId, category?, date: { $gte, $lte }? }` */
  datatype Match = Match(userId: Id, category: Option<string>, date: Option<DateRange>)

  /** How the store applies a match object to one document. */
  predicate Matches(m: Match, e: Expense) {
    && e.userId == m.userId
    && (m.category.Some? ==> e.category == m.category.value)
    && (m.date.Some? ==> m.date.value.gte <= e.date <= m.date.value.lte)
  }

  /** The match on owner alone, as the summary's `$match` stage uses it. */
  function OwnerMatch(owner: Id): Match {
    Match(owner, None, None)
  }

  /** The documents that satisfy `m`, in storage order. */
  function Select(records: seq<Expense>, m: Match): (r: seq<Expense>)
    ensures forall e :: e in r <==> e in records && Matches(m, e)
    ensures |r| <= |records|
  {
    if records == [] then []
    else (if Matches(m, records[0]) then [records[0]] else []) + Select(records[1..], m)
  }

  /** The documents owned by `owner`, in storage order. */
  function Owned(records: seq<Expense>, owner: Id): seq<Expense> {
    Select(records, OwnerMatch(owner))
  }

  lemma {:induction false} SelectAppend(records: seq<Expense>, e: Expense, m: Match)
    ensures Select(records + [e], m) == Select(records, m) + (if Matches(m, e) then [e] else [])
  {
    if records == [] {
      assert [e][1..] == [];
    } else {
      assert (records + [e])[1..] == records[1..] + [e];
      SelectAppend(records[1..], e, m);
    }
  }

  lemma {:induction false} SelectKeepsDistinct(records: seq<Expense>, m: Match)
    requires NoDuplicates(records)
    ensures NoDuplicates(Select(records, m))
  {
    if records != [] {
      SelectKeepsDistinct(records[1..], m);
      assert records[0] !in records[1..];
    }
  }

  lemma UniqueIdsDistinct(s: seq<Expense>)
    requires UniqueIds(s)
    ensures NoDuplicates(s)
  {}

  // ===== the query string =====

  /** The query of `GET /api/expenses` as the controller reads it: the
      category string ("" when absent), the year and month when their query
      values are non-empty (already read by `parseInt`), and the `parseInt`
      results of page and limit (None standing for NaN). */
  datatype ListQuery = ListQuery(category: string, year: Option<int>, month: Option<int>, page: Option<int>, limit: Option<int>)

  /** The month, when it is used at all, is a calendar month. */
  predicate WellFormedQuery(q: ListQuery) {
    q.year.Some? && q.month.Some? ==> 1 <= q.month.value <= 12
  }

  /** `parseInt(x) || d`: NaN and 0 fall back to the default. */
  function OrDefault(n: Option<int>, d: int): int {
    match n
    case None => d
    case Some(v) => if v != 0 then v else d
  }

  function PageNumber(q: ListQuery): int { OrDefault(q.page, 1) }

  function PageLimit(q: ListQuery): int { OrDefault(q.limit, 10) }

  /** Paging the store accepts: a non-negative skip and a positive limit. */
  predicate ValidPaging(q: ListQuery) {
    PageNumber(q) >= 1 && PageLimit(q) >= 1
  }

  /** The date bounds for a year, or a year and 1-based month: `new
      Date(year, month, 1)` (the omitted time of day being midnight, 0) to `new Date(year, month + 1, 0, 23, 59, 59, 999)`
      with the 0-based month, or `new Date(year, 0, 1)` to `new Date(year, 11,
      31, 23, 59, 59, 999)`. The local time zone is taken to be UTC. */
  function DateBounds(year: int, month: Option<int>): DateRange
    requires month.Some? ==> 1 <= month.value <= 12
  {
    var y := FullYear(year);
    match month
    case Some(mo) =>
      var m := mo - 1;
      DateRange(MakeDate(MakeDay(y, m, 1), 0),
                MakeDate(MakeDay(y, m + 1, 0), MakeTime(23, 59, 59, 999)))
    case None =>
      DateRange(MakeDate(MakeDay(y, 0, 1), 0),
                MakeDate(MakeDay(y, 11, 31), MakeTime(23, 59, 59, 999)))
  }

  /** The match object built field by field from the caller and the query. */
  function BuildMatch(caller: Id, q: ListQuery): Match
    requires WellFormedQuery(q)
  {
    Match(caller,
          if q.category != "" then Some(q.category) else None,
          if q.year.Some? then Some(DateBounds(q.year.value, q.month)) else None)
  }

  /** The bounds for a year and month are that civil month's first and last instant. */
  lemma DateBoundsMonth(year: int, m: int)
    requires 1 <= m <= 12
    ensures DateBounds(year, Some(m)) == DateRange(MonthStart(FullYear(year), m), MonthLast(FullYear(year), m))
  {
    MonthQueryStart(FullYear(year), m);
    MonthQueryEnd(FullYear(year), m);
  }

  /** The bounds for a year alone run from that civil year's first instant
      to the last one before the next year. */
  lemma DateBoundsYear(year: int)
    ensures DateBounds(year, None) == DateRange(YearStart(FullYear(year)), YearStart(FullYear(year) + 1) - 1)
  {
    YearQueryStart(FullYear(year));
    YearQueryEnd(FullYear(year));
  }

  /** For a year and month, the built date condition holds exactly for the
      instants of that civil month. */
  lemma DateConditionMonth(year: int, m: int, t: int)
    requires 1 <= m <= 12
    ensures DateBounds(year, Some(m)).gte <= t <= DateBounds(year, Some(m)).lte <==> InMonth(t, FullYear(year), m)
  {
    MonthQueryStart(FullYear(year), m);
    MonthQueryEnd(FullYear(year), m);
    MonthBounds(t, FullYear(year), m);
  }

  /** For a year alone, it holds exactly for the instants of that civil year. */
  lemma DateConditionYear(year: int, t: int)
    ensures DateBounds(year, None).gte <= t <= DateBounds(year, None).lte <==> InYear(t, FullYear(year))
  {
    YearQueryStart(FullYear(year));
    YearQueryEnd(FullYear(year));
  }

  /** What the built match means, stated over the civil calendar: the
      caller's records; with a non-empty category only that exact category;
      with a year and month only instants of that month (its last day found
      correctly, December staying in its year), with a year alone only
      instants of that year; a year from 0 to 99 reads as 1900 onwards. */
  lemma MatchMeaning(caller: Id, q: ListQuery, e: Expense)
    requires WellFormedQuery(q)
    ensures Matches(BuildMatch(caller, q), e) <==>
      && e.userId == caller
      && (q.category != "" ==> e.category == q.category)
      && (q.year.Some? && q.month.Some? ==> InMonth(e.date, FullYear(q.year.value), q.month.value))
      && (q.year.Some? && q.month.None? ==> InYear(e.date, FullYear(q.year.value)))
  {
    if q.year.Some? && q.month.Some? {
      DateConditionMonth(q.year.value, q.month.value, e.date);
    } else if q.year.Some? {
      DateConditionYear(q.year.value, e.date);
    }
  }

  /** A month given without a year has no effect on the match. */
  lemma MonthIgnoredWithoutYear(caller: Id, q: ListQuery, month: Option<int>)
    requires q.year.None?
    ensures BuildMatch(caller, q.(month := month)) == BuildMatch(caller, q)
  {}

  // ===== sort by date, newest first =====

  predicate NewestFirst(s: seq<Expense>) {
    forall i, j :: 0 <= i < j < |s| ==> s[i].date >= s[j].date
  }

  /** Inserts `x` before the first element that is strictly older. */
  function InsertByDate(x: Expense, s: seq<Expense>): (r: seq<Expense>)
    ensures |r| == |s| + 1
    ensures multiset(r) == multiset(s) + multiset{x}
  {
    if s == [] || x.date >= s[0].date then [x] + s
    else
      assert s == [s[0]] + s[1..];
      [s[0]] + InsertByDate(x, s[1..])
  }

  /** Insertion into a newest-first sequence keeps it newest first; the new
      head is the inserted record or the old head. */
  lemma {:induction false} InsertSorted(x: Expense, s: seq<Expense>)
    requires NewestFirst(s)
    ensures NewestFirst(InsertByDate(x, s))
    ensures InsertByDate(x, s)[0] == x || (s != [] && InsertByDate(x, s)[0] == s[0])
  {
    if !(s == [] || x.date >= s[0].date) {
      var t := InsertByDate(x, s[1..]);
      InsertSorted(x, s[1..]);
      assert t[0].date <= s[0].date;
      assert InsertByDate(x, s) == [s[0]] + t;
    }
  }

  /** `.sort({ date: -1 })`, as an insertion sort from the back. */
  function SortNewestFirst(s: seq<Expense>): (r: seq<Expense>)
    ensures multiset(r) == multiset(s)
    ensures |r| == |s|
  {
    if s == [] then []
    else
      assert s == [s[0]] + s[1..];
      InsertByDate(s[0], SortNewestFirst(s[1..]))
  }

  /** The sort's output is newest first. */
  lemma {:induction false} SortSorted(s: seq<Expense>)
    ensures NewestFirst(SortNewestFirst(s))
  {
    if s != [] {
      SortSorted(s[1..]);
      InsertSorted(s[0], SortNewestFirst(s[1..]));
    }
  }

  /** Sorting keeps exactly the records it was given. */
  lemma SortedMembers(s: seq<Expense>)
    ensures forall e :: e in SortNewestFirst(s) <==> e in s
  {
    var r := SortNewestFirst(s);
    forall e ensures e in r <==> e in s {
      assert e in r <==> e in multiset(r);
      assert e in s <==> e in multiset(s);
    }
  }

  /** Sorting a sequence without repeated elements repeats none. */
  lemma SortKeepsDistinct(s: seq<Expense>)
    requires NoDuplicates(s)
    ensures NoDuplicates(SortNewestFirst(s))
  {
    var r := SortNewestFirst(s);
    forall i, j | 0 <= i < j < |r| ensures r[i] != r[j] {
      if r[i] == r[j] {
        DuplicateCount(r, i, j);
        assert multiset(s)[r[i]] >= 2;
        DistinctCount(s, r[i]);
      }
    }
  }

  /** Two positions holding the same element make it occur twice. */
  lemma DuplicateCount(r: seq<Expense>, i: nat, j: nat)
    requires i < j < |r| && r[i] == r[j]
    ensures multiset(r)[r[i]] >= 2
  {
    assert r == r[..i] + [r[i]] + r[i + 1..j] + [r[j]] + r[j + 1..];
  }

  /** In a sequence without repeats every element occurs at most once. */
  lemma {:induction false} DistinctCount(s: seq<Expense>, e: Expense)
    requires NoDuplicates(s)
    ensures multiset(s)[e] <= 1
  {
    if s != [] {
      assert s == [s[0]] + s[1..];
      DistinctCount(s[1..], e);
      if s[0] == e {
        assert e !in s[1..];
      }
    }
  }

  // ===== find, skip, limit =====

  /** `find(m).sort({ date: -1 })`: the records matching `m`, newest first. */
  function FindNewestFirst(records: seq<Expense>, m: Match): (r: seq<Expense>)
    ensures forall e :: e in r <==> e in records && Matches(m, e)
    ensures NewestFirst(r)
    ensures |r| == |Select(records, m)|
  {
    var sel := Select(records, m);
    SortSorted(sel);
    SortedMembers(sel);
    SortNewestFirst(sel)
  }

  function Min(a: int, b: int): int { if a <= b then a else b }

  /** `.skip(skip).limit(limit)`: the elements from position `skip` on, at most `limit` of them. */
  function Window(s: seq<Expense>, skip: nat, limit: nat): (r: seq<Expense>)
    ensures |r| == Min(limit, if skip <= |s| then |s| - skip else 0)
    ensures forall k :: 0 <= k < |r| ==> skip + k < |s| && r[k] == s[skip + k]
  {
    s[Min(skip, |s|)..Min(skip + limit, |s|)]
  }

  /** A window of a newest-first sequence is newest first and holds only its elements. */
  lemma WindowOfSorted(s: seq<Expense>, skip: nat, limit: nat)
    requires NewestFirst(s)
    ensures NewestFirst(Window(s, skip, limit))
    ensures forall e :: e in Window(s, skip, limit) ==> e in s
  {
    var r := Window(s, skip, limit);
    forall i, j | 0 <= i < j < |r| ensures r[i].date >= r[j].date {
      assert r[i] == s[skip + i] && r[j] == s[skip + j];
    }
  }

  /** Adjacent windows of a sequence without repeats share no element. */
  lemma AdjacentWindowsDisjoint(s: seq<Expense>, skip: nat, limit: nat)
    requires NoDuplicates(s)
    ensures forall e :: e in Window(s, skip, limit) ==> e !in Window(s, skip + limit, limit)
  {
    var w1 := Window(s, skip, limit);
    var w2 := Window(s, skip + limit, limit);
    forall e | e in w1 ensures e !in w2 {
      var i :| 0 <= i < |w1| && w1[i] == e;
      assert w1[i] == s[skip + i];
    }
  }

  /** A window shorter than the limit reaches the end: the next one is empty. */
  lemma ShortWindowIsLast(s: seq<Expense>, skip: nat, limit: nat)
    requires |Window(s, skip, limit)| < limit
    ensures Window(s, skip + limit, limit) == []
  {}

  /** Every position lies in one of the blocks [n * limit, n * limit + limit). */
  lemma {:induction false} BlockOf(k: nat, limit: nat) returns (n: nat)
    requires limit >= 1
    ensures n * limit <= k < n * limit + limit
    decreases k
  {
    if k < limit {
      n := 0;
    } else {
      var m := BlockOf(k - limit, limit);
      n := m + 1;
      assert n * limit == m * limit + limit;
    }
  }

  /** Windows of `limit` elements starting at multiples of `limit` cover the
      sequence: `e` is in the window starting at `n * limit`. */
  lemma WindowsCover(s: seq<Expense>, limit: nat, e: Expense) returns (n: nat)
    requires limit >= 1 && e in s
    ensures e in Window(s, n * limit, limit)
  {
    var k :| 0 <= k < |s| && s[k] == e;
    n := BlockOf(k, limit);
    var skip := n * limit;
    assert Window(s, skip, limit)[k - skip] == e;
  }

  // ===== getExpenses =====

  function StartIndex(q: ListQuery): nat
    requires ValidPaging(q)
  {
    (PageNumber(q) - 1) * PageLimit(q)
  }

  /** `getExpenses`: the caller's matching records newest first, the page
      starting at (page - 1) * limit; always status 200. */
  function GetExpenses(records: seq<Expense>, caller: Id, q: ListQuery): (r: Reply<seq<Expense>>)
    requires WellFormedQuery(q) && ValidPaging(q)
    ensures r.Success? && r.status == 200
    ensures |r.value| <= PageLimit(q)
    ensures NewestFirst(r.value)
    ensures forall e :: e in r.value ==> e in records && Matches(BuildMatch(caller, q), e)
    ensures var all := FindNewestFirst(records, BuildMatch(caller, q));
      |r.value| == Min(PageLimit(q), if StartIndex(q) <= |all| then |all| - StartIndex(q) else 0)
    ensures var all := FindNewestFirst(records, BuildMatch(caller, q));
      forall k :: 0 <= k < |r.value| ==> StartIndex(q) + k < |all| && r.value[k] == all[StartIndex(q) + k]
  {
    var all := FindNewestFirst(records, BuildMatch(caller, q));
    WindowOfSorted(all, StartIndex(q), PageLimit(q));
    Success(200, Window(all, StartIndex(q), PageLimit(q)))
  }

  /** Every record the list returns is the caller's, and of the asked category. */
  lemma ListedAreCallers(records: seq<Expense>, caller: Id, q: ListQuery, e: Expense)
    requires WellFormedQuery(q) && ValidPaging(q)
    requires e in GetExpenses(records, caller, q).value
    ensures e.userId == caller
    ensures q.category != "" ==> e.category == q.category
  {}

  function NextPage(q: ListQuery): ListQuery
    requires ValidPaging(q)
  {
    q.(page := Some(PageNumber(q) + 1))
  }

  lemma NextStart(q: ListQuery)
    requires ValidPaging(q)
    ensures ValidPaging(NextPage(q))
    ensures StartIndex(NextPage(q)) == StartIndex(q) + PageLimit(q)
  {
    var p, l := PageNumber(q), PageLimit(q);
    assert PageNumber(NextPage(q)) == p + 1;
    assert p * l == (p - 1) * l + l;
  }

  /** Consecutive pages share no record (the store's ids are unique). */
  lemma ConsecutivePagesDisjoint(records: seq<Expense>, caller: Id, q: ListQuery)
    requires UniqueIds(records)
    requires WellFormedQuery(q) && ValidPaging(q)
    ensures forall e :: e in GetExpenses(records, caller, q).value ==> e !in GetExpenses(records, caller, NextPage(q)).value
  {
    var m := BuildMatch(caller, q);
    UniqueIdsDistinct(records);
    SelectKeepsDistinct(records, m);
    SortKeepsDistinct(Select(records, m));
    NextStart(q);
    AdjacentWindowsDisjoint(FindNewestFirst(records, m), StartIndex(q), PageLimit(q));
  }

  /** A page that comes back short is the last: the next one is empty. */
  lemma ShortPageIsLast(records: seq<Expense>, caller: Id, q: ListQuery)
    requires WellFormedQuery(q) && ValidPaging(q)
    requires |GetExpenses(records, caller, q).value| < PageLimit(q)
    ensures GetExpenses(records, caller, NextPage(q)).value == []
  {
    NextStart(q);
    ShortWindowIsLast(FindNewestFirst(records, BuildMatch(caller, q)), StartIndex(q), PageLimit(q));
  }

  /** The same query asking for page `p`. */
  function WithPage(q: ListQuery, p: int): ListQuery {
    q.(page := Some(p))
  }

  /** Page n + 1 starts after n full pages, the limit being the one asked
      for or the default of 10. */
  lemma PageStart(q: ListQuery, n: nat)
    requires PageLimit(q) >= 1
    ensures ValidPaging(WithPage(q, n + 1)) && PageLimit(WithPage(q, n + 1)) == PageLimit(q)
    ensures StartIndex(WithPage(q, n + 1)) == n * PageLimit(q)
  {
    assert PageNumber(WithPage(q, n + 1)) == n + 1;
  }

  /** Every matching record is on some page of the same query, whether
      its limit is given or the default. */
  lemma EveryMatchIsPaged(records: seq<Expense>, caller: Id, q: ListQuery, e: Expense)
    requires WellFormedQuery(q) && PageLimit(q) >= 1
    requires e in records && Matches(BuildMatch(caller, q), e)
    ensures exists p :: p >= 1 && e in GetExpenses(records, caller, WithPage(q, p)).value
  {
    var all := FindNewestFirst(records, BuildMatch(caller, q));
    var n := WindowsCover(all, PageLimit(q), e);
    PageStart(q, n);
    assert BuildMatch(caller, WithPage(q, n + 1)) == BuildMatch(caller, q);
    assert e in GetExpenses(records, caller, WithPage(q, n + 1)).value;
  }

  // ===== getExpenseSummary =====

  datatype Summary = Summary(totalAmount: int, expenseCount: nat)

  /** The sum of the amounts, accumulated left to right. */
  function SumAmounts(s: seq<Expense>): int {
    if s == [] then 0 else SumAmounts(s[..|s| - 1]) + s[|s| - 1].amount
  }

  lemma {:induction false} SumAmountsCons(e: Expense, s: seq<Expense>)
    ensures SumAmounts([e] + s) == e.amount + SumAmounts(s)
    decreases |s|
  {
    if s != [] {
      assert ([e] + s)[..|[e] + s| - 1] == [e] + s[..|s| - 1];
      SumAmountsCons(e, s[..|s| - 1]);
    }
  }

  lemma {:induction false} SumAmountsConcat(a: seq<Expense>, b: seq<Expense>)
    ensures SumAmounts(a + b) == SumAmounts(a) + SumAmounts(b)
    decreases |b|
  {
    if b == [] {
      assert a + b == a;
    } else {
      assert (a + b)[..|a + b| - 1] == a + b[..|b| - 1];
      assert (a + b)[|a + b| - 1] == b[|b| - 1];
      SumAmountsConcat(a, b[..|b| - 1]);
    }
  }

  /** The store's `{ $group: { _id: null, totalAmount: { $sum: '$amount' },
      expenseCount: { $sum: 1 } } }` stage: no group at all for no input,
      otherwise a single group. */
  function GroupAll(docs: seq<Expense>): (g: seq<Summary>)
    ensures |g| == if docs == [] then 0 else 1
  {
    if docs == [] then []
    else
      var rest := GroupAll(docs[1..]);
      if rest == [] then [Summary(docs[0].amount, 1)]
      else [Summary(docs[0].amount + rest[0].totalAmount, rest[0].expenseCount + 1)]
  }

  lemma {:induction false} GroupAllTotals(docs: seq<Expense>)
    requires docs != []
    ensures GroupAll(docs) == [Summary(SumAmounts(docs), |docs|)]
  {
    assert docs == [docs[0]] + docs[1..];
    SumAmountsCons(docs[0], docs[1..]);
    if docs[1..] != [] {
      GroupAllTotals(docs[1..]);
    }
  }

  /** `getExpenseSummary`: the aggregate over all the caller's records,
      whatever list filters are in use; {0, 0} (still a success) when there
      are none. */
  function GetExpenseSummary(records: seq<Expense>, caller: Id): (r: Reply<Summary>)
    ensures r.Success? && r.status == 200
    ensures r.value.totalAmount == SumAmounts(Owned(records, caller))
    ensures r.value.expenseCount == |Owned(records, caller)|
  {
    var summary := GroupAll(Select(records, OwnerMatch(caller)));
    if |summary| == 0 then Success(200, Summary(0, 0))
    else
      GroupAllTotals(Select(records, OwnerMatch(caller)));
      Success(200, Summary(summary[0].totalAmount, summary[0].expenseCount))
  }

  /** A new record changes its owner's summary by its amount and one, and no other user's. */
  lemma SummaryAfterAppend(records: seq<Expense>, e: Expense, owner: Id)
    ensures GetExpenseSummary(records + [e], owner).value ==
      var s := GetExpenseSummary(records, owner).value;
      if e.userId == owner then Summary(s.totalAmount + e.amount, s.expenseCount + 1) else s
  {
    SelectAppend(records, e, OwnerMatch(owner));
    var before := Owned(records, owner);
    if e.userId == owner {
      assert Owned(records + [e], owner) == before + [e];
      SumAmountsConcat(before, [e]);
      assert [e][..0] == [];
      assert SumAmounts([e]) == e.amount;
    } else {
      assert Owned(records + [e], owner) == before;
    }
  }

  lemma {:induction false} SelectNarrower(records: seq<Expense>, m: Match)
    ensures |Select(records, m)| <= |Owned(records, m.userId)|
  {
    if records != [] {
      SelectNarrower(records[1..], m);
    }
  }

  /** No page of the list holds more records than the summary counts. */
  lemma PageWithinSummary(records: seq<Expense>, caller: Id, q: ListQuery)
    requires WellFormedQuery(q) && ValidPaging(q)
    ensures |GetExpenses(records, caller, q).value| <= GetExpenseSummary(records, caller).value.expenseCount
  {
    SelectNarrower(records, BuildMatch(caller, q));
  }

  // ===== create, update, delete =====

  /** The body of `POST /api/expenses`: title and category ("" when absent),
      the amount (None when absent), the date (None when absent or empty) and
      whatever owner the client put in the body. */
  datatype ExpenseBody = ExpenseBody(title: string, amount: Option<int>, category: string, date: Option<int>, userId: Option<Id>)

  /** `title && amount && category`: all three present and truthy (an amount of 0 is falsy). */
  predicate RequiredPresent(b: ExpenseBody) {
    b.title != "" && b.amount.Some? && b.amount.value != 0 && b.category != ""
  }

  /** The record `Expense.create` stores: the owner is the caller, the date
      defaults to the store's clock. */
  function NewExpense(id: Id, caller: Id, b: ExpenseBody, now: int): (e: Expense)
    requires RequiredPresent(b)
  {
    Expense(id, b.title, b.amount.value, b.category, b.date.GetOr(now), caller)
  }

  /** The owner of a created record is the caller whatever owner the body names. */
  lemma CreatedOwnerIsCaller(id: Id, caller: Id, b: ExpenseBody, now: int)
    requires RequiredPresent(b)
    ensures NewExpense(id, caller, b, now).userId == caller
    ensures b.date.None? ==> NewExpense(id, caller, b, now).date == now
    ensures b.date.Some? ==> NewExpense(id, caller, b, now).date == b.date.value
  {}

  /** The body of `PUT /api/expenses/:id`, handed to the store unfiltered:
      every field present in it is written, the owner included. */
  datatype ExpensePatch = ExpensePatch(title: Option<string>, amount: Option<int>, category: Option<string>, date: Option<int>, userId: Option<Id>)

  function ApplyPatch(e: Expense, p: ExpensePatch): Expense {
    Expense(e.id, p.title.GetOr(e.title), p.amount.GetOr(e.amount), p.category.GetOr(e.category),
            p.date.GetOr(e.date), p.userId.GetOr(e.userId))
  }

  /** `Expense.findById(id)`: the position of the record with that id. */
  function FindIndex(records: seq<Expense>, id: Id): (r: Option<nat>)
    ensures r.Some? ==> r.value < |records| && records[r.value].id == id
    ensures r.None? <==> forall k :: 0 <= k < |records| ==> records[k].id != id
  {
    FindById(records, (e: Expense) => e.id, id)
  }

  /** The collection without the record at `i`. */
  function RemoveAt(records: seq<Expense>, i: nat): seq<Expense>
    requires i < |records|
  {
    records[..i] + records[i + 1..]
  }

  /** Removing the record with a unique id keeps every other record and only those. */
  lemma RemoveAtContents(records: seq<Expense>, i: nat)
    requires UniqueIds(records) && i < |records|
    ensures forall e :: e in RemoveAt(records, i) <==> e in records && e.id != records[i].id
    ensures |RemoveAt(records, i)| == |records| - 1
  {
    var r := RemoveAt(records, i);
    forall e | e in records && e.id != records[i].id ensures e in r {
      var k :| 0 <= k < |records| && records[k] == e;
      if k < i { assert r[k] == e; } else { assert r[k - 1] == e; }
    }
  }

  /** Removing one user's record leaves every other user's records as they were. */
  lemma {:induction false} RemoveAtIsolated(records: seq<Expense>, i: nat, other: Id)
    requires i < |records| && records[i].userId != other
    ensures Owned(RemoveAt(records, i), other) == Owned(records, other)
  {
    if i > 0 {
      assert RemoveAt(records, i) == [records[0]] + RemoveAt(records[1..], i - 1);
      RemoveAtIsolated(records[1..], i - 1, other);
    } else {
      assert RemoveAt(records, 0) == records[1..];
    }
  }

  /** Removing a record keeps the remaining ids unique and below any bound they were below. */
  lemma RemoveAtKeepsIds(records: seq<Expense>, i: nat, bound: Id)
    requires UniqueIds(records) && i < |records|
    requires forall k :: 0 <= k < |records| ==> records[k].id < bound
    ensures UniqueIds(RemoveAt(records, i))
    ensures forall k :: 0 <= k < |RemoveAt(records, i)| ==> RemoveAt(records, i)[k].id < bound
  {
    var r := RemoveAt(records, i);
    assert forall k :: 0 <= k < |r| ==> r[k] == records[if k < i then k else k + 1];
  }

  /** The other users' records are untouched by removing one user's record. */
  lemma RemoveAtIsolatedAll(records: seq<Expense>, i: nat)
    requires i < |records|
    ensures forall other :: other != records[i].userId ==> Owned(RemoveAt(records, i), other) == Owned(records, other)
  {
    forall other | other != records[i].userId
      ensures Owned(RemoveAt(records, i), other) == Owned(records, other)
    {
      RemoveAtIsolated(records, i, other);
    }
  }

  datatype Deleted = Deleted(id: Id, message: string)

  class ExpenseStore {
    /** The collection in storage order. */
    var records: seq<Expense>
    /** The next fresh document id. */
    var nextId: Id

    ghost predicate Valid()
      reads this
    {
      UniqueIds(records) && forall k :: 0 <= k < |records| ==> records[k].id < nextId
    }

    constructor ()
      ensures Valid() && records == []
    {
      records := [];
      nextId := 0;
    }

    /** `setExpense` */
    method SetExpense(caller: Id, body: ExpenseBody, now: int) returns (reply: Reply<Expense>)
      requires Valid()
      modifies this
      ensures Valid()
      ensures !RequiredPresent(body) ==>
        reply == Failure(400, "Please add all required fields") && records == old(records)
      ensures RequiredPresent(body) ==>
        && reply == Success(201, NewExpense(old(nextId), caller, body, now))
        && records == old(records) + [reply.value]
        && forall k :: 0 <= k < |old(records)| ==> old(records)[k].id != reply.value.id
    {
      if !RequiredPresent(body) {
        return Failure(400, "Please add all required fields");
      }
      var e := NewExpense(nextId, caller, body, now);
      records := records + [e];
      nextId := nextId + 1;
      reply := Success(201, e);
    }

    /** `updateExpense`: not found beats not authorised; only the owner's
        request writes, and it writes the patch into that one record. */
    method UpdateExpense(reqUser: Option<Id>, id: Id, patch: ExpensePatch) returns (reply: Reply<Expense>)
      requires Valid()
      modifies this
      ensures Valid()
      ensures FindIndex(old(records), id).None? ==>
        reply == Failure(404, "Expense not found") && records == old(records)
      ensures FindIndex(old(records), id).Some? && reqUser.None? ==>
        reply == Failure(401, "User not found") && records == old(records)
      ensures FindIndex(old(records), id).Some? && reqUser.Some? &&
              old(records)[FindIndex(old(records), id).value].userId != reqUser.value ==>
        reply == Failure(401, "User not authorized") && records == old(records)
      ensures reply.Success? ==>
        var i := FindIndex(old(records), id).value;
        && reqUser.Some? && old(records)[i].userId == reqUser.value
        && records == old(records)[i := ApplyPatch(old(records)[i], patch)]
        && reply == Success(200, records[i])
      ensures FindIndex(old(records), id).Some? && reqUser.Some? &&
              old(records)[FindIndex(old(records), id).value].userId == reqUser.value ==>
        reply.Success?
      ensures nextId == old(nextId)
    {
      var found := FindIndex(records, id);
      if found.None? {
        return Failure(404, "Expense not found");
      }
      var i := found.value;
      if reqUser.None? {
        return Failure(401, "User not found");
      }
      if records[i].userId != reqUser.value {
        return Failure(401, "User not authorized");
      }
      records := records[i := ApplyPatch(records[i], patch)];
      reply := Success(200, records[i]);
    }

    /** `deleteExpense`: the same not-found and ownership checks, then the
        owner's record is removed and nothing else. */
    method DeleteExpense(reqUser: Option<Id>, id: Id) returns (reply: Reply<Deleted>)
      requires Valid()
      modifies this
      ensures Valid()
      ensures FindIndex(old(records), id).None? ==>
        reply == Failure(404, "Expense not found") && records == old(records)
      ensures FindIndex(old(records), id).Some? && reqUser.None? ==>
        reply == Failure(401, "User not found") && records == old(records)
      ensures FindIndex(old(records), id).Some? && reqUser.Some? &&
              old(records)[FindIndex(old(records), id).value].userId != reqUser.value ==>
        reply == Failure(401, "User not authorized") && records == old(records)
      ensures reply.Success? ==>
        var i := FindIndex(old(records), id).value;
        && reqUser.Some? && old(records)[i].userId == reqUser.value
        && records == RemoveAt(old(records), i)
        && reply == Success(200, Deleted(id, "Expense deleted"))
        && (forall e :: e in records <==> e in old(records) && e.id != id)
        && (forall other :: other != reqUser.value ==> Owned(records, other) == Owned(old(records), other))
      ensures FindIndex(old(records), id).Some? && reqUser.Some? &&
              old(records)[FindIndex(old(records), id).value].userId == reqUser.value ==>
        reply.Success?
      ensures nextId == old(nextId)
    {
      var found := FindIndex(records, id);
      if found.None? {
        return Failure(404, "Expense not found");
      }
      var i := found.value;
      if reqUser.None? {
        return Failure(401, "User not found");
      }
      if records[i].userId != reqUser.value {
        return Failure(401, "User not authorized");
      }
      RemoveAtContents(records, i);
      RemoveAtIsolatedAll(records, i);
      RemoveAtKeepsIds(records, i, nextId);
      records := RemoveAt(records, i);
      reply := Success(200, Deleted(id, "Expense deleted"));
    }
  }
}
