/** The dashboard's list logic, without the rendering: the query each fetch
    sends, how a fetched page replaces or extends the list held in the page's
    state, the local edits after a create, delete or update, the search and
    quick filters over the held list, the per-category totals for the chart,
    and the rows of the CSV export. */
module Dashboard {

  import opened Common
  import opened Strings
  import opened ExpenseController

  /** The select boxes' "no restriction" value. */
  const All := "All"

  /** The page size the dashboard asks for. */
  const PageSize: nat := 10

  const MsPerDay := 86400000

  // ===== the query of fetchExpenses =====

  datatype Key = CategoryKey | MonthKey | YearKey | PageKey | LimitKey

  /** The name a key carries in the query string. */
  function KeyName(k: Key): string {
    match k
    case CategoryKey => "category"
    case MonthKey => "month"
    case YearKey => "year"
    case PageKey => "page"
    case LimitKey => "limit"
  }

  datatype Param = Param(key: Key, value: string)

  /** `params.get(key)`: the first value appended under `key`. */
  function GetParam(params: seq<Param>, key: Key): (r: Option<string>)
    ensures r.Some? ==>
      exists k :: 0 <= k < |params| && params[k] == Param(key, r.value) &&
        forall j :: 0 <= j < k ==> params[j].key != key
    ensures r.None? <==> forall k :: 0 <= k < |params| ==> params[k].key != key
  {
    if params == [] then None
    else if params[0].key == key then Some(params[0].value)
    else GetParam(params[1..], key)
  }

  /** A filter is sent only when it is not "All". */
  function FilterParam(key: Key, value: string): seq<Param> {
    if value != All then [Param(key, value)] else []
  }

  /** Looking a key up past a filter parameter. */
  lemma GetPastFilter(k: Key, v: string, rest: seq<Param>, key: Key)
    ensures GetParam(FilterParam(k, v) + rest, key) ==
      if k == key && v != All then Some(v) else GetParam(rest, key)
  {
    if v != All {
      assert (FilterParam(k, v) + rest)[1..] == rest;
    } else {
      assert FilterParam(k, v) + rest == rest;
    }
  }

  /** The parameters `fetchExpenses(pageNumber)` appends, in order. */
  function FetchParams(category: string, month: string, year: string, pageNumber: nat): seq<Param> {
    FilterParam(CategoryKey, category) + (FilterParam(MonthKey, month) + (FilterParam(YearKey, year)
      + [Param(PageKey, NatToDecimal(pageNumber)), Param(LimitKey, NatToDecimal(PageSize))]))
  }

  /** The value a fetch sends under each key: a filter exactly when it is not
      "All", the page number, and a limit of 10. */
  function Sent(category: string, month: string, year: string, pageNumber: nat, key: Key): Option<string> {
    match key
    case CategoryKey => if category != All then Some(category) else None
    case MonthKey => if month != All then Some(month) else None
    case YearKey => if year != All then Some(year) else None
    case PageKey => Some(NatToDecimal(pageNumber))
    case LimitKey => Some(NatToDecimal(PageSize))
  }

  /** What the server reads back from the fetch under each key. */
  lemma FetchParamsValues(category: string, month: string, year: string, pageNumber: nat, key: Key)
    ensures GetParam(FetchParams(category, month, year, pageNumber), key) == Sent(category, month, year, pageNumber, key)
  {
    var tail := [Param(PageKey, NatToDecimal(pageNumber)), Param(LimitKey, NatToDecimal(PageSize))];
    var y := FilterParam(YearKey, year) + tail;
    var m := FilterParam(MonthKey, month) + y;
    GetPastFilter(CategoryKey, category, m, key);
    GetPastFilter(MonthKey, month, y, key);
    GetPastFilter(YearKey, year, tail, key);
    assert tail[1..] == [tail[1]];
  }

  /** No key is sent twice. */
  lemma FetchParamsDistinct(category: string, month: string, year: string, pageNumber: nat)
    ensures var ps := FetchParams(category, month, year, pageNumber);
      forall i, j :: 0 <= i < j < |ps| ==> ps[i].key != ps[j].key
  {}

  // ===== the list edits and filters =====

  /** `r` is `s` with some elements left out, the rest in their order. */
  predicate SubsequenceOf(r: seq<Expense>, s: seq<Expense>)
    decreases |s|
  {
    if r == [] then true
    else if s == [] then false
    else if r[0] == s[0] then SubsequenceOf(r[1..], s[1..])
    else SubsequenceOf(r, s[1..])
  }

  /** The quick-filter buttons. */
  datatype Quick = AllTime | ThisWeek | ThisMonth | ThisYear

  /** The two filters the dashboard applies to its list: removal of an id
      after a delete, and the search/quick filter at time `now`. */
  datatype Criterion = IdIsNot(id: Id) | Search(query: string, quick: Quick, now: int)

  /** Whether an expense passes a criterion: the title contains the query
      regardless of case, and under 'This Week' the date is at most seven days
      before `now`. */
  predicate Holds(c: Criterion, e: Expense) {
    match c
    case IdIsNot(id) => e.id != id
    case Search(query, quick, now) =>
      Includes(ToLowerAscii(e.title), ToLowerAscii(query))
      && (quick == ThisWeek ==> e.date >= now - 7 * MsPerDay)
  }

  /** `s.filter(...)`: the elements passing the criterion, in their order and
      with their multiplicities; nothing is dropped when every element passes. */
  function Keep(s: seq<Expense>, c: Criterion): (r: seq<Expense>)
    ensures SubsequenceOf(r, s)
    ensures forall e :: multiset(r)[e] == if Holds(c, e) then multiset(s)[e] else 0
    ensures forall e :: e in r <==> e in s && Holds(c, e)
    ensures (forall k :: 0 <= k < |s| ==> Holds(c, s[k])) ==> r == s
  {
    if s == [] then []
    else
      var rest := Keep(s[1..], c);
      assert s == [s[0]] + s[1..];
      if Holds(c, s[0]) then
        assert ([s[0]] + rest)[1..] == rest;
        [s[0]] + rest
      else rest
  }

  /** The list after `handleDelete(id)`. */
  function WithoutId(s: seq<Expense>, id: Id): seq<Expense> {
    Keep(s, IdIsNot(id))
  }

  lemma UniqueTail(s: seq<Expense>)
    requires UniqueIds(s) && s != []
    ensures UniqueIds(s[1..])
    ensures forall k :: 0 <= k < |s[1..]| ==> s[1..][k].id != s[0].id
  {
    forall a, b | 0 <= a < b < |s[1..]| ensures s[1..][a].id != s[1..][b].id {
      assert s[1..][a] == s[a + 1] && s[1..][b] == s[b + 1];
    }
    forall k | 0 <= k < |s[1..]| ensures s[1..][k].id != s[0].id {
      assert s[1..][k] == s[k + 1];
    }
  }

  /** With unique ids, dropping the first record's id leaves the rest. */
  lemma DropFirstId(s: seq<Expense>)
    requires UniqueIds(s) && s != []
    ensures WithoutId(s, s[0].id) == s[1..]
  {
    UniqueTail(s);
    var c := IdIsNot(s[0].id);
    assert forall k :: 0 <= k < |s[1..]| ==> Holds(c, s[1..][k]);
    assert Keep(s[1..], c) == s[1..];
    assert !Holds(c, s[0]);
  }

  /** A first element that passes heads the filtered list. */
  lemma KeepHead(s: seq<Expense>, c: Criterion)
    requires s != [] && Holds(c, s[0])
    ensures Keep(s, c) == [s[0]] + Keep(s[1..], c)
  {}

  /** Removing a later record keeps the first one in front. */
  lemma RemoveLater(s: seq<Expense>, i: nat)
    requires 0 < i < |s|
    ensures RemoveAt(s, i) == [s[0]] + RemoveAt(s[1..], i - 1)
  {
    assert s[1..][..i - 1] == s[1..i];
    assert s[1..][i..] == s[i + 1..];
    assert [s[0]] + (s[1..i] + s[i + 1..]) == s[..i] + s[i + 1..];
  }

  /** With unique ids, dropping an id removes exactly the one record holding
      it: the same list the server's delete leaves. */
  lemma {:induction false} WithoutUniqueId(s: seq<Expense>, i: nat)
    requires UniqueIds(s) && i < |s|
    ensures WithoutId(s, s[i].id) == RemoveAt(s, i)
    decreases |s|
  {
    if i == 0 {
      assert s[..0] + s[1..] == s[1..];
      DropFirstId(s);
    } else {
      var id := s[i].id;
      assert s[1..][i - 1] == s[i];
      RemoveLater(s, i);
      assert s[0].id != id;
      UniqueTail(s);
      WithoutUniqueId(s[1..], i - 1);
      KeepHead(s, IdIsNot(id));
    }
  }

  /** The list after `handleUpdateExpense` received `d`: every element with
      `d`'s id replaced by `d`. */
  function Replaced(s: seq<Expense>, d: Expense): seq<Expense> {
    seq(|s|, k requires 0 <= k < |s| => if s[k].id == d.id then d else s[k])
  }

  /** With unique ids, the update rewrites just the one record with that id,
      in place, and the ids stay unique. */
  lemma ReplacedInPlace(s: seq<Expense>, i: nat, d: Expense)
    requires UniqueIds(s) && i < |s| && s[i].id == d.id
    ensures Replaced(s, d) == s[i := d]
    ensures UniqueIds(Replaced(s, d))
  {
    assert forall k :: 0 <= k < |s| && k != i ==> s[k].id != d.id;
  }

  /** An id that is not in the list leaves it as it was. */
  lemma ReplacedAbsent(s: seq<Expense>, d: Expense)
    requires forall k :: 0 <= k < |s| ==> s[k].id != d.id
    ensures Replaced(s, d) == s
  {}

  /** `filteredExpenses`. */
  function Filtered(s: seq<Expense>, query: string, quick: Quick, now: int): seq<Expense> {
    Keep(s, Search(query, quick, now))
  }

  /** With no search text and no week filter the whole list is shown. */
  lemma FilteredEverything(s: seq<Expense>, quick: Quick, now: int)
    requires quick != ThisWeek
    ensures Filtered(s, "", quick, now) == s
  {
    forall k | 0 <= k < |s| ensures Holds(Search("", quick, now), s[k]) {
      IncludesEmpty(ToLowerAscii(s[k].title));
    }
  }

  lemma LowerTwice(s: string)
    ensures ToLowerAscii(ToLowerAscii(s)) == ToLowerAscii(s)
  {}

  lemma {:induction false} KeepSame(s: seq<Expense>, c1: Criterion, c2: Criterion)
    requires forall e :: Holds(c1, e) == Holds(c2, e)
    ensures Keep(s, c1) == Keep(s, c2)
    decreases |s|
  {
    if s != [] {
      KeepSame(s[1..], c1, c2);
    }
  }

  /** The search does not depend on the case of the query. */
  lemma SearchIgnoresCase(s: seq<Expense>, query: string, quick: Quick, now: int)
    ensures Filtered(s, query, quick, now) == Filtered(s, ToLowerAscii(query), quick, now)
  {
    LowerTwice(query);
    KeepSame(s, Search(query, quick, now), Search(ToLowerAscii(query), quick, now));
  }

  /** Under 'This Week', an expense dated a week or less before `now` is shown
      exactly when the title matches; an older one never is. */
  lemma WeekFilter(s: seq<Expense>, query: string, now: int, e: Expense)
    requires e in s
    ensures e.date >= now - 7 * MsPerDay ==>
      (e in Filtered(s, query, ThisWeek, now) <==> Includes(ToLowerAscii(e.title), ToLowerAscii(query)))
    ensures e.date < now - 7 * MsPerDay ==> e !in Filtered(s, query, ThisWeek, now)
  {}

  // ===== categoryData =====

  /** The categories of a list, each once, in order of first appearance. */
  function Categories(s: seq<Expense>): (r: seq<string>)
    ensures forall i, j :: 0 <= i < j < |r| ==> r[i] != r[j]
    ensures forall k :: 0 <= k < |s| ==> s[k].category in r
    ensures forall n :: n in r ==> exists k :: 0 <= k < |s| && s[k].category == n
  {
    if s == [] then []
    else
      var c := Categories(s[..|s| - 1]);
      var last := s[|s| - 1];
      assert forall k :: 0 <= k < |s| - 1 ==> s[..|s| - 1][k] == s[k];
      if last.category in c then c else c + [last.category]
  }

  /** The sum of the amounts of the expenses of one category. */
  function CategorySum(s: seq<Expense>, name: string): int {
    if s == [] then 0
    else CategorySum(s[..|s| - 1], name) + (if s[|s| - 1].category == name then s[|s| - 1].amount else 0)
  }

  /** A pie slice `{ name, value }`. */
  datatype Slice = Slice(name: string, value: int)

  /** The chart data the reduce is meant to build: one slice per category,
      in order of first appearance, worth that category's total. */
  function CategorySlices(s: seq<Expense>): (r: seq<Slice>) {
    var names := Categories(s);
    seq(|names|, k requires 0 <= k < |names| => Slice(names[k], CategorySum(s, names[k])))
  }

  lemma CategoriesSnoc(s: seq<Expense>, e: Expense)
    ensures Categories(s + [e]) == if e.category in Categories(s) then Categories(s) else Categories(s) + [e.category]
    ensures forall n :: CategorySum(s + [e], n) == CategorySum(s, n) + (if e.category == n then e.amount else 0)
  {
    assert (s + [e])[..|s + [e]| - 1] == s;
  }

  /** A new expense of a category already charted adds its amount to that
      slice and to no other. */
  lemma SlicesGrow(s: seq<Expense>, e: Expense, j: nat)
    requires j < |CategorySlices(s)| && CategorySlices(s)[j].name == e.category
    ensures CategorySlices(s + [e]) == CategorySlices(s)[j := Slice(e.category, CategorySlices(s)[j].value + e.amount)]
  {
    CategoriesSnoc(s, e);
  }

  /** A new expense of a category not yet charted appends a slice for it. */
  lemma SlicesExtend(s: seq<Expense>, e: Expense)
    requires forall j :: 0 <= j < |CategorySlices(s)| ==> CategorySlices(s)[j].name != e.category
    ensures CategorySlices(s + [e]) == CategorySlices(s) + [Slice(e.category, e.amount)]
  {
    var names := Categories(s);
    assert forall j :: 0 <= j < |names| ==> CategorySlices(s)[j].name == names[j];
    assert e.category !in names;
    AbsentCategorySum(s, e.category);
    CategoriesSnoc(s, e);
    var before, after := CategorySlices(s), CategorySlices(s + [e]);
    assert Categories(s + [e]) == names + [e.category];
    assert |after| == |before| + 1;
    forall k | 0 <= k < |before| ensures after[k] == before[k] {
      assert names[k] != e.category;
    }
    assert after[|before|] == Slice(e.category, e.amount);
  }

  /** `categoryData`: the reduce over the filtered list, which looks the
      category up among the slices so far and either adds the amount to that
      slice or appends a new one. */
  method CategoryData(s: seq<Expense>) returns (acc: seq<Slice>)
    ensures acc == CategorySlices(s)
  {
    acc := [];
    var i := 0;
    while i < |s|
      invariant 0 <= i <= |s|
      invariant acc == CategorySlices(s[..i])
    {
      var curr := s[i];
      var j := 0;
      while j < |acc| && acc[j].name != curr.category
        invariant 0 <= j <= |acc|
        invariant forall k :: 0 <= k < j ==> acc[k].name != curr.category
      {
        j := j + 1;
      }
      assert s[..i + 1] == s[..i] + [curr];
      if j < |acc| {
        SlicesGrow(s[..i], curr, j);
        acc := acc[j := Slice(acc[j].name, acc[j].value + curr.amount)];
      } else {
        SlicesExtend(s[..i], curr);
        acc := acc + [Slice(curr.category, curr.amount)];
      }
      i := i + 1;
    }
    assert s[..i] == s;
  }

  /** A category absent from a list contributes nothing. */
  lemma {:induction false} AbsentCategorySum(s: seq<Expense>, name: string)
    requires name !in Categories(s)
    ensures CategorySum(s, name) == 0
    decreases |s|
  {
    if s != [] {
      AbsentCategorySum(s[..|s| - 1], name);
    }
  }

  /** The sum of category totals over a list of names. */
  function SumOver(s: seq<Expense>, names: seq<string>): int {
    if names == [] then 0 else SumOver(s, names[..|names| - 1]) + CategorySum(s, names[|names| - 1])
  }

  /** Adding one expense raises the total over distinct names by its amount
      when its category is among them, and leaves it otherwise. */
  lemma {:induction false} SumOverSnoc(s: seq<Expense>, e: Expense, names: seq<string>)
    requires forall i, j :: 0 <= i < j < |names| ==> names[i] != names[j]
    ensures SumOver(s + [e], names) == SumOver(s, names) + (if e.category in names then e.amount else 0)
    decreases |names|
  {
    if names != [] {
      var init := names[..|names| - 1];
      assert (s + [e])[..|s + [e]| - 1] == s;
      SumOverSnoc(s, e, init);
      assert e.category in names <==> e.category in init || e.category == names[|names| - 1];
    }
  }

  /** The slices add up to the total of the list (`totalExpenses`). */
  lemma {:induction false} CategoriesAddUp(s: seq<Expense>)
    ensures SumOver(s, Categories(s)) == SumAmounts(s)
    decreases |s|
  {
    if s != [] {
      var init, last := s[..|s| - 1], s[|s| - 1];
      assert s == init + [last];
      CategoriesAddUp(init);
      SumOverSnoc(init, last, Categories(init));
      if last.category !in Categories(init) {
        var names := Categories(init) + [last.category];
        assert names[..|names| - 1] == Categories(init);
        AbsentCategorySum(init, last.category);
      }
    }
  }

  /** The sum of the slices' values. */
  function SliceTotal(slices: seq<Slice>): int {
    if slices == [] then 0 else SliceTotal(slices[..|slices| - 1]) + slices[|slices| - 1].value
  }

  lemma {:induction false} SliceTotalOver(s: seq<Expense>, names: seq<string>)
    ensures SliceTotal(seq(|names|, k requires 0 <= k < |names| => Slice(names[k], CategorySum(s, names[k])))) == SumOver(s, names)
    decreases |names|
  {
    if names != [] {
      var init := names[..|names| - 1];
      var sl := seq(|names|, k requires 0 <= k < |names| => Slice(names[k], CategorySum(s, names[k])));
      assert sl[..|sl| - 1] == seq(|init|, k requires 0 <= k < |init| => Slice(init[k], CategorySum(s, init[k])));
      SliceTotalOver(s, init);
    }
  }

  /** The chart's values add up to the total shown above it. */
  lemma SlicesAddUp(s: seq<Expense>)
    ensures SliceTotal(CategorySlices(s)) == SumAmounts(s)
  {
    SliceTotalOver(s, Categories(s));
    CategoriesAddUp(s);
  }

  /** More expenses never reorder or drop a slice: the categories of a list
      are a prefix of those of any extension of it. */
  lemma {:induction false} CategoriesPrefix(s: seq<Expense>, t: seq<Expense>)
    ensures Categories(s) <= Categories(s + t)
    decreases |t|
  {
    if t == [] {
      assert s + t == s;
    } else {
      var init := t[..|t| - 1];
      assert (s + t)[..|s + t| - 1] == s + init;
      CategoriesPrefix(s, init);
    }
  }

  // ===== exportToCSV =====

  const CsvHeader := "Title,Category,Amount,Date"

  /** `title.replace(/"/g, '""')`: every quote doubled. */
  function Escape(t: string): (r: string)
    ensures forall c :: c != '"' ==> (c in r <==> c in t)
  {
    if t == [] then []
    else (if t[0] == '"' then "\"\"" else [t[0]]) + Escape(t[1..])
  }

  /** The quoted title field. */
  function Quote(t: string): string {
    "\"" + Escape(t) + "\""
  }

  /** Reads the body of a quoted field up to its closing quote, a doubled
      quote standing for one quote (section 2 of RFC 4180): the text and what
      follows the closing quote. */
  function ReadQuoted(s: string): Option<(string, string)>
    decreases |s|
  {
    if s == [] then None
    else if s[0] == '"' then
      if |s| >= 2 && s[1] == '"' then
        match ReadQuoted(s[2..])
        case None => None
        case Some(p) => Some(("\"" + p.0, p.1))
      else Some(("", s[1..]))
    else
      match ReadQuoted(s[1..])
      case None => None
      case Some(p) => Some(([s[0]] + p.0, p.1))
  }

  /** A field that opens with a quote, read back. */
  function ReadField(s: string): Option<(string, string)> {
    if s != [] && s[0] == '"' then ReadQuoted(s[1..]) else None
  }

  lemma {:induction false} ReadEscaped(t: string, rest: string)
    requires rest == [] || rest[0] != '"'
    ensures ReadQuoted(Escape(t) + "\"" + rest) == Some((t, rest))
    decreases |t|
  {
    if t == [] {
      assert Escape(t) + "\"" + rest == "\"" + rest;
    } else {
      ReadEscaped(t[1..], rest);
      var tail := Escape(t[1..]) + "\"" + rest;
      if t[0] == '"' {
        assert Escape(t) + "\"" + rest == "\"\"" + tail;
        assert ("\"\"" + tail)[2..] == tail;
        assert "\"" + t[1..] == t;
      } else {
        assert Escape(t) + "\"" + rest == [t[0]] + tail;
        assert ([t[0]] + tail)[1..] == tail;
        assert [t[0]] + t[1..] == t;
      }
    }
  }

  /** The quoted field reads back as the original title, commas, quotes and
      all, leaving what follows it. */
  lemma QuoteRoundTrip(t: string, rest: string)
    requires rest == [] || rest[0] != '"'
    ensures ReadField(Quote(t) + rest) == Some((t, rest))
  {
    ReadEscaped(t, rest);
    assert Quote(t) + rest == "\"" + (Escape(t) + "\"" + rest);
  }

  /** One CSV row; `formatDate` stands for `toLocaleDateString`. */
  function Row(e: Expense, formatDate: int -> string): string {
    Quote(e.title) + "," + e.category + "," + IntToDecimal(e.amount) + "," + formatDate(e.date)
  }

  /** The row's first field is the title, whatever characters it holds. */
  lemma RowTitle(e: Expense, formatDate: int -> string)
    ensures ReadField(Row(e, formatDate)) == Some((e.title, "," + e.category + "," + IntToDecimal(e.amount) + "," + formatDate(e.date)))
  {
    var rest := "," + e.category + "," + IntToDecimal(e.amount) + "," + formatDate(e.date);
    assert Row(e, formatDate) == Quote(e.title) + rest;
    QuoteRoundTrip(e.title, rest);
  }

  /** The header followed by one row per expense. */
  function CsvLines(s: seq<Expense>, formatDate: int -> string): (r: seq<string>) {
    [CsvHeader] + seq(|s|, k requires 0 <= k < |s| => Row(s[k], formatDate))
  }

  /** `exportToCSV`'s text: nothing for an empty list, otherwise the header
      and the rows, pushed one by one and joined by newlines. */
  method ExportCsv(s: seq<Expense>, formatDate: int -> string) returns (csv: Option<string>)
    ensures csv.None? <==> s == []
    ensures csv.Some? ==> csv.value == Join(CsvLines(s, formatDate), '\n')
  {
    if |s| == 0 {
      return None;
    }
    var rows := [CsvHeader];
    var i := 0;
    while i < |s|
      invariant 0 <= i <= |s|
      invariant |rows| == i + 1 && rows[0] == CsvHeader
      invariant forall k :: 0 <= k < i ==> rows[k + 1] == Row(s[k], formatDate)
    {
      rows := rows + [Row(s[i], formatDate)];
      i := i + 1;
    }
    assert rows == CsvLines(s, formatDate);
    csv := Some(Join(rows, '\n'));
  }

  /** With no newline in any title, category or date, the text splits back
      into exactly the header and one line per expense. */
  lemma CsvLinesRoundTrip(s: seq<Expense>, formatDate: int -> string)
    requires forall k :: 0 <= k < |s| ==>
      '\n' !in s[k].title && '\n' !in s[k].category && '\n' !in formatDate(s[k].date)
    ensures Split(Join(CsvLines(s, formatDate), '\n'), '\n') == CsvLines(s, formatDate)
    ensures |Split(Join(CsvLines(s, formatDate), '\n'), '\n')| == |s| + 1
  {
    var lines := CsvLines(s, formatDate);
    assert '\n' !in CsvHeader;
    forall k | 0 <= k < |lines| ensures '\n' !in lines[k] {
      if k > 0 {
        var e := s[k - 1];
        assert lines[k] == Row(e, formatDate);
        assert '\n' !in Escape(e.title);
        assert '\n' !in IntToDecimal(e.amount);
      }
    }
    SplitJoin(lines, '\n');
  }

  // ===== the dashboard's state =====

  /** The dashboard's state: the list held, the filters, and the paging. */
  class DashboardState {
    var expenses: seq<Expense>
    var filterCategory: string
    var filterMonth: string
    var filterYear: string
    var searchQuery: string
    var quickFilter: Quick
    var page: nat
    var hasMore: bool

    ghost predicate Valid()
      reads this
    {
      page >= 1
    }

    /** The initial state in year `currentYear`. */
    constructor (currentYear: int)
      ensures Valid()
      ensures expenses == [] && page == 1 && hasMore
      ensures filterCategory == All && filterMonth == All && filterYear == IntToDecimal(currentYear)
      ensures searchQuery == "" && quickFilter == AllTime
    {
      expenses := [];
      filterCategory := All;
      filterMonth := All;
      filterYear := IntToDecimal(currentYear);
      searchQuery := "";
      quickFilter := AllTime;
      page := 1;
      hasMore := true;
    }

    /** The end of `fetchExpenses(pageNumber)` once `data` came back: page 1
        replaces the list, a later page is appended after it; more is
        expected exactly when a full page came back. */
    method ReceivePage(pageNumber: nat, data: seq<Expense>)
      modifies this
      ensures expenses == (if pageNumber == 1 then data else old(expenses) + data)
      ensures hasMore == (|data| == PageSize)
      ensures page == old(page) && filterCategory == old(filterCategory) && filterMonth == old(filterMonth)
      ensures filterYear == old(filterYear) && searchQuery == old(searchQuery) && quickFilter == old(quickFilter)
    {
      if pageNumber == 1 {
        expenses := data;
      } else {
        expenses := expenses + data;
      }
      hasMore := |data| == PageSize;
    }

    /** The effect run when a filter changes: back to page 1, whose request
        is `params` and whose answer `data` replaces the list. */
    method Refresh(data: seq<Expense>) returns (params: seq<Param>)
      modifies this
      ensures Valid()
      ensures params == FetchParams(filterCategory, filterMonth, filterYear, 1)
      ensures page == 1 && expenses == data && hasMore == (|data| == PageSize)
      ensures filterCategory == old(filterCategory) && filterMonth == old(filterMonth)
      ensures filterYear == old(filterYear) && searchQuery == old(searchQuery) && quickFilter == old(quickFilter)
    {
      page := 1;
      params := FetchParams(filterCategory, filterMonth, filterYear, 1);
      ReceivePage(1, data);
    }

    /** `handleLoadMore`: the next page is requested with `params` and its
        answer `data` is appended. */
    method LoadMore(data: seq<Expense>) returns (params: seq<Param>)
      requires Valid()
      modifies this
      ensures Valid()
      ensures page == old(page) + 1
      ensures params == FetchParams(filterCategory, filterMonth, filterYear, page)
      ensures expenses == old(expenses) + data && hasMore == (|data| == PageSize)
      ensures filterCategory == old(filterCategory) && filterMonth == old(filterMonth)
      ensures filterYear == old(filterYear) && searchQuery == old(searchQuery) && quickFilter == old(quickFilter)
    {
      page := page + 1;
      params := FetchParams(filterCategory, filterMonth, filterYear, page);
      ReceivePage(page, data);
    }

    /** `handleAddExpense` once the server returned `created`: it goes first. */
    method AddExpense(created: Expense)
      modifies this
      ensures expenses == [created] + old(expenses)
      ensures page == old(page) && hasMore == old(hasMore)
      ensures filterCategory == old(filterCategory) && filterMonth == old(filterMonth)
      ensures filterYear == old(filterYear) && searchQuery == old(searchQuery) && quickFilter == old(quickFilter)
    {
      expenses := [created] + expenses;
    }

    /** `handleDelete(id)` once the server confirmed. */
    method DeleteExpense(id: Id)
      modifies this
      ensures expenses == WithoutId(old(expenses), id)
      ensures page == old(page) && hasMore == old(hasMore)
      ensures filterCategory == old(filterCategory) && filterMonth == old(filterMonth)
      ensures filterYear == old(filterYear) && searchQuery == old(searchQuery) && quickFilter == old(quickFilter)
    {
      expenses := WithoutId(expenses, id);
    }

    /** `handleUpdateExpense` once the server returned `data`. */
    method UpdateExpense(data: Expense)
      modifies this
      ensures expenses == Replaced(old(expenses), data)
      ensures page == old(page) && hasMore == old(hasMore)
      ensures filterCategory == old(filterCategory) && filterMonth == old(filterMonth)
      ensures filterYear == old(filterYear) && searchQuery == old(searchQuery) && quickFilter == old(quickFilter)
    {
      expenses := Replaced(expenses, data);
    }

    /** `applyQuickFilter(type)` at a clock reading of 0-based month
        `nowMonth` of year `nowYear`: 'This Month' selects that month and
        year, 'This Year' the whole year, and 'This Week' and 'All' lift both
        date filters (the week itself is applied by `Filtered`). */
    method ApplyQuickFilter(t: Quick, nowMonth: int, nowYear: int)
      modifies this
      ensures quickFilter == t
      ensures t == ThisMonth ==> filterMonth == IntToDecimal(nowMonth + 1) && filterYear == IntToDecimal(nowYear)
      ensures t == ThisYear ==> filterMonth == All && filterYear == IntToDecimal(nowYear)
      ensures t == ThisWeek || t == AllTime ==> filterMonth == All && filterYear == All
      ensures expenses == old(expenses) && filterCategory == old(filterCategory) && searchQuery == old(searchQuery)
      ensures page == old(page) && hasMore == old(hasMore)
    {
      quickFilter := t;
      if t == ThisMonth {
        filterMonth := IntToDecimal(nowMonth + 1);
        filterYear := IntToDecimal(nowYear);
      } else if t == ThisYear {
        filterMonth := All;
        filterYear := IntToDecimal(nowYear);
      } else if t == ThisWeek || t == AllTime {
        filterMonth := All;
        filterYear := All;
      }
    }
  }
}
