/** The dashboard's derived views: the sorted set of dates, the totals, the
    per-category slices, and the per-date and per-month series of actual
    against forecast amounts. */
module Dashboard {
  import opened Records
  import opened Seqs
  import opened Amounts
  import Backend

  // ---------------------------------------------------------------- dates

  predicate DatesStrictlySorted(ds: seq<Date>)
  {
    forall i, j :: 0 <= i < j < |ds| ==> DateLt(ds[i], ds[j])
  }

  /** Adds `d` to a strictly sorted list of dates unless it is there already. */
  function InsertDate(sorted: seq<Date>, d: Date): (r: seq<Date>)
    requires DatesStrictlySorted(sorted)
    ensures DatesStrictlySorted(r)
    ensures forall x :: x in r <==> x in sorted || x == d
  {
    if sorted == [] then [d]
    else if d == sorted[0] then sorted
    else if DateLt(d, sorted[0]) then [d] + sorted
    else
      var rest := InsertDate(sorted[1..], d);
      forall j | 0 <= j < |rest| ensures DateLt(sorted[0], rest[j]) {
        assert rest[j] in rest;
        if rest[j] != d {
          var k :| 1 <= k < |sorted| && sorted[k] == rest[j];
        }
      }
      [sorted[0]] + rest
  }

  /** The dates of `ds` without repeats, sorted ascending. */
  function SortedSet(ds: seq<Date>): (r: seq<Date>)
    ensures DatesStrictlySorted(r)
    ensures forall x :: x in r <==> x in ds
  {
    if ds == [] then []
    else InsertDate(SortedSet(ds[..|ds| - 1]), ds[|ds| - 1])
  }

  /** The dates of the expenses followed by those of the forecasts. */
  function AllDates(expenses: seq<Expense>, forecasts: seq<Forecast>): seq<Date>
  {
    seq(|expenses|, i requires 0 <= i < |expenses| => expenses[i].date)
    + seq(|forecasts|, i requires 0 <= i < |forecasts| => forecasts[i].date)
  }

  /** `uniqueDates`: strictly ascending, so free of duplicates, and holding
      exactly the dates that occur in the expenses or the forecasts. */
  function UniqueDates(expenses: seq<Expense>, forecasts: seq<Forecast>): (r: seq<Date>)
    ensures DatesStrictlySorted(r)
    ensures forall d :: d in r <==> HasKey(expenses, DateOf, d) || HasKey(forecasts, DateOf, d)
  {
    var all := AllDates(expenses, forecasts);
    var r := SortedSet(all);
    forall d ensures d in all <==> HasKey(expenses, DateOf, d) || HasKey(forecasts, DateOf, d) {
      if d in all {
        var k :| 0 <= k < |all| && all[k] == d;
        if k < |expenses| {
          assert DateOf(expenses[k]) == d;
        } else {
          assert DateOf(forecasts[k - |expenses|]) == d;
        }
      }
      if HasKey(expenses, DateOf, d) {
        var k :| 0 <= k < |expenses| && DateOf(expenses[k]) == d;
        assert all[k] == d;
      }
      if HasKey(forecasts, DateOf, d) {
        var k :| 0 <= k < |forecasts| && DateOf(forecasts[k]) == d;
        assert all[|expenses| + k] == d;
      }
    }
    r
  }

  // ------------------------------------------------------------ categories

  /** One slice of the category chart: `{ name, value, forecast }`. */
  datatype CategorySlice = CategorySlice(name: string, value: int, forecast: int)

  /** The slice of one category: the sums of the expenses and of the
      forecasts whose `category` is that category's id. */
  function Slice(cat: Category, expenses: seq<Expense>, forecasts: seq<Forecast>): CategorySlice
  {
    CategorySlice(cat.name,
      Sum(Select(expenses, CategoryOf, Some(cat.id))),
      Sum(Select(forecasts, CategoryOf, Some(cat.id))))
  }

  /** One slice per category, in category order. */
  function Slices(cats: seq<Category>, expenses: seq<Expense>, forecasts: seq<Forecast>): (r: seq<CategorySlice>)
    ensures |r| == |cats|
    ensures forall i :: 0 <= i < |cats| ==> r[i] == Slice(cats[i], expenses, forecasts)
  {
    seq(|cats|, i requires 0 <= i < |cats| => Slice(cats[i], expenses, forecasts))
  }

  /** A slice is drawn when its actual or its forecast sum is positive. */
  predicate IsShown(s: CategorySlice)
  {
    s.value > 0 || s.forecast > 0
  }

  /** `byCategory`: the slices of the categories whose actual or forecast sum
      is positive, and no others; a shown slice occurs once for each category
      that has it (two categories may share a name and sums), a hidden one
      never. */
  function ByCategory(cats: seq<Category>, expenses: seq<Expense>, forecasts: seq<Forecast>): (r: seq<CategorySlice>)
    ensures |r| <= |cats|
    ensures forall s :: s in r ==> IsShown(s) && exists i :: 0 <= i < |cats| && s == Slice(cats[i], expenses, forecasts)
    ensures forall i :: 0 <= i < |cats| && IsShown(Slice(cats[i], expenses, forecasts)) ==>
      Slice(cats[i], expenses, forecasts) in r
    ensures forall s :: multiset(r)[s] == if IsShown(s) then multiset(Slices(cats, expenses, forecasts))[s] else 0
  {
    var all := Slices(cats, expenses, forecasts);
    var r := Filter(all, IsShown);
    assert forall i :: 0 <= i < |cats| ==> all[i] in all;
    r
  }

  /** The slices come in the order of the categories. */
  lemma ByCategoryFollowsCategoryOrder(cats: seq<Category>, expenses: seq<Expense>, forecasts: seq<Forecast>)
    ensures IsSubsequence(ByCategory(cats, expenses, forecasts), Slices(cats, expenses, forecasts))
  {
    FilterIsSubsequence(Slices(cats, expenses, forecasts), IsShown);
  }

  /** An expense without a category (null after a category delete, or NaN),
      or with an id no category has, changes no slice. */
  lemma UnmatchedExpenseIgnored(cats: seq<Category>, expenses: seq<Expense>, forecasts: seq<Forecast>, e: Expense)
    requires forall i :: 0 <= i < |cats| ==> e.category != Some(cats[i].id)
    ensures ByCategory(cats, expenses + [e], forecasts) == ByCategory(cats, expenses, forecasts)
  {
    assert Slices(cats, expenses + [e], forecasts) == Slices(cats, expenses, forecasts) by {
      forall i | 0 <= i < |cats|
        ensures Slice(cats[i], expenses + [e], forecasts) == Slice(cats[i], expenses, forecasts)
      {
        var all := expenses + [e];
        assert all[..|all| - 1] == expenses && all[|all| - 1] == e;
        assert Select(all, CategoryOf, Some(cats[i].id)) == Select(expenses, CategoryOf, Some(cats[i].id)) + [];
        assert Select(all, CategoryOf, Some(cats[i].id)) == Select(expenses, CategoryOf, Some(cats[i].id));
      }
    }
  }

  /** A forecast without a category, or with an id no category has, changes
      no slice either. */
  lemma UnmatchedForecastIgnored(cats: seq<Category>, expenses: seq<Expense>, forecasts: seq<Forecast>, f: Forecast)
    requires forall i :: 0 <= i < |cats| ==> f.category != Some(cats[i].id)
    ensures ByCategory(cats, expenses, forecasts + [f]) == ByCategory(cats, expenses, forecasts)
  {
    assert Slices(cats, expenses, forecasts + [f]) == Slices(cats, expenses, forecasts) by {
      forall i | 0 <= i < |cats|
        ensures Slice(cats[i], expenses, forecasts + [f]) == Slice(cats[i], expenses, forecasts)
      {
        var all := forecasts + [f];
        assert all[..|all| - 1] == forecasts && all[|all| - 1] == f;
        assert Select(all, CategoryOf, Some(cats[i].id)) == Select(forecasts, CategoryOf, Some(cats[i].id)) + [];
        assert Select(all, CategoryOf, Some(cats[i].id)) == Select(forecasts, CategoryOf, Some(cats[i].id));
      }
    }
  }

  /** An expense of category `c` adds its amount to the actual sum of `c`. */
  lemma MatchingExpenseCounted(c: Category, expenses: seq<Expense>, forecasts: seq<Forecast>, e: Expense)
    requires e.category == Some(c.id)
    ensures Slice(c, expenses + [e], forecasts).value == Slice(c, expenses, forecasts).value + e.amount
  {
    var all := expenses + [e];
    assert all[..|all| - 1] == expenses && all[|all| - 1] == e;
    assert Select(all, CategoryOf, Some(c.id)) == Select(expenses, CategoryOf, Some(c.id)) + [e];
    SumAppend(Select(expenses, CategoryOf, Some(c.id)), e);
  }

  /** A category delete leaves the expenses of every other category as they
      were (those without a category gain the expenses of the deleted one). */
  lemma {:induction false} UncategorizeKeepsOtherCategories(expenses: seq<Expense>, id: int, k: Option<int>)
    requires k.Some? && k != Some(id)
    ensures Select(Backend.Uncategorize(expenses, id), CategoryOf, k) == Select(expenses, CategoryOf, k)
  {
    if expenses != [] {
      var n := |expenses|;
      var r := Backend.Uncategorize(expenses, id);
      assert r[..n - 1] == Backend.Uncategorize(expenses[..n - 1], id);
      UncategorizeKeepsOtherCategories(expenses[..n - 1], id, k);
      assert CategoryOf(r[n - 1]) == k <==> CategoryOf(expenses[n - 1]) == k;
    }
  }

  /** A category delete keeps the total of the expenses. */
  lemma {:induction false} UncategorizeKeepsTotal(expenses: seq<Expense>, id: int)
    ensures Sum(Backend.Uncategorize(expenses, id)) == Sum(expenses)
  {
    if expenses != [] {
      var n := |expenses|;
      var r := Backend.Uncategorize(expenses, id);
      assert r[..n - 1] == Backend.Uncategorize(expenses[..n - 1], id);
      UncategorizeKeepsTotal(expenses[..n - 1], id);
    }
  }

  /** After a category delete the slice of every other category is unchanged. */
  lemma DeleteCategoryKeepsOtherSlices(c: Category, expenses: seq<Expense>, forecasts: seq<Forecast>, id: int)
    requires c.id != id
    ensures Slice(c, Backend.Uncategorize(expenses, id), forecasts) == Slice(c, expenses, forecasts)
  {
    UncategorizeKeepsOtherCategories(expenses, id, Some(c.id));
  }

  // -------------------------------------------------- date and month series

  /** A point of the date or month chart: `{ date | month, actual, forecast }`. */
  datatype Point<K> = Point(key: K, actual: int, forecast: int)

  /** The point of key `k`: the sums of the expenses and of the forecasts
      whose date (or month) is `k`. */
  function PointOf<K(==)>(k: K, key: Entry -> K, expenses: seq<Expense>, forecasts: seq<Forecast>): Point<K>
  {
    Point(k, Sum(Select(expenses, key, k)), Sum(Select(forecasts, key, k)))
  }

  function Keys<K>(points: seq<Point<K>>): (r: seq<K>)
    ensures |r| == |points|
    ensures forall i :: 0 <= i < |points| ==> r[i] == points[i].key
  {
    seq(|points|, i requires 0 <= i < |points| => points[i].key)
  }

  /** The sum of the `actual` column. */
  function ActualColumn<K>(points: seq<Point<K>>): int
  {
    if points == [] then 0 else points[0].actual + ActualColumn(points[1..])
  }

  /** The sum of the `forecast` column. */
  function ForecastColumn<K>(points: seq<Point<K>>): int
  {
    if points == [] then 0 else points[0].forecast + ForecastColumn(points[1..])
  }

  /** Every point carries the sums of its key. */
  ghost predicate PointsAreSums<K>(points: seq<Point<K>>, key: Entry -> K, expenses: seq<Expense>, forecasts: seq<Forecast>)
  {
    forall i :: 0 <= i < |points| ==> points[i] == PointOf(points[i].key, key, expenses, forecasts)
  }

  lemma {:induction false} ColumnsAreSumsOverKeys<K>(points: seq<Point<K>>, key: Entry -> K, expenses: seq<Expense>, forecasts: seq<Forecast>)
    requires PointsAreSums(points, key, expenses, forecasts)
    ensures ActualColumn(points) == SumOverKeys(expenses, key, Keys(points))
    ensures ForecastColumn(points) == SumOverKeys(forecasts, key, Keys(points))
  {
    if points != [] {
      ColumnsAreSumsOverKeys(points[1..], key, expenses, forecasts);
      assert Keys(points)[1..] == Keys(points[1..]);
    }
  }

  /** Conservation: when each key occurs once and every record's key is
      among them, the columns add up to the two totals. */
  lemma ColumnsConserveTotals<K>(points: seq<Point<K>>, key: Entry -> K, expenses: seq<Expense>, forecasts: seq<Forecast>)
    requires PointsAreSums(points, key, expenses, forecasts)
    requires Distinct(Keys(points))
    requires forall i :: 0 <= i < |expenses| ==> key(expenses[i]) in Keys(points)
    requires forall i :: 0 <= i < |forecasts| ==> key(forecasts[i]) in Keys(points)
    ensures ActualColumn(points) == Sum(expenses)
    ensures ForecastColumn(points) == Sum(forecasts)
  {
    ColumnsAreSumsOverKeys(points, key, expenses, forecasts);
    SumOverKeysIsTotal(expenses, key, Keys(points));
    SumOverKeysIsTotal(forecasts, key, Keys(points));
  }

  /** One point per date of `dates`, in that order. */
  function PointsFor(dates: seq<Date>, expenses: seq<Expense>, forecasts: seq<Forecast>): (r: seq<Point<Date>>)
    ensures Keys(r) == dates
    ensures PointsAreSums(r, DateOf, expenses, forecasts)
  {
    seq(|dates|, i requires 0 <= i < |dates| => PointOf(dates[i], DateOf, expenses, forecasts))
  }

  /** `byDate`: one point per unique date, ascending, carrying that date's sums. */
  function ByDate(expenses: seq<Expense>, forecasts: seq<Forecast>): (r: seq<Point<Date>>)
    ensures Keys(r) == UniqueDates(expenses, forecasts)
    ensures PointsAreSums(r, DateOf, expenses, forecasts)
  {
    PointsFor(UniqueDates(expenses, forecasts), expenses, forecasts)
  }

  /** The per-date actuals add up to `total`, the per-date forecasts to `forecastTotal`. */
  lemma ByDateConservesTotals(expenses: seq<Expense>, forecasts: seq<Forecast>)
    ensures ActualColumn(ByDate(expenses, forecasts)) == Sum(expenses)
    ensures ForecastColumn(ByDate(expenses, forecasts)) == Sum(forecasts)
  {
    var points := ByDate(expenses, forecasts);
    var dates := Keys(points);
    forall i | 0 <= i < |expenses| ensures DateOf(expenses[i]) in dates {
      assert HasKey(expenses, DateOf, DateOf(expenses[i]));
    }
    forall i | 0 <= i < |forecasts| ensures DateOf(forecasts[i]) in dates {
      assert HasKey(forecasts, DateOf, DateOf(forecasts[i]));
    }
    ColumnsConserveTotals(points, DateOf, expenses, forecasts);
  }

  predicate MonthsStrictlySorted(points: seq<Point<Month>>)
  {
    forall i, j :: 0 <= i < j < |points| ==> MonthLt(points[i].key, points[j].key)
  }

  /** What `byMonth` promises: ascending months, exactly the months of the
      records, and for each month the sums of that month's records. */
  ghost predicate IsMonthlySeries(points: seq<Point<Month>>, expenses: seq<Expense>, forecasts: seq<Forecast>)
  {
    && MonthsStrictlySorted(points)
    && (forall m :: m in Keys(points) <==> HasKey(expenses, MonthKey, m) || HasKey(forecasts, MonthKey, m))
    && PointsAreSums(points, MonthKey, expenses, forecasts)
  }

  /** Adds a point of a new month to points sorted by month. */
  function InsertPoint(sorted: seq<Point<Month>>, p: Point<Month>): (r: seq<Point<Month>>)
    requires MonthsStrictlySorted(sorted)
    requires forall i :: 0 <= i < |sorted| ==> sorted[i].key != p.key
    ensures MonthsStrictlySorted(r)
    ensures forall x :: x in r <==> x in sorted || x == p
  {
    if sorted == [] then [p]
    else if MonthLt(p.key, sorted[0].key) then [p] + sorted
    else
      var rest := InsertPoint(sorted[1..], p);
      forall j | 0 <= j < |rest| ensures MonthLt(sorted[0].key, rest[j].key) {
        assert rest[j] in rest;
        if rest[j] != p {
          var k :| 1 <= k < |sorted| && sorted[k] == rest[j];
        }
      }
      [sorted[0]] + rest
  }

  /** The sort by month key of points whose months are all different. */
  function SortByMonth(points: seq<Point<Month>>): (r: seq<Point<Month>>)
    requires Distinct(Keys(points))
    ensures MonthsStrictlySorted(r)
    ensures forall x :: x in r <==> x in points
  {
    if points == [] then []
    else
      var init := points[..|points| - 1];
      assert Keys(init) == Keys(points)[..|points| - 1];
      var sorted := SortByMonth(init);
      forall i | 0 <= i < |sorted| ensures sorted[i].key != points[|points| - 1].key {
        assert sorted[i] in sorted;
        var j :| 0 <= j < |init| && init[j] == sorted[i];
        assert Keys(points)[j] != Keys(points)[|points| - 1];
      }
      InsertPoint(sorted, points[|points| - 1])
  }

  /** The state of `byMonth`'s dictionary once `expenses` and `forecasts`
      have been added: `order` lists its months once each (their order is
      not tracked, since `byMonth` sorts its result), those are the months of
      the records, and each month holds the sums of its records. */
  ghost predicate Tallied(months: map<Month, Point<Month>>, order: seq<Month>,
                          expenses: seq<Expense>, forecasts: seq<Forecast>)
  {
    && Distinct(order)
    && (forall m :: m in months <==> m in order)
    && (forall m :: HoldsSumsAt(months, expenses, forecasts, m))
  }

  /** Month `m` is in the dictionary exactly when some record has that month,
      and then it holds that month's sums. */
  ghost predicate HoldsSumsAt(months: map<Month, Point<Month>>, expenses: seq<Expense>, forecasts: seq<Forecast>, m: Month)
  {
    && (m in months <==> HasKey(expenses, MonthKey, m) || HasKey(forecasts, MonthKey, m))
    && (m in months ==> months[m] == PointOf(m, MonthKey, expenses, forecasts))
  }

  /** A month seen for the first time is appended to the insertion order. */
  lemma NewKeyAppended(months: map<Month, Point<Month>>, order: seq<Month>,
                       months': map<Month, Point<Month>>, order': seq<Month>, m: Month)
    requires Distinct(order) && forall k :: k in months <==> k in order
    requires order' == (if m in months then order else order + [m])
    requires months'.Keys == months.Keys + {m}
    ensures Distinct(order') && forall k :: k in months' <==> k in order'
  {
  }

  /** The entry of one month `k` after one expense is added. */
  lemma AddExpenseAt(months: map<Month, Point<Month>>, mid: map<Month, Point<Month>>, months': map<Month, Point<Month>>,
                     expenses: seq<Expense>, i: nat, k: Month)
    requires i < |expenses|
    requires HoldsSumsAt(months, expenses[..i], [], k)
    requires var m := MonthKey(expenses[i]);
      && mid == (if m in months then months else months[m := Point(m, 0, 0)])
      && months' == mid[m := mid[m].(actual := mid[m].actual + expenses[i].amount)]
    ensures HoldsSumsAt(months', expenses[..i + 1], [], k)
  {
    SumSelectStep(expenses, i, MonthKey, k);
    if k !in months {
      SelectEmpty(expenses[..i], MonthKey, k);
    }
  }

  /** Adding one expense to the amount of its month keeps the dictionary
      complete: `months'` and `order'` are the dictionary after the step. */
  lemma AddExpenseStep(months: map<Month, Point<Month>>, order: seq<Month>, mid: map<Month, Point<Month>>,
                       months': map<Month, Point<Month>>, order': seq<Month>, expenses: seq<Expense>, i: nat)
    requires i < |expenses|
    requires Tallied(months, order, expenses[..i], [])
    requires var m := MonthKey(expenses[i]);
      && order' == (if m in months then order else order + [m])
      && mid == (if m in months then months else months[m := Point(m, 0, 0)])
      && months' == mid[m := mid[m].(actual := mid[m].actual + expenses[i].amount)]
    ensures Tallied(months', order', expenses[..i + 1], [])
  {
    NewKeyAppended(months, order, months', order', MonthKey(expenses[i]));
    var seen, none: seq<Forecast> := expenses[..i + 1], [];
    forall k ensures HoldsSumsAt(months', seen, none, k) {
      AddExpenseAt(months, mid, months', expenses, i, k);
    }
  }

  /** The entry of one month `k` after one forecast is added. */
  lemma AddForecastAt(months: map<Month, Point<Month>>, mid: map<Month, Point<Month>>, months': map<Month, Point<Month>>,
                      expenses: seq<Expense>, forecasts: seq<Forecast>, j: nat, k: Month)
    requires j < |forecasts|
    requires HoldsSumsAt(months, expenses, forecasts[..j], k)
    requires var m := MonthKey(forecasts[j]);
      && mid == (if m in months then months else months[m := Point(m, 0, 0)])
      && months' == mid[m := mid[m].(forecast := mid[m].forecast + forecasts[j].amount)]
    ensures HoldsSumsAt(months', expenses, forecasts[..j + 1], k)
  {
    SumSelectStep(forecasts, j, MonthKey, k);
    if k !in months {
      SelectEmpty(expenses, MonthKey, k);
      SelectEmpty(forecasts[..j], MonthKey, k);
    }
  }

  /** Adding one forecast to the amount of its month keeps the dictionary
      complete: `months'` and `order'` are the dictionary after the step. */
  lemma AddForecastStep(months: map<Month, Point<Month>>, order: seq<Month>, mid: map<Month, Point<Month>>,
                        months': map<Month, Point<Month>>, order': seq<Month>,
                        expenses: seq<Expense>, forecasts: seq<Forecast>, j: nat)
    requires j < |forecasts|
    requires Tallied(months, order, expenses, forecasts[..j])
    requires var m := MonthKey(forecasts[j]);
      && order' == (if m in months then order else order + [m])
      && mid == (if m in months then months else months[m := Point(m, 0, 0)])
      && months' == mid[m := mid[m].(forecast := mid[m].forecast + forecasts[j].amount)]
    ensures Tallied(months', order', expenses, forecasts[..j + 1])
  {
    NewKeyAppended(months, order, months', order', MonthKey(forecasts[j]));
    var seen := forecasts[..j + 1];
    forall k ensures HoldsSumsAt(months', expenses, seen, k) {
      AddForecastAt(months, mid, months', expenses, forecasts, j, k);
    }
  }

  /** The first loop of `byMonth`: each expense's amount is added to the
      `actual` of its month, creating the month at 0/0 on first sight. */
  method AddExpenses(expenses: seq<Expense>) returns (months: map<Month, Point<Month>>, order: seq<Month>)
    ensures Tallied(months, order, expenses, [])
  {
    months, order := map[], [];
    for i := 0 to |expenses|
      invariant Tallied(months, order, expenses[..i], [])
    {
      var e := expenses[i];
      var m := MonthOf(e.date);
      ghost var before, orderBefore := months, order;
      if m !in months {
        months := months[m := Point(m, 0, 0)];
        order := order + [m];
      }
      ghost var mid := months;
      months := months[m := months[m].(actual := months[m].actual + e.amount)];
      AddExpenseStep(before, orderBefore, mid, months, order, expenses, i);
    }
    assert expenses[..|expenses|] == expenses;
  }

  /** The second loop of `byMonth`: each forecast's amount is added to the
      `forecast` of its month, creating the month at 0/0 on first sight. */
  method AddForecasts(months0: map<Month, Point<Month>>, order0: seq<Month>,
                      expenses: seq<Expense>, forecasts: seq<Forecast>)
    returns (months: map<Month, Point<Month>>, order: seq<Month>)
    requires Tallied(months0, order0, expenses, [])
    ensures Tallied(months, order, expenses, forecasts)
  {
    months, order := months0, order0;
    for j := 0 to |forecasts|
      invariant Tallied(months, order, expenses, forecasts[..j])
    {
      var f := forecasts[j];
      var m := MonthOf(f.date);
      ghost var before, orderBefore := months, order;
      if m !in months {
        months := months[m := Point(m, 0, 0)];
        order := order + [m];
      }
      ghost var mid := months;
      months := months[m := months[m].(forecast := months[m].forecast + f.amount)];
      AddForecastStep(before, orderBefore, mid, months, order, expenses, forecasts, j);
    }
    assert forecasts[..|forecasts|] == forecasts;
  }

  /** `Object.values`: the dictionary's values, in the order of `order`. */
  function Values(months: map<Month, Point<Month>>, order: seq<Month>): (r: seq<Point<Month>>)
    requires forall m :: m in order ==> m in months
    ensures |r| == |order|
    ensures forall k :: 0 <= k < |order| ==> r[k] == months[order[k]]
  {
    seq(|order|, k requires 0 <= k < |order| => months[order[k]])
  }

  /** Sorting a complete dictionary's values by month gives the monthly series. */
  lemma SortedTallyIsMonthlySeries(months: map<Month, Point<Month>>, order: seq<Month>,
                                   expenses: seq<Expense>, forecasts: seq<Forecast>)
    requires Tallied(months, order, expenses, forecasts)
    ensures Distinct(Keys(Values(months, order)))
    ensures IsMonthlySeries(SortByMonth(Values(months, order)), expenses, forecasts)
  {
    var values := Values(months, order);
    forall k | 0 <= k < |order| ensures values[k] == PointOf(order[k], MonthKey, expenses, forecasts) {
      assert HoldsSumsAt(months, expenses, forecasts, order[k]);
    }
    assert Keys(values) == order;
    var points := SortByMonth(values);
    forall m ensures m in Keys(points) <==> HasKey(expenses, MonthKey, m) || HasKey(forecasts, MonthKey, m) {
      assert HoldsSumsAt(months, expenses, forecasts, m);
      if m in Keys(points) {
        var i :| 0 <= i < |points| && points[i].key == m;
        assert points[i] in values;
      }
      if m in order {
        var k :| 0 <= k < |order| && order[k] == m;
        assert values[k] in points;
        var i :| 0 <= i < |points| && points[i] == values[k];
        assert Keys(points)[i] == m;
      }
    }
    forall i | 0 <= i < |points| ensures points[i] == PointOf(points[i].key, MonthKey, expenses, forecasts) {
      assert points[i] in values;
      var k :| 0 <= k < |values| && values[k] == points[i];
    }
  }

  /** `byMonth`: the records are added month by month into a dictionary
      (keys kept in insertion order, as a JavaScript object keeps them), first
      the expenses, then the forecasts; its values are then sorted by month. */
  method ByMonth(expenses: seq<Expense>, forecasts: seq<Forecast>) returns (points: seq<Point<Month>>)
    ensures IsMonthlySeries(points, expenses, forecasts)
  {
    var months, order := AddExpenses(expenses);
    months, order := AddForecasts(months, order, expenses, forecasts);
    SortedTallyIsMonthlySeries(months, order, expenses, forecasts);
    points := SortByMonth(Values(months, order));
  }

  /** The monthly actuals add up to `total`, the monthly forecasts to `forecastTotal`. */
  lemma MonthlySeriesConservesTotals(points: seq<Point<Month>>, expenses: seq<Expense>, forecasts: seq<Forecast>)
    requires IsMonthlySeries(points, expenses, forecasts)
    ensures ActualColumn(points) == Sum(expenses)
    ensures ForecastColumn(points) == Sum(forecasts)
  {
    var months := Keys(points);
    forall i, j | 0 <= i < j < |months| ensures months[i] != months[j] {
      assert MonthLt(points[i].key, points[j].key);
    }
    forall i | 0 <= i < |expenses| ensures MonthKey(expenses[i]) in months {
      assert HasKey(expenses, MonthKey, MonthKey(expenses[i]));
    }
    forall i | 0 <= i < |forecasts| ensures MonthKey(forecasts[i]) in months {
      assert HasKey(forecasts, MonthKey, MonthKey(forecasts[i]));
    }
    ColumnsConserveTotals(points, MonthKey, expenses, forecasts);
  }
}
