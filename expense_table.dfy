/** The expense table: the category and date-range filter over the expenses,
    and the category name shown in each row. */
module ExpenseTable {
  import opened Records
  import opened Seqs
  import opened Ids
  import opened Calendar

  /** The filter controls: the selected category id (`None` for "All") and the
      optional first and last day of the date range. */
  datatype TableFilter = TableFilter(category: Option<int>, from: Option<Date>, to: Option<Date>)

  /** All three controls empty. */
  const NoFilter: TableFilter := TableFilter(None, None, None)

  /** The category test applies only for a truthy selection: the id 0 is
      falsy in JavaScript and so selects every category, like "All". */
  predicate CategorySelected(f: TableFilter)
  {
    f.category.Some? && f.category.value != 0
  }

  predicate InCategory(f: TableFilter, e: Expense)
  {
    CategorySelected(f) ==> e.category == f.category
  }

  /** The lower bound of the range, tested with moment's isSameOrAfter: both
      dates stand for their midnights, compared instant by instant. */
  predicate InFrom(f: TableFilter, e: Expense)
  {
    f.from.Some? ==> Midnight(f.from.value) <= Midnight(e.date)
  }

  /** The upper bound of the range, tested with moment's isSameOrBefore. */
  predicate InTo(f: TableFilter, e: Expense)
  {
    f.to.Some? ==> Midnight(e.date) <= Midnight(f.to.value)
  }

  /** An expense passes the filter when it passes all three tests. */
  predicate Matches(f: TableFilter, e: Expense)
  {
    InCategory(f, e) && InFrom(f, e) && InTo(f, e)
  }

  function MatchesFilter(f: TableFilter): Expense -> bool
  {
    (e: Expense) => Matches(f, e)
  }

  /** `filtered`: the expenses that pass the filter. */
  function Filtered(f: TableFilter, expenses: seq<Expense>): (r: seq<Expense>)
    ensures forall e :: e in r <==> e in expenses && Matches(f, e)
  {
    Filter(expenses, MatchesFilter(f))
  }

  /** Both bounds of the date range are inclusive and compare whole days. */
  lemma RangeIsInclusiveByDay(f: TableFilter, e: Expense)
    ensures InFrom(f, e) <==> (f.from.Some? ==> DayNumber(f.from.value) <= DayNumber(e.date))
    ensures InTo(f, e) <==> (f.to.Some? ==> DayNumber(e.date) <= DayNumber(f.to.value))
  {
    if f.from.Some? {
      MidnightMonotone(f.from.value, e.date);
    }
    if f.to.Some? {
      MidnightMonotone(e.date, f.to.value);
    }
  }

  /** For valid dates the range is the inclusive interval of the calendar
      (and of the `YYYY-MM-DD` strings): neither before `from` nor after `to`. */
  lemma RangeIsInclusiveByDate(f: TableFilter, e: Expense)
    requires ValidDate(e.date)
    requires f.from.Some? ==> ValidDate(f.from.value)
    requires f.to.Some? ==> ValidDate(f.to.value)
    ensures InFrom(f, e) <==> (f.from.Some? ==> !DateLt(e.date, f.from.value))
    ensures InTo(f, e) <==> (f.to.Some? ==> !DateLt(f.to.value, e.date))
  {
    RangeIsInclusiveByDay(f, e);
    if f.from.Some? {
      DayOrderIsDateOrder(e.date, f.from.value);
    }
    if f.to.Some? {
      DayOrderIsDateOrder(f.to.value, e.date);
    }
  }

  lemma MidnightMonotone(a: Date, b: Date)
    ensures Midnight(a) <= Midnight(b) <==> DayNumber(a) <= DayNumber(b)
  {
    var x, y := DayNumber(a), DayNumber(b);
    if x <= y {
      assert x * MsPerDay <= y * MsPerDay;
    } else {
      assert (y + 1) * MsPerDay <= x * MsPerDay;
    }
  }

  /** The table lists the passing expenses in their own order. */
  lemma FilteredIsSubsequence(f: TableFilter, expenses: seq<Expense>)
    ensures IsSubsequence(Filtered(f, expenses), expenses)
  {
    FilterIsSubsequence(expenses, MatchesFilter(f));
  }

  /** With every control empty the table lists every expense. */
  lemma NoFilterShowsAll(expenses: seq<Expense>)
    ensures Filtered(NoFilter, expenses) == expenses
  {
    FilterKeepsAll(expenses, MatchesFilter(NoFilter));
  }

  /** Filtering the filtered list again changes nothing. */
  lemma FilteredIdempotent(f: TableFilter, expenses: seq<Expense>)
    ensures Filtered(f, Filtered(f, expenses)) == Filtered(f, expenses)
  {
    FilterIdempotent(expenses, MatchesFilter(f));
  }

  const Uncategorized: string := "Uncategorized"

  /** `getCategoryName`: the name of the first category with that id,
      or "Uncategorized" when there is none or its name is empty. */
  function CategoryName(categories: seq<Category>, id: Option<int>): (name: string)
    ensures (forall i :: 0 <= i < |categories| ==> Some(categories[i].id) != id) ==> name == Uncategorized
    ensures forall k :: 0 <= k < |categories| && Some(categories[k].id) == id
                        && (forall j :: 0 <= j < k ==> Some(categories[j].id) != id) ==>
      name == (if categories[k].name == "" then Uncategorized else categories[k].name)
  {
    var k := IndexOf(CategoryIds(categories), id);
    if k == -1 || categories[k].name == "" then Uncategorized else categories[k].name
  }

  /** An expense without a category, such as one whose category was deleted,
      is shown as "Uncategorized". */
  lemma NullCategoryIsUncategorized(categories: seq<Category>)
    ensures CategoryName(categories, None) == Uncategorized
  {
  }
}
