/** The records the expense tracker stores and displays: categories, and
    expense and forecast entries, together with the calendar dates they carry. */
module Records {

  /** A value that may be missing. `parseInt` of a string that is not a
      number gives NaN, which JSON stores as null; both are `None` here. */
  datatype Option<T> = None | Some(value: T)

  /** An ISO calendar date `YYYY-MM-DD`, as its three numeric fields. */
  datatype Date = Date(year: int, month: int, day: int)

  /** The `YYYY-MM` key of a date. */
  datatype Month = Month(year: int, month: int)

  /** A category: `{ id, name }`. */
  datatype Category = Category(id: int, name: string)

  /** An expense or a forecast: both collections hold records of the same
      shape `{ id, title, amount, date, category }`. Amounts are whole numbers;
      `category` is `None` when it is null (after a category delete) or NaN. */
  datatype Entry = Entry(id: int, title: string, amount: int, date: Date, category: Option<int>)

  type Expense = Entry
  type Forecast = Entry

  /** The order of the `YYYY-MM-DD` strings of well-formed dates (a
      four-digit year, then a two-digit month and day), which compare field
      by field. */
  predicate DateLt(a: Date, b: Date)
  {
    a.year < b.year
    || (a.year == b.year && a.month < b.month)
    || (a.year == b.year && a.month == b.month && a.day < b.day)
  }

  /** The order of the `YYYY-MM` strings of well-formed months. */
  predicate MonthLt(a: Month, b: Month)
  {
    a.year < b.year || (a.year == b.year && a.month < b.month)
  }

  /** The `YYYY-MM` key of a well-formed date: its month prefix. */
  function MonthOf(d: Date): Month
  {
    Month(d.year, d.month)
  }

  function DateOf(e: Entry): Date
  {
    e.date
  }

  function MonthKey(e: Entry): Month
  {
    MonthOf(e.date)
  }

  function CategoryOf(e: Entry): Option<int>
  {
    e.category
  }
}
