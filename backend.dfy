/** The Express backend: three JSON files (categories, expenses, forecasts),
    each read whole, changed in memory and written back whole by one route
    handler per request. */
module Backend {
  import opened Records
  import opened Seqs
  import opened Ids
  import opened Calendar

  /** The JSON body of a response. */
  datatype Body =
    | CategoryList(categories: seq<Category>)
    | EntryList(entries: seq<Entry>)
    | OneCategory(category: Category)
    | OneEntry(entry: Entry)
    | Success
    | Error(message: string)

  /** An HTTP status and a body. */
  datatype Response = Response(status: int, body: Body)

  /** The categories `GET /api/categories` writes when the file is missing. */
  const DefaultCategories: seq<Category> := [
    Category(1, "Groceries"),
    Category(2, "Utilities"),
    Category(3, "Transport"),
    Category(4, "Coffee"),
    Category(5, "Shopping"),
    Category(6, "Other")
  ]

  /** The expenses `GET /api/expenses` writes when the file is missing. */
  const DefaultExpenses: seq<Expense> := [
    Entry(1, "Groceries", 50, Date(2024, 6, 1), Some(1)),
    Entry(2, "Internet Bill", 30, Date(2024, 6, 3), Some(2)),
    Entry(3, "Coffee", 5, Date(2024, 6, 4), Some(4))
  ]

  /** What `readData` returns for a file holding `stored`
      (`None`: the file does not exist). */
  function Loaded<T>(stored: Option<seq<T>>, fallback: seq<T>): seq<T>
  {
    if stored.Some? then stored.value else fallback
  }

  /** One JSON file of records. */
  class JsonFile<T> {
    /** The records the file holds; `None` while it does not exist. */
    var stored: Option<seq<T>>

    constructor (initial: Option<seq<T>>)
      ensures stored == initial
    {
      stored := initial;
    }

    /** `readData`: a missing file is first created holding `fallback`;
        an existing one is returned as it is and left unchanged. */
    method Read(fallback: seq<T>) returns (data: seq<T>)
      modifies this
      ensures old(stored).None? ==> data == fallback && stored == Some(fallback)
      ensures old(stored).Some? ==> data == old(stored).value && stored == old(stored)
    {
      if stored.None? {
        stored := Some(fallback);
      }
      data := stored.value;
    }

    /** `writeData`: the file is replaced by `data`. */
    method Write(data: seq<T>)
      modifies this
      ensures stored == Some(data)
    {
      stored := Some(data);
    }
  }

  /** The ids of a stored collection increase from first to last record. */
  predicate CategoryIdsIncrease(stored: Option<seq<Category>>)
  {
    stored.Some? ==> StrictlyIncreasing(CategoryIds(stored.value))
  }

  predicate EntryIdsIncrease(stored: Option<seq<Entry>>)
  {
    stored.Some? ==> StrictlyIncreasing(EntryIds(stored.value))
  }

  /** The expenses once category `id` is deleted: each expense of that
      category loses its category (it becomes null); every other expense is
      kept as it is. */
  function Uncategorize(expenses: seq<Expense>, id: int): (r: seq<Expense>)
    ensures |r| == |expenses| && EntryIds(r) == EntryIds(expenses)
  {
    seq(|expenses|, i requires 0 <= i < |expenses| =>
      if expenses[i].category == Some(id) then expenses[i].(category := None) else expenses[i])
  }

  /** After a category delete no expense refers to that category, only the
      category field of an expense can have changed, and the expenses of
      other categories are untouched. */
  lemma UncategorizeClearsOnlyThatCategory(expenses: seq<Expense>, id: int)
    ensures var r := Uncategorize(expenses, id);
      && (forall i :: 0 <= i < |r| ==> r[i].category != Some(id))
      && (forall i :: 0 <= i < |r| && expenses[i].category == Some(id) ==> r[i].category == None)
      && (forall i :: 0 <= i < |r| ==> r[i].(category := expenses[i].category) == expenses[i])
      && (forall i :: 0 <= i < |r| && expenses[i].category != Some(id) ==> r[i] == expenses[i])
  {
  }

  /** The test a forecast passes to survive the delete of `id`: its id is
      another one (a NaN id matches none). */
  function HasOtherId(id: Option<int>): Forecast -> bool
  {
    (f: Forecast) => Some(f.id) != id
  }

  /** The forecasts left by `DELETE /api/forecasts/:id`. */
  function WithoutId(forecasts: seq<Forecast>, id: Option<int>): seq<Forecast>
  {
    Filter(forecasts, HasOtherId(id))
  }

  /** The server's past-date test: the midnight (UTC) that starts the date
      is before the midnight that starts the current UTC day. */
  predicate IsPastDate(date: Date, nowUtc: int)
  {
    Midnight(date) < DayOf(nowUtc) * MsPerDay
  }

  /** The server's check is a comparison of calendar days: a date is past
      exactly when it is an earlier UTC day than today; today is not past. */
  lemma PastDateIsEarlierDay(date: Date, nowUtc: int)
    ensures IsPastDate(date, nowUtc) <==> DayNumber(date) < DayOf(nowUtc)
  {
    var d, t := DayNumber(date), DayOf(nowUtc);
    if d < t {
      assert d * MsPerDay <= (t - 1) * MsPerDay;
    } else {
      assert t * MsPerDay <= d * MsPerDay;
    }
  }

  /** After a forecast delete no forecast has that id, every other forecast
      is still there, and their order is kept. */
  lemma WithoutIdRemovesExactlyThatId(forecasts: seq<Forecast>, id: Option<int>)
    ensures forall f :: f in WithoutId(forecasts, id) <==> f in forecasts && Some(f.id) != id
    ensures IsSubsequence(WithoutId(forecasts, id), forecasts)
  {
    FilterIsSubsequence(forecasts, HasOtherId(id));
  }

  /** Deleting an id no forecast has leaves the forecasts as they were. */
  lemma WithoutAbsentIdIsNoOp(forecasts: seq<Forecast>, id: Option<int>)
    requires forall i :: 0 <= i < |forecasts| ==> Some(forecasts[i].id) != id
    ensures WithoutId(forecasts, id) == forecasts
  {
    FilterKeepsAll(forecasts, HasOtherId(id));
  }

  /** Repeating a forecast delete changes nothing more. */
  lemma WithoutIdIdempotent(forecasts: seq<Forecast>, id: Option<int>)
    ensures WithoutId(WithoutId(forecasts, id), id) == WithoutId(forecasts, id)
  {
    FilterIdempotent(forecasts, HasOtherId(id));
  }

  /** With increasing ids, an expense delete that finds the id leaves one
      expense fewer, none with that id, and all others in their order. */
  lemma SpliceRemovesOnlyThatExpense(expenses: seq<Expense>, id: Option<int>)
    requires StrictlyIncreasing(EntryIds(expenses))
    requires IndexOf(EntryIds(expenses), id) != -1
    ensures var k := IndexOf(EntryIds(expenses), id);
      var r := expenses[..k] + expenses[k + 1..];
      && |r| == |expenses| - 1
      && IsSubsequence(r, expenses)
      && (forall e :: e in r ==> Some(e.id) != id)
      && (forall e :: e in expenses && Some(e.id) != id ==> e in r)
  {
    var ids, idOf := EntryIds(expenses), (e: Expense) => e.id;
    assert forall i, j :: 0 <= i < j < |expenses| ==> idOf(expenses[i]) < idOf(expenses[j]) by {
      forall i, j | 0 <= i < j < |expenses| ensures idOf(expenses[i]) < idOf(expenses[j]) {
        assert ids[i] < ids[j];
      }
    }
    var k := IndexOf(ids, id);
    var r := expenses[..k] + expenses[k + 1..];
    RemoveRecordWithId(expenses, idOf, id, k);
    forall e | e in r ensures Some(e.id) != id {
      assert Some(idOf(e)) != id;
    }
    forall e | e in expenses && Some(e.id) != id ensures e in r {
      assert idOf(e) == e.id;
    }
  }

  /** The same for a category delete that finds the id. */
  lemma SpliceRemovesOnlyThatCategory(categories: seq<Category>, id: Option<int>)
    requires StrictlyIncreasing(CategoryIds(categories))
    requires IndexOf(CategoryIds(categories), id) != -1
    ensures var k := IndexOf(CategoryIds(categories), id);
      var r := categories[..k] + categories[k + 1..];
      && |r| == |categories| - 1
      && IsSubsequence(r, categories)
      && (forall c :: c in r ==> Some(c.id) != id)
      && (forall c :: c in categories && Some(c.id) != id ==> c in r)
  {
    var ids, idOf := CategoryIds(categories), (c: Category) => c.id;
    assert forall i, j :: 0 <= i < j < |categories| ==> idOf(categories[i]) < idOf(categories[j]) by {
      forall i, j | 0 <= i < j < |categories| ensures idOf(categories[i]) < idOf(categories[j]) {
        assert ids[i] < ids[j];
      }
    }
    var k := IndexOf(ids, id);
    var r := categories[..k] + categories[k + 1..];
    RemoveRecordWithId(categories, idOf, id, k);
    forall c | c in r ensures Some(c.id) != id {
      assert Some(idOf(c)) != id;
    }
    forall c | c in categories && Some(c.id) != id ensures c in r {
      assert idOf(c) == c.id;
    }
  }

  /** The record store and its route handlers. */
  class Server {
    const categoriesFile: JsonFile<Category>
    const expensesFile: JsonFile<Expense>
    const forecastsFile: JsonFile<Forecast>

    /** The three files are different files. */
    ghost predicate Valid()
      reads this
    {
      && categoriesFile as object != expensesFile as object
      && categoriesFile as object != forecastsFile as object
      && expensesFile != forecastsFile
    }

    /** In every file that exists the ids increase in file order, so that
        the last id plus one is a fresh id. */
    ghost predicate IdsIncrease()
      reads this, categoriesFile, expensesFile, forecastsFile
    {
      && CategoryIdsIncrease(categoriesFile.stored)
      && EntryIdsIncrease(expensesFile.stored)
      && EntryIdsIncrease(forecastsFile.stored)
    }

    /** A server over the files as found on disk. */
    constructor (categories: Option<seq<Category>>, expenses: Option<seq<Expense>>, forecasts: Option<seq<Forecast>>)
      ensures Valid()
      ensures fresh(categoriesFile) && fresh(expensesFile) && fresh(forecastsFile)
      ensures categoriesFile.stored == categories
      ensures expensesFile.stored == expenses
      ensures forecastsFile.stored == forecasts
    {
      categoriesFile := new JsonFile(categories);
      expensesFile := new JsonFile(expenses);
      forecastsFile := new JsonFile(forecasts);
    }

    /** `GET /api/categories`: seeds the six default categories into a missing file. */
    method GetCategories() returns (resp: Response)
      requires Valid()
      modifies categoriesFile
      ensures categoriesFile.stored == Some(Loaded(old(categoriesFile.stored), DefaultCategories))
      ensures resp == Response(200, CategoryList(categoriesFile.stored.value))
      ensures old(IdsIncrease()) ==> IdsIncrease()
    {
      var categories := categoriesFile.Read(DefaultCategories);
      resp := Response(200, CategoryList(categories));
    }

    /** `POST /api/categories`: a missing or empty name is refused before the
        file is read; otherwise the category gets the next id and is appended
        (a missing file is seeded with no categories). */
    method PostCategory(name: string) returns (resp: Response)
      requires Valid()
      modifies categoriesFile
      ensures name == "" ==>
        resp == Response(400, Error("Name is required")) && categoriesFile.stored == old(categoriesFile.stored)
      ensures name != "" ==>
        var before := Loaded(old(categoriesFile.stored), []);
        var created := Category(NextId(CategoryIds(before)), name);
        categoriesFile.stored == Some(before + [created]) && resp == Response(201, OneCategory(created))
      ensures old(IdsIncrease()) ==> IdsIncrease()
      ensures PostedInTurn(CategoryIds(Loaded(old(categoriesFile.stored), []))) ==>
        PostedInTurn(CategoryIds(Loaded(categoriesFile.stored, [])))
    {
      if name == "" {
        return Response(400, Error("Name is required"));
      }
      var categories := categoriesFile.Read([]);
      var created := Category(NextId(CategoryIds(categories)), name);
      var after := categories + [created];
      assert && (CategoryIdsIncrease(Some(categories)) ==> CategoryIdsIncrease(Some(after)))
             && (PostedInTurn(CategoryIds(categories)) ==> PostedInTurn(CategoryIds(after))) by {
        assert CategoryIds(after) == CategoryIds(categories) + [created.id];
        AppendWithNextId(CategoryIds(categories));
      }
      categoriesFile.Write(after);
      resp := Response(201, OneCategory(created));
    }

    /** `PUT /api/categories/:id`: renames the first category with that id;
        an unknown id is answered 404 and no category changes. */
    method PutCategory(id: Option<int>, name: string) returns (resp: Response)
      requires Valid()
      modifies categoriesFile
      ensures
        var before := Loaded(old(categoriesFile.stored), []);
        var k := IndexOf(CategoryIds(before), id);
        if k == -1 then
          categoriesFile.stored == Some(before) && resp == Response(404, Error("Category not found"))
        else
          var renamed := before[k].(name := name);
          categoriesFile.stored == Some(before[k := renamed]) && resp == Response(200, OneCategory(renamed))
      ensures old(IdsIncrease()) ==> IdsIncrease()
    {
      var categories := categoriesFile.Read([]);
      var k := IndexOf(CategoryIds(categories), id);
      if k == -1 {
        return Response(404, Error("Category not found"));
      }
      var renamed := categories[k].(name := name);
      categories := categories[k := renamed];
      categoriesFile.Write(categories);
      resp := Response(200, OneCategory(renamed));
      assert CategoryIds(categories) == CategoryIds(old(Loaded(categoriesFile.stored, [])));
    }

    /** `DELETE /api/categories/:id`: both files are read first; an unknown id
        is answered 404; otherwise the category is spliced out and every
        expense that referred to it is left without a category. Forecasts are
        not touched. */
    method DeleteCategory(id: Option<int>) returns (resp: Response)
      requires Valid()
      modifies categoriesFile, expensesFile
      ensures
        var categories := Loaded(old(categoriesFile.stored), []);
        var expenses := Loaded(old(expensesFile.stored), []);
        var k := IndexOf(CategoryIds(categories), id);
        if k == -1 then
          && categoriesFile.stored == Some(categories)
          && expensesFile.stored == Some(expenses)
          && resp == Response(404, Error("Category not found"))
        else
          && categoriesFile.stored == Some(categories[..k] + categories[k + 1..])
          && expensesFile.stored == Some(Uncategorize(expenses, id.value))
          && resp == Response(200, Success)
      ensures old(IdsIncrease()) ==> IdsIncrease()
    {
      var categories := categoriesFile.Read([]);
      var expenses := expensesFile.Read([]);
      var k := IndexOf(CategoryIds(categories), id);
      if k == -1 {
        return Response(404, Error("Category not found"));
      }
      var remaining := categories[..k] + categories[k + 1..];
      var updated := Uncategorize(expenses, id.value);
      assert CategoryIdsIncrease(Some(categories)) ==> CategoryIdsIncrease(Some(remaining)) by {
        if CategoryIdsIncrease(Some(categories)) {
          SpliceKeepsIdsIncreasing(categories, (c: Category) => c.id, k);
        }
      }
      assert EntryIdsIncrease(Some(updated)) == EntryIdsIncrease(Some(expenses));
      categoriesFile.Write(remaining);
      expensesFile.Write(updated);
      resp := Response(200, Success);
    }

    /** `GET /api/expenses`: seeds the three sample expenses into a missing file. */
    method GetExpenses() returns (resp: Response)
      requires Valid()
      modifies expensesFile
      ensures expensesFile.stored == Some(Loaded(old(expensesFile.stored), DefaultExpenses))
      ensures resp == Response(200, EntryList(expensesFile.stored.value))
      ensures old(IdsIncrease()) ==> IdsIncrease()
    {
      var expenses := expensesFile.Read(DefaultExpenses);
      resp := Response(200, EntryList(expenses));
    }

    /** `POST /api/expenses`: nothing is validated; the expense gets the next
        id and is appended. `category` is the result of `parseInt`. */
    method PostExpense(title: string, amount: int, date: Date, category: Option<int>) returns (resp: Response)
      requires Valid()
      modifies expensesFile
      ensures
        var before := Loaded(old(expensesFile.stored), []);
        var created := Entry(NextId(EntryIds(before)), title, amount, date, category);
        expensesFile.stored == Some(before + [created]) && resp == Response(201, OneEntry(created))
      ensures old(IdsIncrease()) ==> IdsIncrease()
      ensures PostedInTurn(EntryIds(Loaded(old(expensesFile.stored), []))) ==>
        PostedInTurn(EntryIds(Loaded(expensesFile.stored, [])))
    {
      var expenses := expensesFile.Read([]);
      var created := Entry(NextId(EntryIds(expenses)), title, amount, date, category);
      var after := expenses + [created];
      assert && (EntryIdsIncrease(Some(expenses)) ==> EntryIdsIncrease(Some(after)))
             && (PostedInTurn(EntryIds(expenses)) ==> PostedInTurn(EntryIds(after))) by {
        assert EntryIds(after) == EntryIds(expenses) + [created.id];
        AppendWithNextId(EntryIds(expenses));
      }
      expensesFile.Write(after);
      resp := Response(201, OneEntry(created));
    }

    /** `DELETE /api/expenses/:id`: splices out the first expense with that id;
        an unknown id is answered 404. */
    method DeleteExpense(id: Option<int>) returns (resp: Response)
      requires Valid()
      modifies expensesFile
      ensures
        var before := Loaded(old(expensesFile.stored), []);
        var k := IndexOf(EntryIds(before), id);
        if k == -1 then
          expensesFile.stored == Some(before) && resp == Response(404, Error("Expense not found"))
        else
          expensesFile.stored == Some(before[..k] + before[k + 1..]) && resp == Response(200, Success)
      ensures old(IdsIncrease()) ==> IdsIncrease()
    {
      var expenses := expensesFile.Read([]);
      var k := IndexOf(EntryIds(expenses), id);
      if k == -1 {
        return Response(404, Error("Expense not found"));
      }
      if EntryIdsIncrease(Some(expenses)) {
        SpliceKeepsIdsIncreasing(expenses, (e: Entry) => e.id, k);
      }
      expenses := expenses[..k] + expenses[k + 1..];
      expensesFile.Write(expenses);
      resp := Response(200, Success);
    }

    /** `PUT /api/expenses/:id`: overwrites title, amount, date and category of
        the first expense with that id; an unknown id is answered 404. */
    method PutExpense(id: Option<int>, title: string, amount: int, date: Date, category: Option<int>)
      returns (resp: Response)
      requires Valid()
      modifies expensesFile
      ensures
        var before := Loaded(old(expensesFile.stored), []);
        var k := IndexOf(EntryIds(before), id);
        if k == -1 then
          expensesFile.stored == Some(before) && resp == Response(404, Error("Expense not found"))
        else
          var updated := Entry(before[k].id, title, amount, date, category);
          expensesFile.stored == Some(before[k := updated]) && resp == Response(200, OneEntry(updated))
      ensures old(IdsIncrease()) ==> IdsIncrease()
    {
      var expenses := expensesFile.Read([]);
      var k := IndexOf(EntryIds(expenses), id);
      if k == -1 {
        return Response(404, Error("Expense not found"));
      }
      var updated := expenses[k].(title := title, amount := amount, date := date, category := category);
      expenses := expenses[k := updated];
      expensesFile.Write(expenses);
      resp := Response(200, OneEntry(updated));
      assert EntryIds(expenses) == EntryIds(old(Loaded(expensesFile.stored, [])));
    }

    /** `GET /api/forecasts`: a missing file is created empty. */
    method GetForecasts() returns (resp: Response)
      requires Valid()
      modifies forecastsFile
      ensures forecastsFile.stored == Some(Loaded(old(forecastsFile.stored), []))
      ensures resp == Response(200, EntryList(forecastsFile.stored.value))
      ensures old(IdsIncrease()) ==> IdsIncrease()
    {
      var forecasts := forecastsFile.Read([]);
      resp := Response(200, EntryList(forecasts));
    }

    /** `POST /api/forecasts`: a date before the current UTC day is refused
        before the file is read; otherwise the forecast gets the next id and
        is appended. `nowUtc` is the server clock in milliseconds. */
    method PostForecast(title: string, amount: int, date: Date, category: Option<int>, nowUtc: int)
      returns (resp: Response)
      requires Valid()
      modifies forecastsFile
      ensures IsPastDate(date, nowUtc) ==>
        && resp == Response(400, Error("Cannot set forecast for past date."))
        && forecastsFile.stored == old(forecastsFile.stored)
      ensures !IsPastDate(date, nowUtc) ==>
        var before := Loaded(old(forecastsFile.stored), []);
        var created := Entry(NextId(EntryIds(before)), title, amount, date, category);
        forecastsFile.stored == Some(before + [created]) && resp == Response(201, OneEntry(created))
      ensures old(IdsIncrease()) ==> IdsIncrease()
      ensures PostedInTurn(EntryIds(Loaded(old(forecastsFile.stored), []))) ==>
        PostedInTurn(EntryIds(Loaded(forecastsFile.stored, [])))
    {
      if Midnight(date) < DayOf(nowUtc) * MsPerDay {
        return Response(400, Error("Cannot set forecast for past date."));
      }
      var forecasts := forecastsFile.Read([]);
      var created := Entry(NextId(EntryIds(forecasts)), title, amount, date, category);
      var after := forecasts + [created];
      assert && (EntryIdsIncrease(Some(forecasts)) ==> EntryIdsIncrease(Some(after)))
             && (PostedInTurn(EntryIds(forecasts)) ==> PostedInTurn(EntryIds(after))) by {
        assert EntryIds(after) == EntryIds(forecasts) + [created.id];
        AppendWithNextId(EntryIds(forecasts));
      }
      forecastsFile.Write(after);
      resp := Response(201, OneEntry(created));
    }

    /** `DELETE /api/forecasts/:id`: keeps every forecast with another id and
        always answers success, whether or not the id was there. */
    method DeleteForecast(id: Option<int>) returns (resp: Response)
      requires Valid()
      modifies forecastsFile
      ensures forecastsFile.stored == Some(WithoutId(Loaded(old(forecastsFile.stored), []), id))
      ensures resp == Response(200, Success)
      ensures old(IdsIncrease()) ==> IdsIncrease()
    {
      var forecasts := forecastsFile.Read([]);
      ghost var before := forecasts;
      forecasts := Filter(forecasts, HasOtherId(id));
      forecastsFile.Write(forecasts);
      resp := Response(200, Success);
      if old(IdsIncrease()) {
        FilterIdsSubsequence(before, HasOtherId(id));
        SubsequenceIncreasing(EntryIds(forecasts), EntryIds(before));
      }
    }
  }
}
