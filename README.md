# Expense tracker: record store and derived views

A Dafny model of the core of a small expense tracker. The tracker has two parts.

- **The Express backend** keeps three JSON files: categories, expenses and forecasts. A route handler reads whole files, changes the records in memory and writes the changed file back. Read-only handlers write only to create a missing file. The category and forecast POST handlers can refuse a request before reading anything. Here the backend is the class `Backend.Server`. It holds three `Backend.JsonFile` objects, each holding an optional sequence of records (`None` while the file does not exist), and has one method per route. Each method states the whole new state of the files it may modify and the response it sends, and keeps the invariant that stored ids increase from the first record to the last. The handlers depend on that invariant: a new record's id is the last record's id plus one.
- **The React frontend** computes derived views from the three collections:
  - the dashboard's sorted dates, totals and per-category slices;
  - its per-date and per-month series of actual against forecast amounts;
  - the expense table's filter and category names;
  - the forecast form's past-date guard and its reminders of forecasts due soon;
  - the available balance.

  These are functions and lemmas. The exception is the per-month series, which the source builds with two loops over a dictionary: it is a method with loops.

Modules:
- `Records`: the record types. Dates are `(year, month, day)` triples.
- `Seqs`: order-preserving filtering.
- `Ids`: next id, find by id, increasing ids.
- `Amounts`: sums, and sums by key.
- `Calendar`: days and milliseconds since the epoch.
- `Backend`, `Dashboard`, `ExpenseTable`, `ForecastForm`, `App`: one each for the backend and the four frontend components.

Clocks are parameters:
- `nowUtc`: the server clock, in milliseconds.
- `now`: the browser clock, in milliseconds counted in the browser's own time zone.

Amounts are integers in the source's own unit.

## Model

| member | source | states |
|---|---|---|
| Records.DateLt | expense-tracker-frontend/src/components/Dashboard.js:16 | the order of the `YYYY-MM-DD` strings that `.sort()` compares: field by field, which agrees with the string order only for four-digit years and two-digit months and days |
| Records.MonthLt | expense-tracker-frontend/src/components/Dashboard.js:49 | the `localeCompare` order of the `YYYY-MM` keys, field by field, under the same four-digit-year condition |
| Records.MonthOf | expense-tracker-frontend/src/components/Dashboard.js:40-45 | the `YYYY-MM` key that moment formats from a date: its year and month |
| Seqs.Filter | expense-tracker-backend/index.js:158 | `Array.prototype.filter` (also used by the expense table, the reminders and the category slices): no longer than the input, an element is kept exactly when it is in the input and passes the test, and it is kept as many times as it occurs |
| Seqs.FilterAppend | expense-tracker-backend/index.js:158 | filtering a list extended by one element filters that element last |
| Backend.JsonFile.Read | expense-tracker-backend/index.js:17-20 | a missing file is created holding the fallback, which is returned; an existing file is returned unchanged and not written |
| Backend.JsonFile.Write | expense-tracker-backend/index.js:21-23 | the file afterwards holds exactly the data written |
| Backend.Loaded | expense-tracker-backend/index.js:17-20 | what a read returns: the stored records, or the fallback when the file is missing |
| Backend.DefaultCategories | expense-tracker-backend/index.js:35-42 | the six categories a missing category file is seeded with, ids 1-6 |
| Backend.DefaultExpenses | expense-tracker-backend/index.js:83-87 | the three sample expenses a missing expense file is seeded with, ids 1-3 |
| Backend.Server.constructor | expense-tracker-backend/index.js:12-14 | three distinct fresh files holding the given contents |
| Backend.Server.GetCategories | expense-tracker-backend/index.js:34-44 | a missing category file is seeded with the six default categories (ids 1-6); the response is 200 with the stored list; ids stay increasing |
| Backend.Server.PostCategory | expense-tracker-backend/index.js:46-54 | an empty name gives 400 "Name is required" and leaves the file untouched, not even seeded; otherwise the category with the next id is appended to the stored (or empty) list and returned with 201; ids stay increasing; ids given in turn stay so |
| Backend.Server.PutCategory | expense-tracker-backend/index.js:56-65 | unknown id: 404 "Category not found", and the list is unchanged. Otherwise only the name of the first category with that id changes, and ids, length and order are kept |
| Backend.Server.DeleteCategory | expense-tracker-backend/index.js:67-79 | both files are read, so both are seeded if missing. Unknown id: 404, and both lists are unchanged. Otherwise the category is spliced out, the expenses become `Uncategorize(expenses, id)`, the forecast file is not in the modifies set, and ids stay increasing |
| Backend.Server.GetExpenses | expense-tracker-backend/index.js:82-89 | a missing expense file is seeded with the three sample expenses; 200 with the stored list |
| Backend.Server.PostExpense | expense-tracker-backend/index.js:91-104 | no validation; the expense with the next id is appended and returned with 201; ids stay increasing; ids given in turn stay so |
| Backend.Server.DeleteExpense | expense-tracker-backend/index.js:106-114 | unknown id: 404 "Expense not found", list unchanged; otherwise the first expense with that id is spliced out; ids stay increasing |
| Backend.Server.PutExpense | expense-tracker-backend/index.js:116-128 | unknown id: 404; otherwise title, amount, date and category of the first matching expense are replaced and its id, the other expenses and the order are kept |
| Backend.Server.GetForecasts | expense-tracker-backend/index.js:131-133 | a missing forecast file is created empty; 200 with the stored list |
| Backend.Server.PostForecast | expense-tracker-backend/index.js:136-152 | a date before the current UTC day gives 400 "Cannot set forecast for past date." and no file access; today or later: the forecast with the next id is appended and returned with 201; ids stay increasing; ids given in turn stay so |
| Backend.Server.DeleteForecast | expense-tracker-backend/index.js:155-161 | the forecasts become `WithoutId(forecasts, id)` and the answer is always 200 success; ids stay increasing |
| Ids.NextId | expense-tracker-backend/index.js:50 | 1 for an empty collection; when the stored ids increase, greater than every stored id |
| Ids.AppendNextId | expense-tracker-backend/index.js:50-51 | appending the next id to increasing ids keeps them increasing |
| Ids.CreatedIdsOneToN | expense-tracker-backend/index.js:95-101 | `CreatedIds(n)` is the list 1..n: n ids, the i-th being i + 1 |
| Ids.PostedInTurn | expense-tracker-backend/index.js:50 | ids given only by creates from an empty collection: each id is the next id of the ids before it |
| Ids.AppendWithNextId | expense-tracker-backend/index.js:50 | appending the next id keeps ids increasing and keeps them given in turn |
| Ids.PostedIdsAreOneToN | expense-tracker-backend/index.js:50 | ids given in turn from an empty collection are 1..n, in order; with the POST handlers' clauses this holds for categories, expenses and forecasts alike |
| Ids.IndexOf | expense-tracker-backend/index.js:71 | -1 exactly when no record has the id (a NaN id matches none); otherwise the index of a record with that id, and no earlier record has it |
| Ids.RemoveAtIncreasing | expense-tracker-backend/index.js:111 | splicing out one record keeps the ids increasing |
| Ids.IdsOf | expense-tracker-backend/index.js:50 | the ids of a collection, one per record and in its order |
| Ids.IdsOfSplice | expense-tracker-backend/index.js:111 | the ids after a splice are the ids with that position spliced out |
| Ids.SpliceKeepsIdsIncreasing | expense-tracker-backend/index.js:111 | splicing any position out of a collection with increasing ids keeps them increasing |
| Ids.IdsOfSubsequence | expense-tracker-backend/index.js:158 | the ids of a subsequence form a subsequence of the ids |
| Ids.SubsequenceIncreasing | expense-tracker-backend/index.js:158 | any subsequence of increasing ids is increasing |
| Ids.FilterIdsSubsequence | expense-tracker-backend/index.js:158 | the ids of a filtered collection are a subsequence of its ids |
| Ids.RemoveRecordWithId | expense-tracker-backend/index.js:111 | splicing out a record with the id from increasing ids: one fewer record, a subsequence, no record left with that id, every other record kept |
| Backend.SpliceRemovesOnlyThatExpense | expense-tracker-backend/index.js:106-114 | when the stored ids increase, an expense delete that finds the id removes exactly the records with that id, keeps the others in order, and shortens the list by one |
| Backend.SpliceRemovesOnlyThatCategory | expense-tracker-backend/index.js:71-75 | when the stored ids increase, the same for a category delete |
| Backend.Uncategorize | expense-tracker-backend/index.js:74 | same length and the same ids in the same order |
| Backend.UncategorizeClearsOnlyThatCategory | expense-tracker-backend/index.js:74 | no expense refers to the deleted category; an expense that did now has a null category; only the category field can change; expenses of other categories are unchanged |
| Backend.PastDateIsEarlierDay | expense-tracker-backend/index.js:138 | the server refuses a date exactly when it is an earlier UTC day than today; today is accepted |
| Backend.IsPastDate | expense-tracker-backend/index.js:138 | the server's test: the date's midnight UTC lies before today's midnight UTC |
| Backend.HasOtherId | expense-tracker-backend/index.js:158 | the filter's test: a forecast is kept unless its id equals the parsed id (NaN equals none) |
| Backend.WithoutId | expense-tracker-backend/index.js:158 | the forecasts kept by the delete's filter |
| Backend.WithoutIdRemovesExactlyThatId | expense-tracker-backend/index.js:158 | after a forecast delete a forecast remains if and only if it was there and has another id; order is kept |
| Backend.WithoutAbsentIdIsNoOp | expense-tracker-backend/index.js:158 | deleting an id no forecast has changes nothing |
| Backend.WithoutIdIdempotent | expense-tracker-backend/index.js:155-161 | repeating a forecast delete changes nothing more |
| Calendar.DayOfBounds | expense-tracker-backend/index.js:138 | an instant lies within the day that `DayOf` names |
| Calendar.DayNumber | expense-tracker-backend/index.js:138 | the number of days from 1 January 1970 to a date of the proleptic Gregorian calendar |
| Calendar.Midnight | expense-tracker-backend/index.js:138 | the instant, in milliseconds since the epoch, at which a date's day starts |
| Calendar.DayOf | expense-tracker-backend/index.js:138 | the day that contains an instant, rounding down for instants before the epoch |
| Calendar.ValidDate | expense-tracker-backend/index.js:138 | a well-formed date: month 1..12, day within its month, February having 29 days in leap years |
| Calendar.EpochIsDayZero | expense-tracker-backend/index.js:138 | 1 January 1970 is day 0 |
| Calendar.NextDay | expense-tracker-backend/index.js:138 | the day after a valid date is a valid, later date |
| Calendar.NextDayIsCounted | expense-tracker-backend/index.js:138 | the day count of the next day is one more, over month ends, year ends and leap days alike |
| Calendar.DayNumberSplit | expense-tracker-backend/index.js:138 | a date's day count is its year's first day plus the days of the earlier months plus the day of the month |
| Calendar.DayOrderIsDateOrder | expense-tracker-backend/index.js:138 | for valid dates, a date is earlier exactly when its day count is smaller, and two dates are equal exactly when their counts are |
| Amounts.Sum | expense-tracker-frontend/src/components/Dashboard.js:19-20 | `total` and `forecastTotal`: 0 for no records, and not negative when no amount is negative |
| Amounts.SumConcat | expense-tracker-frontend/src/components/Dashboard.js:19-20 | the sum of two lists put together is the sum of their sums |
| Amounts.SumSplit | expense-tracker-frontend/src/components/Dashboard.js:32-33 | the records with key k and the records without it share out the total |
| Amounts.SumOverKeysIsTotal | expense-tracker-frontend/src/components/Dashboard.js:30-34 | with distinct keys covering every record, the per-key sums add up to the total |
| Amounts.SelectMembers | expense-tracker-frontend/src/components/Dashboard.js:25 | selecting key k keeps exactly the records whose key is k |
| Amounts.Select | expense-tracker-frontend/src/components/Dashboard.js:25 | the records whose key is k, in order |
| Amounts.SelectIsFilter | expense-tracker-frontend/src/components/Dashboard.js:25 | selecting key k is the order-preserving filter on `key(e) == k` |
| Amounts.RejectIsFilter | expense-tracker-frontend/src/components/Dashboard.js:32-33 | rejecting key k is the order-preserving filter on `key(e) != k` |
| Amounts.SelectEmpty | expense-tracker-frontend/src/components/Dashboard.js:41 | selecting k gives nothing exactly when no record has key k |
| Amounts.SumSelectStep | expense-tracker-frontend/src/components/Dashboard.js:42 | taking one more record into account adds its amount to its own key's sum only, and adds its key to the keys seen |
| Amounts.SumOfPermutation | expense-tracker-frontend/src/App.js:59-60 | two lists holding the same records the same number of times have the same sum |
| Dashboard.InsertDate | expense-tracker-frontend/src/components/Dashboard.js:16 | inserting into strictly sorted dates keeps them strictly sorted and adds exactly that date |
| Dashboard.SortedSet | expense-tracker-frontend/src/components/Dashboard.js:16 | strictly ascending (so no repeats), holding exactly the input's dates |
| Dashboard.AllDates | expense-tracker-frontend/src/components/Dashboard.js:12-15 | the dates of the expenses followed by the dates of the forecasts |
| Dashboard.UniqueDates | expense-tracker-frontend/src/components/Dashboard.js:12-16 | strictly ascending, and a date occurs exactly when some expense or forecast has it |
| Dashboard.Slice | expense-tracker-frontend/src/components/Dashboard.js:23-26 | one category's slice: its name, the sum of its expenses and the sum of its forecasts |
| Dashboard.IsShown | expense-tracker-frontend/src/components/Dashboard.js:27 | a slice is shown when its actual or its forecast sum is positive |
| Dashboard.ByCategory | expense-tracker-frontend/src/components/Dashboard.js:23-27 | every slice shown has a positive actual or forecast sum and belongs to a category; every category with a positive sum is shown; each slice is shown exactly as many times as categories produce it, and a slice without a positive sum never |
| Dashboard.ByCategoryFollowsCategoryOrder | expense-tracker-frontend/src/components/Dashboard.js:27 | the slices come in category order |
| Dashboard.UnmatchedExpenseIgnored | expense-tracker-frontend/src/components/Dashboard.js:25 | an expense with a null or unknown category changes no slice |
| Dashboard.UnmatchedForecastIgnored | expense-tracker-frontend/src/components/Dashboard.js:26 | a forecast with a null or unknown category changes no slice |
| Dashboard.MatchingExpenseCounted | expense-tracker-frontend/src/components/Dashboard.js:25 | an expense of category c adds its amount to c's actual sum |
| Dashboard.UncategorizeKeepsOtherCategories | expense-tracker-backend/index.js:74 | a category delete keeps the expenses of every other category |
| Dashboard.UncategorizeKeepsTotal | expense-tracker-backend/index.js:74 | a category delete keeps the expense total |
| Dashboard.DeleteCategoryKeepsOtherSlices | expense-tracker-frontend/src/components/Dashboard.js:25 | after a category delete every other category's slice is unchanged |
| Dashboard.ColumnsAreSumsOverKeys | expense-tracker-frontend/src/components/Dashboard.js:30-34 | the actual and forecast columns of points that carry their keys' sums are the sums over their keys |
| Dashboard.ColumnsConserveTotals | expense-tracker-frontend/src/components/Dashboard.js:30-34 | with distinct keys covering every record, the columns add up to `total` and `forecastTotal` |
| Dashboard.PointOf | expense-tracker-frontend/src/components/Dashboard.js:31-33 | the point of key k: k with the sums of the expenses and of the forecasts whose key is k |
| Dashboard.ByDate | expense-tracker-frontend/src/components/Dashboard.js:30-34 | keys are exactly the unique dates, and each point carries its date's actual and forecast sums |
| Dashboard.ByDateConservesTotals | expense-tracker-frontend/src/components/Dashboard.js:30-34 | the per-date actuals add up to `total`, the per-date forecasts to `forecastTotal` |
| Dashboard.AddExpenseStep | expense-tracker-frontend/src/components/Dashboard.js:40-42 | adding one expense to its month (created at 0/0 on first sight) keeps the dictionary equal to the sums of the expenses seen |
| Dashboard.AddExpenseAt | expense-tracker-frontend/src/components/Dashboard.js:40-42 | one month's entry after one expense is added: present exactly when some expense seen has that month, holding that month's sums |
| Dashboard.AddForecastAt | expense-tracker-frontend/src/components/Dashboard.js:45-47 | the same for one forecast |
| Dashboard.AddForecastStep | expense-tracker-frontend/src/components/Dashboard.js:45-47 | the same for one forecast |
| Dashboard.AddExpenses | expense-tracker-frontend/src/components/Dashboard.js:39-43 | after the first loop each month of an expense is a key of the dictionary and listed once in `order`, with that month's expense sum and forecast 0 |
| Dashboard.AddForecasts | expense-tracker-frontend/src/components/Dashboard.js:44-48 | after the second loop each month of a record appears once, with that month's expense and forecast sums |
| Dashboard.Values | expense-tracker-frontend/src/components/Dashboard.js:49 | `Object.values` of the dictionary, in the order of its recorded keys: one value per key |
| Dashboard.InsertPoint | expense-tracker-frontend/src/components/Dashboard.js:49 | inserting a point of a new month keeps the points strictly sorted by month and adds exactly that point |
| Dashboard.SortByMonth | expense-tracker-frontend/src/components/Dashboard.js:49 | points of distinct months sorted strictly by month: a permutation, as a set of points |
| Dashboard.SortedTallyIsMonthlySeries | expense-tracker-frontend/src/components/Dashboard.js:49 | the sorted values of a complete dictionary are the monthly series |
| Dashboard.ByMonth | expense-tracker-frontend/src/components/Dashboard.js:37-50 | months unique and ascending, exactly the months of the records, each with its month's actual and forecast sums |
| Dashboard.MonthlySeriesConservesTotals | expense-tracker-frontend/src/components/Dashboard.js:39-48 | the monthly actuals add up to `total`, the monthly forecasts to `forecastTotal` |
| ExpenseTable.Filtered | expense-tracker-frontend/src/components/Expensetable.js:19-24 | an expense is listed exactly when it passes the category, from and to tests |
| ExpenseTable.CategorySelected | expense-tracker-frontend/src/components/Expensetable.js:20 | the category test applies only to a truthy selection, so id 0 and "All" select everything |
| ExpenseTable.InCategory | expense-tracker-frontend/src/components/Expensetable.js:20 | with a selection, the expense's category must be the selected id |
| ExpenseTable.InFrom | expense-tracker-frontend/src/components/Expensetable.js:21 | with a `from` date, the expense's midnight is not before the `from` midnight |
| ExpenseTable.InTo | expense-tracker-frontend/src/components/Expensetable.js:22 | with a `to` date, the expense's midnight is not after the `to` midnight |
| ExpenseTable.Matches | expense-tracker-frontend/src/components/Expensetable.js:23 | an expense passes when it passes all three tests |
| ExpenseTable.RangeIsInclusiveByDay | expense-tracker-frontend/src/components/Expensetable.js:21-22 | both date bounds are inclusive and compare whole days |
| ExpenseTable.RangeIsInclusiveByDate | expense-tracker-frontend/src/components/Expensetable.js:21-22 | for valid dates, an expense passes `from` exactly when its date is not before it, and passes `to` exactly when its date is not after it |
| ExpenseTable.FilteredIsSubsequence | expense-tracker-frontend/src/components/Expensetable.js:19-24 | the listed expenses keep their order |
| ExpenseTable.NoFilterShowsAll | expense-tracker-frontend/src/components/Expensetable.js:20-22 | with every control empty, every expense is listed |
| ExpenseTable.FilteredIdempotent | expense-tracker-frontend/src/components/Expensetable.js:19-24 | filtering the list again changes nothing |
| ExpenseTable.CategoryName | expense-tracker-frontend/src/components/Expensetable.js:17 | the name of the first category with the id, "Uncategorized" when no category has the id or its name is empty |
| ExpenseTable.NullCategoryIsUncategorized | expense-tracker-frontend/src/components/Expensetable.js:17 | an expense with a null category, such as one whose category was deleted, shows "Uncategorized" |
| ForecastForm.SubmitBlockedIffEarlierDay | expense-tracker-frontend/src/components/ForecastForm.js:27-31 | the form refuses to post exactly when the date is an earlier day than today |
| ForecastForm.SubmitBlocked | expense-tracker-frontend/src/components/ForecastForm.js:27 | the form's test, `isBefore` at day granularity: the last millisecond of the chosen date's local day lies before now |
| ForecastForm.TodayIsAccepted | expense-tracker-frontend/src/components/ForecastForm.js:27 | today's date passes at every moment of the day |
| ForecastForm.FormAgreesWithServer | expense-tracker-frontend/src/components/ForecastForm.js:27 | with the browser clock reading as the server's UTC clock, form and server refuse the same dates |
| ForecastForm.TruncDiv | expense-tracker-frontend/src/components/ForecastForm.js:53-54 | the quotient rounded toward zero, bounded on the side of zero |
| ForecastForm.HoursUntil | expense-tracker-frontend/src/components/ForecastForm.js:53-54 | whole hours from now to the forecast date's local midnight, truncated toward zero |
| ForecastForm.IsDueSoon | expense-tracker-frontend/src/components/ForecastForm.js:53-54 | a forecast is due soon when those hours are at least 1 and at most 24 |
| ForecastForm.DueSoonWindow | expense-tracker-frontend/src/components/ForecastForm.js:53-54 | a forecast is a reminder exactly when its date starts at least 1 and under 25 hours from now |
| ForecastForm.NoReminderWithinTheHour | expense-tracker-frontend/src/components/ForecastForm.js:53-54 | past forecasts and forecasts less than one hour ahead are never reminders |
| ForecastForm.DueSoonDays | expense-tracker-frontend/src/components/ForecastForm.js:53-54 | a reminder's date is tomorrow, or the day after in the last hour of today |
| ForecastForm.LastHourSkipsTomorrow | expense-tracker-frontend/src/components/ForecastForm.js:53-54 | at 23:30, tomorrow's forecast is not a reminder while the next day's is |
| ForecastForm.Reminders | expense-tracker-frontend/src/components/ForecastForm.js:52-55 | a forecast is a reminder exactly when it is due soon |
| ForecastForm.RemindersIsSubsequence | expense-tracker-frontend/src/components/ForecastForm.js:52-55 | the reminders keep the order of the forecasts |
| ForecastForm.WarningIffSomeDue | expense-tracker-frontend/src/components/ForecastForm.js:57-59 | the warning is raised exactly when some forecast is due soon |
| ForecastForm.WarningRaised | expense-tracker-frontend/src/components/ForecastForm.js:57-59 | the warning is raised when the list of reminders is not empty |
| App.AvailableBalance | expense-tracker-frontend/src/App.js:59-60 | balance plus total expenses is 10000; the balance is negative exactly when the total exceeds 10000 |
| App.NewExpenseLowersBalance | expense-tracker-frontend/src/App.js:59-60 | a new expense of amount a raises the total by a and lowers the balance by a |
| App.BalanceOfConcatenation | expense-tracker-frontend/src/App.js:59-60 | the balance of two lists of expenses put together is the same in either order |
| App.BalanceIgnoresOrder | expense-tracker-frontend/src/App.js:59-60 | any two lists holding the same expenses the same number of times have the same balance, so the balance does not depend on order |

## Left out

- Express routing, CORS, the JSON encoding and the file system calls are left out. A file is an optional sequence of records, and a response is a status with a body.
- Requests are handled one at a time. Races between concurrent requests (last write wins) are not modelled.
- Amounts are integers. Floating-point amounts, and the `Number()` coercion of amounts stored as strings, are not modelled.
- `parseInt` of an id or a category is an `Option<int>`; `None` stands for NaN. Stored NaN and null are both `None`.
- A missing `name` in a category request is modelled as the empty string. A rename to an undefined name is modelled as a rename to a string.
- Dates are well-formed `YYYY-MM-DD` strings, modelled as triples. The parsing of malformed dates is not modelled. In the source such a date compares false with today's date and is accepted by the server.
- The day count is defined for every triple, but its agreement with the calendar order is proved only for well-formed dates.
- The order in which `byMonth`'s dictionary keeps its keys is not tracked: the result is sorted by month, so it does not depend on it.
- Daylight-saving shifts are not modelled. A local day is taken to last 24 hours, both for moment's hour differences and for its day comparisons.
- Backend.Server.PostForecast: the server compares with the current UTC date, as the code does, not with the server's local date.
- ForecastForm.WarningRaised: the source raises the warning from an effect that runs when the number of reminders changes. The model states when the condition holds, not when the effect re-runs.
- Dashboard.SortByMonth: the browser's sort is replaced by an insertion sort. With distinct months, any correct sort gives the same result.
- React rendering, component state, axios requests, snackbars, the theme toggle and the tabs are not modelled.
- `AddExpense.js` and `CategoryManager.js` are UI forms over the routes, and `OtpVerification.js` is a stub not wired to anything; `index.js` of the frontend only mounts the app. None of them is part of this model.
