# Budget ledger model

A Dafny model of the in-memory transaction ledger behind the JnK budget
tracking tool (`app.py`, a Shiny application). The ledger:

- holds an ordered sequence of transactions;
- starts with six sample rows;
- accepts a new row only when description, vendor and buyer are all given;
- can be cleared.

Three views are derived from it:

- **The month selector.** The distinct calendar months of the stored dates, newest first, with the newest selected.
- **The monthly category totals.** The rows of the selected month are grouped by budget category. Each group gives a summed amount and a row count. Groups are ordered by category name, and totals are rendered as currency.
- **The all-transactions table.** Every row is rendered with its date as `YYYY-MM-DD`, its amount as currency and its category under its name. Rows are sorted newest first.

Amounts are held exactly, as integer cents. The currency rendering is
Python's `f"${x:,.2f}"` written out over cents:

- a dollar sign;
- a minus sign for negative amounts;
- whole dollars grouped in threes with commas;
- a point and two digits of cents.

A parser reads the rendering back, and the round trip is proved.

The modules follow the structure of the program:

- `Text`: lexicographic string order, and decimal digit strings, fixed-width or not.
- `Currency`: the currency rendering and its inverse.
- `Records`: categories, dates, transactions, the add-transaction form, the guard that admits a form, and the sample data.
- `Store`: the ledger itself, a class whose `rows` field the append and clear actions reassign.
- `Months`: the month selector.
- `Totals`: filtering by month and category, grouping, summing, counting, and the rendered totals table.
- `Listing`: the all-transactions table.
- `Scenarios`: the views on the sample data, and what appending and clearing do to the views.

The all-transactions table is sorted after the date column has been
rendered with `strftime('%Y-%m-%d')` (app.py lines 136 and 143). The sort
therefore compares strings, not dates. `Records.FormatDateOrder` proves that
on these fixed-width strings, string order is date order. So
`Listing.AllTransactionsChronological` holds for the table as written.

## Model

| member | source | states |
|---|---|---|
| Records.NewTransaction | app.py:147-159 | A form becomes a row exactly when description, vendor and buyer are present and non-empty. The row then carries the form's date, texts, amount and category, and its notes are the form's notes or "" when none were given. Every such row is well formed. |
| Records.SampleData | app.py:18-45 | The starting data has six well-formed rows. |
| Records.CategoriesByNameComplete | app.py:11-15 | Every one of the 13 categories is in the form's list and in the by-name list, and both lists have 13 entries. |
| Records.CategoriesByNameAscending | app.py:111-122 | The by-name category list is strictly ascending by name, so grouping along it yields the order of sort_values('Category'). |
| Records.NameInjective | app.py:11-15 | Different categories carry different names. |
| Records.FormatDate | app.py:136 | A date renders as ten characters: four digits that read back as the year, a dash, two digits that read back as the month, a dash, and two digits that read back as the day. |
| Records.FormatDateOrder | app.py:136-143 | Comparing two rendered dates as strings orders them exactly as the dates are ordered, and two rendered dates are equal exactly when the dates are. |
| Text.FixedWidthOrder | app.py:136 | Two digit strings of equal width compare as strings exactly as their values compare. |
| Text.DigitsRoundTrip | app.py:120 | The decimal digits of n read back as n. |
| Currency.GroupThousandsShape | app.py:120 | Grouping a digit string puts a comma before every group of three counted from the right and nowhere else, and removing the commas gives back the digits. |
| Currency.TwoDigits | app.py:120 | Cents below 100 render as exactly two digits that read back as the cents. |
| Currency.Format | app.py:120 | The rendering starts with "$". It has "-" right after it exactly when the amount is negative. The dollars come grouped in threes, have no leading zero and read back as the whole dollars. It ends with "." and two digits that read back as the cents. |
| Currency.FormatRoundTrip | app.py:120 | Parsing the rendering of any amount gives back that amount. |
| Currency.FormatInjective | app.py:135 | Different amounts never render alike. |
| Store.Ledger.constructor | app.py:48 | The ledger starts with exactly the sample rows. |
| Store.Ledger.Append | app.py:147-164 | A complete form adds exactly its row at the end, and earlier rows are unchanged and in order. An incomplete form leaves the rows as they were. The result says which happened, and well-formedness is kept. |
| Store.Ledger.Clear | app.py:168-171 | Whatever the ledger held, afterwards it is empty. |
| Months.Insert | app.py:80 | Inserting a month into a newest-first list keeps it newest first, and the members become the old ones plus that month. |
| Months.MonthList | app.py:79-80 | The list is strictly newest first and holds exactly the months of the stored dates. |
| Months.MonthListDistinct | app.py:75-80 | The list has as many entries as there are distinct months, so it has no repeats, and it is empty exactly when the ledger is. |
| Months.DefaultMonth | app.py:73-93 | Nothing is selected exactly when the ledger is empty. Otherwise the selection is a month of the data that no stored date is newer than. |
| Totals.InMonthMembers | app.py:103-105 | The month filter keeps exactly the rows dated in that month. |
| Totals.InCategoryMembers | app.py:111 | The category filter keeps exactly the rows of that category. |
| Totals.OutsideCategoryMembers | app.py:111 | The complement filter keeps exactly the rows of other categories. |
| Totals.SumSplit | app.py:111-113 | The sum and the count of the rows split into those of one category and those of the rest. |
| Totals.SumAppend | app.py:112 | The sum of two row lists put together is the sum of their sums. |
| Totals.GroupBy | app.py:111-117 | The groups are strictly ascending by name. Each group summarises its rows: the total is the sum of the group's amounts, and the count is the number of its rows and is positive. A category gets a group exactly when it has rows. |
| Totals.GroupByConserves | app.py:111-113 | The group totals add up to the sum of all the rows, and the counts add up to the number of rows. |
| Totals.CategoryTotals | app.py:96-122 | The table is empty for an empty ledger, for no selection, and for a month without rows. It is strictly ascending by category name. Each entry gives the sum and the count of that month's rows of its category. A category is listed exactly when some row of the selected month has it. |
| Totals.CategoryTotalsConserve | app.py:103-113 | The totals of the selected month add up to the sum of its amounts, and the counts add up to its number of rows. |
| Totals.MonthlyTotals | app.py:115-122 | The rendered table has one row per category total. It shows the category's name, the sum rendered in currency form (which parses back to the exact sum), and the count. Its rows are strictly ascending by name. |
| Listing.Display | app.py:134-141 | A rendered row loses nothing: the amount is rendered in currency form and parses back, and the date is the formatted date. The category shows its name and the other fields are copied. |
| Listing.DisplayInjective | app.py:134-141 | Two stored rows render alike exactly when they are the same row. |
| Listing.Insert | app.py:143 | Inserting into a newest-first list keeps it newest first and adds exactly that one row to its contents. |
| Listing.SortNewestFirst | app.py:143 | The sort output is non-increasing on the date column and is a permutation of its input. |
| Listing.AllTransactions | app.py:128-143 | The table is as long as the ledger, is a permutation of the rendered rows, and is sorted newest first on the date column. |
| Listing.AllTransactionsShowsLedger | app.py:128-143 | Every row of the table renders a stored row, and every stored row appears in the table. |
| Listing.AllTransactionsChronological | app.py:136-143 | Read back to stored rows, a row further down the table is never dated later than one above it. |
| Scenarios.SampleMonths | app.py:18-45 | The first three sample rows are January 2024's rows and the last three are February's. |
| Scenarios.SampleMonthList | app.py:73-93 | For the sample data the selector offers February 2024, then January 2024, and selects February. |
| Scenarios.FebruaryTotals | app.py:96-122 | For February 2024 the totals are Communications -75.00, Food -32.00 and Income 3500.00, each with count 1. |
| Scenarios.JanuaryTotals | app.py:96-122 | For January 2024 the totals are Food -85.50, Housing -1200.00 and Transportation -45.00, each with count 1. |
| Scenarios.FebruaryTable | app.py:111-122 | February's rendered table reads Communications "$-75.00", Food "$-32.00" and Income "$3,500.00", each with count 1. |
| Scenarios.JanuaryTable | app.py:111-122 | January's rendered table reads Food "$-85.50", Housing "$-1,200.00" and Transportation "$-45.00", each with count 1. |
| Scenarios.FormatCents | app.py:120 | 12345 cents render as "$123.45". |
| Scenarios.FormatSalary | app.py:120 | 350000 cents render as "$3,500.00". |
| Scenarios.FormatRent | app.py:120 | -120000 cents render as "$-1,200.00", with the minus sign after the dollar sign. |
| Scenarios.ClearedViews | app.py:168-171 | After a clear, the selector offers nothing and selects nothing, and both tables are empty. |
| Scenarios.SingleRowViews | app.py:73-122 | A ledger of one row offers exactly that row's month and selects it. The month's totals are that row's amount under its category, with count 1. |
| Scenarios.AppendListsMonth | app.py:161-164 | After an append, the new row's month is offered by the selector. |
| Scenarios.AppendCountsInMonth | app.py:161-164 | An append adds the row's amount to its month's sum and one to that month's count, and its category becomes listed in that month's totals. |
| Scenarios.AppendKeepsOtherMonths | app.py:161-164 | An append leaves the totals of every other month unchanged. |
| Scenarios.AppendShown | app.py:161-164 | After an append, the transactions table shows the new row and is one row longer. |
| Scenarios.ClearThenAdd | app.py:147-171 | After a start, a clear and one submission, an accepted form leaves exactly its month on offer and totals of its amount under its category with count 1. A rejected form leaves both empty. |
| Scenarios.StartAndSubmit | app.py:48-93 | After a start and one submission, a rejected form leaves February and January on offer with February selected. An accepted form puts its month among the choices. |

## Left out

- The Shiny user interface is not modelled: layout, widgets, cards, and re-rendering on reactive events. A mutation is a method call on `Store.Ledger`, and a view is a function of its rows.
- Floating-point amounts and `.round(2)` are not modelled. Amounts are exact integer cents, so sums are exact and rounding them to two places changes nothing.
- NaN amounts are not modelled. pandas `count` skips NaN amounts, but the model assumes every row has an amount. An amount box left empty, which would store a missing amount, is not modelled.
- Dates are limited to the calendar fields. A day is 1..31 in any month, so dates that do not exist on the calendar are not excluded. Years are 1..9999, as Python dates allow. The narrower range pandas timestamps accept is not modelled.
- An empty date picker is not modelled. The model assumes the form always holds a date, although the date is converted without any guard.
- Month labels are not modelled. This covers the select box's string keys, the `calendar.month_name` labels, and the `pd.Period` parsing that turns the selected key back into a month. The selection is an optional year-month.
- The derived `YearMonth` column that both the selector and the totals write back onto the stored frame is not modelled. The views compute the month from the date.
- Listing.SortNewestFirst makes no promise about rows with equal dates, because pandas `sort_values` uses a sort that is not stable by default. Rows with equal dates may therefore come out in either order.
- The pandas row index and the DataFrame column types carry no meaning for the views and are not modelled.
- The Google Drive synchronisation is only mentioned in comments and labels, and does nothing. It is not part of this model.
- Exceptions raised by `req` are modelled as the append not happening, which is what the user observes.
