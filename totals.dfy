/**
 * The monthly category totals: the rows of one selected month, grouped by
 * budget category, with the sum of their amounts and their number, ordered
 * by category name and rendered as currency.
 */
module Totals {
  import opened Options
  import opened Records
  import Currency

  /** The rows whose date falls in month m, in ledger order. */
  function InMonth(rows: seq<Transaction>, m: YearMonth): (r: seq<Transaction>)
    ensures |r| <= |rows|
  {
    if rows == [] then []
    else
      var last := rows[|rows| - 1];
      InMonth(rows[..|rows| - 1], m) + (if MonthOf(last.date) == m then [last] else [])
  }

  lemma {:induction false} InMonthMembers(rows: seq<Transaction>, m: YearMonth)
    ensures forall t :: t in InMonth(rows, m) <==> t in rows && MonthOf(t.date) == m
  {
    if rows != [] {
      assert rows == rows[..|rows| - 1] + [rows[|rows| - 1]];
      InMonthMembers(rows[..|rows| - 1], m);
    }
  }

  /** The rows of category c, in ledger order. */
  function InCategory(rows: seq<Transaction>, c: Category): (r: seq<Transaction>)
    ensures |r| <= |rows|
  {
    if rows == [] then []
    else
      var last := rows[|rows| - 1];
      InCategory(rows[..|rows| - 1], c) + (if last.category == c then [last] else [])
  }

  lemma {:induction false} InCategoryMembers(rows: seq<Transaction>, c: Category)
    ensures forall t :: t in InCategory(rows, c) <==> t in rows && t.category == c
  {
    if rows != [] {
      assert rows == rows[..|rows| - 1] + [rows[|rows| - 1]];
      InCategoryMembers(rows[..|rows| - 1], c);
    }
  }

  /** The rows of every category but c, in ledger order. */
  function OutsideCategory(rows: seq<Transaction>, c: Category): (r: seq<Transaction>)
    ensures |r| <= |rows|
  {
    if rows == [] then []
    else
      var last := rows[|rows| - 1];
      OutsideCategory(rows[..|rows| - 1], c) + (if last.category != c then [last] else [])
  }

  lemma {:induction false} OutsideCategoryMembers(rows: seq<Transaction>, c: Category)
    ensures forall t :: t in OutsideCategory(rows, c) <==> t in rows && t.category != c
  {
    if rows != [] {
      assert rows == rows[..|rows| - 1] + [rows[|rows| - 1]];
      OutsideCategoryMembers(rows[..|rows| - 1], c);
    }
  }

  /** The exact sum of the amounts, in cents. */
  function Sum(rows: seq<Transaction>): int
  {
    if rows == [] then 0 else Sum(rows[..|rows| - 1]) + rows[|rows| - 1].amount
  }

  /** One row of the totals table, before the total is rendered. */
  datatype CategoryTotal = CategoryTotal(category: Category, total: int, count: nat)

  /** Strictly ascending by category name, hence each category at most once. */
  predicate NamesAscending(cats: seq<Category>)
  {
    forall i, j :: 0 <= i < j < |cats| ==> Text.StrLess(Name(cats[i]), Name(cats[j]))
  }

  /** The categories of the table's entries, in table order. */
  function CategoriesOf(ts: seq<CategoryTotal>): (cats: seq<Category>)
    ensures |cats| == |ts| && forall i :: 0 <= i < |ts| ==> cats[i] == ts[i].category
  {
    seq(|ts|, i requires 0 <= i < |ts| => ts[i].category)
  }

  /** Ordered by category name, each name at most once. */
  predicate AscendingByName(ts: seq<CategoryTotal>)
  {
    NamesAscending(CategoriesOf(ts))
  }

  /** The table has an entry for category c. */
  predicate Listed(ts: seq<CategoryTotal>, c: Category)
  {
    exists i :: 0 <= i < |ts| && ts[i].category == c
  }

  /** The category's entry holds the sum and the number of the rows of that category. */
  predicate Summarises(t: CategoryTotal, rows: seq<Transaction>)
  {
    var g := InCategory(rows, t.category);
    t.total == Sum(g) && t.count == |g| && t.count > 0
  }

  /** groupby over the categories in cats, dropping those no row belongs to. */
  function GroupBy(cats: seq<Category>, rows: seq<Transaction>): (ts: seq<CategoryTotal>)
    requires NamesAscending(cats)
    ensures AscendingByName(ts)
    ensures forall i :: 0 <= i < |ts| ==> ts[i].category in cats && Summarises(ts[i], rows)
    ensures forall c :: c in cats ==> (Listed(ts, c) <==> InCategory(rows, c) != [])
  {
    if cats == [] then []
    else
      var rest := GroupBy(cats[1..], rows);
      GroupByOrdered(cats, rows, rest);
      GroupByEntries(cats, rows, rest);
      GroupByListed(cats, rows, rest);
      Entry(cats[0], rows) + rest
  }

  /** The entry for category c: none when no row has it. */
  function Entry(c: Category, rows: seq<Transaction>): seq<CategoryTotal>
  {
    var g := InCategory(rows, c);
    if g == [] then [] else [CategoryTotal(c, Sum(g), |g|)]
  }

  lemma {:induction false} GroupByOrdered(cats: seq<Category>, rows: seq<Transaction>, rest: seq<CategoryTotal>)
    requires cats != [] && NamesAscending(cats)
    requires AscendingByName(rest)
    requires forall i :: 0 <= i < |rest| ==> rest[i].category in cats[1..]
    ensures AscendingByName(Entry(cats[0], rows) + rest)
  {
    var e := Entry(cats[0], rows);
    if e == [] {
      assert e + rest == rest;
    } else {
      var rc := CategoriesOf(rest);
      assert |e| == 1 && e[0].category == cats[0];
      assert CategoriesOf(e + rest) == [cats[0]] + rc;
      forall k | 0 <= k < |rc|
        ensures Text.StrLess(Name(cats[0]), Name(rc[k]))
      {
        assert rest[k].category in cats[1..];
        var n :| 0 <= n < |cats[1..]| && cats[1..][n] == rest[k].category;
        assert cats[n + 1] == rc[k];
      }
      NamesAscendingCons(cats[0], rc);
    }
  }

  /** A category named before every member of an ascending list can go in front. */
  lemma {:induction false} NamesAscendingCons(c: Category, cs: seq<Category>)
    requires NamesAscending(cs)
    requires forall k :: 0 <= k < |cs| ==> Text.StrLess(Name(c), Name(cs[k]))
    ensures NamesAscending([c] + cs)
  {
    var s := [c] + cs;
    forall i, j | 0 <= i < j < |s|
      ensures Text.StrLess(Name(s[i]), Name(s[j]))
    {
      assert s[j] == cs[j - 1];
      if i > 0 {
        assert s[i] == cs[i - 1];
      }
    }
  }

  lemma {:induction false} GroupByEntries(cats: seq<Category>, rows: seq<Transaction>, rest: seq<CategoryTotal>)
    requires cats != []
    requires forall i :: 0 <= i < |rest| ==> rest[i].category in cats[1..] && Summarises(rest[i], rows)
    ensures var ts := Entry(cats[0], rows) + rest;
      forall i :: 0 <= i < |ts| ==> ts[i].category in cats && Summarises(ts[i], rows)
  {
    var ts := Entry(cats[0], rows) + rest;
    forall i | 0 <= i < |ts|
      ensures ts[i].category in cats && Summarises(ts[i], rows)
    {
      if Entry(cats[0], rows) != [] && i == 0 {
      } else {
        var r := i - |Entry(cats[0], rows)|;
        assert ts[i] == rest[r];
        assert rest[r].category in cats[1..];
      }
    }
  }

  lemma {:induction false} ListedAppend(a: seq<CategoryTotal>, b: seq<CategoryTotal>, c: Category)
    ensures Listed(a + b, c) <==> Listed(a, c) || Listed(b, c)
  {
    if Listed(b, c) {
      var i :| 0 <= i < |b| && b[i].category == c;
      assert (a + b)[i + |a|] == b[i];
    }
    if Listed(a, c) {
      var i :| 0 <= i < |a| && a[i].category == c;
      assert (a + b)[i] == a[i];
    }
    if Listed(a + b, c) {
      var i :| 0 <= i < |a + b| && (a + b)[i].category == c;
      if i >= |a| {
        assert b[i - |a|] == (a + b)[i];
      }
    }
  }

  lemma {:induction false} HeadNotInTail(cats: seq<Category>)
    requires cats != [] && NamesAscending(cats)
    ensures cats[0] !in cats[1..]
  {
    forall k | 0 <= k < |cats[1..]|
      ensures cats[1..][k] != cats[0]
    {
      assert Text.StrLess(Name(cats[0]), Name(cats[k + 1]));
    }
  }

  lemma {:induction false} GroupByListed(cats: seq<Category>, rows: seq<Transaction>, rest: seq<CategoryTotal>)
    requires cats != [] && NamesAscending(cats)
    requires forall i :: 0 <= i < |rest| ==> rest[i].category in cats[1..]
    requires forall c :: c in cats[1..] ==> (Listed(rest, c) <==> InCategory(rows, c) != [])
    ensures var ts := Entry(cats[0], rows) + rest;
      forall c :: c in cats ==> (Listed(ts, c) <==> InCategory(rows, c) != [])
  {
    var e := Entry(cats[0], rows);
    HeadNotInTail(cats);
    forall c | c in cats
      ensures Listed(e + rest, c) <==> InCategory(rows, c) != []
    {
      ListedAppend(e, rest, c);
      assert Listed(e, c) <==> c == cats[0] && InCategory(rows, c) != [] by {
        if Listed(e, c) {
          var i :| 0 <= i < |e| && e[i].category == c;
        }
        if c == cats[0] && InCategory(rows, c) != [] {
          assert e[0].category == c;
        }
      }
      if c == cats[0] {
        assert forall i :: 0 <= i < |rest| ==> rest[i].category != c;
      }
    }
  }

  /** The totals table of the selected month, before rendering. */
  function CategoryTotals(rows: seq<Transaction>, selected: Option<YearMonth>): (ts: seq<CategoryTotal>)
    ensures rows == [] || selected.None? ==> ts == []
    ensures selected.Some? ==> (ts == [] <==> InMonth(rows, selected.value) == [])
    ensures AscendingByName(ts)
    ensures selected.Some? ==> forall i :: 0 <= i < |ts| ==> Summarises(ts[i], InMonth(rows, selected.value))
    ensures forall c: Category :: Listed(ts, c) <==>
      selected.Some? && exists t :: t in rows && MonthOf(t.date) == selected.value && t.category == c
  {
    if |rows| == 0 || selected.None? then []
    else
      var monthly := InMonth(rows, selected.value);
      InMonthMembers(rows, selected.value);
      if |monthly| == 0 then []
      else
        CategoriesByNameAscending();
        var ts := GroupBy(CATEGORIES_BY_NAME, monthly);
        MonthGroups(rows, selected.value, ts);
        ts
  }

  /** Grouping a month with rows: some entry, and an entry exactly for the categories of its rows. */
  lemma {:induction false} MonthGroups(rows: seq<Transaction>, m: YearMonth, ts: seq<CategoryTotal>)
    requires InMonth(rows, m) != [] && NamesAscending(CATEGORIES_BY_NAME)
    requires ts == GroupBy(CATEGORIES_BY_NAME, InMonth(rows, m))
    ensures ts != []
    ensures forall c: Category :: Listed(ts, c) <==> exists t :: t in rows && MonthOf(t.date) == m && t.category == c
  {
    forall c: Category
      ensures Listed(ts, c) <==> exists t :: t in rows && MonthOf(t.date) == m && t.category == c
    {
      MonthCategoryListed(rows, m, ts, c);
    }
    var t := InMonth(rows, m)[0];
    InMonthMembers(rows, m);
    assert t in InMonth(rows, m);
    MonthCategoryListed(rows, m, ts, t.category);
  }

  lemma {:induction false} MonthCategoryListed(rows: seq<Transaction>, m: YearMonth, ts: seq<CategoryTotal>, c: Category)
    requires NamesAscending(CATEGORIES_BY_NAME)
    requires ts == GroupBy(CATEGORIES_BY_NAME, InMonth(rows, m))
    ensures Listed(ts, c) <==> exists t :: t in rows && MonthOf(t.date) == m && t.category == c
  {
    var monthly := InMonth(rows, m);
    CategoriesByNameComplete(c);
    assert Listed(ts, c) <==> InCategory(monthly, c) != [];
    InMonthMembers(rows, m);
    InCategoryMembers(monthly, c);
    if Listed(ts, c) {
      var g := InCategory(monthly, c);
      assert g[0] in g;
      assert g[0] in rows && MonthOf(g[0].date) == m && g[0].category == c;
    }
    if exists t :: t in rows && MonthOf(t.date) == m && t.category == c {
      var t :| t in rows && MonthOf(t.date) == m && t.category == c;
      assert t in InCategory(monthly, c);
    }
  }

  lemma {:induction false} InCategoryNonEmpty(rows: seq<Transaction>)
    ensures forall c :: InCategory(rows, c) != [] <==> exists t :: t in rows && t.category == c
  {
    forall c
      ensures InCategory(rows, c) != [] <==> exists t :: t in rows && t.category == c
    {
      InCategoryMembers(rows, c);
      if InCategory(rows, c) != [] {
        assert InCategory(rows, c)[0] in InCategory(rows, c);
      }
    }
  }

  /** The sum of the table's totals. */
  function TotalsSum(ts: seq<CategoryTotal>): int
  {
    if ts == [] then 0 else ts[0].total + TotalsSum(ts[1..])
  }

  /** The sum of the table's counts. */
  function CountsSum(ts: seq<CategoryTotal>): int
  {
    if ts == [] then 0 else ts[0].count + CountsSum(ts[1..])
  }

  lemma {:induction false} SumSplit(rows: seq<Transaction>, c: Category)
    ensures Sum(rows) == Sum(InCategory(rows, c)) + Sum(OutsideCategory(rows, c))
    ensures |rows| == |InCategory(rows, c)| + |OutsideCategory(rows, c)|
  {
    if rows != [] {
      var front, last := rows[..|rows| - 1], rows[|rows| - 1];
      SumSplit(front, c);
      SumAppend(InCategory(front, c), if last.category == c then [last] else []);
      SumAppend(OutsideCategory(front, c), if last.category != c then [last] else []);
    }
  }

  lemma {:induction false} SumAppend(a: seq<Transaction>, b: seq<Transaction>)
    ensures Sum(a + b) == Sum(a) + Sum(b)
    decreases |b|
  {
    if b == [] {
      assert a + b == a;
    } else {
      assert (a + b)[..|a + b| - 1] == a + b[..|b| - 1];
      SumAppend(a, b[..|b| - 1]);
    }
  }

  /** Removing the rows of c does not change any other category's rows. */
  lemma {:induction false} OutsideKeepsOthers(rows: seq<Transaction>, c: Category, d: Category)
    requires c != d
    ensures InCategory(OutsideCategory(rows, c), d) == InCategory(rows, d)
  {
    if rows != [] {
      var front, last := rows[..|rows| - 1], rows[|rows| - 1];
      OutsideKeepsOthers(front, c, d);
      var o := OutsideCategory(front, c);
      if last.category != c {
        assert OutsideCategory(rows, c) == o + [last];
        assert (o + [last])[..|o + [last]| - 1] == o;
        assert InCategory(o + [last], d) == InCategory(o, d) + (if last.category == d then [last] else []);
      } else {
        assert OutsideCategory(rows, c) == o + [] == o;
        assert InCategory(rows, d) == InCategory(front, d) + [] == InCategory(front, d);
      }
    }
  }

  /** Grouping reads the rows only through the rows of each category in cats. */
  lemma {:induction false} GroupBySameGroups(cats: seq<Category>, rows: seq<Transaction>, rows': seq<Transaction>)
    requires NamesAscending(cats)
    requires forall c :: c in cats ==> InCategory(rows, c) == InCategory(rows', c)
    ensures GroupBy(cats, rows) == GroupBy(cats, rows')
  {
    if cats != [] {
      GroupBySameGroups(cats[1..], rows, rows');
    }
  }

  lemma {:induction false} TotalsSumAppend(a: seq<CategoryTotal>, b: seq<CategoryTotal>)
    ensures TotalsSum(a + b) == TotalsSum(a) + TotalsSum(b)
    ensures CountsSum(a + b) == CountsSum(a) + CountsSum(b)
  {
    if a != [] {
      assert (a + b)[1..] == a[1..] + b;
      TotalsSumAppend(a[1..], b);
    } else {
      assert a + b == b;
    }
  }

  /**
   * Grouping loses and invents nothing: when every row's category is listed,
   * the totals add up to the sum of all amounts and the counts to the number of rows.
   */
  lemma {:induction false} GroupByConserves(cats: seq<Category>, rows: seq<Transaction>)
    requires NamesAscending(cats)
    requires forall t :: t in rows ==> t.category in cats
    ensures TotalsSum(GroupBy(cats, rows)) == Sum(rows)
    ensures CountsSum(GroupBy(cats, rows)) == |rows|
  {
    if cats == [] {
    } else {
      var c := cats[0];
      var others := OutsideCategory(rows, c);
      assert GroupBy(cats, rows) == Entry(c, rows) + GroupBy(cats[1..], rows);
      OthersKeepGroups(cats, rows);
      GroupBySameGroups(cats[1..], rows, others);
      OthersInTail(cats, rows);
      assert NamesAscending(cats[1..]);
      GroupByConserves(cats[1..], others);
      assert TotalsSum(GroupBy(cats[1..], rows)) == Sum(others);
      SumSplit(rows, c);
      EntrySums(c, rows);
      TotalsSumAppend(Entry(c, rows), GroupBy(cats[1..], rows));
    }
  }

  lemma {:induction false} OthersKeepGroups(cats: seq<Category>, rows: seq<Transaction>)
    requires cats != [] && NamesAscending(cats)
    ensures forall d :: d in cats[1..] ==> InCategory(rows, d) == InCategory(OutsideCategory(rows, cats[0]), d)
  {
    HeadNotInTail(cats);
    forall d | d in cats[1..]
      ensures InCategory(rows, d) == InCategory(OutsideCategory(rows, cats[0]), d)
    {
      OutsideKeepsOthers(rows, cats[0], d);
    }
  }

  lemma {:induction false} OthersInTail(cats: seq<Category>, rows: seq<Transaction>)
    requires cats != []
    requires forall t :: t in rows ==> t.category in cats
    ensures forall t :: t in OutsideCategory(rows, cats[0]) ==> t.category in cats[1..]
  {
    OutsideCategoryMembers(rows, cats[0]);
    forall t | t in OutsideCategory(rows, cats[0])
      ensures t.category in cats[1..]
    {
      var k :| 0 <= k < |cats| && cats[k] == t.category;
      assert cats[k] == cats[1..][k - 1];
    }
  }

  lemma {:induction false} EntrySums(c: Category, rows: seq<Transaction>)
    ensures TotalsSum(Entry(c, rows)) == Sum(InCategory(rows, c))
    ensures CountsSum(Entry(c, rows)) == |InCategory(rows, c)|
  {
    var e := Entry(c, rows);
    if e != [] {
      assert e[1..] == [];
    }
  }

  /**
   * Conservation: the selected month's totals add up to the sum of that
   * month's amounts, and its counts to the number of that month's rows.
   */
  lemma {:induction false} CategoryTotalsConserve(rows: seq<Transaction>, m: YearMonth)
    ensures TotalsSum(CategoryTotals(rows, Some(m))) == Sum(InMonth(rows, m))
    ensures CountsSum(CategoryTotals(rows, Some(m))) == |InMonth(rows, m)|
  {
    var monthly := InMonth(rows, m);
    if rows != [] && monthly != [] {
      CategoriesByNameAscending();
      forall t | t in monthly
        ensures t.category in CATEGORIES_BY_NAME
      {
        CategoriesByNameComplete(t.category);
      }
      GroupByConserves(CATEGORIES_BY_NAME, monthly);
    } else if rows == [] {
      assert monthly == [];
    }
  }

  /** One row of the totals table as displayed. */
  datatype TotalRow = TotalRow(category: string, total: string, count: nat)

  /** The totals table as displayed, the total rendered as currency. */
  function MonthlyTotals(rows: seq<Transaction>, selected: Option<YearMonth>): (v: seq<TotalRow>)
    ensures var ts := CategoryTotals(rows, selected);
      && |v| == |ts|
      && forall i :: 0 <= i < |v| ==>
        && v[i].category == Name(ts[i].category)
        && v[i].total == Currency.Format(ts[i].total)
        && Currency.Parse(v[i].total) == Some(ts[i].total)
        && v[i].count == ts[i].count
    ensures forall i, j :: 0 <= i < j < |v| ==> Text.StrLess(v[i].category, v[j].category)
  {
    var ts := CategoryTotals(rows, selected);
    Currency.FormatRoundTripAll();
    seq(|ts|, i requires 0 <= i < |ts| => TotalRow(Name(ts[i].category), Currency.Format(ts[i].total), ts[i].count))
  }
}
