/**
 * The all-transactions table: every stored row rendered for display (date
 * as YYYY-MM-DD, amount as currency, category under its name), then
 * sorted on the rendered date column, newest first.
 */
module Listing {
  import opened Text
  import opened Options
  import opened Records
  import Currency

  /** One row of the table as displayed, columns in display order. */
  datatype DisplayRow = DisplayRow(
    date: string,
    description: string,
    amount: string,
    vendor: string,
    category: string,
    buyer: string,
    notes: string)

  /** A stored row rendered for display; nothing is lost in the rendering. */
  function Display(t: Transaction): (r: DisplayRow)
    ensures r.amount == Currency.Format(t.amount) && Currency.Parse(r.amount) == Some(t.amount)
    ensures r.category == Name(t.category)
    ensures r.date == FormatDate(t.date)
    ensures r.description == t.description && r.vendor == t.vendor && r.buyer == t.buyer && r.notes == t.notes
  {
    Currency.FormatRoundTrip(t.amount);
    DisplayRow(FormatDate(t.date), t.description, Currency.Format(t.amount), t.vendor, Name(t.category), t.buyer, t.notes)
  }

  /** Two stored rows render alike only if they are the same row. */
  lemma {:induction false} DisplayInjective(a: Transaction, b: Transaction)
    ensures Display(a) == Display(b) <==> a == b
  {
    FormatDateOrder(a.date, b.date);
    Currency.FormatRoundTrip(a.amount);
    Currency.FormatRoundTrip(b.amount);
    NameInjective(a.category, b.category);
  }

  /** The stored rows rendered, in ledger order. */
  function DisplayAll(rows: seq<Transaction>): seq<DisplayRow>
  {
    seq(|rows|, i requires 0 <= i < |rows| => Display(rows[i]))
  }

  /** Non-increasing on the rendered date column. */
  predicate DatesNewestFirst(v: seq<DisplayRow>)
  {
    forall i, j :: 0 <= i < j < |v| ==> StrLe(v[j].date, v[i].date)
  }

  lemma {:induction false} InsertFront(x: DisplayRow, v: seq<DisplayRow>)
    requires DatesNewestFirst(v) && v != [] && StrLe(v[0].date, x.date)
    ensures DatesNewestFirst([x] + v)
  {
    var s := [x] + v;
    forall i, j | 0 <= i < j < |s|
      ensures StrLe(s[j].date, s[i].date)
    {
      if i == 0 {
        if j > 1 {
          StrLeTransitive(v[j - 1].date, v[0].date, x.date);
        }
      } else {
        assert s[i] == v[i - 1] && s[j] == v[j - 1];
      }
    }
  }

  lemma {:induction false} InsertBehind(x: DisplayRow, v: seq<DisplayRow>, r: seq<DisplayRow>)
    requires DatesNewestFirst(v) && v != [] && !StrLe(v[0].date, x.date)
    requires DatesNewestFirst(r) && multiset(r) == multiset(v[1..]) + multiset{x}
    ensures DatesNewestFirst([v[0]] + r)
  {
    var s := [v[0]] + r;
    StrLeTotal(v[0].date, x.date);
    forall i, j | 0 <= i < j < |s|
      ensures StrLe(s[j].date, s[i].date)
    {
      if i == 0 {
        var y := r[j - 1];
        assert y in multiset(r);
        if y != x {
          assert y in multiset(v[1..]);
          var k :| 0 <= k < |v[1..]| && v[1..][k] == y;
          assert v[k + 1] == y;
        }
      } else {
        assert s[i] == r[i - 1] && s[j] == r[j - 1];
      }
    }
  }

  /** Puts x into a newest-first list. */
  function Insert(x: DisplayRow, v: seq<DisplayRow>): (r: seq<DisplayRow>)
    requires DatesNewestFirst(v)
    ensures DatesNewestFirst(r)
    ensures multiset(r) == multiset(v) + multiset{x}
  {
    if v == [] then [x]
    else if StrLe(v[0].date, x.date) then
      InsertFront(x, v);
      [x] + v
    else
      var r := Insert(x, v[1..]);
      InsertBehind(x, v, r);
      assert v == [v[0]] + v[1..];
      [v[0]] + r
  }

  /** sort_values on the date column, descending: a newest-first permutation. */
  function SortNewestFirst(v: seq<DisplayRow>): (r: seq<DisplayRow>)
    ensures DatesNewestFirst(r)
    ensures multiset(r) == multiset(v)
  {
    if v == [] then []
    else
      assert v == [v[0]] + v[1..];
      Insert(v[0], SortNewestFirst(v[1..]))
  }

  /** The all-transactions table. */
  function AllTransactions(rows: seq<Transaction>): (v: seq<DisplayRow>)
    ensures |v| == |rows|
    ensures multiset(v) == multiset(DisplayAll(rows))
    ensures DatesNewestFirst(v)
  {
    if |rows| == 0 then []
    else
      var v := SortNewestFirst(DisplayAll(rows));
      assert |multiset(v)| == |v| && |multiset(DisplayAll(rows))| == |rows|;
      v
  }

  /** Every displayed row renders a stored row, and every stored row is displayed. */
  lemma {:induction false} AllTransactionsShowsLedger(rows: seq<Transaction>)
    ensures forall r :: r in AllTransactions(rows) ==> exists t :: t in rows && r == Display(t)
    ensures forall t :: t in rows ==> Display(t) in AllTransactions(rows)
  {
    var v := AllTransactions(rows);
    forall r | r in v
      ensures exists t :: t in rows && r == Display(t)
    {
      ShownIsStored(rows, v, r);
    }
    forall t | t in rows
      ensures Display(t) in v
    {
      StoredIsShown(rows, v, t);
    }
  }

  lemma {:induction false} ShownIsStored(rows: seq<Transaction>, v: seq<DisplayRow>, r: DisplayRow)
    requires multiset(v) == multiset(DisplayAll(rows)) && r in v
    ensures exists t :: t in rows && r == Display(t)
  {
    var d := DisplayAll(rows);
    assert r in multiset(d);
    var k :| 0 <= k < |d| && d[k] == r;
    assert rows[k] in rows;
  }

  lemma {:induction false} StoredIsShown(rows: seq<Transaction>, v: seq<DisplayRow>, t: Transaction)
    requires multiset(v) == multiset(DisplayAll(rows)) && t in rows
    ensures Display(t) in v
  {
    var d := DisplayAll(rows);
    var k :| 0 <= k < |rows| && rows[k] == t;
    assert d[k] == Display(t);
    assert Display(t) in multiset(d);
  }

  /** Read back to stored rows, the table runs from the newest date to the oldest. */
  lemma {:induction false} AllTransactionsChronological(rows: seq<Transaction>, i: int, j: int, a: Transaction, b: Transaction)
    requires 0 <= i < j < |AllTransactions(rows)|
    requires AllTransactions(rows)[i] == Display(a) && AllTransactions(rows)[j] == Display(b)
    ensures DateLe(b.date, a.date)
  {
    FormatDateOrder(b.date, a.date);
  }
}
