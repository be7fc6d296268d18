/**
 * The month selector: the distinct calendar months the ledger's rows fall
 * in, newest first, with the newest one selected.
 */
module Months {
  import opened Options
  import opened Records

  /** Every month strictly older than the one before it (hence no repeats). */
  predicate NewestFirst(ms: seq<YearMonth>)
  {
    forall i, j :: 0 <= i < j < |ms| ==> MonthBefore(ms[j], ms[i])
  }

  /** The months the rows' dates fall in. */
  function MonthsOf(rows: seq<Transaction>): set<YearMonth>
  {
    set i | 0 <= i < |rows| :: MonthOf(rows[i].date)
  }

  lemma {:induction false} MonthsOfSnoc(rows: seq<Transaction>)
    requires rows != []
    ensures MonthsOf(rows) == MonthsOf(rows[..|rows| - 1]) + {MonthOf(rows[|rows| - 1].date)}
  {
    var front := rows[..|rows| - 1];
    forall m | m in MonthsOf(rows)
      ensures m in MonthsOf(front) + {MonthOf(rows[|rows| - 1].date)}
    {
      var i :| 0 <= i < |rows| && MonthOf(rows[i].date) == m;
      if i < |front| {
        assert front[i] == rows[i];
      }
    }
    forall m | m in MonthsOf(front)
      ensures m in MonthsOf(rows)
    {
      var i :| 0 <= i < |front| && MonthOf(front[i].date) == m;
      assert rows[i] == front[i];
    }
  }

  /** Puts m into its place in a newest-first list, unless it is there already. */
  function Insert(m: YearMonth, ms: seq<YearMonth>): (r: seq<YearMonth>)
    requires NewestFirst(ms)
    ensures NewestFirst(r)
    ensures forall x :: x in r <==> x == m || x in ms
  {
    if ms == [] then [m]
    else if m == ms[0] then ms
    else if MonthBefore(ms[0], m) then [m] + ms
    else
      var r := Insert(m, ms[1..]);
      InsertBehind(m, ms, r);
      [ms[0]] + r
  }

  lemma {:induction false} InsertBehind(m: YearMonth, ms: seq<YearMonth>, r: seq<YearMonth>)
    requires NewestFirst(ms) && ms != [] && MonthBefore(m, ms[0])
    requires NewestFirst(r) && forall x :: x in r <==> x == m || x in ms[1..]
    ensures NewestFirst([ms[0]] + r)
  {
    var s := [ms[0]] + r;
    forall i, j | 0 <= i < j < |s|
      ensures MonthBefore(s[j], s[i])
    {
      if i == 0 {
        assert s[j] == r[j - 1] && r[j - 1] in r;
        if s[j] != m {
          var k :| 0 <= k < |ms[1..]| && ms[1..][k] == s[j];
          assert ms[k + 1] == s[j];
        }
      } else {
        assert s[i] == r[i - 1] && s[j] == r[j - 1];
      }
    }
  }

  /** The head of a newest-first list is at least as new as every member. */
  lemma {:induction false} NewestFirstHead(ms: seq<YearMonth>)
    requires NewestFirst(ms) && ms != []
    ensures forall x :: x in ms ==> !MonthBefore(ms[0], x)
  {
    forall x | x in ms
      ensures !MonthBefore(ms[0], x)
    {
      var k :| 0 <= k < |ms| && ms[k] == x;
    }
  }

  /** sorted(unique year-months, reverse=True). */
  function MonthList(rows: seq<Transaction>): (ms: seq<YearMonth>)
    ensures NewestFirst(ms)
    ensures forall m :: m in ms <==> m in MonthsOf(rows)
  {
    if rows == [] then []
    else
      MonthsOfSnoc(rows);
      Insert(MonthOf(rows[|rows| - 1].date), MonthList(rows[..|rows| - 1]))
  }

  /** The month the selector starts on: the newest, or none for an empty ledger. */
  function DefaultMonth(rows: seq<Transaction>): (sel: Option<YearMonth>)
    ensures sel.None? <==> rows == []
    ensures sel.Some? ==> sel.value in MonthsOf(rows)
    ensures sel.Some? ==> forall i :: 0 <= i < |rows| ==> !MonthBefore(sel.value, MonthOf(rows[i].date))
  {
    if |rows| == 0 then None
    else
      var ms := MonthList(rows);
      assert MonthOf(rows[0].date) in MonthsOf(rows);
      if |ms| == 0 then None
      else
        NewestFirstHead(ms);
        assert forall i :: 0 <= i < |rows| ==> MonthOf(rows[i].date) in MonthsOf(rows);
        Some(ms[0])
  }

  /** The list has no repeats: it holds exactly as many months as there are distinct ones. */
  lemma {:induction false} MonthListDistinct(rows: seq<Transaction>)
    ensures |MonthList(rows)| == |MonthsOf(rows)|
    ensures MonthList(rows) == [] <==> rows == []
  {
    var ms := MonthList(rows);
    NewestFirstCount(ms);
    assert (set i | 0 <= i < |ms| :: ms[i]) == MonthsOf(rows);
    if rows != [] {
      assert MonthOf(rows[0].date) in MonthsOf(rows);
    }
  }

  lemma {:induction false} NewestFirstCount(ms: seq<YearMonth>)
    requires NewestFirst(ms)
    ensures |set i | 0 <= i < |ms| :: ms[i]| == |ms|
  {
    if ms != [] {
      var rest := ms[1..];
      NewestFirstCount(rest);
      var s := set i | 0 <= i < |ms| :: ms[i];
      var t := set i | 0 <= i < |rest| :: rest[i];
      assert s == t + {ms[0]} by {
        forall x | x in s ensures x in t + {ms[0]} {
          var i :| 0 <= i < |ms| && ms[i] == x;
          if i > 0 {
            assert rest[i - 1] == x;
          }
        }
        forall x | x in t ensures x in s {
          var i :| 0 <= i < |rest| && rest[i] == x;
          assert ms[i + 1] == x;
        }
      }
      assert ms[0] !in t;
    }
  }
}
