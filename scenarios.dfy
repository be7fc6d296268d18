/**
 * The views over the ledger the program starts with, worked out in full:
 * two months, February selected, its three category totals, and the
 * rendering of some amounts.
 */
module Scenarios {
  import opened Options
  import opened Records
  import opened Months
  import opened Totals
  import Currency
  import Listing
  import Store

  const JANUARY := YearMonth(2024, 1)
  const FEBRUARY := YearMonth(2024, 2)

  /** The first three sample rows are January's, the last three February's. */
  lemma SampleMonths()
    ensures InMonth(SampleData(), JANUARY) == SampleData()[..3]
    ensures InMonth(SampleData(), FEBRUARY) == SampleData()[3..]
  {
    var s := SampleData();
    assert s[..1][..0] == [];
    assert InMonth(s[..1], FEBRUARY) == [];
    assert InMonth(s[..1], JANUARY) == [s[0]];
    assert s[..2][..1] == s[..1];
    assert InMonth(s[..2], FEBRUARY) == [];
    assert InMonth(s[..2], JANUARY) == [s[0], s[1]];
    assert s[..3][..2] == s[..2];
    assert InMonth(s[..3], FEBRUARY) == [];
    assert InMonth(s[..3], JANUARY) == s[..3];
    assert s[..4][..3] == s[..3];
    assert InMonth(s[..4], FEBRUARY) == [s[3]];
    assert InMonth(s[..4], JANUARY) == s[..3];
    assert s[..5][..4] == s[..4];
    assert InMonth(s[..5], FEBRUARY) == [s[3], s[4]];
    assert InMonth(s[..5], JANUARY) == s[..3];
    assert s[..6][..5] == s[..5];
    assert s[..6] == s;
  }


  /** A category no row has gets no entry. */
  lemma {:induction false} AbsentEntry(rows: seq<Transaction>, c: Category)
    requires forall i :: 0 <= i < |rows| ==> rows[i].category != c
    ensures Entry(c, rows) == []
  {
    if rows != [] {
      var front := rows[..|rows| - 1];
      assert forall i :: 0 <= i < |front| ==> front[i] == rows[i];
      AbsentEntry(front, c);
    }
  }

  lemma {:induction false} GroupByUnfold(cats: seq<Category>, rows: seq<Transaction>)
    requires cats != [] && NamesAscending(cats)
    ensures NamesAscending(cats[1..])
    ensures GroupBy(cats, rows) == Entry(cats[0], rows) + GroupBy(cats[1..], rows)
  {
  }



  /** The month selector over the sample rows: February, then January; February selected. */
  lemma SampleMonthList()
    ensures MonthList(SampleData()) == [FEBRUARY, JANUARY]
    ensures DefaultMonth(SampleData()) == Some(FEBRUARY)
  {
    var s := SampleData();
    assert s[..1][..0] == [];
    assert MonthList(s[..1]) == [JANUARY];
    assert s[..2][..1] == s[..1];
    assert MonthList(s[..2]) == [JANUARY];
    assert s[..3][..2] == s[..2];
    assert MonthList(s[..3]) == [JANUARY];
    assert s[..4][..3] == s[..3];
    assert MonthList(s[..4]) == [FEBRUARY, JANUARY];
    assert s[..5][..4] == s[..4];
    assert MonthList(s[..5]) == [FEBRUARY, JANUARY];
    assert s[..6][..5] == s[..5];
    assert s[..6] == s;
  }

  /** Three rows of three different categories x, y and z, in that order. */
  predicate ThreeShape(rows: seq<Transaction>, x: Category, y: Category, z: Category)
  {
    && |rows| == 3 && rows[0].category == x && rows[1].category == y && rows[2].category == z
    && x != y && y != z && x != z
  }

  /** The totals such rows give over a list of categories: one entry for each of x, y and z. */
  function ThreeEntries(cats: seq<Category>, rows: seq<Transaction>, x: Category, y: Category, z: Category): seq<CategoryTotal>
    requires ThreeShape(rows, x, y, z)
  {
    if cats == [] then []
    else
      var c := cats[0];
      var here :=
        if c == x then [CategoryTotal(c, rows[0].amount, 1)]
        else if c == y then [CategoryTotal(c, rows[1].amount, 1)]
        else if c == z then [CategoryTotal(c, rows[2].amount, 1)]
        else [];
      here + ThreeEntries(cats[1..], rows, x, y, z)
  }

  lemma {:induction false} ThreeCategories(rows: seq<Transaction>, x: Category, y: Category, z: Category)
    requires ThreeShape(rows, x, y, z)
    ensures InCategory(rows, x) == [rows[0]]
    ensures InCategory(rows, y) == [rows[1]]
    ensures InCategory(rows, z) == [rows[2]]
  {
    var r1, r2 := rows[..1], rows[..2];
    assert r1[..0] == [] && r2[..1] == r1 && rows[..2] == r2;
    assert InCategory(r1, x) == [rows[0]];
    assert InCategory(r1, y) == [];
    assert InCategory(r1, z) == [];
    assert InCategory(r2, x) == [rows[0]];
    assert InCategory(r2, y) == [rows[1]];
    assert InCategory(r2, z) == [];
  }

  lemma {:induction false} ThreeEntry(c: Category, rows: seq<Transaction>, x: Category, y: Category, z: Category)
    requires ThreeShape(rows, x, y, z)
    ensures Entry(c, rows) ==
      if c == x then [CategoryTotal(c, rows[0].amount, 1)]
      else if c == y then [CategoryTotal(c, rows[1].amount, 1)]
      else if c == z then [CategoryTotal(c, rows[2].amount, 1)]
      else []
  {
    if c == x || c == y || c == z {
      ThreeCategories(rows, x, y, z);
      var k := if c == x then 0 else if c == y then 1 else 2;
      assert InCategory(rows, c) == [rows[k]];
      assert [rows[k]][..0] == [];
      assert Sum([rows[k]]) == rows[k].amount;
    } else {
      AbsentEntry(rows, c);
    }
  }

  /** Grouping three rows of different categories gives each its own entry, in the order of cats. */
  lemma {:induction false} ThreeGroups(cats: seq<Category>, rows: seq<Transaction>, x: Category, y: Category, z: Category)
    requires ThreeShape(rows, x, y, z) && NamesAscending(cats)
    ensures GroupBy(cats, rows) == ThreeEntries(cats, rows, x, y, z)
  {
    if cats != [] {
      GroupByUnfold(cats, rows);
      ThreeGroups(cats[1..], rows, x, y, z);
      ThreeEntry(cats[0], rows, x, y, z);
    }
  }

  lemma {:induction false} FebruaryByNameFrom9(rows: seq<Transaction>)
    requires ThreeShape(rows, Communications, Food, Income)
    ensures ThreeEntries([Other, Recreation, Tithing, Transportation], rows, Communications, Food, Income) == []
  {
    assert ThreeEntries([Transportation], rows, Communications, Food, Income) == [];
    assert ThreeEntries([Tithing, Transportation], rows, Communications, Food, Income) == [];
    assert ThreeEntries([Recreation, Tithing, Transportation], rows, Communications, Food, Income) == [];
    assert ThreeEntries([Other, Recreation, Tithing, Transportation], rows, Communications, Food, Income) == [];
  }

  lemma {:induction false} FebruaryByNameFrom6(rows: seq<Transaction>)
    requires ThreeShape(rows, Communications, Food, Income)
    ensures ThreeEntries([Health, Housing, Income, Other, Recreation, Tithing, Transportation], rows, Communications, Food, Income) == [CategoryTotal(Income, rows[2].amount, 1)]
  {
    FebruaryByNameFrom9(rows);
    assert ThreeEntries([Income, Other, Recreation, Tithing, Transportation], rows, Communications, Food, Income) == [CategoryTotal(Income, rows[2].amount, 1)];
    assert ThreeEntries([Housing, Income, Other, Recreation, Tithing, Transportation], rows, Communications, Food, Income) == [CategoryTotal(Income, rows[2].amount, 1)];
    assert ThreeEntries([Health, Housing, Income, Other, Recreation, Tithing, Transportation], rows, Communications, Food, Income) == [CategoryTotal(Income, rows[2].amount, 1)];
  }

  lemma {:induction false} FebruaryByNameFrom5(rows: seq<Transaction>)
    requires ThreeShape(rows, Communications, Food, Income)
    ensures ThreeEntries([Food, Health, Housing, Income, Other, Recreation, Tithing, Transportation], rows, Communications, Food, Income) == [CategoryTotal(Food, rows[1].amount, 1), CategoryTotal(Income, rows[2].amount, 1)]
  {
    FebruaryByNameFrom6(rows);
  }

  lemma {:induction false} FebruaryByNameFrom3(rows: seq<Transaction>)
    requires ThreeShape(rows, Communications, Food, Income)
    ensures ThreeEntries([Education, FastOffering, Food, Health, Housing, Income, Other, Recreation, Tithing, Transportation], rows, Communications, Food, Income) == [CategoryTotal(Food, rows[1].amount, 1), CategoryTotal(Income, rows[2].amount, 1)]
  {
    FebruaryByNameFrom5(rows);
    assert ThreeEntries([FastOffering, Food, Health, Housing, Income, Other, Recreation, Tithing, Transportation], rows, Communications, Food, Income) == [CategoryTotal(Food, rows[1].amount, 1), CategoryTotal(Income, rows[2].amount, 1)];
  }

  /** Over the categories by name: one entry for each of Communications, Food, Income. */
  lemma {:induction false} FebruaryByName(rows: seq<Transaction>)
    requires ThreeShape(rows, Communications, Food, Income)
    ensures ThreeEntries(CATEGORIES_BY_NAME, rows, Communications, Food, Income) == [CategoryTotal(Communications, rows[0].amount, 1), CategoryTotal(Food, rows[1].amount, 1), CategoryTotal(Income, rows[2].amount, 1)]
  {
    FebruaryByNameFrom3(rows);
    assert ThreeEntries([Debt, Education, FastOffering, Food, Health, Housing, Income, Other, Recreation, Tithing, Transportation], rows, Communications, Food, Income) == [CategoryTotal(Food, rows[1].amount, 1), CategoryTotal(Income, rows[2].amount, 1)];
    assert ThreeEntries([Communications, Debt, Education, FastOffering, Food, Health, Housing, Income, Other, Recreation, Tithing, Transportation], rows, Communications, Food, Income) == [CategoryTotal(Communications, rows[0].amount, 1), CategoryTotal(Food, rows[1].amount, 1), CategoryTotal(Income, rows[2].amount, 1)];
    assert ThreeEntries([Clothing, Communications, Debt, Education, FastOffering, Food, Health, Housing, Income, Other, Recreation, Tithing, Transportation], rows, Communications, Food, Income) == [CategoryTotal(Communications, rows[0].amount, 1), CategoryTotal(Food, rows[1].amount, 1), CategoryTotal(Income, rows[2].amount, 1)];
  }

  lemma {:induction false} JanuaryByNameFrom9(rows: seq<Transaction>)
    requires ThreeShape(rows, Housing, Food, Transportation)
    ensures ThreeEntries([Other, Recreation, Tithing, Transportation], rows, Housing, Food, Transportation) == [CategoryTotal(Transportation, rows[2].amount, 1)]
  {
    assert ThreeEntries([Transportation], rows, Housing, Food, Transportation) == [CategoryTotal(Transportation, rows[2].amount, 1)];
    assert ThreeEntries([Tithing, Transportation], rows, Housing, Food, Transportation) == [CategoryTotal(Transportation, rows[2].amount, 1)];
    assert ThreeEntries([Recreation, Tithing, Transportation], rows, Housing, Food, Transportation) == [CategoryTotal(Transportation, rows[2].amount, 1)];
    assert ThreeEntries([Other, Recreation, Tithing, Transportation], rows, Housing, Food, Transportation) == [CategoryTotal(Transportation, rows[2].amount, 1)];
  }

  lemma {:induction false} JanuaryByNameFrom6(rows: seq<Transaction>)
    requires ThreeShape(rows, Housing, Food, Transportation)
    ensures ThreeEntries([Health, Housing, Income, Other, Recreation, Tithing, Transportation], rows, Housing, Food, Transportation) == [CategoryTotal(Housing, rows[0].amount, 1), CategoryTotal(Transportation, rows[2].amount, 1)]
  {
    JanuaryByNameFrom9(rows);
    assert ThreeEntries([Income, Other, Recreation, Tithing, Transportation], rows, Housing, Food, Transportation) == [CategoryTotal(Transportation, rows[2].amount, 1)];
    assert ThreeEntries([Housing, Income, Other, Recreation, Tithing, Transportation], rows, Housing, Food, Transportation) == [CategoryTotal(Housing, rows[0].amount, 1), CategoryTotal(Transportation, rows[2].amount, 1)];
    assert ThreeEntries([Health, Housing, Income, Other, Recreation, Tithing, Transportation], rows, Housing, Food, Transportation) == [CategoryTotal(Housing, rows[0].amount, 1), CategoryTotal(Transportation, rows[2].amount, 1)];
  }

  lemma {:induction false} JanuaryByNameFrom3(rows: seq<Transaction>)
    requires ThreeShape(rows, Housing, Food, Transportation)
    ensures ThreeEntries([Education, FastOffering, Food, Health, Housing, Income, Other, Recreation, Tithing, Transportation], rows, Housing, Food, Transportation) == [CategoryTotal(Food, rows[1].amount, 1), CategoryTotal(Housing, rows[0].amount, 1), CategoryTotal(Transportation, rows[2].amount, 1)]
  {
    JanuaryByNameFrom6(rows);
    assert ThreeEntries([Food, Health, Housing, Income, Other, Recreation, Tithing, Transportation], rows, Housing, Food, Transportation) == [CategoryTotal(Food, rows[1].amount, 1), CategoryTotal(Housing, rows[0].amount, 1), CategoryTotal(Transportation, rows[2].amount, 1)];
    assert ThreeEntries([FastOffering, Food, Health, Housing, Income, Other, Recreation, Tithing, Transportation], rows, Housing, Food, Transportation) == [CategoryTotal(Food, rows[1].amount, 1), CategoryTotal(Housing, rows[0].amount, 1), CategoryTotal(Transportation, rows[2].amount, 1)];
    assert ThreeEntries([Education, FastOffering, Food, Health, Housing, Income, Other, Recreation, Tithing, Transportation], rows, Housing, Food, Transportation) == [CategoryTotal(Food, rows[1].amount, 1), CategoryTotal(Housing, rows[0].amount, 1), CategoryTotal(Transportation, rows[2].amount, 1)];
  }

  /** Over the categories by name: one entry for each of Housing, Food, Transportation. */
  lemma {:induction false} JanuaryByName(rows: seq<Transaction>)
    requires ThreeShape(rows, Housing, Food, Transportation)
    ensures ThreeEntries(CATEGORIES_BY_NAME, rows, Housing, Food, Transportation) == [CategoryTotal(Food, rows[1].amount, 1), CategoryTotal(Housing, rows[0].amount, 1), CategoryTotal(Transportation, rows[2].amount, 1)]
  {
    JanuaryByNameFrom3(rows);
    assert ThreeEntries([Debt, Education, FastOffering, Food, Health, Housing, Income, Other, Recreation, Tithing, Transportation], rows, Housing, Food, Transportation) == [CategoryTotal(Food, rows[1].amount, 1), CategoryTotal(Housing, rows[0].amount, 1), CategoryTotal(Transportation, rows[2].amount, 1)];
    assert ThreeEntries([Communications, Debt, Education, FastOffering, Food, Health, Housing, Income, Other, Recreation, Tithing, Transportation], rows, Housing, Food, Transportation) == [CategoryTotal(Food, rows[1].amount, 1), CategoryTotal(Housing, rows[0].amount, 1), CategoryTotal(Transportation, rows[2].amount, 1)];
    assert ThreeEntries([Clothing, Communications, Debt, Education, FastOffering, Food, Health, Housing, Income, Other, Recreation, Tithing, Transportation], rows, Housing, Food, Transportation) == [CategoryTotal(Food, rows[1].amount, 1), CategoryTotal(Housing, rows[0].amount, 1), CategoryTotal(Transportation, rows[2].amount, 1)];
  }

  /** February of the sample data: one row each of Communications, Food and Income. */
  lemma FebruaryTotals()
    ensures CategoryTotals(SampleData(), Some(FEBRUARY)) == [
      CategoryTotal(Communications, -7500, 1),
      CategoryTotal(Food, -3200, 1),
      CategoryTotal(Income, 350000, 1)]
  {
    SampleMonths();
    var feb := SampleData()[3..];
    CategoriesByNameAscending();
    ThreeGroups(CATEGORIES_BY_NAME, feb, Communications, Food, Income);
    FebruaryByName(feb);
  }

  /** January of the sample data, ordered by name: Food, Housing, Transportation. */
  lemma JanuaryTotals()
    ensures CategoryTotals(SampleData(), Some(JANUARY)) == [
      CategoryTotal(Food, -8550, 1),
      CategoryTotal(Housing, -120000, 1),
      CategoryTotal(Transportation, -4500, 1)]
  {
    SampleMonths();
    var jan := SampleData()[..3];
    CategoriesByNameAscending();
    ThreeGroups(CATEGORIES_BY_NAME, jan, Housing, Food, Transportation);
    JanuaryByName(jan);
  }



  /** f"${123.45:,.2f}": the cents after the point. */
  lemma FormatCents()
    ensures Currency.Format(12345) == "$123.45"
  {
    assert Currency.Abs(12345) / 100 == 123 && Currency.Abs(12345) % 100 == 45;
    assert Text.DigitChar(1) == '1' && Text.DigitChar(2) == '2' && Text.DigitChar(3) == '3';
    assert Text.DigitChar(4) == '4' && Text.DigitChar(5) == '5';
    assert Text.Digits(12) == "12";
    assert Text.Digits(123) == "123";
    assert Currency.GroupThousands("123") == "123";
    assert Currency.TwoDigits(45) == "45";
    assert Currency.Format(12345) == "$" + "123" + "." + "45";
  }

  /** An amount spent: the minus sign follows the dollar sign. */
  lemma FormatInternetBill()
    ensures Currency.Format(-7500) == "$-75.00"
  {
    assert Currency.Abs(-7500) / 100 == 75 && Currency.Abs(-7500) % 100 == 0;
    assert Text.DigitChar(0) == '0' && Text.DigitChar(5) == '5' && Text.DigitChar(7) == '7';
    assert Text.Digits(7) == "7" && Text.Digits(75) == "75";
    assert Currency.GroupThousands("75") == "75";
    assert Currency.TwoDigits(0) == "00";
    assert Currency.Format(-7500) == "$-" + "75" + "." + "00";
  }

  lemma FormatRestaurant()
    ensures Currency.Format(-3200) == "$-32.00"
  {
    assert Currency.Abs(-3200) / 100 == 32 && Currency.Abs(-3200) % 100 == 0;
    assert Text.DigitChar(0) == '0' && Text.DigitChar(2) == '2' && Text.DigitChar(3) == '3';
    assert Text.Digits(3) == "3" && Text.Digits(32) == "32";
    assert Currency.GroupThousands("32") == "32";
    assert Currency.TwoDigits(0) == "00";
    assert Currency.Format(-3200) == "$-" + "32" + "." + "00";
  }

  /** Thousands are separated by a comma. */
  lemma FormatSalary()
    ensures Currency.Format(350000) == "$3,500.00"
  {
    assert Currency.Abs(350000) / 100 == 3500 && Currency.Abs(350000) % 100 == 0;
    assert Text.DigitChar(0) == '0' && Text.DigitChar(3) == '3' && Text.DigitChar(5) == '5';
    assert Text.Digits(3) == "3" && Text.Digits(35) == "35" && Text.Digits(350) == "350";
    assert Text.Digits(3500) == "3500";
    assert Currency.GroupThousands("3") == "3";
    assert "3500"[..1] == "3" && "3500"[1..] == "500";
    assert Currency.GroupThousands("3500") == "3,500";
    assert Currency.TwoDigits(0) == "00";
    assert Currency.Format(350000) == "$" + "3,500" + "." + "00";
  }

  lemma RentDollars()
    ensures Currency.GroupThousands(Text.Digits(1200)) == "1,200"
  {
    assert Text.DigitChar(0) == '0' && Text.DigitChar(1) == '1' && Text.DigitChar(2) == '2';
    assert Text.Digits(1) == "1" && Text.Digits(12) == "12" && Text.Digits(120) == "120";
    assert Text.Digits(1200) == "1200";
    assert Currency.GroupThousands("1") == "1";
    assert "1200"[..1] == "1" && "1200"[1..] == "200";
  }

  lemma FormatRent()
    ensures Currency.Format(-120000) == "$-1,200.00"
  {
    assert Currency.Abs(-120000) / 100 == 1200 && Currency.Abs(-120000) % 100 == 0;
    RentDollars();
    assert Text.DigitChar(0) == '0';
    assert Currency.TwoDigits(0) == "00";
    assert Currency.Format(-120000) == "$-" + "1,200" + "." + "00";
  }

  /** The names and renderings the February table shows. */
  lemma FebruaryRowTexts()
    ensures Name(Communications) == "Communications" && Currency.Format(-7500) == "$-75.00"
    ensures Name(Food) == "Food" && Currency.Format(-3200) == "$-32.00"
    ensures Name(Income) == "Income" && Currency.Format(350000) == "$3,500.00"
  {
    FormatInternetBill();
    FormatRestaurant();
    FormatSalary();
  }

  /** How the totals table displays one category total. */
  function Shown(t: CategoryTotal): TotalRow
  {
    TotalRow(Name(t.category), Currency.Format(t.total), t.count)
  }

  /** A table of three totals is displayed row by row. */
  lemma {:induction false} ThreeRowTable(rows: seq<Transaction>, selected: Option<YearMonth>, a: CategoryTotal, b: CategoryTotal, c: CategoryTotal)
    requires CategoryTotals(rows, selected) == [a, b, c]
    ensures MonthlyTotals(rows, selected) == [Shown(a), Shown(b), Shown(c)]
  {
    var v := MonthlyTotals(rows, selected);
    assert |v| == 3;
    assert v[0] == Shown(a) && v[1] == Shown(b) && v[2] == Shown(c);
    SeqOfThree(v, Shown(a), Shown(b), Shown(c));
  }

  lemma {:induction false} SeqOfThree<T>(v: seq<T>, a: T, b: T, c: T)
    requires |v| == 3 && v[0] == a && v[1] == b && v[2] == c
    ensures v == [a, b, c]
  {
  }

  /** The February totals table as displayed. */
  lemma FebruaryTable()
    ensures MonthlyTotals(SampleData(), Some(FEBRUARY)) == [
      TotalRow("Communications", "$-75.00", 1),
      TotalRow("Food", "$-32.00", 1),
      TotalRow("Income", "$3,500.00", 1)]
  {
    FebruaryTotals();
    ThreeRowTable(SampleData(), Some(FEBRUARY),
      CategoryTotal(Communications, -7500, 1), CategoryTotal(Food, -3200, 1), CategoryTotal(Income, 350000, 1));
    FebruaryRowTexts();
  }

  lemma FormatGrocery()
    ensures Currency.Format(-8550) == "$-85.50"
  {
    assert Currency.Abs(-8550) / 100 == 85 && Currency.Abs(-8550) % 100 == 50;
    assert Text.DigitChar(0) == '0' && Text.DigitChar(5) == '5' && Text.DigitChar(8) == '8';
    assert Text.Digits(8) == "8" && Text.Digits(85) == "85";
    assert Currency.GroupThousands("85") == "85";
    assert Currency.TwoDigits(50) == "50";
    assert Currency.Format(-8550) == "$-" + "85" + "." + "50";
  }

  lemma FormatGas()
    ensures Currency.Format(-4500) == "$-45.00"
  {
    assert Currency.Abs(-4500) / 100 == 45 && Currency.Abs(-4500) % 100 == 0;
    assert Text.DigitChar(0) == '0' && Text.DigitChar(4) == '4' && Text.DigitChar(5) == '5';
    assert Text.Digits(4) == "4" && Text.Digits(45) == "45";
    assert Currency.GroupThousands("45") == "45";
    assert Currency.TwoDigits(0) == "00";
    assert Currency.Format(-4500) == "$-" + "45" + "." + "00";
  }

  /** The names and renderings the January table shows. */
  lemma JanuaryRowTexts()
    ensures Name(Food) == "Food" && Currency.Format(-8550) == "$-85.50"
    ensures Name(Housing) == "Housing" && Currency.Format(-120000) == "$-1,200.00"
    ensures Name(Transportation) == "Transportation" && Currency.Format(-4500) == "$-45.00"
  {
    FormatGrocery();
    FormatRent();
    FormatGas();
  }

  /** The January totals table as displayed. */
  lemma JanuaryTable()
    ensures MonthlyTotals(SampleData(), Some(JANUARY)) == [
      TotalRow("Food", "$-85.50", 1),
      TotalRow("Housing", "$-1,200.00", 1),
      TotalRow("Transportation", "$-45.00", 1)]
  {
    JanuaryTotals();
    ThreeRowTable(SampleData(), Some(JANUARY),
      CategoryTotal(Food, -8550, 1), CategoryTotal(Housing, -120000, 1), CategoryTotal(Transportation, -4500, 1));
    JanuaryRowTexts();
  }

  /** After the clear button every view is empty and no month is selected. */
  lemma {:induction false} ClearedViews(selected: Option<YearMonth>)
    ensures MonthList([]) == [] && DefaultMonth([]) == None
    ensures CategoryTotals([], selected) == [] && MonthlyTotals([], selected) == []
    ensures Listing.AllTransactions([]) == []
  {
  }

  /** Groups over rows none of which has a category in cats: empty. */
  lemma {:induction false} GroupByNone(cats: seq<Category>, rows: seq<Transaction>)
    requires NamesAscending(cats)
    requires forall i, k :: 0 <= i < |rows| && 0 <= k < |cats| ==> rows[i].category != cats[k]
    ensures GroupBy(cats, rows) == []
  {
    if cats != [] {
      var tail := cats[1..];
      GroupByUnfold(cats, rows);
      assert forall i :: 0 <= i < |rows| ==> rows[i].category != cats[0];
      AbsentEntry(rows, cats[0]);
      forall i, k | 0 <= i < |rows| && 0 <= k < |tail|
        ensures rows[i].category != tail[k]
      {
        assert tail[k] == cats[k + 1];
      }
      GroupByNone(tail, rows);
    }
  }

  lemma {:induction false} SingleRowEntry(c: Category, t: Transaction)
    ensures Entry(c, [t]) == if c == t.category then [CategoryTotal(c, t.amount, 1)] else []
  {
    assert [t][..0] == [];
    assert Sum([t]) == t.amount;
  }

  /** A single row makes a single group. */
  lemma {:induction false} SingleRowGroups(cats: seq<Category>, t: Transaction)
    requires NamesAscending(cats) && t.category in cats
    ensures GroupBy(cats, [t]) == [CategoryTotal(t.category, t.amount, 1)]
  {
    var tail := cats[1..];
    GroupByUnfold(cats, [t]);
    SingleRowEntry(cats[0], t);
    if cats[0] == t.category {
      HeadNotInTail(cats);
      forall i, k | 0 <= i < |[t]| && 0 <= k < |tail|
        ensures [t][i].category != tail[k]
      {
        assert tail[k] in tail;
      }
      GroupByNone(tail, [t]);
      assert GroupBy(cats, [t]) == [CategoryTotal(t.category, t.amount, 1)] + [];
    } else {
      assert t.category in tail;
      SingleRowGroups(tail, t);
      assert GroupBy(cats, [t]) == [] + [CategoryTotal(t.category, t.amount, 1)];
    }
  }

  /** A ledger holding one row lists its month and totals it alone. */
  lemma {:induction false} SingleRowViews(t: Transaction)
    ensures MonthList([t]) == [MonthOf(t.date)] && DefaultMonth([t]) == Some(MonthOf(t.date))
    ensures CategoryTotals([t], Some(MonthOf(t.date))) == [CategoryTotal(t.category, t.amount, 1)]
  {
    SingleRowMonths(t);
    SingleRowTotals(t);
  }

  lemma {:induction false} SingleRowMonths(t: Transaction)
    ensures MonthList([t]) == [MonthOf(t.date)] && DefaultMonth([t]) == Some(MonthOf(t.date))
  {
    assert [t][..0] == [];
  }

  lemma {:induction false} SingleRowTotals(t: Transaction)
    ensures CategoryTotals([t], Some(MonthOf(t.date))) == [CategoryTotal(t.category, t.amount, 1)]
  {
    assert [t][..0] == [];
    assert InMonth([t], MonthOf(t.date)) == [t];
    CategoriesByNameAscending();
    CategoriesByNameComplete(t.category);
    SingleRowGroups(CATEGORIES_BY_NAME, t);
  }

  /** Appending a row to the end of a month's rows. */
  lemma {:induction false} InMonthSnoc(rows: seq<Transaction>, t: Transaction, m: YearMonth)
    ensures InMonth(rows + [t], m) == InMonth(rows, m) + (if MonthOf(t.date) == m then [t] else [])
  {
    assert (rows + [t])[..|rows|] == rows;
  }

  /** An accepted submission's month is listed in the month selector. */
  lemma {:induction false} AppendListsMonth(rows: seq<Transaction>, t: Transaction)
    ensures MonthOf(t.date) in MonthList(rows + [t])
  {
    var rows' := rows + [t];
    assert rows'[|rows'| - 1] == t;
    assert MonthOf(t.date) in MonthsOf(rows');
  }

  /**
   * An accepted submission adds its amount to its month's sum, one to its
   * month's count, and its category to that month's totals.
   */
  lemma {:induction false} AppendCountsInMonth(rows: seq<Transaction>, t: Transaction)
    ensures var m := MonthOf(t.date);
      && Sum(InMonth(rows + [t], m)) == Sum(InMonth(rows, m)) + t.amount
      && |InMonth(rows + [t], m)| == |InMonth(rows, m)| + 1
      && Listed(CategoryTotals(rows + [t], Some(m)), t.category)
  {
    var m := MonthOf(t.date);
    var rows' := rows + [t];
    InMonthSnoc(rows, t, m);
    SumAppend(InMonth(rows, m), [t]);
    assert [t][..0] == [];
    assert rows'[|rows'| - 1] == t;
    assert t in rows';
  }

  /** The totals of every other month stay as they were. */
  lemma {:induction false} AppendKeepsOtherMonths(rows: seq<Transaction>, t: Transaction, m: YearMonth)
    requires m != MonthOf(t.date)
    ensures CategoryTotals(rows + [t], Some(m)) == CategoryTotals(rows, Some(m))
  {
    InMonthSnoc(rows, t, m);
    if rows == [] {
      assert InMonth(rows, m) == [];
    } else {
      SameMonthRows(rows, rows + [t], m);
    }
  }

  /** The totals of a month depend only on that month's rows. */
  lemma {:induction false} SameMonthRows(a: seq<Transaction>, b: seq<Transaction>, m: YearMonth)
    requires a != [] && b != [] && InMonth(a, m) == InMonth(b, m)
    ensures CategoryTotals(a, Some(m)) == CategoryTotals(b, Some(m))
  {
  }

  /** The table of all transactions shows the new row, one row longer. */
  lemma {:induction false} AppendShown(rows: seq<Transaction>, t: Transaction)
    ensures Listing.Display(t) in Listing.AllTransactions(rows + [t])
    ensures |Listing.AllTransactions(rows + [t])| == |rows| + 1
  {
    var rows' := rows + [t];
    assert rows'[|rows'| - 1] == t;
    assert t in rows';
    Listing.AllTransactionsShowsLedger(rows');
  }

  /**
   * A session: the program starts, the data is cleared, one form is
   * submitted. The selector then offers the form's month alone, and the
   * totals of that month are the form's amount under its category.
   */
  method ClearThenAdd(form: Form) returns (added: bool, months: seq<YearMonth>, totals: seq<CategoryTotal>)
    ensures added <==> Complete(form)
    ensures added ==> months == [MonthOf(form.date)]
    ensures added ==> totals == [CategoryTotal(form.category, form.amount, 1)]
    ensures !added ==> months == [] && totals == []
  {
    var ledger := new Store.Ledger();
    ledger.Clear();
    added := ledger.Append(form);
    months := MonthList(ledger.rows);
    totals := CategoryTotals(ledger.rows, DefaultMonth(ledger.rows));
    if added {
      SingleRowViews(NewTransaction(form).value);
    }
  }

  /**
   * A session: the program starts and one form is submitted. A rejected
   * form leaves the selector on February and January, February selected;
   * an accepted one puts its month among the choices.
   */
  method StartAndSubmit(form: Form) returns (added: bool, months: seq<YearMonth>, selected: Option<YearMonth>)
    ensures added <==> Complete(form)
    ensures !added ==> months == [FEBRUARY, JANUARY] && selected == Some(FEBRUARY)
    ensures added ==> MonthOf(form.date) in months && selected.Some?
  {
    var ledger := new Store.Ledger();
    added := ledger.Append(form);
    months := MonthList(ledger.rows);
    selected := DefaultMonth(ledger.rows);
    if added {
      AppendListsMonth(SampleData(), NewTransaction(form).value);
    } else {
      SampleMonthList();
    }
  }
}
