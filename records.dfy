/**
 * The ledger's values: budget categories, calendar dates, transaction
 * records, the add-transaction form, and the six sample rows the ledger
 * starts with.
 */
module Records {
  import opened Text
  import opened Options

  /** The closed set of budget categories offered by the form's select box. */
  datatype Category =
    | Housing | Food | Clothing | Education | Transportation
    | Communications | Health | Recreation | Other | Debt
    | FastOffering | Tithing | Income

  /** The label each category carries in the data and in both views. */
  function Name(c: Category): string
  {
    match c
    case Housing => "Housing"
    case Food => "Food"
    case Clothing => "Clothing"
    case Education => "Education"
    case Transportation => "Transportation"
    case Communications => "Communications"
    case Health => "Health"
    case Recreation => "Recreation"
    case Other => "Other"
    case Debt => "Debt"
    case FastOffering => "Fast Offering"
    case Tithing => "Tithing"
    case Income => "Income"
  }

  /** The categories in the order the form lists them. */
  const BUDGET_CATEGORIES: seq<Category> := [
    Housing, Food, Clothing, Education, Transportation,
    Communications, Health, Recreation, Other, Debt,
    FastOffering, Tithing, Income
  ]

  /** The same categories, ordered by their names. */
  const CATEGORIES_BY_NAME: seq<Category> := [
    Clothing, Communications, Debt, Education, FastOffering, Food, Health,
    Housing, Income, Other, Recreation, Tithing, Transportation
  ]

  /** Both lists hold every category; the second holds each once (see CategoriesByNameAscending). */
  lemma {:induction false} CategoriesByNameComplete(c: Category)
    ensures c in BUDGET_CATEGORIES && c in CATEGORIES_BY_NAME
    ensures |CATEGORIES_BY_NAME| == |BUDGET_CATEGORIES| == 13
  {
    match c
    case Housing =>
    case Food =>
    case Clothing =>
    case Education =>
    case Transportation =>
    case Communications =>
    case Health =>
    case Recreation =>
    case Other =>
    case Debt =>
    case FastOffering =>
    case Tithing =>
    case Income =>
  }

  lemma AllCategoriesByName()
    ensures forall c: Category :: c in CATEGORIES_BY_NAME
  {
    forall c: Category
      ensures c in CATEGORIES_BY_NAME
    {
      CategoriesByNameComplete(c);
    }
  }

  /** Ordering by name is strict: the names are pairwise distinct and ascending. */
  lemma CategoriesByNameAscending()
    ensures forall i, j :: 0 <= i < j < |CATEGORIES_BY_NAME| ==>
      StrLess(Name(CATEGORIES_BY_NAME[i]), Name(CATEGORIES_BY_NAME[j]))
  {
    NeighboursAscending();
    AscendingFromNeighbours(CATEGORIES_BY_NAME);
  }

  lemma NeighboursAscending()
    ensures forall k :: 0 <= k < |CATEGORIES_BY_NAME| - 1 ==>
      StrLess(Name(CATEGORIES_BY_NAME[k]), Name(CATEGORIES_BY_NAME[k + 1]))
  {
    assert StrLess("Clothing", "Communications");
    assert StrLess("Communications", "Debt");
    assert StrLess("Debt", "Education");
    assert StrLess("Education", "Fast Offering");
    assert StrLess("Fast Offering", "Food");
    assert StrLess("Food", "Health");
    assert StrLess("Health", "Housing");
    assert StrLess("Housing", "Income");
    assert StrLess("Income", "Other");
    assert StrLess("Other", "Recreation");
    assert StrLess("Recreation", "Tithing");
    assert StrLess("Tithing", "Transportation");
  }

  /** A list whose neighbours are in strict name order is in strict name order throughout. */
  lemma {:induction false} AscendingFromNeighbours(cs: seq<Category>)
    requires forall k :: 0 <= k < |cs| - 1 ==> StrLess(Name(cs[k]), Name(cs[k + 1]))
    ensures forall i, j :: 0 <= i < j < |cs| ==> StrLess(Name(cs[i]), Name(cs[j]))
  {
    forall i, j | 0 <= i < j < |cs|
      ensures StrLess(Name(cs[i]), Name(cs[j]))
    {
      ChainLess(cs, i, j);
    }
  }

  lemma {:induction false} ChainLess(cs: seq<Category>, i: int, j: int)
    requires forall k :: 0 <= k < |cs| - 1 ==> StrLess(Name(cs[k]), Name(cs[k + 1]))
    requires 0 <= i < j < |cs|
    ensures StrLess(Name(cs[i]), Name(cs[j]))
    decreases j - i
  {
    if i + 1 < j {
      ChainLess(cs, i + 1, j);
      StrLessTransitive(Name(cs[i]), Name(cs[i + 1]), Name(cs[j]));
    }
  }

  /** Categories at different positions of the by-name list have different names. */
  lemma {:induction false} DistinctPositions(i: int, j: int)
    requires 0 <= i < |CATEGORIES_BY_NAME| && 0 <= j < |CATEGORIES_BY_NAME| && i != j
    ensures Name(CATEGORIES_BY_NAME[i]) != Name(CATEGORIES_BY_NAME[j])
  {
    CategoriesByNameAscending();
    if i < j {
      assert StrLess(Name(CATEGORIES_BY_NAME[i]), Name(CATEGORIES_BY_NAME[j]));
    } else {
      assert StrLess(Name(CATEGORIES_BY_NAME[j]), Name(CATEGORIES_BY_NAME[i]));
    }
  }

  /** Different categories carry different names. */
  lemma {:induction false} NameInjective(a: Category, b: Category)
    ensures Name(a) == Name(b) ==> a == b
  {
    if a != b {
      CategoriesByNameComplete(a);
      CategoriesByNameComplete(b);
      var cs := CATEGORIES_BY_NAME;
      var i :| 0 <= i < |cs| && cs[i] == a;
      var j :| 0 <= j < |cs| && cs[j] == b;
      DistinctPositions(i, j);
    }
  }

  /** The years a Python date can hold (datetime.MINYEAR to datetime.MAXYEAR). */
  type Year = y: int | 1 <= y <= 9999 witness 1
  type MonthNumber = m: int | 1 <= m <= 12 witness 1
  type DayNumber = d: int | 1 <= d <= 31 witness 1

  /** A calendar date without a time of day. */
  datatype Date = Date(year: Year, month: MonthNumber, day: DayNumber)

  /** Chronological order. */
  predicate DateLe(a: Date, b: Date)
  {
    a.year < b.year || (a.year == b.year && (a.month < b.month || (a.month == b.month && a.day <= b.day)))
  }

  /** A calendar month, the granularity of the monthly totals. */
  datatype YearMonth = YearMonth(year: Year, month: MonthNumber)

  function MonthOf(d: Date): YearMonth
  {
    YearMonth(d.year, d.month)
  }

  /** Chronological order of months. */
  predicate MonthBefore(a: YearMonth, b: YearMonth)
  {
    a.year < b.year || (a.year == b.year && a.month < b.month)
  }

  /** The characters strftime('%Y-%m-%d') writes: zero-padded year, month and day, dash-separated. */
  function DateText(d: Date): string
  {
    Fixed(d.year, 4) + ("-" + (Fixed(d.month, 2) + ("-" + Fixed(d.day, 2))))
  }

  /** The date as strftime('%Y-%m-%d') writes it: the fields read back as the date. */
  function FormatDate(d: Date): (s: string)
    ensures |s| == 10 && s[4] == '-' && s[7] == '-'
    ensures AllDigits(s[..4]) && DigitsValue(s[..4]) == d.year
    ensures AllDigits(s[5..7]) && DigitsValue(s[5..7]) == d.month
    ensures AllDigits(s[8..]) && DigitsValue(s[8..]) == d.day
  {
    var y, m, dd := Fixed(d.year, 4), Fixed(d.month, 2), Fixed(d.day, 2);
    FixedValue(d.year, 4);
    FixedValue(d.month, 2);
    FixedValue(d.day, 2);
    var s := DateText(d);
    assert s[..4] == y && s[5..7] == m && s[8..] == dd;
    s
  }

  /** A fixed-width numeric field followed by a dash and the rest compares field first. */
  lemma {:induction false} FieldOrder(a1: string, a2: string, b1: string, b2: string)
    requires |a1| == |b1| && AllDigits(a1) && AllDigits(b1)
    ensures StrLe(a1 + ("-" + a2), b1 + ("-" + b2)) <==>
      DigitsValue(a1) < DigitsValue(b1) || (DigitsValue(a1) == DigitsValue(b1) && StrLe(a2, b2))
    ensures a1 + ("-" + a2) == b1 + ("-" + b2) <==> DigitsValue(a1) == DigitsValue(b1) && a2 == b2
  {
    FixedWidthOrder(a1, b1);
    StrLeConcat(a1, "-" + a2, b1, "-" + b2);
    StrLeConcat("-", a2, "-", b2);
    if a1 + ("-" + a2) == b1 + ("-" + b2) {
      assert a1 == (a1 + ("-" + a2))[..|a1|];
      assert a2 == (a1 + ("-" + a2))[|a1| + 1..];
    }
    if StrLe(a1, b1) && StrLe(b1, a1) {
      StrLeAntisymmetric(a1, b1);
    }
  }

  /** Comparing two formatted dates as strings compares the dates. */
  lemma {:induction false} FormatDateOrder(a: Date, b: Date)
    ensures StrLe(FormatDate(a), FormatDate(b)) <==> DateLe(a, b)
    ensures FormatDate(a) == FormatDate(b) <==> a == b
  {
    assert FormatDate(a) == DateText(a) && FormatDate(b) == DateText(b);
    DateTextOrder(a, b);
  }

  lemma {:induction false} DateTextOrder(a: Date, b: Date)
    ensures StrLe(DateText(a), DateText(b)) <==> DateLe(a, b)
    ensures DateText(a) == DateText(b) <==> a == b
  {
    var ya, yb := Fixed(a.year, 4), Fixed(b.year, 4);
    var ma, mb := Fixed(a.month, 2), Fixed(b.month, 2);
    var da, db := Fixed(a.day, 2), Fixed(b.day, 2);
    FixedValue(a.year, 4);
    FixedValue(b.year, 4);
    FixedValue(a.month, 2);
    FixedValue(b.month, 2);
    FixedValue(a.day, 2);
    FixedValue(b.day, 2);
    FieldOrder(ya, ma + ("-" + da), yb, mb + ("-" + db));
    FieldOrder(ma, da, mb, db);
    FixedWidthOrder(da, db);
  }

  /** One stored row; the amount is held exactly, in cents (negative: spent). */
  datatype Transaction = Transaction(
    date: Date,
    description: string,
    amount: int,
    vendor: string,
    category: Category,
    buyer: string,
    notes: string)

  /** Every stored row carries the three fields the form insists on. */
  predicate WellFormed(t: Transaction)
  {
    t.description != "" && t.vendor != "" && t.buyer != ""
  }

  /**
   * What the add-transaction form holds when its button is pressed. A text
   * field is None while it has no value at all. The model assumes that the
   * date picker, the amount box and the category box always hold a value.
   */
  datatype Form = Form(
    date: Date,
    description: Option<string>,
    amount: int,
    vendor: Option<string>,
    category: Category,
    buyer: Option<string>,
    notes: Option<string>)

  /** Python truthiness of an optional text value: present and non-empty. */
  predicate Truthy(field: Option<string>)
  {
    field.Some? && field.value != ""
  }

  /** The guard in front of an append: description, vendor and buyer all given. */
  predicate Complete(form: Form)
  {
    Truthy(form.description) && Truthy(form.vendor) && Truthy(form.buyer)
  }

  /** The row a submission becomes, or None when the guard stops it. */
  function NewTransaction(form: Form): (r: Option<Transaction>)
    ensures r.Some? <==> Complete(form)
    ensures r.Some? ==> WellFormed(r.value)
    ensures r.Some? ==>
      && r.value.date == form.date
      && r.value.description == form.description.value
      && r.value.amount == form.amount
      && r.value.vendor == form.vendor.value
      && r.value.category == form.category
      && r.value.buyer == form.buyer.value
      && r.value.notes == (if form.notes.Some? then form.notes.value else "")
  {
    if !Complete(form) then None
    else
      Some(Transaction(
        form.date,
        form.description.value,
        form.amount,
        form.vendor.value,
        form.category,
        form.buyer.value,
        if Truthy(form.notes) then form.notes.value else ""))
  }

  /** The six rows the ledger holds when the program starts. */
  function SampleData(): (r: seq<Transaction>)
    ensures |r| == 6
    ensures forall i :: 0 <= i < |r| ==> WellFormed(r[i])
  {
    [
      Transaction(Date(2024, 1, 15), "Rent Payment", -120000, "Property Management", Housing, "John", "Monthly rent for apartment"),
      Transaction(Date(2024, 1, 20), "Grocery Store", -8550, "Safeway", Food, "Jane", "Weekly grocery shopping"),
      Transaction(Date(2024, 1, 25), "Gas Station", -4500, "Shell", Transportation, "John", "Fill up tank"),
      Transaction(Date(2024, 2, 5), "Internet Bill", -7500, "Comcast", Communications, "John", "Monthly internet service"),
      Transaction(Date(2024, 2, 10), "Restaurant", -3200, "Local Diner", Food, "Jane", "Dinner with friends"),
      Transaction(Date(2024, 2, 15), "Salary", 350000, "Company", Income, "John", "Bi-weekly paycheck")
    ]
  }
}
