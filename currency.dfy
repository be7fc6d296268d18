/**
 * The currency rendering both views apply to amounts, Python's
 * f"${x:,.2f}", on an amount held exactly as integer cents: a dollar sign,
 * a minus sign for negative amounts, the whole dollars grouped in threes
 * with commas, a point and exactly two digits of cents.
 */
module Currency {
  import opened Text
  import opened Options

  function Abs(c: int): nat
  {
    if c < 0 then -c else c
  }

  /** A digit string with a comma before every group of three, counted from the right. */
  function GroupThousands(ds: string): (g: string)
    decreases |ds|
  {
    if |ds| <= 3 then ds else GroupThousands(ds[..|ds| - 3]) + "," + ds[|ds| - 3..]
  }

  /**
   * Digits and commas with a digit first, a comma exactly at every fourth
   * position counted from the right end, and nothing else.
   */
  predicate GroupedInThrees(g: string)
  {
    && |g| >= 1
    && IsDigit(g[0])
    && forall i :: 0 <= i < |g| ==> ((g[i] == ',') <==> (|g| - i) % 4 == 0) && (g[i] != ',' ==> IsDigit(g[i]))
  }

  function RemoveCommas(s: string): (r: string)
    ensures |r| <= |s|
  {
    if s == [] then [] else RemoveCommas(s[..|s| - 1]) + (if s[|s| - 1] == ',' then [] else [s[|s| - 1]])
  }

  lemma {:induction false} RemoveCommasAppend(a: string, b: string)
    ensures RemoveCommas(a + b) == RemoveCommas(a) + RemoveCommas(b)
    decreases |b|
  {
    if b == [] {
      assert a + b == a;
    } else {
      assert (a + b)[..|a + b| - 1] == a + b[..|b| - 1];
      RemoveCommasAppend(a, b[..|b| - 1]);
    }
  }

  lemma {:induction false} RemoveCommasOfDigits(ds: string)
    requires AllDigits(ds)
    ensures RemoveCommas(ds) == ds
  {
    if ds != [] {
      RemoveCommasOfDigits(ds[..|ds| - 1]);
      assert ds == ds[..|ds| - 1] + [ds[|ds| - 1]];
    }
  }

  /** Extending a grouped string by one more group of three keeps the shape. */
  lemma {:induction false} GroupedExtend(gp: string, t: string)
    requires GroupedInThrees(gp) && |t| == 3 && AllDigits(t)
    ensures GroupedInThrees(gp + "," + t)
  {
    var g := gp + "," + t;
    forall i | 0 <= i < |g|
      ensures ((g[i] == ',') <==> (|g| - i) % 4 == 0) && (g[i] != ',' ==> IsDigit(g[i]))
    {
      if i < |gp| {
        assert g[i] == gp[i];
        var k := |gp| - i;
        assert |g| - i == k + 4;
        assert (k + 4) % 4 == k % 4;
      } else if i == |gp| {
        assert |g| - i == 4;
      } else {
        assert g[i] == t[i - |gp| - 1];
        assert 1 <= |g| - i <= 3;
      }
    }
  }

  lemma {:induction false} GroupThousandsShape(ds: string)
    requires |ds| >= 1 && AllDigits(ds)
    ensures GroupedInThrees(GroupThousands(ds))
    ensures RemoveCommas(GroupThousands(ds)) == ds
    decreases |ds|
  {
    if |ds| <= 3 {
      RemoveCommasOfDigits(ds);
      ShortGrouped(ds);
    } else {
      var p, t := ds[..|ds| - 3], ds[|ds| - 3..];
      var gp := GroupThousands(p);
      GroupThousandsShape(p);
      assert GroupThousands(ds) == gp + "," + t;
      GroupedExtend(gp, t);
      RemoveCommasGroup(gp, t);
      assert p + t == ds;
    }
  }

  /** Up to three digits need no comma. */
  lemma {:induction false} ShortGrouped(ds: string)
    requires 1 <= |ds| <= 3 && AllDigits(ds)
    ensures GroupedInThrees(ds)
  {
    forall i | 0 <= i < |ds|
      ensures ((ds[i] == ',') <==> (|ds| - i) % 4 == 0) && (ds[i] != ',' ==> IsDigit(ds[i]))
    {
      assert IsDigit(ds[i]) && 1 <= |ds| - i <= 3;
    }
  }

  /** Removing the commas from one more group of three gives back its digits. */
  lemma {:induction false} RemoveCommasGroup(gp: string, t: string)
    requires AllDigits(t)
    ensures RemoveCommas(gp + "," + t) == RemoveCommas(gp) + t
  {
    RemoveCommasAppend(gp + ",", t);
    RemoveCommasAppend(gp, ",");
    assert RemoveCommas(",") == [];
    RemoveCommasOfDigits(t);
  }

  /** Cents 0..99 as exactly two digits. */
  function TwoDigits(n: nat): (s: string)
    requires n < 100
    ensures |s| == 2 && AllDigits(s) && DigitsValue(s) == n
  {
    var s := [DigitChar(n / 10), DigitChar(n % 10)];
    assert s[..1] == [DigitChar(n / 10)] && s[..1][..0] == [];
    assert DigitsValue(s[..1]) == n / 10;
    s
  }

  /**
   * r is c cents as f"${x:,.2f}" writes it: a dollar sign; a minus sign
   * exactly when c is negative; the whole dollars in digits without a
   * leading zero, grouped in threes with commas; a point; two digits of cents.
   */
  predicate CurrencyForm(r: string, c: int)
  {
    && |r| >= 5 && r[0] == '$'
    && ((r[1] == '-') <==> c < 0)
    && r[|r| - 3] == '.' && IsDigit(r[|r| - 2]) && IsDigit(r[|r| - 1])
    && GroupedInThrees(r[if c < 0 then 2 else 1 .. |r| - 3])
    && AllDigits(r[|r| - 2..]) && DigitsValue(r[|r| - 2..]) == Abs(c) % 100
    && var ds := RemoveCommas(r[if c < 0 then 2 else 1 .. |r| - 3]);
      AllDigits(ds) && DigitsValue(ds) == Abs(c) / 100 && (|ds| > 1 ==> ds[0] != '0')
  }

  /** f"${x:,.2f}" where x is c cents, written as "$" ["-"] grouped-dollars "." cents. */
  function Format(c: int): (r: string)
    ensures CurrencyForm(r, c)
  {
    var ds := Digits(Abs(c) / 100);
    var cents := TwoDigits(Abs(c) % 100);
    var r := (if c < 0 then "$-" else "$") + GroupThousands(ds) + "." + cents;
    FormatShape(c, ds, cents, r);
    r
  }

  /** The rendering built from the dollar digits and the cents has the shape Format promises. */
  lemma {:induction false} FormatShape(c: int, ds: string, cents: string, r: string)
    requires ds == Digits(Abs(c) / 100)
    requires |cents| == 2 && AllDigits(cents) && DigitsValue(cents) == Abs(c) % 100
    requires r == (if c < 0 then "$-" else "$") + GroupThousands(ds) + "." + cents
    ensures CurrencyForm(r, c)
  {
    var dollars := GroupThousands(ds);
    GroupThousandsShape(ds);
    DigitsRoundTrip(Abs(c) / 100);
    Assemble(c, if c < 0 then "$-" else "$", dollars, cents);
    assert r[if c < 0 then 2 else 1 .. |r| - 3] == dollars;
    assert RemoveCommas(dollars) == ds;
  }

  /** The pieces of a rendering put together have the shape Format promises. */
  lemma {:induction false} Assemble(c: int, head: string, dollars: string, cents: string)
    requires head == if c < 0 then "$-" else "$"
    requires GroupedInThrees(dollars)
    requires AllDigits(RemoveCommas(dollars)) && DigitsValue(RemoveCommas(dollars)) == Abs(c) / 100
    requires |cents| == 2 && AllDigits(cents) && DigitsValue(cents) == Abs(c) % 100
    ensures var r := head + dollars + "." + cents;
      && |r| >= 5 && r[0] == '$'
      && ((r[1] == '-') <==> c < 0)
      && r[|r| - 3] == '.' && IsDigit(r[|r| - 2]) && IsDigit(r[|r| - 1])
      && r[if c < 0 then 2 else 1 .. |r| - 3] == dollars
      && r[|r| - 2..] == cents
  {
    Slices(head, dollars, cents);
  }

  lemma {:induction false} Slices(head: string, dollars: string, cents: string)
    requires |dollars| >= 1 && |cents| == 2
    ensures var r := head + dollars + "." + cents;
      && |r| == |head| + |dollars| + 3
      && r[..|head|] == head
      && r[|head|] == dollars[0]
      && r[|head|..|r| - 3] == dollars
      && r[|r| - 3] == '.'
      && r[|r| - 2..] == cents
  {
  }

  /** Reads back a string of the shape Format produces. */
  function Parse(s: string): (r: Option<int>)
  {
    if |s| < 5 || s[0] != '$' || s[|s| - 3] != '.' then None
    else
      var neg := s[1] == '-';
      var ds := RemoveCommas(s[if neg then 2 else 1 .. |s| - 3]);
      var cents := s[|s| - 2..];
      if ds == [] || !AllDigits(ds) || !AllDigits(cents) then None
      else
        var m := DigitsValue(ds) * 100 + DigitsValue(cents);
        Some(if neg then -m else m)
  }

  lemma {:induction false} FormatRoundTrip(c: int)
    ensures Parse(Format(c)) == Some(c)
  {
    var r := Format(c);
    var ds := RemoveCommas(r[if c < 0 then 2 else 1 .. |r| - 3]);
    assert ds != [];
  }

  lemma FormatRoundTripAll()
    ensures forall c :: Parse(Format(c)) == Some(c)
  {
    forall c ensures Parse(Format(c)) == Some(c) {
      FormatRoundTrip(c);
    }
  }

  /** Different amounts never render alike. */
  lemma {:induction false} FormatInjective(a: int, b: int)
    requires Format(a) == Format(b)
    ensures a == b
  {
    FormatRoundTrip(a);
    FormatRoundTrip(b);
  }
}
