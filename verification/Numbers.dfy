/** Claim and policy numbers: six-digit padded formatting, reading a suffix back, string
    order, and the generator that adds one to the maximum. */
module Numbers {
  import opened Events

  // ---------------------------------------------------------------- decimal strings

  function Digit(d: nat): char
    requires d < 10
  {
    "0123456789"[d]
  }

  predicate IsDigit(c: char) {
    '0' <= c <= '9'
  }

  predicate AllDigits(s: string) {
    forall i :: 0 <= i < |s| ==> IsDigit(s[i])
  }

  function Decimal(n: nat): (r: string)
    ensures |r| > 0 && AllDigits(r)
  {
    if n < 10 then [Digit(n)] else Decimal(n / 10) + [Digit(n % 10)]
  }

  function Zeros(k: nat): (r: string)
    ensures |r| == k && AllDigits(r)
  {
    if k == 0 then "" else Zeros(k - 1) + "0"
  }

  // f"{n:06d}"
  function Padded(n: nat): (r: string)
    ensures |r| >= 6 && AllDigits(r)
  {
    var d := Decimal(n);
    if |d| < 6 then Zeros(6 - |d|) + d else d
  }

  function Value(s: string): nat
    requires AllDigits(s)
  {
    if s == "" then 0 else Value(s[..|s| - 1]) * 10 + (s[|s| - 1] as int - '0' as int)
  }

  // int(s); None is the ValueError
  function ParseInt(s: string): Option<nat> {
    if s != "" && AllDigits(s) then Some(Value(s)) else None
  }

  lemma {:induction false} ValueOfDecimal(n: nat)
    ensures Value(Decimal(n)) == n
  {
    if n >= 10 {
      ValueOfDecimal(n / 10);
      assert Decimal(n)[..|Decimal(n)| - 1] == Decimal(n / 10);
    }
  }

  lemma {:induction false} ValueOfPadding(k: nat, s: string)
    requires AllDigits(s)
    ensures Value(Zeros(k) + s) == Value(s)
    decreases k + |s|
  {
    if s != "" {
      ValueOfPadding(k, s[..|s| - 1]);
      assert (Zeros(k) + s)[..k + |s| - 1] == Zeros(k) + s[..|s| - 1];
    } else if k > 0 {
      ValueOfPadding(k - 1, "");
      assert Zeros(k) + "" == Zeros(k) && Zeros(k - 1) + "" == Zeros(k - 1);
      assert Zeros(k)[..k - 1] == Zeros(k - 1);
    } else {
      assert Zeros(0) + "" == "";
    }
  }

  /** Parsing undoes the six-digit format, for every number. */
  lemma PaddedRoundTrip(n: nat)
    ensures ParseInt(Padded(n)) == Some(n)
  {
    ValueOfDecimal(n);
    var d := Decimal(n);
    if |d| < 6 {
      ValueOfPadding(6 - |d|, d);
    }
  }

  function Power10(k: nat): nat {
    if k == 0 then 1 else 10 * Power10(k - 1)
  }

  const MILLION := 1_000_000

  lemma {:induction false} DecimalLength(n: nat, k: nat)
    requires k > 0
    ensures |Decimal(n)| <= k <==> n < Power10(k)
    decreases k
  {
    if k > 1 && n >= 10 {
      DecimalLength(n / 10, k - 1);
    } else if k > 1 {
      PowerAtLeast10(k);
    }
  }

  lemma {:induction false} PowerAtLeast10(k: nat)
    requires k > 0
    ensures Power10(k) >= 10
  {
    if k > 1 {
      PowerAtLeast10(k - 1);
    }
  }

  lemma SixDigitsIff(n: nat)
    ensures |Padded(n)| == 6 <==> n < MILLION
  {
    DecimalLength(n, 6);
    assert Power10(6) == MILLION by {
      assert Power10(2) == 100 && Power10(4) == 10_000;
    }
  }

  // ---------------------------------------------------------------- string order

  // The database's ORDER BY: character by character, a proper prefix first.
  predicate Below(a: string, b: string) {
    |b| > 0 && (|a| == 0 || a[0] < b[0] || (a[0] == b[0] && Below(a[1..], b[1..])))
  }

  lemma {:induction false} BelowAtTheEnd(x: string, y: string, c: char, d: char)
    requires |x| == |y|
    ensures Below(x + [c], y + [d]) <==> Below(x, y) || (x == y && c < d)
  {
    if x == "" {
      assert x + [c] == [c] && y + [d] == [d];
      assert [c][1..] == "" && [d][1..] == "";
    } else {
      BelowAtTheEnd(x[1..], y[1..], c, d);
      assert (x + [c])[1..] == x[1..] + [c] && (y + [d])[1..] == y[1..] + [d];
      assert x == [x[0]] + x[1..] && y == [y[0]] + y[1..];
    }
  }

  lemma {:induction false} BelowAfterPrefix(p: string, x: string, y: string)
    ensures Below(p + x, p + y) <==> Below(x, y)
  {
    if p == "" {
      assert p + x == x && p + y == y;
    } else {
      BelowAfterPrefix(p[1..], x, y);
      assert (p + x)[1..] == p[1..] + x && (p + y)[1..] == p[1..] + y;
    }
  }

  /** Between digit strings of one length, string order is numeric order. */
  lemma {:induction false} OrderIsValue(x: string, y: string)
    requires |x| == |y| && AllDigits(x) && AllDigits(y)
    ensures Below(x, y) <==> Value(x) < Value(y)
    ensures x == y <==> Value(x) == Value(y)
    decreases |x|
  {
    if x != "" {
      var n := |x| - 1;
      OrderIsValue(x[..n], y[..n]);
      BelowAtTheEnd(x[..n], y[..n], x[n], y[n]);
      assert x == x[..n] + [x[n]] && y == y[..n] + [y[n]];
    }
  }

  /** Padded numbers sort numerically as long as both have six digits. */
  lemma BelowMillion(m: nat, n: nat)
    requires m < MILLION && n < MILLION
    ensures Below(Padded(m), Padded(n)) <==> m < n
  {
    SixDigitsIff(m);
    SixDigitsIff(n);
    PaddedRoundTrip(m);
    PaddedRoundTrip(n);
    OrderIsValue(Padded(m), Padded(n));
  }

  lemma DecimalStep(n: nat, d: nat)
    requires n > 0 && d < 10
    ensures Decimal(10 * n + d) == Decimal(n) + [Digit(d)]
  {}

  lemma MillionDigits()
    ensures Padded(MILLION) == "1000000"
  {
    DecimalStep(1, 0);
    DecimalStep(10, 0);
    DecimalStep(100, 0);
    DecimalStep(1_000, 0);
    DecimalStep(10_000, 0);
    DecimalStep(100_000, 0);
  }

  lemma LastSixDigits()
    ensures Padded(MILLION - 1) == "999999"
  {
    DecimalStep(9, 9);
    DecimalStep(99, 9);
    DecimalStep(999, 9);
    DecimalStep(9_999, 9);
    DecimalStep(99_999, 9);
  }

  // The seventh digit breaks the order: '1' sorts below '9'.
  lemma MillionSortsLow()
    ensures Below(Padded(MILLION), Padded(MILLION - 1)) && !Below(Padded(MILLION - 1), Padded(MILLION))
  {
    MillionDigits();
    LastSixDigits();
    var a, b := "1000000", "999999";
    assert a[0] == '1' && b[0] == '9';
  }

  // ---------------------------------------------------------------- the number's parts

  // s.split("-")
  function Split(s: string): (parts: seq<string>)
    ensures |parts| > 0
  {
    if s == "" then [""]
    else
      var rest := Split(s[1..]);
      if s[0] == '-' then [""] + rest else [[s[0]] + rest[0]] + rest[1..]
  }

  predicate DashFree(s: string) {
    forall i :: 0 <= i < |s| ==> s[i] != '-'
  }

  lemma {:induction false} SplitAtDash(a: string, rest: string)
    requires DashFree(a)
    ensures Split(a + "-" + rest) == [a] + Split(rest)
  {
    var s := a + "-" + rest;
    if a == "" {
      assert s[1..] == rest;
    } else {
      SplitAtDash(a[1..], rest);
      assert s[1..] == a[1..] + "-" + rest;
      assert a == [a[0]] + a[1..];
    }
  }

  lemma {:induction false} SplitWhole(a: string)
    requires DashFree(a)
    ensures Split(a) == [a]
  {
    if a != "" {
      SplitWhole(a[1..]);
      assert a == [a[0]] + a[1..];
    }
  }

  function Prefix(kind: string, year: nat): string {
    kind + "-" + Decimal(year) + "-"
  }

  function Number(kind: string, year: nat, n: nat): string {
    Prefix(kind, year) + Padded(n)
  }

  // int(number.split("-")[-1])
  function LastPart(number: string): Option<nat> {
    var parts := Split(number);
    ParseInt(parts[|parts| - 1])
  }

  const MAX_INTEGER := 0x7fff_ffff

  // CAST(SPLIT_PART(number, '-', 3) AS INTEGER)
  function ThirdPart(number: string): Option<nat> {
    var parts := Split(number);
    var n := if |parts| < 3 then None else ParseInt(parts[2]);
    if n.Some? && n.value <= MAX_INTEGER then n else None
  }

  lemma PartsOfNumber(kind: string, year: nat, n: nat)
    requires DashFree(kind)
    ensures Split(Number(kind, year, n)) == [kind, Decimal(year), Padded(n)]
  {
    var tail := Decimal(year) + "-" + Padded(n);
    assert Number(kind, year, n) == kind + "-" + tail;
    SplitAtDash(kind, tail);
    SplitAtDash(Decimal(year), Padded(n));
    SplitWhole(Padded(n));
  }

  /** Both ways of reading the suffix back undo the format, for every number. */
  lemma NumberRoundTrip(kind: string, year: nat, n: nat)
    requires DashFree(kind)
    ensures LastPart(Number(kind, year, n)) == Some(n)
    ensures ThirdPart(Number(kind, year, n)) == if n <= MAX_INTEGER then Some(n) else None
  {
    PartsOfNumber(kind, year, n);
    PaddedRoundTrip(n);
  }

  lemma NumberInjective(kind: string, y1: nat, n1: nat, y2: nat, n2: nat)
    requires DashFree(kind) && Number(kind, y1, n1) == Number(kind, y2, n2)
    ensures y1 == y2 && n1 == n2
  {
    PartsOfNumber(kind, y1, n1);
    PartsOfNumber(kind, y2, n2);
    ValueOfDecimal(y1);
    ValueOfDecimal(y2);
    PaddedRoundTrip(n1);
    PaddedRoundTrip(n2);
  }

  lemma SameNumber(kind: string, y1: nat, n1: nat, y2: nat, n2: nat)
    requires DashFree(kind)
    ensures Number(kind, y1, n1) == Number(kind, y2, n2) <==> y1 == y2 && n1 == n2
  {
    if Number(kind, y1, n1) == Number(kind, y2, n2) {
      NumberInjective(kind, y1, n1, y2, n2);
    }
  }

  lemma {:induction false} SplitKeepsLast(s: string, c: string)
    requires DashFree(c)
    ensures Split(s + "-" + c)[|Split(s + "-" + c)| - 1] == c
  {
    var whole := s + "-" + c;
    if s == "" {
      assert whole[1..] == c;
      SplitWhole(c);
    } else {
      SplitKeepsLast(s[1..], c);
      assert whole[1..] == s[1..] + "-" + c;
      assert |Split(s[1..] + "-" + c)| > 1 by { SplitHasDash(s[1..], c); }
    }
  }

  lemma {:induction false} SplitHasDash(s: string, c: string)
    ensures |Split(s + "-" + c)| > 1
  {
    var whole := s + "-" + c;
    if s == "" {
      assert whole[0] == '-';
    } else {
      SplitHasDash(s[1..], c);
      assert whole[1..] == s[1..] + "-" + c;
    }
  }

  /** What the two readers read off any string: the part after the last dash, and the part between the second and third
      dashes, or to the end when there are only two. */
  lemma ReadersRead(s: string, a: string, b: string, c: string, rest: string)
    requires DashFree(a) && DashFree(b) && DashFree(c)
    ensures LastPart(s + "-" + c) == ParseInt(c)
    ensures var n := ParseInt(c);
            var read := if n.Some? && n.value <= 2147483647 then n else None;
            && ThirdPart(a + "-" + (b + "-" + c)) == read
            && ThirdPart(a + "-" + (b + "-" + (c + "-" + rest))) == read
  {
    SplitKeepsLast(s, c);
    SplitAtDash(a, b + "-" + c);
    SplitAtDash(b, c);
    SplitWhole(c);
    SplitAtDash(a, b + "-" + (c + "-" + rest));
    SplitAtDash(b, c + "-" + rest);
    SplitAtDash(c, rest);
  }

  /** A claim number, written out. */
  lemma NumberText()
    ensures Number("CLM", 2025, 7) == "CLM-2025-000007"
  {
    DecimalStep(2, 0);
    DecimalStep(20, 2);
    DecimalStep(202, 5);
    SevenPadded();
    assert Decimal(2025) == "2025";
  }

  lemma SevenPadded()
    ensures Padded(7) == "000007"
  {
    assert Decimal(7) == "7" && Zeros(5) == "00000";
  }

  predicate StartsWith(s: string, p: string) {
    |p| <= |s| && s[..|p|] == p
  }

  lemma PrefixSplits(kind: string, year: nat, s: string)
    requires DashFree(kind) && StartsWith(s, Prefix(kind, year))
    ensures |Split(s)| >= 2 && Split(s)[1] == Decimal(year)
  {
    var p := Prefix(kind, year);
    var rest := s[|p|..];
    assert s == kind + "-" + (Decimal(year) + "-" + rest);
    SplitAtDash(kind, Decimal(year) + "-" + rest);
    SplitAtDash(Decimal(year), rest);
  }

  /** The year's prefix selects that year's numbers and no other's. */
  lemma PrefixSelectsYear(kind: string, y1: nat, n: nat, y2: nat)
    requires DashFree(kind)
    ensures StartsWith(Number(kind, y1, n), Prefix(kind, y2)) <==> y1 == y2
  {
    if StartsWith(Number(kind, y1, n), Prefix(kind, y2)) {
      PrefixSplits(kind, y2, Number(kind, y1, n));
      PartsOfNumber(kind, y1, n);
      ValueOfDecimal(y1);
      ValueOfDecimal(y2);
    }
  }

  // ---------------------------------------------------------------- the maximum-plus-one generator

  // filter(startswith=prefix).order_by("-number").first()
  function Last(rows: seq<string>, prefix: string): (r: Option<string>)
    ensures r.Some? ==> r.value in rows && StartsWith(r.value, prefix)
  {
    if rows == [] then None
    else
      var row := rows[|rows| - 1];
      var best := Last(rows[..|rows| - 1], prefix);
      if StartsWith(row, prefix) && (best.None? || Below(best.value, row)) then Some(row) else best
  }

  // None is the ValueError of int()
  function Generate(rows: seq<string>, kind: string, year: nat): Option<string> {
    match Last(rows, Prefix(kind, year))
    case None => Some(Number(kind, year, 1))
    case Some(last) =>
      match LastPart(last)
      case None => None
      case Some(n) => Some(Number(kind, year, n + 1))
  }

  lemma {:induction false} BelowTransitive(a: string, b: string, c: string)
    requires Below(a, b) && !Below(c, b)
    ensures Below(a, c)
  {
    if |a| > 0 && |c| > 0 && a[0] == c[0] {
      BelowTransitive(a[1..], b[1..], c[1..]);
    }
  }

  lemma {:induction false} BelowAsymmetric(a: string, b: string)
    requires Below(a, b)
    ensures !Below(b, a)
  {
    if |a| > 0 && a[0] == b[0] {
      BelowAsymmetric(a[1..], b[1..]);
    }
  }

  lemma {:induction false} LastIsMaximal(rows: seq<string>, prefix: string)
    ensures forall i :: 0 <= i < |rows| && StartsWith(rows[i], prefix) ==>
              Last(rows, prefix).Some? && !Below(Last(rows, prefix).value, rows[i])
  {
    if rows != [] {
      var n := |rows| - 1;
      LastIsMaximal(rows[..n], prefix);
      var best := Last(rows[..n], prefix);
      var r := Last(rows, prefix);
      forall i | 0 <= i < |rows| && StartsWith(rows[i], prefix) ensures r.Some? && !Below(r.value, rows[i]) {
        if i < n {
          assert rows[i] == rows[..n][i];
          assert best.Some? && !Below(best.value, rows[i]);
          if r != best && Below(r.value, rows[i]) {
            BelowAsymmetric(best.value, r.value);
            BelowTransitive(r.value, rows[i], best.value);
          }
        } else if Below(r.value, rows[n]) {
          BelowAsymmetric(r.value, rows[n]);
        }
      }
    }
  }
}
