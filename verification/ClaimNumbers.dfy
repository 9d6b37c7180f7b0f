/** Numbers given out by the maximum-plus-one generator: claim numbers, and policy
    numbers on the SQLite path. */
module ClaimNumbers {
  import opened Events
  import opened Collections
  import opened Numbers

  function Count(years: seq<nat>, y: nat): nat {
    if years == [] then 0
    else Count(years[..|years| - 1], y) + if years[|years| - 1] == y then 1 else 0
  }

  // The claim's place among those of its year.
  function Rank(years: seq<nat>, i: nat): nat
    requires i < |years|
  {
    Count(years[..i + 1], years[i])
  }

  lemma RankSnoc(years: seq<nat>, x: nat)
    ensures var longer := years + [x];
            && Rank(longer, |years|) == Count(longer, x)
            && forall i :: 0 <= i < |years| ==> Rank(longer, i) == Rank(years, i)
  {
    var longer := years + [x];
    assert longer[..|longer|] == longer;
    forall i | 0 <= i < |years| ensures Rank(longer, i) == Rank(years, i) {
      assert longer[..i + 1] == years[..i + 1];
    }
  }

  /** The reference: each year's claims numbered 1, 2, 3, ... in the order they were filed. */
  function Numbered(kind: string, years: seq<nat>): (rows: seq<string>)
    ensures |rows| == |years|
  {
    seq(|years|, i requires 0 <= i < |years| => Number(kind, years[i], Rank(years, i)))
  }

  lemma NumberedSnoc(kind: string, years: seq<nat>, x: nat)
    ensures Numbered(kind, years + [x]) == Numbered(kind, years) + [Number(kind, x, Count(years + [x], x))]
  {
    var longer := years + [x];
    RankSnoc(years, x);
    forall i | 0 <= i < |years| ensures Numbered(kind, longer)[i] == Numbered(kind, years)[i] {
      assert Rank(longer, i) == Rank(years, i);
    }
    SnocOf(Numbered(kind, years), Numbered(kind, longer), Number(kind, x, Count(longer, x)));
  }

  lemma SnocOf<T>(s: seq<T>, t: seq<T>, x: T)
    requires |t| == |s| + 1 && t[|s|] == x && forall i :: 0 <= i < |s| ==> t[i] == s[i]
    ensures t == s + [x]
  {}

  datatype Held = Held(year: nat, number: string)

  datatype Table = Table(
    rows: seq<string>,       // claim_number of every stored claim
    held: map<nat, Held>,    // per client: the number generated and not yet saved
    years: seq<nat>)         // history: the year of each stored claim

  datatype Action =
    | Read(client: nat, year: nat)   // generate_claim_number
    | Save(client: nat)              // the insert, refused by the unique constraint when the number is taken
    | Abort(client: nat)             // the transaction rolls back

  function Next(kind: string, s: Table, a: Action): Table {
    match a
    case Read(c, year) =>
      var number := Generate(s.rows, kind, year);
      if number.None? then s else s.(held := s.held[c := Held(year, number.value)])
    case Save(c) =>
      if c !in s.held then s
      else
        var h := s.held[c];
        if h.number in s.rows then s.(held := s.held - {c})
        else Table(s.rows + [h.number], s.held - {c}, s.years + [h.year])
    case Abort(c) => s.(held := s.held - {c})
  }

  function Run(kind: string, s: Table, actions: seq<Action>): Table
    decreases |actions|
  {
    if actions == [] then s
    else Next(kind, Run(kind, s, actions[..|actions| - 1]), actions[|actions| - 1])
  }

  const EMPTY := Table([], map[], [])

  // A number that a client of this year may hold: at most the next one, and never beyond the ceiling.
  ghost predicate MayHold(kind: string, s: Table, h: Held) {
    exists n: nat :: 1 <= n <= Count(s.years, h.year) + 1 && n <= MILLION && h.number == Number(kind, h.year, n)
  }

  ghost predicate Contiguous(kind: string, s: Table) {
    && s.rows == Numbered(kind, s.years)
    && (forall y: nat :: Count(s.years, y) <= MILLION)
    && (forall c :: c in s.held ==> MayHold(kind, s, s.held[c]))
  }

  lemma InSnoc<T>(s: seq<T>, x: T, y: T)
    ensures y in s + [x] <==> y in s || y == x
  {}

  lemma {:induction false} NumberedHas(kind: string, years: seq<nat>, y: nat, n: nat)
    requires DashFree(kind)
    ensures Number(kind, y, n) in Numbered(kind, years) <==> 1 <= n <= Count(years, y)
  {
    if years != [] {
      var most, last := years[..|years| - 1], years[|years| - 1];
      var number := Number(kind, last, Count(years, last));
      assert years == most + [last];
      NumberedSnoc(kind, most, last);
      NumberedHas(kind, most, y, n);
      SameNumber(kind, y, n, last, Count(years, last));
      InSnoc(Numbered(kind, most), number, Number(kind, y, n));
    }
  }

  lemma {:induction false} CountOfPrefix(years: seq<nat>, m: nat, y: nat)
    requires m <= |years|
    ensures Count(years[..m], y) <= Count(years, y)
  {
    if m < |years| {
      CountOfPrefix(years[..|years| - 1], m, y);
      assert years[..|years| - 1][..m] == years[..m];
    } else {
      assert years[..m] == years;
    }
  }

  lemma NumberedForm(kind: string, years: seq<nat>, i: nat) returns (n: nat)
    requires i < |years|
    ensures Numbered(kind, years)[i] == Number(kind, years[i], n) && 1 <= n <= Count(years, years[i])
  {
    n := Count(years[..i + 1], years[i]);
    CountOfPrefix(years, i + 1, years[i]);
    assert years[..i + 1][i] == years[i];
  }

  lemma LastIs(rows: seq<string>, prefix: string, top: string)
    requires top in rows && StartsWith(top, prefix)
    requires forall i :: 0 <= i < |rows| && StartsWith(rows[i], prefix) && rows[i] != top ==> Below(rows[i], top)
    ensures Last(rows, prefix) == Some(top)
  {
    LastIsMaximal(rows, prefix);
    var i :| 0 <= i < |rows| && rows[i] == top;
    assert Last(rows, prefix).Some?;
    var j :| 0 <= j < |rows| && rows[j] == Last(rows, prefix).value;
  }

  lemma {:induction false} NoLast(rows: seq<string>, prefix: string)
    requires forall i :: 0 <= i < |rows| ==> !StartsWith(rows[i], prefix)
    ensures Last(rows, prefix) == None
  {
    if rows != [] {
      NoLast(rows[..|rows| - 1], prefix);
    }
  }

  lemma NumberBelow(kind: string, y: nat, j: nat, top: nat)
    requires top < MILLION && (j < top || (j == MILLION && top == MILLION - 1))
    ensures Below(Number(kind, y, j), Number(kind, y, top))
  {
    BelowAfterPrefix(Prefix(kind, y), Padded(j), Padded(top));
    if j < MILLION {
      BelowMillion(j, top);
    } else {
      MillionSortsLow();
    }
  }

  lemma RowOfYear(kind: string, years: seq<nat>, y: nat, i: nat)
    requires DashFree(kind)
    requires i < |years| && Count(years, y) <= MILLION
    ensures StartsWith(Numbered(kind, years)[i], Prefix(kind, y)) ==>
              && Count(years, y) > 0
              && var top := Number(kind, y, Min(Count(years, y), MILLION - 1));
                 Numbered(kind, years)[i] == top || Below(Numbered(kind, years)[i], top)
  {
    var j := NumberedForm(kind, years, i);
    PrefixSelectsYear(kind, years[i], j, y);
    var top := Min(Count(years, y), MILLION - 1);
    if years[i] == y && j != top {
      NumberBelow(kind, y, j, top);
    }
  }

  lemma LastOfYear(kind: string, years: seq<nat>, y: nat)
    requires DashFree(kind)
    requires Count(years, y) <= MILLION
    ensures Last(Numbered(kind, years), Prefix(kind, y))
            == if Count(years, y) == 0 then None else Some(Number(kind, y, Min(Count(years, y), MILLION - 1)))
  {
    var rows, prefix := Numbered(kind, years), Prefix(kind, y);
    forall i | 0 <= i < |rows| && StartsWith(rows[i], prefix)
      ensures Count(years, y) > 0
      ensures var top := Number(kind, y, Min(Count(years, y), MILLION - 1)); rows[i] == top || Below(rows[i], top)
    {
      RowOfYear(kind, years, y, i);
    }
    if Count(years, y) == 0 {
      NoLast(rows, prefix);
    } else {
      var n := Min(Count(years, y), MILLION - 1);
      NumberedHas(kind, years, y, n);
      PrefixSelectsYear(kind, y, n, y);
      LastIs(rows, prefix, Number(kind, y, n));
    }
  }

  lemma GenerateAfter(rows: seq<string>, kind: string, y: nat, last: string, n: nat)
    requires Last(rows, Prefix(kind, y)) == Some(last) && LastPart(last) == Some(n)
    ensures Generate(rows, kind, y) == Some(Number(kind, y, n + 1))
  {}

  /** What the generator answers: the next number, until the ceiling is reached, and 1000000 from then on. */
  lemma GeneratedNumber(kind: string, years: seq<nat>, y: nat)
    requires DashFree(kind)
    requires Count(years, y) <= MILLION
    ensures Generate(Numbered(kind, years), kind, y) == Some(Number(kind, y, Min(Count(years, y) + 1, MILLION)))
  {
    LastOfYear(kind, years, y);
    if Count(years, y) > 0 {
      var n := Min(Count(years, y), MILLION - 1);
      NumberRoundTrip(kind, y, n);
      GenerateAfter(Numbered(kind, years), kind, y, Number(kind, y, n), n);
    }
  }

  /** The generated number is free exactly while fewer than 10^6 claims of the year are stored. */
  lemma FreshIffBelowMillion(kind: string, years: seq<nat>, y: nat)
    requires DashFree(kind)
    requires Count(years, y) <= MILLION
    ensures var number := Generate(Numbered(kind, years), kind, y);
            number.Some? && (number.value !in Numbered(kind, years) <==> Count(years, y) < MILLION)
  {
    GeneratedNumber(kind, years, y);
    NumberedHas(kind, years, y, Min(Count(years, y) + 1, MILLION));
  }

  lemma CountSnoc(kind: string, years: seq<nat>, y: nat, x: nat)
    ensures Count(years + [x], y) == Count(years, y) + if x == y then 1 else 0
    ensures Numbered(kind, years + [x]) == Numbered(kind, years) + [Number(kind, x, Count(years + [x], x))]
  {
    assert (years + [x])[..|years|] == years;
    NumberedSnoc(kind, years, x);
  }

  lemma MayHoldKept(kind: string, s: Table, t: Table, h: Held)
    requires MayHold(kind, s, h) && (t.years == s.years || exists x :: t.years == s.years + [x])
    ensures MayHold(kind, t, h)
  {
    if t.years != s.years {
      var x :| t.years == s.years + [x];
      CountSnoc(kind, s.years, h.year, x);
    }
    var n: nat :| 1 <= n <= Count(s.years, h.year) + 1 && n <= MILLION && h.number == Number(kind, h.year, n);
    assert 1 <= n <= Count(t.years, h.year) + 1;
  }

  /** A number that a client may hold is still free exactly when it is the next one of its year: of two filings that
      overlap, the second save is refused. */
  lemma FreeIffNext(kind: string, years: seq<nat>, y: nat, n: nat)
    requires DashFree(kind) && 1 <= n <= Count(years, y) + 1
    ensures Number(kind, y, n) !in Numbered(kind, years) <==> n == Count(years, y) + 1
  {
    NumberedHas(kind, years, y, n);
  }

  lemma HeldNumber(kind: string, s: Table, h: Held) returns (n: nat)
    requires MayHold(kind, s, h)
    ensures 1 <= n <= Count(s.years, h.year) + 1 && n <= MILLION && h.number == Number(kind, h.year, n)
  {
    n :| 1 <= n <= Count(s.years, h.year) + 1 && n <= MILLION && h.number == Number(kind, h.year, n);
  }

  lemma HoldsNumber(kind: string, s: Table, y: nat, n: nat)
    requires 1 <= n <= Count(s.years, y) + 1 && n <= MILLION
    ensures MayHold(kind, s, Held(y, Number(kind, y, n)))
  {
    assert Held(y, Number(kind, y, n)).number == Number(kind, y, n);
  }

  // A save that is not refused stores the next number of its year.
  lemma SaveStoresNext(kind: string, s: Table, c: nat)
    requires DashFree(kind)
    requires s.rows == Numbered(kind, s.years)
    requires c in s.held && MayHold(kind, s, s.held[c]) && s.held[c].number !in s.rows
    ensures Count(s.years, s.held[c].year) < MILLION
    ensures Next(kind, s, Save(c)).rows == Numbered(kind, Next(kind, s, Save(c)).years)
  {
    var h := s.held[c];
    var n := HeldNumber(kind, s, h);
    NextIsStored(kind, s.years, h.year, n);
  }

  lemma NextIsStored(kind: string, years: seq<nat>, y: nat, n: nat)
    requires DashFree(kind)
    requires 1 <= n <= Count(years, y) + 1 && n <= MILLION && Number(kind, y, n) !in Numbered(kind, years)
    ensures Count(years, y) < MILLION
    ensures Numbered(kind, years) + [Number(kind, y, n)] == Numbered(kind, years + [y])
  {
    FreeIffNext(kind, years, y, n);
    CountSnoc(kind, years, y, y);
  }

  lemma SaveKeeps(kind: string, s: Table, c: nat)
    requires DashFree(kind)
    requires Contiguous(kind, s) && c in s.held && s.held[c].number !in s.rows
    ensures Contiguous(kind, Next(kind, s, Save(c)))
  {
    var t := Next(kind, s, Save(c));
    SaveStoresNext(kind, s, c);
    forall x: nat ensures Count(t.years, x) <= MILLION {
      CountSnoc(kind, s.years, x, s.held[c].year);
    }
    HeldKept(kind, s, t);
  }

  lemma GeneratedMayBeHeld(kind: string, s: Table, y: nat)
    requires DashFree(kind) && s.rows == Numbered(kind, s.years) && Count(s.years, y) <= MILLION
    ensures Generate(s.rows, kind, y).Some? && MayHold(kind, s, Held(y, Generate(s.rows, kind, y).value))
  {
    GeneratedNumber(kind, s.years, y);
    HoldsNumber(kind, s, y, Min(Count(s.years, y) + 1, MILLION));
  }

  lemma ReadKeeps(kind: string, s: Table, c: nat, y: nat)
    requires DashFree(kind)
    requires Contiguous(kind, s)
    ensures Contiguous(kind, Next(kind, s, Read(c, y)))
  {
    GeneratedMayBeHeld(kind, s, y);
    var t := Next(kind, s, Read(c, y));
    forall k | k in t.held ensures MayHold(kind, t, t.held[k]) {
      MayHoldKept(kind, s, t, t.held[k]);
    }
  }

  lemma ContiguousKept(kind: string, s: Table, a: Action)
    requires DashFree(kind)
    requires Contiguous(kind, s)
    ensures Contiguous(kind, Next(kind, s, a))
  {
    match a
    case Read(c, y) => ReadKeeps(kind, s, c, y);
    case Save(c) =>
      if c in s.held && s.held[c].number !in s.rows {
        SaveKeeps(kind, s, c);
      } else {
        HeldKept(kind, s, Next(kind, s, a));
      }
    case Abort(c) => HeldKept(kind, s, Next(kind, s, a));
  }

  lemma HeldKept(kind: string, s: Table, t: Table)
    requires forall c :: c in s.held ==> MayHold(kind, s, s.held[c])
    requires forall c :: c in t.held ==> c in s.held && t.held[c] == s.held[c]
    requires t.years == s.years || exists x :: t.years == s.years + [x]
    ensures forall c :: c in t.held ==> MayHold(kind, t, t.held[c])
  {
    forall c | c in t.held ensures MayHold(kind, t, t.held[c]) {
      MayHoldKept(kind, s, t, s.held[c]);
    }
  }

  /** In every interleaving of generated, saved, refused and rolled-back filings of all years, the stored numbers are
      the reference numbering: no gap, no repeat, and no year beyond 10^6. */
  lemma {:induction false} NumbersAreContiguous(kind: string, actions: seq<Action>)
    requires DashFree(kind)
    ensures Contiguous(kind, Run(kind, EMPTY, actions))
    decreases |actions|
  {
    if actions != [] {
      NumbersAreContiguous(kind, actions[..|actions| - 1]);
      ContiguousKept(kind, Run(kind, EMPTY, actions[..|actions| - 1]), actions[|actions| - 1]);
    }
  }

  // Claims filed one after the other, one attempt per listed year.
  function Serial(years: seq<nat>): seq<Action> {
    if years == [] then []
    else Serial(years[..|years| - 1]) + [Read(0, years[|years| - 1]), Save(0)]
  }

  lemma RunTwo(kind: string, s: Table, actions: seq<Action>, a: Action, b: Action)
    ensures Run(kind, s, actions + [a, b]) == Next(kind, Next(kind, Run(kind, s, actions), a), b)
  {
    var all := actions + [a, b];
    assert all[..|all| - 1] == actions + [a];
    assert (actions + [a])[..|actions|] == actions;
  }

  lemma ReadThenSave(kind: string, s: Table, y: nat)
    requires DashFree(kind)
    requires s.rows == Numbered(kind, s.years) && Count(s.years, y) <= MILLION
    ensures Next(kind, Next(kind, s, Read(0, y)), Save(0)).years
            == if Count(s.years, y) < MILLION then s.years + [y] else s.years
  {
    FreshIffBelowMillion(kind, s.years, y);
  }

  lemma SerialStep(kind: string, s: Table, y: nat, x: nat)
    requires DashFree(kind)
    requires Contiguous(kind, s)
    ensures Count(Next(kind, Next(kind, s, Read(0, y)), Save(0)).years, x)
            == Min(Count(s.years, x) + (if x == y then 1 else 0), MILLION)
  {
    ReadThenSave(kind, s, y);
    CountSnoc(kind, s.years, x, y);
  }

  /** Serial filing: of the attempts made in a year exactly the first 10^6 succeed, and every later one is refused. */
  lemma {:induction false} SerialFiling(kind: string, attempts: seq<nat>, y: nat)
    requires DashFree(kind)
    ensures Count(Run(kind, EMPTY, Serial(attempts)).years, y) == Min(Count(attempts, y), MILLION)
    decreases |attempts|
  {
    if attempts != [] {
      var n := |attempts| - 1;
      var most := Serial(attempts[..n]);
      SerialFiling(kind, attempts[..n], y);
      NumbersAreContiguous(kind, most);
      RunTwo(kind, EMPTY, most, Read(0, attempts[n]), Save(0));
      SerialStep(kind, Run(kind, EMPTY, most), attempts[n], y);
    }
  }

  // The saves that found their number free.
  function Stores(kind: string, actions: seq<Action>): nat
    decreases |actions|
  {
    if actions == [] then 0
    else
      var n := |actions| - 1;
      var s, a := Run(kind, EMPTY, actions[..n]), actions[n];
      Stores(kind, actions[..n])
      + (if a.Save? && a.client in s.held && s.held[a.client].number !in s.rows then 1 else 0)
  }

  /** In every run the stored claims are as many as the saves that found their number free: reading and rolling back
      store nothing. */
  lemma {:induction false} StoredBySaves(kind: string, actions: seq<Action>)
    ensures |Run(kind, EMPTY, actions).rows| == Stores(kind, actions)
    decreases |actions|
  {
    if actions != [] {
      StoredBySaves(kind, actions[..|actions| - 1]);
    }
  }

  /** What each step of a run does: reading holds the next number of the year, or the ceiling; saving stores the held
      number if it is free and lets go of it; rolling back only lets go. */
  lemma OnlySavesStore(kind: string, actions: seq<Action>, a: Action)
    requires DashFree(kind)
    ensures var s := Run(kind, EMPTY, actions);
            var t := Next(kind, s, a);
            match a
            case Read(c, y) =>
              t.rows == s.rows && c in t.held
              && t.held[c] == Held(y, Number(kind, y, Min(Count(s.years, y) + 1, MILLION)))
            case Save(c) =>
              c !in t.held
              && t.rows == (if c in s.held && s.held[c].number !in s.rows then s.rows + [s.held[c].number] else s.rows)
            case Abort(c) => c !in t.held && t.rows == s.rows
  {
    NumbersAreContiguous(kind, actions);
    if a.Read? {
      GeneratedNumber(kind, Run(kind, EMPTY, actions).years, a.year);
    }
  }
}
