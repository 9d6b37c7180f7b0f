/** The PostgreSQL sequence behind policy numbers, and the migration that seeds it. */
module PolicySequence {
  import opened Events
  import opened Numbers

  const POL := "POL"

  // A sequence's bounds; setval refuses a value outside them and nextval stops at the last one.
  const MIN_SEQUENCE := 1
  const MAX_SEQUENCE := 0x7fff_ffff_ffff_ffff

  // COALESCE(MAX(CAST(SPLIT_PART(policy_number, '-', 3) AS INTEGER)), 0); None when some cast fails
  function MaxSuffix(rows: seq<string>): (r: Option<nat>)
    ensures r.Some? ==> r.value <= MAX_INTEGER
  {
    if rows == [] then Some(0)
    else
      var most := MaxSuffix(rows[..|rows| - 1]);
      var n := ThirdPart(rows[|rows| - 1]);
      if most.None? || n.None? then None else Some(if n.value > most.value then n.value else most.value)
  }

  // Every stored number ends in a suffix, and none above this bound.
  predicate SuffixesUpTo(rows: seq<string>, m: nat) {
    forall i :: 0 <= i < |rows| ==> ThirdPart(rows[i]).Some? && ThirdPart(rows[i]).value <= m
  }

  /** The seed is the least upper bound of the stored suffixes. */
  lemma {:induction false} SeedIsTheMaximum(rows: seq<string>)
    ensures MaxSuffix(rows).Some? <==> forall i :: 0 <= i < |rows| ==> ThirdPart(rows[i]).Some?
    ensures var r := MaxSuffix(rows);
            r.Some? ==> && SuffixesUpTo(rows, r.value)
                        && forall m: nat :: SuffixesUpTo(rows, m) ==> r.value <= m
  {
    if rows != [] {
      var n := |rows| - 1;
      SeedIsTheMaximum(rows[..n]);
      assert forall i :: 0 <= i < n ==> rows[..n][i] == rows[i];
      forall m: nat | SuffixesUpTo(rows, m) ensures SuffixesUpTo(rows[..n], m) && ThirdPart(rows[n]).value <= m {}
    }
  }

  class Sequence {
    var last: nat

    // CREATE SEQUENCE
    constructor ()
      ensures last == 0
    {
      last := 0;
    }

    /** create_sequence: set the sequence to the largest stored suffix.  Fails, leaving it alone, when a stored number
        has no integer suffix or when there is no suffix to set it to. */
    method Seed(rows: seq<string>) returns (ok: bool)
      modifies this
      ensures ok <==> |rows| > 0 && (forall i :: 0 <= i < |rows| ==> ThirdPart(rows[i]).Some?)
                      && exists i :: 0 <= i < |rows| && ThirdPart(rows[i]) != Some(0)
      ensures ok ==> SuffixesUpTo(rows, last) && exists i :: 0 <= i < |rows| && ThirdPart(rows[i]) == Some(last)
      ensures !ok ==> last == old(last)
    {
      var m := MaxSuffix(rows);
      SeedIsTheMaximum(rows);
      if m.None? {
        ok := false;
      } else {
        MaximumIsReached(rows);
        ok := m.value >= MIN_SEQUENCE;
        if ok {
          last := m.value;
        }
      }
    }

    /** generate_policy_number on PostgreSQL; None when the sequence is exhausted. */
    method GeneratePolicyNumber(year: nat) returns (number: Option<string>)
      modifies this
      ensures old(last) < MAX_SEQUENCE ==> last == old(last) + 1 && number == Some(Number(POL, year, last))
      ensures old(last) >= MAX_SEQUENCE ==> last == old(last) && number == None
    {
      if last >= MAX_SEQUENCE {
        return None;
      }
      last := last + 1;
      number := Some(Number(POL, year, last));
    }
  }

  lemma {:induction false} MaximumIsReached(rows: seq<string>)
    requires MaxSuffix(rows).Some?
    ensures var m := MaxSuffix(rows).value;
            m == 0 || exists i :: 0 <= i < |rows| && ThirdPart(rows[i]) == Some(m)
  {
    if rows != [] {
      var n := |rows| - 1;
      MaximumIsReached(rows[..n]);
      var m := MaxSuffix(rows).value;
      if ThirdPart(rows[n]) != Some(m) && m != 0 {
        var i :| 0 <= i < n && ThirdPart(rows[..n][i]) == Some(m);
        assert rows[i] == rows[..n][i];
      }
    }
  }

  // ---------------------------------------------------------------- every interleaving

  datatype Drawn = Drawn(year: nat, n: nat)
  {
    function Text(): string {
      Number(POL, year, n)
    }
  }

  datatype State = State(
    last: nat,
    rows: seq<string>,          // policy_number of every stored policy
    held: map<nat, Drawn>,      // per client: the number drawn and not yet saved
    produced: seq<Drawn>)       // history: every number drawn

  datatype Action =
    | Draw(client: nat, year: nat)
    | Save(client: nat)
    | Abort(client: nat)

  function Next(s: State, a: Action): State {
    match a
    case Draw(c, year) =>
      if s.last >= MAX_SEQUENCE then s
      else
        var d := Drawn(year, s.last + 1);
        State(s.last + 1, s.rows, s.held[c := d], s.produced + [d])
    case Save(c) =>
      if c !in s.held then s
      else if s.held[c].Text() in s.rows then s.(held := s.held - {c})
      else s.(rows := s.rows + [s.held[c].Text()], held := s.held - {c})
    case Abort(c) => s.(held := s.held - {c})
  }

  function Run(s: State, actions: seq<Action>): State
    decreases |actions|
  {
    if actions == [] then s
    else Next(Run(s, actions[..|actions| - 1]), actions[|actions| - 1])
  }

  function Start(last: nat, rows: seq<string>): State {
    State(last, rows, map[], [])
  }

  // Suffixes go up by one per draw, whatever the years, rollbacks and clients in between.
  predicate DrawnInOrder(s: State, seed: nat) {
    && s.last == seed + |s.produced|
    && (|s.produced| == 0 || s.last <= MAX_SEQUENCE)
    && (forall i :: 0 <= i < |s.produced| ==> s.produced[i].n == seed + i + 1)
    && (forall c :: c in s.held ==> s.held[c] in s.produced)
  }

  lemma {:induction false} DrawsGoUp(seed: nat, rows: seq<string>, actions: seq<Action>)
    ensures DrawnInOrder(Run(Start(seed, rows), actions), seed)
    decreases |actions|
  {
    if actions != [] {
      DrawsGoUp(seed, rows, actions[..|actions| - 1]);
    }
  }

  lemma DifferentText(d: Drawn, e: Drawn)
    ensures d.Text() == e.Text() <==> d == e
  {
    SameNumber(POL, d.year, d.n, e.year, e.n);
  }

  /** No two draws of any run give the same number. */
  lemma ProducedAreDistinct(seed: nat, rows: seq<string>, actions: seq<Action>)
    ensures var p := Run(Start(seed, rows), actions).produced;
            forall i, j :: 0 <= i < j < |p| ==> p[i].Text() != p[j].Text()
  {
    DrawsGoUp(seed, rows, actions);
    var p := Run(Start(seed, rows), actions).produced;
    forall i, j | 0 <= i < j < |p| ensures p[i].Text() != p[j].Text() {
      DifferentText(p[i], p[j]);
    }
  }

  // Some stored number lies ahead of the sequence.
  ghost predicate Ahead(last: nat, rows: seq<string>) {
    exists d: Drawn :: last < d.n <= MAX_SEQUENCE && d.Text() in rows
  }

  lemma SuffixOfText(d: Drawn)
    ensures ThirdPart(d.Text()) == if d.n <= MAX_INTEGER then Some(d.n) else None
  {
    NumberRoundTrip(POL, d.year, d.n);
  }

  /** Seeding leaves no stored number ahead of the sequence. */
  lemma SeededIsNotBehind(rows: seq<string>)
    requires MaxSuffix(rows).Some?
    ensures !Ahead(MaxSuffix(rows).value, rows)
  {
    SeedIsTheMaximum(rows);
    forall d: Drawn | d.Text() in rows ensures d.n <= MaxSuffix(rows).value {
      SuffixOfText(d);
    }
  }

  // Every number ever drawn differs from those that were stored at the start.
  predicate AvoidsAll(s: State, rows: seq<string>) {
    forall i :: 0 <= i < |s.produced| ==> s.produced[i].Text() !in rows
  }

  lemma NotAheadAvoids(seed: nat, rows: seq<string>, actions: seq<Action>)
    requires !Ahead(seed, rows)
    ensures AvoidsAll(Run(Start(seed, rows), actions), rows)
  {
    DrawsGoUp(seed, rows, actions);
    var s := Run(Start(seed, rows), actions);
    forall i | 0 <= i < |s.produced| ensures s.produced[i].Text() !in rows {
      assert seed < s.produced[i].n <= MAX_SEQUENCE;
    }
  }

  function Draws(year: nat, k: nat): seq<Action> {
    if k == 0 then [] else Draws(year, k - 1) + [Draw(0, year)]
  }

  lemma {:induction false} DrawsReach(seed: nat, rows: seq<string>, year: nat, k: nat)
    requires seed + k <= MAX_SEQUENCE
    ensures var s := Run(Start(seed, rows), Draws(year, k));
            s.last == seed + k && (k > 0 ==> Drawn(year, seed + k) in s.produced)
  {
    if k > 0 {
      DrawsReach(seed, rows, year, k - 1);
      assert Draws(year, k)[..|Draws(year, k)| - 1] == Draws(year, k - 1);
    }
  }

  lemma AheadCollides(seed: nat, rows: seq<string>, d: Drawn)
    requires seed < d.n <= MAX_SEQUENCE && d.Text() in rows
    ensures !AvoidsAll(Run(Start(seed, rows), Draws(d.year, d.n - seed)), rows)
  {
    DrawsReach(seed, rows, d.year, d.n - seed);
    DrawnAndStored(Run(Start(seed, rows), Draws(d.year, d.n - seed)), rows, d);
  }

  lemma DrawnAndStored(s: State, rows: seq<string>, d: Drawn)
    requires d in s.produced && d.Text() in rows
    ensures !AvoidsAll(s, rows)
  {}

  /** Exactly when the sequence avoids the stored numbers in every run: when none of them lies ahead of it. */
  lemma AvoidsIffNotAhead(seed: nat, rows: seq<string>)
    ensures (forall actions: seq<Action> :: AvoidsAll(Run(Start(seed, rows), actions), rows)) <==> !Ahead(seed, rows)
  {
    if Ahead(seed, rows) {
      var d: Drawn :| seed < d.n <= MAX_SEQUENCE && d.Text() in rows;
      AheadCollides(seed, rows, d);
    } else {
      forall actions: seq<Action> ensures AvoidsAll(Run(Start(seed, rows), actions), rows) {
        NotAheadAvoids(seed, rows, actions);
      }
    }
  }

  // The stored rows are the initial ones followed by drawn ones.
  predicate OnlyDrawnAdded(stored: seq<string>, rows: seq<string>, produced: seq<Drawn>) {
    && |rows| <= |stored| && stored[..|rows|] == rows
    && (forall i :: |rows| <= i < |stored| ==> StoredFrom(stored[i], produced))
  }

  // A held number is not stored, and no two clients hold the same one.
  predicate HeldAreFree(held: map<nat, Drawn>, stored: seq<string>) {
    && (forall c :: c in held ==> held[c].Text() !in stored)
    && (forall c, e :: c in held && e in held && held[c] == held[e] ==> c == e)
  }

  predicate StoredOnce(s: State, rows: seq<string>) {
    OnlyDrawnAdded(s.rows, rows, s.produced) && HeldAreFree(s.held, s.rows)
  }

  predicate StoredFrom(row: string, produced: seq<Drawn>) {
    exists i :: 0 <= i < |produced| && produced[i].Text() == row
  }

  lemma DrawIsNew(s: State, seed: nat, rows: seq<string>, d: Drawn)
    requires DrawnInOrder(s, seed) && StoredOnce(s, rows)
    requires d.n == s.last + 1 && d.Text() !in rows
    ensures d.Text() !in s.rows && d !in s.produced
  {
    forall i | 0 <= i < |s.rows| ensures s.rows[i] != d.Text() {
      if i < |rows| {
        assert s.rows[i] == s.rows[..|rows|][i];
      } else {
        var k :| 0 <= k < |s.produced| && s.produced[k].Text() == s.rows[i];
        DifferentText(s.produced[k], d);
      }
    }
  }

  lemma StoredFromGrows(row: string, p: seq<Drawn>, d: Drawn)
    requires StoredFrom(row, p) || row == d.Text()
    ensures StoredFrom(row, p + [d])
  {
    if StoredFrom(row, p) {
      var i :| 0 <= i < |p| && p[i].Text() == row;
      assert (p + [d])[i] == p[i];
    } else {
      assert (p + [d])[|p|] == d;
    }
  }

  lemma HoldAnother(held: map<nat, Drawn>, stored: seq<string>, c: nat, d: Drawn)
    requires HeldAreFree(held, stored) && d.Text() !in stored
    requires forall k :: k in held ==> held[k] != d
    ensures HeldAreFree(held[c := d], stored)
  {}

  lemma DrawKeeps(s: State, c: nat, year: nat, rows: seq<string>)
    requires StoredOnce(s, rows) && s.last < MAX_SEQUENCE
    requires forall k :: k in s.held ==> s.held[k] in s.produced
    requires var d := Drawn(year, s.last + 1); d.Text() !in s.rows && d !in s.produced
    ensures StoredOnce(Next(s, Draw(c, year)), rows)
  {
    var t, d := Next(s, Draw(c, year)), Drawn(year, s.last + 1);
    forall i | |rows| <= i < |t.rows| ensures StoredFrom(t.rows[i], t.produced) {
      StoredFromGrows(t.rows[i], s.produced, d);
    }
    HoldAnother(s.held, s.rows, c, d);
  }

  lemma SaveKeeps(s: State, c: nat, rows: seq<string>)
    requires StoredOnce(s, rows) && (forall k :: k in s.held ==> s.held[k] in s.produced)
    ensures StoredOnce(Next(s, Save(c)), rows)
  {
    if c in s.held {
      var t := Next(s, Save(c));
      assert s.held[c].Text() !in s.rows;
      var d := s.held[c];
      var k :| 0 <= k < |s.produced| && s.produced[k] == d;
      assert StoredFrom(d.Text(), s.produced);
      assert t.rows[..|rows|] == s.rows[..|rows|];
      forall e | e in t.held ensures t.held[e].Text() !in t.rows {
        DifferentText(t.held[e], d);
      }
    }
  }

  /** In every interleaving, with rollbacks and year changes, no save is ever refused for a duplicate: a number that is
      held is not stored, by that client or another. */
  lemma {:induction false} SavesAreNeverRefused(seed: nat, rows: seq<string>, actions: seq<Action>)
    requires !Ahead(seed, rows)
    ensures StoredOnce(Run(Start(seed, rows), actions), rows)
    decreases |actions|
  {
    if actions != [] {
      var most, a := actions[..|actions| - 1], actions[|actions| - 1];
      var s := Run(Start(seed, rows), most);
      SavesAreNeverRefused(seed, rows, most);
      DrawsGoUp(seed, rows, most);
      match a
      case Draw(c, year) =>
        if s.last < MAX_SEQUENCE {
          assert seed < Drawn(year, s.last + 1).n;
          DrawIsNew(s, seed, rows, Drawn(year, s.last + 1));
          DrawKeeps(s, c, year, rows);
        }
      case Save(c) => SaveKeeps(s, c, rows);
      case Abort(_) =>
    }
  }

  /** What each step of a run does to the stored policies: a save of a held number stores that number, always, and
      nothing else stores or removes one; a draw holds the next number of the sequence. */
  lemma OnlySavesStore(seed: nat, rows: seq<string>, actions: seq<Action>, a: Action)
    requires !Ahead(seed, rows)
    ensures var s := Run(Start(seed, rows), actions);
            var t := Next(s, a);
            match a
            case Draw(c, year) =>
              t.rows == s.rows && (s.last < MAX_SEQUENCE ==> c in t.held && t.held[c] == Drawn(year, s.last + 1))
            case Save(c) => c !in t.held && t.rows == if c in s.held then s.rows + [s.held[c].Text()] else s.rows
            case Abort(c) => c !in t.held && t.rows == s.rows
  {
    SavesAreNeverRefused(seed, rows, actions);
  }

  /** A successful seeding makes the sequence safe for ever: no later number meets a stored one. */
  lemma SeededIsSafe(rows: seq<string>, actions: seq<Action>)
    requires MaxSuffix(rows).Some?
    ensures var s := Run(Start(MaxSuffix(rows).value, rows), actions);
            AvoidsAll(s, rows) && StoredOnce(s, rows)
  {
    SeededIsNotBehind(rows);
    NotAheadAvoids(MaxSuffix(rows).value, rows, actions);
    SavesAreNeverRefused(MaxSuffix(rows).value, rows, actions);
  }
}
