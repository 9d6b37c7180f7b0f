/** The claims metrics, and what the per-status counts say about the status history. */
module ClaimMetrics {
  import opened Events
  import opened Claims

  function Count(claims: seq<Claim>, status: ClaimStatus): nat {
    if claims == [] then 0
    else Count(claims[..|claims| - 1], status) + (if claims[|claims| - 1].status == status then 1 else 0)
  }

  // The query for claims that are not RESOLVED.
  function CountOpen(claims: seq<Claim>): nat {
    if claims == [] then 0
    else CountOpen(claims[..|claims| - 1]) + (if claims[|claims| - 1].status.Resolved? then 0 else 1)
  }

  /** The answer of the grouping query: one row for each status that occurs, with its count, in any order. */
  predicate IsGrouping(claims: seq<Claim>, rows: seq<(ClaimStatus, nat)>) {
    && (forall i, j :: 0 <= i < j < |rows| ==> rows[i].0 != rows[j].0)
    && (forall i :: 0 <= i < |rows| ==> rows[i].1 == Count(claims, rows[i].0))
    && (forall status: ClaimStatus :: Count(claims, status) > 0 ==>
          exists i :: 0 <= i < |rows| && rows[i].0 == status)
  }

  /** claims_by_status has an entry for every status, zero included.  The grouping query and the count of open claims
      are two statements: the first sees the table `before`, the second the table `after`. */
  method GetMetrics(before: seq<Claim>, rows: seq<(ClaimStatus, nat)>, after: seq<Claim>)
    returns (open: nat, byStatus: map<ClaimStatus, nat>)
    requires IsGrouping(before, rows)
    ensures forall status: ClaimStatus :: status in byStatus && byStatus[status] == Count(before, status)
    ensures byStatus[Filed] + byStatus[UnderReview] + byStatus[Approved] + byStatus[Rejected] + byStatus[Resolved]
            == |before|
    ensures open + Count(after, Resolved) == |after|
    ensures open + byStatus[Resolved] == |before| <==> CountOpen(after) == CountOpen(before)
  {
    byStatus := map[Filed := 0, UnderReview := 0, Approved := 0, Rejected := 0, Resolved := 0];
    forall status: ClaimStatus ensures status in byStatus && byStatus[status] == 0 {
      match status
      case Filed =>
      case UnderReview =>
      case Approved =>
      case Rejected =>
      case Resolved =>
    }
    var i := 0;
    while i < |rows|
      invariant 0 <= i <= |rows|
      invariant forall status: ClaimStatus :: status in byStatus
      invariant forall k :: 0 <= k < i ==> byStatus[rows[k].0] == rows[k].1
      invariant forall status: ClaimStatus :: (forall k :: 0 <= k < i ==> rows[k].0 != status) ==> byStatus[status] == 0
    {
      byStatus := byStatus[rows[i].0 := rows[i].1];
      i := i + 1;
    }
    forall status: ClaimStatus ensures byStatus[status] == Count(before, status) {
      if Count(before, status) > 0 {
        var k :| 0 <= k < |rows| && rows[k].0 == status;
      }
    }
    open := CountOpen(after);
    CountsPartition(before);
    CountsPartition(after);
  }

  lemma {:induction false} CountsPartition(claims: seq<Claim>)
    ensures CountOpen(claims) + Count(claims, Resolved) == |claims|
    ensures Count(claims, Filed) + Count(claims, UnderReview) + Count(claims, Approved)
            + Count(claims, Rejected) + Count(claims, Resolved) == |claims|
  {
    if claims != [] {
      CountsPartition(claims[..|claims| - 1]);
    }
  }

  // ---------------------------------------------------------------- between the two queries

  // A write to RESOLVED of a claim that was open, and a stale write that opens a resolved one.
  predicate Closes(s: State, a: Action) {
    a.Write? && Enabled(s, a) && a.to.Resolved? && !s.db.claims[s.requests[a.req].0].status.Resolved?
  }

  predicate Reopens(s: State, a: Action) {
    a.Write? && Enabled(s, a) && !a.to.Resolved? && s.db.claims[s.requests[a.req].0].status.Resolved?
  }

  // How many claims the run opened, by filing or by a stale write, less those it closed.
  function Drift(s: State, actions: seq<Action>): int
    decreases |actions|
  {
    if actions == [] then 0
    else
      var n := |actions| - 1;
      var before := Run(s, actions[..n]);
      Drift(s, actions[..n])
      + (if actions[n].File? || Reopens(before, actions[n]) then 1 else 0)
      - (if Closes(before, actions[n]) then 1 else 0)
  }

  lemma {:induction false} CountOpenUpdate(claims: seq<Claim>, c: nat, claim: Claim)
    requires c < |claims|
    ensures CountOpen(claims[c := claim])
            == CountOpen(claims) - (if claims[c].status.Resolved? then 0 else 1)
               + (if claim.status.Resolved? then 0 else 1)
  {
    var n := |claims| - 1;
    if c < n {
      CountOpenUpdate(claims[..n], c, claim);
      assert claims[c := claim][..n] == claims[..n][c := claim];
    } else {
      assert claims[c := claim][..n] == claims[..n];
    }
  }

  lemma OpenStep(s: State, a: Action)
    ensures CountOpen(Next(s, a).db.claims)
            == CountOpen(s.db.claims) + (if a.File? || Reopens(s, a) then 1 else 0) - (if Closes(s, a) then 1 else 0)
  {
    if Enabled(s, a) {
      match a
      case File(policyId, _) =>
        assert Next(s, a).db.claims == s.db.claims + [Claim(policyId, Filed, None)];
        assert (s.db.claims + [Claim(policyId, Filed, None)])[..|s.db.claims|] == s.db.claims;
      case Read(_, _) =>
      case Write(req, to, amount, _, _) =>
        var (c, seen) := s.requests[req];
        CountOpenUpdate(s.db.claims, c, Moved(s.db.claims[c], Change(seen, to, amount)));
    }
  }

  /** Whatever the service does between the two queries, open_claims moves by the claims it opened less those it closed;
      so open_claims and the RESOLVED count add up to the counted total exactly when the two are equal. */
  lemma {:induction false} OpenDrifts(s: State, actions: seq<Action>)
    ensures CountOpen(Run(s, actions).db.claims) == CountOpen(s.db.claims) + Drift(s, actions)
    ensures CountOpen(Run(s, actions).db.claims) + Count(s.db.claims, Resolved) == |s.db.claims|
            <==> Drift(s, actions) == 0
    decreases |actions|
  {
    CountsPartition(s.db.claims);
    if actions != [] {
      var front, last := actions[..|actions| - 1], actions[|actions| - 1];
      OpenDrifts(s, front);
      OpenStep(Run(s, front), last);
    }
  }

  // ---------------------------------------------------------------- flow conservation

  function CountFrom(history: seq<Entry>, status: ClaimStatus): nat {
    if history == [] then 0
    else CountFrom(history[..|history| - 1], status) + (if history[|history| - 1].from == Some(status) then 1 else 0)
  }

  function Into(histories: seq<seq<Entry>>, status: ClaimStatus): nat {
    if histories == [] then 0
    else Into(histories[..|histories| - 1], status) + CountTo(histories[|histories| - 1], status)
  }

  function OutOf(histories: seq<seq<Entry>>, status: ClaimStatus): nat {
    if histories == [] then 0
    else OutOf(histories[..|histories| - 1], status) + CountFrom(histories[|histories| - 1], status)
  }

  /** For every status, the claims counted in it are the history entries into it less the entries out of it. */
  predicate FlowBalanced(db: Db) {
    forall status: ClaimStatus ::
      Count(db.claims, status) + OutOf(db.history, status) == Into(db.history, status)
  }

  // How far one claim is from balance in one status.
  function Gap(claim: Claim, history: seq<Entry>, status: ClaimStatus): int {
    CountTo(history, status) - CountFrom(history, status) - (if claim.status == status then 1 else 0)
  }

  // Weights that fall along the state machine, so that no two claims can hide each other's gaps.
  function Weighted(claim: Claim, history: seq<Entry>): int {
    5 * Gap(claim, history, Filed) + 2 * Gap(claim, history, UnderReview)
    + Gap(claim, history, Approved) + Gap(claim, history, Rejected)
  }

  // The transitions of a legal history, counted by the rank they leave.
  function Leaves(changes: seq<Change>, rank: nat): nat {
    if changes == [] then 0
    else Leaves(changes[..|changes| - 1], rank) + (if Rank(changes[|changes| - 1].seen) == rank then 1 else 0)
  }

  lemma CountFromSnoc(history: seq<Entry>, entry: Entry, status: ClaimStatus)
    ensures CountFrom(history + [entry], status)
            == CountFrom(history, status) + (if entry.from == Some(status) then 1 else 0)
  {
    assert (history + [entry])[..|history|] == history;
  }

  // One transition more, counted in and out of a status.
  lemma CountsGrow(changes: seq<Change>, status: ClaimStatus)
    requires changes != []
    ensures var n := |changes| - 1;
            var h, before := HistoryOf(changes), HistoryOf(changes[..n]);
            && CountTo(h, status) == CountTo(before, status) + (if changes[n].to == status then 1 else 0)
            && CountFrom(h, status) == CountFrom(before, status) + (if changes[n].seen == status then 1 else 0)
  {
    var n := |changes| - 1;
    var entry := Entry(Some(changes[n].seen), changes[n].to);
    HistoryOfSnoc(changes);
    CountToSnoc(HistoryOf(changes[..n]), entry, status);
    CountFromSnoc(HistoryOf(changes[..n]), entry, status);
  }

  lemma UnmovedCounts(status: ClaimStatus)
    ensures CountTo(HistoryOf([]), status) == (if status.Filed? then 1 else 0)
    ensures CountFrom(HistoryOf([]), status) == 0
  {
    var h := HistoryOf([]);
    assert h == [Entry(None, Filed)] && h[..0] == [];
  }

  lemma {:induction false} FiledCounts(changes: seq<Change>)
    requires LegalChanges(changes)
    ensures CountTo(HistoryOf(changes), Filed) == 1
    ensures CountFrom(HistoryOf(changes), Filed) == Leaves(changes, 0)
    decreases |changes|
  {
    if changes == [] {
      UnmovedCounts(Filed);
    } else {
      FiledCounts(changes[..|changes| - 1]);
      CountsGrow(changes, Filed);
      Edge(changes[|changes| - 1].seen, changes[|changes| - 1].to);
    }
  }

  lemma {:induction false} ReviewCounts(changes: seq<Change>)
    requires LegalChanges(changes)
    ensures CountTo(HistoryOf(changes), UnderReview) == Leaves(changes, 0)
    ensures CountFrom(HistoryOf(changes), UnderReview) == Leaves(changes, 1)
    decreases |changes|
  {
    if changes == [] {
      UnmovedCounts(UnderReview);
    } else {
      ReviewCounts(changes[..|changes| - 1]);
      CountsGrow(changes, UnderReview);
      Edge(changes[|changes| - 1].seen, changes[|changes| - 1].to);
    }
  }

  lemma {:induction false} DecisionCounts(changes: seq<Change>)
    requires LegalChanges(changes)
    ensures var h := HistoryOf(changes);
            && CountTo(h, Approved) + CountTo(h, Rejected) == Leaves(changes, 1)
            && CountFrom(h, Approved) + CountFrom(h, Rejected) == Leaves(changes, 2)
    decreases |changes|
  {
    if changes == [] {
      UnmovedCounts(Approved);
      UnmovedCounts(Rejected);
    } else {
      DecisionCounts(changes[..|changes| - 1]);
      CountsGrow(changes, Approved);
      CountsGrow(changes, Rejected);
      Edge(changes[|changes| - 1].seen, changes[|changes| - 1].to);
    }
  }

  lemma {:induction false} LeavesTotal(changes: seq<Change>)
    requires LegalChanges(changes)
    ensures Leaves(changes, 0) + Leaves(changes, 1) + Leaves(changes, 2) == |changes|
    decreases |changes|
  {
    if changes != [] {
      LeavesTotal(changes[..|changes| - 1]);
      Edge(changes[|changes| - 1].seen, changes[|changes| - 1].to);
    }
  }

  lemma {:induction false} HeldWasReached(changes: seq<Change>)
    requires LegalChanges(changes)
    ensures Leaves(changes, 1) > 0 ==> Leaves(changes, 0) > 0
    ensures Leaves(changes, 2) > 0 ==> Leaves(changes, 1) > 0
    ensures forall status :: Held(changes, status) && Rank(status) > 0 ==> Leaves(changes, Rank(status) - 1) > 0
    decreases |changes|
  {
    if changes != [] {
      var n := |changes| - 1;
      HeldWasReached(changes[..n]);
      assert changes[..n] == changes[..|changes| - 1];
      assert Held(changes[..n], changes[n].seen);
      Edge(changes[n].seen, changes[n].to);
      forall status | Held(changes, status) && Rank(status) > 0 ensures Leaves(changes, Rank(status) - 1) > 0 {
        HeldLast(changes, status);
      }
    }
  }

  lemma HeldLast(changes: seq<Change>, status: ClaimStatus)
    requires changes != [] && Held(changes, status)
    ensures Held(changes[..|changes| - 1], status) || changes[|changes| - 1].to == status
  {
    if status != Filed {
      var j :| 0 <= j < |changes| && changes[j].to == status;
      if j < |changes| - 1 {
        assert changes[..|changes| - 1][j].to == status;
      }
    }
  }

  lemma {:induction false} LeavesAtLeast(changes: seq<Change>, j: nat)
    requires j < |changes|
    ensures Leaves(changes, Rank(changes[j].seen)) >= 1
    ensures forall i :: 0 <= i < j && Rank(changes[i].seen) == Rank(changes[j].seen) ==>
              Leaves(changes, Rank(changes[j].seen)) >= 2
    decreases |changes|
  {
    var n := |changes| - 1;
    if j < n {
      LeavesAtLeast(changes[..n], j);
    } else {
      forall i | 0 <= i < j && Rank(changes[i].seen) == Rank(changes[j].seen)
        ensures Leaves(changes, Rank(changes[j].seen)) >= 2
      {
        LeavesAtLeast(changes[..n], i);
      }
    }
  }

  lemma WeightedForm(claim: Claim, history: seq<Entry>, changes: seq<Change>)
    requires ClaimAgrees(claim, history, changes)
    ensures Weighted(claim, history)
            == 5 - 3 * Leaves(changes, 0) - Leaves(changes, 1) - Leaves(changes, 2)
               - (match claim.status case Filed => 5 case UnderReview => 2 case Resolved => 0 case _ => 1)
  {
    FiledCounts(changes);
    ReviewCounts(changes);
    DecisionCounts(changes);
  }

  // The weighted gap is never positive, and zero only when each rank was left at most once.
  lemma WeightedSign(claim: Claim, history: seq<Entry>, changes: seq<Change>)
    requires ClaimAgrees(claim, history, changes)
    ensures Weighted(claim, history) <= 0
    ensures Weighted(claim, history) == 0 ==>
              Leaves(changes, 0) <= 1 && Leaves(changes, 1) <= 1 && Leaves(changes, 2) <= 1
  {
    WeightedForm(claim, history, changes);
    HeldWasReached(changes);
    LastIsHeld(claim, history, changes);
    LeavesTotal(changes);
    MovedIsNotFiled(claim, history, changes);
  }

  lemma MovedIsNotFiled(claim: Claim, history: seq<Entry>, changes: seq<Change>)
    requires ClaimAgrees(claim, history, changes)
    ensures changes != [] ==> !claim.status.Filed?
  {
    if changes != [] {
      Edge(changes[|changes| - 1].seen, changes[|changes| - 1].to);
    }
  }

  lemma OncePerRankIsConnected(changes: seq<Change>)
    requires LegalChanges(changes)
    requires Leaves(changes, 0) <= 1 && Leaves(changes, 1) <= 1 && Leaves(changes, 2) <= 1
    ensures Connected(HistoryOf(changes))
  {
    LeavesTotal(changes);
    var h := HistoryOf(changes);
    forall i | 0 < i < |h| ensures h[i].from == Some(h[i - 1].to) {
      SeenIsPrevious(changes, i - 1);
    }
  }

  lemma {:induction false} SeenIsPrevious(changes: seq<Change>, j: nat)
    requires LegalChanges(changes) && j < |changes| <= 3
    requires Leaves(changes, 0) <= 1 && Leaves(changes, 1) <= 1 && Leaves(changes, 2) <= 1
    ensures changes[j].seen == if j == 0 then Filed else changes[j - 1].to
  {
    forall i | 0 <= i < j ensures changes[i].seen == (if i == 0 then Filed else changes[i - 1].to) {
      SeenIsPrevious(changes, i);
    }
    forall i | 0 <= i < j ensures Rank(changes[i].seen) != Rank(changes[j].seen) {
      LeavesAtLeast(changes, j);
    }
    LegalAt(changes, j);
    Edge(changes[j].seen, changes[j].to);
    if j >= 1 {
      LegalAt(changes, 0);
      Edge(changes[0].seen, changes[0].to);
    }
    if j >= 2 {
      LegalAt(changes, 1);
      Edge(changes[1].seen, changes[1].to);
    }
  }

  lemma {:induction false} ConnectedHasNoGap(changes: seq<Change>, status: ClaimStatus)
    requires Connected(HistoryOf(changes))
    ensures var h := HistoryOf(changes);
            CountTo(h, status) == CountFrom(h, status) + (if h[|h| - 1].to == status then 1 else 0)
    decreases |changes|
  {
    if changes == [] {
      UnmovedCounts(status);
    } else {
      var n := |changes| - 1;
      HistoryOfSnoc(changes);
      ConnectedSnoc(HistoryOf(changes[..n]), Entry(Some(changes[n].seen), changes[n].to));
      ConnectedHasNoGap(changes[..n], status);
      CountsGrow(changes, status);
    }
  }

  // The gaps of the first n claims, added up.
  function TotalGap(claims: seq<Claim>, histories: seq<seq<Entry>>, n: nat, status: ClaimStatus): int
    requires n <= |claims| && n <= |histories|
  {
    if n == 0 then 0
    else TotalGap(claims, histories, n - 1, status) + Gap(claims[n - 1], histories[n - 1], status)
  }

  lemma {:induction false} TotalGapForm(claims: seq<Claim>, histories: seq<seq<Entry>>, n: nat, status: ClaimStatus)
    requires n <= |claims| && n <= |histories|
    ensures TotalGap(claims, histories, n, status)
            == Into(histories[..n], status) - OutOf(histories[..n], status) - Count(claims[..n], status)
  {
    if n > 0 {
      TotalGapForm(claims, histories, n - 1, status);
      assert claims[..n][..n - 1] == claims[..n - 1] && histories[..n][..n - 1] == histories[..n - 1];
    }
  }

  function TotalWeighted(claims: seq<Claim>, histories: seq<seq<Entry>>, n: nat): int
    requires n <= |claims| && n <= |histories|
  {
    if n == 0 then 0
    else TotalWeighted(claims, histories, n - 1) + Weighted(claims[n - 1], histories[n - 1])
  }

  lemma {:induction false} TotalWeightedForm(claims: seq<Claim>, histories: seq<seq<Entry>>, n: nat)
    requires n <= |claims| && n <= |histories|
    ensures TotalWeighted(claims, histories, n)
            == 5 * TotalGap(claims, histories, n, Filed) + 2 * TotalGap(claims, histories, n, UnderReview)
               + TotalGap(claims, histories, n, Approved) + TotalGap(claims, histories, n, Rejected)
  {
    if n > 0 {
      TotalWeightedForm(claims, histories, n - 1);
    }
  }

  predicate ClaimsAgree(db: Db) {
    Shaped(db) && forall c :: 0 <= c < |db.claims| ==> ClaimAgrees(db.claims[c], db.history[c], db.changes[c])
  }

  lemma {:induction false} NoCancellation(db: Db, n: nat)
    requires ClaimsAgree(db) && n <= |db.claims|
    ensures TotalWeighted(db.claims, db.history, n) <= 0
    ensures TotalWeighted(db.claims, db.history, n) == 0 ==>
              forall c :: 0 <= c < n ==> Weighted(db.claims[c], db.history[c]) == 0
  {
    if n > 0 {
      NoCancellation(db, n - 1);
      WeightedSign(db.claims[n - 1], db.history[n - 1], db.changes[n - 1]);
    }
  }

  lemma {:induction false} NoGaps(db: Db, n: nat, status: ClaimStatus)
    requires ClaimsAgree(db) && n <= |db.claims| && AllConnected(db)
    ensures TotalGap(db.claims, db.history, n, status) == 0
  {
    if n > 0 {
      NoGaps(db, n - 1, status);
      assert ClaimAgrees(db.claims[n - 1], db.history[n - 1], db.changes[n - 1]);
      ConnectedHasNoGap(db.changes[n - 1], status);
    }
  }

  lemma BalancedIffConnected(db: Db)
    requires ClaimsAgree(db)
    ensures FlowBalanced(db) <==> AllConnected(db)
  {
    var n := |db.claims|;
    assert db.claims[..n] == db.claims && db.history[..n] == db.history;
    forall status: ClaimStatus
      ensures TotalGap(db.claims, db.history, n, status)
              == Into(db.history, status) - OutOf(db.history, status) - Count(db.claims, status)
    {
      TotalGapForm(db.claims, db.history, n, status);
    }
    if FlowBalanced(db) {
      BalancedIsConnected(db);
    }
    if AllConnected(db) {
      forall status: ClaimStatus ensures TotalGap(db.claims, db.history, n, status) == 0 {
        NoGaps(db, n, status);
      }
    }
  }

  lemma BalancedIsConnected(db: Db)
    requires ClaimsAgree(db) && forall status: ClaimStatus :: TotalGap(db.claims, db.history, |db.claims|, status) == 0
    ensures AllConnected(db)
  {
    NoCancellation(db, |db.claims|);
    TotalWeightedForm(db.claims, db.history, |db.claims|);
    forall c | 0 <= c < |db.claims| ensures Connected(db.history[c]) {
      assert ClaimAgrees(db.claims[c], db.history[c], db.changes[c]);
      WeightedSign(db.claims[c], db.history[c], db.changes[c]);
      OncePerRankIsConnected(db.changes[c]);
    }
  }

  /** In every run, the per-status counts balance with the status history if and only if no transition was written
      on a stale status. */
  lemma FlowConservedIffFresh(actions: seq<Action>)
    ensures FlowBalanced(Run(EMPTY, actions).db) <==> FreshRun(EMPTY, actions)
  {
    EveryInterleavingAgrees(actions);
    ConnectedIffFresh(actions);
    BalancedIffConnected(Run(EMPTY, actions).db);
  }
}
