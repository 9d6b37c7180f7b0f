/** From the claims service to the audit log: replaying a claim's audited status changes. */
module Replay {
  import opened Events
  import opened Collections
  import opened Relay
  import opened AuditConsumer
  import P = Pipeline
  import opened Conservation
  import opened Ordering
  import C = Claims

  // The (from_status, to_status) pair of a status_changed payload.
  type Step = (Option<ClaimStatus>, Option<ClaimStatus>)

  function StepOf(p: Payload): Step {
    (p.data.fromStatus, p.data.toStatus)
  }

  function StatusLane(c: Id): Lane {
    Lane(ClaimsService, ClaimStatusChanged, c)
  }

  /** The audited status changes of one claim: the audit rows of that topic filed under the claim's id. */
  function Trail(audit: seq<AuditRow>, c: Id): seq<Step> {
    if audit == [] then []
    else
      var row := audit[|audit| - 1];
      Trail(audit[..|audit| - 1], c)
      + (if row.topic.ClaimStatusChanged? && row.kind.ClaimEntity? && row.entityId == Some(c) then [StepOf(row.payload)]
         else [])
  }

  /** Replays status changes from FILED; a step that does not start where the claim is fails. */
  function Replayed(steps: seq<Step>): Option<ClaimStatus> {
    if steps == [] then Some(Filed)
    else
      var before, step := Replayed(steps[..|steps| - 1]), steps[|steps| - 1];
      if before.Some? && step.0 == before then step.1 else None
  }

  // ---------------------------------------------------------------- the claims side

  function ChangeSteps(changes: seq<C.Change>): seq<Step> {
    seq(|changes|, i requires 0 <= i < |changes| => (Some(changes[i].seen), Some(changes[i].to)))
  }

  function OutboxSteps(outbox: seq<Emission>, c: Id): seq<Step> {
    if outbox == [] then []
    else
      var em := outbox[|outbox| - 1];
      OutboxSteps(outbox[..|outbox| - 1], c)
      + (if em.topic.ClaimStatusChanged? && em.aggregateId == c then [StepOf(em.payload)] else [])
  }

  lemma {:induction false} OutboxStepsConcat(a: seq<Emission>, b: seq<Emission>, c: Id)
    ensures OutboxSteps(a + b, c) == OutboxSteps(a, c) + OutboxSteps(b, c)
    decreases |b|
  {
    if b == [] {
      assert a + b == a;
    } else {
      OutboxStepsConcat(a, b[..|b| - 1], c);
      assert (a + b)[..|a + b| - 1] == a + b[..|b| - 1];
    }
  }

  lemma OutboxStepsSnoc(out: seq<Emission>, em: Emission, c: Id)
    ensures OutboxSteps(out + [em], c) == OutboxSteps(out, c)
            + (if em.topic.ClaimStatusChanged? && em.aggregateId == c then [StepOf(em.payload)] else [])
  {
    assert (out + [em])[..|out|] == out;
  }

  // Erasing ids and dropping the other claims keeps the steps.
  lemma {:induction false} ErasedSteps(outbox: seq<Emission>, c: Id)
    ensures OutboxSteps(outbox, c) == OutboxSteps(C.OutboxOf(outbox, c), c)
  {
    if outbox != [] {
      var front, em := outbox[..|outbox| - 1], outbox[|outbox| - 1];
      ErasedSteps(front, c);
      var own := C.OutboxOf(front, c);
      if em.aggregateId == c {
        assert C.OutboxOf(outbox, c) == own + [C.Erased(em)];
        OutboxStepsSnoc(own, C.Erased(em), c);
      } else {
        assert C.OutboxOf(outbox, c) == own + [] == own;
      }
    }
  }

  lemma EventSteps(c: Id, claim: C.Claim, ch: C.Change)
    ensures OutboxSteps(C.EventsOf(c, claim, ch, 0, 0), c) == [(Some(ch.seen), Some(ch.to))]
  {
    var first := [C.Emit(c, C.BuildStatusChanged(0, c, claim, ch.seen, ch.to))];
    assert first[..0] == [];
    assert OutboxSteps(first, c) == OutboxSteps([], c) + [(Some(ch.seen), Some(ch.to))];
    if ch.to.Resolved? {
      var both := first + [C.Emit(c, C.BuildResolved(0, c, claim))];
      assert both[..1] == first;
    }
  }

  lemma {:induction false} ExpectedSteps(c: Id, policyId: Id, changes: seq<C.Change>)
    ensures OutboxSteps(C.ExpectedOutbox(c, policyId, changes), c) == ChangeSteps(changes)
    decreases |changes|
  {
    if changes == [] {
      var filed := [C.Emit(c, C.BuildFiled(0, c, C.Claim(policyId, Filed, None)))];
      assert filed[..0] == [];
    } else {
      var n := |changes| - 1;
      var claim := C.Claim(policyId, changes[n].to, C.LastApproval(changes));
      ExpectedSteps(c, policyId, changes[..n]);
      EventSteps(c, claim, changes[n]);
      OutboxStepsConcat(C.ExpectedOutbox(c, policyId, changes[..n]), C.EventsOf(c, claim, changes[n], 0, 0), c);
      assert ChangeSteps(changes) == ChangeSteps(changes[..n]) + [(Some(changes[n].seen), Some(changes[n].to))];
    }
  }

  /** In a connected history the first m steps replay to the status the claim held after its m-th transition. */
  lemma {:induction false} ReplayOfPrefix(changes: seq<C.Change>, m: nat)
    requires C.Connected(C.HistoryOf(changes)) && m <= |changes|
    ensures Replayed(ChangeSteps(changes)[..m]) == Some(C.HistoryOf(changes)[m].to)
  {
    var steps, h := ChangeSteps(changes), C.HistoryOf(changes);
    if m > 0 {
      ReplayOfPrefix(changes, m - 1);
      assert steps[..m][..m - 1] == steps[..m - 1];
      assert h[m].from == Some(h[m - 1].to);
    }
  }

  predicate Built(em: Emission) {
    && em.payload.service == ClaimsService && em.key == Some(em.aggregateId)
    && em.payload.data.claimId == Some(em.aggregateId)
  }

  predicate AllBuilt(out: seq<Emission>) {
    forall i :: 0 <= i < |out| ==> Built(out[i])
  }

  lemma {:induction false} ClaimsBuild(actions: seq<C.Action>)
    ensures AllBuilt(C.Run(C.EMPTY, actions).db.outbox)
    decreases |actions|
  {
    if actions != [] {
      ClaimsBuild(actions[..|actions| - 1]);
      StepBuilds(C.Run(C.EMPTY, actions[..|actions| - 1]), actions[|actions| - 1]);
    }
  }

  lemma StepBuilds(s: C.State, a: C.Action)
    requires AllBuilt(s.db.outbox)
    ensures AllBuilt(C.Next(s, a).db.outbox)
  {}

  // ---------------------------------------------------------------- the pipeline side

  // The claims service's outbox rows, in commit order.
  function ClaimsRows(rows: Table, ids: seq<EventId>): seq<Emission>
    requires forall i :: 0 <= i < |ids| ==> ids[i] in rows
  {
    if ids == [] then []
    else
      var em := rows[ids[|ids| - 1]].emission;
      ClaimsRows(rows, ids[..|ids| - 1]) + (if em.payload.service == ClaimsService then [em] else [])
  }

  // Claims rows are built by the claims service, and only they carry claim topics.
  predicate Addressed(rows: Table) {
    forall e :: e in rows ==>
      if rows[e].emission.payload.service == ClaimsService then Built(rows[e].emission)
      else !rows[e].emission.topic.OnClaims()
  }

  function StepsAt(rows: Table, ids: seq<EventId>): seq<Step>
    requires forall i :: 0 <= i < |ids| ==> ids[i] in rows
  {
    seq(|ids|, i requires 0 <= i < |ids| => StepOf(rows[ids[i]].emission.payload))
  }

  lemma {:induction false} CommittedSteps(rows: Table, ids: seq<EventId>, c: Id)
    requires Addressed(rows) && forall i :: 0 <= i < |ids| ==> ids[i] in rows
    ensures var kept := Filter(ids, LaneRows(rows, StatusLane(c)));
            && (forall i :: 0 <= i < |kept| ==> kept[i] in rows)
            && StepsAt(rows, kept) == OutboxSteps(ClaimsRows(rows, ids), c)
  {
    if ids != [] {
      var front, e := ids[..|ids| - 1], ids[|ids| - 1];
      CommittedSteps(rows, front, c);
      var em, keep := rows[e].emission, LaneRows(rows, StatusLane(c));
      assert ids == front + [e];
      FilterSnoc(front, e, keep);
      if em.payload.service == ClaimsService {
        assert Built(em);
        OutboxStepsSnoc(ClaimsRows(rows, front), em, c);
      }
      if e in keep {
        assert StepsAt(rows, Filter(ids, keep)) == StepsAt(rows, Filter(front, keep)) + [StepOf(em.payload)];
      } else {
        assert Filter(ids, keep) == Filter(front, keep);
        assert em.payload.service != ClaimsService ==> ClaimsRows(rows, ids) == ClaimsRows(rows, front);
      }
    }
  }

  lemma {:induction false} TrailSteps(s: P.State, n: nat, c: Id)
    requires P.AuditGenuine(s) && Addressed(s.rows) && n <= |s.feed.audit|
    ensures TrailMatches(s, n, c)
  {
    if n == 0 {
      assert AuditedIds(s.feed.audit)[..0] == [] && s.feed.audit[..0] == [];
    } else {
      TrailSteps(s, n - 1, c);
      TrailStep(s, n - 1, c);
    }
  }

  // The trail in the first n audit rows is what their rows in the lane say.
  ghost predicate TrailMatches(s: P.State, n: nat, c: Id)
    requires n <= |s.feed.audit|
  {
    var kept := Filter(AuditedIds(s.feed.audit)[..n], LaneRows(s.rows, StatusLane(c)));
    && (forall i :: 0 <= i < |kept| ==> kept[i] in s.rows)
    && StepsAt(s.rows, kept) == Trail(s.feed.audit[..n], c)
  }

  lemma TrailStep(s: P.State, n: nat, c: Id)
    requires P.AuditGenuine(s) && Addressed(s.rows) && n < |s.feed.audit| && TrailMatches(s, n, c)
    ensures TrailMatches(s, n + 1, c)
  {
    var ids, keep, row := AuditedIds(s.feed.audit), LaneRows(s.rows, StatusLane(c)), s.feed.audit[n];
    assert ids[..n + 1] == ids[..n] + [row.eventId];
    assert s.feed.audit[..n + 1] == s.feed.audit[..n] + [row];
    FilterSnoc(ids[..n], row.eventId, keep);
    AuditRowLane(s.rows, row, c);
    TrailSnoc(s.rows, Filter(ids[..n], keep), row, s.feed.audit[..n], c);
  }

  lemma TrailSnoc(rows: Table, kept: seq<EventId>, row: AuditRow, audit: seq<AuditRow>, c: Id)
    requires forall i :: 0 <= i < |kept| ==> kept[i] in rows
    requires StepsAt(rows, kept) == Trail(audit, c) && row.eventId in rows
    requires StepOf(row.payload) == StepOf(rows[row.eventId].emission.payload)
    ensures Trail(audit + [row], c)
            == if row.topic.ClaimStatusChanged? && row.kind.ClaimEntity? && row.entityId == Some(c)
               then StepsAt(rows, kept + [row.eventId]) else StepsAt(rows, kept)
  {
    assert (audit + [row])[..|audit|] == audit;
    assert StepsAt(rows, kept + [row.eventId]) == StepsAt(rows, kept) + [StepOf(row.payload)];
  }

  lemma AuditRowLane(rows: Table, row: AuditRow, c: Id)
    requires Addressed(rows) && row.eventId in rows
    requires row == AuditRowOf(MessageOf(rows[row.eventId].emission))
    ensures row.eventId in LaneRows(rows, StatusLane(c)) <==>
            row.topic.ClaimStatusChanged? && row.kind.ClaimEntity? && row.entityId == Some(c)
    ensures StepOf(row.payload) == StepOf(rows[row.eventId].emission.payload)
  {
    assert row.topic == rows[row.eventId].emission.topic;
  }

  // ---------------------------------------------------------------- the theorem

  ghost predicate SharesOutbox(s: P.State, db: C.Db) {
    && (forall i :: 0 <= i < |s.inserted| ==> s.inserted[i] in s.rows)
    && ClaimsRows(s.rows, s.inserted) == db.outbox
    && (forall e :: e in s.rows && s.rows[e].emission.payload.service != ClaimsService ==>
          !s.rows[e].emission.topic.OnClaims())
  }

  lemma {:induction false} ClaimsRowsBuilt(rows: Table, ids: seq<EventId>)
    requires forall i :: 0 <= i < |ids| ==> ids[i] in rows
    requires AllBuilt(ClaimsRows(rows, ids))
    ensures forall i :: 0 <= i < |ids| && rows[ids[i]].emission.payload.service == ClaimsService ==>
              Built(rows[ids[i]].emission)
  {
    if ids != [] {
      var front, em := ids[..|ids| - 1], rows[ids[|ids| - 1]].emission;
      var out := ClaimsRows(rows, front);
      forall i | 0 <= i < |out| ensures Built(out[i]) {
        assert ClaimsRows(rows, ids)[i] == out[i];
      }
      ClaimsRowsBuilt(rows, front);
      if em.payload.service == ClaimsService {
        assert ClaimsRows(rows, ids)[|out|] == em;
      }
    }
  }

  lemma SharedIsAddressed(s: P.State, claimActions: seq<C.Action>)
    requires InsertedOrdered(s) && SharesOutbox(s, C.Run(C.EMPTY, claimActions).db)
    ensures Addressed(s.rows)
  {
    ClaimsBuild(claimActions);
    ClaimsRowsBuilt(s.rows, s.inserted);
    forall e | e in s.rows && s.rows[e].emission.payload.service == ClaimsService ensures Built(s.rows[e].emission) {
      assert e in s.inserted;
    }
  }

  // The audited status changes of claim c are its first transitions, and replay to a status it held.
  ghost predicate TrailIsReal(audit: seq<AuditRow>, db: C.Db, c: Id)
    requires C.Shaped(db) && c < |db.claims|
  {
    var trail, changes, h := Trail(audit, c), db.changes[c], db.history[c];
    && |trail| <= |changes| && |h| == |changes| + 1
    && trail == ChangeSteps(changes)[..|trail|]
    && Replayed(trail) == Some(h[|trail|].to)
  }

  /** Take any run of the claims service with no stale write, and any orderly run of the pipeline on its outbox.  The
      audited status changes of a claim are the first m transitions it made, so replaying them never fails and
      gives the status it held after the m-th; once the pipeline has drained that is its current status. */
  lemma AuditedStatusIsReal(claimActions: seq<C.Action>, s: P.State, actions: seq<P.Action>, route: Lane -> nat, c: Id)
    requires C.FreshRun(C.EMPTY, claimActions) && c < |C.Run(C.EMPTY, claimActions).db.claims|
    requires P.Start(s) && SoleRelays(s) && OrderlyRun(s, actions, route)
    requires SharesOutbox(P.Run(s, actions), C.Run(C.EMPTY, claimActions).db)
    ensures var db, t := C.Run(C.EMPTY, claimActions).db, P.Run(s, actions);
            && C.Shaped(db)
            && TrailIsReal(t.feed.audit, db, c)
            && (Drained(t) ==> Replayed(Trail(t.feed.audit, c)) == Some(db.claims[c].status))
  {
    var db, t := C.Run(C.EMPTY, claimActions).db, P.Run(s, actions);
    C.EveryInterleavingAgrees(claimActions);
    C.ConnectedIffFresh(claimActions);
    OrderlyRunOrdered(s, actions, route);
    AuditFollowsCommitOrder(s, actions, route, StatusLane(c));
    SharedIsAddressed(t, claimActions);
    assert C.ClaimAgrees(db.claims[c], db.history[c], db.changes[c]);
    TrailReplays(t, db, c);
  }

  lemma TrailReplays(t: P.State, db: C.Db, c: Id)
    requires C.Agrees(db) && c < |db.claims| && C.Connected(db.history[c])
    requires C.ClaimAgrees(db.claims[c], db.history[c], db.changes[c])
    requires P.AuditGenuine(t) && Addressed(t.rows) && SharesOutbox(t, db)
    requires Audited(t, StatusLane(c)) <= Committed(t, StatusLane(c))
    ensures TrailIsReal(t.feed.audit, db, c)
    ensures Audited(t, StatusLane(c)) == Committed(t, StatusLane(c)) ==>
              Replayed(Trail(t.feed.audit, c)) == Some(db.claims[c].status)
  {
    ClaimTransitions(t, db, c);
    TrailIsPrefix(t, c);
    ReplayOfPrefix(db.changes[c], |Trail(t.feed.audit, c)|);
  }

  lemma ClaimTransitions(t: P.State, db: C.Db, c: Id)
    requires C.Agrees(db) && c < |db.claims| && SharesOutbox(t, db) && Addressed(t.rows)
    ensures forall i :: 0 <= i < |Committed(t, StatusLane(c))| ==> Committed(t, StatusLane(c))[i] in t.rows
    ensures StepsAt(t.rows, Committed(t, StatusLane(c))) == ChangeSteps(db.changes[c])
  {
    CommittedSteps(t.rows, t.inserted, c);
    ErasedSteps(db.outbox, c);
    ExpectedSteps(c, db.claims[c].policyId, db.changes[c]);
  }

  lemma TrailIsPrefix(t: P.State, c: Id)
    requires P.AuditGenuine(t) && Addressed(t.rows)
    requires Audited(t, StatusLane(c)) <= Committed(t, StatusLane(c))
    requires forall i :: 0 <= i < |Committed(t, StatusLane(c))| ==> Committed(t, StatusLane(c))[i] in t.rows
    ensures var steps, trail := StepsAt(t.rows, Committed(t, StatusLane(c))), Trail(t.feed.audit, c);
            && |trail| == |Audited(t, StatusLane(c))| <= |steps|
            && trail == steps[..|trail|]
  {
    var ids := AuditedIds(t.feed.audit);
    TrailSteps(t, |ids|, c);
    assert ids[..|ids|] == ids && t.feed.audit[..|ids|] == t.feed.audit;
  }
}
