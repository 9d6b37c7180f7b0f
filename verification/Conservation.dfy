/** What can lose an event between the outbox and the audit log, and what cannot. */
module Conservation {
  import opened Events
  import opened Collections
  import opened Relay
  import opened AuditConsumer
  import opened Pipeline

  predicate Occurs(q: seq<Message>, e: EventId) {
    exists i :: 0 <= i < |q| && Eid(q[i]) == e
  }

  predicate Logged(parts: seq<Part>, e: EventId) {
    exists p :: 0 <= p < |parts| && Occurs(parts[p].log, e)
  }

  predicate Buffered(s: State, e: EventId) {
    exists r :: 0 <= r < |s.relays| && Occurs(s.relays[r].buffer, e)
  }

  // A copy of e lies at or above the committed offset.
  predicate Ahead(part: Part, e: EventId) {
    exists j :: part.committed <= j < |part.log| && Eid(part.log[j]) == e
  }

  predicate Upcoming(s: State, e: EventId) {
    exists p :: 0 <= p < |s.parts| && Ahead(s.parts[p], e)
  }

  // ---------------------------------------------------------------- clean runs lose nothing

  // The client gives up no message while the relay's batch is open.
  predicate HoldsOpenBatch(s: State, a: Action) {
    a.Drop? && a.r < |s.relays| ==> s.relays[a.r].open.None?
  }

  /** A batch commits with its flush drained, the client gives up no message of an open batch, and no handler
      call ends without its row.  Crashes, rollbacks, failing produce calls, retries, failing
      broadcasts and failing offset commits are all allowed. */
  predicate Clean(s: State, a: Action) {
    match a
    case Commit(r) => r < |s.relays| ==> s.relays[r].buffer == []
    case Drop(_, _) => HoldsOpenBatch(s, a)
    case Handle(_, o) => Keeps(o)
    case _ => true
  }

  ghost predicate CleanRun(s: State, actions: seq<Action>)
    decreases |actions|
  {
    actions != [] ==>
      var n := |actions| - 1;
      CleanRun(s, actions[..n]) && Clean(Run(s, actions[..n]), actions[n])
  }

  predicate PublishedAreLogged(s: State) {
    forall e :: e in s.rows && s.rows[e].status.Published? ==> Logged(s.parts, e)
  }

  ghost predicate ProducedAreSafe(s: State) {
    forall r, e :: 0 <= r < |s.relays| && HasProduced(s.relays[r], e) ==>
      Occurs(s.relays[r].buffer, e) || Logged(s.parts, e)
  }

  predicate HandledAreStored(s: State) {
    forall p, j :: 0 <= p < |s.parts| && 0 <= j < s.parts[p].position && j < |s.parts[p].log| ==>
      Stored(s.feed.audit, Eid(s.parts[p].log[j]))
  }

  lemma LogsGrow(s: State, a: Action)
    ensures forall e :: Logged(s.parts, e) ==> Logged(Next(s, a).parts, e)
    ensures forall e :: Stored(s.feed.audit, e) ==> Stored(Next(s, a).feed.audit, e)
  {
    var t := Next(s, a);
    assert |t.parts| == |s.parts|;
    forall p | 0 <= p < |s.parts| ensures s.parts[p].log <= t.parts[p].log {}
    forall e | Logged(s.parts, e) ensures Logged(t.parts, e) {
      var p :| 0 <= p < |s.parts| && Occurs(s.parts[p].log, e);
      var i :| 0 <= i < |s.parts[p].log| && Eid(s.parts[p].log[i]) == e;
      assert Eid(t.parts[p].log[i]) == e;
      assert Occurs(t.parts[p].log, e);
    }
    assert s.feed.audit <= t.feed.audit;
    forall e | Stored(s.feed.audit, e) ensures Stored(t.feed.audit, e) {
      var i :| 0 <= i < |s.feed.audit| && s.feed.audit[i].eventId == e;
      assert t.feed.audit[i].eventId == e;
    }
  }

  lemma DeliveredIsLogged(s: State, a: Action)
    requires Enabled(s, a) && (a.Deliver? || a.Retry?)
    ensures Logged(Next(s, a).parts, Eid(s.relays[a.r].buffer[a.i]))
  {
    var t := Next(s, a);
    var last := |s.parts[a.p].log|;
    assert t.parts[a.p].log[last] == s.relays[a.r].buffer[a.i];
    assert Occurs(t.parts[a.p].log, Eid(s.relays[a.r].buffer[a.i]));
  }

  lemma WithoutKeeps(q: seq<Message>, i: nat, k: nat)
    requires i < |q| && k < |q| && k != i
    ensures Occurs(Without(q, i), Eid(q[k]))
  {
    assert Without(q, i)[if k < i then k else k - 1] == q[k];
  }

  lemma ProducedStaySafe(s: State, a: Action)
    requires LocksSound(s) && Keyed(s.rows) && ProducedAreSafe(s) && HoldsOpenBatch(s, a)
    ensures ProducedAreSafe(Next(s, a))
  {
    var t := Next(s, a);
    LogsGrow(s, a);
    if Enabled(s, a) {
      forall r, e | 0 <= r < |t.relays| && HasProduced(t.relays[r], e)
        ensures Occurs(t.relays[r].buffer, e) || Logged(t.parts, e)
      {
        match a
        case Produce(q, accepted) =>
          if r == q { ProduceIsBuffered(s, q, accepted, e); }
        case Deliver(q, i, _) =>
          DeliveredIsLogged(s, a);
          if r == q && Eid(s.relays[q].buffer[i]) != e && Occurs(s.relays[q].buffer, e) {
            var k :| 0 <= k < |s.relays[q].buffer| && Eid(s.relays[q].buffer[k]) == e;
            WithoutKeeps(s.relays[q].buffer, i, k);
          }
        case _ =>
      }
    }
  }

  lemma ProduceIsBuffered(s: State, r: nat, accepted: bool, e: EventId)
    requires LocksSound(s) && Keyed(s.rows) && ProducedAreSafe(s) && Enabled(s, Produce(r, accepted))
    requires HasProduced(Next(s, Produce(r, accepted)).relays[r], e)
    ensures Occurs(Next(s, Produce(r, accepted)).relays[r].buffer, e) || Logged(s.parts, e)
  {
    var t := Next(s, Produce(r, accepted));
    var b := s.relays[r].open.value;
    var i := IndexOf(b.events, e);
    if i == |b.outcomes| {
      var q := t.relays[r].buffer;
      assert Eid(q[|q| - 1]) == e;
    } else {
      assert HasProduced(s.relays[r], e);
      if Occurs(s.relays[r].buffer, e) {
        var k :| 0 <= k < |s.relays[r].buffer| && Eid(s.relays[r].buffer[k]) == e;
        assert t.relays[r].buffer[k] == s.relays[r].buffer[k];
      }
    }
  }

  lemma PublishedStayLogged(s: State, a: Action)
    requires LocksSound(s) && ProducedAreSafe(s) && PublishedAreLogged(s) && Clean(s, a)
    ensures PublishedAreLogged(Next(s, a))
  {
    var t := Next(s, a);
    LogsGrow(s, a);
    if Enabled(s, a) && a.Commit? {
      forall e | e in t.rows && t.rows[e].status.Published? && !s.rows[e].status.Published?
        ensures Logged(s.parts, e)
      {
        assert HasProduced(s.relays[a.r], e);
      }
    }
  }

  lemma HandledStayStored(s: State, a: Action)
    requires OffsetsOrdered(s) && HandledAreStored(s) && Clean(s, a)
    ensures HandledAreStored(Next(s, a))
  {
    var t := Next(s, a);
    LogsGrow(s, a);
    if Enabled(s, a) && a.Handle? {
      var m := s.parts[a.p].log[s.parts[a.p].position];
      assert Stored(t.feed.audit, Eid(m)) by {
        if !Stored(s.feed.audit, Eid(m)) {
          assert t.feed.audit[|s.feed.audit|].eventId == Eid(m);
        }
      }
    }
  }

  ghost predicate Safe(s: State) {
    PublishedAreLogged(s) && ProducedAreSafe(s) && HandledAreStored(s)
  }

  lemma {:induction false} CleanRunSafe(s: State, actions: seq<Action>)
    requires Start(s) && CleanRun(s, actions)
    ensures Sound(Run(s, actions)) && Safe(Run(s, actions))
    decreases |actions|
  {
    StartSound(s);
    RunSound(s, actions);
    if actions != [] {
      var front, last := actions[..|actions| - 1], actions[|actions| - 1];
      CleanRunSafe(s, front);
      ProducedStaySafe(Run(s, front), last);
      PublishedStayLogged(Run(s, front), last);
      HandledStayStored(Run(s, front), last);
    }
  }

  ghost predicate NothingLost(s: State) {
    && (forall e :: e in s.rows ==>
          || s.rows[e].status.Pending?
          || (s.rows[e].status.Failed? && s.rows[e].attempts == MAX_ATTEMPTS)
          || Upcoming(s, e)
          || Stored(s.feed.audit, e))
    && (forall p, j :: 0 <= p < |s.parts| && 0 <= j < s.parts[p].committed && j < |s.parts[p].log| ==>
          Stored(s.feed.audit, Eid(s.parts[p].log[j])))
  }

  /** At every point of a clean run each committed outbox row is PENDING, or FAILED after ten attempts, or
      in the log at or above a committed offset, or audited; and everything below a committed offset is audited. */
  lemma NoEventIsLost(s: State, actions: seq<Action>)
    requires Start(s) && CleanRun(s, actions)
    ensures NothingLost(Run(s, actions))
  {
    CleanRunSafe(s, actions);
    var t := Run(s, actions);
    forall e | e in t.rows && t.rows[e].status.Published? ensures Upcoming(t, e) || Stored(t.feed.audit, e) {
      var p :| 0 <= p < |t.parts| && Occurs(t.parts[p].log, e);
      var j :| 0 <= j < |t.parts[p].log| && Eid(t.parts[p].log[j]) == e;
      if t.parts[p].committed <= j {
        assert Ahead(t.parts[p], e);
      }
    }
  }

  ghost predicate Drained(s: State) {
    && (forall e :: e in s.rows ==> s.rows[e].status.Published?)
    && (forall p :: 0 <= p < |s.parts| ==> s.parts[p].committed == |s.parts[p].log|)
  }

  function AuditedIds(audit: seq<AuditRow>): seq<EventId> {
    seq(|audit|, i requires 0 <= i < |audit| => audit[i].eventId)
  }

  /** Once a clean run has drained, the audit log holds every outbox row exactly once and nothing else. */
  lemma DrainedMeansAuditedExactlyOnce(s: State, actions: seq<Action>)
    requires Start(s) && CleanRun(s, actions) && Drained(Run(s, actions))
    ensures var t := Run(s, actions);
            && (forall e :: e in t.rows <==> Stored(t.feed.audit, e))
            && |t.feed.audit| == |t.rows|
  {
    var t := Run(s, actions);
    NoEventIsLost(s, actions);
    EndToEndSafety(s, actions);
    var ids := AuditedIds(t.feed.audit);
    forall e | e in t.rows ensures e in ids {
      assert t.rows[e].status.Published?;
      forall p | 0 <= p < |t.parts| ensures !Ahead(t.parts[p], e) {}
      var i :| 0 <= i < |t.feed.audit| && t.feed.audit[i].eventId == e;
      assert ids[i] == e;
    }
    forall i | 0 <= i < |ids| ensures ids[i] in t.rows {
      assert t.feed.audit[i].eventId in t.rows;
    }
    forall e | Stored(t.feed.audit, e) ensures e in t.rows {}
    DistinctCard(ids);
    assert Elements(ids) == t.rows.Keys;
  }

  // ---------------------------------------------------------------- lost for good

  /** A settled row with no copy in a client buffer or at or above a committed offset, and not audited. */
  predicate Lost(s: State, e: EventId) {
    && e in s.rows && !s.rows[e].status.Pending?
    && !Buffered(s, e) && !Upcoming(s, e) && !Stored(s.feed.audit, e)
  }

  lemma LostBuffers(s: State, a: Action, e: EventId)
    requires LocksSound(s) && Keyed(s.rows) && Lost(s, e)
    ensures !Buffered(Next(s, a), e)
  {
    var t := Next(s, a);
    forall r | 0 <= r < |t.relays| ensures !Occurs(t.relays[r].buffer, e) {
      assert !Occurs(s.relays[r].buffer, e);
      if Enabled(s, a) && a.Produce? {
        var b := s.relays[a.r].open.value;
        var f := b.events[|b.outcomes|];
        assert s.rows[f].status.Pending?;
      }
    }
  }

  lemma LostParts(s: State, a: Action, e: EventId)
    requires OffsetsOrdered(s) && Lost(s, e)
    ensures !Upcoming(Next(s, a), e)
  {
    var t := Next(s, a);
    forall p | 0 <= p < |t.parts| ensures !Ahead(t.parts[p], e) {
      assert !Ahead(s.parts[p], e);
      if Enabled(s, a) && (a.Deliver? || a.Retry?) {
        assert !Occurs(s.relays[a.r].buffer, e);
      }
    }
  }

  lemma LostStaysLost(s: State, a: Action, e: EventId)
    requires Sound(s) && Lost(s, e)
    ensures Lost(Next(s, a), e)
  {
    var t := Next(s, a);
    StepGrowsRows(s, a);
    LostBuffers(s, a, e);
    LostParts(s, a, e);
    if Enabled(s, a) && a.Handle? {
      var m := s.parts[a.p].log[s.parts[a.p].position];
      assert !Ahead(s.parts[a.p], e);
      assert Eid(m) != e;
      forall i | 0 <= i < |t.feed.audit| ensures t.feed.audit[i].eventId != e {
        if i < |s.feed.audit| { assert t.feed.audit[i] == s.feed.audit[i]; }
      }
    }
  }

  lemma {:induction false} LostForever(s: State, e: EventId, actions: seq<Action>)
    requires Sound(s) && Lost(s, e)
    ensures Lost(Run(s, actions), e)
    decreases |actions|
  {
    if actions != [] {
      LostForever(s, e, actions[..|actions| - 1]);
      RunSound(s, actions[..|actions| - 1]);
      LostStaysLost(Run(s, actions[..|actions| - 1]), actions[|actions| - 1], e);
    }
  }

  // Handling on from the current position reaches offset j and stores its event.
  lemma {:induction false} CatchUp(s: State, p: nat, j: nat) returns (actions: seq<Action>)
    requires p < |s.parts| && s.parts[p].position <= j < |s.parts[p].log|
    ensures Stored(Run(s, actions).feed.audit, Eid(s.parts[p].log[j]))
    decreases j - s.parts[p].position
  {
    var a := Handle(p, Completes);
    var t := Next(s, a);
    var m := s.parts[p].log[s.parts[p].position];
    if s.parts[p].position == j {
      actions := [a];
      RunOne(s, a, []);
      if !Stored(s.feed.audit, Eid(m)) {
        assert t.feed.audit[|s.feed.audit|].eventId == Eid(m);
      }
    } else {
      var rest := CatchUp(t, p, j);
      actions := [a] + rest;
      RunOne(s, a, rest);
    }
  }

  lemma Recover(s: State, e: EventId) returns (actions: seq<Action>)
    requires Sound(s) && |s.parts| > 0
    requires e in s.rows && !s.rows[e].status.Pending? && !Lost(s, e)
    ensures Stored(Run(s, actions).feed.audit, e)
  {
    if Stored(s.feed.audit, e) {
      actions := [];
    } else if Upcoming(s, e) {
      var p :| 0 <= p < |s.parts| && Ahead(s.parts[p], e);
      var j :| s.parts[p].committed <= j < |s.parts[p].log| && Eid(s.parts[p].log[j]) == e;
      var rest := CatchUp(Next(s, Restart), p, j);
      actions := [Restart] + rest;
      RunOne(s, Restart, rest);
    } else {
      var r :| 0 <= r < |s.relays| && Occurs(s.relays[r].buffer, e);
      var i :| 0 <= i < |s.relays[r].buffer| && Eid(s.relays[r].buffer[i]) == e;
      var a := Deliver(r, i, 0);
      var rest := CatchUp(Next(s, a), 0, |s.parts[0].log|);
      actions := [a] + rest;
      RunOne(s, a, rest);
    }
  }

  ghost predicate CanBeAudited(s: State, e: EventId) {
    exists actions :: Stored(Run(s, actions).feed.audit, e)
  }

  /** A settled row can still reach the audit log if and only if a copy of it is buffered in some client, lies at
      or above a committed offset, or is audited already. */
  lemma ReachableIffNotLost(s: State, e: EventId)
    requires Sound(s) && |s.parts| > 0 && e in s.rows && !s.rows[e].status.Pending?
    ensures CanBeAudited(s, e) <==> !Lost(s, e)
  {
    if Lost(s, e) {
      forall actions ensures !Stored(Run(s, actions).feed.audit, e) {
        LostForever(s, e, actions);
      }
    } else {
      var actions := Recover(s, e);
      assert Stored(Run(s, actions).feed.audit, e);
    }
  }

  // A buffered copy leaves its buffer for a partition, or because the client gives it up.
  lemma BufferedStays(s: State, a: Action, e: EventId)
    requires OffsetsOrdered(s) && Buffered(s, e)
    requires Enabled(s, a) && a.Drop? ==> Eid(s.relays[a.r].buffer[a.i]) != e
    ensures Buffered(Next(s, a), e) || Upcoming(Next(s, a), e)
  {
    var t := Next(s, a);
    var r :| 0 <= r < |s.relays| && Occurs(s.relays[r].buffer, e);
    var k :| 0 <= k < |s.relays[r].buffer| && Eid(s.relays[r].buffer[k]) == e;
    if Enabled(s, a) && (a.Deliver? || a.Drop?) && a.r == r {
      if k != a.i {
        WithoutKeeps(s.relays[r].buffer, a.i, k);
        assert Occurs(t.relays[r].buffer, e);
      } else {
        assert t.parts[a.p].log[|s.parts[a.p].log|] == s.relays[r].buffer[k];
        assert Ahead(t.parts[a.p], e);
      }
    } else {
      assert t.relays[r].buffer[k] == s.relays[r].buffer[k];
      assert Occurs(t.relays[r].buffer, e);
    }
  }

  // Some message of the partition was passed since its last commit.
  predicate Jumps(s: State, p: nat)
    requires p < |s.parts|
  {
    s.parts[p].committed < s.parts[p].position
  }

  // The next message is a copy of e, and the handler commits past it without storing it.
  predicate Refuses(s: State, p: nat, o: Outcome, e: EventId)
    requires p < |s.parts| && s.parts[p].position < |s.parts[p].log|
  {
    o.Refused? && Eid(s.parts[p].log[s.parts[p].position]) == e
  }

  // A copy ahead of the committed offset is stored before the offset passes it, unless the commit jumps.
  lemma AheadStays(s: State, a: Action, e: EventId)
    requires OffsetsOrdered(s) && Upcoming(s, e)
    requires Enabled(s, a) && a.Handle? && !a.o.InsertRaises? ==> !Jumps(s, a.p) && !Refuses(s, a.p, a.o, e)
    ensures Upcoming(Next(s, a), e) || Stored(Next(s, a).feed.audit, e)
  {
    var t := Next(s, a);
    var p :| 0 <= p < |s.parts| && Ahead(s.parts[p], e);
    var j :| s.parts[p].committed <= j < |s.parts[p].log| && Eid(s.parts[p].log[j]) == e;
    if Enabled(s, a) && a.Handle? && a.p == p && j == s.parts[p].position && Keeps(a.o) {
      LogsGrow(s, a);
      if !Stored(s.feed.audit, e) {
        assert t.feed.audit[|s.feed.audit|].eventId == e;
      }
    } else {
      assert t.parts[p].log[j] == s.parts[p].log[j];
      assert Ahead(t.parts[p], e);
    }
  }

  /** A row is lost only when its last buffered copy is given up after it was settled, when the batch that
      settles it commits, when the audit table refuses its message, or when an offset commit jumps over messages
      that were passed without one. */
  lemma WaysToLose(s: State, a: Action, e: EventId)
    requires Sound(s) && e in s.rows && !Lost(s, e) && Lost(Next(s, a), e)
    ensures Enabled(s, a)
    ensures match a
            case Drop(r, i) => !s.rows[e].status.Pending? && Eid(s.relays[r].buffer[i]) == e
            case Commit(r) => Holds(s.relays[r], e)
            case Handle(p, o) => !o.InsertRaises? && (Jumps(s, p) || Refuses(s, p, o, e))
            case _ => false
  {
    LogsGrow(s, a);
    if Buffered(s, e) && !(Enabled(s, a) && a.Drop? && Eid(s.relays[a.r].buffer[a.i]) == e) {
      BufferedStays(s, a, e);
    }
    if Upcoming(s, e) && !(Enabled(s, a) && a.Handle? && !a.o.InsertRaises?
                           && (Jumps(s, a.p) || Refuses(s, a.p, a.o, e))) {
      AheadStays(s, a, e);
    }
  }

  // ---------------------------------------------------------------- the two unguarded commits

  /** The relay's commit keeps "PUBLISHED rows are in the broker log" exactly when every message its batch produced
      has reached the log; the code does not look. */
  lemma RelayCommitIsSafeIff(s: State, r: nat)
    requires LocksSound(s) && PublishedAreLogged(s) && Enabled(s, Commit(r))
    ensures PublishedAreLogged(Next(s, Commit(r)))
            <==> forall i :: 0 <= i < |s.relays[r].open.value.outcomes| && s.relays[r].open.value.outcomes[i] ==>
                   Logged(s.parts, s.relays[r].open.value.events[i])
  {
    var t := Next(s, Commit(r));
    var b := s.relays[r].open.value;
    assert t.parts == s.parts && t.rows == ApplyBatch(s.rows, b.events, b.outcomes);
    forall e | e in s.rows
      ensures t.rows[e].status.Published? <==>
              s.rows[e].status.Published? || HasProduced(s.relays[r], e)
    {
      PublishedByBatch(s.rows, b, e);
    }
    forall i | 0 <= i < |b.outcomes| ensures IndexOf(b.events, b.events[i]) == i && b.events[i] in s.rows {}
    forall e | HasProduced(s.relays[r], e) ensures b.outcomes[IndexOf(b.events, e)] && e in s.rows {
      assert b.events[IndexOf(b.events, e)] == e;
    }
  }

  // A batch of PENDING rows turns exactly those it produced PUBLISHED.
  lemma PublishedByBatch(rows: Table, b: Batch, e: EventId)
    requires |b.outcomes| <= |b.events| && e in rows
    requires e in b.events ==> rows[e].status.Pending?
    ensures var i := IndexOf(b.events, e);
            ApplyBatch(rows, b.events, b.outcomes)[e].status.Published? <==>
              rows[e].status.Published? || (i < |b.outcomes| && b.outcomes[i])
  {}

  predicate CommittedAreStored(s: State) {
    forall p, j :: 0 <= p < |s.parts| && 0 <= j < s.parts[p].committed && j < |s.parts[p].log| ==>
      Stored(s.feed.audit, Eid(s.parts[p].log[j]))
  }

  /** An offset commit keeps "everything below the committed offset is audited" exactly when each message since the last
      commit, the one committed included, is audited or repeats a message that this call stores. */
  lemma OffsetCommitIsSafeIff(s: State, p: nat, o: Outcome)
    requires OffsetsOrdered(s) && CommittedAreStored(s) && Enabled(s, Handle(p, o)) && (o.Completes? || o.Refused?)
    ensures CommittedAreStored(Next(s, Handle(p, o)))
            <==> forall j :: s.parts[p].committed <= j <= s.parts[p].position ==>
                   Stored(s.feed.audit, Eid(s.parts[p].log[j]))
                   || (Keeps(o) && Eid(s.parts[p].log[j]) == Eid(s.parts[p].log[s.parts[p].position]))
  {
    var t := Next(s, Handle(p, o));
    var m := s.parts[p].log[s.parts[p].position];
    LogsGrow(s, Handle(p, o));
    assert forall e :: Stored(t.feed.audit, e) <==> Stored(s.feed.audit, e) || (Keeps(o) && e == Eid(m)) by {
      if !Stored(s.feed.audit, Eid(m)) && Keeps(o) {
        assert t.feed.audit[|s.feed.audit|].eventId == Eid(m);
      }
    }
    assert t.parts[p].log == s.parts[p].log && t.parts[p].committed == s.parts[p].position + 1;
    if CommittedAreStored(t) {
      forall j | s.parts[p].committed <= j <= s.parts[p].position
        ensures Stored(s.feed.audit, Eid(s.parts[p].log[j])) || (Keeps(o) && Eid(s.parts[p].log[j]) == Eid(m))
      {
        assert Stored(t.feed.audit, Eid(t.parts[p].log[j]));
      }
    }
  }

  lemma SoleRowIsBatch(s: State, r: nat, e: EventId)
    requires r < |s.relays| && s.rows.Keys == {e} && s.rows[e].status.Pending?
    requires s.rows[e].emission.payload.service == s.relays[r].service
    requires forall q :: 0 <= q < |s.relays| ==> s.relays[q].open.None?
    ensures IsBatch(Own(s.rows, s.relays[r].service), LockedRows(s), [e])
  {
    assert e in Free(Own(s.rows, s.relays[r].service), LockedRows(s));
  }

  /** A run in which a flush that timed out loses an event for good: the row is PUBLISHED, the client dies with the
      message still buffered, and no continuation ever audits it. */
  lemma UndrainedFlushLoses(s: State, em: Emission, at: nat, later: seq<Action>)
    requires Start(s) && |s.relays| > 0 && em.payload.service == s.relays[0].service
    ensures var run := [Insert(em, at), Open(0, [em.payload.eventId]), Produce(0, true), Commit(0), Drop(0, 0)];
            var t := Run(s, run + later);
            em.payload.eventId in t.rows && t.rows[em.payload.eventId].status.Published?
            && !Stored(t.feed.audit, em.payload.eventId)
  {
    var e := em.payload.eventId;
    var run := PublishSole(s, em, at);
    RunSnoc(s, run, Drop(0, 0));
    run := run + [Drop(0, 0)];
    var t := Run(s, run);
    assert t.relays[0].buffer == [];
    assert Lost(t, e);
    StartSound(s);
    RunSound(s, run);
    RunConcat(s, run, later);
    LostForever(t, e, later);
    HistoryIsImmutable(t, later);
    assert run == [Insert(em, at), Open(0, [e]), Produce(0, true), Commit(0), Drop(0, 0)];
  }

  // One row, produced by a batch that is still open.
  lemma ProduceOne(s: State, em: Emission, at: nat)
    requires Start(s) && |s.relays| > 0 && em.payload.service == s.relays[0].service
    ensures var e := em.payload.eventId;
            var t := Run(s, [Insert(em, at), Open(0, [e]), Produce(0, true)]);
            && t.rows == map[e := Row(em, at, Pending, 0)]
            && t.relays == s.relays[0 := s.relays[0].(buffer := [MessageOf(em)], open := Some(Batch([e], [true])))]
            && t.parts == s.parts && t.feed == s.feed
  {
    var e := em.payload.eventId;
    var none: seq<Action> := [];
    RunSnoc(s, none, Insert(em, at));
    var run := none + [Insert(em, at)];
    SoleRowIsBatch(Run(s, run), 0, e);
    RunSnoc(s, run, Open(0, [e]));
    run := run + [Open(0, [e])];
    RunSnoc(s, run, Produce(0, true));
    assert run + [Produce(0, true)] == [Insert(em, at), Open(0, [e]), Produce(0, true)];
    var t := Run(s, run + [Produce(0, true)]);
    assert t.relays[0].buffer == [MessageOf(em)];
    assert t.relays[0].open.value.outcomes == [true];
  }

  // One row, published by a batch whose flush delivered nothing.
  lemma PublishSole(s: State, em: Emission, at: nat) returns (run: seq<Action>)
    requires Start(s) && |s.relays| > 0 && em.payload.service == s.relays[0].service
    ensures run == [Insert(em, at), Open(0, [em.payload.eventId]), Produce(0, true), Commit(0)]
    ensures var t, e := Run(s, run), em.payload.eventId;
            && t.rows == map[e := Row(em, at, Published, 0)]
            && t.relays == s.relays[0 := s.relays[0].(buffer := [MessageOf(em)])]
            && t.parts == s.parts && t.feed == s.feed
  {
    var e := em.payload.eventId;
    ProduceOne(s, em, at);
    var open := [Insert(em, at), Open(0, [e]), Produce(0, true)];
    RunSnoc(s, open, Commit(0));
    run := open + [Commit(0)];
    assert IndexOf([e], e) == 0;
  }

  // The next message of the partition is the only copy left of an unaudited, settled row.
  predicate LastCopyNext(s: State, p: nat)
    requires p < |s.parts| && s.parts[p].position < |s.parts[p].log|
  {
    var e := Eid(s.parts[p].log[s.parts[p].position]);
    && e in s.rows && !s.rows[e].status.Pending? && !Stored(s.feed.audit, e) && !Buffered(s, e)
    && (forall q, j :: (0 <= q < |s.parts| && s.parts[q].committed <= j < |s.parts[q].log|
                        && !(q == p && j == s.parts[p].position)) ==> Eid(s.parts[q].log[j]) != e)
  }

  /** From any sound state: when the handler of a message raises before its insert, and the next message of the
      partition completes, the first event is lost for good if nothing else holds a copy of it. */
  lemma PassedMessageIsLost(s: State, p: nat, later: seq<Action>)
    requires Sound(s) && p < |s.parts| && s.parts[p].position + 1 < |s.parts[p].log| && LastCopyNext(s, p)
    ensures var e := Eid(s.parts[p].log[s.parts[p].position]);
            !Stored(Run(s, [Handle(p, InsertRaises), Handle(p, Completes)] + later).feed.audit, e)
  {
    var e := Eid(s.parts[p].log[s.parts[p].position]);
    var a, b := Handle(p, InsertRaises), Handle(p, Completes);
    RunOne(s, a, [b]);
    RunOne(Next(s, a), b, []);
    var t := Run(s, [a] + [b]);
    assert t == Next(Next(s, a), b);
    PassedIsLost(s, p);
    SoundKept(s, a);
    SoundKept(Next(s, a), b);
    assert [a] + [b] == [a, b];
    RunConcat(s, [a, b], later);
    LostForever(t, e, later);
  }

  lemma PassedIsLost(s: State, p: nat)
    requires OffsetsOrdered(s) && p < |s.parts| && s.parts[p].position + 1 < |s.parts[p].log| && LastCopyNext(s, p)
    ensures var e := Eid(s.parts[p].log[s.parts[p].position]);
            Lost(Next(Next(s, Handle(p, InsertRaises)), Handle(p, Completes)), e)
  {
    var e := Eid(s.parts[p].log[s.parts[p].position]);
    var s1 := Next(s, Handle(p, InsertRaises));
    assert s1 == s.(parts := s.parts[p := s.parts[p].(position := s.parts[p].position + 1)]);
    var t := Next(s1, Handle(p, Completes));
    forall i | 0 <= i < |t.feed.audit| ensures t.feed.audit[i].eventId != e {
      if i < |s.feed.audit| { assert t.feed.audit[i] == s.feed.audit[i]; }
    }
    forall q | 0 <= q < |t.parts| ensures !Ahead(t.parts[q], e) {
      assert t.parts[q].log == s.parts[q].log;
    }
    assert t.relays == s.relays;
  }

  /** A message that the audit table refuses for a constraint other than its event id is lost for good in one step. */
  lemma RefusedMessageIsLost(s: State, p: nat, later: seq<Action>)
    requires Sound(s) && p < |s.parts| && s.parts[p].position < |s.parts[p].log| && LastCopyNext(s, p)
    ensures var e := Eid(s.parts[p].log[s.parts[p].position]);
            !Stored(Run(s, [Handle(p, Refused)] + later).feed.audit, e)
  {
    var e := Eid(s.parts[p].log[s.parts[p].position]);
    var t := Next(s, Handle(p, Refused));
    SoundKept(s, Handle(p, Refused));
    assert Lost(t, e) by {
      forall q | 0 <= q < |t.parts| ensures !Ahead(t.parts[q], e) {
        assert t.parts[q].log == s.parts[q].log;
      }
      assert t.relays == s.relays && t.rows == s.rows;
    }
    RunOne(s, Handle(p, Refused), later);
    LostForever(t, e, later);
  }

  // ---------------------------------------------------------------- what the relay could check

  ghost predicate HoldingRun(s: State, actions: seq<Action>)
    decreases |actions|
  {
    actions != [] ==>
      var n := |actions| - 1;
      HoldingRun(s, actions[..n]) && HoldsOpenBatch(Run(s, actions[..n]), actions[n])
  }

  lemma {:induction false} HoldingRunIsSafe(s: State, actions: seq<Action>)
    requires Start(s) && HoldingRun(s, actions)
    ensures Sound(Run(s, actions)) && ProducedAreSafe(Run(s, actions))
    decreases |actions|
  {
    StartSound(s);
    RunSound(s, actions);
    if actions != [] {
      var front, last := actions[..|actions| - 1], actions[|actions| - 1];
      HoldingRunIsSafe(s, front);
      ProducedStaySafe(Run(s, front), last);
    }
  }

  // A message of the relay's open batch still waits in its own client.
  ghost predicate BatchWaits(s: State, r: nat)
    requires r < |s.relays|
  {
    exists e :: HasProduced(s.relays[r], e) && Occurs(s.relays[r].buffer, e)
  }

  // Such a message has no other copy in the log: none of an earlier batch, and none whose acknowledgement was lost.
  ghost predicate SingleCopies(s: State, r: nat)
    requires r < |s.relays|
  {
    forall e :: HasProduced(s.relays[r], e) && Occurs(s.relays[r].buffer, e) ==> !Logged(s.parts, e)
  }

  lemma ProducedOfBatch(s: State, r: nat, i: nat)
    requires r < |s.relays| && BatchSound(s.rows, s.relays[r]) && s.relays[r].open.Some?
    requires var b := s.relays[r].open.value; i < |b.outcomes| && b.outcomes[i]
    ensures HasProduced(s.relays[r], s.relays[r].open.value.events[i])
  {
    var b := s.relays[r].open.value;
    assert IndexOf(b.events, b.events[i]) == i;
  }

  /** What the relay can see decides: in every run whose clients give up no message of an open batch, a commit keeps
      "PUBLISHED rows are in the broker log" if no message of its batch is left in its own client; and only if, unless
      such a message has another copy in the log, which the relay cannot see. */
  lemma EmptyClientDecides(s: State, actions: seq<Action>, r: nat)
    requires Start(s) && HoldingRun(s, actions)
    requires PublishedAreLogged(Run(s, actions)) && Enabled(Run(s, actions), Commit(r))
    ensures var t := Run(s, actions);
            && (!BatchWaits(t, r) ==> PublishedAreLogged(Next(t, Commit(r))))
            && (SingleCopies(t, r) ==> (PublishedAreLogged(Next(t, Commit(r))) <==> !BatchWaits(t, r)))
  {
    HoldingRunIsSafe(s, actions);
    var t := Run(s, actions);
    var b := t.relays[r].open.value;
    RelayCommitIsSafeIff(t, r);
    forall i | 0 <= i < |b.outcomes| && b.outcomes[i]
      ensures HasProduced(t.relays[r], b.events[i])
      ensures Occurs(t.relays[r].buffer, b.events[i]) || Logged(t.parts, b.events[i])
    {
      ProducedOfBatch(t, r, i);
    }
    if BatchWaits(t, r) && SingleCopies(t, r) {
      var e :| HasProduced(t.relays[r], e) && Occurs(t.relays[r].buffer, e);
      assert b.outcomes[IndexOf(b.events, e)] && b.events[IndexOf(b.events, e)] == e;
    }
  }

  // The steps of a batch whose message the client gives up while it is open.
  function DropRun(em: Emission, at: nat): seq<Action> {
    [Insert(em, at), Open(0, [em.payload.eventId]), Produce(0, true), Drop(0, 0)]
  }

  lemma DropSole(s: State, m: Message)
    requires |s.relays| > 0 && s.relays[0].buffer == [m]
    ensures Next(s, Drop(0, 0)) == s.(relays := s.relays[0 := s.relays[0].(buffer := [])])
  {
    assert Without([m], 0) == [];
  }

  lemma DropEmptiesClient(s: State, em: Emission, at: nat)
    requires Start(s) && |s.relays| > 0 && em.payload.service == s.relays[0].service
    ensures var t, e := Run(s, DropRun(em, at)), em.payload.eventId;
            && t.rows == map[e := Row(em, at, Pending, 0)]
            && t.relays == s.relays[0 := s.relays[0].(open := Some(Batch([e], [true])))]
            && t.parts == s.parts && t.feed == s.feed
  {
    var e := em.payload.eventId;
    var open := [Insert(em, at), Open(0, [e]), Produce(0, true)];
    ProduceOne(s, em, at);
    RunSnoc(s, open, Drop(0, 0));
    DropSole(Run(s, open), MessageOf(em));
    assert open + [Drop(0, 0)] == DropRun(em, at);
  }

  /** That the client holds on to the batch is needed: it gives the message up before the commit, so the commit finds
      the buffer empty and marks the row, and no continuation ever audits it. */
  lemma DropInOpenBatchLoses(s: State, em: Emission, at: nat, later: seq<Action>)
    requires Start(s) && |s.relays| > 0 && em.payload.service == s.relays[0].service
    ensures var before, e := Run(s, DropRun(em, at)), em.payload.eventId;
            && |before.relays| > 0 && before.relays[0].open.Some? && before.relays[0].buffer == []
            && var t := Run(s, DropRun(em, at) + [Commit(0)] + later);
               e in t.rows && t.rows[e].status.Published? && !Stored(t.feed.audit, e)
  {
    var e, run := em.payload.eventId, DropRun(em, at) + [Commit(0)];
    DropEmptiesClient(s, em, at);
    RunSnoc(s, DropRun(em, at), Commit(0));
    assert IndexOf([e], e) == 0;
    assert Lost(Run(s, run), e);
    StartSound(s);
    RunSound(s, run);
    RunConcat(s, run, later);
    LostForever(Run(s, run), e, later);
    HistoryIsImmutable(Run(s, run), later);
  }
}
