/** The event pipeline as one transition system: the two outbox tables, any number
    of relays, the broker's partitions and the audit consumer, with every crash and
    interleaving between them. */
module Pipeline {
  import opened Events
  import opened Collections
  import opened Relay
  import opened AuditConsumer

  // An open relay transaction: the rows it locked, and what produce answered so far.
  datatype Batch = Batch(events: seq<EventId>, outcomes: seq<bool>)

  datatype RelayState = RelayState(service: Service, open: Option<Batch>, buffer: seq<Message>)

  // History of one row: successful produce calls, and rolled-back batches that had produced it.
  datatype Ledger = Ledger(accepted: nat, abandoned: nat)

  datatype State = State(
    rows: Table,
    inserted: seq<EventId>,          // history: event ids in commit order
    ledger: map<EventId, Ledger>,
    relays: seq<RelayState>,
    parts: seq<Part>,
    feed: Feed)

  datatype Action =
    | Insert(emission: Emission, createdAt: nat)  // a business transaction commits this outbox row
    | Open(r: nat, batch: seq<EventId>)           // a relay's locking query answers
    | Produce(r: nat, accepted: bool)             // one iteration of its loop
    | Commit(r: nat)
    | Abort(r: nat)                               // exception or crash: the transaction rolls back
    | Deliver(r: nat, i: nat, p: nat)             // the client hands message i to partition p
    | Retry(r: nat, i: nat, p: nat)               // the same, but the acknowledgement is lost
    | Drop(r: nat, i: nat)                        // the client gives message i up, or dies with it
    | Handle(p: nat, o: Outcome)                  // the consumer polls p and handles the message
    | Restart                                     // the consumer restarts at the committed offsets

  function Own(rows: Table, service: Service): Table {
    map e | e in rows && rows[e].emission.payload.service == service :: rows[e]
  }

  predicate Holds(relay: RelayState, e: EventId) {
    relay.open.Some? && e in relay.open.value.events
  }

  predicate Locked(s: State, e: EventId) {
    exists r :: 0 <= r < |s.relays| && Holds(s.relays[r], e)
  }

  function LockedRows(s: State): set<EventId> {
    set e | e in s.rows && Locked(s, e)
  }

  // The open transaction of this relay has already produced e.
  predicate HasProduced(relay: RelayState, e: EventId) {
    relay.open.Some?
    && var b := relay.open.value;
       var i := IndexOf(b.events, e);
       i < |b.outcomes| && b.outcomes[i]
  }

  predicate InProgress(s: State, e: EventId) {
    exists r :: 0 <= r < |s.relays| && HasProduced(s.relays[r], e)
  }

  ghost predicate Enabled(s: State, a: Action) {
    match a
    case Insert(em, _) => em.payload.eventId !in s.rows
    case Open(r, batch) =>
      && r < |s.relays| && s.relays[r].open.None? && batch != []
      && IsBatch(Own(s.rows, s.relays[r].service), LockedRows(s), batch)
    case Produce(r, _) =>
      && r < |s.relays| && s.relays[r].open.Some?
      && var b := s.relays[r].open.value;
         |b.outcomes| < |b.events| && b.events[|b.outcomes|] in s.rows && b.events[|b.outcomes|] in s.ledger
    case Commit(r) =>
      r < |s.relays| && s.relays[r].open.Some?
      && |s.relays[r].open.value.outcomes| == |s.relays[r].open.value.events|
    case Abort(r) => r < |s.relays| && s.relays[r].open.Some?
    case Deliver(r, i, p) => r < |s.relays| && i < |s.relays[r].buffer| && p < |s.parts|
    case Retry(r, i, p) => r < |s.relays| && i < |s.relays[r].buffer| && p < |s.parts|
    case Drop(r, i) => r < |s.relays| && i < |s.relays[r].buffer|
    case Handle(p, o) =>
      && p < |s.parts| && s.parts[p].position < |s.parts[p].log|
      && (o.Completes? || !Keeps(o)
          || !Stored(s.feed.audit, Eid(s.parts[p].log[s.parts[p].position])))
    case Restart => true
  }

  function Append(part: Part, m: Message): Part {
    part.(log := part.log + [m])
  }

  function Rewind(part: Part): Part {
    part.(position := part.committed)
  }

  function Rewound(parts: seq<Part>): (r: seq<Part>)
    ensures |r| == |parts| && forall p :: 0 <= p < |parts| ==> r[p] == Rewind(parts[p])
  {
    seq(|parts|, p requires 0 <= p < |parts| => Rewind(parts[p]))
  }

  function Close(relay: RelayState): RelayState {
    relay.(open := None)
  }

  function Apply(s: State, a: Action): State
    requires Enabled(s, a)
  {
    match a
    case Insert(em, at) =>
      var e := em.payload.eventId;
      s.(rows := s.rows[e := Row(em, at, Pending, 0)],
         inserted := s.inserted + [e],
         ledger := s.ledger[e := Ledger(0, 0)])
    case Open(r, batch) =>
      s.(relays := s.relays[r := s.relays[r].(open := Some(Batch(batch, [])))])
    case Produce(r, accepted) =>
      var relay := s.relays[r];
      var b := relay.open.value;
      var e := b.events[|b.outcomes|];
      var next := relay.(open := Some(b.(outcomes := b.outcomes + [accepted])));
      if accepted then
        s.(relays := s.relays[r := next.(buffer := relay.buffer + [MessageOf(s.rows[e].emission)])],
           ledger := s.ledger[e := s.ledger[e].(accepted := s.ledger[e].accepted + 1)])
      else s.(relays := s.relays[r := next])
    case Commit(r) =>
      var b := s.relays[r].open.value;
      s.(rows := ApplyBatch(s.rows, b.events, b.outcomes), relays := s.relays[r := Close(s.relays[r])])
    case Abort(r) =>
      s.(relays := s.relays[r := Close(s.relays[r])],
         ledger := map e | e in s.ledger ::
                     if HasProduced(s.relays[r], e) then s.ledger[e].(abandoned := s.ledger[e].abandoned + 1)
                     else s.ledger[e])
    case Deliver(r, i, p) =>
      s.(relays := s.relays[r := s.relays[r].(buffer := Without(s.relays[r].buffer, i))],
         parts := s.parts[p := Append(s.parts[p], s.relays[r].buffer[i])])
    case Retry(r, i, p) =>
      s.(parts := s.parts[p := Append(s.parts[p], s.relays[r].buffer[i])])
    case Drop(r, i) =>
      s.(relays := s.relays[r := s.relays[r].(buffer := Without(s.relays[r].buffer, i))])
    case Handle(p, o) =>
      var part := s.parts[p];
      var m := part.log[part.position];
      s.(parts := s.parts[p := Advance(part, o)],
         feed := Ingest(s.feed, m, o))
    case Restart => s.(parts := Rewound(s.parts))
  }

  /** An action that is not enabled does nothing. */
  ghost function Next(s: State, a: Action): State {
    if Enabled(s, a) then Apply(s, a) else s
  }

  ghost function Run(s: State, actions: seq<Action>): State
    decreases |actions|
  {
    if actions == [] then s
    else Next(Run(s, actions[..|actions| - 1]), actions[|actions| - 1])
  }

  predicate Start(s: State) {
    && s.rows == map[] && s.inserted == [] && s.ledger == map[] && s.feed == Feed([], [])
    && (forall r :: 0 <= r < |s.relays| ==> s.relays[r].open.None? && s.relays[r].buffer == [])
    && (forall p :: 0 <= p < |s.parts| ==> s.parts[p] == Part([], 0, 0))
  }

  lemma {:induction false} RunConcat(s: State, before: seq<Action>, after: seq<Action>)
    ensures Run(s, before + after) == Run(Run(s, before), after)
    decreases |after|
  {
    if after == [] {
      assert before + after == before;
    } else {
      var n := |after| - 1;
      RunConcat(s, before, after[..n]);
      assert (before + after)[..|before + after| - 1] == before + after[..n];
    }
  }

  // ---------------------------------------------------------------- invariants

  predicate Keyed(rows: Table) {
    forall e :: e in rows ==> rows[e].emission.payload.eventId == e
  }

  // m is the message of a committed outbox row.
  predicate Genuine(rows: Table, m: Message) {
    Eid(m) in rows && m == MessageOf(rows[Eid(m)].emission)
  }

  predicate AllGenuine(rows: Table, q: seq<Message>) {
    forall i :: 0 <= i < |q| ==> Genuine(rows, q[i])
  }

  predicate Provenance(s: State) {
    && Keyed(s.rows)
    && (forall r :: 0 <= r < |s.relays| ==> AllGenuine(s.rows, s.relays[r].buffer))
    && (forall p :: 0 <= p < |s.parts| ==> AllGenuine(s.rows, s.parts[p].log))
  }

  predicate AuditGenuine(s: State) {
    forall i :: 0 <= i < |s.feed.audit| ==>
      var row := s.feed.audit[i];
      row.eventId in s.rows && row == AuditRowOf(MessageOf(s.rows[row.eventId].emission))
  }

  ghost predicate OncePerEvent(feed: Feed) {
    && (forall i, j :: 0 <= i < j < |feed.audit| ==> feed.audit[i].eventId != feed.audit[j].eventId)
    && Distinct(feed.broadcasts)
    && (forall i :: 0 <= i < |feed.broadcasts| ==> Stored(feed.audit, feed.broadcasts[i]))
  }

  predicate OffsetsOrdered(s: State) {
    forall p :: 0 <= p < |s.parts| ==>
      s.parts[p].committed <= s.parts[p].position <= |s.parts[p].log|
  }

  // An open batch: distinct PENDING rows of the relay's own table.
  ghost predicate BatchSound(rows: Table, relay: RelayState) {
    relay.open.Some? ==>
      var b := relay.open.value;
      && Distinct(b.events) && |b.outcomes| <= |b.events|
      && (forall i :: 0 <= i < |b.events| ==>
            b.events[i] in rows && rows[b.events[i]].status.Pending?
            && rows[b.events[i]].emission.payload.service == relay.service)
  }

  ghost predicate LocksExclusive(s: State) {
    forall q, r, e :: 0 <= q < r < |s.relays| && Holds(s.relays[q], e) ==> !Holds(s.relays[r], e)
  }

  ghost predicate LocksSound(s: State) {
    && s.ledger.Keys == s.rows.Keys
    && (forall e :: e in s.rows ==> AttemptsAgree(s.rows[e]))
    && (forall r :: 0 <= r < |s.relays| ==> BatchSound(s.rows, s.relays[r]))
    && LocksExclusive(s)
  }

  ghost predicate Sound(s: State) {
    Provenance(s) && AuditGenuine(s) && OncePerEvent(s.feed) && OffsetsOrdered(s) && LocksSound(s)
  }

  // ---------------------------------------------------------------- what a step may change

  /** Rows are never deleted and never change their content; a settled row never changes again. */
  predicate RowsGrow(before: Table, after: Table) {
    forall e :: e in before ==>
      && e in after && after[e].emission == before[e].emission && after[e].createdAt == before[e].createdAt
      && (!before[e].status.Pending? ==> after[e] == before[e])
  }

  lemma StepGrowsRows(s: State, a: Action)
    requires LocksSound(s)
    ensures RowsGrow(s.rows, Next(s, a).rows)
  {
    if Enabled(s, a) && a.Commit? {
      assert BatchSound(s.rows, s.relays[a.r]);
      BatchGrowsRows(s.rows, s.relays[a.r].open.value);
    }
  }

  lemma BatchGrowsRows(rows: Table, b: Batch)
    requires |b.outcomes| <= |b.events|
    requires forall i :: 0 <= i < |b.events| ==> b.events[i] in rows && rows[b.events[i]].status.Pending?
    ensures RowsGrow(rows, ApplyBatch(rows, b.events, b.outcomes))
  {
    forall e | e in rows && !rows[e].status.Pending? ensures e !in b.events {}
  }

  lemma GenuineStays(before: Table, after: Table, q: seq<Message>)
    requires RowsGrow(before, after) && AllGenuine(before, q)
    ensures AllGenuine(after, q)
  {}

  lemma ProvenanceKept(s: State, a: Action)
    requires Provenance(s) && LocksSound(s)
    ensures Provenance(Next(s, a))
  {
    StepGrowsRows(s, a);
    BuffersGenuine(s, a);
    LogsGenuine(s, a);
    if Enabled(s, a) && a.Insert? {
      assert Keyed(Next(s, a).rows);
    }
  }

  lemma BuffersGenuine(s: State, a: Action)
    requires Provenance(s) && RowsGrow(s.rows, Next(s, a).rows)
    ensures forall r :: 0 <= r < |Next(s, a).relays| ==> AllGenuine(Next(s, a).rows, Next(s, a).relays[r].buffer)
  {
    var t := Next(s, a);
    forall r | 0 <= r < |t.relays| ensures AllGenuine(t.rows, t.relays[r].buffer) {
      GenuineStays(s.rows, t.rows, s.relays[r].buffer);
    }
  }

  lemma LogsGenuine(s: State, a: Action)
    requires Provenance(s) && RowsGrow(s.rows, Next(s, a).rows)
    ensures forall p :: 0 <= p < |Next(s, a).parts| ==> AllGenuine(Next(s, a).rows, Next(s, a).parts[p].log)
  {
    var t := Next(s, a);
    forall p | 0 <= p < |t.parts| ensures AllGenuine(t.rows, t.parts[p].log) {
      GenuineStays(s.rows, t.rows, s.parts[p].log);
      if Enabled(s, a) && (a.Deliver? || a.Retry?) {
        GenuineStays(s.rows, t.rows, s.relays[a.r].buffer);
      }
    }
  }

  lemma AuditKept(s: State, a: Action)
    requires Sound(s)
    ensures AuditGenuine(Next(s, a)) && OncePerEvent(Next(s, a).feed)
    ensures s.feed.audit <= Next(s, a).feed.audit
    ensures s.feed.broadcasts <= Next(s, a).feed.broadcasts
  {
    StepGrowsRows(s, a);
    if Enabled(s, a) && a.Handle? {
      var m := s.parts[a.p].log[s.parts[a.p].position];
      assert Genuine(s.rows, m);
      IngestOnce(s.feed, m, a.o);
    }
  }

  lemma IngestOnce(feed: Feed, m: Message, o: Outcome)
    requires OncePerEvent(feed)
    ensures OncePerEvent(Ingest(feed, m, o))
  {
    var after := Ingest(feed, m, o);
    forall e | Stored(feed.audit, e) ensures Stored(after.audit, e) {
      var i :| 0 <= i < |feed.audit| && feed.audit[i].eventId == e;
      assert after.audit[i].eventId == e;
    }
    if after.audit != feed.audit {
      assert after.audit[|feed.audit|].eventId == Eid(m);
    }
  }

  lemma LocksKept(s: State, a: Action)
    requires LocksSound(s) && Keyed(s.rows)
    ensures LocksSound(Next(s, a))
  {
    var t := Next(s, a);
    if Enabled(s, a) {
      match a
      case Open(r, batch) => OpenKeepsLocks(s, r, batch);
      case Commit(r) => CommitKeepsLocks(s, r);
      case Produce(r, _) => RelayStepKeepsLocks(s, t, r);
      case Abort(r) => RelayStepKeepsLocks(s, t, r);
      case Deliver(r, _, _) => RelayStepKeepsLocks(s, t, r);
      case Drop(r, _) => RelayStepKeepsLocks(s, t, r);
      case Insert(em, at) => InsertKeepsLocks(s, em, at);
      case Retry(_, _, _) => SameLocks(s, t);
      case Handle(_, _) => SameLocks(s, t);
      case Restart => SameLocks(s, t);
    }
  }

  lemma SameLocks(s: State, t: State)
    requires LocksSound(s) && t.rows == s.rows && t.ledger == s.ledger && t.relays == s.relays
    ensures LocksSound(t)
  {}

  // A step of one relay that takes no new locks and leaves the table alone.
  lemma RelayStepKeepsLocks(s: State, t: State, r: nat)
    requires LocksSound(s) && r < |s.relays| && |t.relays| == |s.relays|
    requires t.rows == s.rows && t.ledger.Keys == s.ledger.Keys
    requires forall q :: 0 <= q < |s.relays| && q != r ==> t.relays[q] == s.relays[q]
    requires BatchSound(s.rows, t.relays[r])
    requires t.relays[r].open.Some? ==> s.relays[r].open.Some?
                                        && t.relays[r].open.value.events == s.relays[r].open.value.events
    ensures LocksSound(t)
  {
    forall q, e | 0 <= q < |s.relays| ensures Holds(t.relays[q], e) ==> Holds(s.relays[q], e) {}
  }

  lemma InsertKeepsLocks(s: State, em: Emission, at: nat)
    requires LocksSound(s) && Enabled(s, Insert(em, at))
    ensures LocksSound(Next(s, Insert(em, at)))
  {
    var t := Next(s, Insert(em, at));
    forall r | 0 <= r < |t.relays| ensures BatchSound(t.rows, t.relays[r]) {
      assert BatchSound(s.rows, s.relays[r]);
    }
  }

  lemma OpenKeepsLocks(s: State, r: nat, batch: seq<EventId>)
    requires LocksSound(s) && Enabled(s, Open(r, batch))
    ensures LocksSound(Next(s, Open(r, batch)))
  {
    var t := Next(s, Open(r, batch));
    var own := Own(s.rows, s.relays[r].service);
    forall i | 0 <= i < |batch|
      ensures batch[i] in own && own[batch[i]].status.Pending? && !Locked(s, batch[i])
    {
      assert batch[i] in Free(own, LockedRows(s));
    }
    assert BatchSound(t.rows, t.relays[r]);
    forall q, e | 0 <= q < |s.relays| && q != r && Holds(s.relays[q], e) ensures !Holds(t.relays[r], e) {
      if e in batch {
        assert Locked(s, e);
      }
    }
  }

  lemma CommitKeepsLocks(s: State, r: nat)
    requires LocksSound(s) && Enabled(s, Commit(r))
    ensures LocksSound(Next(s, Commit(r)))
  {
    var t := Next(s, Commit(r));
    var b := s.relays[r].open.value;
    forall q | 0 <= q < |t.relays| ensures BatchSound(t.rows, t.relays[q]) {
      if q != r {
        OtherBatchUntouched(s, r, q);
      }
    }
    BatchKeepsAttempts(s.rows, b);
    forall q, e | 0 <= q < |s.relays| ensures Holds(t.relays[q], e) ==> Holds(s.relays[q], e) {}
  }

  lemma BatchKeepsAttempts(rows: Table, b: Batch)
    requires |b.outcomes| <= |b.events|
    requires forall i :: 0 <= i < |b.events| ==> b.events[i] in rows && rows[b.events[i]].status.Pending?
    requires forall e :: e in rows ==> AttemptsAgree(rows[e])
    ensures forall e :: e in ApplyBatch(rows, b.events, b.outcomes) ==>
              AttemptsAgree(ApplyBatch(rows, b.events, b.outcomes)[e])
  {
    forall e | e in rows && IndexOf(b.events, e) < |b.outcomes| ensures rows[e].status.Pending? {
      assert b.events[IndexOf(b.events, e)] == e;
    }
  }

  lemma OtherBatchUntouched(s: State, r: nat, q: nat)
    requires LocksExclusive(s) && r < |s.relays| && q < |s.relays| && q != r
    requires s.relays[r].open.Some? && |s.relays[r].open.value.outcomes| <= |s.relays[r].open.value.events|
    requires BatchSound(s.rows, s.relays[q])
    ensures BatchSound(ApplyBatch(s.rows, s.relays[r].open.value.events, s.relays[r].open.value.outcomes), s.relays[q])
  {
    if s.relays[q].open.Some? {
      var c := s.relays[q].open.value;
      forall i | 0 <= i < |c.events| ensures c.events[i] !in s.relays[r].open.value.events {
        assert Holds(s.relays[q], c.events[i]);
      }
    }
  }

  lemma SoundKept(s: State, a: Action)
    requires Sound(s)
    ensures Sound(Next(s, a))
  {
    ProvenanceKept(s, a);
    AuditKept(s, a);
    LocksKept(s, a);
  }

  lemma StartSound(s: State)
    requires Start(s)
    ensures Sound(s)
  {}

  lemma {:induction false} RunSound(s: State, actions: seq<Action>)
    requires Sound(s)
    ensures Sound(Run(s, actions))
    decreases |actions|
  {
    if actions != [] {
      RunSound(s, actions[..|actions| - 1]);
      SoundKept(Run(s, actions[..|actions| - 1]), actions[|actions| - 1]);
    }
  }

  // ---------------------------------------------------------------- end-to-end safety

  /** In every run each audit row is the image of a committed outbox row, no event is audited twice,
      and every broadcast is of an audited event and happens at most once. */
  lemma EndToEndSafety(s: State, actions: seq<Action>)
    requires Start(s)
    ensures AuditGenuine(Run(s, actions))
    ensures OncePerEvent(Run(s, actions).feed)
  {
    StartSound(s);
    RunSound(s, actions);
  }

  /** Later states only extend earlier ones: audit rows and broadcasts are never altered, removed or
      reordered, outbox rows never lose their content, and PUBLISHED and FAILED rows are frozen. */
  lemma {:induction false} HistoryIsImmutable(s: State, actions: seq<Action>)
    requires Sound(s)
    ensures s.feed.audit <= Run(s, actions).feed.audit
    ensures s.feed.broadcasts <= Run(s, actions).feed.broadcasts
    ensures RowsGrow(s.rows, Run(s, actions).rows)
    decreases |actions|
  {
    if actions != [] {
      var front, last := actions[..|actions| - 1], actions[|actions| - 1];
      HistoryIsImmutable(s, front);
      RunSound(s, front);
      AuditKept(Run(s, front), last);
      StepGrowsRows(Run(s, front), last);
    }
  }

  // m carries what was committed in em.
  predicate Says(m: Message, em: Emission) {
    && m.topic == em.topic && m.payload == em.payload
    && m.key == match em.key case Some(key) => key case None => em.aggregateId
  }

  // The audit row says what was committed in em, filed under the claim, else the policy, that em is about.
  predicate Records(row: AuditRow, em: Emission) {
    && row.eventId == em.payload.eventId && row.eventType == em.payload.eventType && row.topic == em.topic
    && row.service == em.payload.service && row.payload == em.payload
    && match (em.payload.data.claimId, em.payload.data.policyId)
       case (Some(c), _) => row.kind == ClaimEntity && row.entityId == Some(c)
       case (None, Some(p)) => row.kind == PolicyEntity && row.entityId == Some(p)
       case (None, None) =>
         && row.entityId == None
         && (row.kind == ClaimEntity <==> em.payload.eventType in {ClaimFiled, ClaimStatusChanged, ClaimResolved})
  }

  /** In every run each message in a client buffer or a partition has the topic, key and payload of a committed outbox
      row, and each audit row has its topic, type, service, payload and entity. */
  lemma ContentIsCommitted(s: State, actions: seq<Action>)
    requires Start(s)
    ensures var t := Run(s, actions);
            && (forall r, i :: 0 <= r < |t.relays| && 0 <= i < |t.relays[r].buffer| ==>
                  var m := t.relays[r].buffer[i];
                  m.payload.eventId in t.rows && Says(m, t.rows[m.payload.eventId].emission))
            && (forall p, i :: 0 <= p < |t.parts| && 0 <= i < |t.parts[p].log| ==>
                  var m := t.parts[p].log[i];
                  m.payload.eventId in t.rows && Says(m, t.rows[m.payload.eventId].emission))
            && (forall i :: 0 <= i < |t.feed.audit| ==>
                  var row := t.feed.audit[i];
                  row.eventId in t.rows && Records(row, t.rows[row.eventId].emission))
  {
    StartSound(s);
    RunSound(s, actions);
    var t := Run(s, actions);
    forall r, i | 0 <= r < |t.relays| && 0 <= i < |t.relays[r].buffer|
      ensures Genuine(t.rows, t.relays[r].buffer[i])
    {
      assert AllGenuine(t.rows, t.relays[r].buffer);
    }
    forall p, i | 0 <= p < |t.parts| && 0 <= i < |t.parts[p].log| ensures Genuine(t.rows, t.parts[p].log[i]) {
      assert AllGenuine(t.rows, t.parts[p].log);
    }
    forall i | 0 <= i < |t.feed.audit|
      ensures t.feed.audit[i].eventId in t.rows
      ensures Records(t.feed.audit[i], t.rows[t.feed.audit[i].eventId].emission)
    {
      RecordsOf(t.feed.audit[i], t.rows[t.feed.audit[i].eventId].emission);
    }
  }

  lemma RecordsOf(row: AuditRow, em: Emission)
    requires row == AuditRowOf(MessageOf(em))
    ensures Records(row, em)
  {}

  // What the insert of e stored.
  ghost function InsertedAs(s: State, actions: seq<Action>, e: EventId): Option<(Emission, nat)>
    decreases |actions|
  {
    if actions == [] then None
    else
      var n := |actions| - 1;
      var a := actions[n];
      if InsertedAs(s, actions[..n], e).Some? then InsertedAs(s, actions[..n], e)
      else if a.Insert? && a.emission.payload.eventId == e then Some((a.emission, a.createdAt))
      else None
  }

  /** In every run the outbox rows are exactly the inserted ones, with the content and time they were inserted with. */
  lemma {:induction false} RowsAreInserted(s: State, actions: seq<Action>, e: EventId)
    requires Start(s)
    ensures var t, inserted := Run(s, actions), InsertedAs(s, actions, e);
            && (e in t.rows <==> inserted.Some?)
            && (e in t.rows ==> inserted == Some((t.rows[e].emission, t.rows[e].createdAt)))
    decreases |actions|
  {
    if actions != [] {
      var front, last := actions[..|actions| - 1], actions[|actions| - 1];
      RowsAreInserted(s, front, e);
      StartSound(s);
      RunSound(s, front);
      StepGrowsRows(Run(s, front), last);
    }
  }

  // ---------------------------------------------------------------- every audited event was broadcast, or raised

  // How the Handle step ended that stored e, if there was one.
  ghost function StoringOutcome(s: State, actions: seq<Action>, e: EventId): Option<Outcome>
    decreases |actions|
  {
    if actions == [] then None
    else
      var n := |actions| - 1;
      var before, a := Run(s, actions[..n]), actions[n];
      if StoringOutcome(s, actions[..n], e).Some? then StoringOutcome(s, actions[..n], e)
      else if a.Handle? && Enabled(before, a) && !a.o.InsertRaises? && !a.o.Refused?
              && before.parts[a.p].log[before.parts[a.p].position].payload.eventId == e
      then Some(a.o)
      else None
  }

  lemma StoredSnoc(audit: seq<AuditRow>, row: AuditRow, e: EventId)
    ensures Stored(audit + [row], e) <==> Stored(audit, e) || row.eventId == e
  {
    var longer := audit + [row];
    assert longer[|audit|] == row;
    forall i | 0 <= i < |audit| ensures longer[i] == audit[i] {}
  }

  lemma BroadcastStep(feed: Feed, m: Message, o: Outcome, e: EventId)
    ensures var t := Ingest(feed, m, o);
            if o.InsertRaises? || o.Refused? || Stored(feed.audit, m.payload.eventId) || m.payload.eventId != e
            then (Stored(t.audit, e) <==> Stored(feed.audit, e)) && (e in t.broadcasts <==> e in feed.broadcasts)
            else Stored(t.audit, e) && (e in t.broadcasts <==> e in feed.broadcasts || o != BroadcastRaises(false))
  {
    StoredSnoc(feed.audit, AuditRowOf(m), e);
  }

  /** In every run: an event is audited exactly when some handler call stored it, and an audited event was broadcast
      exactly when that call did not end with the broadcast raising before it was sent. */
  lemma {:induction false} BroadcastUnlessRaised(s: State, actions: seq<Action>, e: EventId)
    requires Start(s)
    ensures var t, o := Run(s, actions), StoringOutcome(s, actions, e);
            && (Stored(t.feed.audit, e) <==> o.Some?)
            && (e in t.feed.broadcasts <==> o.Some? && o.value != BroadcastRaises(false))
    decreases |actions|
  {
    if actions != [] {
      var n := |actions| - 1;
      var before, a := Run(s, actions[..n]), actions[n];
      BroadcastUnlessRaised(s, actions[..n], e);
      if Enabled(before, a) && a.Handle? {
        BroadcastStep(before.feed, before.parts[a.p].log[before.parts[a.p].position], a.o, e);
      }
    }
  }

  // ---------------------------------------------------------------- attempts

  // The committed batches in which produce raised for e.
  ghost function Failures(s: State, actions: seq<Action>, e: EventId): nat
    decreases |actions|
  {
    if actions == [] then 0
    else
      var n := |actions| - 1;
      var before, a := Run(s, actions[..n]), actions[n];
      Failures(s, actions[..n], e)
      + (if a.Commit? && Enabled(before, a) && ProduceRaised(before.relays[a.r], e) then 1 else 0)
  }

  predicate ProduceRaised(relay: RelayState, e: EventId) {
    relay.open.Some? && exists i :: 0 <= i < |relay.open.value.outcomes| && i < |relay.open.value.events|
                                    && relay.open.value.events[i] == e && !relay.open.value.outcomes[i]
  }

  lemma CommitCountsFailure(s: State, r: nat, e: EventId)
    requires LocksSound(s) && Enabled(s, Commit(r)) && e in s.rows
    ensures var before, after := s.rows[e], Next(s, Commit(r)).rows[e];
            && after.attempts == before.attempts + (if ProduceRaised(s.relays[r], e) then 1 else 0)
            && (after.status.Failed? <==>
                  before.status.Failed? || (ProduceRaised(s.relays[r], e) && after.attempts == 10))
  {
    var b := s.relays[r].open.value;
    var i := IndexOf(b.events, e);
    assert BatchSound(s.rows, s.relays[r]);
    if i < |b.events| {
      assert b.events[i] == e && s.rows[e].status.Pending?;
      assert AttemptsAgree(s.rows[e]);
    }
  }

  lemma NoFailureBefore(s: State, r: nat, e: EventId)
    requires LocksSound(s) && r < |s.relays| && e !in s.rows
    ensures !ProduceRaised(s.relays[r], e)
  {
    assert BatchSound(s.rows, s.relays[r]);
  }

  /** In every run a row's attempts are the committed batches in which produce raised for it, since it was inserted, and
      it is FAILED exactly when there were ten of them. */
  lemma {:induction false} AttemptsCountFailures(s: State, actions: seq<Action>, e: EventId)
    requires Start(s)
    ensures var t := Run(s, actions);
            if e in t.rows
            then && t.rows[e].attempts == Failures(s, actions, e)
                 && (t.rows[e].status.Failed? <==> t.rows[e].attempts == 10)
            else Failures(s, actions, e) == 0
    decreases |actions|
  {
    StartSound(s);
    RunSound(s, actions);
    if actions != [] {
      var n := |actions| - 1;
      var before, a := Run(s, actions[..n]), actions[n];
      AttemptsCountFailures(s, actions[..n], e);
      RunSound(s, actions[..n]);
      if Enabled(before, a) && a.Commit? {
        if e in before.rows {
          CommitCountsFailure(before, a.r, e);
        } else {
          NoFailureBefore(before, a.r, e);
        }
      }
    }
    if e in Run(s, actions).rows {
      assert AttemptsAgree(Run(s, actions).rows[e]);
    }
  }

  // ---------------------------------------------------------------- duplicate accounting

  function One(b: bool): nat {
    if b then 1 else 0
  }

  predicate Accounted(s: State, e: EventId)
    requires e in s.rows && e in s.ledger
  {
    s.ledger[e].accepted
    == s.ledger[e].abandoned + One(s.rows[e].status.Published?) + One(InProgress(s, e))
  }

  ghost predicate Balanced(s: State) {
    forall e :: e in s.rows ==> e in s.ledger && Accounted(s, e)
  }

  predicate ProducedElsewhere(s: State, r: nat, e: EventId) {
    exists q :: 0 <= q < |s.relays| && q != r && HasProduced(s.relays[q], e)
  }

  lemma InProgressSplit(s: State, r: nat, relay: RelayState, e: EventId)
    requires r < |s.relays|
    ensures InProgress(s.(relays := s.relays[r := relay]), e)
            <==> HasProduced(relay, e) || ProducedElsewhere(s, r, e)
  {
    var t := s.(relays := s.relays[r := relay]);
    if HasProduced(relay, e) {
      assert HasProduced(t.relays[r], e);
    }
    if ProducedElsewhere(s, r, e) {
      var q :| 0 <= q < |s.relays| && q != r && HasProduced(s.relays[q], e);
      assert HasProduced(t.relays[q], e);
    }
  }

  lemma HeldOnlyHere(s: State, r: nat, e: EventId)
    requires LocksSound(s) && r < |s.relays| && Holds(s.relays[r], e)
    ensures !ProducedElsewhere(s, r, e)
  {
    forall q | 0 <= q < |s.relays| && q != r ensures !HasProduced(s.relays[q], e) {
      assert !Holds(s.relays[q], e);
    }
  }

  // How one relay's step moves the "in progress" bit of a row.
  lemma InProgressMoves(s: State, r: nat, relay: RelayState, e: EventId)
    requires LocksSound(s) && r < |s.relays|
    ensures var t := s.(relays := s.relays[r := relay]);
            if Holds(s.relays[r], e)
            then InProgress(s, e) == HasProduced(s.relays[r], e) && InProgress(t, e) == HasProduced(relay, e)
            else HasProduced(relay, e) || InProgress(t, e) == InProgress(s, e)
  {
    assert s.relays[r := s.relays[r]] == s.relays;
    InProgressSplit(s, r, s.relays[r], e);
    InProgressSplit(s, r, relay, e);
    if Holds(s.relays[r], e) {
      HeldOnlyHere(s, r, e);
    }
  }

  lemma BalanceKept(s: State, a: Action)
    requires Sound(s) && Balanced(s)
    ensures Balanced(Next(s, a))
  {
    var t := Next(s, a);
    if Enabled(s, a) {
      forall e | e in t.rows ensures e in t.ledger && Accounted(t, e) {
        match a
        case Insert(em, _) =>
          assert t.relays == s.relays;
          if e == em.payload.eventId { FreshNotInProgress(s, e); }
        case Open(r, _) => InProgressMoves(s, r, t.relays[r], e);
        case Produce(r, _) => ProduceBalances(s, a, e);
        case Commit(r) => CommitBalances(s, r, e);
        case Abort(r) => AbortBalances(s, r, e);
        case Deliver(r, _, _) => InProgressMoves(s, r, t.relays[r], e);
        case Drop(r, _) => InProgressMoves(s, r, t.relays[r], e);
        case Retry(_, _, _) =>
        case Handle(_, _) =>
        case Restart =>
      }
    }
  }

  lemma FreshNotInProgress(s: State, e: EventId)
    requires LocksSound(s) && e !in s.rows
    ensures !InProgress(s, e)
  {}

  lemma ProduceBalances(s: State, a: Action, e: EventId)
    requires Sound(s) && Balanced(s) && Enabled(s, a) && a.Produce? && e in s.rows
    ensures e in Next(s, a).ledger && Accounted(Next(s, a), e)
  {
    var t, r := Next(s, a), a.r;
    InProgressMoves(s, r, t.relays[r], e);
    var b := s.relays[r].open.value;
    var i := IndexOf(b.events, e);
    if e == b.events[|b.outcomes|] {
      assert i == |b.outcomes| && Holds(s.relays[r], e);
      assert s.rows[e].status.Pending?;
    } else if i < |b.events| {
      assert i != |b.outcomes| && Holds(s.relays[r], e);
    }
  }

  lemma CommitBalances(s: State, r: nat, e: EventId)
    requires LocksSound(s) && Balanced(s) && Enabled(s, Commit(r)) && e in s.rows
    ensures Accounted(Next(s, Commit(r)), e)
  {
    var t := Next(s, Commit(r));
    InProgressMoves(s, r, t.relays[r], e);
    assert InProgress(t, e) == InProgress(s.(relays := t.relays), e);
    if Holds(s.relays[r], e) {
      assert s.rows[e].status.Pending?;
    }
  }

  lemma AbortBalances(s: State, r: nat, e: EventId)
    requires LocksSound(s) && Balanced(s) && Enabled(s, Abort(r)) && e in s.rows
    ensures Accounted(Next(s, Abort(r)), e)
  {
    var t := Next(s, Abort(r));
    InProgressMoves(s, r, t.relays[r], e);
    assert InProgress(t, e) == InProgress(s.(relays := t.relays), e);
  }

  /** With any number of concurrent relays: no row is in two open batches, and a row's successful produce
      calls are one if it is PUBLISHED, one if an open batch has produced it, and one for each
      rolled-back batch that had produced it. */
  lemma {:induction false} DuplicateAccounting(s: State, actions: seq<Action>)
    requires Start(s)
    ensures LocksExclusive(Run(s, actions))
    ensures Balanced(Run(s, actions))
    decreases |actions|
  {
    StartSound(s);
    RunSound(s, actions);
    if actions != [] {
      DuplicateAccounting(s, actions[..|actions| - 1]);
      RunSound(s, actions[..|actions| - 1]);
      BalanceKept(Run(s, actions[..|actions| - 1]), actions[|actions| - 1]);
    }
  }

  lemma RunOne(s: State, a: Action, rest: seq<Action>)
    ensures Run(s, [a] + rest) == Run(Next(s, a), rest)
  {
    RunConcat(s, [a], rest);
    assert [a][..0] == [];
    assert Run(s, [a]) == Next(Run(s, []), a);
  }

  // ---------------------------------------------------------------- the relay's batch is a run of this system

  function Produces(r: nat, outcomes: seq<bool>): seq<Action> {
    if outcomes == [] then []
    else Produces(r, outcomes[..|outcomes| - 1]) + [Produce(r, outcomes[|outcomes| - 1])]
  }

  lemma RunSnoc(s: State, actions: seq<Action>, a: Action)
    ensures Run(s, actions + [a]) == Next(Run(s, actions), a)
  {
    assert (actions + [a])[..|actions|] == actions;
  }

  // t is s with relay r in the middle of this batch.
  ghost predicate MidBatch(s: State, t: State, r: nat, batch: seq<EventId>, outcomes: seq<bool>) {
    && |outcomes| <= |batch| && Drawn(batch, s.rows.Keys)
    && t.rows == s.rows && t.ledger.Keys == s.rows.Keys && t.parts == s.parts && t.feed == s.feed
    && r < |t.relays| == |s.relays|
    && t.relays[r] == RelayState(s.relays[r].service, Some(Batch(batch, outcomes)),
                                 s.relays[r].buffer + Accepted(s.rows, batch, outcomes))
  }

  lemma OneMore(s: State, t: State, r: nat, batch: seq<EventId>, outcomes: seq<bool>, accepted: bool)
    requires MidBatch(s, t, r, batch, outcomes) && |outcomes| < |batch|
    ensures MidBatch(s, Next(t, Produce(r, accepted)), r, batch, outcomes + [accepted])
  {
    AcceptedNext(s.rows, batch, outcomes, accepted);
    assert batch[|outcomes|] in t.rows && batch[|outcomes|] in t.ledger.Keys;
  }

  lemma JustOpened(s: State, r: nat, batch: seq<EventId>)
    requires LocksSound(s) && Enabled(s, Open(r, batch))
    ensures MidBatch(s, Next(s, Open(r, batch)), r, batch, [])
  {
    forall i | 0 <= i < |batch| ensures batch[i] in s.rows.Keys {
      assert batch[i] in Free(Own(s.rows, s.relays[r].service), LockedRows(s));
    }
  }

  lemma {:induction false} BatchSoFar(s: State, r: nat, batch: seq<EventId>, outcomes: seq<bool>)
    requires MidBatch(s, Next(s, Open(r, batch)), r, batch, []) && |outcomes| <= |batch|
    ensures MidBatch(s, Run(Next(s, Open(r, batch)), Produces(r, outcomes)), r, batch, outcomes)
    decreases |outcomes|
  {
    if outcomes != [] {
      var n := |outcomes| - 1;
      var s1, front := Next(s, Open(r, batch)), Produces(r, outcomes[..n]);
      BatchSoFar(s, r, batch, outcomes[..n]);
      OneMore(s, Run(s1, front), r, batch, outcomes[..n], outcomes[n]);
      RunSnoc(s1, front, Produce(r, outcomes[n]));
      assert Produces(r, outcomes) == front + [Produce(r, outcomes[n])];
      assert outcomes[..n] + [outcomes[n]] == outcomes;
    }
  }

  /** Opening a batch, producing its rows and committing does to the table and the client buffer what
      Command.ProcessBatch promises for the same outcomes, before its flush delivers anything. */
  lemma BatchIsARun(s: State, r: nat, batch: seq<EventId>, outcomes: seq<bool>)
    requires LocksSound(s) && Enabled(s, Open(r, batch)) && |outcomes| == |batch|
    ensures Drawn(batch, s.rows.Keys)
    ensures var t := Run(s, [Open(r, batch)] + Produces(r, outcomes) + [Commit(r)]);
            && t.rows == ApplyBatch(s.rows, batch, outcomes)
            && |t.relays| == |s.relays| && t.relays[r].open.None?
            && t.relays[r].buffer == s.relays[r].buffer + Accepted(s.rows, batch, outcomes)
            && t.parts == s.parts && t.feed == s.feed
  {
    JustOpened(s, r, batch);
    BatchSoFar(s, r, batch, outcomes);
    RunOne(s, Open(r, batch), Produces(r, outcomes));
    RunSnoc(s, [Open(r, batch)] + Produces(r, outcomes), Commit(r));
  }
}
