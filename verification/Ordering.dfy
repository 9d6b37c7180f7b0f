/** When the audit log repeats each aggregate's events in the order they were committed. */
module Ordering {
  import opened Events
  import opened Collections
  import opened Relay
  import opened AuditConsumer
  import opened Pipeline
  import opened Conservation

  // Events of one topic about one aggregate of one service.
  datatype Lane = Lane(service: Service, topic: Topic, key: Id)

  function LaneOf(m: Message): Lane {
    Lane(m.payload.service, m.topic, m.key)
  }

  function RowLane(rows: Table, e: EventId): Lane
    requires e in rows
  {
    LaneOf(MessageOf(rows[e].emission))
  }

  // f was created before e, in the same lane.
  predicate Earlier(rows: Table, f: EventId, e: EventId) {
    && f in rows && e in rows && RowLane(rows, f) == RowLane(rows, e)
    && rows[f].createdAt < rows[e].createdAt
  }

  predicate SoleRelays(s: State) {
    forall q, r :: 0 <= q < r < |s.relays| ==> s.relays[q].service != s.relays[r].service
  }

  /** The hypotheses of the ordering theorem: created_at grows within a lane, produce never fails, a batch commits with
      its flush drained, the client keeps its order and the partitioner depends on the lane alone, a dying client
      loses the tail of its buffer, and no handler call ends without its row. */
  predicate Orderly(s: State, a: Action, route: Lane -> nat) {
    match a
    case Insert(em, at) =>
      forall e :: e in s.rows && RowLane(s.rows, e) == LaneOf(MessageOf(em)) ==> s.rows[e].createdAt < at
    case Produce(_, accepted) => accepted
    case Commit(r) => r < |s.relays| ==> s.relays[r].buffer == []
    case Deliver(r, i, p) => r < |s.relays| && i < |s.relays[r].buffer| ==>
                               i == 0 && p == route(LaneOf(s.relays[r].buffer[0]))
    case Retry(r, i, p) => r < |s.relays| && i < |s.relays[r].buffer| ==>
                             i == 0 && p == route(LaneOf(s.relays[r].buffer[0]))
    case Drop(r, i) => r < |s.relays| ==> s.relays[r].open.None? && i + 1 == |s.relays[r].buffer|
    case Handle(_, o) => Keeps(o)
    case _ => true
  }

  ghost predicate OrderlyRun(s: State, actions: seq<Action>, route: Lane -> nat)
    decreases |actions|
  {
    actions != [] ==>
      var n := |actions| - 1;
      OrderlyRun(s, actions[..n], route) && Orderly(Run(s, actions[..n]), actions[n], route)
  }

  // ---------------------------------------------------------------- order inside one sequence

  // Every event of the log comes after all earlier events of its lane.
  ghost predicate LogOrdered(rows: Table, log: seq<Message>) {
    forall j, f :: 0 <= j < |log| && Earlier(rows, f, Eid(log[j])) ==> Occurs(log[..j], f)
  }

  // The same for a client buffer, where an earlier event may have reached the broker already.
  ghost predicate BufferOrdered(rows: Table, parts: seq<Part>, q: seq<Message>) {
    forall i, f :: 0 <= i < |q| && Earlier(rows, f, Eid(q[i])) ==> Occurs(q[..i], f) || Logged(parts, f)
  }

  // Every produce call succeeded, and each row of the batch comes after the earlier rows still PENDING.
  ghost predicate BatchOrdered(rows: Table, b: Batch) {
    && (forall i :: 0 <= i < |b.outcomes| ==> b.outcomes[i])
    && (forall k, f :: 0 <= k < |b.events| && Earlier(rows, f, b.events[k]) && rows[f].status.Pending? ==>
          f in b.events[..k])
  }

  ghost predicate AuditOrdered(rows: Table, audit: seq<AuditRow>) {
    forall i, f :: 0 <= i < |audit| && Earlier(rows, f, audit[i].eventId) ==> Stored(audit[..i], f)
  }

  // Old rows keep their lane and time, and no new row is earlier than an old one.
  ghost predicate TimesKept(before: Table, after: Table) {
    && RowsGrow(before, after)
    && forall f, e :: e in before && Earlier(after, f, e) ==> Earlier(before, f, e)
  }

  lemma LogTimesKept(before: Table, after: Table, log: seq<Message>)
    requires TimesKept(before, after) && AllGenuine(before, log) && LogOrdered(before, log)
    ensures LogOrdered(after, log)
  {
    forall j, f | 0 <= j < |log| && Earlier(after, f, Eid(log[j])) ensures Occurs(log[..j], f) {
      assert Genuine(before, log[j]);
    }
  }

  lemma LogSnoc(rows: Table, log: seq<Message>, m: Message)
    requires LogOrdered(rows, log)
    requires forall f :: Earlier(rows, f, Eid(m)) ==> Occurs(log, f)
    ensures LogOrdered(rows, log + [m])
  {
    var longer := log + [m];
    forall j, f | 0 <= j < |longer| && Earlier(rows, f, Eid(longer[j])) ensures Occurs(longer[..j], f) {
      assert longer[..j] == log[..j];
    }
  }

  lemma BufferTimesKept(before: Table, after: Table, parts: seq<Part>, later: seq<Part>, q: seq<Message>)
    requires TimesKept(before, after) && AllGenuine(before, q) && BufferOrdered(before, parts, q)
    requires forall e :: Logged(parts, e) ==> Logged(later, e)
    ensures BufferOrdered(after, later, q)
  {
    forall i, f | 0 <= i < |q| && Earlier(after, f, Eid(q[i])) ensures Occurs(q[..i], f) || Logged(later, f) {
      assert Genuine(before, q[i]);
    }
  }

  lemma BufferSnoc(rows: Table, parts: seq<Part>, q: seq<Message>, m: Message)
    requires BufferOrdered(rows, parts, q)
    requires forall f :: Earlier(rows, f, Eid(m)) ==> Occurs(q, f) || Logged(parts, f)
    ensures BufferOrdered(rows, parts, q + [m])
  {
    var longer := q + [m];
    forall i, f | 0 <= i < |longer| && Earlier(rows, f, Eid(longer[i]))
      ensures Occurs(longer[..i], f) || Logged(parts, f)
    {
      assert longer[..i] == q[..i];
    }
  }

  lemma BufferInit(rows: Table, parts: seq<Part>, q: seq<Message>)
    requires q != [] && BufferOrdered(rows, parts, q)
    ensures BufferOrdered(rows, parts, Without(q, |q| - 1))
  {
    var shorter := Without(q, |q| - 1);
    forall i, f | 0 <= i < |shorter| && Earlier(rows, f, Eid(shorter[i]))
      ensures Occurs(shorter[..i], f) || Logged(parts, f)
    {
      assert shorter[i] == q[i] && shorter[..i] == q[..i];
    }
  }

  lemma BufferTail(rows: Table, parts: seq<Part>, later: seq<Part>, q: seq<Message>)
    requires q != [] && BufferOrdered(rows, parts, q)
    requires Logged(later, Eid(q[0])) && forall e :: Logged(parts, e) ==> Logged(later, e)
    ensures BufferOrdered(rows, later, Without(q, 0))
  {
    var shorter := Without(q, 0);
    forall i, f | 0 <= i < |shorter| && Earlier(rows, f, Eid(shorter[i]))
      ensures Occurs(shorter[..i], f) || Logged(later, f)
    {
      assert shorter[i] == q[i + 1];
      if Occurs(q[..i + 1], f) && Eid(q[0]) != f {
        var k :| 0 <= k < i + 1 && Eid(q[..i + 1][k]) == f;
        assert Eid(shorter[..i][k - 1]) == f;
      }
    }
  }

  lemma BatchTimesKept(before: Table, after: Table, relay: RelayState)
    requires TimesKept(before, after) && BatchSound(before, relay)
    requires relay.open.Some? && BatchOrdered(before, relay.open.value)
    ensures BatchOrdered(after, relay.open.value)
  {
    var b := relay.open.value;
    forall k, f | 0 <= k < |b.events| && Earlier(after, f, b.events[k]) && after[f].status.Pending?
      ensures f in b.events[..k]
    {
      assert Earlier(before, f, b.events[k]);
    }
  }

  lemma AuditTimesKept(before: Table, after: Table, audit: seq<AuditRow>)
    requires TimesKept(before, after) && AuditOrdered(before, audit)
    requires forall i :: 0 <= i < |audit| ==> audit[i].eventId in before
    ensures AuditOrdered(after, audit)
  {
    forall i, f | 0 <= i < |audit| && Earlier(after, f, audit[i].eventId) ensures Stored(audit[..i], f) {
      assert Earlier(before, f, audit[i].eventId);
    }
  }

  lemma AuditSnoc(rows: Table, audit: seq<AuditRow>, row: AuditRow)
    requires AuditOrdered(rows, audit)
    requires forall f :: Earlier(rows, f, row.eventId) ==> Stored(audit, f)
    ensures AuditOrdered(rows, audit + [row])
  {
    var longer := audit + [row];
    forall i, f | 0 <= i < |longer| && Earlier(rows, f, longer[i].eventId) ensures Stored(longer[..i], f) {
      assert longer[..i] == audit[..i];
    }
  }

  // ---------------------------------------------------------------- invariants

  ghost predicate Routed(s: State, route: Lane -> nat) {
    forall p, j :: 0 <= p < |s.parts| && 0 <= j < |s.parts[p].log| ==> route(LaneOf(s.parts[p].log[j])) == p
  }

  ghost predicate LogsOrdered(s: State) {
    forall p :: 0 <= p < |s.parts| ==> LogOrdered(s.rows, s.parts[p].log)
  }

  ghost predicate BuffersOrdered(s: State) {
    forall r :: 0 <= r < |s.relays| ==> BufferOrdered(s.rows, s.parts, s.relays[r].buffer)
  }

  ghost predicate BatchesOrdered(s: State) {
    forall r :: 0 <= r < |s.relays| && s.relays[r].open.Some? ==> BatchOrdered(s.rows, s.relays[r].open.value)
  }

  ghost predicate NoneFailed(s: State) {
    forall e :: e in s.rows ==> !s.rows[e].status.Failed?
  }

  ghost predicate InsertedOrdered(s: State) {
    && Distinct(s.inserted)
    && (forall e :: e in s.inserted <==> e in s.rows)
    && (forall i, j :: 0 <= i < j < |s.inserted| && RowLane(s.rows, s.inserted[i]) == RowLane(s.rows, s.inserted[j]) ==>
          s.rows[s.inserted[i]].createdAt < s.rows[s.inserted[j]].createdAt)
  }

  ghost predicate Ordered(s: State, route: Lane -> nat) {
    && SoleRelays(s) && Routed(s, route) && LogsOrdered(s) && BuffersOrdered(s) && BatchesOrdered(s)
    && NoneFailed(s) && InsertedOrdered(s) && AuditOrdered(s.rows, s.feed.audit)
  }

  // ---------------------------------------------------------------- preservation

  lemma StepKeepsTimes(s: State, a: Action, route: Lane -> nat)
    requires LocksSound(s) && Orderly(s, a, route)
    ensures TimesKept(s.rows, Next(s, a).rows)
  {
    StepGrowsRows(s, a);
  }

  lemma InsertedFramed(s: State, t: State)
    requires InsertedOrdered(s) && t.inserted == s.inserted
    requires RowsGrow(s.rows, t.rows) && t.rows.Keys == s.rows.Keys
    ensures InsertedOrdered(t)
  {
    forall i, j | 0 <= i < j < |t.inserted| && RowLane(t.rows, t.inserted[i]) == RowLane(t.rows, t.inserted[j])
      ensures t.rows[t.inserted[i]].createdAt < t.rows[t.inserted[j]].createdAt
    {
      assert s.inserted[i] in s.rows && s.inserted[j] in s.rows;
    }
  }

  lemma InsertExtends(s: State, em: Emission, at: nat, route: Lane -> nat)
    requires InsertedOrdered(s) && Enabled(s, Insert(em, at)) && Orderly(s, Insert(em, at), route)
    ensures InsertedOrdered(Next(s, Insert(em, at)))
  {
    var t := Next(s, Insert(em, at));
    forall i, j | 0 <= i < j < |t.inserted| && RowLane(t.rows, t.inserted[i]) == RowLane(t.rows, t.inserted[j])
      ensures t.rows[t.inserted[i]].createdAt < t.rows[t.inserted[j]].createdAt
    {
      assert t.inserted[i] == s.inserted[i] && s.inserted[i] in s.rows;
    }
  }

  lemma InsertedKept(s: State, a: Action, route: Lane -> nat)
    requires LocksSound(s) && InsertedOrdered(s) && Orderly(s, a, route)
    ensures InsertedOrdered(Next(s, a))
  {
    StepGrowsRows(s, a);
    if Enabled(s, a) && a.Insert? {
      InsertExtends(s, a.emission, a.createdAt, route);
    } else {
      InsertedFramed(s, Next(s, a));
    }
  }

  lemma NoneFailedKept(s: State, a: Action)
    requires NoneFailed(s) && BatchesOrdered(s) && SoleRelays(s)
    ensures NoneFailed(Next(s, a)) && SoleRelays(Next(s, a))
  {
    if Enabled(s, a) && a.Commit? {
      assert BatchOrdered(s.rows, s.relays[a.r].open.value);
    }
  }

  lemma LoggedHere(s: State, route: Lane -> nat, f: EventId)
    requires Provenance(s) && Routed(s, route) && Logged(s.parts, f) && f in s.rows
    ensures var p := route(RowLane(s.rows, f)); p < |s.parts| && Occurs(s.parts[p].log, f)
  {
    var q :| 0 <= q < |s.parts| && Occurs(s.parts[q].log, f);
    var j :| 0 <= j < |s.parts[q].log| && Eid(s.parts[q].log[j]) == f;
    assert Genuine(s.rows, s.parts[q].log[j]);
  }

  // What is earlier than the head of a buffer is in the head's partition already.
  lemma HeadIsNext(s: State, route: Lane -> nat, r: nat)
    requires Provenance(s) && Routed(s, route) && r < |s.relays| && s.relays[r].buffer != []
    requires BufferOrdered(s.rows, s.parts, s.relays[r].buffer)
    requires route(LaneOf(s.relays[r].buffer[0])) < |s.parts|
    ensures var m := s.relays[r].buffer[0];
            forall f :: Earlier(s.rows, f, Eid(m)) ==> Occurs(s.parts[route(LaneOf(m))].log, f)
  {
    var m := s.relays[r].buffer[0];
    assert Genuine(s.rows, m);
    forall f | Earlier(s.rows, f, Eid(m)) ensures Occurs(s.parts[route(LaneOf(m))].log, f) {
      assert s.relays[r].buffer[..0] == [];
      assert Logged(s.parts, f);
      LoggedHere(s, route, f);
    }
  }

  lemma LogsKept(s: State, a: Action, route: Lane -> nat)
    requires Provenance(s) && LocksSound(s) && Orderly(s, a, route)
    requires Routed(s, route) && LogsOrdered(s) && BuffersOrdered(s)
    ensures LogsOrdered(Next(s, a))
  {
    var t := Next(s, a);
    StepKeepsTimes(s, a, route);
    forall p | 0 <= p < |t.parts| ensures LogOrdered(t.rows, t.parts[p].log) {
      LogTimesKept(s.rows, t.rows, s.parts[p].log);
      if Enabled(s, a) && (a.Deliver? || a.Retry?) && p == a.p {
        HeadIsNext(s, route, a.r);
        LogSnoc(s.rows, s.parts[p].log, s.relays[a.r].buffer[0]);
      }
    }
  }

  lemma RoutedKept(s: State, a: Action, route: Lane -> nat)
    requires Routed(s, route) && Orderly(s, a, route)
    ensures Routed(Next(s, a), route)
  {}

  // Everything earlier than the row a relay is about to produce is buffered or logged already.
  lemma ProducedInOrder(s: State, r: nat, f: EventId)
    requires ProducedAreSafe(s) && PublishedAreLogged(s) && NoneFailed(s)
    requires r < |s.relays| && s.relays[r].open.Some? && BatchSound(s.rows, s.relays[r])
    requires BatchOrdered(s.rows, s.relays[r].open.value)
    requires var b := s.relays[r].open.value; |b.outcomes| < |b.events| && Earlier(s.rows, f, b.events[|b.outcomes|])
    ensures Occurs(s.relays[r].buffer, f) || Logged(s.parts, f)
  {
    var b := s.relays[r].open.value;
    if s.rows[f].status.Pending? {
      var k :| 0 <= k < |b.outcomes| && b.events[k] == f;
      assert IndexOf(b.events, f) == k;
      assert HasProduced(s.relays[r], f);
    }
  }

  lemma BuffersKept(s: State, a: Action, route: Lane -> nat)
    requires Provenance(s) && LocksSound(s) && Safe(s) && Orderly(s, a, route)
    requires BuffersOrdered(s) && BatchesOrdered(s) && NoneFailed(s)
    ensures BuffersOrdered(Next(s, a))
  {
    var t := Next(s, a);
    StepKeepsTimes(s, a, route);
    LogsGrow(s, a);
    forall r | 0 <= r < |t.relays| ensures BufferOrdered(t.rows, t.parts, t.relays[r].buffer) {
      var q := s.relays[r].buffer;
      BufferTimesKept(s.rows, t.rows, s.parts, t.parts, q);
      if Enabled(s, a) && (a.Produce? || a.Deliver? || a.Drop?) && a.r == r {
        OneBufferKept(s, a, route);
      }
    }
  }

  lemma OneBufferKept(s: State, a: Action, route: Lane -> nat)
    requires Keyed(s.rows) && LocksSound(s) && Safe(s) && Orderly(s, a, route)
    requires Enabled(s, a) && (a.Produce? || a.Deliver? || a.Drop?)
    requires BufferOrdered(s.rows, s.parts, s.relays[a.r].buffer) && BatchesOrdered(s) && NoneFailed(s)
    ensures BufferOrdered(s.rows, Next(s, a).parts, Next(s, a).relays[a.r].buffer)
  {
    var q := s.relays[a.r].buffer;
    match a
    case Produce(r, _) => ProducedBuffer(s, r);
    case Deliver(_, _, _) =>
      LogsGrow(s, a);
      DeliveredIsLogged(s, a);
      BufferTail(s.rows, s.parts, Next(s, a).parts, q);
    case Drop(_, _) => BufferInit(s.rows, s.parts, q);
  }

  lemma ProducedBuffer(s: State, r: nat)
    requires Keyed(s.rows) && LocksSound(s) && Safe(s) && Enabled(s, Produce(r, true))
    requires BufferOrdered(s.rows, s.parts, s.relays[r].buffer) && BatchesOrdered(s) && NoneFailed(s)
    ensures BufferOrdered(s.rows, s.parts, Next(s, Produce(r, true)).relays[r].buffer)
  {
    var b := s.relays[r].open.value;
    var e := b.events[|b.outcomes|];
    assert BatchSound(s.rows, s.relays[r]);
    forall f | Earlier(s.rows, f, e) ensures Occurs(s.relays[r].buffer, f) || Logged(s.parts, f) {
      ProducedInOrder(s, r, f);
    }
    BufferSnoc(s.rows, s.parts, s.relays[r].buffer, MessageOf(s.rows[e].emission));
  }

  lemma BatchesKept(s: State, a: Action, route: Lane -> nat)
    requires LocksSound(s) && SoleRelays(s) && InsertedOrdered(s) && BatchesOrdered(s) && Orderly(s, a, route)
    ensures BatchesOrdered(Next(s, a))
  {
    var t := Next(s, a);
    StepKeepsTimes(s, a, route);
    forall r | 0 <= r < |t.relays| && t.relays[r].open.Some? ensures BatchOrdered(t.rows, t.relays[r].open.value) {
      if Enabled(s, a) && a.Open? && a.r == r {
        OpenedInOrder(s, r, a.batch);
      } else {
        BatchTimesKept(s.rows, t.rows, s.relays[r]);
      }
    }
  }

  lemma OpenedInOrder(s: State, r: nat, batch: seq<EventId>)
    requires LocksSound(s) && SoleRelays(s) && InsertedOrdered(s) && Enabled(s, Open(r, batch))
    ensures BatchOrdered(s.rows, Batch(batch, []))
  {
    var own := Own(s.rows, s.relays[r].service);
    var free := Free(own, LockedRows(s));
    forall k, f | 0 <= k < |batch| && Earlier(s.rows, f, batch[k]) && s.rows[f].status.Pending?
      ensures f in batch[..k]
    {
      assert batch[k] in free;
      EarlierIsFree(s, r, batch[k], f);
      OlderComesFirst(own, free, BATCH_SIZE, batch, k, f);
    }
  }

  // Nobody else serves this outbox, so an earlier PENDING event of the lane is free when a later one is.
  lemma EarlierIsFree(s: State, r: nat, e: EventId, f: EventId)
    requires LocksSound(s) && SoleRelays(s) && r < |s.relays| && s.relays[r].open.None?
    requires e in Own(s.rows, s.relays[r].service) && Earlier(s.rows, f, e) && s.rows[f].status.Pending?
    ensures f in Free(Own(s.rows, s.relays[r].service), LockedRows(s))
  {
    forall q | 0 <= q < |s.relays| ensures !Holds(s.relays[q], f) {
      assert BatchSound(s.rows, s.relays[q]);
    }
  }

  lemma OlderComesFirst(rows: Table, free: set<EventId>, n: nat, batch: seq<EventId>, k: nat, f: EventId)
    requires OldestOf(rows, free, n, batch) && k < |batch| && f in free && batch[k] in free
    requires rows[f].createdAt < rows[batch[k]].createdAt
    ensures f in batch[..k]
  {
    assert f in batch;
    var i :| 0 <= i < |batch| && batch[i] == f;
    assert i < k;
    assert batch[..k][i] == f;
  }

  lemma AuditOrderKept(s: State, a: Action, route: Lane -> nat)
    requires LocksSound(s) && AuditGenuine(s) && OffsetsOrdered(s) && HandledAreStored(s)
    requires LogsOrdered(s) && AuditOrdered(s.rows, s.feed.audit) && Orderly(s, a, route)
    ensures AuditOrdered(Next(s, a).rows, Next(s, a).feed.audit)
  {
    var t := Next(s, a);
    StepKeepsTimes(s, a, route);
    AuditTimesKept(s.rows, t.rows, s.feed.audit);
    if Enabled(s, a) && a.Handle? {
      var part := s.parts[a.p];
      var m := part.log[part.position];
      forall f | Earlier(s.rows, f, Eid(m)) ensures Stored(s.feed.audit, f) {
        assert Occurs(part.log[..part.position], f);
        var j :| 0 <= j < part.position && Eid(part.log[..part.position][j]) == f;
        assert Stored(s.feed.audit, Eid(part.log[j]));
      }
      AuditSnoc(s.rows, s.feed.audit, AuditRowOf(m));
    }
  }

  lemma {:induction false} OrderlyRunOrdered(s: State, actions: seq<Action>, route: Lane -> nat)
    requires Start(s) && SoleRelays(s) && OrderlyRun(s, actions, route)
    ensures CleanRun(s, actions)
    ensures Sound(Run(s, actions)) && Safe(Run(s, actions)) && Ordered(Run(s, actions), route)
    decreases |actions|
  {
    if actions == [] {
      StartSound(s);
    } else {
      var front, last := actions[..|actions| - 1], actions[|actions| - 1];
      OrderlyRunOrdered(s, front, route);
      OrderKept(Run(s, front), last, route);
      CleanRunSafe(s, actions);
    }
  }

  lemma OrderKept(s: State, a: Action, route: Lane -> nat)
    requires Sound(s) && Safe(s) && Ordered(s, route) && Orderly(s, a, route)
    ensures Ordered(Next(s, a), route)
  {
    InsertedKept(s, a, route);
    NoneFailedKept(s, a);
    RoutedKept(s, a, route);
    LogsKept(s, a, route);
    BuffersKept(s, a, route);
    BatchesKept(s, a, route);
    AuditOrderKept(s, a, route);
  }

  // ---------------------------------------------------------------- the theorem

  function LaneRows(rows: Table, lane: Lane): set<EventId> {
    set e | e in rows && RowLane(rows, e) == lane
  }

  // The committed events of a lane, in commit order.
  function Committed(s: State, lane: Lane): seq<EventId> {
    Filter(s.inserted, LaneRows(s.rows, lane))
  }

  // The audited events of a lane, in audit order.
  function Audited(s: State, lane: Lane): seq<EventId> {
    Filter(AuditedIds(s.feed.audit), LaneRows(s.rows, lane))
  }

  lemma {:induction false} FilteredTimes(s: State, ids: seq<EventId>, keep: set<EventId>, c: seq<EventId>, lane: Lane)
    requires InsertedOrdered(s) && ids <= s.inserted
    requires keep == LaneRows(s.rows, lane) && c == Filter(ids, keep)
    ensures forall i :: 0 <= i < |c| ==> c[i] in keep && c[i] in ids
    ensures forall i, j :: 0 <= i < j < |c| ==> s.rows[c[i]].createdAt < s.rows[c[j]].createdAt
  {
    if ids != [] {
      var front, last := ids[..|ids| - 1], ids[|ids| - 1];
      var d := Filter(front, keep);
      FilteredTimes(s, front, keep, d, lane);
      if last in keep {
        forall i | 0 <= i < |d| ensures s.rows[d[i]].createdAt < s.rows[last].createdAt {
          var k :| 0 <= k < |front| && front[k] == d[i];
          assert s.inserted[k] == d[i] && s.inserted[|front|] == last;
        }
      }
    }
  }

  // The next audited event of a lane is the first committed one not audited yet.
  lemma NextInLane(s: State, lane: Lane, n: nat)
    requires Sound(s) && InsertedOrdered(s) && AuditOrdered(s.rows, s.feed.audit) && n < |s.feed.audit|
    requires var done := Filter(AuditedIds(s.feed.audit)[..n], LaneRows(s.rows, lane)); done <= Committed(s, lane)
    requires s.feed.audit[n].eventId in LaneRows(s.rows, lane)
    ensures Filter(AuditedIds(s.feed.audit)[..n], LaneRows(s.rows, lane)) + [s.feed.audit[n].eventId]
            <= Committed(s, lane)
  {
    var keep, before, committed := LaneRows(s.rows, lane), AuditedIds(s.feed.audit)[..n], Committed(s, lane);
    var e, done := s.feed.audit[n].eventId, Filter(before, keep);
    FilterElements(before, keep);
    FilterElements(s.inserted, keep);
    FilteredTimes(s, s.inserted, keep, committed, lane);
    forall f | f in committed && s.rows[f].createdAt < s.rows[e].createdAt ensures f in done {
      NotYetDone(s, lane, n, f);
    }
    assert e in committed && e !in done;
    NextMember(s.rows, committed, done, e);
  }

  ghost predicate Increasing(rows: Table, c: seq<EventId>) {
    && Drawn(c, rows.Keys)
    && forall i, j :: 0 <= i < j < |c| ==> rows[c[i]].createdAt < rows[c[j]].createdAt
  }

  lemma NextMember(rows: Table, c: seq<EventId>, done: seq<EventId>, e: EventId)
    requires Increasing(rows, c) && done <= c && e in c && e !in done
    requires forall f :: f in c && rows[f].createdAt < rows[e].createdAt ==> f in done
    ensures done + [e] <= c
  {
    var h :| 0 <= h < |c| && c[h] == e;
    forall k | 0 <= k < |done| ensures c[k] != e {
      assert done[k] == c[k] && done[k] in done;
    }
    if h > 0 {
      assert c[h - 1] in done;
      var k :| 0 <= k < |done| && done[k] == c[h - 1];
      assert c[k] == c[h - 1];
      assert k == h - 1;
    }
    assert h == |done|;
  }

  lemma FullPrefix(rows: Table, c: seq<EventId>, done: seq<EventId>)
    requires Increasing(rows, c) && done <= c
    requires forall k :: 0 <= k < |c| ==> c[k] in done
    ensures done == c
  {
    if c != [] {
      assert c[|c| - 1] in done;
      var k :| 0 <= k < |done| && done[k] == c[|c| - 1];
      assert c[k] == c[|c| - 1];
    }
  }

  lemma NotYetDone(s: State, lane: Lane, n: nat, f: EventId)
    requires AuditOrdered(s.rows, s.feed.audit) && n < |s.feed.audit| && f in LaneRows(s.rows, lane)
    requires Earlier(s.rows, f, s.feed.audit[n].eventId)
    ensures f in Filter(AuditedIds(s.feed.audit)[..n], LaneRows(s.rows, lane))
  {
    var before := AuditedIds(s.feed.audit)[..n];
    assert Stored(s.feed.audit[..n], f);
    var i :| 0 <= i < n && s.feed.audit[..n][i].eventId == f;
    assert before[i] == f;
    FilterElements(before, LaneRows(s.rows, lane));
  }

  lemma {:induction false} AuditedPrefix(s: State, lane: Lane, n: nat)
    requires Sound(s) && InsertedOrdered(s) && AuditOrdered(s.rows, s.feed.audit) && n <= |s.feed.audit|
    ensures Filter(AuditedIds(s.feed.audit)[..n], LaneRows(s.rows, lane)) <= Committed(s, lane)
  {
    var keep, ids := LaneRows(s.rows, lane), AuditedIds(s.feed.audit);
    if n == 0 {
      assert ids[..n] == [];
    } else {
      AuditedPrefix(s, lane, n - 1);
      assert ids[..n] == ids[..n - 1] + [ids[n - 1]];
      FilterSnoc(ids[..n - 1], ids[n - 1], keep);
      if ids[n - 1] in keep {
        NextInLane(s, lane, n - 1);
      }
    }
  }

  lemma AllAudited(s: State, lane: Lane)
    requires InsertedOrdered(s) && Audited(s, lane) <= Committed(s, lane)
    requires forall e :: e in s.rows ==> Stored(s.feed.audit, e)
    ensures Audited(s, lane) == Committed(s, lane)
  {
    var keep, ids := LaneRows(s.rows, lane), AuditedIds(s.feed.audit);
    var audited, committed := Audited(s, lane), Committed(s, lane);
    FilterElements(ids, keep);
    FilteredTimes(s, s.inserted, keep, committed, lane);
    forall k | 0 <= k < |committed| ensures committed[k] in audited {
      assert Stored(s.feed.audit, committed[k]);
      var i :| 0 <= i < |s.feed.audit| && s.feed.audit[i].eventId == committed[k];
      assert ids[i] == committed[k];
    }
    FullPrefix(s.rows, committed, audited);
  }

  /** One relay for each outbox, no produce failures: the audited events of an aggregate, read in audit order, are a
      prefix of its committed events in commit order; and all of them once the run has drained. */
  lemma AuditFollowsCommitOrder(s: State, actions: seq<Action>, route: Lane -> nat, lane: Lane)
    requires Start(s) && SoleRelays(s) && OrderlyRun(s, actions, route)
    ensures var t := Run(s, actions);
            && Audited(t, lane) <= Committed(t, lane)
            && (Drained(t) ==> Audited(t, lane) == Committed(t, lane))
  {
    OrderlyRunOrdered(s, actions, route);
    var t := Run(s, actions);
    var ids := AuditedIds(t.feed.audit);
    AuditedPrefix(t, lane, |ids|);
    assert ids[..|ids|] == ids;
    if Drained(t) {
      DrainedMeansAuditedExactlyOnce(s, actions);
      AllAudited(t, lane);
    }
  }

  // ---------------------------------------------------------------- why one relay

  /** With two relays on one outbox the order is lost, even though every step keeps the other hypotheses: the second
      relay picks up and delivers a later event while the first still holds the earlier one. */
  lemma TwoRelaysReorder(s: State, q: nat, r: nat, em1: Emission, em2: Emission, at: nat, route: Lane -> nat)
    requires Start(s) && q < |s.relays| && r < |s.relays| && q != r && |s.parts| > 0
    requires em1.payload.eventId != em2.payload.eventId && LaneOf(MessageOf(em1)) == LaneOf(MessageOf(em2))
    requires s.relays[q].service == s.relays[r].service == em1.payload.service
    requires route(LaneOf(MessageOf(em1))) == 0
    ensures var run, lane := ReorderingRun(q, r, em1, em2, at), LaneOf(MessageOf(em1));
            && OrderlyRun(s, run, route)
            && Committed(Run(s, run), lane) == [em1.payload.eventId, em2.payload.eventId]
            && Audited(Run(s, run), lane) == [em2.payload.eventId, em1.payload.eventId]
  {
    ReorderedAudit(s, q, r, em1, em2, at, route);
    BothInLane(Run(s, ReorderingRun(q, r, em1, em2, at)).rows, em1, em2);
  }

  lemma ReorderedAudit(s: State, q: nat, r: nat, em1: Emission, em2: Emission, at: nat, route: Lane -> nat)
    requires Start(s) && q < |s.relays| && r < |s.relays| && q != r && |s.parts| > 0
    requires em1.payload.eventId != em2.payload.eventId && LaneOf(MessageOf(em1)) == LaneOf(MessageOf(em2))
    requires s.relays[q].service == s.relays[r].service == em1.payload.service
    requires route(LaneOf(MessageOf(em1))) == 0
    ensures var run, e1, e2 := ReorderingRun(q, r, em1, em2, at), em1.payload.eventId, em2.payload.eventId;
            var t := Run(s, run);
            && OrderlyRun(s, run, route)
            && t.inserted == [e1, e2] && AuditedIds(t.feed.audit) == [e2, e1]
            && e1 in t.rows && t.rows[e1].emission == em1 && e2 in t.rows && t.rows[e2].emission == em2
  {
    var run4 := TwoOpenBatches(s, q, r, em1, em2, at, route);
    var run8 := DeliveredOutOfOrder(s, q, r, run4, em1, em2, at, route);
    HandleTwo(s, run8, em2, em1, route);
    ReorderingParts(q, r, em1, em2, at);
  }

  lemma ReorderingParts(q: nat, r: nat, em1: Emission, em2: Emission, at: nat)
    ensures var e1, e2 := em1.payload.eventId, em2.payload.eventId;
            ReorderingRun(q, r, em1, em2, at)
            == [Insert(em1, at), Open(q, [e1]), Insert(em2, at + 1), Open(r, [e2])]
               + [Produce(r, true)] + [Produce(q, true)] + [Deliver(r, 0, 0)] + [Deliver(q, 0, 0)]
               + [Handle(0, Completes)] + [Handle(0, Completes)]
  {}

  lemma BothInLane(rows: Table, em1: Emission, em2: Emission)
    requires em1.payload.eventId in rows && rows[em1.payload.eventId].emission == em1
    requires em2.payload.eventId in rows && rows[em2.payload.eventId].emission == em2
    requires LaneOf(MessageOf(em1)) == LaneOf(MessageOf(em2))
    ensures var keep, e1, e2 := LaneRows(rows, LaneOf(MessageOf(em1))), em1.payload.eventId, em2.payload.eventId;
            e1 in keep && e2 in keep && Filter([e1, e2], keep) == [e1, e2] && Filter([e2, e1], keep) == [e2, e1]
  {
    var keep := LaneRows(rows, LaneOf(MessageOf(em1)));
    FilterPair(em1.payload.eventId, em2.payload.eventId, keep);
    FilterPair(em2.payload.eventId, em1.payload.eventId, keep);
  }

  function ReorderingRun(q: nat, r: nat, em1: Emission, em2: Emission, at: nat): seq<Action> {
    var e1, e2 := em1.payload.eventId, em2.payload.eventId;
    [Insert(em1, at), Open(q, [e1]), Insert(em2, at + 1), Open(r, [e2]),
     Produce(r, true), Produce(q, true), Deliver(r, 0, 0), Deliver(q, 0, 0),
     Handle(0, Completes), Handle(0, Completes)]
  }

  lemma FilterPair<T>(x: T, y: T, keep: set<T>)
    requires x in keep && y in keep
    ensures Filter([x, y], keep) == [x, y]
  {
    FilterSnoc([], x, keep);
    FilterSnoc([x], y, keep);
    assert [] + [x] == [x] && [x] + [y] == [x, y];
  }

  // No orderly run, whatever the partitioner, audits an aggregate's events out of their commit order.
  ghost predicate AlwaysInOrder(s: State) {
    forall actions: seq<Action>, route: Lane -> nat, lane: Lane :: OrderlyRun(s, actions, route) ==>
      Audited(Run(s, actions), lane) <= Committed(Run(s, actions), lane)
  }

  /** The audit log follows the commit order in every orderly run if and only if no outbox has two relays. */
  lemma InOrderIffSoleRelays(s: State)
    requires Start(s) && |s.parts| > 0
    ensures AlwaysInOrder(s) <==> SoleRelays(s)
  {
    if SoleRelays(s) {
      forall actions: seq<Action>, route: Lane -> nat, lane: Lane | OrderlyRun(s, actions, route)
        ensures Audited(Run(s, actions), lane) <= Committed(Run(s, actions), lane)
      {
        AuditFollowsCommitOrder(s, actions, route, lane);
      }
    } else {
      var q, r :| 0 <= q < r < |s.relays| && s.relays[q].service == s.relays[r].service;
      var route: Lane -> nat := (lane: Lane) => 0;
      var em1, em2 := Sample(1, s.relays[q].service), Sample(2, s.relays[q].service);
      TwoRelaysReorder(s, q, r, em1, em2, 0, route);
      var t := Run(s, ReorderingRun(q, r, em1, em2, 0));
      assert Audited(t, LaneOf(MessageOf(em1)))[0] != Committed(t, LaneOf(MessageOf(em1)))[0];
    }
  }

  // Some event of a service; all samples of a service share a lane.
  function Sample(e: EventId, service: Service): Emission {
    Emission(PolicyCreated, 0, Some(0),
             Payload(e, PolicyCreated, service,
                     EventData(None, None, None, None, None, None, None, None, map[])))
  }

  lemma HandleTwo(s: State, run: seq<Action>, em1: Emission, em2: Emission, route: Lane -> nat)
    requires OrderlyRun(s, run, route) && em1.payload.eventId != em2.payload.eventId
    requires |Run(s, run).parts| > 0 && Run(s, run).parts[0] == Part([MessageOf(em1), MessageOf(em2)], 0, 0)
    requires Run(s, run).feed == Feed([], [])
    ensures var longer := run + [Handle(0, Completes)] + [Handle(0, Completes)];
            && OrderlyRun(s, longer, route)
            && Run(s, longer).inserted == Run(s, run).inserted && Run(s, longer).rows == Run(s, run).rows
            && AuditedIds(Run(s, longer).feed.audit) == [em1.payload.eventId, em2.payload.eventId]
  {
    HandlePair(Run(s, run), em1, em2);
    var s1 := Extend(s, run, Handle(0, Completes), route);
    var s2 := Extend(s, run + [Handle(0, Completes)], Handle(0, Completes), route);
  }

  // The consumer handles the two messages of a partition, on an empty feed.
  lemma HandlePair(s: State, em1: Emission, em2: Emission)
    requires em1.payload.eventId != em2.payload.eventId && s.feed == Feed([], [])
    requires |s.parts| > 0 && s.parts[0] == Part([MessageOf(em1), MessageOf(em2)], 0, 0)
    ensures var t := Next(Next(s, Handle(0, Completes)), Handle(0, Completes));
            && t.inserted == s.inserted && t.rows == s.rows
            && AuditedIds(t.feed.audit) == [em1.payload.eventId, em2.payload.eventId]
  {
    var s1 := Next(s, Handle(0, Completes));
    assert s1.feed.audit == [AuditRowOf(MessageOf(em1))];
    assert !Stored(s1.feed.audit, em2.payload.eventId);
    var s2 := Next(s1, Handle(0, Completes));
    assert s2.feed.audit == [AuditRowOf(MessageOf(em1)), AuditRowOf(MessageOf(em2))];
  }

  lemma TwoOpenBatches(s: State, q: nat, r: nat, em1: Emission, em2: Emission, at: nat, route: Lane -> nat)
    returns (run: seq<Action>)
    requires Start(s) && q < |s.relays| && r < |s.relays| && q != r
    requires em1.payload.eventId != em2.payload.eventId && LaneOf(MessageOf(em1)) == LaneOf(MessageOf(em2))
    requires s.relays[q].service == s.relays[r].service == em1.payload.service
    ensures run == [Insert(em1, at), Open(q, [em1.payload.eventId]),
                    Insert(em2, at + 1), Open(r, [em2.payload.eventId])]
    ensures OrderlyRun(s, run, route)
    ensures Run(s, run) == BothOpen(s, q, r, em1, em2, at)
  {
    var e1, e2 := em1.payload.eventId, em2.payload.eventId;
    var none: seq<Action> := [];
    var s1 := Extend(s, none, Insert(em1, at), route);
    SoleRowIsBatch(s1, q, e1);
    run := none + [Insert(em1, at)];
    var s2 := Extend(s, run, Open(q, [e1]), route);
    run := run + [Open(q, [e1])];
    var s3 := Extend(s, run, Insert(em2, at + 1), route);
    run := run + [Insert(em2, at + 1)];
    assert s3.relays[q] == s.relays[q].(open := Some(Batch([e1], [])));
    OnlyOtherRowFree(s3, q, r, e1, e2);
    var s4 := Extend(s, run, Open(r, [e2]), route);
    run := run + [Open(r, [e2])];
  }

  lemma OnlyOtherRowFree(s: State, q: nat, r: nat, e1: EventId, e2: EventId)
    requires q < |s.relays| && r < |s.relays| && s.rows.Keys == {e1, e2} && e1 != e2
    requires s.relays[q].open == Some(Batch([e1], []))
    requires forall k :: 0 <= k < |s.relays| && k != q ==> s.relays[k].open.None?
    requires s.rows[e2].status.Pending? && s.rows[e2].emission.payload.service == s.relays[r].service
    ensures IsBatch(Own(s.rows, s.relays[r].service), LockedRows(s), [e2])
  {
    assert Holds(s.relays[q], e1) && Locked(s, e1);
    assert !Locked(s, e2);
    assert e2 in Free(Own(s.rows, s.relays[r].service), LockedRows(s));
  }

  // Each relay holds one of the two rows.
  function BothOpen(s: State, q: nat, r: nat, em1: Emission, em2: Emission, at: nat): State
    requires q < |s.relays| && r < |s.relays|
  {
    var e1, e2 := em1.payload.eventId, em2.payload.eventId;
    s.(rows := s.rows[e1 := Row(em1, at, Pending, 0)][e2 := Row(em2, at + 1, Pending, 0)],
       inserted := s.inserted + [e1] + [e2],
       ledger := s.ledger[e1 := Ledger(0, 0)][e2 := Ledger(0, 0)],
       relays := s.relays[q := s.relays[q].(open := Some(Batch([e1], [])))]
                         [r := s.relays[r].(open := Some(Batch([e2], [])))])
  }

  lemma DeliveredOutOfOrder(s: State, q: nat, r: nat, run4: seq<Action>, em1: Emission, em2: Emission, at: nat,
                            route: Lane -> nat)
    returns (run: seq<Action>)
    requires Start(s) && q < |s.relays| && r < |s.relays| && q != r && |s.parts| > 0
    requires em1.payload.eventId != em2.payload.eventId && LaneOf(MessageOf(em1)) == LaneOf(MessageOf(em2))
    requires route(LaneOf(MessageOf(em1))) == 0
    requires OrderlyRun(s, run4, route)
    requires Run(s, run4) == BothOpen(s, q, r, em1, em2, at)
    ensures run == run4 + [Produce(r, true)] + [Produce(q, true)] + [Deliver(r, 0, 0)] + [Deliver(q, 0, 0)]
    ensures OrderlyRun(s, run, route)
    ensures Run(s, run).inserted == [em1.payload.eventId, em2.payload.eventId]
    ensures Run(s, run).rows == BothOpen(s, q, r, em1, em2, at).rows
    ensures Run(s, run).feed == s.feed && |Run(s, run).parts| > 0
    ensures Run(s, run).parts[0] == Part([MessageOf(em2), MessageOf(em1)], 0, 0)
  {
    BothProduced(s, q, r, run4, em1, em2, at, route);
    BothDelivered(s, q, r, run4 + [Produce(r, true)] + [Produce(q, true)], em1, em2, route);
    run := run4 + [Produce(r, true)] + [Produce(q, true)] + [Deliver(r, 0, 0)] + [Deliver(q, 0, 0)];
  }

  lemma BothProduced(s: State, q: nat, r: nat, run: seq<Action>, em1: Emission, em2: Emission, at: nat,
                     route: Lane -> nat)
    requires OrderlyRun(s, run, route) && q < |s.relays| && r < |s.relays| && q != r
    requires em1.payload.eventId != em2.payload.eventId
    requires s.relays[q].buffer == [] && s.relays[r].buffer == []
    requires Run(s, run) == BothOpen(s, q, r, em1, em2, at)
    ensures var longer := run + [Produce(r, true)] + [Produce(q, true)];
            var t := Run(s, longer);
            && OrderlyRun(s, longer, route)
            && t.inserted == Run(s, run).inserted && t.rows == Run(s, run).rows
            && t.feed == s.feed && t.parts == s.parts
            && |t.relays| == |s.relays|
            && t.relays[r].buffer == [MessageOf(em2)] && t.relays[q].buffer == [MessageOf(em1)]
  {
    var s5 := ProduceSole(s, run, r, em2, route);
    var s6 := ProduceSole(s, run + [Produce(r, true)], q, em1, route);
  }

  lemma BothDelivered(s: State, q: nat, r: nat, run: seq<Action>, em1: Emission, em2: Emission, route: Lane -> nat)
    requires OrderlyRun(s, run, route) && q != r
    requires route(LaneOf(MessageOf(em1))) == 0 && route(LaneOf(MessageOf(em2))) == 0
    requires var now := Run(s, run);
             && q < |now.relays| && r < |now.relays| && |now.parts| > 0 && now.parts[0] == Part([], 0, 0)
             && now.relays[r].buffer == [MessageOf(em2)] && now.relays[q].buffer == [MessageOf(em1)]
    ensures var longer := run + [Deliver(r, 0, 0)] + [Deliver(q, 0, 0)];
            var t := Run(s, longer);
            && OrderlyRun(s, longer, route)
            && t.inserted == Run(s, run).inserted && t.rows == Run(s, run).rows && t.feed == Run(s, run).feed
            && |t.parts| > 0 && t.parts[0] == Part([MessageOf(em2), MessageOf(em1)], 0, 0)
  {
    var s7 := DeliverSole(s, run, r, em2, route);
    var s8 := DeliverSole(s, run + [Deliver(r, 0, 0)], q, em1, route);
  }

  lemma ProduceSole(s: State, run: seq<Action>, r: nat, em: Emission, route: Lane -> nat) returns (t: State)
    requires OrderlyRun(s, run, route)
    requires var now, e := Run(s, run), em.payload.eventId;
             && r < |now.relays| && now.relays[r].open == Some(Batch([e], [])) && now.relays[r].buffer == []
             && e in now.rows && e in now.ledger && now.rows[e].emission == em
    ensures t == Run(s, run + [Produce(r, true)]) && OrderlyRun(s, run + [Produce(r, true)], route)
    ensures var now, e := Run(s, run), em.payload.eventId;
            t == now.(relays := now.relays[r := now.relays[r].(open := Some(Batch([e], [true])),
                                                               buffer := [MessageOf(em)])],
                      ledger := now.ledger[e := now.ledger[e].(accepted := now.ledger[e].accepted + 1)])
  {
    t := Extend(s, run, Produce(r, true), route);
    var now := Run(s, run);
    assert t.relays[r].open.value.outcomes == [true];
    assert t.relays[r].buffer == [MessageOf(em)];
    assert t.relays[r] == now.relays[r].(open := t.relays[r].open, buffer := t.relays[r].buffer);
  }

  lemma DeliverSole(s: State, run: seq<Action>, r: nat, em: Emission, route: Lane -> nat) returns (t: State)
    requires OrderlyRun(s, run, route) && route(LaneOf(MessageOf(em))) == 0
    requires var now := Run(s, run);
             && r < |now.relays| && now.relays[r].buffer == [MessageOf(em)] && |now.parts| > 0
    ensures t == Run(s, run + [Deliver(r, 0, 0)]) && OrderlyRun(s, run + [Deliver(r, 0, 0)], route)
    ensures var now := Run(s, run);
            t == now.(relays := now.relays[r := now.relays[r].(buffer := [])],
                      parts := now.parts[0 := Append(now.parts[0], MessageOf(em))])
  {
    t := Extend(s, run, Deliver(r, 0, 0), route);
    var now := Run(s, run);
    assert Without([MessageOf(em)], 0) == [];
    assert Enabled(now, Deliver(r, 0, 0));
    assert t.relays == now.relays[r := now.relays[r].(buffer := [])];
    assert t.parts == now.parts[0 := Append(now.parts[0], MessageOf(em))];
  }

  lemma Extend(s: State, run: seq<Action>, a: Action, route: Lane -> nat) returns (t: State)
    ensures t == Next(Run(s, run), a) && t == Run(s, run + [a])
    ensures OrderlyRun(s, run, route) && Orderly(Run(s, run), a, route) ==> OrderlyRun(s, run + [a], route)
  {
    t := Next(Run(s, run), a);
    RunSnoc(s, run, a);
    assert (run + [a])[..|run|] == run;
  }

  // ---------------------------------------------------------------- why no produce may fail, and no two times be equal

  // Two events of one lane in one open batch of relay 0, the batch in this order.
  function PairInBatch(s: State, em1: Emission, at1: nat, em2: Emission, at2: nat, batch: seq<EventId>): State
    requires |s.relays| > 0
  {
    var e1, e2 := em1.payload.eventId, em2.payload.eventId;
    s.(rows := s.rows[e1 := Row(em1, at1, Pending, 0)][e2 := Row(em2, at2, Pending, 0)],
       inserted := s.inserted + [e1] + [e2],
       ledger := s.ledger[e1 := Ledger(0, 0)][e2 := Ledger(0, 0)],
       relays := s.relays[0 := s.relays[0].(open := Some(Batch(batch, [])))])
  }

  predicate Pairable(s: State, em1: Emission, em2: Emission) {
    && Start(s) && |s.relays| > 0 && |s.parts| > 0
    && em1.payload.eventId != em2.payload.eventId && LaneOf(MessageOf(em1)) == LaneOf(MessageOf(em2))
    && s.relays[0].service == em1.payload.service
  }

  lemma PairIsBatch(s: State, rows: Table, service: Service, first: EventId, second: EventId)
    requires first != second && rows.Keys == {first, second} && rows == s.rows
    requires forall e :: e in rows ==> rows[e].status.Pending? && rows[e].emission.payload.service == service
    requires rows[first].createdAt <= rows[second].createdAt
    requires forall r :: 0 <= r < |s.relays| ==> s.relays[r].open.None?
    ensures IsBatch(Own(rows, service), LockedRows(s), [first, second])
  {
    assert Own(rows, service) == rows && LockedRows(s) == {};
    assert Free(rows, {}) == {first, second};
    var batch := [first, second];
    assert batch[0] == first && batch[1] == second;
    assert forall e :: e in batch <==> e == first || e == second;
  }

  lemma PairOpens(s: State, em1: Emission, at1: nat, em2: Emission, at2: nat, batch: seq<EventId>)
    requires Pairable(s, em1, em2)
    requires || (batch == [em1.payload.eventId, em2.payload.eventId] && at1 <= at2)
             || (batch == [em2.payload.eventId, em1.payload.eventId] && at2 <= at1)
    ensures Next(Next(Next(s, Insert(em1, at1)), Insert(em2, at2)), Open(0, batch))
            == PairInBatch(s, em1, at1, em2, at2, batch)
  {
    var s2 := Next(Next(s, Insert(em1, at1)), Insert(em2, at2));
    assert s2.rows == map[em1.payload.eventId := Row(em1, at1, Pending, 0),
                          em2.payload.eventId := Row(em2, at2, Pending, 0)];
    PairIsBatch(s2, s2.rows, s2.relays[0].service, batch[0], batch[1]);
    assert batch == [batch[0], batch[1]];
  }

  lemma ExtendClean(s: State, run: seq<Action>, a: Action) returns (t: State)
    ensures t == Next(Run(s, run), a) && t == Run(s, run + [a])
    ensures CleanRun(s, run) && Clean(Run(s, run), a) ==> CleanRun(s, run + [a])
  {
    t := Next(Run(s, run), a);
    RunSnoc(s, run, a);
    assert (run + [a])[..|run|] == run;
  }

  // Both rows are in the table, and relay 0 has settled this much of its batch.
  ghost predicate PairMidBatch(s: State, t: State, em1: Emission, at1: nat, em2: Emission, at2: nat, b: Batch,
                               buffer: seq<Message>, log: seq<Message>)
  {
    var e1, e2 := em1.payload.eventId, em2.payload.eventId;
    && t.rows == map[e1 := Row(em1, at1, Pending, 0), e2 := Row(em2, at2, Pending, 0)]
    && t.ledger.Keys == t.rows.Keys && t.inserted == [e1, e2] && t.feed == Feed([], [])
    && |t.relays| > 0 && t.relays[0] == RelayState(em1.payload.service, Some(b), buffer)
    && |t.parts| > 0 && t.parts[0] == Part(log, 0, 0)
  }

  lemma PairOpened(s: State, em1: Emission, at1: nat, em2: Emission, at2: nat, batch: seq<EventId>)
    returns (run: seq<Action>)
    requires Pairable(s, em1, em2)
    requires || (batch == [em1.payload.eventId, em2.payload.eventId] && at1 <= at2)
             || (batch == [em2.payload.eventId, em1.payload.eventId] && at2 <= at1)
    ensures run == [Insert(em1, at1), Insert(em2, at2), Open(0, batch)] && CleanRun(s, run)
    ensures PairMidBatch(s, Run(s, run), em1, at1, em2, at2, Batch(batch, []), [], [])
  {
    PairOpens(s, em1, at1, em2, at2, batch);
    run := [];
    var s1 := ExtendClean(s, run, Insert(em1, at1));
    run := run + [Insert(em1, at1)];
    var s2 := ExtendClean(s, run, Insert(em2, at2));
    run := run + [Insert(em2, at2)];
    var s3 := ExtendClean(s, run, Open(0, batch));
    run := run + [Open(0, batch)];
    assert s3.inserted == [em1.payload.eventId, em2.payload.eventId];
  }

  // One produce call of the batch, its message delivered at once when there is one.
  lemma PairProduces(s: State, run: seq<Action>, em1: Emission, at1: nat, em2: Emission, at2: nat, b: Batch,
                     log: seq<Message>, accepted: bool, em: Emission)
    returns (longer: seq<Action>)
    requires em1.payload.eventId != em2.payload.eventId && em in [em1, em2]
    requires |b.outcomes| < |b.events| && b.events[|b.outcomes|] == em.payload.eventId
    requires CleanRun(s, run) && PairMidBatch(s, Run(s, run), em1, at1, em2, at2, b, [], log)
    ensures longer == run + [Produce(0, accepted)] + (if accepted then [Deliver(0, 0, 0)] else [])
    ensures CleanRun(s, longer)
    ensures PairMidBatch(s, Run(s, longer), em1, at1, em2, at2, b.(outcomes := b.outcomes + [accepted]), [],
                         log + (if accepted then [MessageOf(em)] else []))
  {
    var e := em.payload.eventId;
    assert e in Run(s, run).rows && Run(s, run).rows[e].emission == em && e in Run(s, run).ledger.Keys;
    var t := ExtendClean(s, run, Produce(0, accepted));
    longer := run + [Produce(0, accepted)];
    assert t.ledger.Keys == t.rows.Keys;
    if accepted {
      assert t.relays[0].buffer == [MessageOf(em)];
      var u := ExtendClean(s, longer, Deliver(0, 0, 0));
      assert Without([MessageOf(em)], 0) == [];
      longer := longer + [Deliver(0, 0, 0)];
    }
  }

  // The batch commits and the consumer handles what was delivered.
  lemma PairCommits(s: State, run: seq<Action>, em1: Emission, at1: nat, em2: Emission, at2: nat, b: Batch,
                    log: seq<Message>)
    returns (longer: seq<Action>)
    requires CleanRun(s, run) && PairMidBatch(s, Run(s, run), em1, at1, em2, at2, b, [], log)
    requires em1.payload.eventId != em2.payload.eventId && |b.outcomes| == |b.events|
    ensures longer == run + [Commit(0)] && CleanRun(s, longer)
    ensures var t, e1, e2 := Run(s, longer), em1.payload.eventId, em2.payload.eventId;
            && t.rows.Keys == {e1, e2} && t.rows[e1].emission == em1 && t.rows[e2].emission == em2
            && t.inserted == [e1, e2] && t.feed == Feed([], [])
            && |t.parts| > 0 && t.parts[0] == Part(log, 0, 0)
  {
    var now := Run(s, run);
    var t := ExtendClean(s, run, Commit(0));
    longer := run + [Commit(0)];
    assert t == now.(rows := ApplyBatch(now.rows, b.events, b.outcomes), relays := t.relays);
  }

  // What the relay does with a batch of two, the second of which produce accepts.
  function PairRun(em1: Emission, at1: nat, em2: Emission, at2: nat, first: EventId, second: EventId, accepted: bool)
    : seq<Action>
  {
    [Insert(em1, at1), Insert(em2, at2), Open(0, [first, second]), Produce(0, accepted)]
    + (if accepted then [Deliver(0, 0, 0)] else []) + [Produce(0, true), Deliver(0, 0, 0), Commit(0)]
  }

  lemma PairCommitted(s: State, em1: Emission, at1: nat, em2: Emission, at2: nat, first: Emission, second: Emission,
                      accepted: bool)
    requires Pairable(s, em1, em2)
    requires (first == em1 && second == em2 && at1 <= at2) || (first == em2 && second == em1 && at2 <= at1)
    ensures var run := PairRun(em1, at1, em2, at2, first.payload.eventId, second.payload.eventId, accepted);
            var t, e1, e2 := Run(s, run), em1.payload.eventId, em2.payload.eventId;
            && CleanRun(s, run)
            && t.rows.Keys == {e1, e2} && t.rows[e1].emission == em1 && t.rows[e2].emission == em2
            && t.inserted == [e1, e2] && t.feed == Feed([], [])
            && |t.parts| > 0
            && t.parts[0] == Part((if accepted then [MessageOf(first)] else []) + [MessageOf(second)], 0, 0)
  {
    var x, y := first.payload.eventId, second.payload.eventId;
    var log := if accepted then [MessageOf(first)] else [];
    var half := PairHalf(s, em1, at1, em2, at2, first, second, accepted);
    var whole := PairProduces(s, half, em1, at1, em2, at2, Batch([x, y], [accepted]), log, true, second);
    var run := PairCommits(s, whole, em1, at1, em2, at2, Batch([x, y], [accepted] + [true]), log + [MessageOf(second)]);
    assert run == half + [Produce(0, true)] + [Deliver(0, 0, 0)] + [Commit(0)];
    PairRunParts(em1, at1, em2, at2, x, y, accepted);
  }

  lemma PairRunParts(em1: Emission, at1: nat, em2: Emission, at2: nat, first: EventId, second: EventId, accepted: bool)
    ensures PairRun(em1, at1, em2, at2, first, second, accepted)
            == [Insert(em1, at1), Insert(em2, at2), Open(0, [first, second])] + [Produce(0, accepted)]
               + (if accepted then [Deliver(0, 0, 0)] else []) + [Produce(0, true)] + [Deliver(0, 0, 0)] + [Commit(0)]
  {}

  lemma PairHalf(s: State, em1: Emission, at1: nat, em2: Emission, at2: nat, first: Emission, second: Emission,
                 accepted: bool)
    returns (run: seq<Action>)
    requires Pairable(s, em1, em2)
    requires (first == em1 && second == em2 && at1 <= at2) || (first == em2 && second == em1 && at2 <= at1)
    ensures run == [Insert(em1, at1), Insert(em2, at2), Open(0, [first.payload.eventId, second.payload.eventId])]
                   + [Produce(0, accepted)] + (if accepted then [Deliver(0, 0, 0)] else [])
    ensures CleanRun(s, run)
    ensures PairMidBatch(s, Run(s, run), em1, at1, em2, at2,
                         Batch([first.payload.eventId, second.payload.eventId], [accepted]), [],
                         if accepted then [MessageOf(first)] else [])
  {
    var batch := [first.payload.eventId, second.payload.eventId];
    var start := PairOpened(s, em1, at1, em2, at2, batch);
    run := PairProduces(s, start, em1, at1, em2, at2, Batch(batch, []), [], accepted, first);
    assert [] + (if accepted then [MessageOf(first)] else []) == if accepted then [MessageOf(first)] else [];
    assert [] + [accepted] == [accepted];
  }

  /** With one relay: a produce call that raises for an event, followed in the same batch by one that succeeds for the
      aggregate's next event, puts the later event into the audit log first. */
  lemma FailedProduceReorders(s: State, em1: Emission, at1: nat, em2: Emission, at2: nat)
    requires Pairable(s, em1, em2) && at1 <= at2
    ensures var e1, e2, lane := em1.payload.eventId, em2.payload.eventId, LaneOf(MessageOf(em1));
            var run := PairRun(em1, at1, em2, at2, e1, e2, false) + [Handle(0, Completes)];
            && CleanRun(s, run)
            && Committed(Run(s, run), lane) == [e1, e2] && Audited(Run(s, run), lane) == [e2]
  {
    var e1, e2 := em1.payload.eventId, em2.payload.eventId;
    PairCommitted(s, em1, at1, em2, at2, em1, em2, false);
    assert [] + [MessageOf(em2)] == [MessageOf(em2)];
    var t := ExtendClean(s, PairRun(em1, at1, em2, at2, e1, e2, false), Handle(0, Completes));
    assert t.feed.audit == [AuditRowOf(MessageOf(em2))];
    assert AuditedIds(t.feed.audit) == [e2];
    BothInLane(t.rows, em1, em2);
    FilterSnoc([], e2, LaneRows(t.rows, LaneOf(MessageOf(em1))));
    assert [] + [e2] == [e2];
  }

  /** With one relay and no failing produce: two events of an aggregate with the same created_at may come out of the
      batch query, and so into the audit log, in either order. */
  lemma EqualTimesReorder(s: State, em1: Emission, em2: Emission, at: nat)
    requires Pairable(s, em1, em2)
    ensures var e1, e2, lane := em1.payload.eventId, em2.payload.eventId, LaneOf(MessageOf(em1));
            var run := PairRun(em1, at, em2, at, e2, e1, true) + [Handle(0, Completes)] + [Handle(0, Completes)];
            && CleanRun(s, run)
            && Committed(Run(s, run), lane) == [e1, e2] && Audited(Run(s, run), lane) == [e2, e1]
  {
    var run := PairRun(em1, at, em2, at, em2.payload.eventId, em1.payload.eventId, true);
    PairCommitted(s, em1, at, em2, at, em2, em1, true);
    assert [MessageOf(em2)] + [MessageOf(em1)] == [MessageOf(em2), MessageOf(em1)];
    HandleBoth(s, run, em2, em1);
    BothInLane(Run(s, run).rows, em1, em2);
  }

  lemma HandleBoth(s: State, run: seq<Action>, em1: Emission, em2: Emission)
    requires CleanRun(s, run) && em1.payload.eventId != em2.payload.eventId
    requires |Run(s, run).parts| > 0 && Run(s, run).parts[0] == Part([MessageOf(em1), MessageOf(em2)], 0, 0)
    requires Run(s, run).feed == Feed([], [])
    ensures var longer := run + [Handle(0, Completes)] + [Handle(0, Completes)];
            && CleanRun(s, longer)
            && Run(s, longer).inserted == Run(s, run).inserted && Run(s, longer).rows == Run(s, run).rows
            && AuditedIds(Run(s, longer).feed.audit) == [em1.payload.eventId, em2.payload.eventId]
  {
    HandlePair(Run(s, run), em1, em2);
    var s1 := ExtendClean(s, run, Handle(0, Completes));
    var s2 := ExtendClean(s, run + [Handle(0, Completes)], Handle(0, Completes));
  }
}
