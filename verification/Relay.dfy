/** The outbox relay: one batch of the polling loop, run against the outbox table
    and a producer.  Both services run the same relay on their own table. */
module Relay {
  import opened Events
  import opened Collections

  const BATCH_SIZE := 100
  const MAX_ATTEMPTS := 10

  datatype RowStatus = Pending | Published | Failed

  // An OutboxEvent row.  The table is keyed by the event id inside the payload.
  datatype Row = Row(emission: Emission, createdAt: nat, status: RowStatus, attempts: nat)

  type Table = map<EventId, Row>

  /** One iteration of the loop over the batch: produce accepted the message, or raised. */
  function Settle(row: Row, accepted: bool): Row {
    if accepted then row.(status := Published)
    else if row.attempts + 1 >= MAX_ATTEMPTS then row.(attempts := row.attempts + 1, status := Failed)
    else row.(attempts := row.attempts + 1)
  }

  predicate AttemptsAgree(row: Row) {
    if row.status.Failed? then row.attempts == MAX_ATTEMPTS else row.attempts < MAX_ATTEMPTS
  }

  function Waiting(rows: Table): set<EventId> {
    set e | e in rows && rows[e].status.Pending?
  }

  function Free(rows: Table, locked: set<EventId>): set<EventId> {
    set e | e in rows && rows[e].status.Pending? && e !in locked
  }

  predicate Drawn(batch: seq<EventId>, from: set<EventId>) {
    forall i :: 0 <= i < |batch| ==> batch[i] in from
  }

  // The n oldest rows of `free`, oldest first, or all of them when there are fewer.
  ghost predicate OldestOf(rows: Table, free: set<EventId>, n: nat, batch: seq<EventId>) {
    && free <= rows.Keys
    && Distinct(batch)
    && |batch| <= n
    && Drawn(batch, free)
    && (forall i, j :: 0 <= i < j < |batch| ==> rows[batch[i]].createdAt <= rows[batch[j]].createdAt)
    && (forall i, e :: 0 <= i < |batch| && e in free && e !in batch ==>
          rows[batch[i]].createdAt <= rows[e].createdAt)
    && (|batch| < n ==> forall e :: e in free ==> e in batch)
  }

  /** The answer of the batch query: PENDING rows nobody has locked, oldest first, at most BATCH_SIZE. */
  ghost predicate IsBatch(rows: Table, locked: set<EventId>, batch: seq<EventId>) {
    OldestOf(rows, Free(rows, locked), BATCH_SIZE, batch)
  }

  function IndexOf(batch: seq<EventId>, e: EventId): (i: nat)
    ensures i <= |batch|
    ensures if i < |batch| then batch[i] == e else e !in batch
  {
    if batch == [] || batch[0] == e then 0 else 1 + IndexOf(batch[1..], e)
  }

  /** The table after the rows batch[..|outcomes|] have been settled. */
  function ApplyBatch(rows: Table, batch: seq<EventId>, outcomes: seq<bool>): Table
    requires |outcomes| <= |batch|
  {
    map e | e in rows ::
      var i := IndexOf(batch, e);
      if i < |outcomes| then Settle(rows[e], outcomes[i]) else rows[e]
  }

  /** The messages the producer accepted, in order. */
  function Accepted(rows: Table, batch: seq<EventId>, outcomes: seq<bool>): seq<Message>
    requires |outcomes| <= |batch|
    requires Drawn(batch, rows.Keys)
    decreases |outcomes|
  {
    if outcomes == [] then []
    else
      var n := |outcomes| - 1;
      Accepted(rows, batch, outcomes[..n])
      + (if outcomes[n] then [MessageOf(rows[batch[n]].emission)] else [])
  }

  // A row the loop has not reached is as the query read it.
  lemma NotYetSettled(rows: Table, batch: seq<EventId>, outcomes: seq<bool>)
    requires Distinct(batch) && |outcomes| < |batch| && batch[|outcomes|] in rows
    ensures batch[|outcomes|] in ApplyBatch(rows, batch, outcomes)
    ensures ApplyBatch(rows, batch, outcomes)[batch[|outcomes|]] == rows[batch[|outcomes|]]
  {
    assert IndexOf(batch, batch[|outcomes|]) == |outcomes|;
  }

  /** Settling one more row of the batch changes that row alone. */
  lemma SettleNext(rows: Table, batch: seq<EventId>, outcomes: seq<bool>, accepted: bool)
    requires Distinct(batch) && |outcomes| < |batch| && batch[|outcomes|] in rows
    ensures ApplyBatch(rows, batch, outcomes + [accepted])
            == ApplyBatch(rows, batch, outcomes)[batch[|outcomes|] := Settle(rows[batch[|outcomes|]], accepted)]
  {
    var e := batch[|outcomes|];
    var next := ApplyBatch(rows, batch, outcomes)[e := Settle(rows[e], accepted)];
    assert IndexOf(batch, e) == |outcomes|;
    assert next.Keys == rows.Keys;
    forall f | f in rows ensures ApplyBatch(rows, batch, outcomes + [accepted])[f] == next[f] {
      assert IndexOf(batch, f) == |outcomes| <==> f == e;
    }
  }

  lemma AcceptedNext(rows: Table, batch: seq<EventId>, outcomes: seq<bool>, accepted: bool)
    requires |outcomes| < |batch| && Drawn(batch, rows.Keys)
    ensures Accepted(rows, batch, outcomes + [accepted])
            == Accepted(rows, batch, outcomes)
               + (if accepted then [MessageOf(rows[batch[|outcomes|]].emission)] else [])
  {
    assert (outcomes + [accepted])[..|outcomes|] == outcomes;
  }

  lemma NothingSettled(rows: Table, batch: seq<EventId>)
    requires Drawn(batch, rows.Keys)
    ensures ApplyBatch(rows, batch, []) == rows && Accepted(rows, batch, []) == []
  {}

  // One iteration of the loop, on the table and on what the producer has accepted.
  lemma LoopStep(rows: Table, batch: seq<EventId>, outcomes: seq<bool>, accepted: bool)
    requires Distinct(batch) && Drawn(batch, rows.Keys) && |outcomes| < |batch|
    ensures var e := batch[|outcomes|];
            && e in rows
            && var now := ApplyBatch(rows, batch, outcomes);
               && e in now && now[e] == rows[e]
               && ApplyBatch(rows, batch, outcomes + [accepted]) == now[e := Settle(rows[e], accepted)]
               && Accepted(rows, batch, outcomes + [accepted])
                  == Accepted(rows, batch, outcomes) + (if accepted then [MessageOf(rows[e].emission)] else [])
  {
    assert batch[|outcomes|] in rows.Keys;
    NotYetSettled(rows, batch, outcomes);
    SettleNext(rows, batch, outcomes, accepted);
    AcceptedNext(rows, batch, outcomes, accepted);
  }

  // The rows a batch turns PUBLISHED.
  function NewlyPublished(rows: Table, after: Table): set<EventId> {
    set e | e in rows && e in after && !rows[e].status.Published? && after[e].status.Published?
  }

  lemma NewlyPublishedNext(rows: Table, after: Table, e: EventId, settled: Row)
    requires rows.Keys == after.Keys && e in rows && after[e] == rows[e] && rows[e].status.Pending?
    ensures |NewlyPublished(rows, after[e := settled])|
            == |NewlyPublished(rows, after)| + (if settled.status.Published? then 1 else 0)
  {
    var before, now := NewlyPublished(rows, after), NewlyPublished(rows, after[e := settled]);
    assert e !in before;
    assert now == if settled.status.Published? then before + {e} else before;
  }

  /** The count a batch returns is the number of rows it turned PUBLISHED. */
  lemma {:induction false} AcceptedCountsNewlyPublished(rows: Table, batch: seq<EventId>, outcomes: seq<bool>)
    requires Distinct(batch) && |outcomes| <= |batch|
    requires Drawn(batch, rows.Keys) && Drawn(batch, Waiting(rows))
    ensures |Accepted(rows, batch, outcomes)| == |NewlyPublished(rows, ApplyBatch(rows, batch, outcomes))|
    decreases |outcomes|
  {
    if outcomes == [] {
      assert NewlyPublished(rows, ApplyBatch(rows, batch, outcomes)) == {};
    } else {
      var n := |outcomes| - 1;
      var e, front := batch[n], outcomes[..n];
      AcceptedCountsNewlyPublished(rows, batch, front);
      assert outcomes == front + [outcomes[n]];
      SettleNext(rows, batch, front, outcomes[n]);
      NotYetSettled(rows, batch, front);
      assert e in Waiting(rows);
      NewlyPublishedNext(rows, ApplyBatch(rows, batch, front), e, Settle(rows[e], outcomes[n]));
    }
  }

  /** A batch has at most a hundred rows, and as many as there are free ones below that. */
  lemma BatchSize(rows: Table, locked: set<EventId>, batch: seq<EventId>)
    requires IsBatch(rows, locked, batch)
    ensures |batch| == if |Free(rows, locked)| < 100 then |Free(rows, locked)| else 100
  {
    DistinctCard(batch);
    SubsetCard(Elements(batch), Free(rows, locked));
    if |batch| < BATCH_SIZE {
      assert Elements(batch) == Free(rows, locked);
    }
  }

  /** Every row of a settled batch, read without the functions that settle it. */
  lemma BatchRows(rows: Table, locked: set<EventId>, batch: seq<EventId>, outcomes: seq<bool>)
    requires IsBatch(rows, locked, batch) && |outcomes| == |batch|
    ensures var after := ApplyBatch(rows, batch, outcomes);
            && after.Keys == rows.Keys
            && (forall e :: e in rows && e !in batch ==> after[e] == rows[e])
            && (forall i :: 0 <= i < |batch| ==>
                  && batch[i] in rows
                  && var before := rows[batch[i]];
                     if outcomes[i] then after[batch[i]] == before.(status := Published)
                     else after[batch[i]] == before.(attempts := before.attempts + 1,
                                                     status := if before.attempts + 1 >= 10 then Failed else Pending))
  {
    var after := ApplyBatch(rows, batch, outcomes);
    forall i | 0 <= i < |batch|
      ensures batch[i] in rows && after[batch[i]] == Settle(rows[batch[i]], outcomes[i])
      ensures rows[batch[i]].status.Pending?
    {
      assert IndexOf(batch, batch[i]) == i;
      assert batch[i] in Free(rows, locked);
    }
  }

  /** What is accepted of a batch: for each accepted row, in order, a message with that row's topic, payload and key. */
  lemma AcceptedAt(rows: Table, batch: seq<EventId>, outcomes: seq<bool>, i: nat)
    requires i < |outcomes| <= |batch| && Drawn(batch, rows.Keys)
    ensures var before, after := Accepted(rows, batch, outcomes[..i]), Accepted(rows, batch, outcomes[..i + 1]);
            && before <= after <= Accepted(rows, batch, outcomes)
            && (!outcomes[i] ==> after == before)
            && (outcomes[i] ==>
                  && |after| == |before| + 1
                  && batch[i] in rows
                  && var m, em := after[|before|], rows[batch[i]].emission;
                     && m.topic == em.topic && m.payload == em.payload
                     && m.key == match em.key case Some(key) => key case None => em.aggregateId)
  {
    assert outcomes[..i + 1] == outcomes[..i] + [outcomes[i]];
    AcceptedNext(rows, batch, outcomes[..i], outcomes[i]);
    AcceptedGrows(rows, batch, outcomes, i + 1);
    assert batch[i] in rows.Keys;
  }

  lemma {:induction false} AcceptedGrows(rows: Table, batch: seq<EventId>, outcomes: seq<bool>, i: nat)
    requires i <= |outcomes| <= |batch| && Drawn(batch, rows.Keys)
    ensures Accepted(rows, batch, outcomes[..i]) <= Accepted(rows, batch, outcomes)
    decreases |outcomes|
  {
    if i < |outcomes| {
      var front := outcomes[..|outcomes| - 1];
      AcceptedGrows(rows, batch, front, i);
      assert front[..i] == outcomes[..i];
    } else {
      assert outcomes[..i] == outcomes;
    }
  }

  // A query answer always exists: the oldest free rows, taken one at a time.
  lemma {:induction false} OldestExists(rows: Table, free: set<EventId>) returns (e: EventId)
    requires free != {} && free <= rows.Keys
    ensures e in free && forall f :: f in free ==> rows[e].createdAt <= rows[f].createdAt
  {
    var x :| x in free;
    if free == {x} {
      e := x;
    } else {
      var y := OldestExists(rows, free - {x});
      e := if rows[x].createdAt <= rows[y].createdAt then x else y;
      forall f | f in free ensures rows[e].createdAt <= rows[f].createdAt {
        if f != x { assert f in free - {x}; }
      }
    }
  }

  lemma {:induction false} BatchExists(rows: Table, free: set<EventId>, n: nat) returns (batch: seq<EventId>)
    requires free <= rows.Keys
    ensures OldestOf(rows, free, n, batch)
  {
    if n == 0 {
      batch := [];
    } else {
      var few := BatchExists(rows, free, n - 1);
      var left := set e | e in free && e !in few;
      batch := few;
      if left != {} {
        var e := OldestExists(rows, left);
        batch := few + [e];
        assert e in free && e !in few;
      } else {
        forall e | e in free ensures e in few {
          assert e !in left;
        }
      }
    }
  }

  /** Of the messages the client settled, those that reached the broker. */
  function Delivered(messages: seq<Message>, reached: seq<bool>): seq<Message>
    requires |reached| <= |messages|
    decreases |reached|
  {
    if reached == [] then []
    else
      var n := |reached| - 1;
      Delivered(messages, reached[..n]) + (if reached[n] then [messages[n]] else [])
  }

  lemma {:induction false} DeliveredAll(messages: seq<Message>, reached: seq<bool>)
    requires |reached| <= |messages| && forall i :: 0 <= i < |reached| ==> reached[i]
    ensures Delivered(messages, reached) == messages[..|reached|]
    decreases |reached|
  {
    if reached != [] {
      DeliveredAll(messages, reached[..|reached| - 1]);
    }
  }

  /** The confluent producer: a volatile client buffer in front of the broker log. */
  class Producer {
    var buffer: seq<Message>
    var log: seq<Message>

    constructor ()
      ensures buffer == [] && log == []
    {
      buffer, log := [], [];
    }

    // Enqueues, or raises (queue full, message too large, ...).
    method Produce(m: Message, accepts: bool)
      modifies this`buffer
      ensures buffer == if accepts then old(buffer) + [m] else old(buffer)
    {
      if accepts {
        buffer := buffer + [m];
      }
    }

    // Waits a bounded time.  `reached` is what the client learns meanwhile about the messages at the head of its
    // buffer: true for one that reached the broker, false for one that expired.
    method Flush(reached: seq<bool>)
      modifies this
      ensures var settled := Min(|reached|, |old(buffer)|);
              && log == old(log) + Delivered(old(buffer), reached[..settled])
              && buffer == old(buffer)[settled..]
      ensures |reached| == |old(buffer)| && (forall i :: 0 <= i < |reached| ==> reached[i]) ==>
                log == old(log) + old(buffer) && buffer == []
    {
      var settled := Min(|reached|, |buffer|);
      var sent, i := log, 0;
      while i < settled
        invariant 0 <= i <= settled
        invariant sent == log + Delivered(buffer, reached[..i])
        invariant buffer == old(buffer) && log == old(log)
      {
        assert reached[..i + 1][..i] == reached[..i];
        if reached[i] {
          sent := sent + [buffer[i]];
        }
        i := i + 1;
      }
      if settled == |reached| == |buffer| && forall i :: 0 <= i < |reached| ==> reached[i] {
        DeliveredAll(buffer, reached[..settled]);
        assert buffer[..settled] == buffer;
      }
      log, buffer := sent, buffer[settled..];
    }
  }

  class OutboxTable {
    var rows: Table

    constructor ()
      ensures rows == map[]
    {
      rows := map[];
    }
  }

  class Command {
    const table: OutboxTable

    constructor (table: OutboxTable)
      ensures this.table == table
    {
      this.table := table;
    }

    /** The try/except around produce: the event comes back settled by what produce answers. */
    method Publish(producer: Producer, row: Row, accepts: bool) returns (event: Row)
      modifies producer`buffer
      ensures event == Settle(row, accepts)
      ensures event == if accepts then row.(status := Published)
                       else row.(attempts := row.attempts + 1,
                                 status := if row.attempts + 1 >= 10 then Failed else row.status)
      ensures producer.buffer == old(producer.buffer) + (if accepts then [MessageOf(row.emission)] else [])
      ensures producer.buffer
              == old(producer.buffer)
                 + (if accepts then [Message(row.emission.topic, KeyOf(row.emission), row.emission.payload)] else [])
    {
      event := row;
      producer.Produce(MessageOf(event.emission), accepts);
      if accepts {
        event := event.(status := Published);
      } else {
        event := event.(attempts := event.attempts + 1);
        if event.attempts >= MAX_ATTEMPTS {
          event := event.(status := Failed);
        }
      }
    }

    // The body of the loop, on the transaction's own copy of the table; its save may raise.
    method PublishAndSave(producer: Producer, ghost rows: Table, events: seq<EventId>, ghost outcomes: seq<bool>,
                          i: nat, accepts: bool, working: Table, saveRaises: bool)
      returns (saved: Table, ghost sent: seq<Message>)
      requires Distinct(events) && Drawn(events, rows.Keys) && i == |outcomes| < |events|
      requires working == ApplyBatch(rows, events, outcomes)
      modifies producer`buffer
      ensures saved == if saveRaises then working else ApplyBatch(rows, events, outcomes + [accepts])
      ensures |sent| == (if accepts then 1 else 0) && producer.buffer == old(producer.buffer) + sent
      ensures Accepted(rows, events, outcomes + [accepts]) == Accepted(rows, events, outcomes) + sent
    {
      sent := if accepts then [MessageOf(rows[events[i]].emission)] else [];
      LoopStep(rows, events, outcomes, accepts);
      var event := Publish(producer, working[events[i]], accepts);
      saved := if saveRaises then working else working[events[i] := event];
    }

    // The loop of the batch: `answers` are produce's, and the save of row number `saveRaises` raises, if there is one.
    method PublishAll(producer: Producer, rows: Table, events: seq<EventId>, answers: seq<bool>, saveRaises: nat)
      returns (working: Table, published: nat, raised: bool, ghost outcomes: seq<bool>)
      requires Distinct(events) && Drawn(events, rows.Keys) && |answers| == |events|
      modifies producer`buffer
      ensures raised <==> saveRaises < |events|
      ensures outcomes == if raised then answers[..saveRaises + 1] else answers
      ensures !raised ==> working == ApplyBatch(rows, events, outcomes)
      ensures published == |Accepted(rows, events, outcomes)|
      ensures producer.buffer == old(producer.buffer) + Accepted(rows, events, outcomes)
    {
      working, published, raised, outcomes := rows, 0, false, [];
      NothingSettled(rows, events);
      var i := 0;
      while i < |events| && !raised
        invariant 0 <= i <= |events| && |outcomes| == i && outcomes == answers[..i]
        invariant if raised then i == saveRaises + 1 else i <= saveRaises || saveRaises >= |events|
        invariant !raised ==> working == ApplyBatch(rows, events, outcomes)
        invariant published == |Accepted(rows, events, outcomes)|
        invariant producer.buffer == old(producer.buffer) + Accepted(rows, events, outcomes)
      {
        ghost var before := Accepted(rows, events, outcomes);
        ghost var sent;
        working, sent := PublishAndSave(producer, rows, events, outcomes, i, answers[i], working, i == saveRaises);
        assert (old(producer.buffer) + before) + sent == old(producer.buffer) + (before + sent);
        outcomes := outcomes + [answers[i]];
        if answers[i] {
          published := published + 1;
        }
        raised := i == saveRaises;
        i := i + 1;
      }
    }

    /** One relay batch.  `events` is what the locking query returned; the other parameters are what produce answers for
        each row, which save raises, what flush learns, and whether the commit raises.  When a save or the commit
        raises the whole batch rolls back; messages already produced are not taken back. */
    method ProcessBatch(producer: Producer, events: seq<EventId>, ghost locked: set<EventId>,
                        answers: seq<bool>, saveRaises: nat, reached: seq<bool>, commitRaises: bool)
      returns (published: nat, committed: bool)
      requires IsBatch(table.rows, locked, events) && |answers| == |events|
      modifies table, producer
      ensures committed <==> events == [] || (saveRaises >= |events| && !commitRaises)
      ensures committed ==>
                && table.rows == ApplyBatch(old(table.rows), events, answers)
                && published == |NewlyPublished(old(table.rows), table.rows)|
      ensures committed ==> table.rows.Keys == old(table.rows).Keys
      ensures committed ==> forall e :: e in table.rows && e !in events ==> table.rows[e] == old(table.rows)[e]
      ensures committed ==> forall i :: 0 <= i < |events| ==>
                && events[i] in table.rows
                && var before, after := old(table.rows)[events[i]], table.rows[events[i]];
                   if answers[i] then after == before.(status := Published)
                   else after == before.(attempts := before.attempts + 1,
                                         status := if before.attempts + 1 >= 10 then Failed else Pending)
      ensures !committed ==> table.rows == old(table.rows)
      ensures saveRaises < |events| ==>
                && producer.log == old(producer.log)
                && producer.buffer
                   == old(producer.buffer) + Accepted(old(table.rows), events, answers[..saveRaises + 1])
      ensures saveRaises >= |events| > 0 ==>
                var waiting := old(producer.buffer) + Accepted(old(table.rows), events, answers);
                var settled := Min(|reached|, |waiting|);
                && producer.log == old(producer.log) + Delivered(waiting, reached[..settled])
                && producer.buffer == waiting[settled..]
                && (|reached| == |waiting| && (forall i :: 0 <= i < |reached| ==> reached[i]) ==>
                      producer.log == old(producer.log) + waiting && producer.buffer == [])
      ensures events == [] ==>
                published == 0 && producer.log == old(producer.log) && producer.buffer == old(producer.buffer)
    {
      if events == [] {
        AcceptedCountsNewlyPublished(table.rows, events, answers);
        return 0, true;
      }
      BatchRows(table.rows, locked, events, answers);
      var working, raised;
      ghost var outcomes;
      working, published, raised, outcomes := PublishAll(producer, table.rows, events, answers, saveRaises);
      if raised {
        return published, false;
      }
      producer.Flush(reached);
      AcceptedCountsNewlyPublished(table.rows, events, answers);
      committed := !commitRaises;
      if committed {
        table.rows := working;
      }
    }
  }
}

/** How many batches a backlog can cost. */
module RelayDrain {
  import opened Events
  import opened Collections
  import opened Relay

  // One batch of an undisturbed single relay.
  datatype Round = Round(batch: seq<EventId>, outcomes: seq<bool>)

  /** A run of non-empty committed batches, whatever produce answers; nothing else touches the table. */
  ghost predicate DrainRun(rows: Table, rounds: seq<Round>)
    decreases |rounds|
  {
    rounds == [] || (
      var r := rounds[0];
      && IsBatch(rows, {}, r.batch) && r.batch != [] && |r.outcomes| == |r.batch|
      && DrainRun(ApplyBatch(rows, r.batch, r.outcomes), rounds[1..]))
  }

  ghost predicate WellKept(rows: Table) {
    forall e :: e in rows ==> AttemptsAgree(rows[e])
  }

  // The attempts still available: one pair for each unused attempt of each PENDING row.
  function Credits(rows: Table): set<(EventId, nat)> {
    set e, k: nat | e in Waiting(rows) && 0 <= k < MAX_ATTEMPTS && rows[e].attempts <= k :: (e, k)
  }

  lemma {:induction false} BatchKeepsAttempts(rows: Table, batch: seq<EventId>, outcomes: seq<bool>)
    requires WellKept(rows)
    requires Distinct(batch) && |outcomes| == |batch|
    requires Drawn(batch, Waiting(rows))
    ensures WellKept(ApplyBatch(rows, batch, outcomes))
    ensures Waiting(ApplyBatch(rows, batch, outcomes)) <= Waiting(rows)
    ensures forall e :: e in rows && !rows[e].status.Pending? ==>
              e in ApplyBatch(rows, batch, outcomes) && ApplyBatch(rows, batch, outcomes)[e] == rows[e]
  {
    forall e | e in rows && e in batch ensures e in Waiting(rows) {}
  }

  lemma {:induction false} SpentCard(rows: Table, batch: seq<EventId>) returns (spent: set<(EventId, nat)>)
    requires Distinct(batch)
    requires Drawn(batch, rows.Keys)
    ensures |spent| == |batch|
    ensures forall p :: p in spent <==> p.0 in batch && p.1 == rows[p.0].attempts
  {
    if batch == [] {
      spent := {};
    } else {
      var front, last := batch[..|batch| - 1], batch[|batch| - 1];
      spent := SpentCard(rows, front);
      assert batch == front + [last];
      spent := spent + {(last, rows[last].attempts)};
    }
  }

  lemma BatchSpends(rows: Table, batch: seq<EventId>, outcomes: seq<bool>)
    requires WellKept(rows)
    requires Distinct(batch) && |outcomes| == |batch|
    requires Drawn(batch, Waiting(rows))
    ensures |Credits(ApplyBatch(rows, batch, outcomes))| + |batch| <= |Credits(rows)|
  {
    var spent := SpentCard(rows, batch);
    var left := Credits(ApplyBatch(rows, batch, outcomes));
    forall p | p in left ensures p in Credits(rows) && p !in spent {
      CreditLeft(rows, batch, outcomes, p.0, p.1);
    }
    forall p | p in spent ensures p in Credits(rows) {
      assert p.0 in Waiting(rows);
    }
    SubsetCard(left + spent, Credits(rows));
  }

  // A credit left after a batch was there before it, and is not the one the batch used up.
  lemma CreditLeft(rows: Table, batch: seq<EventId>, outcomes: seq<bool>, e: EventId, k: nat)
    requires |outcomes| == |batch|
    requires (e, k) in Credits(ApplyBatch(rows, batch, outcomes))
    ensures (e, k) in Credits(rows) && !(e in batch && k == rows[e].attempts)
  {}

  lemma {:induction false} CreditsBound(rows: Table)
    ensures |Credits(rows)| <= |Waiting(rows)| * MAX_ATTEMPTS
  {
    assert Credits(rows) <= Grid(Waiting(rows), MAX_ATTEMPTS);
    SubsetCard(Credits(rows), Grid(Waiting(rows), MAX_ATTEMPTS));
    GridCard(Waiting(rows), MAX_ATTEMPTS);
  }

  lemma {:induction false} FullUnlessFew(rows: Table, batch: seq<EventId>)
    requires IsBatch(rows, {}, batch)
    ensures |Waiting(rows)| >= BATCH_SIZE ==> |batch| == BATCH_SIZE
    ensures |Waiting(rows)| < BATCH_SIZE ==> |batch| < BATCH_SIZE
  {
    DistinctCard(batch);
    SubsetCard(Elements(batch), Waiting(rows));
    if |batch| < BATCH_SIZE {
      assert Elements(batch) == Waiting(rows);
    }
  }

  lemma StillWaiting(rows: Table, batch: seq<EventId>, outcomes: seq<bool>, e: EventId)
    requires |outcomes| == |batch| && e in batch
    requires e in Waiting(ApplyBatch(rows, batch, outcomes))
    ensures e in Waiting(rows)
    ensures ApplyBatch(rows, batch, outcomes)[e].attempts == rows[e].attempts + 1
  {
    assert IndexOf(batch, e) < |batch|;
  }

  // With fewer than BATCH_SIZE rows waiting every batch tries them all.
  lemma {:induction false} ShortBacklog(rows: Table, rounds: seq<Round>, patience: nat)
    requires WellKept(rows) && DrainRun(rows, rounds)
    requires |Waiting(rows)| < BATCH_SIZE
    requires forall e :: e in Waiting(rows) ==> rows[e].attempts + patience >= MAX_ATTEMPTS
    ensures |rounds| <= patience
  {
    if rounds != [] {
      var r := rounds[0];
      FullUnlessFew(rows, r.batch);
      BatchKeepsAttempts(rows, r.batch, r.outcomes);
      var after := ApplyBatch(rows, r.batch, r.outcomes);
      SubsetCard(Waiting(after), Waiting(rows));
      assert r.batch[0] in Waiting(rows);
      forall e | e in Waiting(after) ensures after[e].attempts + patience - 1 >= MAX_ATTEMPTS {
        StillWaiting(rows, r.batch, r.outcomes, e);
      }
      ShortBacklog(after, rounds[1..], patience - 1);
    }
  }

  lemma {:induction false} LongBacklog(rows: Table, rounds: seq<Round>)
    requires WellKept(rows) && DrainRun(rows, rounds)
    ensures |rounds| <= |Credits(rows)| / BATCH_SIZE + MAX_ATTEMPTS
    decreases |rounds|
  {
    if |Waiting(rows)| < BATCH_SIZE {
      ShortBacklog(rows, rounds, MAX_ATTEMPTS);
    } else if rounds != [] {
      var r := rounds[0];
      FullUnlessFew(rows, r.batch);
      BatchKeepsAttempts(rows, r.batch, r.outcomes);
      BatchSpends(rows, r.batch, r.outcomes);
      LongBacklog(ApplyBatch(rows, r.batch, r.outcomes), rounds[1..]);
    }
  }

  /** n waiting rows cost at most n/10 + 10 non-empty batches, whatever pattern of produce failures occurs. */
  lemma DrainBound(rows: Table, rounds: seq<Round>)
    requires WellKept(rows) && DrainRun(rows, rounds)
    ensures |rounds| <= |Waiting(rows)| / 10 + 10
  {
    LongBacklog(rows, rounds);
    CreditsBound(rows);
  }

  function Final(rows: Table, rounds: seq<Round>): Table
    requires DrainRun(rows, rounds)
    decreases |rounds|
  {
    if rounds == [] then rows
    else Final(ApplyBatch(rows, rounds[0].batch, rounds[0].outcomes), rounds[1..])
  }

  /** A run that cannot be extended has left no row waiting: each is PUBLISHED, or FAILED after ten attempts,
      and rows that were already settled are untouched. */
  lemma {:induction false} DrainedOutcome(rows: Table, rounds: seq<Round>)
    requires WellKept(rows) && DrainRun(rows, rounds)
    requires IsBatch(Final(rows, rounds), {}, [])
    ensures Final(rows, rounds).Keys == rows.Keys
    ensures forall e :: e in rows ==>
              var r := Final(rows, rounds)[e];
              r.status.Published? || (r.status.Failed? && r.attempts == MAX_ATTEMPTS)
    ensures forall e :: e in rows && !rows[e].status.Pending? ==> Final(rows, rounds)[e] == rows[e]
    decreases |rounds|
  {
    if rounds == [] {
      forall e | e in rows ensures !rows[e].status.Pending? {
        assert e in Free(rows, {}) <==> rows[e].status.Pending?;
      }
    } else {
      var r := rounds[0];
      BatchKeepsAttempts(rows, r.batch, r.outcomes);
      DrainedOutcome(ApplyBatch(rows, r.batch, r.outcomes), rounds[1..]);
    }
  }
}
