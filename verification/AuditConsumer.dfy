/** The audit consumer: one Kafka partition read by one consumer, an append-only
    audit table with a unique event id, and the websocket broadcast. */
module AuditConsumer {
  import opened Events

  datatype EntityKind = ClaimEntity | PolicyEntity

  // entityId None stands for the all-zero UUID.
  datatype AuditRow = AuditRow(
    eventId: EventId, eventType: Topic, topic: Topic, kind: EntityKind, entityId: Option<Id>,
    service: Service, payload: Payload)

  datatype Part = Part(log: seq<Message>, position: nat, committed: nat)

  datatype Feed = Feed(audit: seq<AuditRow>, broadcasts: seq<EventId>)

  // How one call of the handler can end.
  datatype Outcome =
    | Completes
    | InsertRaises                   // any exception before the row is stored, other than an IntegrityError
    | Refused                        // an IntegrityError of a constraint other than the unique event id
    | BroadcastRaises(sent: bool)    // the row is stored, the group_send raises
    | CommitRaises                   // stored and broadcast, the offset commit raises

  // The handler ends with the message's row in the table.
  predicate Keeps(o: Outcome) {
    !o.InsertRaises? && !o.Refused?
  }

  function Eid(m: Message): EventId {
    m.payload.eventId
  }

  function ExtractEntity(p: Payload): (EntityKind, Option<Id>) {
    if p.data.claimId.Some? then (ClaimEntity, p.data.claimId)
    else if p.data.policyId.Some? then (PolicyEntity, p.data.policyId)
    else if p.eventType.OnClaims() then (ClaimEntity, None)
    else (PolicyEntity, None)
  }

  function AuditRowOf(m: Message): AuditRow {
    var (kind, id) := ExtractEntity(m.payload);
    AuditRow(Eid(m), m.payload.eventType, m.topic, kind, id, m.payload.service, m.payload)
  }

  predicate Stored(audit: seq<AuditRow>, e: EventId) {
    exists i :: 0 <= i < |audit| && audit[i].eventId == e
  }

  // The feed after process_event, which the unique constraint turns into a no-op for a known id.
  function Ingest(feed: Feed, m: Message, o: Outcome): Feed {
    if !Keeps(o) || Stored(feed.audit, Eid(m)) then feed
    else
      Feed(feed.audit + [AuditRowOf(m)],
           if o == BroadcastRaises(false) then feed.broadcasts else feed.broadcasts + [Eid(m)])
  }

  // The offset is committed on success and on any IntegrityError, to one past the message.
  function Advance(part: Part, o: Outcome): Part {
    var next := part.position + 1;
    if o.Completes? || o.Refused? then part.(position := next, committed := next)
    else part.(position := next)
  }

  datatype Broadcast = Sends | RaisesUnsent | RaisesSent

  // What goes wrong during one call of the handler.
  datatype Faults = Faults(
    malformed: bool,      // the bytes are not JSON
    insertRaises: bool,
    refused: bool,        // the insert violates a constraint other than the unique event id
    broadcast: Broadcast,
    commitRaises: bool)

  const NO_FAULT := Faults(false, false, false, Sends, false)

  // How the call ends; a commit that raises after an IntegrityError ends the consumer instead.
  function OutcomeOf(f: Faults, duplicate: bool): Outcome {
    if f.malformed || f.insertRaises then InsertRaises
    else if duplicate then Completes
    else if f.refused then Refused
    else
      match f.broadcast
      case RaisesUnsent => BroadcastRaises(false)
      case RaisesSent => BroadcastRaises(true)
      case Sends => if f.commitRaises then CommitRaises else Completes
  }

  class AuditKafkaConsumer {
    var part: Part
    var feed: Feed

    constructor (log: seq<Message>)
      ensures part == Part(log, 0, 0) && feed == Feed([], [])
    {
      part, feed := Part(log, 0, 0), Feed([], []);
    }

    /** AuditService.process_event: insert, then broadcast. */
    method ProcessEvent(m: Message, f: Faults) returns (integrityError: bool, raised: bool)
      requires !f.malformed
      modifies this`feed
      ensures feed == Ingest(old(feed), m, OutcomeOf(f, Stored(old(feed).audit, Eid(m))))
      ensures integrityError <==> !f.insertRaises && (Stored(old(feed).audit, m.payload.eventId) || f.refused)
      ensures raised <==> f.insertRaises || (!integrityError && f.broadcast != Sends)
      ensures f.insertRaises || integrityError ==> feed == old(feed)
      ensures !f.insertRaises && !integrityError ==>
                && |feed.audit| == |old(feed).audit| + 1
                && feed.audit[..|old(feed).audit|] == old(feed).audit
                && feed.broadcasts
                   == old(feed).broadcasts + (if f.broadcast == RaisesUnsent then [] else [m.payload.eventId])
                && var row := feed.audit[|old(feed).audit|];
                   && row.eventId == m.payload.eventId && row.eventType == m.payload.eventType
                   && row.topic == m.topic && row.service == m.payload.service && row.payload == m.payload
                   && match (m.payload.data.claimId, m.payload.data.policyId)
                      case (Some(c), _) => row.kind == ClaimEntity && row.entityId == Some(c)
                      case (None, Some(p)) => row.kind == PolicyEntity && row.entityId == Some(p)
                      case (None, None) =>
                        && row.entityId == None
                        && (row.kind == ClaimEntity <==>
                              m.payload.eventType in {ClaimFiled, ClaimStatusChanged, ClaimResolved})
    {
      integrityError, raised := false, f.insertRaises;
      if raised {
        return;
      }
      if Stored(feed.audit, Eid(m)) || f.refused {
        return true, false;
      }
      feed := feed.(audit := feed.audit + [AuditRowOf(m)]);
      if f.broadcast != RaisesUnsent {
        feed := feed.(broadcasts := feed.broadcasts + [Eid(m)]);
      }
      raised := f.broadcast != Sends;
    }

    /** Polls one message and handles it.  The consumer dies when the commit after an IntegrityError raises, outside any
        handler. */
    method PollAndHandle(f: Faults) returns (died: bool)
      requires part.position < |part.log|
      modifies this
      ensures var m := old(part).log[old(part).position];
              var duplicate := Stored(old(feed).audit, m.payload.eventId);
              var handled := !f.malformed && !f.insertRaises;
              && feed == Ingest(old(feed), m, OutcomeOf(f, duplicate))
              && (!died ==> part == Advance(old(part), OutcomeOf(f, duplicate)))
              && (died <==> handled && (duplicate || f.refused) && f.commitRaises)
              && part.log == old(part).log && part.position == old(part).position + 1
              && part.committed
                 == (if handled && !f.commitRaises && (duplicate || f.refused || f.broadcast == Sends)
                     then old(part).position + 1 else old(part).committed)
              && (if handled && !duplicate && !f.refused
                  then |feed.audit| == |old(feed).audit| + 1
                       && feed.audit[|old(feed).audit|].eventId == m.payload.eventId
                       && feed.audit[|old(feed).audit|].payload == m.payload
                  else feed == old(feed))
              && (f == NO_FAULT && !duplicate ==> feed.broadcasts == old(feed).broadcasts + [m.payload.eventId])
    {
      var m := part.log[part.position];
      part := part.(position := part.position + 1);
      died := false;
      if f.malformed {
        return;
      }
      var integrityError, raised := ProcessEvent(m, f);
      if raised {
        return;
      }
      if !f.commitRaises {
        part := part.(committed := part.position);
      } else {
        died := integrityError;
      }
    }
  }
}
