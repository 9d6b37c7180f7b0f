/** The claims service: filing, the status transitions with a status read before the
    row lock, the status history and the outbox rows written with it. */
module Claims {
  import opened Events

  datatype Claim = Claim(policyId: Id, status: ClaimStatus, approvedAmount: Option<int>)

  // A ClaimStatusHistory row; the empty from_status is None.
  datatype Entry = Entry(from: Option<ClaimStatus>, to: ClaimStatus)

  // History of the model: a committed transition, with the status its request had read.
  datatype Change = Change(seen: ClaimStatus, to: ClaimStatus, amount: Option<int>)

  datatype Error = InvalidClaimStatus | AmountRequired | PolicyRefused | NumberTaken

  // Claims are numbered in filing order; history[c] and changes[c] belong to claim c.
  datatype Db = Db(
    claims: seq<Claim>,
    history: seq<seq<Entry>>,
    changes: seq<seq<Change>>,
    outbox: seq<Emission>)

  function ValidTransitions(status: ClaimStatus): seq<ClaimStatus> {
    match status
    case Filed => [UnderReview]
    case UnderReview => [Approved, Rejected]
    case Approved => [Resolved]
    case Rejected => [Resolved]
    case Resolved => []
  }

  // How far along the machine a status is.
  function Rank(status: ClaimStatus): nat {
    match status
    case Filed => 0
    case UnderReview => 1
    case Approved => 2
    case Rejected => 2
    case Resolved => 3
  }

  // ---------------------------------------------------------------- event builders

  function BaseData(c: Id, claim: Claim): EventData {
    EventData(Some(c), Some(claim.policyId), Some(claim.status), None, None, None, None, None, map[])
  }

  function BuildFiled(e: EventId, c: Id, claim: Claim): Payload {
    Payload(e, ClaimFiled, ClaimsService, BaseData(c, claim))
  }

  function BuildStatusChanged(e: EventId, c: Id, claim: Claim, from: ClaimStatus, to: ClaimStatus): Payload {
    Payload(e, ClaimStatusChanged, ClaimsService,
            BaseData(c, claim).(fromStatus := Some(from), toStatus := Some(to),
                                approvedAmount := claim.approvedAmount))
  }

  function BuildResolved(e: EventId, c: Id, claim: Claim): Payload {
    Payload(e, ClaimResolved, ClaimsService, BaseData(c, claim).(approvedAmount := claim.approvedAmount))
  }

  function Emit(c: Id, p: Payload): Emission {
    Emission(p.eventType, c, Some(c), p)
  }

  // ---------------------------------------------------------------- what one call does

  /** The checks made before the lock, on the status the caller had read. */
  function Refusal(seen: ClaimStatus, to: ClaimStatus, amount: Option<int>): Option<Error> {
    if to !in ValidTransitions(seen) then Some(InvalidClaimStatus)
    else if to.Approved? && amount.None? then Some(AmountRequired)
    else None
  }

  function FiledClaim(db: Db, policyId: Id, e: EventId): Db {
    var c, claim := |db.claims|, Claim(policyId, Filed, None);
    Db(db.claims + [claim], db.history + [[Entry(None, Filed)]], db.changes + [[]],
       db.outbox + [Emit(c, BuildFiled(e, c, claim))])
  }

  // The locked write, which does not look at the stored status.
  function Moved(claim: Claim, ch: Change): Claim {
    claim.(status := ch.to, approvedAmount := if ch.to.Approved? then ch.amount else claim.approvedAmount)
  }

  function EventsOf(c: Id, claim: Claim, ch: Change, e: EventId, e': EventId): seq<Emission> {
    [Emit(c, BuildStatusChanged(e, c, claim, ch.seen, ch.to))]
    + (if ch.to.Resolved? then [Emit(c, BuildResolved(e', c, claim))] else [])
  }

  function Transitioned(db: Db, c: Id, ch: Change, e: EventId, e': EventId): Db
    requires c < |db.claims| == |db.history| == |db.changes|
  {
    var claim := Moved(db.claims[c], ch);
    Db(db.claims[c := claim],
       db.history[c := db.history[c] + [Entry(Some(ch.seen), ch.to)]],
       db.changes[c := db.changes[c] + [ch]],
       db.outbox + EventsOf(c, claim, ch, e, e'))
  }

  class ClaimService {
    var claims: seq<Claim>
    var history: seq<seq<Entry>>
    var outbox: seq<Emission>
    var numbers: seq<string>       // claim_number of each claim
    ghost var changes: seq<seq<Change>>

    ghost function Contents(): Db
      reads this
    {
      Db(claims, history, changes, outbox)
    }

    ghost predicate Valid()
      reads this
    {
      |claims| == |history| == |changes| == |numbers|
    }

    constructor ()
      ensures Valid() && Contents() == Db([], [], [], [])
    {
      claims, history, outbox, changes, numbers := [], [], [], [], [];
    }

    /** `verified` is the answer of the policy service, `number` the generated claim number; the unique constraint
        refuses one that is taken. */
    method FileClaim(policyId: Id, verified: bool, number: string, e: EventId) returns (r: Result<Id, Error>)
      requires Valid()
      modifies this
      ensures Valid()
      ensures r == if !verified then Err(PolicyRefused)
                   else if number in old(numbers) then Err(NumberTaken)
                   else Ok(|old(claims)|)
      ensures r.Ok? ==> Contents() == FiledClaim(old(Contents()), policyId, e) && numbers == old(numbers) + [number]
      ensures r.Ok? ==>
                var c := |old(claims)|;
                && claims == old(claims) + [Claim(policyId, Filed, None)]
                && history == old(history) + [[Entry(None, Filed)]]
                && outbox == old(outbox) + [Emission(ClaimFiled, c, Some(c),
                               Payload(e, ClaimFiled, ClaimsService,
                                 EventData(Some(c), Some(policyId), Some(Filed), None, None, None, None, None, map[])))]
      ensures r.Err? ==> Contents() == old(Contents()) && numbers == old(numbers)
    {
      if !verified {
        return Err(PolicyRefused);
      }
      if number in numbers {
        return Err(NumberTaken);
      }
      var c, claim := |claims|, Claim(policyId, Filed, None);
      claims, numbers := claims + [claim], numbers + [number];
      history := history + [[Entry(None, Filed)]];
      outbox := outbox + [Emit(c, BuildFiled(e, c, claim))];
      changes := changes + [[]];
      return Ok(c);
    }

    /** `seen` is the status of the object the caller passed, read some time before. */
    method TransitionStatus(c: Id, seen: ClaimStatus, to: ClaimStatus, amount: Option<int>, e: EventId, e': EventId)
      returns (r: Result<Claim, Error>)
      requires Valid() && c < |claims|
      modifies this
      ensures Valid() && numbers == old(numbers)
      ensures match Refusal(seen, to, amount)
              case Some(err) => r == Err(err) && Contents() == old(Contents())
              case None =>
                && Contents() == Transitioned(old(Contents()), c, Change(seen, to, amount), e, e')
                && r == Ok(claims[c])
      ensures r.Ok? <==>
                && (|| (seen == Filed && to == UnderReview)
                    || (seen == UnderReview && (to == Rejected || (to == Approved && amount.Some?)))
                    || (seen == Approved && to == Resolved)
                    || (seen == Rejected && to == Resolved))
      ensures r == Err(AmountRequired) <==> seen == UnderReview && to == Approved && amount == None
      ensures r.Ok? ==>
                var before := old(claims)[c];
                var paid := if to == Approved then amount else before.approvedAmount;
                var data := EventData(Some(c), Some(before.policyId), Some(to), Some(seen), Some(to), paid,
                                      None, None, map[]);
                && claims == old(claims)[c := Claim(before.policyId, to, paid)]
                && history == old(history)[c := old(history)[c] + [Entry(Some(seen), to)]]
                && outbox == old(outbox)
                   + [Emission(ClaimStatusChanged, c, Some(c), Payload(e, ClaimStatusChanged, ClaimsService, data))]
                   + (if to != Resolved then []
                      else [Emission(ClaimResolved, c, Some(c),
                                     Payload(e', ClaimResolved, ClaimsService,
                                             data.(fromStatus := None, toStatus := None)))])
    {
      if to !in ValidTransitions(seen) {
        return Err(InvalidClaimStatus);
      }
      if to.Approved? && amount.None? {
        return Err(AmountRequired);
      }
      var claim := claims[c];
      claim := claim.(status := to);
      if to.Approved? && amount.Some? {
        claim := claim.(approvedAmount := amount);
      }
      claims := claims[c := claim];
      history := history[c := history[c] + [Entry(Some(seen), to)]];
      outbox := outbox + [Emit(c, BuildStatusChanged(e, c, claim, seen, to))];
      if to.Resolved? {
        outbox := outbox + [Emit(c, BuildResolved(e', c, claim))];
      }
      changes := changes[c := changes[c] + [Change(seen, to, amount)]];
      return Ok(claim);
    }
  }

  // ---------------------------------------------------------------- interleaved requests

  // A request holds the claim id and the status it has read.
  datatype State = State(db: Db, requests: map<nat, (Id, ClaimStatus)>)

  datatype Action =
    | File(policyId: Id, e: EventId)
    | Read(req: nat, c: Id)
    | Write(req: nat, to: ClaimStatus, amount: Option<int>, e: EventId, e': EventId)

  predicate Shaped(db: Db) {
    |db.claims| == |db.history| == |db.changes|
  }

  predicate Enabled(s: State, a: Action) {
    match a
    case File(_, _) => true
    case Read(_, c) => c < |s.db.claims|
    case Write(req, to, amount, _, _) =>
      && req in s.requests && s.requests[req].0 < |s.db.claims| && Shaped(s.db)
      && Refusal(s.requests[req].1, to, amount).None?
  }

  function Next(s: State, a: Action): State {
    if !Enabled(s, a) then s
    else
      match a
      case File(policyId, e) => s.(db := FiledClaim(s.db, policyId, e))
      case Read(req, c) => s.(requests := s.requests[req := (c, s.db.claims[c].status)])
      case Write(req, to, amount, e, e') =>
        s.(db := Transitioned(s.db, s.requests[req].0, Change(s.requests[req].1, to, amount), e, e'))
  }

  function Run(s: State, actions: seq<Action>): State
    decreases |actions|
  {
    if actions == [] then s
    else Next(Run(s, actions[..|actions| - 1]), actions[|actions| - 1])
  }

  const EMPTY := State(Db([], [], [], []), map[])

  // ---------------------------------------------------------------- what every interleaving keeps

  function HistoryOf(changes: seq<Change>): seq<Entry> {
    [Entry(None, Filed)] + seq(|changes|, i requires 0 <= i < |changes| => Entry(Some(changes[i].seen), changes[i].to))
  }

  // The amount of the last approval.
  function LastApproval(changes: seq<Change>): Option<int> {
    if changes == [] then None
    else if changes[|changes| - 1].to.Approved? then changes[|changes| - 1].amount
    else LastApproval(changes[..|changes| - 1])
  }

  // The claim had this status at some time while it had made these transitions.
  predicate Held(changes: seq<Change>, status: ClaimStatus) {
    status == Filed || exists j :: 0 <= j < |changes| && changes[j].to == status
  }

  predicate LegalStep(before: seq<Change>, ch: Change) {
    && ch.to in ValidTransitions(ch.seen)
    && Held(before, ch.seen)
    && (ch.to.Approved? ==> ch.amount.Some?)
  }

  /** Every transition is an edge of VALID_TRANSITIONS from a status the claim held before it. */
  predicate LegalChanges(changes: seq<Change>)
    decreases |changes|
  {
    changes != [] ==>
      var n := |changes| - 1;
      LegalChanges(changes[..n]) && LegalStep(changes[..n], changes[n])
  }

  predicate ClaimAgrees(claim: Claim, history: seq<Entry>, changes: seq<Change>) {
    && history == HistoryOf(changes)
    && claim.status == history[|history| - 1].to
    && claim.approvedAmount == LastApproval(changes)
    && LegalChanges(changes)
  }

  // Event ids are fresh values; the rest of an emission is determined.
  function Erased(em: Emission): Emission {
    em.(payload := em.payload.(eventId := 0))
  }

  function OutboxOf(outbox: seq<Emission>, c: Id): seq<Emission> {
    if outbox == [] then []
    else
      var n := |outbox| - 1;
      OutboxOf(outbox[..n], c) + (if outbox[n].aggregateId == c then [Erased(outbox[n])] else [])
  }

  /** The outbox rows a claim should have, read off its transitions: one filed, one status_changed for each
      transition, and a resolved right after each transition to RESOLVED. */
  function ExpectedOutbox(c: Id, policyId: Id, changes: seq<Change>): seq<Emission> {
    if changes == [] then [Emit(c, BuildFiled(0, c, Claim(policyId, Filed, None)))]
    else
      var ch := changes[|changes| - 1];
      ExpectedOutbox(c, policyId, changes[..|changes| - 1])
      + EventsOf(c, Claim(policyId, ch.to, LastApproval(changes)), ch, 0, 0)
  }

  predicate Agrees(db: Db) {
    && Shaped(db)
    && (forall c :: 0 <= c < |db.claims| ==> ClaimAgrees(db.claims[c], db.history[c], db.changes[c]))
    && (forall c :: 0 <= c < |db.claims| ==>
          OutboxOf(db.outbox, c) == ExpectedOutbox(c, db.claims[c].policyId, db.changes[c]))
    && (forall i :: 0 <= i < |db.outbox| ==> db.outbox[i].aggregateId < |db.claims|)
  }

  predicate RequestsHeld(s: State) {
    forall req :: req in s.requests ==>
      && s.requests[req].0 < |s.db.changes|
      && Held(s.db.changes[s.requests[req].0], s.requests[req].1)
  }

  lemma {:induction false} OutboxOfConcat(a: seq<Emission>, b: seq<Emission>, c: Id)
    ensures OutboxOf(a + b, c) == OutboxOf(a, c) + OutboxOf(b, c)
    decreases |b|
  {
    if b == [] {
      assert a + b == a;
    } else {
      var n := |b| - 1;
      OutboxOfConcat(a, b[..n], c);
      assert (a + b)[..|a + b| - 1] == a + b[..n];
    }
  }

  lemma {:induction false} ForeignOutbox(outbox: seq<Emission>, c: Id)
    requires forall i :: 0 <= i < |outbox| ==> outbox[i].aggregateId != c
    ensures OutboxOf(outbox, c) == []
  {
    if outbox != [] {
      ForeignOutbox(outbox[..|outbox| - 1], c);
    }
  }

  lemma OwnEvents(c: Id, claim: Claim, ch: Change, e: EventId, e': EventId)
    ensures OutboxOf(EventsOf(c, claim, ch, e, e'), c) == EventsOf(c, claim, ch, 0, 0)
  {
    var first := Emit(c, BuildStatusChanged(e, c, claim, ch.seen, ch.to));
    assert OutboxOf([first], c) == OutboxOf([], c) + [Erased(first)];
    if ch.to.Resolved? {
      var second := Emit(c, BuildResolved(e', c, claim));
      assert [first, second][..1] == [first];
      assert OutboxOf([first, second], c) == OutboxOf([first], c) + [Erased(second)];
    }
  }

  lemma HeldStays(changes: seq<Change>, ch: Change, status: ClaimStatus)
    requires Held(changes, status)
    ensures Held(changes + [ch], status)
  {
    if status != Filed {
      var j :| 0 <= j < |changes| && changes[j].to == status;
      assert (changes + [ch])[j].to == status;
    }
  }

  lemma ClaimKept(claim: Claim, history: seq<Entry>, changes: seq<Change>, ch: Change)
    requires ClaimAgrees(claim, history, changes) && Held(changes, ch.seen)
    requires Refusal(ch.seen, ch.to, ch.amount).None?
    ensures ClaimAgrees(Moved(claim, ch), history + [Entry(Some(ch.seen), ch.to)], changes + [ch])
  {
    var longer := changes + [ch];
    assert longer[..|changes|] == changes;
    assert history + [Entry(Some(ch.seen), ch.to)] == HistoryOf(longer);
  }

  lemma WriteAgrees(db: Db, c: Id, ch: Change, e: EventId, e': EventId)
    requires Agrees(db) && c < |db.claims| && Held(db.changes[c], ch.seen)
    requires Refusal(ch.seen, ch.to, ch.amount).None?
    ensures Agrees(Transitioned(db, c, ch, e, e'))
  {
    var after := Transitioned(db, c, ch, e, e');
    assert ClaimAgrees(db.claims[c], db.history[c], db.changes[c]);
    ClaimKept(db.claims[c], db.history[c], db.changes[c], ch);
    forall k | 0 <= k < |after.claims| ensures ClaimAgrees(after.claims[k], after.history[k], after.changes[k]) {
      assert k != c ==> after.claims[k] == db.claims[k];
    }
    forall k | 0 <= k < |after.claims|
      ensures OutboxOf(after.outbox, k) == ExpectedOutbox(k, after.claims[k].policyId, after.changes[k])
    {
      if k == c {
        OwnOutboxGrows(db, c, ch, e, e');
      } else {
        ForeignOutboxStays(db, c, ch, e, e', k);
      }
    }
  }

  lemma ForeignOutboxStays(db: Db, c: Id, ch: Change, e: EventId, e': EventId, k: Id)
    requires Shaped(db) && c < |db.claims| && k != c
    ensures OutboxOf(Transitioned(db, c, ch, e, e').outbox, k) == OutboxOf(db.outbox, k)
  {
    var events := EventsOf(c, Moved(db.claims[c], ch), ch, e, e');
    OutboxOfConcat(db.outbox, events, k);
    ForeignOutbox(events, k);
  }

  lemma OwnOutboxGrows(db: Db, c: Id, ch: Change, e: EventId, e': EventId)
    requires Shaped(db) && c < |db.claims|
    requires db.claims[c].approvedAmount == LastApproval(db.changes[c])
    requires OutboxOf(db.outbox, c) == ExpectedOutbox(c, db.claims[c].policyId, db.changes[c])
    ensures var after := Transitioned(db, c, ch, e, e');
            OutboxOf(after.outbox, c) == ExpectedOutbox(c, db.claims[c].policyId, after.changes[c])
  {
    var claim := Moved(db.claims[c], ch);
    var longer := db.changes[c] + [ch];
    assert longer[..|db.changes[c]|] == db.changes[c];
    OutboxOfConcat(db.outbox, EventsOf(c, claim, ch, e, e'), c);
    OwnEvents(c, claim, ch, e, e');
    assert claim == Claim(claim.policyId, ch.to, LastApproval(longer));
  }

  lemma FileAgrees(db: Db, policyId: Id, e: EventId)
    requires Agrees(db)
    ensures Agrees(FiledClaim(db, policyId, e))
  {
    var after := FiledClaim(db, policyId, e);
    var c := |db.claims|;
    var filed := Emit(c, BuildFiled(e, c, after.claims[c]));
    assert LegalChanges([]);
    assert HistoryOf([]) == [Entry(None, Filed)];
    forall k | 0 <= k < |after.claims|
      ensures OutboxOf(after.outbox, k) == ExpectedOutbox(k, after.claims[k].policyId, after.changes[k])
    {
      OutboxOfConcat(db.outbox, [filed], k);
      assert OutboxOf([filed], k) == OutboxOf([], k) + (if k == c then [Erased(filed)] else []);
      if k == c {
        ForeignOutbox(db.outbox, c);
      }
    }
  }

  lemma StepAgrees(s: State, a: Action)
    requires Agrees(s.db) && RequestsHeld(s)
    ensures Agrees(Next(s, a).db) && RequestsHeld(Next(s, a))
  {
    if Enabled(s, a) {
      match a
      case File(policyId, e) => FileAgrees(s.db, policyId, e);
      case Read(req, c) => LastIsHeld(s.db.claims[c], s.db.history[c], s.db.changes[c]);
      case Write(req, to, amount, e, e') =>
        var (c, seen) := s.requests[req];
        WriteAgrees(s.db, c, Change(seen, to, amount), e, e');
        forall q | q in s.requests && s.requests[q].0 == c
          ensures Held(s.db.changes[c] + [Change(seen, to, amount)], s.requests[q].1)
        {
          HeldStays(s.db.changes[c], Change(seen, to, amount), s.requests[q].1);
        }
    }
  }

  lemma LastIsHeld(claim: Claim, history: seq<Entry>, changes: seq<Change>)
    requires ClaimAgrees(claim, history, changes)
    ensures Held(changes, claim.status)
  {
    if changes != [] {
      assert changes[|changes| - 1].to == claim.status;
    }
  }

  /** Under every interleaving of stale reads and locked writes: each transition is an edge of VALID_TRANSITIONS from
      a status the claim held before it, history and status and approved amount follow from the committed
      transitions, and the claim's outbox rows are exactly their image. */
  lemma {:induction false} EveryInterleavingAgrees(actions: seq<Action>)
    ensures Agrees(Run(EMPTY, actions).db) && RequestsHeld(Run(EMPTY, actions))
    decreases |actions|
  {
    if actions != [] {
      EveryInterleavingAgrees(actions[..|actions| - 1]);
      StepAgrees(Run(EMPTY, actions[..|actions| - 1]), actions[|actions| - 1]);
    }
  }

  predicate Reached(history: seq<Entry>, status: ClaimStatus) {
    exists i :: 0 <= i < |history| && history[i].to == status
  }

  lemma ReachedSnoc(history: seq<Entry>, entry: Entry, status: ClaimStatus)
    ensures Reached(history + [entry], status) <==> Reached(history, status) || entry.to == status
  {
    var longer := history + [entry];
    forall i | 0 <= i < |history| ensures longer[i] == history[i] {}
    assert longer[|history|] == entry;
  }

  lemma HistoryOfSnoc(changes: seq<Change>)
    requires changes != []
    ensures var n := |changes| - 1;
            HistoryOf(changes) == HistoryOf(changes[..n]) + [Entry(Some(changes[n].seen), changes[n].to)]
  {}

  /** The edges of the state machine are exactly the steps up by one rank: none enters FILED or leaves RESOLVED, and
      every other status has a way on. */
  lemma Edge(seen: ClaimStatus, to: ClaimStatus)
    ensures to in ValidTransitions(seen) <==> Rank(to) == Rank(seen) + 1
    ensures to in ValidTransitions(seen) ==> !to.Filed? && !seen.Resolved?
    ensures !seen.Resolved? ==> exists on :: on in ValidTransitions(seen)
  {
    assert UnderReview in ValidTransitions(Filed) && Rejected in ValidTransitions(UnderReview);
    assert Resolved in ValidTransitions(Approved) && Resolved in ValidTransitions(Rejected);
  }

  lemma {:induction false} LegalAt(changes: seq<Change>, i: nat)
    requires LegalChanges(changes) && i < |changes|
    ensures LegalStep(changes[..i], changes[i])
    decreases |changes|
  {
    var n := |changes| - 1;
    if i < n {
      LegalAt(changes[..n], i);
      assert changes[..n][..i] == changes[..i];
    }
  }

  /** The amount is set exactly when some history entry is an approval. */
  lemma {:induction false} AmountIffApproved(changes: seq<Change>)
    requires LegalChanges(changes)
    ensures LastApproval(changes).Some? <==> Reached(HistoryOf(changes), Approved)
    decreases |changes|
  {
    if changes == [] {
      assert HistoryOf(changes) == [Entry(None, Filed)];
    } else {
      var n := |changes| - 1;
      AmountIffApproved(changes[..n]);
      HistoryOfSnoc(changes);
      ReachedSnoc(HistoryOf(changes[..n]), Entry(Some(changes[n].seen), changes[n].to), Approved);
    }
  }

  function CountTopic(outbox: seq<Emission>, t: Topic): nat {
    if outbox == [] then 0
    else CountTopic(outbox[..|outbox| - 1], t) + (if outbox[|outbox| - 1].topic == t then 1 else 0)
  }

  function CountTo(history: seq<Entry>, status: ClaimStatus): nat {
    if history == [] then 0
    else CountTo(history[..|history| - 1], status) + (if history[|history| - 1].to == status then 1 else 0)
  }

  lemma {:induction false} CountTopicConcat(a: seq<Emission>, b: seq<Emission>, t: Topic)
    ensures CountTopic(a + b, t) == CountTopic(a, t) + CountTopic(b, t)
    decreases |b|
  {
    if b == [] {
      assert a + b == a;
    } else {
      CountTopicConcat(a, b[..|b| - 1], t);
      assert (a + b)[..|a + b| - 1] == a + b[..|b| - 1];
    }
  }

  lemma EventsCount(c: Id, claim: Claim, ch: Change, t: Topic)
    ensures CountTopic(EventsOf(c, claim, ch, 0, 0), t)
            == (if t.ClaimStatusChanged? then 1 else 0) + (if t.ClaimResolved? && ch.to.Resolved? then 1 else 0)
  {
    var first := [Emit(c, BuildStatusChanged(0, c, claim, ch.seen, ch.to))];
    assert first[..0] == [];
    assert CountTopic(first, t) == CountTopic([], t) + (if t.ClaimStatusChanged? then 1 else 0);
    if ch.to.Resolved? {
      var both := first + [Emit(c, BuildResolved(0, c, claim))];
      assert both[..1] == first;
    }
  }

  /** Counted by topic: one claim.filed, one claim.status_changed for each transition, one claim.resolved for each
      RESOLVED entry of the history. */
  lemma {:induction false} OutboxCounts(c: Id, policyId: Id, changes: seq<Change>)
    ensures var out := ExpectedOutbox(c, policyId, changes);
            && CountTopic(out, ClaimFiled) == 1
            && CountTopic(out, ClaimStatusChanged) == |changes|
            && CountTopic(out, ClaimResolved) == CountTo(HistoryOf(changes), Resolved)
    decreases |changes|
  {
    if changes == [] {
      var filed := Emit(c, BuildFiled(0, c, Claim(policyId, Filed, None)));
      assert [filed][..0] == [];
      assert HistoryOf([]) == [Entry(None, Filed)];
      assert [Entry(None, Filed)][..0] == [];
    } else {
      var n := |changes| - 1;
      OutboxCounts(c, policyId, changes[..n]);
      HistoryOfSnoc(changes);
      CountToSnoc(HistoryOf(changes[..n]), Entry(Some(changes[n].seen), changes[n].to), Resolved);
      TopicsAdded(c, policyId, changes, ClaimFiled);
      TopicsAdded(c, policyId, changes, ClaimStatusChanged);
      TopicsAdded(c, policyId, changes, ClaimResolved);
    }
  }

  lemma TopicsAdded(c: Id, policyId: Id, changes: seq<Change>, t: Topic)
    requires changes != []
    ensures var n := |changes| - 1;
            CountTopic(ExpectedOutbox(c, policyId, changes), t)
            == CountTopic(ExpectedOutbox(c, policyId, changes[..n]), t)
               + (if t.ClaimStatusChanged? then 1 else 0)
               + (if t.ClaimResolved? && changes[n].to.Resolved? then 1 else 0)
  {
    var n := |changes| - 1;
    var claim := Claim(policyId, changes[n].to, LastApproval(changes));
    CountTopicConcat(ExpectedOutbox(c, policyId, changes[..n]), EventsOf(c, claim, changes[n], 0, 0), t);
    EventsCount(c, claim, changes[n], t);
  }

  lemma CountToSnoc(history: seq<Entry>, entry: Entry, status: ClaimStatus)
    ensures CountTo(history + [entry], status) == CountTo(history, status) + (if entry.to == status then 1 else 0)
  {
    assert (history + [entry])[..|history|] == history;
  }

  // ---------------------------------------------------------------- transitions that do not overlap

  /** Each history entry starts where the one before it ended. */
  predicate Connected(history: seq<Entry>) {
    forall i :: 0 < i < |history| ==> history[i].from == Some(history[i - 1].to)
  }

  predicate AllConnected(db: Db) {
    forall c :: 0 <= c < |db.history| ==> Connected(db.history[c])
  }

  /** The re-check the code does not make: the status read is still the stored one when the lock is held. */
  predicate Fresh(s: State, a: Action) {
    a.Write? && Enabled(s, a) ==> s.db.claims[s.requests[a.req].0].status == s.requests[a.req].1
  }

  predicate FreshRun(s: State, actions: seq<Action>)
    decreases |actions|
  {
    actions != [] ==>
      var n := |actions| - 1;
      FreshRun(s, actions[..n]) && Fresh(Run(s, actions[..n]), actions[n])
  }

  lemma ConnectedStep(s: State, a: Action)
    requires Agrees(s.db) && RequestsHeld(s)
    ensures AllConnected(Next(s, a).db) <==> AllConnected(s.db) && Fresh(s, a)
  {
    var t := Next(s, a);
    if Enabled(s, a) {
      match a
      case File(_, _) => ConnectedFile(s.db, t.db);
      case Read(_, _) =>
      case Write(req, to, amount, _, _) =>
        var (c, seen) := s.requests[req];
        assert ClaimAgrees(s.db.claims[c], s.db.history[c], s.db.changes[c]);
        ConnectedWrite(s.db, t.db, c, Entry(Some(seen), to));
    }
  }

  lemma ConnectedFile(db: Db, after: Db)
    requires after.history == db.history + [[Entry(None, Filed)]]
    ensures AllConnected(after) <==> AllConnected(db)
  {
    forall c | 0 <= c < |db.history| ensures after.history[c] == db.history[c] {}
  }

  lemma ConnectedWrite(db: Db, after: Db, c: Id, entry: Entry)
    requires c < |db.history| && db.history[c] != []
    requires after.history == db.history[c := db.history[c] + [entry]]
    ensures AllConnected(after) <==> AllConnected(db) && entry.from == Some(db.history[c][|db.history[c]| - 1].to)
  {
    ConnectedSnoc(db.history[c], entry);
    forall k | 0 <= k < |db.history| && k != c ensures after.history[k] == db.history[k] {}
    assert after.history[c] == db.history[c] + [entry];
  }

  lemma ConnectedSnoc(history: seq<Entry>, entry: Entry)
    requires history != []
    ensures Connected(history + [entry]) <==>
            Connected(history) && entry.from == Some(history[|history| - 1].to)
  {
    var longer := history + [entry];
    if Connected(longer) {
      assert longer[|history|].from == Some(longer[|history| - 1].to);
      forall i | 0 < i < |history| ensures history[i].from == Some(history[i - 1].to) {
        assert longer[i] == history[i] && longer[i - 1] == history[i - 1];
      }
    }
  }

  /** A run leaves every history a connected path if and only if every write found the status its request had read. */
  lemma {:induction false} ConnectedIffFresh(actions: seq<Action>)
    ensures AllConnected(Run(EMPTY, actions).db) <==> FreshRun(EMPTY, actions)
    decreases |actions|
  {
    if actions != [] {
      var front, last := actions[..|actions| - 1], actions[|actions| - 1];
      ConnectedIffFresh(front);
      EveryInterleavingAgrees(front);
      ConnectedStep(Run(EMPTY, front), last);
    }
  }

  lemma {:induction false} RankIsPosition(changes: seq<Change>, i: nat)
    requires LegalChanges(changes) && Connected(HistoryOf(changes)) && i < |HistoryOf(changes)|
    ensures Rank(HistoryOf(changes)[i].to) == i
  {
    if i > 0 {
      RankIsPosition(changes, i - 1);
      LegalAt(changes, i - 1);
    }
  }

  /** A connected history has at most four entries, RESOLVED ends it, it cannot hold both an approval and a
      rejection, and the claim has at most one claim.resolved row. */
  lemma ConnectedHistory(changes: seq<Change>)
    requires LegalChanges(changes) && Connected(HistoryOf(changes))
    ensures var h := HistoryOf(changes);
            && |h| <= 4
            && (forall i :: 0 <= i < |h| && h[i].to == Resolved ==> i == |h| - 1)
            && !(exists i, j :: 0 <= i < |h| && 0 <= j < |h| && h[i].to == Approved && h[j].to == Rejected)
            && CountTo(h, Resolved) <= 1
  {
    var h := HistoryOf(changes);
    forall i | 0 <= i < |h| ensures Rank(h[i].to) == i {
      RankIsPosition(changes, i);
    }
    assert Rank(h[|h| - 1].to) == |h| - 1;
    ResolvedOnlyLast(h[..|h| - 1]);
  }

  lemma {:induction false} ResolvedOnlyLast(h: seq<Entry>)
    requires forall i :: 0 <= i < |h| ==> h[i].to != Resolved
    ensures CountTo(h, Resolved) == 0
  {
    if h != [] {
      ResolvedOnlyLast(h[..|h| - 1]);
    }
  }

  /** Without the re-check a claim can be approved, resolved and then rejected: two reviewers read UNDER_REVIEW,
      and the second writes after the first one's claim has been resolved. */
  lemma OverlapBreaksTheMachine() returns (actions: seq<Action>)
    ensures var db := Run(EMPTY, actions).db;
            && |db.claims| == |db.history| == 1
            && db.claims[0].status == Rejected
            && db.history[0] == [Entry(None, Filed), Entry(Some(Filed), UnderReview),
                                 Entry(Some(UnderReview), Approved), Entry(Some(Approved), Resolved),
                                 Entry(Some(UnderReview), Rejected)]
  {
    actions := Grow([], File(7, 1));
    var claim, h := Claim(7, Filed, None), [Entry(None, Filed)];
    actions := GrowRead(actions, 0, claim, h);
    actions, claim, h := GrowWrite(actions, 0, Filed, UnderReview, None, claim, h);
    actions := GrowRead(actions, 1, claim, h);
    actions := GrowRead(actions, 2, claim, h);
    actions, claim, h := GrowWrite(actions, 1, UnderReview, Approved, Some(100), claim, h);
    actions := GrowRead(actions, 3, claim, h);
    actions, claim, h := GrowWrite(actions, 3, Approved, Resolved, None, claim, h);
    actions, claim, h := GrowWrite(actions, 2, UnderReview, Rejected, None, claim, h);
  }

  lemma Grow(actions: seq<Action>, a: Action) returns (longer: seq<Action>)
    ensures longer == actions + [a] && Run(EMPTY, longer) == Next(Run(EMPTY, actions), a)
  {
    longer := actions + [a];
    assert longer[..|actions|] == actions;
  }

  predicate OneClaim(s: State, claim: Claim, h: seq<Entry>) {
    s.db.claims == [claim] && s.db.history == [h] && |s.db.changes| == 1
  }

  lemma GrowRead(actions: seq<Action>, req: nat, claim: Claim, h: seq<Entry>) returns (longer: seq<Action>)
    requires OneClaim(Run(EMPTY, actions), claim, h)
    ensures OneClaim(Run(EMPTY, longer), claim, h)
    ensures Run(EMPTY, longer).requests == Run(EMPTY, actions).requests[req := (0, claim.status)]
  {
    longer := Grow(actions, Read(req, 0));
  }

  lemma GrowWrite(actions: seq<Action>, req: nat, seen: ClaimStatus, to: ClaimStatus, amount: Option<int>,
                  claim: Claim, h: seq<Entry>)
    returns (longer: seq<Action>, claim': Claim, h': seq<Entry>)
    requires OneClaim(Run(EMPTY, actions), claim, h)
    requires req in Run(EMPTY, actions).requests && Run(EMPTY, actions).requests[req] == (0, seen)
    requires Refusal(seen, to, amount).None?
    ensures claim' == Moved(claim, Change(seen, to, amount)) && h' == h + [Entry(Some(seen), to)]
    ensures OneClaim(Run(EMPTY, longer), claim', h')
    ensures Run(EMPTY, longer).requests == Run(EMPTY, actions).requests
  {
    longer := Grow(actions, Write(req, to, amount, 0, 0));
    claim' := Moved(claim, Change(seen, to, amount));
    h' := h + [Entry(Some(seen), to)];
  }

  // ---------------------------------------------------------------- every claim can be resolved

  lemma {:induction false} RunConcat(s: State, before: seq<Action>, after: seq<Action>)
    ensures Run(s, before + after) == Run(Run(s, before), after)
    ensures FreshRun(s, before + after) <==> FreshRun(s, before) && FreshRun(Run(s, before), after)
    decreases |after|
  {
    if after == [] {
      assert before + after == before;
    } else {
      var n := |after| - 1;
      RunConcat(s, before, after[..n]);
      assert (before + after)[..|before + after| - 1] == before + after[..n];
    }
  }

  // A request reads the claim and writes, with nothing in between.
  lemma ReadThenWrite(s: State, c: Id, to: ClaimStatus, amount: Option<int>)
    requires Shaped(s.db) && c < |s.db.claims|
    requires Rank(to) == Rank(s.db.claims[c].status) + 1 && (to.Approved? ==> amount.Some?)
    ensures var actions := [Read(0, c), Write(0, to, amount, 0, 0)];
            var t := Run(s, actions);
            && FreshRun(s, actions)
            && Shaped(t.db) && |t.db.claims| == |s.db.claims| && t.db.claims[c].status == to
            && (forall k :: 0 <= k < |s.db.claims| && k != c ==> t.db.claims[k] == s.db.claims[k])
  {
    var read, write := Read(0, c), Write(0, to, amount, 0, 0);
    Edge(s.db.claims[c].status, to);
    assert [read, write][..1] == [read] && [read][..0] == [];
    assert Run(s, [read]) == Next(s, read) && FreshRun(s, [read]);
    assert Refusal(s.db.claims[c].status, to, amount).None?;
  }

  // The next status on the way to RESOLVED, through a rejection if there is a choice.
  function Onward(status: ClaimStatus): ClaimStatus
    requires !status.Resolved?
  {
    match status
    case Filed => UnderReview
    case UnderReview => Rejected
    case Approved => Resolved
    case Rejected => Resolved
  }

  /** From any state every claim can be brought to RESOLVED, from whatever status it has, by requests that overlap
      nothing and leave the other claims alone. */
  lemma {:induction false} CanBeResolved(s: State, c: Id) returns (actions: seq<Action>)
    requires Shaped(s.db) && c < |s.db.claims|
    ensures FreshRun(s, actions) && |actions| == 2 * (3 - Rank(s.db.claims[c].status))
    ensures var t := Run(s, actions);
            && |t.db.claims| == |s.db.claims| && t.db.claims[c].status == Resolved
            && (forall k :: 0 <= k < |s.db.claims| && k != c ==> t.db.claims[k] == s.db.claims[k])
    decreases 3 - Rank(s.db.claims[c].status)
  {
    var status := s.db.claims[c].status;
    if status == Resolved {
      actions := [];
    } else {
      var step := [Read(0, c), Write(0, Onward(status), None, 0, 0)];
      ReadThenWrite(s, c, Onward(status), None);
      var rest := CanBeResolved(Run(s, step), c);
      actions := step + rest;
      RunConcat(s, step, rest);
    }
  }
}
