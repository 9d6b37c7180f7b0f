/** The policy service: creation, cancellation with its re-check under the lock, and
    updates written from an object read some time before. */
module Policies {
  import opened Events

  datatype Policy = Policy(status: PolicyStatus, cancellationReason: string, fields: map<Field, Value>)

  datatype Error = InvalidPolicyStatus | CustomerNotFound | NumberTaken

  datatype Coverage = Coverage(policy: Id, kind: string, amount: int)

  // A coverage as the request carries it.
  datatype CoverageData = CoverageData(kind: string, amount: int)

  datatype Db = Db(policies: seq<Policy>, outbox: seq<Emission>)

  // A key of the validated request data; only the updatable fields are looked for.
  datatype Key = Updatable(field: Field) | Other(name: string)

  const UPDATABLE_FIELDS: set<Field> := {PremiumAmount, StartDate, EndDate, Description, PolicyType}

  predicate Cancelable(status: PolicyStatus) {
    status.Active? || status.Suspended?
  }

  predicate UpdatableStatus(status: PolicyStatus) {
    status.Active? || status.Suspended?
  }

  // ---------------------------------------------------------------- event builders

  function Base(e: EventId, t: Topic, p: Id, policy: Policy): Payload {
    Payload(e, t, PolicyService,
            EventData(None, Some(p), None, None, None, None, Some(policy.status), None,
                      map f | f in policy.fields && f != Description :: policy.fields[f]))
  }

  function BuildCancelled(e: EventId, p: Id, policy: Policy): Payload {
    var payload := Base(e, PolicyCancelled, p, policy);
    payload.(data := payload.data.(cancellationReason := Some(policy.cancellationReason)))
  }

  function Emit(p: Id, payload: Payload): Emission {
    Emission(payload.eventType, p, Some(p), payload)
  }

  // ---------------------------------------------------------------- what one call does

  function CoveragesOf(p: Id, data: seq<CoverageData>): (rows: seq<Coverage>)
    ensures |rows| == |data|
    ensures forall i :: 0 <= i < |data| ==> rows[i] == Coverage(p, data[i].kind, data[i].amount)
  {
    seq(|data|, i requires 0 <= i < |data| => Coverage(p, data[i].kind, data[i].amount))
  }

  function Created(db: Db, fields: map<Field, Value>, e: EventId): Db {
    var p, policy := |db.policies|, Policy(Active, "", fields);
    Db(db.policies + [policy], db.outbox + [Emit(p, Base(e, PolicyCreated, p, policy))])
  }

  function CancelledPolicy(policy: Policy, reason: string): Policy {
    policy.(status := Cancelled, cancellationReason := reason)
  }

  function CancelledDb(db: Db, p: Id, reason: string, e: EventId): Db
    requires p < |db.policies|
  {
    var policy := CancelledPolicy(db.policies[p], reason);
    Db(db.policies[p := policy], db.outbox + [Emit(p, BuildCancelled(e, p, policy))])
  }

  // The updatable fields present in the request data.
  function Changes(data: map<Key, Value>): map<Field, Value> {
    map f: Field | Updatable(f) in data :: data[Updatable(f)]
  }

  function Patched(policy: Policy, data: map<Key, Value>): Policy {
    policy.(fields := policy.fields + Changes(data))
  }

  /** The save writes the changed columns to the stored row; the event is built from the caller's object. */
  function UpdatedDb(db: Db, p: Id, view: Policy, data: map<Key, Value>, e: EventId): Db
    requires p < |db.policies|
  {
    if Changes(data) == map[] then db
    else Db(db.policies[p := Patched(db.policies[p], data)],
            db.outbox + [Emit(p, Base(e, PolicyUpdated, p, Patched(view, data)))])
  }

  /** The emission announces this policy under this topic: its id as aggregate and key, a fresh event id, the status,
      the reason of a cancellation, and every column but the description. */
  predicate Announces(em: Emission, topic: Topic, p: Id, e: EventId, status: PolicyStatus, reason: Option<string>,
                      fields: map<Field, Value>)
  {
    var data := em.payload.data;
    && em.topic == topic && em.aggregateId == p && em.key == Some(p)
    && em.payload.eventId == e && em.payload.eventType == topic && em.payload.service == PolicyService
    && data.policyId == Some(p) && data.claimId == None && data.policyStatus == Some(status)
    && data.cancellationReason == reason
    && (forall f: Field :: f in data.policyFields <==> f in fields && f != Description)
    && (forall f: Field :: f in data.policyFields ==> data.policyFields[f] == fields[f])
  }

  /** The updatable fields of the request data laid over the columns. */
  predicate Overlays(after: map<Field, Value>, before: map<Field, Value>, data: map<Key, Value>) {
    forall f: Field ::
      if Updatable(f) in data then f in after && after[f] == data[Updatable(f)]
      else (f in after <==> f in before) && (f in before ==> after[f] == before[f])
  }

  lemma NothingChanges(data: map<Key, Value>)
    ensures Changes(data) == map[] <==> forall f: Field :: Updatable(f) !in data
  {
    if f: Field :| Updatable(f) in data {
      assert f in Changes(data);
    }
  }

  // The part of the request data already looked at.
  function Picked(data: map<Key, Value>, done: set<Field>): map<Field, Value> {
    map f: Field | f in done && Updatable(f) in data :: data[Updatable(f)]
  }

  lemma PickNext(fields: map<Field, Value>, data: map<Key, Value>, done: set<Field>, f: Field)
    ensures Updatable(f) in data ==>
              var v := data[Updatable(f)];
              && Picked(data, done + {f}) == Picked(data, done)[f := v]
              && (fields + Picked(data, done))[f := v] == fields + Picked(data, done + {f})
    ensures Updatable(f) !in data ==> Picked(data, done + {f}) == Picked(data, done)
  {}

  lemma AllPicked(data: map<Key, Value>)
    ensures Picked(data, UPDATABLE_FIELDS) == Changes(data)
  {
    AllUpdatable();
  }

  lemma AllUpdatable()
    ensures forall f: Field :: f in UPDATABLE_FIELDS
  {
    forall f: Field ensures f in UPDATABLE_FIELDS {
      match f
      case PremiumAmount =>
      case StartDate =>
      case EndDate =>
      case Description =>
      case PolicyType =>
    }
  }

  class Service {
    var policies: seq<Policy>
    var outbox: seq<Emission>
    var numbers: seq<string>       // policy_number of each policy
    var coverages: seq<Coverage>

    function Contents(): Db
      reads this
    {
      Db(policies, outbox)
    }

    constructor ()
      ensures Contents() == Db([], []) && numbers == [] && coverages == []
    {
      policies, outbox, numbers, coverages := [], [], [], [];
    }

    /** `number` is the generated policy number; the unique constraint refuses one that is taken. */
    method CreatePolicy(customerExists: bool, number: string, fields: map<Field, Value>, covers: seq<CoverageData>,
                        e: EventId)
      returns (r: Result<Id, Error>)
      modifies this
      ensures r == if !customerExists then Err(CustomerNotFound)
                   else if number in old(numbers) then Err(NumberTaken)
                   else Ok(|old(policies)|)
      ensures r.Ok? ==>
                && Contents() == Created(old(Contents()), fields, e)
                && numbers == old(numbers) + [number]
                && coverages == old(coverages) + CoveragesOf(|old(policies)|, covers)
                && policies == old(policies) + [Policy(Active, "", fields)]
                && |outbox| == |old(outbox)| + 1 && outbox[..|old(outbox)|] == old(outbox)
                && Announces(outbox[|old(outbox)|], PolicyCreated, |old(policies)|, e, Active, None, fields)
      ensures r.Err? ==> Contents() == old(Contents()) && numbers == old(numbers) && coverages == old(coverages)
    {
      if !customerExists {
        return Err(CustomerNotFound);
      }
      if number in numbers {
        return Err(NumberTaken);
      }
      var p, policy := |policies|, Policy(Active, "", fields);
      policies, numbers := policies + [policy], numbers + [number];
      coverages := coverages + CoveragesOf(p, covers);
      outbox := outbox + [Emit(p, Base(e, PolicyCreated, p, policy))];
      return Ok(p);
    }

    /** `seen` is the status of the caller's object; the stored status is checked again under the lock. */
    method CancelPolicy(p: Id, seen: PolicyStatus, reason: string, e: EventId) returns (r: Result<Policy, Error>)
      requires p < |policies|
      modifies this`policies, this`outbox
      ensures if Cancelable(seen) && Cancelable(old(policies)[p].status)
              then Contents() == CancelledDb(old(Contents()), p, reason, e) && r == Ok(policies[p])
              else Contents() == old(Contents()) && r == Err(InvalidPolicyStatus)
      ensures r.Ok? <==> seen in {Active, Suspended} && old(policies)[p].status in {Active, Suspended}
      ensures r.Ok? ==>
                var before := old(policies)[p];
                && policies == old(policies)[p := Policy(Cancelled, reason, before.fields)]
                && |outbox| == |old(outbox)| + 1 && outbox[..|old(outbox)|] == old(outbox)
                && Announces(outbox[|old(outbox)|], PolicyCancelled, p, e, Cancelled, Some(reason), before.fields)
    {
      if !Cancelable(seen) {
        return Err(InvalidPolicyStatus);
      }
      var policy := policies[p];
      if !Cancelable(policy.status) {
        return Err(InvalidPolicyStatus);
      }
      policy := policy.(status := Cancelled);
      policy := policy.(cancellationReason := reason);
      policies := policies[p := policy];
      outbox := outbox + [Emit(p, BuildCancelled(e, p, policy))];
      return Ok(policy);
    }

    /** `view` is the caller's object, read some time before; it comes back with the changes set. */
    method UpdatePolicy(p: Id, view: Policy, data: map<Key, Value>, e: EventId) returns (r: Result<Policy, Error>)
      requires p < |policies|
      modifies this`policies, this`outbox
      ensures if UpdatableStatus(view.status)
              then Contents() == UpdatedDb(old(Contents()), p, view, data, e) && r == Ok(Patched(view, data))
              else Contents() == old(Contents()) && r == Err(InvalidPolicyStatus)
      ensures r.Ok? <==> view.status in {Active, Suspended}
      ensures r.Ok? ==>
                && r.value.status == view.status && Overlays(r.value.fields, view.fields, data)
                && |policies| == |old(policies)|
                && (forall k :: 0 <= k < |policies| && k != p ==> policies[k] == old(policies)[k])
                && policies[p].status == old(policies)[p].status
                && policies[p].cancellationReason == old(policies)[p].cancellationReason
                && Overlays(policies[p].fields, old(policies)[p].fields, data)
      ensures r.Ok? ==>
                if forall f: Field :: Updatable(f) !in data then outbox == old(outbox)
                else
                  && |outbox| == |old(outbox)| + 1 && outbox[..|old(outbox)|] == old(outbox)
                  && Announces(outbox[|old(outbox)|], PolicyUpdated, p, e, view.status, None, r.value.fields)
    {
      if !UpdatableStatus(view.status) {
        return Err(InvalidPolicyStatus);
      }
      var policy, changed := SetFields(view, data);
      NothingChanges(data);
      if changed != map[] {
        policies := policies[p := policies[p].(fields := policies[p].fields + changed)];
        outbox := outbox + [Emit(p, Base(e, PolicyUpdated, p, policy))];
      }
      return Ok(policy);
    }

    /** The loop over the updatable fields: each one present in the request is set, and noted as changed. */
    method SetFields(view: Policy, data: map<Key, Value>) returns (policy: Policy, changed: map<Field, Value>)
      ensures changed == Changes(data)
      ensures policy == Patched(view, data)
    {
      policy, changed := view, map[];
      var left := UPDATABLE_FIELDS;
      assert Picked(data, UPDATABLE_FIELDS - left) == map[] && view.fields + map[] == view.fields;
      AllPicked(data);
      while left != {}
        invariant left <= UPDATABLE_FIELDS
        invariant changed == Picked(data, UPDATABLE_FIELDS - left)
        invariant policy == view.(fields := view.fields + changed)
        decreases |left|
      {
        var field :| field in left;
        PickNext(view.fields, data, UPDATABLE_FIELDS - left, field);
        assert UPDATABLE_FIELDS - (left - {field}) == UPDATABLE_FIELDS - left + {field};
        if Updatable(field) in data {
          policy := policy.(fields := policy.fields[field := data[Updatable(field)]]);
          changed := changed[field := data[Updatable(field)]];
        }
        left := left - {field};
      }
      assert UPDATABLE_FIELDS - {} == UPDATABLE_FIELDS;
    }
  }

  // ---------------------------------------------------------------- interleaved requests

  // A request holds the policy it addresses and the object it has loaded.
  datatype State = State(db: Db, views: map<nat, (Id, Policy)>)

  datatype Action =
    | Create(fields: map<Field, Value>, e: EventId)
    | Load(req: nat, p: Id)
    | Cancel(req: nat, reason: string, e: EventId)
    | Update(req: nat, data: map<Key, Value>, e: EventId)

  // The cancel passes both checks.
  predicate Cancels(s: State, a: Action) {
    && a.Cancel? && a.req in s.views && s.views[a.req].0 < |s.db.policies|
    && Cancelable(s.views[a.req].1.status) && Cancelable(s.db.policies[s.views[a.req].0].status)
  }

  predicate Updates(s: State, a: Action) {
    && a.Update? && a.req in s.views && s.views[a.req].0 < |s.db.policies|
    && UpdatableStatus(s.views[a.req].1.status)
  }

  function Next(s: State, a: Action): State {
    match a
    case Create(fields, e) => s.(db := Created(s.db, fields, e))
    case Load(req, p) => if p < |s.db.policies| then s.(views := s.views[req := (p, s.db.policies[p])]) else s
    case Cancel(req, reason, e) =>
      if Cancels(s, a) then s.(db := CancelledDb(s.db, s.views[req].0, reason, e)) else s
    case Update(req, data, e) =>
      if Updates(s, a) then s.(db := UpdatedDb(s.db, s.views[req].0, s.views[req].1, data, e)) else s
  }

  function Run(s: State, actions: seq<Action>): State
    decreases |actions|
  {
    if actions == [] then s
    else Next(Run(s, actions[..|actions| - 1]), actions[|actions| - 1])
  }

  /** Any table of policies not yet cancelled, of any other status, with nothing emitted. */
  predicate Start(s: State) {
    && s.db.outbox == [] && s.views == map[]
    && forall p :: 0 <= p < |s.db.policies| ==> !s.db.policies[p].status.Cancelled?
  }

  // ---------------------------------------------------------------- cancellation

  // The policy.cancelled rows of one policy.
  function Cancellations(outbox: seq<Emission>, p: Id): seq<Emission> {
    if outbox == [] then []
    else
      var em := outbox[|outbox| - 1];
      Cancellations(outbox[..|outbox| - 1], p) + (if em.topic.PolicyCancelled? && em.aggregateId == p then [em] else [])
  }

  // How many cancel calls on p succeeded during the run.
  function Successes(s: State, actions: seq<Action>, p: Id): nat
    decreases |actions|
  {
    if actions == [] then 0
    else
      var n := |actions| - 1;
      var before := Run(s, actions[..n]);
      Successes(s, actions[..n], p)
      + (if Cancels(before, actions[n]) && before.views[actions[n].req].0 == p then 1 else 0)
  }

  // Cancelled exactly when one policy.cancelled row exists, and that row carries the stored reason.
  predicate CancellationAgrees(db: Db, p: Id)
    requires p < |db.policies|
  {
    var rows := Cancellations(db.outbox, p);
    if db.policies[p].status.Cancelled?
    then |rows| == 1 && rows[0].payload.data.cancellationReason == Some(db.policies[p].cancellationReason)
         && rows[0].payload.data.policyStatus == Some(Cancelled)
    else rows == []
  }

  predicate Agrees(db: Db) {
    && (forall p :: 0 <= p < |db.policies| ==> CancellationAgrees(db, p))
    && (forall i :: 0 <= i < |db.outbox| ==> db.outbox[i].aggregateId < |db.policies|)
  }

  lemma CancellationsSnoc(outbox: seq<Emission>, em: Emission, p: Id)
    ensures Cancellations(outbox + [em], p)
            == Cancellations(outbox, p) + (if em.topic.PolicyCancelled? && em.aggregateId == p then [em] else [])
  {
    assert (outbox + [em])[..|outbox|] == outbox;
  }

  lemma {:induction false} ForeignCancellations(outbox: seq<Emission>, p: Id)
    requires forall i :: 0 <= i < |outbox| ==> outbox[i].aggregateId != p
    ensures Cancellations(outbox, p) == []
  {
    if outbox != [] {
      ForeignCancellations(outbox[..|outbox| - 1], p);
    }
  }

  lemma EmitKeeps(db: Db, after: Db, em: Emission, p: Id)
    requires p < |db.policies| <= |after.policies| && CancellationAgrees(db, p)
    requires after.outbox == db.outbox + [em] && !(em.topic.PolicyCancelled? && em.aggregateId == p)
    requires after.policies[p].status == db.policies[p].status
    requires after.policies[p].cancellationReason == db.policies[p].cancellationReason
    ensures CancellationAgrees(after, p)
  {
    CancellationsSnoc(db.outbox, em, p);
  }

  lemma StepAgrees(s: State, a: Action)
    requires Agrees(s.db) && (forall req :: req in s.views ==> s.views[req].0 < |s.db.policies|)
    ensures Agrees(Next(s, a).db)
    ensures forall req :: req in Next(s, a).views ==> Next(s, a).views[req].0 < |Next(s, a).db.policies|
  {
    var t := Next(s, a);
    if t.db != s.db {
      var em := t.db.outbox[|s.db.outbox|];
      assert t.db.outbox == s.db.outbox + [em];
      forall p | 0 <= p < |t.db.policies| ensures CancellationAgrees(t.db, p) {
        if p == |s.db.policies| {
          ForeignCancellations(s.db.outbox, p);
          CancellationsSnoc(s.db.outbox, em, p);
        } else if a.Cancel? && p == s.views[a.req].0 {
          assert CancellationAgrees(s.db, p);
          CancellationsSnoc(s.db.outbox, em, p);
        } else {
          EmitKeeps(s.db, t.db, em, p);
        }
      }
    }
  }

  lemma {:induction false} RunAgrees(s: State, actions: seq<Action>)
    requires Start(s)
    ensures Agrees(Run(s, actions).db)
    ensures forall req :: req in Run(s, actions).views ==>
              Run(s, actions).views[req].0 < |Run(s, actions).db.policies|
    ensures |s.db.policies| <= |Run(s, actions).db.policies|
    decreases |actions|
  {
    if actions == [] {
      forall p | 0 <= p < |s.db.policies| ensures CancellationAgrees(s.db, p) {}
    } else {
      RunAgrees(s, actions[..|actions| - 1]);
      StepAgrees(Run(s, actions[..|actions| - 1]), actions[|actions| - 1]);
    }
  }

  // CANCELLED and its reason never change again, no call but a cancel moves a status or a reason, and rows never go.
  lemma StatusMoves(s: State, a: Action, p: Id)
    requires p < |s.db.policies|
    ensures p < |Next(s, a).db.policies|
    ensures var before, after := s.db.policies[p], Next(s, a).db.policies[p];
            if Cancels(s, a) && s.views[a.req].0 == p
            then before.status in {Active, Suspended} && after == Policy(Cancelled, a.reason, before.fields)
            else after.status == before.status && after.cancellationReason == before.cancellationReason
  {}

  /** Under every interleaving of cancels and updates with stale objects CANCELLED is absorbing and keeps its reason. */
  lemma {:induction false} CancelledIsForever(s: State, actions: seq<Action>, p: Id)
    requires p < |s.db.policies|
    ensures p < |Run(s, actions).db.policies|
    ensures var before, after := s.db.policies[p], Run(s, actions).db.policies[p];
            && (before.status.Cancelled? ==>
                  after.status.Cancelled? && after.cancellationReason == before.cancellationReason)
            && (after.status == before.status || after.status.Cancelled?)
    decreases |actions|
  {
    if actions != [] {
      CancelledIsForever(s, actions[..|actions| - 1], p);
      StatusMoves(Run(s, actions[..|actions| - 1]), actions[|actions| - 1], p);
    }
  }

  lemma {:induction false} SuccessesAgree(s: State, actions: seq<Action>, p: Id)
    requires Start(s) && p < |Run(s, actions).db.policies|
    ensures Successes(s, actions, p) == if Run(s, actions).db.policies[p].status.Cancelled? then 1 else 0
    decreases |actions|
  {
    if actions != [] {
      var front, last := actions[..|actions| - 1], actions[|actions| - 1];
      var before := Run(s, front);
      RunAgrees(s, front);
      if p < |before.db.policies| {
        SuccessesAgree(s, front, p);
        StatusMoves(before, last, p);
      } else {
        NoSuccessBefore(s, front, p);
      }
    }
  }

  lemma {:induction false} NoSuccessBefore(s: State, actions: seq<Action>, p: Id)
    requires Start(s) && p >= |Run(s, actions).db.policies|
    ensures Successes(s, actions, p) == 0
    decreases |actions|
  {
    if actions != [] {
      var front := actions[..|actions| - 1];
      RunAgrees(s, front);
      NoSuccessBefore(s, front, p);
    }
  }

  /** At most one cancel of a policy ever succeeds; the policy is CANCELLED exactly when one did, the outbox then holds
      exactly one policy.cancelled row for it, and that row carries the stored reason. */
  lemma CancelledOnce(s: State, actions: seq<Action>, p: Id)
    requires Start(s) && p < |Run(s, actions).db.policies|
    ensures var db := Run(s, actions).db;
            && |Cancellations(db.outbox, p)| == Successes(s, actions, p) <= 1
            && (db.policies[p].status.Cancelled? <==> Successes(s, actions, p) == 1)
            && (db.policies[p].status.Cancelled? ==>
                  Cancellations(db.outbox, p)[0].payload.data.cancellationReason
                  == Some(db.policies[p].cancellationReason))
  {
    RunAgrees(s, actions);
    SuccessesAgree(s, actions, p);
    assert CancellationAgrees(Run(s, actions).db, p);
  }

  // Step k of the run is the successful cancel of p.
  predicate CancelsAt(s: State, actions: seq<Action>, k: nat, p: Id) {
    k < |actions| && Cancels(Run(s, actions[..k]), actions[k]) && Run(s, actions[..k]).views[actions[k].req].0 == p
  }

  /** In every run a CANCELLED policy was cancelled by one call, whose reason both the stored row and the one
      policy.cancelled row carry. */
  lemma {:induction false} CancelledForReason(s: State, actions: seq<Action>, p: Id) returns (k: nat)
    requires Start(s) && p < |Run(s, actions).db.policies| && Run(s, actions).db.policies[p].status.Cancelled?
    ensures CancelsAt(s, actions, k, p)
    ensures var db := Run(s, actions).db;
            && db.policies[p].cancellationReason == actions[k].reason
            && |Cancellations(db.outbox, p)| == 1
            && Announces(Cancellations(db.outbox, p)[0], PolicyCancelled, p, actions[k].e, Cancelled,
                         Some(actions[k].reason), Run(s, actions[..k]).db.policies[p].fields)
    decreases |actions|
  {
    k := 0;
    if actions != [] {
      var n := |actions| - 1;
      var before, a := Run(s, actions[..n]), actions[n];
      RunAgrees(s, actions[..n]);
      if Cancels(before, a) && before.views[a.req].0 == p {
        k := n;
        CancelRow(before, a, p);
      } else {
        NotCancelledHere(before, a, p);
        NoCancelRow(before, a, p);
        k := CancelledForReason(s, actions[..n], p);
        assert actions[..n][..k] == actions[..k];
      }
    }
  }

  lemma CancelRow(s: State, a: Action, p: Id)
    requires Agrees(s.db) && Cancels(s, a) && s.views[a.req].0 == p
    ensures var db := Next(s, a).db;
            && db.policies[p].cancellationReason == a.reason
            && |Cancellations(db.outbox, p)| == 1
            && Announces(Cancellations(db.outbox, p)[0], PolicyCancelled, p, a.e, Cancelled, Some(a.reason),
                         s.db.policies[p].fields)
  {
    assert CancellationAgrees(s.db, p);
    CancellationsSnoc(s.db.outbox, Emit(p, BuildCancelled(a.e, p, CancelledPolicy(s.db.policies[p], a.reason))), p);
  }

  // Another step adds no policy.cancelled row of this policy.
  lemma NoCancelRow(s: State, a: Action, p: Id)
    requires !(Cancels(s, a) && s.views[a.req].0 == p)
    ensures Cancellations(Next(s, a).db.outbox, p) == Cancellations(s.db.outbox, p)
  {
    match a
    case Create(fields, e) =>
      var created := |s.db.policies|;
      CancellationsSnoc(s.db.outbox, Emit(created, Base(e, PolicyCreated, created, Policy(Active, "", fields))), p);
    case Cancel(req, reason, e) =>
      if Cancels(s, a) {
        var q := s.views[req].0;
        var after := CancelledPolicy(s.db.policies[q], reason);
        CancellationsSnoc(s.db.outbox, Emit(q, BuildCancelled(e, q, after)), p);
      }
    case Update(req, data, e) =>
      if Updates(s, a) {
        var (q, view) := s.views[req];
        CancellationsSnoc(s.db.outbox, Emit(q, Base(e, PolicyUpdated, q, Patched(view, data))), p);
      }
    case Load(_, _) =>
  }

  // Another step leaves a cancelled policy and its reason alone.
  lemma NotCancelledHere(s: State, a: Action, p: Id)
    requires p < |Next(s, a).db.policies| && Next(s, a).db.policies[p].status.Cancelled?
    requires !(Cancels(s, a) && s.views[a.req].0 == p)
    ensures p < |s.db.policies| && s.db.policies[p].status.Cancelled?
    ensures Next(s, a).db.policies[p].cancellationReason == s.db.policies[p].cancellationReason
  {
    if p < |s.db.policies| {
      StatusMoves(s, a, p);
    }
  }

  // ---------------------------------------------------------------- updates

  // The two requests set no updatable field to different values.
  predicate AgreeOnShared(d1: map<Key, Value>, d2: map<Key, Value>) {
    forall f: Field :: Updatable(f) in d1 && Updatable(f) in d2 ==> d1[Updatable(f)] == d2[Updatable(f)]
  }

  lemma SharedFields(d1: map<Key, Value>, d2: map<Key, Value>)
    ensures AgreeOnShared(d1, d2) <==>
            forall f :: f in Changes(d1) && f in Changes(d2) ==> Changes(d1)[f] == Changes(d2)[f]
  {
    forall f: Field ensures f in Changes(d1) <==> Updatable(f) in d1 {}
    forall f: Field ensures f in Changes(d2) <==> Updatable(f) in d2 {}
    if forall f :: f in Changes(d1) && f in Changes(d2) ==> Changes(d1)[f] == Changes(d2)[f] {
      forall f: Field | Updatable(f) in d1 && Updatable(f) in d2 ensures d1[Updatable(f)] == d2[Updatable(f)] {
        assert Changes(d1)[f] == d1[Updatable(f)] && Changes(d2)[f] == d2[Updatable(f)];
      }
    }
  }

  /** Two updates of a policy leave the same stored row in either order, whatever objects they were loaded into,
      exactly when they agree on the fields they share. */
  lemma UpdatesCommuteIff(db: Db, p: Id, v1: Policy, v2: Policy, d1: map<Key, Value>, d2: map<Key, Value>,
                          e1: EventId, e2: EventId)
    requires p < |db.policies|
    ensures UpdatedDb(UpdatedDb(db, p, v1, d1, e1), p, v2, d2, e2).policies
            == UpdatedDb(UpdatedDb(db, p, v2, d2, e2), p, v1, d1, e1).policies
            <==> AgreeOnShared(d1, d2)
  {
    var x, a, b := db.policies[p].fields, Changes(d1), Changes(d2);
    PatchIsOverlay(db, p, v1, d1, e1);
    PatchIsOverlay(db, p, v2, d2, e2);
    PatchIsOverlay(UpdatedDb(db, p, v1, d1, e1), p, v2, d2, e2);
    PatchIsOverlay(UpdatedDb(db, p, v2, d2, e2), p, v1, d1, e1);
    OverlaysCommuteIff(x, a, b);
    var one, two := db.policies[p := db.policies[p].(fields := x + a + b)],
                    db.policies[p := db.policies[p].(fields := x + b + a)];
    assert UpdatedDb(UpdatedDb(db, p, v1, d1, e1), p, v2, d2, e2).policies == one;
    assert UpdatedDb(UpdatedDb(db, p, v2, d2, e2), p, v1, d1, e1).policies == two;
    assert one[p].fields == x + a + b && two[p].fields == x + b + a;
    SharedFields(d1, d2);
  }

  lemma OverlaysCommuteIff(x: map<Field, Value>, a: map<Field, Value>, b: map<Field, Value>)
    ensures x + a + b == x + b + a <==> forall f :: f in a && f in b ==> a[f] == b[f]
  {
    if x + a + b == x + b + a {
      forall f | f in a && f in b ensures a[f] == b[f] {
        assert (x + a + b)[f] == b[f] && (x + b + a)[f] == a[f];
      }
    }
  }

  lemma PatchIsOverlay(db: Db, p: Id, view: Policy, data: map<Key, Value>, e: EventId)
    requires p < |db.policies|
    ensures UpdatedDb(db, p, view, data, e).policies
            == db.policies[p := db.policies[p].(fields := db.policies[p].fields + Changes(data))]
  {
    if Changes(data) == map[] {
      assert db.policies[p].fields + map[] == db.policies[p].fields;
    }
  }

  // No policy.updated row of a policy follows its policy.cancelled row.
  predicate NoUpdateAfterCancel(outbox: seq<Emission>) {
    forall i, j :: 0 <= i < j < |outbox| && outbox[i].topic.PolicyCancelled? && outbox[j].topic.PolicyUpdated? ==>
      outbox[i].aggregateId != outbox[j].aggregateId
  }

  /** The re-check that cancel_policy makes and update_policy does not: an update that writes anything finds the stored
      policy not CANCELLED. */
  predicate FreshUpdate(s: State, a: Action) {
    Updates(s, a) && Changes(a.data) != map[] ==> !s.db.policies[s.views[a.req].0].status.Cancelled?
  }

  predicate FreshUpdates(s: State, actions: seq<Action>)
    decreases |actions|
  {
    actions != [] ==>
      var n := |actions| - 1;
      FreshUpdates(s, actions[..n]) && FreshUpdate(Run(s, actions[..n]), actions[n])
  }

  lemma {:induction false} CancelledHasRow(outbox: seq<Emission>, p: Id)
    ensures Cancellations(outbox, p) != [] <==>
            exists i :: 0 <= i < |outbox| && outbox[i].topic.PolicyCancelled? && outbox[i].aggregateId == p
  {
    if outbox != [] {
      var n := |outbox| - 1;
      CancelledHasRow(outbox[..n], p);
      if Cancellations(outbox[..n], p) != [] {
        var i :| 0 <= i < n && outbox[..n][i].topic.PolicyCancelled? && outbox[..n][i].aggregateId == p;
        assert outbox[i] == outbox[..n][i];
      }
      forall i | 0 <= i < n ensures outbox[i] == outbox[..n][i] {}
    }
  }

  lemma NoUpdateSnoc(outbox: seq<Emission>, em: Emission)
    ensures NoUpdateAfterCancel(outbox + [em]) <==>
            NoUpdateAfterCancel(outbox) && (em.topic.PolicyUpdated? ==> Cancellations(outbox, em.aggregateId) == [])
  {
    var longer := outbox + [em];
    CancelledHasRow(outbox, em.aggregateId);
    assert longer[|outbox|] == em;
    forall i | 0 <= i < |outbox| ensures longer[i] == outbox[i] {}
  }

  lemma UpdateStep(s: State, a: Action)
    requires Agrees(s.db)
    ensures NoUpdateAfterCancel(Next(s, a).db.outbox) <==> NoUpdateAfterCancel(s.db.outbox) && FreshUpdate(s, a)
  {
    var t := Next(s, a);
    if t.db.outbox != s.db.outbox {
      var em := t.db.outbox[|s.db.outbox|];
      assert t.db.outbox == s.db.outbox + [em];
      NoUpdateSnoc(s.db.outbox, em);
      if a.Update? {
        assert CancellationAgrees(s.db, em.aggregateId);
      }
    }
  }

  /** In every run no policy.updated row follows the policy.cancelled row of its policy if and only if each update that
      wrote something found the stored policy not cancelled. */
  lemma {:induction false} NoLateUpdateIffFresh(s: State, actions: seq<Action>)
    requires Start(s)
    ensures NoUpdateAfterCancel(Run(s, actions).db.outbox) <==> FreshUpdates(s, actions)
    decreases |actions|
  {
    if actions != [] {
      var front, last := actions[..|actions| - 1], actions[|actions| - 1];
      NoLateUpdateIffFresh(s, front);
      RunAgrees(s, front);
      UpdateStep(Run(s, front), last);
    }
  }

  /** An object loaded before a cancellation still updates the cancelled row, and its policy.updated row says ACTIVE. */
  lemma StaleUpdateAfterCancel(s: State, p: Id, reason: string, data: map<Key, Value>)
    requires Start(s) && p < |s.db.policies| && s.db.policies[p].status.Active? && Changes(data) != map[]
    ensures var t := Next(Next(Next(s, Load(0, p)), Cancel(0, reason, 1)), Update(0, data, 2));
            && t.db.policies[p].status.Cancelled?
            && t.db.policies[p].fields == s.db.policies[p].fields + Changes(data)
            && |t.db.outbox| == 2 && t.db.outbox[1].topic.PolicyUpdated?
            && t.db.outbox[1].payload.data.policyStatus == Some(Active)
  {
    var s1 := Next(s, Load(0, p));
    var s2 := Next(s1, Cancel(0, reason, 1));
    assert Cancels(s1, Cancel(0, reason, 1));
    assert Updates(s2, Update(0, data, 2));
  }
}
