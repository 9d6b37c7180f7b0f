/** The event vocabulary shared by the services: topics, payloads, outbox
    emissions and broker messages.  A UUID is a natural number; a JSON payload is
    a record whose optional keys are options. */
module Events {

  datatype Option<+T> = None | Some(value: T)

  datatype Result<+T, +E> = Ok(value: T) | Err(error: E)

  type EventId = nat

  type Id = nat

  datatype Service = PolicyService | ClaimsService

  // The topic of an event is its event type.
  datatype Topic =
    | PolicyCreated | PolicyUpdated | PolicyCancelled
    | ClaimFiled | ClaimStatusChanged | ClaimResolved
  {
    predicate OnClaims() {
      ClaimFiled? || ClaimStatusChanged? || ClaimResolved?
    }
  }

  datatype ClaimStatus = Filed | UnderReview | Approved | Rejected | Resolved

  datatype PolicyStatus = Active | Suspended | Cancelled | Expired

  // The policy columns an update may write.
  datatype Field = PremiumAmount | StartDate | EndDate | Description | PolicyType

  type Value = string

  // The "data" object of a payload; an absent key is None.
  datatype EventData = EventData(
    claimId: Option<Id>,
    policyId: Option<Id>,
    claimStatus: Option<ClaimStatus>,
    fromStatus: Option<ClaimStatus>,
    toStatus: Option<ClaimStatus>,
    approvedAmount: Option<int>,
    policyStatus: Option<PolicyStatus>,
    cancellationReason: Option<string>,
    policyFields: map<Field, Value>)

  datatype Payload = Payload(eventId: EventId, eventType: Topic, service: Service, data: EventData)

  // What emit_claim_event and emit_policy_event store, apart from the relay's own columns.
  datatype Emission = Emission(topic: Topic, aggregateId: Id, key: Option<Id>, payload: Payload)

  datatype Message = Message(topic: Topic, key: Id, payload: Payload)

  /** A blank key falls back to the aggregate id. */
  function KeyOf(e: Emission): (key: Id)
    ensures e.key == Some(key) || (e.key == None && key == e.aggregateId)
  {
    if e.key.Some? then e.key.value else e.aggregateId
  }

  /** What the relay hands to the producer. */
  function MessageOf(e: Emission): Message {
    Message(e.topic, KeyOf(e), e.payload)
  }
}

/** Operations on sequences and finite sets that the models share, and facts about them. */
module Collections {

  ghost predicate Distinct<T>(s: seq<T>) {
    forall i, j :: 0 <= i < j < |s| ==> s[i] != s[j]
  }

  function Without<T>(q: seq<T>, i: nat): seq<T>
    requires i < |q|
  {
    q[..i] + q[i + 1..]
  }

  function Min(a: nat, b: nat): nat {
    if a < b then a else b
  }

  function Elements<T>(s: seq<T>): set<T> {
    set x | x in s
  }

  function Filter<T>(s: seq<T>, keep: set<T>): (r: seq<T>) {
    if s == [] then []
    else Filter(s[..|s| - 1], keep) + (if s[|s| - 1] in keep then [s[|s| - 1]] else [])
  }

  lemma {:induction false} FilterElements<T>(s: seq<T>, keep: set<T>)
    ensures forall x :: x in Filter(s, keep) <==> x in s && x in keep
  {
    if s != [] {
      FilterElements(s[..|s| - 1], keep);
      assert s == s[..|s| - 1] + [s[|s| - 1]];
    }
  }

  lemma {:induction false} FilterDistinct<T>(s: seq<T>, keep: set<T>)
    requires Distinct(s)
    ensures Distinct(Filter(s, keep))
  {
    if s != [] {
      var front := s[..|s| - 1];
      FilterDistinct(front, keep);
      FilterElements(front, keep);
    }
  }

  lemma {:induction false} FilterSnoc<T>(s: seq<T>, x: T, keep: set<T>)
    ensures Filter(s + [x], keep) == Filter(s, keep) + (if x in keep then [x] else [])
  {
    assert (s + [x])[..|s|] == s;
  }

  lemma {:induction false} SubsetCard<T>(a: set<T>, b: set<T>)
    requires a <= b
    ensures |a| <= |b|
  {
    if a != {} {
      var x :| x in a;
      SubsetCard(a - {x}, b - {x});
    }
  }

  lemma {:induction false} DistinctCard<T>(s: seq<T>)
    requires Distinct(s)
    ensures |Elements(s)| == |s|
  {
    if s == [] {
      assert Elements(s) == {};
    } else {
      var front, last := s[..|s| - 1], s[|s| - 1];
      DistinctCard(front);
      assert s == front + [last];
      assert Elements(s) == Elements(front) + {last};
      assert last !in Elements(front);
    }
  }

  // {(x, k) | x in s, k < n} has |s| * n members.
  function Grid<T>(s: set<T>, n: nat): set<(T, nat)> {
    set x, k: nat | x in s && 0 <= k < n :: (x, k)
  }

  lemma {:induction false} ColumnCard<T>(x: T, n: nat)
    ensures |Grid({x}, n)| == n
  {
    if n == 0 {
      assert Grid({x}, n) == {};
    } else {
      ColumnCard(x, n - 1);
      assert Grid({x}, n) == Grid({x}, n - 1) + {(x, n - 1)};
    }
  }

  lemma {:induction false} GridCard<T>(s: set<T>, n: nat)
    ensures |Grid(s, n)| == |s| * n
  {
    if s == {} {
      assert Grid(s, n) == {};
    } else {
      var x :| x in s;
      var rest := s - {x};
      GridCard(rest, n);
      ColumnCard(x, n);
      assert Grid(s, n) == Grid(rest, n) + Grid({x}, n);
      assert Grid(rest, n) !! Grid({x}, n);
      assert |s| == |rest| + 1;
      assert (|rest| + 1) * n == |rest| * n + n;
    }
  }
}
