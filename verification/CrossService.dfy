/** Filing a claim against a policy held by another service: the HTTP verification,
    its outcome classes, and what it guarantees once the claim commits. */
module CrossService {
  import opened Events
  import C = Claims
  import P = Policies

  // ---------------------------------------------------------------- the client

  // A response body.  An object's absent or falsy is_valid is false, its absent status None.
  datatype Body = NotJson | NotObject | Object(isValid: bool, status: Option<PolicyStatus>)

  // What the breaker-wrapped HTTP call can do.
  datatype Reply = BreakerOpen | RequestError | Response(code: nat, body: Body)

  datatype Refusal = PolicyInactive(status: Option<PolicyStatus>) | PolicyServiceUnavailable | Uncaught

  /** Does this reply let the claim be filed? */
  predicate Verified(reply: Reply) {
    reply.Response? && 200 <= reply.code < 300 && reply.body.Object? && reply.body.isValid
  }

  /** verify_policy: every way the call can end, in the order of the except clauses. */
  method VerifyPolicy(reply: Reply) returns (r: Result<Body, Refusal>)
    ensures r.Ok? <==> Verified(reply)
    ensures r.Ok? ==> r.value == reply.body
    ensures r == Err(Uncaught) <==>
            reply.Response? && ((200 <= reply.code < 300 && !reply.body.Object?)
                                || (400 <= reply.code < 500 && reply.body.NotJson?))
    ensures r.Err? && r.error.PolicyInactive? <==>
            reply.Response? && ((reply.code == 404 && !reply.body.NotJson?)
                                || (200 <= reply.code < 300 && reply.body.Object? && !reply.body.isValid))
    ensures r == Err(PolicyServiceUnavailable) <==>
            || reply.BreakerOpen? || reply.RequestError?
            || (reply.Response? && (reply.code < 200 || 300 <= reply.code < 400 || reply.code >= 500))
            || (reply.Response? && 400 <= reply.code < 500 && reply.code != 404 && !reply.body.NotJson?)
    ensures r.Err? && r.error.PolicyInactive? ==>
              r.error.status == if reply.code == 404 then None else reply.body.status
  {
    if reply.BreakerOpen? || reply.RequestError? {
      return Err(PolicyServiceUnavailable);
    }
    if !(200 <= reply.code < 300) {
      if 400 <= reply.code < 500 {
        if reply.body.NotJson? {
          return Err(Uncaught);
        }
        if reply.code == 404 {
          return Err(PolicyInactive(None));
        }
      }
      return Err(PolicyServiceUnavailable);
    }
    if !reply.body.Object? {
      return Err(Uncaught);
    }
    if !reply.body.isValid {
      return Err(PolicyInactive(reply.body.status));
    }
    return Ok(reply.body);
  }

  /** The policy service's verify endpoint. */
  function VerifyEndpoint(db: P.Db, p: Id): Reply {
    if p < |db.policies| then
      Response(200, Object(db.policies[p].status.Active?, Some(db.policies[p].status)))
    else Response(404, Object(false, None))
  }

  /** What the client makes of the endpoint's reply: accepted exactly for an existing ACTIVE policy; any other existing
      policy is inactive with its own status, an unknown one inactive without. */
  method VerifyAgainst(db: P.Db, p: Id) returns (r: Result<Body, Refusal>)
    ensures p < |db.policies| && db.policies[p].status == Active ==> r == Ok(Object(true, Some(Active)))
    ensures p < |db.policies| && db.policies[p].status != Active ==>
              r == Err(PolicyInactive(Some(db.policies[p].status)))
    ensures p >= |db.policies| ==> r == Err(PolicyInactive(None))
  {
    r := VerifyPolicy(VerifyEndpoint(db, p));
  }

  // ---------------------------------------------------------------- both services together

  // A verification in flight: the policy asked for, the moment it began, and the reply with the moment it was read.
  datatype Call = Call(policyId: Id, begun: nat, reply: Option<Reply>, read: nat)

  // When the verification behind a claim began, read the policy table, and the claim committed.
  datatype Filing = Filing(begun: nat, read: nat, committed: nat)

  // past[i] is the policy table at moment i, the last one the present; cancelled[i] is the policy that the step
  // from moment i to the next cancelled.
  datatype State = State(
    policies: P.State,
    past: seq<P.Db>,
    cancelled: seq<Option<Id>>,
    claims: C.State,
    calls: map<nat, Call>,
    filings: seq<Filing>)

  datatype Action =
    | PolicyStep(p: P.Action)
    | Begin(call: nat, policyId: Id)
    | Answer(call: nat)                 // the endpoint reads the policy table and its reply arrives
    | Fault(call: nat, reply: Reply)    // the network, the breaker or the server answers instead
    | Commit(call: nat, e: EventId)     // file_claim inserts the claim
    | ClaimStep(c: C.Action)

  predicate Enabled(s: State, a: Action) {
    match a
    case PolicyStep(_) => true
    case Begin(_, _) => true
    case Answer(call) => call in s.calls && s.calls[call].reply.None?
    case Fault(call, reply) => call in s.calls && s.calls[call].reply.None? && !Verified(reply)
    case Commit(call, _) => call in s.calls && s.calls[call].reply.Some? && Verified(s.calls[call].reply.value)
    case ClaimStep(c) => !c.File?
  }

  function Now(s: State): nat {
    if s.past == [] then 0 else |s.past| - 1
  }

  function Next(s: State, a: Action): State {
    if !Enabled(s, a) then s
    else
      match a
      case PolicyStep(p) =>
        var policies := P.Next(s.policies, p);
        s.(policies := policies, past := s.past + [policies.db],
           cancelled := s.cancelled + [if P.Cancels(s.policies, p) then Some(s.policies.views[p.req].0) else None])
      case Begin(call, policyId) => s.(calls := s.calls[call := Call(policyId, Now(s), None, 0)])
      case Answer(call) =>
        s.(calls := s.calls[call := s.calls[call].(reply := Some(VerifyEndpoint(s.policies.db, s.calls[call].policyId)),
                                                   read := Now(s))])
      case Fault(call, reply) =>
        s.(calls := s.calls[call := s.calls[call].(reply := Some(reply), read := Now(s))])
      case Commit(call, e) =>
        s.(claims := C.Next(s.claims, C.File(s.calls[call].policyId, e)),
           filings := s.filings + [Filing(s.calls[call].begun, s.calls[call].read, Now(s))],
           calls := s.calls - {call})
      case ClaimStep(c) => s.(claims := C.Next(s.claims, c))
  }

  function Run(s: State, actions: seq<Action>): State
    decreases |actions|
  {
    if actions == [] then s
    else Next(Run(s, actions[..|actions| - 1]), actions[|actions| - 1])
  }

  predicate Start(s: State) {
    && P.Start(s.policies) && s.past == [s.policies.db] && s.cancelled == []
    && s.claims == C.EMPTY && s.calls == map[] && s.filings == []
  }

  function StatusAt(s: State, moment: nat, p: Id): Option<PolicyStatus> {
    if moment < |s.past| && p < |s.past[moment].policies| then Some(s.past[moment].policies[p].status) else None
  }

  // Rows stay, and a status changes only to CANCELLED.
  predicate PolicyFollows(db: P.Db, after: P.Db, p: Id)
    requires p < |db.policies|
  {
    && p < |after.policies|
    && (after.policies[p].status == db.policies[p].status || after.policies[p].status.Cancelled?)
  }

  predicate Follows(db: P.Db, after: P.Db) {
    forall p :: 0 <= p < |db.policies| ==> PolicyFollows(db, after, p)
  }

  predicate HistoryOk(past: seq<P.Db>) {
    forall i, j :: 0 <= i <= j < |past| ==> Follows(past[i], past[j])
  }

  predicate CallOk(s: State, call: Call) {
    && call.begun <= Now(s)
    && (call.reply.Some? && Verified(call.reply.value) ==>
          && call.begun <= call.read <= Now(s)
          && StatusAt(s, call.read, call.policyId) == Some(Active))
  }

  predicate FilingOk(s: State, f: Filing, policyId: Id) {
    && f.begun <= f.read <= f.committed <= Now(s)
    && StatusAt(s, f.read, policyId) == Some(Active)
  }

  predicate Inv(s: State) {
    && s.past != [] && s.past[|s.past| - 1] == s.policies.db && HistoryOk(s.past)
    && (forall c :: c in s.calls ==> CallOk(s, s.calls[c]))
    && |s.filings| == |s.claims.db.claims|
    && (forall c :: 0 <= c < |s.filings| ==> FilingOk(s, s.filings[c], s.claims.db.claims[c].policyId))
  }

  lemma FollowsTrans(a: P.Db, b: P.Db, c: P.Db)
    requires Follows(a, b) && Follows(b, c)
    ensures Follows(a, c)
  {
    forall p | 0 <= p < |a.policies| ensures PolicyFollows(a, c, p) {
      assert PolicyFollows(a, b, p) && PolicyFollows(b, c, p);
    }
  }

  lemma HistorySnoc(past: seq<P.Db>, db: P.Db)
    requires past != [] && HistoryOk(past) && Follows(past[|past| - 1], db)
    ensures HistoryOk(past + [db])
  {
    var longer := past + [db];
    forall i, j | 0 <= i <= j < |longer| ensures Follows(longer[i], longer[j]) {
      if i < |past| && j == |past| {
        FollowsTrans(past[i], past[|past| - 1], db);
      }
    }
  }

  lemma PastGrows(s: State, a: Action)
    requires s.past != [] && s.past[|s.past| - 1] == s.policies.db && HistoryOk(s.past)
    ensures var t := Next(s, a);
            t.past != [] && t.past[|t.past| - 1] == t.policies.db && HistoryOk(t.past) && s.past <= t.past
  {
    if a.PolicyStep? {
      var after := P.Next(s.policies, a.p).db;
      forall p | 0 <= p < |s.policies.db.policies| ensures PolicyFollows(s.policies.db, after, p) {
        P.StatusMoves(s.policies, a.p, p);
      }
      HistorySnoc(s.past, P.Next(s.policies, a.p).db);
    }
  }

  lemma ClaimsKeepPolicies(s: C.State, a: C.Action)
    requires !a.File?
    ensures |C.Next(s, a).db.claims| == |s.db.claims|
    ensures forall c :: 0 <= c < |s.db.claims| ==> C.Next(s, a).db.claims[c].policyId == s.db.claims[c].policyId
  {}

  lemma StepKeeps(s: State, a: Action)
    requires Inv(s)
    ensures Inv(Next(s, a))
  {
    var t := Next(s, a);
    PastGrows(s, a);
    forall moment: nat, p | moment < |s.past| ensures StatusAt(t, moment, p) == StatusAt(s, moment, p) {}
    if Enabled(s, a) && a.ClaimStep? {
      ClaimsKeepPolicies(s.claims, a.c);
    }
    forall c | c in t.calls ensures CallOk(t, t.calls[c]) {
      if c in s.calls { assert CallOk(s, s.calls[c]); }
    }
    forall c | 0 <= c < |t.filings| ensures FilingOk(t, t.filings[c], t.claims.db.claims[c].policyId) {
      if c < |s.filings| { assert FilingOk(s, s.filings[c], s.claims.db.claims[c].policyId); }
    }
  }

  lemma {:induction false} RunKeeps(s: State, actions: seq<Action>)
    requires Start(s)
    ensures Inv(Run(s, actions))
    decreases |actions|
  {
    if actions != [] {
      RunKeeps(s, actions[..|actions| - 1]);
      StepKeeps(Run(s, actions[..|actions| - 1]), actions[|actions| - 1]);
    }
  }

  // The call, if it is still open, asks for p and has not been verified.
  predicate Hopeless(s: State, call: nat, p: Id) {
    && p < |s.policies.db.policies| && s.policies.db.policies[p].status.Cancelled?
    && (call in s.calls ==>
          && s.calls[call].policyId == p
          && (s.calls[call].reply.Some? ==> !Verified(s.calls[call].reply.value)))
  }

  lemma HopelessStays(s: State, call: nat, p: Id, a: Action)
    requires Hopeless(s, call, p) && !(a.Begin? && a.call == call)
    ensures Hopeless(Next(s, a), call, p)
  {
    if a.PolicyStep? {
      P.StatusMoves(s.policies, a.p, p);
    }
  }

  /** A verification that begins once the policy is cancelled never leads to a claim, whatever happens later, until the
      call is begun anew. */
  lemma {:induction false} NoClaimAfterCancel(s: State, call: nat, p: Id, actions: seq<Action>, e: EventId)
    requires p < |s.policies.db.policies| && s.policies.db.policies[p].status.Cancelled?
    requires forall i :: 0 <= i < |actions| ==> !(actions[i].Begin? && actions[i].call == call)
    ensures var t := Run(Next(s, Begin(call, p)), actions);
            Hopeless(t, call, p) && !Enabled(t, Commit(call, e))
    decreases |actions|
  {
    if actions != [] {
      var front := actions[..|actions| - 1];
      NoClaimAfterCancel(s, call, p, front, e);
      HopelessStays(Run(Next(s, Begin(call, p)), front), call, p, actions[|actions| - 1]);
    }
  }

  /** The moment a filing records as the beginning of its verification is the moment the call was begun. */
  lemma {:induction false} FilingRemembersBegin(s: State, call: nat, p: Id, actions: seq<Action>, e: EventId)
    requires forall i :: 0 <= i < |actions| ==> !(actions[i].Begin? && actions[i].call == call)
    ensures var t := Run(Next(s, Begin(call, p)), actions);
            call in t.calls ==>
              && t.calls[call].policyId == p && t.calls[call].begun == Now(s)
              && (Enabled(t, Commit(call, e)) ==>
                    Next(t, Commit(call, e)).filings
                    == t.filings + [Filing(Now(s), t.calls[call].read, Now(t))])
    decreases |actions|
  {
    if actions != [] {
      FilingRemembersBegin(s, call, p, actions[..|actions| - 1], e);
    }
  }

  /** A call that the network, the breaker or the server answered keeps that answer and files nothing. */
  lemma FaultFilesNothing(s: State, call: nat, reply: Reply, e: EventId)
    requires Enabled(s, Fault(call, reply))
    ensures var t := Next(s, Fault(call, reply));
            && t.calls.Keys == s.calls.Keys && t.calls[call].reply == Some(reply)
            && t.claims == s.claims && t.policies == s.policies && !Enabled(t, Commit(call, e))
  {}

  // The step from this moment to the next cancels p, or leaves its status alone.
  predicate StepTold(s: State, k: nat, p: Id)
    requires k + 1 < |s.past| && k < |s.cancelled|
  {
    p < |s.past[k].policies| ==>
      && p < |s.past[k + 1].policies|
      && var before, after := s.past[k].policies[p].status, s.past[k + 1].policies[p].status;
         if s.cancelled[k] == Some(p) then after.Cancelled? else after == before
  }

  predicate CancelsTold(s: State) {
    && |s.past| == |s.cancelled| + 1
    && forall k, p :: 0 <= k < |s.cancelled| && 0 <= p < |s.past[k].policies| ==> StepTold(s, k, p)
  }

  lemma StepTells(s: State, a: Action)
    requires CancelsTold(s) && s.past[|s.past| - 1] == s.policies.db
    ensures CancelsTold(Next(s, a))
  {
    var t, n := Next(s, a), |s.cancelled|;
    forall k, p | 0 <= k < |t.cancelled| && 0 <= p < |t.past[k].policies| ensures StepTold(t, k, p) {
      if k < n {
        assert StepTold(s, k, p);
      } else {
        P.StatusMoves(s.policies, a.p, p);
      }
    }
  }

  lemma {:induction false} RunTells(s: State, actions: seq<Action>)
    requires Start(s)
    ensures CancelsTold(Run(s, actions))
    decreases |actions|
  {
    if actions != [] {
      RunTells(s, actions[..|actions| - 1]);
      RunKeeps(s, actions[..|actions| - 1]);
      StepTells(Run(s, actions[..|actions| - 1]), actions[|actions| - 1]);
    }
  }

  // Some step of the policy service between these moments cancels p.
  predicate CancelledBetween(s: State, p: Id, first: nat, last: nat) {
    exists k :: first <= k < last && k < |s.cancelled| && s.cancelled[k] == Some(p)
  }

  lemma {:induction false} ActiveUntilCancelled(s: State, p: Id, first: nat, last: nat)
    requires CancelsTold(s) && first <= last < |s.past|
    requires StatusAt(s, first, p) == Some(Active)
    ensures StatusAt(s, last, p) == if CancelledBetween(s, p, first, last) then Some(Cancelled) else Some(Active)
    decreases last - first
  {
    if first < last {
      ActiveUntilCancelled(s, p, first, last - 1);
      assert StepTold(s, last - 1, p);
      if CancelledBetween(s, p, first, last - 1) {
        var k :| first <= k < last - 1 && s.cancelled[k] == Some(p);
        assert first <= k < last;
        CancelledStays(s, p, last - 1);
      } else if s.cancelled[last - 1] == Some(p) {
        assert CancelledBetween(s, p, first, last);
      }
    }
  }

  lemma CancelledStays(s: State, p: Id, k: nat)
    requires CancelsTold(s) && k + 1 < |s.past| && StatusAt(s, k, p) == Some(Cancelled)
    ensures StatusAt(s, k + 1, p) == Some(Cancelled)
  {
    assert StepTold(s, k, p);
  }

  /** Every committed claim has a verification that began, read the policy and led to the commit in that order; its
      policy was ACTIVE at the read, so it had not been cancelled when the verification began. */
  lemma ClaimsWereVerified(s: State, actions: seq<Action>, c: Id)
    requires Start(s) && c < |Run(s, actions).claims.db.claims|
    ensures var t := Run(s, actions);
            && c < |t.filings|
            && var f, p := t.filings[c], t.claims.db.claims[c].policyId;
               && f.begun <= f.read <= f.committed <= Now(t)
               && StatusAt(t, f.read, p) == Some(Active)
               && StatusAt(t, f.begun, p) != Some(Cancelled)
  {
    RunKeeps(s, actions);
    var t := Run(s, actions);
    var f, p := t.filings[c], t.claims.db.claims[c].policyId;
    assert FilingOk(t, f, p);
    assert Follows(t.past[f.begun], t.past[f.read]);
    if p < |t.past[f.begun].policies| {
      assert PolicyFollows(t.past[f.begun], t.past[f.read], p);
    }
  }

  /** When a claim commits its policy is ACTIVE exactly if no cancel of that policy succeeded between the read of its
      verification and the commit, and CANCELLED otherwise. */
  lemma ActiveAtCommitIff(s: State, actions: seq<Action>, c: Id)
    requires Start(s) && c < |Run(s, actions).claims.db.claims|
    ensures var t := Run(s, actions);
            && c < |t.filings|
            && var f, p := t.filings[c], t.claims.db.claims[c].policyId;
               StatusAt(t, f.committed, p)
               == if CancelledBetween(t, p, f.read, f.committed) then Some(Cancelled) else Some(Active)
  {
    RunKeeps(s, actions);
    RunTells(s, actions);
    var t := Run(s, actions);
    var f, p := t.filings[c], t.claims.db.claims[c].policyId;
    assert FilingOk(t, f, p);
    ActiveUntilCancelled(t, p, f.read, f.committed);
  }

  /** The window is real: a policy cancelled between the read and the commit still gets the claim. */
  lemma ClaimOnCancelledPolicy(s: State, p: Id, reason: string)
    requires Start(s) && p < |s.policies.db.policies| && s.policies.db.policies[p].status.Active?
    ensures var s1 := Next(Next(s, Begin(0, p)), Answer(0));
            var s2 := Next(Next(s1, PolicyStep(P.Load(0, p))), PolicyStep(P.Cancel(0, reason, 1)));
            var t := Next(s2, Commit(0, 2));
            && |t.claims.db.claims| == 1 && t.claims.db.claims[0].policyId == p
            && StatusAt(t, t.filings[0].committed, p) == Some(Cancelled)
  {
    var s1 := Next(Next(s, Begin(0, p)), Answer(0));
    var s2 := Next(s1, PolicyStep(P.Load(0, p)));
    assert P.Cancels(s2.policies, P.Cancel(0, reason, 1));
    var s3 := Next(s2, PolicyStep(P.Cancel(0, reason, 1)));
    assert s3.calls == s1.calls;
    var t := Next(s3, Commit(0, 2));
    assert |t.past| == 3;
  }
}
