/** The reconnecting WebSocket client, with the browser around it: token fetches in
    flight, sockets, and reconnect timers. */
module EventStream {
  import opened Events
  import opened Collections

  const FIRST_BACKOFF := 1_000
  const MAX_BACKOFF := 30_000

  // Closing: close() was called and the close event is still to come.
  datatype Phase = Connecting | Open | Closing | Closed

  datatype Timer = Timer(delay: nat, pending: bool)

  datatype State = State(
    ws: Option<nat>,
    reconnectTimer: Option<nat>,
    backoffMs: nat,
    destroyed: bool,
    fetches: nat,            // token fetches in flight
    sockets: seq<Phase>,     // every socket ever made
    timers: seq<Timer>,      // every timer ever set
    delays: seq<nat>)        // history: the delays set since a socket last opened

  const START := State(None, None, FIRST_BACKOFF, false, 0, [], [], [])

  datatype Action =
    | Connect
    | TokenArrives(token: Option<string>)
    | SocketOpens(i: nat)
    | SocketErrors(i: nat)
    | SocketCloses(i: nat)
    | TimerFires(t: nat)
    | Destroy

  // What the browser may do next.
  predicate Enabled(s: State, a: Action) {
    match a
    case TokenArrives(_) => s.fetches > 0
    case SocketOpens(i) => i < |s.sockets| && s.sockets[i].Connecting?
    case SocketErrors(i) => i < |s.sockets| && !s.sockets[i].Closed?
    case SocketCloses(i) => i < |s.sockets| && !s.sockets[i].Closed?
    case TimerFires(t) => t < |s.timers| && s.timers[t].pending
    case _ => true
  }

  function FetchStarted(s: State): State {
    if s.destroyed then s else s.(fetches := s.fetches + 1)
  }

  function Rescheduled(s: State): State {
    var delay := Min(s.backoffMs, MAX_BACKOFF);
    s.(timers := s.timers + [Timer(delay, true)],
       reconnectTimer := Some(|s.timers|),
       backoffMs := Min(s.backoffMs * 2, MAX_BACKOFF),
       delays := s.delays + [delay])
  }

  // close() on a socket: nothing, once it is closed.
  function CloseCalled(sockets: seq<Phase>, i: nat): seq<Phase> {
    if i < |sockets| && !sockets[i].Closed? then sockets[i := Closing] else sockets
  }

  function Cleared(timers: seq<Timer>, t: nat): seq<Timer> {
    if t < |timers| then timers[t := timers[t].(pending := false)] else timers
  }

  function Next(s: State, a: Action): State {
    if !Enabled(s, a) then s
    else
      match a
      case Connect => FetchStarted(s)
      case TokenArrives(token) =>
        var s := s.(fetches := s.fetches - 1);
        if s.destroyed then s
        else if token.None? || token.value == "" then Rescheduled(s)
        else s.(ws := Some(|s.sockets|), sockets := s.sockets + [Connecting])
      case SocketOpens(i) => s.(sockets := s.sockets[i := Open], backoffMs := FIRST_BACKOFF, delays := [])
      case SocketErrors(i) => s.(sockets := CloseCalled(s.sockets, i))
      case SocketCloses(i) =>
        var s := s.(sockets := s.sockets[i := Closed], ws := None);
        if s.destroyed then s else Rescheduled(s)
      case TimerFires(t) => FetchStarted(s.(timers := Cleared(s.timers, t)))
      case Destroy =>
        s.(destroyed := true,
           timers := if s.reconnectTimer.Some? then Cleared(s.timers, s.reconnectTimer.value) else s.timers,
           sockets := if s.ws.Some? then CloseCalled(s.sockets, s.ws.value) else s.sockets,
           ws := None)
  }

  function Run(s: State, actions: seq<Action>): State
    decreases |actions|
  {
    if actions == [] then s
    else Next(Run(s, actions[..|actions| - 1]), actions[|actions| - 1])
  }

  // ---------------------------------------------------------------- the client

  class EventStreamClient {
    var ws: Option<nat>
    var reconnectTimer: Option<nat>
    var backoffMs: nat
    var destroyed: bool
    // the browser's side
    var fetches: nat
    var sockets: seq<Phase>
    var timers: seq<Timer>
    ghost var delays: seq<nat>

    ghost function View(): State
      reads this
    {
      State(ws, reconnectTimer, backoffMs, destroyed, fetches, sockets, timers, delays)
    }

    constructor ()
      ensures View() == START
    {
      ws, reconnectTimer, backoffMs, destroyed := None, None, FIRST_BACKOFF, false;
      fetches, sockets, timers, delays := 0, [], [], [];
    }

    // Up to the await on the token.
    method Connect()
      modifies this
      ensures View() == Next(old(View()), Action.Connect)
      ensures View() == if old(destroyed) then old(View()) else old(View()).(fetches := old(fetches) + 1)
    {
      if destroyed {
        return;
      }
      fetches := fetches + 1;
    }

    // The rest of connect(), once the fetch has answered.
    method OnToken(token: Option<string>)
      requires fetches > 0
      modifies this
      ensures View() == Next(old(View()), TokenArrives(token))
      ensures var s := old(View()).(fetches := old(fetches) - 1);
              View() == if old(destroyed) then s
                        else if token in {None, Some("")} then Rescheduled(s)
                        else s.(ws := Some(|old(sockets)|), sockets := old(sockets) + [Connecting])
    {
      fetches := fetches - 1;
      if destroyed {
        return;
      }
      if token.None? || token.value == "" {
        ScheduleReconnect();
        return;
      }
      ws := Some(|sockets|);
      sockets := sockets + [Connecting];
    }

    method OnOpen(i: nat)
      requires i < |sockets| && sockets[i].Connecting?
      modifies this
      ensures View() == Next(old(View()), SocketOpens(i))
      ensures View() == old(View()).(sockets := old(sockets)[i := Open], backoffMs := 1000, delays := [])
    {
      sockets := sockets[i := Open];
      backoffMs := FIRST_BACKOFF;
      delays := [];
    }

    method OnError(i: nat)
      requires i < |sockets| && !sockets[i].Closed?
      modifies this
      ensures View() == Next(old(View()), SocketErrors(i))
      ensures View() == old(View()).(sockets := old(sockets)[i := Closing])
    {
      Close(i);
    }

    method OnClose(i: nat)
      requires i < |sockets| && !sockets[i].Closed?
      modifies this
      ensures View() == Next(old(View()), SocketCloses(i))
      ensures var s := old(View()).(sockets := old(sockets)[i := Closed], ws := None);
              View() == if old(destroyed) then s else Rescheduled(s)
    {
      sockets := sockets[i := Closed];
      ws := None;
      if !destroyed {
        ScheduleReconnect();
      }
    }

    method OnTimer(t: nat)
      requires t < |timers| && timers[t].pending
      modifies this
      ensures View() == Next(old(View()), TimerFires(t))
      ensures View() == old(View()).(timers := old(timers)[t := Timer(old(timers)[t].delay, false)],
                                     fetches := old(fetches) + if old(destroyed) then 0 else 1)
    {
      timers := timers[t := timers[t].(pending := false)];
      Connect();
    }

    method ScheduleReconnect()
      modifies this
      ensures View() == Rescheduled(old(View()))
      ensures var delay := Min(old(backoffMs), 30000);
              View() == old(View()).(timers := old(timers) + [Timer(delay, true)],
                                     reconnectTimer := Some(|old(timers)|),
                                     backoffMs := Min(2 * old(backoffMs), 30000),
                                     delays := old(delays) + [delay])
    {
      var delay := Min(backoffMs, MAX_BACKOFF);
      backoffMs := Min(backoffMs * 2, MAX_BACKOFF);
      reconnectTimer := Some(|timers|);
      timers := timers + [Timer(delay, true)];
      delays := delays + [delay];
    }

    method Destroy()
      modifies this
      ensures View() == Next(old(View()), Action.Destroy)
      ensures destroyed && ws == None
      ensures reconnectTimer == old(reconnectTimer) && backoffMs == old(backoffMs)
      ensures fetches == old(fetches) && delays == old(delays)
      ensures |timers| == |old(timers)| && forall t :: 0 <= t < |timers| ==>
                timers[t] == if Some(t) == old(reconnectTimer) then Timer(old(timers)[t].delay, false)
                             else old(timers)[t]
      ensures |sockets| == |old(sockets)| && forall i :: 0 <= i < |sockets| ==>
                sockets[i] == if Some(i) == old(ws) && old(sockets)[i] != Closed then Closing else old(sockets)[i]
    {
      destroyed := true;
      if reconnectTimer.Some? && reconnectTimer.value < |timers| {
        timers := timers[reconnectTimer.value := timers[reconnectTimer.value].(pending := false)];
      }
      if ws.Some? {
        Close(ws.value);
      }
      ws := None;
    }

    // WebSocket.close()
    method Close(i: nat)
      modifies this`sockets
      ensures sockets == CloseCalled(old(sockets), i)
      ensures i < |sockets| && old(sockets)[i] != Closed ==> sockets == old(sockets)[i := Closing]
    {
      if i < |sockets| && !sockets[i].Closed? {
        sockets := sockets[i := Closing];
      }
    }
  }

  // ---------------------------------------------------------------- one chain per connect()

  function Unclosed(sockets: seq<Phase>): nat {
    if sockets == [] then 0
    else Unclosed(sockets[..|sockets| - 1]) + if sockets[|sockets| - 1].Closed? then 0 else 1
  }

  function Pending(timers: seq<Timer>): nat {
    if timers == [] then 0
    else Pending(timers[..|timers| - 1]) + if timers[|timers| - 1].pending then 1 else 0
  }

  /** What keeps the client going: fetches in flight, sockets not yet closed, timers set. */
  function Live(s: State): nat {
    s.fetches + Unclosed(s.sockets) + Pending(s.timers)
  }

  function Connects(actions: seq<Action>): nat {
    if actions == [] then 0
    else Connects(actions[..|actions| - 1]) + if actions[|actions| - 1].Connect? then 1 else 0
  }

  lemma {:induction false} UnclosedAfter(sockets: seq<Phase>, i: nat, p: Phase)
    requires i < |sockets|
    ensures Unclosed(sockets[i := p])
            == Unclosed(sockets) - (if sockets[i].Closed? then 0 else 1) + (if p.Closed? then 0 else 1)
  {
    var n := |sockets| - 1;
    if i < n {
      UnclosedAfter(sockets[..n], i, p);
      assert sockets[i := p][..n] == sockets[..n][i := p];
    } else {
      assert sockets[i := p][..n] == sockets[..n];
    }
  }

  lemma {:induction false} PendingAfter(timers: seq<Timer>, t: nat)
    requires t < |timers|
    ensures Pending(Cleared(timers, t)) == Pending(timers) - if timers[t].pending then 1 else 0
  {
    var n := |timers| - 1;
    if t < n {
      PendingAfter(timers[..n], t);
      assert Cleared(timers, t)[..n] == Cleared(timers[..n], t);
    } else {
      assert Cleared(timers, t)[..n] == timers[..n];
    }
  }

  lemma RescheduledAddsOne(s: State)
    ensures Live(Rescheduled(s)) == Live(s) + 1
  {
    assert Rescheduled(s).timers[..|s.timers|] == s.timers;
  }

  /** Each callback before destroy() replaces one live thing by another; only a connect() of the caller adds one. */
  lemma LiveConserved(s: State, a: Action)
    requires !s.destroyed && !a.Destroy?
    ensures Live(Next(s, a)) == Live(s) + if a.Connect? then 1 else 0
  {
    if Enabled(s, a) {
      match a
      case TokenArrives(token) =>
        if token.None? || token.value == "" {
          RescheduledAddsOne(s.(fetches := s.fetches - 1));
        } else {
          assert (s.sockets + [Connecting])[..|s.sockets|] == s.sockets;
        }
      case SocketOpens(i) => UnclosedAfter(s.sockets, i, Open);
      case SocketErrors(i) => UnclosedAfter(s.sockets, i, Closing);
      case SocketCloses(i) =>
        UnclosedAfter(s.sockets, i, Closed);
        RescheduledAddsOne(s.(sockets := s.sockets[i := Closed], ws := None));
      case TimerFires(t) => PendingAfter(s.timers, t);
      case _ =>
    }
  }

  lemma DestroyedStays(s: State, a: Action)
    ensures Next(s, a).destroyed <==> s.destroyed || a.Destroy?
  {}

  /** In every callback order before destroy(): exactly as many live things as connect() calls; one, then, exactly when
      connect() was called once. */
  lemma {:induction false} OneLivePerConnect(actions: seq<Action>)
    requires !Run(START, actions).destroyed
    ensures Live(Run(START, actions)) == Connects(actions)
    decreases |actions|
  {
    if actions != [] {
      var most, a := actions[..|actions| - 1], actions[|actions| - 1];
      DestroyedStays(Run(START, most), a);
      OneLivePerConnect(most);
      LiveConserved(Run(START, most), a);
    }
  }

  // ---------------------------------------------------------------- errors

  // The socket was told to close, or is closed.
  predicate Down(s: State, i: nat) {
    i < |s.sockets| && (s.sockets[i].Closing? || s.sockets[i].Closed?)
  }

  lemma {:induction false} DownStaysDown(s: State, i: nat, actions: seq<Action>)
    requires Down(s, i)
    ensures Down(Run(s, actions), i)
    decreases |actions|
  {
    if actions != [] {
      DownStaysDown(s, i, actions[..|actions| - 1]);
    }
  }

  /** A socket that has errored is closing at once, and closing or closed in every continuation. */
  lemma ErroredGoesDown(s: State, i: nat, actions: seq<Action>)
    requires i < |s.sockets| && s.sockets[i] != Closed
    ensures Next(s, SocketErrors(i)).sockets == s.sockets[i := Closing]
    ensures var t := Run(Next(s, SocketErrors(i)), actions);
            i < |t.sockets| && t.sockets[i] in {Closing, Closed}
  {
    DownStaysDown(Next(s, SocketErrors(i)), i, actions);
  }

  // ---------------------------------------------------------------- after destroy()

  /** After destroy() no socket and no timer is ever created, no fetch is started, and nothing comes back to life. */
  lemma {:induction false} QuietAfterDestroy(s: State, actions: seq<Action>)
    requires s.destroyed
    ensures var t := Run(s, actions);
            && t.destroyed
            && |t.sockets| == |s.sockets| && |t.timers| == |s.timers| && t.fetches <= s.fetches
            && (forall i :: 0 <= i < |s.sockets| && s.sockets[i].Closed? ==> t.sockets[i].Closed?)
            && (forall k :: 0 <= k < |s.timers| && !s.timers[k].pending ==> !t.timers[k].pending)
    decreases |actions|
  {
    if actions != [] {
      QuietAfterDestroy(s, actions[..|actions| - 1]);
    }
  }

  /** Whatever is still live at destroy() only runs down: each callback but an error uses up one live thing. */
  lemma RunsDown(s: State, a: Action)
    requires s.destroyed && Enabled(s, a)
    requires a.TokenArrives? || a.SocketCloses? || a.TimerFires?
    ensures Live(Next(s, a)) == Live(s) - 1
  {
    match a
    case SocketCloses(i) => UnclosedAfter(s.sockets, i, Closed);
    case TimerFires(t) => PendingAfter(s.timers, t);
    case _ =>
  }

  // The client's fields know of every unclosed socket and every pending timer.
  predicate Tracked(s: State) {
    && (forall i :: 0 <= i < |s.sockets| && !s.sockets[i].Closed? ==> s.ws == Some(i))
    && (forall k :: 0 <= k < |s.timers| && s.timers[k].pending ==> s.reconnectTimer == Some(k))
  }

  // Nothing pending, and every unclosed socket on its way down.
  predicate TornDown(s: State) {
    && (forall i :: 0 <= i < |s.sockets| ==> s.sockets[i].Closing? || s.sockets[i].Closed?)
    && (forall k :: 0 <= k < |s.timers| ==> !s.timers[k].pending)
  }

  /** destroy() tears everything down exactly when the two fields track every unclosed socket and pending timer. */
  lemma DestroyTearsDownIff(s: State)
    requires s.ws.Some? ==> s.ws.value < |s.sockets|
    requires s.reconnectTimer.Some? ==> s.reconnectTimer.value < |s.timers|
    ensures TornDown(Next(s, Destroy)) <==>
              && (forall i :: 0 <= i < |s.sockets| && (s.sockets[i].Connecting? || s.sockets[i].Open?) ==>
                    s.ws == Some(i))
              && (forall k :: 0 <= k < |s.timers| && s.timers[k].pending ==> s.reconnectTimer == Some(k))
  {
    var t := Next(s, Destroy);
    forall i | 0 <= i < |s.sockets| && s.ws != Some(i) ensures t.sockets[i] == s.sockets[i] {}
    forall k | 0 <= k < |s.timers| && s.reconnectTimer != Some(k) ensures t.timers[k] == s.timers[k] {}
  }

  lemma {:induction false} UnclosedCounts(sockets: seq<Phase>)
    ensures Unclosed(sockets) == 0 <==> forall i :: 0 <= i < |sockets| ==> sockets[i].Closed?
  {
    if sockets != [] {
      UnclosedCounts(sockets[..|sockets| - 1]);
      assert forall i :: 0 <= i < |sockets| - 1 ==> sockets[i] == sockets[..|sockets| - 1][i];
    }
  }

  lemma {:induction false} PendingCounts(timers: seq<Timer>)
    ensures Pending(timers) == 0 <==> forall k :: 0 <= k < |timers| ==> !timers[k].pending
  {
    if timers != [] {
      PendingCounts(timers[..|timers| - 1]);
      assert forall k :: 0 <= k < |timers| - 1 ==> timers[k] == timers[..|timers| - 1][k];
    }
  }

  predicate FieldsInRange(s: State) {
    && (s.ws.Some? ==> s.ws.value < |s.sockets|)
    && (s.reconnectTimer.Some? ==> s.reconnectTimer.value < |s.timers|)
  }

  lemma {:induction false} FieldsStayInRange(actions: seq<Action>)
    ensures FieldsInRange(Run(START, actions))
    decreases |actions|
  {
    if actions != [] {
      FieldsStayInRange(actions[..|actions| - 1]);
    }
  }

  lemma TrackedKept(s: State, a: Action)
    requires Tracked(s) && Live(s) <= 1 && !s.destroyed && !a.Destroy?
    ensures Tracked(Next(s, a))
  {
    UnclosedCounts(s.sockets);
    PendingCounts(s.timers);
    if Enabled(s, a) && a.SocketCloses? {
      assert s.ws == Some(a.i);
      assert forall k :: 0 <= k < |s.timers| ==> !s.timers[k].pending;
    }
  }

  lemma TornDownKept(s: State, a: Action)
    requires TornDown(s) && s.destroyed
    ensures TornDown(Next(s, a))
  {}

  /** With at most one connect(), the fields track everything until destroy(), which then leaves no timer pending and
      no socket that has not been told to close. */
  lemma {:induction false} SingleClientTearsDown(actions: seq<Action>)
    requires Connects(actions) <= 1
    ensures var s := Run(START, actions); if s.destroyed then TornDown(s) else Tracked(s)
    decreases |actions|
  {
    if actions != [] {
      var most, a := actions[..|actions| - 1], actions[|actions| - 1];
      var s := Run(START, most);
      SingleClientTearsDown(most);
      FieldsStayInRange(most);
      if s.destroyed {
        TornDownKept(s, a);
      } else if a.Destroy? {
        DestroyTearsDownIff(s);
      } else {
        OneLivePerConnect(most);
        TrackedKept(s, a);
      }
    }
  }

  /** The bound of one connect() is needed: after two, destroy() closes only the newer socket. */
  lemma SecondConnectLeaks(token: string)
    requires token != ""
    ensures var arrives := TokenArrives(Some(token));
            var s := Next(Next(Next(Next(Next(START, Connect), Connect), arrives), arrives), Destroy);
            s.destroyed && s.sockets == [Connecting, Closing]
  {
    var arrives := TokenArrives(Some(token));
    var s2 := START.(fetches := 2);
    assert Next(Next(START, Connect), Connect) == s2;
    var s3 := s2.(fetches := 1, ws := Some(0), sockets := [Connecting]);
    assert Next(s2, arrives) == s3;
    var s4 := s3.(fetches := 0, ws := Some(1), sockets := [Connecting, Connecting]);
    assert Next(s3, arrives) == s4;
  }

  // ---------------------------------------------------------------- backoff

  function Power2(k: nat): nat {
    if k == 0 then 1 else 2 * Power2(k - 1)
  }

  predicate Doubling(s: State) {
    && s.backoffMs == Min(1000 * Power2(|s.delays|), 30000)
    && (forall k :: 0 <= k < |s.delays| ==> s.delays[k] == Min(1000 * Power2(k), 30000))
  }

  lemma RescheduledDoubles(s: State)
    requires Doubling(s)
    ensures Doubling(Rescheduled(s))
  {
    assert Power2(|s.delays| + 1) == 2 * Power2(|s.delays|);
  }

  /** In every run, the k-th delay since a socket last opened is min(1000 * 2^k, 30000). */
  lemma {:induction false} DelaysDouble(actions: seq<Action>)
    ensures Doubling(Run(START, actions))
    decreases |actions|
  {
    if actions != [] {
      var most, a := actions[..|actions| - 1], actions[|actions| - 1];
      var s := Run(START, most);
      DelaysDouble(most);
      if Enabled(s, a) && a.TokenArrives? {
        RescheduledDoubles(s.(fetches := s.fetches - 1));
      } else if Enabled(s, a) && a.SocketCloses? {
        RescheduledDoubles(s.(sockets := s.sockets[a.i := Closed], ws := None));
      }
    }
  }
}
