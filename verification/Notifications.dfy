/** Notifications: the consumer's transaction that stores a row and enqueues its task,
    and the e-mail task with its retries. */
module Notifications {
  import opened Events
  import opened Collections

  const MAX_RETRIES := 3

  datatype Status = Pending | Sent | Failed

  datatype LogEntry = LogEntry(attempt: nat, success: bool)

  datatype Row = Row(eventId: EventId, status: Status, sentAt: Option<nat>, log: seq<LogEntry>)

  datatype Task = Task(id: Id, retries: nat)

  // How one execution of the task ends, when its row exists.
  datatype Outcome = Sends(now: nat) | SendRaises | RenderRaises

  function Fresh(e: EventId): Row {
    Row(e, Pending, None, [])
  }

  // The row after one execution.  The template is rendered outside the try block.
  function Executed(row: Row, retries: nat, o: Outcome): Row {
    match o
    case Sends(now) =>
      row.(status := Sent, sentAt := Some(now), log := row.log + [LogEntry(retries + 1, true)])
    case SendRaises => row.(status := Failed, log := row.log + [LogEntry(retries + 1, false)])
    case RenderRaises => row
  }

  // self.retry re-schedules the task until its retries are used up.
  function Requeued(t: Task, o: Outcome): seq<Task> {
    if o.SendRaises? && t.retries < MAX_RETRIES then [t.(retries := t.retries + 1)] else []
  }

  predicate EventStored(rows: map<Id, Row>, e: EventId) {
    exists id :: id in rows && rows[id].eventId == e
  }

  // What goes wrong during one call of the handler; `refused` is an IntegrityError other than a duplicate event.
  datatype Faults = Faults(
    insertRaises: bool, refused: bool, delayRaises: bool, commitRaises: bool, offsetRaises: bool)

  class Worker {
    var rows: map<Id, Row>
    var queue: seq<Task>

    constructor ()
      ensures rows == map[] && queue == []
    {
      rows, queue := map[], [];
    }

    /** The consumer's handler: insert and enqueue inside one transaction, then commit the offset.  A task that was
        enqueued stays enqueued.  The consumer dies when the commit after an IntegrityError raises. */
    method HandleMessage(e: EventId, id: Id, f: Faults) returns (offsetCommitted: bool, died: bool)
      requires id !in rows
      modifies this
      ensures var integrityError := !f.insertRaises && (f.refused || EventStored(old(rows), e));
              var inserted := !f.insertRaises && !integrityError;
              var enqueued := inserted && !f.delayRaises;
              var stored := enqueued && !f.commitRaises;
              && queue == (if enqueued then old(queue) + [Task(id, 0)] else old(queue))
              && rows == (if stored then old(rows)[id := Row(e, Pending, None, [])] else old(rows))
              && offsetCommitted == ((stored || integrityError) && !f.offsetRaises)
              && died == (integrityError && f.offsetRaises)
    {
      offsetCommitted, died := false, false;
      if f.insertRaises {
        return;
      }
      if f.refused || EventStored(rows, e) {
        return !f.offsetRaises, f.offsetRaises;
      }
      if f.delayRaises {
        return;
      }
      queue := queue + [Task(id, 0)];
      if f.commitRaises {
        return;
      }
      rows := rows[id := Fresh(e)];
      offsetCommitted := !f.offsetRaises;
    }

    /** send_email_notification, run once for a task taken off the queue; `o` is how rendering and sending end. */
    method SendEmailNotification(t: Task, o: Outcome)
      modifies this
      ensures t.id !in old(rows) ==> rows == old(rows) && queue == old(queue)
      ensures t.id in old(rows) ==>
                && rows == old(rows)[t.id := Executed(old(rows)[t.id], t.retries, o)]
                && queue == old(queue) + Requeued(t, o)
                && var before, attempt := old(rows)[t.id], t.retries + 1;
                   match o
                   case RenderRaises => rows == old(rows) && queue == old(queue)
                   case SendRaises =>
                     && rows[t.id]
                        == Row(before.eventId, Failed, before.sentAt, before.log + [LogEntry(attempt, false)])
                     && queue == old(queue) + (if t.retries < 3 then [Task(t.id, t.retries + 1)] else [])
                   case Sends(now) =>
                     && rows[t.id] == Row(before.eventId, Sent, Some(now), before.log + [LogEntry(attempt, true)])
                     && queue == old(queue)
    {
      var attempt := t.retries + 1;
      if t.id !in rows {
        return;
      }
      var notification := rows[t.id];
      if o.RenderRaises? {
        assert rows == rows[t.id := notification];
        return;
      }
      if o.SendRaises? {
        notification := notification.(status := Failed);
        notification := notification.(log := notification.log + [LogEntry(attempt, false)]);
        rows := rows[t.id := notification];
        if t.retries < MAX_RETRIES {
          queue := queue + [Task(t.id, t.retries + 1)];
        }
        return;
      }
      notification := notification.(status := Sent, sentAt := Some(o.now));
      notification := notification.(log := notification.log + [LogEntry(attempt, true)]);
      rows := rows[t.id := notification];
    }
  }

  // ---------------------------------------------------------------- the interleaved system

  // The consumer's open transaction.
  datatype Tx = Tx(id: Id, eventId: EventId, enqueued: bool)

  datatype State = State(
    rows: map<Id, Row>,
    tx: Option<Tx>,
    queue: seq<Task>,
    issued: seq<Id>,        // history: ids of all rows ever inserted, committed or not
    enqueued: seq<Id>,      // history: ids handed to delay
    spoiled: set<Id>)       // history: ids whose task ran before its row was committed, or failed to render

  datatype Action =
    | Insert(id: Id, e: EventId)
    | Enqueue
    | Commit
    | Rollback
    | Execute(i: nat, o: Outcome)          // a worker takes task i, runs it and acknowledges it
    | ExecuteUnacked(i: nat, o: Outcome)   // the same, but the worker dies before the acknowledgement

  predicate Enabled(s: State, a: Action) {
    match a
    case Insert(id, e) => s.tx.None? && id !in s.issued && !EventStored(s.rows, e)
    case Enqueue => s.tx.Some? && !s.tx.value.enqueued
    case Commit => s.tx.Some? && s.tx.value.enqueued
    case Rollback => s.tx.Some?
    case Execute(i, _) => i < |s.queue|
    case ExecuteUnacked(i, _) => i < |s.queue|
  }

  function RunTask(s: State, t: Task, o: Outcome, left: seq<Task>): State {
    if t.id !in s.rows then s.(queue := left, spoiled := s.spoiled + {t.id})
    else
      s.(rows := s.rows[t.id := Executed(s.rows[t.id], t.retries, o)],
         queue := left + Requeued(t, o),
         spoiled := if o.RenderRaises? then s.spoiled + {t.id} else s.spoiled)
  }

  function Next(s: State, a: Action): State {
    if !Enabled(s, a) then s
    else
      match a
      case Insert(id, e) => s.(tx := Some(Tx(id, e, false)), issued := s.issued + [id])
      case Enqueue =>
        var id := s.tx.value.id;
        s.(tx := Some(s.tx.value.(enqueued := true)), queue := s.queue + [Task(id, 0)], enqueued := s.enqueued + [id])
      case Commit => s.(rows := s.rows[s.tx.value.id := Fresh(s.tx.value.eventId)], tx := None)
      case Rollback => s.(tx := None)
      case Execute(i, o) => RunTask(s, s.queue[i], o, Without(s.queue, i))
      case ExecuteUnacked(i, o) => RunTask(s, s.queue[i], o, s.queue)
  }

  function Run(s: State, actions: seq<Action>): State
    decreases |actions|
  {
    if actions == [] then s
    else Next(Run(s, actions[..|actions| - 1]), actions[|actions| - 1])
  }

  lemma RunThen(s: State, actions: seq<Action>, a: Action)
    ensures Run(s, actions + [a]) == Next(Run(s, actions), a)
  {
    assert (actions + [a])[..|actions|] == actions;
  }

  // The steps one call of the handler makes, when no other transaction of the consumer is open.
  function HandlerSteps(id: Id, e: EventId, stored: bool, enqueued: bool): seq<Action> {
    [Insert(id, e)] + (if enqueued then [Enqueue] else []) + [if stored then Commit else Rollback]
  }

  /** What HandleMessage may do to the rows and the queue is what these steps do. */
  lemma HandlerIsARun(s: State, id: Id, e: EventId, stored: bool, enqueued: bool)
    requires Enabled(s, Insert(id, e)) && (stored ==> enqueued)
    ensures var t := Run(s, HandlerSteps(id, e, stored, enqueued));
            && t.tx.None?
            && t.rows == (if stored then s.rows[id := Fresh(e)] else s.rows)
            && t.queue == (if enqueued then s.queue + [Task(id, 0)] else s.queue)
  {
    var begin := [Insert(id, e)];
    var middle := begin + (if enqueued then [Enqueue] else []);
    RunThen(s, [], Insert(id, e));
    if enqueued {
      RunThen(s, begin, Enqueue);
    }
    RunThen(s, middle, if stored then Commit else Rollback);
    assert [] + begin == begin && begin + [] == begin;
  }

  const EMPTY := State(map[], None, [], [], [], {})

  // ---------------------------------------------------------------- pairing, in every run

  ghost predicate Paired(s: State) {
    && Distinct(s.issued) && Distinct(s.enqueued)
    && (forall i :: 0 <= i < |s.enqueued| ==> s.enqueued[i] in s.issued)
    && (forall id :: id in s.rows ==> id in s.enqueued)
    && (forall i :: 0 <= i < |s.queue| ==> s.queue[i].id in s.enqueued)
    && (s.tx.Some? ==>
          var tx := s.tx.value;
          && tx.id in s.issued && tx.id !in s.rows && (tx.enqueued <==> tx.id in s.enqueued)
          && !EventStored(s.rows, tx.eventId))
    && (forall a, b :: a in s.rows && b in s.rows && s.rows[a].eventId == s.rows[b].eventId ==> a == b)
  }

  lemma ExecutedKeepsEvent(row: Row, retries: nat, o: Outcome)
    ensures Executed(row, retries, o).eventId == row.eventId
  {}

  lemma ExecutionKeepsPaired(s: State, i: nat, o: Outcome, left: seq<Task>)
    requires Paired(s) && i < |s.queue| && (forall k :: 0 <= k < |left| ==> left[k] in s.queue)
    ensures Paired(RunTask(s, s.queue[i], o, left))
  {
    var t := RunTask(s, s.queue[i], o, left);
    var task := s.queue[i];
    assert task.id in s.enqueued;
    if task.id in s.rows {
      ExecutedKeepsEvent(s.rows[task.id], task.retries, o);
    }
    forall k | 0 <= k < |t.queue| ensures t.queue[k].id in s.enqueued {}
    forall id | id in t.rows ensures id in s.rows && t.rows[id].eventId == s.rows[id].eventId {}
  }

  lemma PairedKept(s: State, a: Action)
    requires Paired(s)
    ensures Paired(Next(s, a))
  {
    if Enabled(s, a) {
      match a
      case Execute(i, o) => ExecutionKeepsPaired(s, i, o, Without(s.queue, i));
      case ExecuteUnacked(i, o) => ExecutionKeepsPaired(s, i, o, s.queue);
      case _ =>
    }
  }

  /** In every run, redeliveries included: no event has two notifications, every committed notification had its task
      enqueued exactly once, and every task ever queued belongs to one of those. */
  lemma {:induction false} EveryRowHasOneTask(actions: seq<Action>)
    ensures Paired(Run(EMPTY, actions))
    decreases |actions|
  {
    if actions != [] {
      EveryRowHasOneTask(actions[..|actions| - 1]);
      PairedKept(Run(EMPTY, actions[..|actions| - 1]), actions[|actions| - 1]);
    }
  }

  // The id was issued to a transaction that has since rolled back.
  predicate RolledBack(s: State, id: Id) {
    id in s.issued && id !in s.rows && (s.tx.Some? ==> s.tx.value.id != id)
  }

  lemma RollbackGivesUp(s: State)
    requires Paired(s) && s.tx.Some?
    ensures RolledBack(Next(s, Rollback), s.tx.value.id)
  {}

  lemma {:induction false} RolledBackForever(s: State, id: Id, actions: seq<Action>)
    requires RolledBack(s, id)
    ensures RolledBack(Run(s, actions), id)
    decreases |actions|
  {
    if actions != [] {
      RolledBackForever(s, id, actions[..|actions| - 1]);
    }
  }

  /** Once its transaction has rolled back, an id never enters the table in any continuation, and its tasks, whenever
      they run, change no notification and are not queued again. */
  lemma OrphanTaskDoesNothing(s: State, id: Id, actions: seq<Action>, i: nat, o: Outcome)
    requires Paired(s) && s.tx.Some? && s.tx.value.id == id
    ensures var t := Run(Next(s, Rollback), actions);
            && id !in t.rows
            && (i < |t.queue| && t.queue[i].id == id ==>
                  && Next(t, Execute(i, o)).rows == t.rows && Next(t, ExecuteUnacked(i, o)).rows == t.rows
                  && Next(t, Execute(i, o)).queue == Without(t.queue, i)
                  && Next(t, ExecuteUnacked(i, o)).queue == t.queue)
  {
    RollbackGivesUp(s);
    RolledBackForever(Next(s, Rollback), id, actions);
  }

  // ---------------------------------------------------------------- the log, with one run per attempt

  predicate Attempts(log: seq<LogEntry>) {
    && |log| <= MAX_RETRIES + 1
    && (forall i :: 0 <= i < |log| ==> log[i].attempt == i + 1)
    && (forall i :: 0 <= i < |log| - 1 ==> !log[i].success)
  }

  /** Attempts 1..k with k at most four, all failures except possibly the last, and a status that agrees. */
  predicate LogAgrees(row: Row) {
    var k := |row.log|;
    && Attempts(row.log)
    && (row.status.Pending? <==> k == 0)
    && (row.status.Sent? <==> k > 0 && row.log[k - 1].success)
    && (row.status.Failed? <==> k > 0 && !row.log[k - 1].success)
    && (row.sentAt.Some? <==> row.status.Sent?)
  }

  // Nothing more will happen to this row of its own accord.
  predicate Finished(row: Row) {
    row.status.Sent? || (row.status.Failed? && |row.log| == MAX_RETRIES + 1)
  }

  predicate Queued(s: State, id: Id) {
    exists i :: 0 <= i < |s.queue| && s.queue[i].id == id
  }

  predicate TaskFits(s: State, t: Task) {
    if t.id in s.rows then t.retries == |s.rows[t.id].log| <= MAX_RETRIES && !s.rows[t.id].status.Sent?
    else t.retries == 0
  }

  predicate Logged(s: State) {
    && (forall id :: id in s.rows ==> LogAgrees(s.rows[id]))
    && (forall i, j :: 0 <= i < j < |s.queue| ==> s.queue[i].id != s.queue[j].id)
    && (forall i :: 0 <= i < |s.queue| ==> TaskFits(s, s.queue[i]))
    && (forall id :: id in s.rows && !Queued(s, id) && id !in s.spoiled ==> Finished(s.rows[id]))
    && (s.tx.Some? && s.tx.value.enqueued && !Queued(s, s.tx.value.id) ==> s.tx.value.id in s.spoiled)
  }

  lemma ExecutedAgrees(row: Row, o: Outcome)
    requires LogAgrees(row) && |row.log| <= MAX_RETRIES && !row.status.Sent?
    ensures LogAgrees(Executed(row, |row.log|, o))
    ensures !o.RenderRaises? ==> Finished(Executed(row, |row.log|, o)) || |row.log| < MAX_RETRIES
  {}

  function Extra(s: State, i: nat, o: Outcome): seq<Task>
    requires i < |s.queue|
  {
    if s.queue[i].id in s.rows then Requeued(s.queue[i], o) else []
  }

  lemma ExecuteKeepsQueue(s: State, i: nat, o: Outcome)
    requires Logged(s) && i < |s.queue|
    ensures var t := Next(s, Execute(i, o));
            && t.queue == Without(s.queue, i) + Extra(s, i, o)
            && (forall k, l :: 0 <= k < l < |t.queue| ==> t.queue[k].id != t.queue[l].id)
            && (forall k :: 0 <= k < |t.queue| ==> TaskFits(t, t.queue[k]))
  {
    var t := Next(s, Execute(i, o));
    var task := s.queue[i];
    assert TaskFits(s, task);
    assert t.queue == Without(s.queue, i) + Extra(s, i, o);
    forall k | 0 <= k < |t.queue| ensures TaskFits(t, t.queue[k]) {
      if k < |s.queue| - 1 {
        assert t.queue[k] == s.queue[if k < i then k else k + 1];
        assert TaskFits(s, t.queue[k]);
      }
    }
    forall k, l | 0 <= k < l < |t.queue| ensures t.queue[k].id != t.queue[l].id {
      assert t.queue[k] == s.queue[if k < i then k else k + 1];
      if l < |s.queue| - 1 {
        assert t.queue[l] == s.queue[if l < i then l else l + 1];
      }
    }
  }

  lemma ExecuteKeepsRows(s: State, i: nat, o: Outcome)
    requires Logged(s) && i < |s.queue|
    ensures var t := Next(s, Execute(i, o));
            var id := s.queue[i].id;
            && (forall k :: k in t.rows ==> LogAgrees(t.rows[k]))
            && (id in t.rows && Extra(s, i, o) == [] && id !in t.spoiled ==> Finished(t.rows[id]))
  {
    var task := s.queue[i];
    assert TaskFits(s, task);
    if task.id in s.rows {
      ExecutedAgrees(s.rows[task.id], o);
    }
  }

  lemma ExecuteKeepsQueued(s: State, i: nat, o: Outcome)
    requires i < |s.queue| && Next(s, Execute(i, o)).queue == Without(s.queue, i) + Extra(s, i, o)
    ensures var t := Next(s, Execute(i, o));
            && (forall id :: Queued(s, id) && id != s.queue[i].id ==> Queued(t, id))
            && (Extra(s, i, o) != [] ==> Queued(t, s.queue[i].id))
  {
    var t := Next(s, Execute(i, o));
    forall id | Queued(s, id) && id != s.queue[i].id ensures Queued(t, id) {
      var k :| 0 <= k < |s.queue| && s.queue[k].id == id;
      assert t.queue[if k < i then k else k - 1] == s.queue[k];
    }
    if Extra(s, i, o) != [] {
      assert t.queue[|s.queue| - 1].id == s.queue[i].id;
    }
  }

  lemma ExecuteKeepsLog(s: State, i: nat, o: Outcome)
    requires Logged(s) && i < |s.queue| && (s.tx.Some? ==> s.tx.value.id !in s.rows)
    ensures Logged(Next(s, Execute(i, o)))
  {
    ExecuteKeepsQueue(s, i, o);
    ExecuteKeepsRows(s, i, o);
    ExecuteKeepsQueued(s, i, o);
    var t := Next(s, Execute(i, o));
    forall id | id in t.rows && !Queued(t, id) && id !in t.spoiled ensures Finished(t.rows[id]) {
      assert id == s.queue[i].id || t.rows[id] == s.rows[id];
    }
    if s.tx.Some? && s.tx.value.enqueued && !Queued(t, s.tx.value.id) {
      assert s.tx.value.id == s.queue[i].id || !Queued(s, s.tx.value.id);
    }
  }

  lemma QueueGrows(s: State, t: State, task: Task)
    requires t.queue == s.queue + [task]
    ensures forall id :: Queued(t, id) <==> Queued(s, id) || id == task.id
  {
    forall id | Queued(s, id) ensures Queued(t, id) {
      var k :| 0 <= k < |s.queue| && s.queue[k].id == id;
      assert t.queue[k].id == id;
    }
    assert t.queue[|s.queue|] == task;
  }

  lemma LoggedKept(s: State, a: Action)
    requires Paired(s) && Logged(s) && !a.ExecuteUnacked?
    ensures Logged(Next(s, a))
  {
    if Enabled(s, a) {
      match a
      case Execute(i, o) => ExecuteKeepsLog(s, i, o);
      case Enqueue => QueueGrows(s, Next(s, a), Task(s.tx.value.id, 0));
      case Commit =>
        var t := Next(s, a);
        forall id ensures Queued(t, id) == Queued(s, id) {}
        forall k | 0 <= k < |t.queue| ensures TaskFits(t, t.queue[k]) {
          assert TaskFits(s, s.queue[k]);
        }
      case Insert(_, _) =>
        forall id ensures Queued(Next(s, a), id) == Queued(s, id) {}
      case Rollback =>
        forall id ensures Queued(Next(s, a), id) == Queued(s, id) {}
    }
  }

  predicate AckedRun(actions: seq<Action>) {
    forall i :: 0 <= i < |actions| ==> !actions[i].ExecuteUnacked?
  }

  /** With one run per enqueued attempt, every committed notification's log and status agree; and a notification
      with no task left is SENT or has failed four times, unless its task was spoiled. */
  lemma {:induction false} LogsAgree(actions: seq<Action>)
    requires AckedRun(actions)
    ensures Logged(Run(EMPTY, actions))
    decreases |actions|
  {
    if actions != [] {
      LogsAgree(actions[..|actions| - 1]);
      EveryRowHasOneTask(actions[..|actions| - 1]);
      LoggedKept(Run(EMPTY, actions[..|actions| - 1]), actions[|actions| - 1]);
    }
  }

  // ---------------------------------------------------------------- which notifications are left unsent

  // This action takes the id's task off the queue for good: its row is not committed yet, or rendering raises.
  predicate Spoils(s: State, a: Action, id: Id) {
    && (a.Execute? || a.ExecuteUnacked?) && Enabled(s, a) && s.queue[a.i].id == id
    && (id !in s.rows || a.o.RenderRaises?)
  }

  predicate EverSpoiled(actions: seq<Action>, id: Id)
    decreases |actions|
  {
    actions != [] && (
      var n := |actions| - 1;
      EverSpoiled(actions[..n], id) || Spoils(Run(EMPTY, actions[..n]), actions[n], id))
  }

  lemma {:induction false} SpoiledByActions(actions: seq<Action>, id: Id)
    ensures id in Run(EMPTY, actions).spoiled <==> EverSpoiled(actions, id)
    decreases |actions|
  {
    if actions != [] {
      SpoiledByActions(actions[..|actions| - 1], id);
    }
  }

  // A spoiled task is gone, and its row will never be finished.
  predicate SpoiledAreStuck(s: State) {
    forall id :: id in s.spoiled ==>
      id in s.enqueued && !Queued(s, id) && (id in s.rows ==> !Finished(s.rows[id]))
  }

  lemma NotQueuedAfter(s: State, i: nat, o: Outcome, id: Id)
    requires Logged(s) && i < |s.queue|
    requires !Queued(s, id) || (id == s.queue[i].id && Extra(s, i, o) == [])
    ensures !Queued(Next(s, Execute(i, o)), id)
  {
    var t := Next(s, Execute(i, o));
    ExecuteKeepsQueue(s, i, o);
    forall k | 0 <= k < |t.queue| ensures t.queue[k].id != id {
      if k < |s.queue| - 1 {
        assert t.queue[k] == s.queue[if k < i then k else k + 1];
      }
    }
  }

  lemma StuckKept(s: State, a: Action)
    requires Paired(s) && Logged(s) && SpoiledAreStuck(s) && !a.ExecuteUnacked?
    ensures SpoiledAreStuck(Next(s, a))
  {
    var t := Next(s, a);
    if Enabled(s, a) {
      match a
      case Execute(i, o) =>
        assert TaskFits(s, s.queue[i]);
        assert s.queue[i].id in s.enqueued;
        forall id | id in t.spoiled
          ensures id in t.enqueued && !Queued(t, id) && (id in t.rows ==> !Finished(t.rows[id]))
        {
          NotQueuedAfter(s, i, o, id);
        }
      case Enqueue => QueueGrows(s, t, Task(s.tx.value.id, 0));
      case Insert(_, _) =>
        forall id ensures Queued(t, id) == Queued(s, id) {}
      case Commit =>
        forall id ensures Queued(t, id) == Queued(s, id) {}
      case Rollback =>
        forall id ensures Queued(t, id) == Queued(s, id) {}
    }
  }

  lemma {:induction false} StuckInEveryRun(actions: seq<Action>)
    requires AckedRun(actions)
    ensures SpoiledAreStuck(Run(EMPTY, actions))
    decreases |actions|
  {
    if actions != [] {
      var front := actions[..|actions| - 1];
      StuckInEveryRun(front);
      LogsAgree(front);
      EveryRowHasOneTask(front);
      StuckKept(Run(EMPTY, front), actions[|actions| - 1]);
    }
  }

  /** A committed notification with no task left was sent, or has failed four times, if and only if no execution of its
      task came before the commit or failed to render. */
  lemma FinishedIffNeverSpoiled(actions: seq<Action>, id: Id)
    requires AckedRun(actions)
    requires id in Run(EMPTY, actions).rows && !Queued(Run(EMPTY, actions), id)
    ensures Finished(Run(EMPTY, actions).rows[id]) <==> !EverSpoiled(actions, id)
  {
    LogsAgree(actions);
    StuckInEveryRun(actions);
    SpoiledByActions(actions, id);
  }

  /** Once the queue is empty, the notifications never spoiled are exactly those that were sent or failed four times. */
  lemma DrainedNotifications(actions: seq<Action>)
    requires AckedRun(actions) && Run(EMPTY, actions).queue == []
    ensures var s := Run(EMPTY, actions);
            forall id :: id in s.rows ==>
              (!EverSpoiled(actions, id) <==>
                 || (s.rows[id].status.Sent? && |s.rows[id].log| > 0 && s.rows[id].log[|s.rows[id].log| - 1].success)
                 || (|s.rows[id].log| == 4 && forall i :: 0 <= i < 4 ==> !s.rows[id].log[i].success))
  {
    LogsAgree(actions);
    var s := Run(EMPTY, actions);
    forall id | id in s.rows
      ensures !EverSpoiled(actions, id) <==>
                || (s.rows[id].status.Sent? && |s.rows[id].log| > 0 && s.rows[id].log[|s.rows[id].log| - 1].success)
                || (|s.rows[id].log| == 4 && forall i :: 0 <= i < 4 ==> !s.rows[id].log[i].success)
    {
      FinishedIffNeverSpoiled(actions, id);
      assert LogAgrees(s.rows[id]);
    }
  }

  // ---------------------------------------------------------------- redelivered tasks

  /** What a task could check before it sends: its row carries exactly the attempts before this one, none of them a
      success, and an attempt is left. */
  predicate InStep(s: State, a: Action) {
    (a.Execute? || a.ExecuteUnacked?) && Enabled(s, a) && s.queue[a.i].id in s.rows && !a.o.RenderRaises? ==>
      var row := s.rows[s.queue[a.i].id];
      s.queue[a.i].retries == |row.log| <= MAX_RETRIES && !row.status.Sent?
  }

  predicate InStepRun(actions: seq<Action>)
    decreases |actions|
  {
    actions != [] ==>
      var n := |actions| - 1;
      InStepRun(actions[..n]) && InStep(Run(EMPTY, actions[..n]), actions[n])
  }

  predicate Succeeded(log: seq<LogEntry>) {
    exists i :: 0 <= i < |log| && log[i].success
  }

  // Status and sent time follow the log, redelivered or not.
  predicate Follows(row: Row) {
    var k := |row.log|;
    && (row.status.Pending? <==> k == 0)
    && (row.status.Sent? <==> k > 0 && row.log[k - 1].success)
    && (row.sentAt.Some? <==> Succeeded(row.log))
  }

  lemma SucceededSnoc(log: seq<LogEntry>, entry: LogEntry)
    ensures Succeeded(log + [entry]) <==> Succeeded(log) || entry.success
  {
    var longer := log + [entry];
    forall i | 0 <= i < |log| ensures longer[i] == log[i] {}
    assert longer[|log|] == entry;
  }

  lemma ExecutedFollows(row: Row, retries: nat, o: Outcome)
    requires Follows(row)
    ensures Follows(Executed(row, retries, o))
  {
    if !o.RenderRaises? {
      SucceededSnoc(row.log, LogEntry(retries + 1, o.Sends?));
    }
  }

  lemma AgreesIffAttempts(row: Row)
    requires Follows(row)
    ensures LogAgrees(row) <==> Attempts(row.log)
  {}

  lemma AttemptsSnoc(log: seq<LogEntry>, entry: LogEntry)
    ensures Attempts(log + [entry]) <==>
            && Attempts(log) && |log| <= MAX_RETRIES && entry.attempt == |log| + 1
            && (log != [] ==> !log[|log| - 1].success)
  {
    var longer := log + [entry];
    assert longer[|log|] == entry;
    forall i | 0 <= i < |log| ensures longer[i] == log[i] {}
  }

  // One execution leaves the row in agreement exactly when it was, and the task was in step.
  lemma ExecutedAgreesIff(row: Row, retries: nat, o: Outcome)
    requires Follows(row) && !o.RenderRaises?
    ensures LogAgrees(Executed(row, retries, o)) <==>
            LogAgrees(row) && retries == |row.log| <= MAX_RETRIES && !row.status.Sent?
  {
    ExecutedFollows(row, retries, o);
    AgreesIffAttempts(row);
    AgreesIffAttempts(Executed(row, retries, o));
    AttemptsSnoc(row.log, LogEntry(retries + 1, o.Sends?));
  }

  predicate AllFollow(s: State) {
    forall id :: id in s.rows ==> Follows(s.rows[id])
  }

  predicate AllAgree(s: State) {
    forall id :: id in s.rows ==> LogAgrees(s.rows[id])
  }

  lemma RunTaskAgreesIff(s: State, t: Task, o: Outcome, left: seq<Task>)
    requires AllFollow(s)
    ensures AllFollow(RunTask(s, t, o, left))
    ensures AllAgree(RunTask(s, t, o, left)) <==>
            AllAgree(s) && (t.id in s.rows && !o.RenderRaises? ==>
                              t.retries == |s.rows[t.id].log| <= MAX_RETRIES && !s.rows[t.id].status.Sent?)
  {
    if t.id in s.rows {
      var after := RunTask(s, t, o, left);
      ExecutedFollows(s.rows[t.id], t.retries, o);
      if !o.RenderRaises? {
        ExecutedAgreesIff(s.rows[t.id], t.retries, o);
      }
      assert after.rows[t.id] == Executed(s.rows[t.id], t.retries, o);
      forall id | id in s.rows && id != t.id ensures after.rows[id] == s.rows[id] {}
    }
  }

  lemma CommitAgrees(s: State)
    requires AllFollow(s) && Enabled(s, Commit) && s.tx.value.id !in s.rows
    ensures AllFollow(Next(s, Commit)) && (AllAgree(Next(s, Commit)) <==> AllAgree(s))
  {
    var t := Next(s, Commit);
    forall id | id in s.rows ensures t.rows[id] == s.rows[id] {}
  }

  lemma AgreeStep(s: State, a: Action)
    requires Paired(s) && AllFollow(s)
    ensures AllFollow(Next(s, a))
    ensures AllAgree(Next(s, a)) <==> AllAgree(s) && InStep(s, a)
  {
    if Enabled(s, a) {
      match a
      case Execute(i, o) => RunTaskAgreesIff(s, s.queue[i], o, Without(s.queue, i));
      case ExecuteUnacked(i, o) => RunTaskAgreesIff(s, s.queue[i], o, s.queue);
      case Commit => CommitAgrees(s);
      case _ =>
    }
  }

  lemma {:induction false} FollowsInEveryRun(actions: seq<Action>)
    ensures AllFollow(Run(EMPTY, actions))
    decreases |actions|
  {
    if actions != [] {
      FollowsInEveryRun(actions[..|actions| - 1]);
      EveryRowHasOneTask(actions[..|actions| - 1]);
      AgreeStep(Run(EMPTY, actions[..|actions| - 1]), actions[|actions| - 1]);
    }
  }

  /** In every run, redeliveries included: the logs and statuses of all notifications agree if and only if every
      execution that got past rendering was in step. */
  lemma {:induction false} LogsAgreeIffInStep(actions: seq<Action>)
    ensures AllAgree(Run(EMPTY, actions)) <==> InStepRun(actions)
    decreases |actions|
  {
    if actions != [] {
      LogsAgreeIffInStep(actions[..|actions| - 1]);
      FollowsInEveryRun(actions[..|actions| - 1]);
      EveryRowHasOneTask(actions[..|actions| - 1]);
      AgreeStep(Run(EMPTY, actions[..|actions| - 1]), actions[|actions| - 1]);
    }
  }

  /** A worker that dies after sending and before its late acknowledgement: the task runs again, the e-mail is sent
      twice, and the log holds attempt 1 twice. */
  lemma RedeliverySendsTwice(id: Id, e: EventId, now: nat, later: nat)
    ensures var s := Next(Next(Next(EMPTY, Insert(id, e)), Enqueue), Commit);
            var t := Next(Next(s, ExecuteUnacked(0, Sends(now))), Execute(0, Sends(later)));
            && id in t.rows && t.queue == []
            && t.rows[id].log == [LogEntry(1, true), LogEntry(1, true)]
            && !LogAgrees(t.rows[id])
  {
    var s := Next(Next(Next(EMPTY, Insert(id, e)), Enqueue), Commit);
    assert s.rows == map[id := Fresh(e)] && s.queue == [Task(id, 0)];
    var s1 := Next(s, ExecuteUnacked(0, Sends(now)));
    assert s1.queue == s.queue;
    assert s1.rows[id].log == [LogEntry(1, true)];
    var t := Next(s1, Execute(0, Sends(later)));
    assert t.rows[id].log == [LogEntry(1, true), LogEntry(1, true)];
    assert !t.rows[id].log[0].success || t.rows[id].log[1].attempt != 2;
  }

  // ---------------------------------------------------------------- the sent time

  // When the last execution sent the id's e-mail.
  function LastSend(actions: seq<Action>, id: Id): Option<nat>
    decreases |actions|
  {
    if actions == [] then None
    else
      var n := |actions| - 1;
      var s, a := Run(EMPTY, actions[..n]), actions[n];
      if (a.Execute? || a.ExecuteUnacked?) && Enabled(s, a) && s.queue[a.i].id == id && id in s.rows && a.o.Sends?
      then Some(a.o.now)
      else LastSend(actions[..n], id)
  }

  /** In every run a notification's sent_at is the time of the last execution that sent it, and NULL if none did. */
  lemma {:induction false} SentAtIsLastSend(actions: seq<Action>, id: Id)
    ensures id in Run(EMPTY, actions).rows ==> Run(EMPTY, actions).rows[id].sentAt == LastSend(actions, id)
    ensures id !in Run(EMPTY, actions).rows ==> LastSend(actions, id) == None
    decreases |actions|
  {
    if actions != [] {
      EveryRowHasOneTask(actions[..|actions| - 1]);
      SentAtIsLastSend(actions[..|actions| - 1], id);
    }
  }

  // ---------------------------------------------------------------- what can go wrong

  // A committed row whose task is gone.
  predicate Stranded(s: State, id: Id) {
    id in s.rows && id in s.enqueued && !Queued(s, id)
  }

  lemma StrandedStays(s: State, a: Action, id: Id)
    requires Paired(s) && Stranded(s, id)
    ensures Stranded(Next(s, a), id) && Next(s, a).rows[id] == s.rows[id]
  {
    var t := Next(s, a);
    if Enabled(s, a) {
      match a
      case Enqueue => QueueGrows(s, t, Task(s.tx.value.id, 0));
      case Execute(i, o) =>
        assert s.queue[i].id != id;
        forall k | 0 <= k < |t.queue| ensures t.queue[k].id != id {}
      case ExecuteUnacked(i, o) =>
        assert s.queue[i].id != id;
        forall k | 0 <= k < |t.queue| ensures t.queue[k].id != id {}
      case _ => forall k | 0 <= k < |t.queue| ensures t.queue[k].id != id {}
    }
  }

  lemma {:induction false} StrandedForever(s: State, id: Id, actions: seq<Action>)
    requires Paired(s) && Stranded(s, id)
    ensures Paired(Run(s, actions)) && Stranded(Run(s, actions), id) && Run(s, actions).rows[id] == s.rows[id]
    decreases |actions|
  {
    if actions != [] {
      StrandedForever(s, id, actions[..|actions| - 1]);
      StrandedStays(Run(s, actions[..|actions| - 1]), actions[|actions| - 1], id);
      PairedKept(Run(s, actions[..|actions| - 1]), actions[|actions| - 1]);
    }
  }

  /** The task is enqueued before its row is committed: a worker that takes it in between finds nothing, and the
      notification then stays PENDING whatever happens later. */
  lemma EarlyTaskStrandsTheRow(id: Id, e: EventId, o: Outcome, later: seq<Action>)
    ensures var s := Next(Next(Next(Next(EMPTY, Insert(id, e)), Enqueue), Execute(0, o)), Commit);
            id in Run(s, later).rows && Run(s, later).rows[id] == Fresh(e)
  {
    var s1 := Next(EMPTY, Insert(id, e));
    PairedKept(EMPTY, Insert(id, e));
    var s2 := Next(s1, Enqueue);
    PairedKept(s1, Enqueue);
    var s3 := Next(s2, Execute(0, o));
    PairedKept(s2, Execute(0, o));
    assert Without(s2.queue, 0) == [];
    var s4 := Next(s3, Commit);
    PairedKept(s3, Commit);
    StrandedForever(s4, id, later);
  }
}
