/** The dashboard's bounded feed: newest first, at most MAX_EVENTS. */
module EventsStore {

  const MAX_EVENTS := 500

  function Push<T>(events: seq<T>, event: T): seq<T> {
    if |events| >= MAX_EVENTS then [event] + events[..MAX_EVENTS - 1] else [event] + events
  }

  datatype Operation<T> = PushEvent(event: T) | Clear

  function Apply<T>(events: seq<T>, o: Operation<T>): seq<T> {
    match o
    case PushEvent(e) => Push(events, e)
    case Clear => []
  }

  function Store<T>(operations: seq<Operation<T>>): seq<T> {
    if operations == [] then []
    else Apply(Store(operations[..|operations| - 1]), operations[|operations| - 1])
  }

  /** The unbounded log: every event pushed since the last clear, oldest first. */
  function SinceClear<T>(operations: seq<Operation<T>>): seq<T> {
    if operations == [] then []
    else
      match operations[|operations| - 1]
      case PushEvent(e) => SinceClear(operations[..|operations| - 1]) + [e]
      case Clear => []
  }

  // After any operations the store is exactly the newest min(500, m) of the m events, newest first.
  lemma {:induction false} StoreIsTheNewest<T>(operations: seq<Operation<T>>)
    ensures var all, m := SinceClear(operations), |SinceClear(operations)|;
            && |Store(operations)| == (if m < 500 then m else 500)
            && forall i :: 0 <= i < |Store(operations)| ==> Store(operations)[i] == all[m - 1 - i]
  {
    if operations != [] {
      StoreIsTheNewest(operations[..|operations| - 1]);
    }
  }
}
