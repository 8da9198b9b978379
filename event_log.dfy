/**
 * Values handled by the event-operations hook of the calendar client, and
 * the observable log of what one run of the hook does: the requests it
 * sends to the event store, the outcomes it reports to the user, the
 * replacements of its event list, and the calls of the post-save callback.
 */
module EventLog {

  datatype Option<T> = None | Some(value: T)

  type EventId = string

  /**
   * A calendar event. A stored event carries the identifier the store gave it;
   * an event form, not yet stored, has none. The hook reads nothing of an
   * event but its id; every other field (title, dates, recurrence, ...) is
   * carried unchanged in `fields` and only inspected by the collaborators.
   */
  datatype Event = Event(id: Option<EventId>, fields: map<string, string>)

  /** The requests the hook sends to the event store. */
  datatype Request =
    | Put(id: Option<EventId>, body: Event)  // update one event, addressed by its id
    | PostList(bodies: seq<Event>)           // create a batch of events
    | Post(body: Event)                      // create one event
    | Delete(target: EventId)                // delete one event
    | List                                   // read the whole event list

  /** Whether a successful save reports a creation or an update. */
  datatype SaveKind = Created | Updated

  /** The outcomes the hook reports to the user. */
  datatype Outcome = SaveOk(kind: SaveKind) | SaveFail | LoadFail | DeleteOk | DeleteFail | Ready

  datatype Entry =
    | Sent(request: Request)
    | Reported(outcome: Outcome)
    | Replaced(events: seq<Event>)  // the event list is set to `events`
    | SaveCallback                  // the caller's post-save callback runs

  /** The requests of a log, in order. */
  function Requests(t: seq<Entry>): seq<Request>
  {
    if t == [] then []
    else (if t[0].Sent? then [t[0].request] else []) + Requests(t[1..])
  }

  /** The requests of a log that write to the store (every request but List). */
  function Writes(t: seq<Entry>): seq<Request>
  {
    if t == [] then []
    else (if t[0].Sent? && !t[0].request.List? then [t[0].request] else []) + Writes(t[1..])
  }

  /** The outcomes a log reports, in order. */
  function Reports(t: seq<Entry>): seq<Outcome>
  {
    if t == [] then []
    else (if t[0].Reported? then [t[0].outcome] else []) + Reports(t[1..])
  }

  /** How many times a log calls the post-save callback. */
  function Callbacks(t: seq<Entry>): nat
  {
    if t == [] then 0
    else (if t[0].SaveCallback? then 1 else 0) + Callbacks(t[1..])
  }

  /** The event list after a log has run, starting from `events`. */
  function After(events: seq<Event>, t: seq<Entry>): seq<Event>
    decreases t
  {
    if t == [] then events
    else After(if t[0].Replaced? then t[0].events else events, t[1..])
  }

  /** Concatenation regroups freely; stated once so that proofs can cite it. */
  lemma AppendAssoc<T>(a: seq<T>, b: seq<T>, c: seq<T>)
    ensures (a + b) + c == a + (b + c)
  {
  }

  /** Every projection of a log distributes over concatenation of logs. */
  lemma {:induction false} ProjectionsAppend(a: seq<Entry>, b: seq<Entry>)
    ensures Requests(a + b) == Requests(a) + Requests(b)
    ensures Writes(a + b) == Writes(a) + Writes(b)
    ensures Reports(a + b) == Reports(a) + Reports(b)
    ensures Callbacks(a + b) == Callbacks(a) + Callbacks(b)
  {
    if a != [] {
      assert (a + b)[0] == a[0];
      assert (a + b)[1..] == a[1..] + b;
      ProjectionsAppend(a[1..], b);
    } else {
      assert a + b == b;
    }
  }

  /** Running two logs one after the other is running their concatenation. */
  lemma {:induction false} AfterAppend(events: seq<Event>, a: seq<Entry>, b: seq<Entry>)
    ensures After(events, a + b) == After(After(events, a), b)
    decreases a
  {
    if a != [] {
      assert (a + b)[0] == a[0];
      assert (a + b)[1..] == a[1..] + b;
      AfterAppend(if a[0].Replaced? then a[0].events else events, a[1..], b);
    } else {
      assert a + b == b;
    }
  }

  /** A log that never replaces the event list leaves it as it was. */
  lemma {:induction false} AfterWithoutReplace(events: seq<Event>, t: seq<Entry>)
    requires forall i :: 0 <= i < |t| ==> !t[i].Replaced?
    ensures After(events, t) == events
  {
    if t != [] {
      assert !t[0].Replaced?;
      AfterWithoutReplace(events, t[1..]);
    }
  }
}
