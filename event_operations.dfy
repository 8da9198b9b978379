/**
 * The event-operations hook: a controller that holds the client's event
 * list and keeps it in step with the event store. Saving picks one write
 * request from the editing flag, the stored copy of the event and the
 * recurrence classification of both; every successful write is followed by
 * a full reload of the list, and every failure is reported once and leaves
 * the list as it was.
 *
 * The store is abstract: each method takes the answer the store gives to
 * its write request (`Reply`) and to the reload that may follow it
 * (`ListReply`). An answer a method does not ask for is ignored.
 */
module EventOperations {
  import opened EventLog

  /**
   * The store's answer to a write: a response that is ok, a response that is
   * not ok, or a rejected request (the fetch threw).
   */
  datatype Reply = Ok | NotOk | Rejected

  /** The store's answer to a list request; a response that is not ok and a rejected request both carry no list. */
  datatype ListReply = Listed(events: seq<Event>) | ListFailed

  /**
   * The two functions the hook imports and does not define: the recurrence
   * classifier and the expansion of an event into its series.
   */
  datatype Collaborators = Collaborators(
    isRepeating: Event -> bool,
    generateRepeatEvents: Event -> seq<Event>)

  /** The first event of the list whose id equals `id`, if any. */
  function Find(events: seq<Event>, id: Option<EventId>): (r: Option<Event>)
    ensures r.None? <==> forall e :: e in events ==> e.id != id
    ensures r.Some? ==> r.value.id == id
    ensures r.Some? ==> exists k :: 0 <= k < |events| && events[k] == r.value &&
                                    forall j :: 0 <= j < k ==> events[j].id != id
  {
    if events == [] then None
    else if events[0].id == id then Some(events[0])
    else
      var r := Find(events[1..], id);
      assert r.Some? ==> exists k :: 0 <= k < |events| && events[k] == r.value &&
                                     forall j :: 0 <= j < k ==> events[j].id != id by {
        if r.Some? {
          var k :| 0 <= k < |events[1..]| && events[1..][k] == r.value &&
                   forall j :: 0 <= j < k ==> events[1..][j].id != id;
          assert events[k + 1] == r.value;
          assert forall j :: 0 <= j < k + 1 ==> events[j].id != id by {
            forall j | 0 <= j < k + 1 ensures events[j].id != id {
              if j > 0 { assert events[j] == events[1..][j - 1]; }
            }
          }
        }
      }
      assert events == [events[0]] + events[1..];
      r
  }

  /** The single request the repeat-change path sends for `data`. */
  function RepeatChangeRequest(c: Collaborators, data: Event): Request
  {
    if c.isRepeating(data) then PostList(c.generateRepeatEvents(data))
    else Put(data.id, data)
  }

  /**
   * The write request a save of `data` sends, or None when editing finds no
   * stored event with the same id (then nothing is sent).
   */
  function SaveRequest(c: Collaborators, editing: bool, events: seq<Event>, data: Event): (r: Option<Request>)
    ensures r.None? <==> editing && forall e :: e in events ==> e.id != data.id
    ensures r.Some? && r.value.Put? ==> editing && r.value == Put(data.id, data)
    ensures r.Some? && r.value.PostList? ==>
              c.isRepeating(data) && r.value == PostList(c.generateRepeatEvents(data))
    ensures r.Some? && r.value.Post? ==> !editing && !c.isRepeating(data) && r.value == Post(data)
    ensures r.Some? ==> !r.value.Delete? && !r.value.List?
  {
    if editing then
      match Find(events, data.id)
      case None => None
      case Some(existing) =>
        if c.isRepeating(data) != c.isRepeating(existing) then Some(RepeatChangeRequest(c, data))
        else Some(Put(data.id, data))
    else if c.isRepeating(data) then Some(PostList(c.generateRepeatEvents(data)))
    else Some(Post(data))
  }

  /** What a load logs: the list request, then the new list or a load failure. */
  function LoadTrace(reply: ListReply): seq<Entry>
  {
    [Sent(List)] +
    match reply
    case Listed(s) => [Replaced(s)]
    case ListFailed => [Reported(LoadFail)]
  }

  /**
   * What a save logs after its write was answered ok: the reload, the
   * post-save callback when there is one, and the success report, whose
   * wording follows the editing flag alone.
   */
  function SaveSettled(editing: bool, hasOnSave: bool, reload: ListReply): seq<Entry>
  {
    LoadTrace(reload) + (if hasOnSave then [SaveCallback] else []) +
    [Reported(SaveOk(if editing then Updated else Created))]
  }

  /** What a save logs, given the answers of the store. */
  function SaveTrace(c: Collaborators, editing: bool, hasOnSave: bool, events: seq<Event>,
                     data: Event, reply: Reply, reload: ListReply): seq<Entry>
  {
    match SaveRequest(c, editing, events, data)
    case None => [Reported(SaveFail)]
    case Some(request) =>
      if reply != Ok then [Sent(request), Reported(SaveFail)]
      else [Sent(request)] + SaveSettled(editing, hasOnSave, reload)
  }

  /** What a delete logs, given the answers of the store. */
  function DeleteTrace(id: EventId, reply: Reply, reload: ListReply): seq<Entry>
  {
    [Sent(Delete(id))] +
    if reply == Ok then LoadTrace(reload) + [Reported(DeleteOk)]
    else [Reported(DeleteFail)]
  }

  /** What the start-up logs: one load, then the ready notice. */
  function InitTrace(reload: ListReply): seq<Entry>
  {
    LoadTrace(reload) + [Reported(Ready)]
  }

  /**
   * The controller. `events` is the list the user sees; `editing` and
   * `hasOnSave` are the hook's arguments of the latest render; `log` records
   * everything the controller has done.
   */
  class Controller {
    var events: seq<Event>
    var editing: bool
    var hasOnSave: bool
    const collaborators: Collaborators
    ghost var log: seq<Entry>

    /** The list is exactly what the latest successful load returned, or empty before any. */
    ghost predicate Valid()
      reads this
    {
      events == After([], log)
    }

    /** The hook's first render: an empty list and nothing done yet. */
    constructor (collaborators: Collaborators, editing: bool, hasOnSave: bool)
      ensures Valid()
      ensures events == [] && log == []
      ensures this.collaborators == collaborators
      ensures this.editing == editing && this.hasOnSave == hasOnSave
    {
      this.events := [];
      this.editing := editing;
      this.hasOnSave := hasOnSave;
      this.collaborators := collaborators;
      this.log := [];
    }

    /** A later render with new arguments; the list and the log carry over. */
    method Render(editing: bool, hasOnSave: bool)
      modifies this`editing, this`hasOnSave
      ensures this.editing == editing && this.hasOnSave == hasOnSave
    {
      this.editing := editing;
      this.hasOnSave := hasOnSave;
    }

    /** Appends an entry that does not touch the list, keeping the invariant. */
    ghost method Record(e: Entry)
      requires Valid()
      requires !e.Replaced?
      modifies this`log
      ensures Valid()
      ensures log == old(log) + [e]
    {
      AfterAppend([], log, [e]);
      log := log + [e];
    }

    /** fetchEvents: read the list; replace it on success, report on failure. */
    method FetchEvents(reply: ListReply)
      requires Valid()
      modifies this`events, this`log
      ensures Valid()
      ensures log == old(log) + LoadTrace(reply)
      ensures events == After(old(events), LoadTrace(reply))
    {
      Record(Sent(List));
      match reply
      case Listed(s) =>
        AfterAppend([], log, [Replaced(s)]);
        events := s;
        log := log + [Replaced(s)];
      case ListFailed =>
        Record(Reported(LoadFail));
      assert log == old(log) + LoadTrace(reply);
      AfterAppend([], old(log), LoadTrace(reply));
    }

    /**
     * updateEventWithRepeatChange: a repeating event is expanded and created
     * as a batch; a standalone one is put to its id. The store's answer is
     * returned as it came; a rejection is returned as `Rejected` rather than
     * rethrown, and the save treats it as the failure it catches.
     */
    method UpdateEventWithRepeatChange(data: Event, reply: Reply) returns (response: Reply)
      requires Valid()
      modifies this`log
      ensures Valid()
      ensures log == old(log) + [Sent(RepeatChangeRequest(collaborators, data))]
      ensures response == reply
    {
      if collaborators.isRepeating(data) {
        Record(Sent(PostList(collaborators.generateRepeatEvents(data))));
      } else {
        Record(Sent(Put(data.id, data)));
      }
      response := reply;
    }

    /** saveEvent: send the write the decision picks, then reload, call back and report. */
    method SaveEvent(data: Event, reply: Reply, reload: ListReply)
      requires Valid()
      modifies this`events, this`log
      ensures Valid()
      ensures log == old(log) + SaveTrace(collaborators, editing, hasOnSave, old(events), data, reply, reload)
      ensures events == After(old(events), SaveTrace(collaborators, editing, hasOnSave, old(events), data, reply, reload))
    {
      var response: Option<Reply> := None;
      var thrown := false;
      ghost var sent := SaveRequest(collaborators, editing, events, data);
      ghost var t := SaveTrace(collaborators, editing, hasOnSave, events, data, reply, reload);
      if editing {
        var existing := Find(events, data.id);
        if existing.None? {
          thrown := true;
          assert sent.None?;
        } else if collaborators.isRepeating(data) != collaborators.isRepeating(existing.value) {
          var r := UpdateEventWithRepeatChange(data, reply);
          response := Some(r);
          assert sent == Some(RepeatChangeRequest(collaborators, data));
        } else {
          Record(Sent(Put(data.id, data)));
          response := Some(reply);
          if reply != Ok {
            thrown := true;
          }
          assert sent == Some(Put(data.id, data));
        }
      } else if collaborators.isRepeating(data) {
        Record(Sent(PostList(collaborators.generateRepeatEvents(data))));
        response := Some(reply);
        assert sent == Some(PostList(collaborators.generateRepeatEvents(data)));
      } else {
        Record(Sent(Post(data)));
        response := Some(reply);
        assert sent == Some(Post(data));
      }
      assert log == old(log) + (if sent.Some? then [Sent(sent.value)] else []);
      assert (thrown || response != Some(Ok)) <==> (sent.None? || reply != Ok);

      if thrown || response != Some(Ok) {
        Record(Reported(SaveFail));
        assert log == old(log) + t;
        AfterAppend([], old(log), t);
        assert events == After(old(events), t);
        return;
      }

      ghost var written := log;
      ghost var callback: seq<Entry> := if hasOnSave then [SaveCallback] else [];
      ghost var report := Reported(SaveOk(if editing then Updated else Created));
      FetchEvents(reload);
      if hasOnSave {
        Record(SaveCallback);
      } else {
        assert log == log + callback;
      }
      assert log == written + LoadTrace(reload) + callback;
      Record(report);
      AppendAssoc(written, LoadTrace(reload), callback);
      AppendAssoc(written, LoadTrace(reload) + callback, [report]);
      assert log == written + SaveSettled(editing, hasOnSave, reload);
      assert t == [Sent(sent.value)] + SaveSettled(editing, hasOnSave, reload);
      AppendAssoc(old(log), [Sent(sent.value)], SaveSettled(editing, hasOnSave, reload));
      assert log == old(log) + t;
      AfterAppend([], old(log), t);
      assert events == After(old(events), t);
    }

    /** deleteEvent: delete by id; reload and report success, or report failure. */
    method DeleteEvent(id: EventId, reply: Reply, reload: ListReply)
      requires Valid()
      modifies this`events, this`log
      ensures Valid()
      ensures log == old(log) + DeleteTrace(id, reply, reload)
      ensures events == After(old(events), DeleteTrace(id, reply, reload))
    {
      Record(Sent(Delete(id)));
      if reply != Ok {
        Record(Reported(DeleteFail));
      } else {
        FetchEvents(reload);
        Record(Reported(DeleteOk));
      }
      assert log == old(log) + DeleteTrace(id, reply, reload);
      AfterAppend([], old(log), DeleteTrace(id, reply, reload));
    }

    /** init: the start-up load, then the ready notice whatever the load did. */
    method Init(reload: ListReply)
      requires Valid()
      modifies this`events, this`log
      ensures Valid()
      ensures log == old(log) + InitTrace(reload)
      ensures events == After(old(events), InitTrace(reload))
    {
      FetchEvents(reload);
      Record(Reported(Ready));
      assert log == old(log) + InitTrace(reload);
      AfterAppend([], old(log), InitTrace(reload));
    }
  }
}
