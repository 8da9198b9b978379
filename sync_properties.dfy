/**
 * What the event-operations hook promises, stated over the logs that its
 * operations produce: which request a save picks, that no request is ever
 * repeated, that a failure is reported once and changes nothing, and that a
 * success reloads the list before anything else happens.
 */
module SyncProperties {
  import opened EventLog
  import opened EventOperations

  /** The reports a load adds: none on success, one load failure otherwise. */
  function LoadReports(reply: ListReply): seq<Outcome>
  {
    if reply.ListFailed? then [LoadFail] else []
  }

  /** A load sends one list request and nothing else, and never calls back. */
  lemma LoadTraceProjections(reply: ListReply)
    ensures Requests(LoadTrace(reply)) == [List]
    ensures Writes(LoadTrace(reply)) == []
    ensures Reports(LoadTrace(reply)) == LoadReports(reply)
    ensures Callbacks(LoadTrace(reply)) == 0
  {
    var t := LoadTrace(reply);
    ProjectionsAppend([t[0]], [t[1]]);
    assert t == [t[0]] + [t[1]];
  }

  /**
   * A load replaces the list by exactly what the store returned (an empty
   * list included, which is not a failure); a failed load keeps the list and
   * reports one load failure.
   */
  lemma LoadReplacesOrKeeps(events: seq<Event>, reply: ListReply)
    ensures Requests(LoadTrace(reply)) == [List]
    ensures reply.Listed? ==> After(events, LoadTrace(reply)) == reply.events && Reports(LoadTrace(reply)) == []
    ensures reply.ListFailed? ==> After(events, LoadTrace(reply)) == events && Reports(LoadTrace(reply)) == [LoadFail]
  {
    LoadTraceProjections(reply);
    var t := LoadTrace(reply);
    AfterAppend(events, [t[0]], [t[1]]);
    assert t == [t[0]] + [t[1]];
  }

  /** Loading twice from an unchanged store leaves the list as loading once does. */
  lemma LoadIsIdempotent(events: seq<Event>, reply: ListReply)
    ensures After(events, LoadTrace(reply) + LoadTrace(reply)) == After(events, LoadTrace(reply))
  {
    AfterAppend(events, LoadTrace(reply), LoadTrace(reply));
    LoadReplacesOrKeeps(events, reply);
    LoadReplacesOrKeeps(After(events, LoadTrace(reply)), reply);
  }

  /** Start-up loads once and then reports that it is ready, whether the load worked or not. */
  lemma InitLoadsOnceThenReady(events: seq<Event>, reload: ListReply)
    ensures Requests(InitTrace(reload)) == [List]
    ensures Reports(InitTrace(reload)) == LoadReports(reload) + [Ready]
    ensures After(events, InitTrace(reload)) == After(events, LoadTrace(reload))
  {
    LoadTraceProjections(reload);
    ProjectionsAppend(LoadTrace(reload), [Reported(Ready)]);
    AfterAppend(events, LoadTrace(reload), [Reported(Ready)]);
  }

  /**
   * A delete sends one delete request for the id. If the store answers ok it
   * reloads once and reports success; otherwise it sends nothing more, keeps
   * the list and reports one failure.
   */
  lemma DeleteSendsOneRequest(events: seq<Event>, id: EventId, reply: Reply, reload: ListReply)
    ensures Writes(DeleteTrace(id, reply, reload)) == [Delete(id)]
    ensures reply == Ok ==>
      Requests(DeleteTrace(id, reply, reload)) == [Delete(id), List] &&
      Reports(DeleteTrace(id, reply, reload)) == LoadReports(reload) + [DeleteOk] &&
      After(events, DeleteTrace(id, reply, reload)) == After(events, LoadTrace(reload))
    ensures reply != Ok ==>
      Requests(DeleteTrace(id, reply, reload)) == [Delete(id)] &&
      Reports(DeleteTrace(id, reply, reload)) == [DeleteFail] &&
      After(events, DeleteTrace(id, reply, reload)) == events
  {
    var head := [Sent(Delete(id))];
    if reply == Ok {
      var tail := LoadTrace(reload) + [Reported(DeleteOk)];
      LoadTraceProjections(reload);
      ProjectionsAppend(LoadTrace(reload), [Reported(DeleteOk)]);
      ProjectionsAppend(head, tail);
      AfterAppend(events, head, tail);
      AfterAppend(events, LoadTrace(reload), [Reported(DeleteOk)]);
    } else {
      ProjectionsAppend(head, [Reported(DeleteFail)]);
      AfterAppend(events, head, [Reported(DeleteFail)]);
    }
  }

  /**
   * Whatever the inputs, a save sends at most one write and never repeats a
   * request: the write the decision picks, followed by one list request only
   * when the store answered the write with ok.
   */
  lemma SaveSendsAtMostOneWrite(c: Collaborators, editing: bool, hasOnSave: bool, events: seq<Event>,
                                data: Event, reply: Reply, reload: ListReply)
    ensures var t := SaveTrace(c, editing, hasOnSave, events, data, reply, reload);
      match SaveRequest(c, editing, events, data)
      case None => Requests(t) == []
      case Some(request) =>
        Writes(t) == [request] &&
        Requests(t) == [request] + (if reply == Ok then [List] else [])
  {
    var t := SaveTrace(c, editing, hasOnSave, events, data, reply, reload);
    match SaveRequest(c, editing, events, data)
    case None =>
    case Some(request) =>
      if reply != Ok {
        ProjectionsAppend([Sent(request)], [Reported(SaveFail)]);
        assert t == [Sent(request)] + [Reported(SaveFail)];
      } else {
        SaveSettledProjections(editing, hasOnSave, reload);
        ProjectionsAppend([Sent(request)], SaveSettled(editing, hasOnSave, reload));
      }
  }

  /** After an ok write, a save lists once, writes nothing more, and reports one save success. */
  lemma SaveSettledProjections(editing: bool, hasOnSave: bool, reload: ListReply)
    ensures Requests(SaveSettled(editing, hasOnSave, reload)) == [List]
    ensures Writes(SaveSettled(editing, hasOnSave, reload)) == []
    ensures Reports(SaveSettled(editing, hasOnSave, reload)) ==
      LoadReports(reload) + [SaveOk(if editing then Updated else Created)]
    ensures Callbacks(SaveSettled(editing, hasOnSave, reload)) == if hasOnSave then 1 else 0
  {
    var callback := if hasOnSave then [SaveCallback] else [];
    var report := [Reported(SaveOk(if editing then Updated else Created))];
    LoadTraceProjections(reload);
    ProjectionsAppend(LoadTrace(reload), callback);
    ProjectionsAppend(LoadTrace(reload) + callback, report);
  }

  /**
   * Editing an event whose id is not in the list sends no request, reports
   * one save failure, does not call back and keeps the list.
   */
  lemma SaveWithoutBaselineFails(c: Collaborators, hasOnSave: bool, events: seq<Event>,
                                 data: Event, reply: Reply, reload: ListReply)
    requires forall e :: e in events ==> e.id != data.id
    ensures var t := SaveTrace(c, true, hasOnSave, events, data, reply, reload);
      Requests(t) == [] && Reports(t) == [SaveFail] && Callbacks(t) == 0 && After(events, t) == events
  {
  }

  /**
   * Editing an event whose recurrence classification is unchanged puts the
   * whole incoming event to its id, and writes nothing else.
   */
  lemma SaveSameClassificationPuts(c: Collaborators, hasOnSave: bool, events: seq<Event>,
                                   data: Event, existing: Event, reply: Reply, reload: ListReply)
    requires Find(events, data.id) == Some(existing)
    requires c.isRepeating(data) == c.isRepeating(existing)
    ensures Writes(SaveTrace(c, true, hasOnSave, events, data, reply, reload)) == [Put(data.id, data)]
  {
    SaveSendsAtMostOneWrite(c, true, hasOnSave, events, data, reply, reload);
  }

  /**
   * Editing a standalone event into a repeating one creates the expanded
   * series as one batch, and neither puts nor creates a single event.
   */
  lemma SaveBecomingRepeatingPostsSeries(c: Collaborators, hasOnSave: bool, events: seq<Event>,
                                         data: Event, existing: Event, reply: Reply, reload: ListReply)
    requires Find(events, data.id) == Some(existing)
    requires c.isRepeating(data) && !c.isRepeating(existing)
    ensures Writes(SaveTrace(c, true, hasOnSave, events, data, reply, reload)) ==
      [PostList(c.generateRepeatEvents(data))]
  {
    SaveSendsAtMostOneWrite(c, true, hasOnSave, events, data, reply, reload);
  }

  /**
   * Editing a repeating event into a standalone one puts the incoming event
   * to its id, and creates no batch.
   */
  lemma SaveBecomingStandalonePuts(c: Collaborators, hasOnSave: bool, events: seq<Event>,
                                   data: Event, existing: Event, reply: Reply, reload: ListReply)
    requires Find(events, data.id) == Some(existing)
    requires !c.isRepeating(data) && c.isRepeating(existing)
    ensures Writes(SaveTrace(c, true, hasOnSave, events, data, reply, reload)) == [Put(data.id, data)]
  {
    SaveSendsAtMostOneWrite(c, true, hasOnSave, events, data, reply, reload);
  }

  /**
   * Creating a repeating event sends its expansion as one batch and never a
   * single create; creating a standalone event sends it as one single create.
   */
  lemma SaveNewEventCreates(c: Collaborators, hasOnSave: bool, events: seq<Event>,
                            data: Event, reply: Reply, reload: ListReply)
    ensures Writes(SaveTrace(c, false, hasOnSave, events, data, reply, reload)) ==
      if c.isRepeating(data) then [PostList(c.generateRepeatEvents(data))] else [Post(data)]
  {
    SaveSendsAtMostOneWrite(c, false, hasOnSave, events, data, reply, reload);
  }

  /**
   * A write the store does not answer with ok ends the save: no reload, no
   * call back, one save failure, and the list unchanged.
   */
  lemma SaveFailureChangesNothing(c: Collaborators, editing: bool, hasOnSave: bool, events: seq<Event>,
                                  data: Event, reply: Reply, reload: ListReply)
    requires SaveRequest(c, editing, events, data).Some?
    requires reply != Ok
    ensures var t := SaveTrace(c, editing, hasOnSave, events, data, reply, reload);
      Requests(t) == [SaveRequest(c, editing, events, data).value] &&
      Reports(t) == [SaveFail] && Callbacks(t) == 0 && After(events, t) == events
  {
    var request := SaveRequest(c, editing, events, data).value;
    ProjectionsAppend([Sent(request)], [Reported(SaveFail)]);
    AfterAppend(events, [Sent(request)], [Reported(SaveFail)]);
  }

  /**
   * A write answered ok is followed, in this order, by the reload, the
   * post-save callback (once, when there is one) and the save success, which
   * says "updated" exactly when editing, whichever request was sent. The list
   * ends as the reload left it.
   */
  lemma SaveSuccessReloadsThenCallsBack(c: Collaborators, editing: bool, hasOnSave: bool, events: seq<Event>,
                                        data: Event, reply: Reply, reload: ListReply)
    requires SaveRequest(c, editing, events, data).Some?
    requires reply == Ok
    ensures var t := SaveTrace(c, editing, hasOnSave, events, data, reply, reload);
      var done := |t| - (if hasOnSave then 2 else 1);
      && 0 <= done
      && t[|t| - 1] == Reported(SaveOk(if editing then Updated else Created))
      && (hasOnSave ==> t[|t| - 2] == SaveCallback)
      && Requests(t[..done]) == [SaveRequest(c, editing, events, data).value, List]
      && Callbacks(t[..done]) == 0
      && Callbacks(t) == (if hasOnSave then 1 else 0)
      && Reports(t) == LoadReports(reload) + [SaveOk(if editing then Updated else Created)]
      && After(events, t) == After(events, LoadTrace(reload))
  {
    var request := SaveRequest(c, editing, events, data).value;
    assert SaveTrace(c, editing, hasOnSave, events, data, reply, reload) ==
           [Sent(request)] + SaveSettled(editing, hasOnSave, reload);
    SettledAfterWrite(request, editing, hasOnSave, events, reload);
  }

  /** The order of events after a write answered ok, whatever the write was. */
  lemma SettledAfterWrite(request: Request, editing: bool, hasOnSave: bool, events: seq<Event>,
                          reload: ListReply)
    ensures var t := [Sent(request)] + SaveSettled(editing, hasOnSave, reload);
      var done := |t| - (if hasOnSave then 2 else 1);
      && 0 <= done
      && t[|t| - 1] == Reported(SaveOk(if editing then Updated else Created))
      && (hasOnSave ==> t[|t| - 2] == SaveCallback)
      && Requests(t[..done]) == [request, List]
      && Callbacks(t[..done]) == 0
      && Callbacks(t) == (if hasOnSave then 1 else 0)
      && Reports(t) == LoadReports(reload) + [SaveOk(if editing then Updated else Created)]
      && After(events, t) == After(events, LoadTrace(reload))
  {
    var t := [Sent(request)] + SaveSettled(editing, hasOnSave, reload);
    var callback := if hasOnSave then [SaveCallback] else [];
    var report := [Reported(SaveOk(if editing then Updated else Created))];
    var reloaded := [Sent(request)] + LoadTrace(reload);
    assert t == reloaded + (callback + report) by {
      AppendAssoc([Sent(request)], LoadTrace(reload) + callback, report);
      AppendAssoc([Sent(request)], LoadTrace(reload), callback);
      AppendAssoc(reloaded, callback, report);
    }
    var done := |t| - (if hasOnSave then 2 else 1);
    assert t[..done] == reloaded;
    LoadTraceProjections(reload);
    ProjectionsAppend([Sent(request)], LoadTrace(reload));
    SaveSettledProjections(editing, hasOnSave, reload);
    ProjectionsAppend([Sent(request)], SaveSettled(editing, hasOnSave, reload));
    AfterAppend(events, reloaded, callback + report);
    AfterWithoutReplace(After(events, reloaded), callback + report);
    AfterAppend(events, [Sent(request)], LoadTrace(reload));
  }
}
