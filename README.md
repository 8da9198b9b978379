# Event operations: a verified model of the calendar sync controller

This project models the event-operations hook of a calendar client
(`src/hooks/useEventOperations.ts`). The hook holds the client's list of
calendar events. It keeps that list in step with a remote event store
through four operations:

- `fetchEvents` reads the whole list from the store. On success it replaces
  the held list with the returned one. On failure it keeps the list and
  reports a load failure.
- `saveEvent` picks one write request, then reloads on success. The choice
  depends on the hook's `editing` flag, on the stored copy of the event
  (looked up by id in the held list) and on the recurrence classification of
  the incoming and the stored event.
- `deleteEvent` deletes one event by id and reloads on success.
- `init` loads once at start-up, then shows a "ready" notice.

Every failure is reported once and changes nothing. Every successful write
is followed by a full reload; the list is never patched in place.

## How the model is built

- `EventLog` (event_log.dfy) holds the values: events, the requests sent to
  the store (`Put`, `PostList`, `Post`, `Delete`, `List`) and the outcomes
  reported to the user (`SaveOk(Created|Updated)`, `SaveFail`, `LoadFail`,
  `DeleteOk`, `DeleteFail`, `Ready`). A log is a sequence of entries. An
  entry is a request sent, an outcome reported, a replacement of the list
  (the hook's `setEvents`) or a call of the post-save callback. `Requests`,
  `Writes`, `Reports` and `Callbacks` project a log. `After` gives the list
  that a log leaves behind.
- `EventOperations` (event_operations.dfy) holds the decision and the
  controller. `Find` is the lookup by id. `SaveRequest` is the write a save
  sends, or none when editing finds no stored copy. `LoadTrace`,
  `SaveTrace`, `DeleteTrace` and `InitTrace` are the logs each operation
  produces, given the store's answers. `Controller` is a class with the
  fields `events`, `editing` and `hasOnSave`, the constant `collaborators`,
  and a ghost `log`. Its methods
  follow the source step by step. Each is proved to append exactly the
  operation's trace to `log` and to leave `events` as that trace dictates.
  The class invariant `Valid()` says that `events` is always the list of the
  latest successful load, or empty before the first one.
- `SyncProperties` (sync_properties.dfy) proves what the hook promises, as
  lemmas over those traces.

The store is abstract. Each method takes the store's answer to its write
(`Reply`: `Ok`, `NotOk` or `Rejected`) and to the reload that may follow
(`ListReply`: `Listed(events)` or `ListFailed`). An answer that a run does
not ask for is ignored. Every request is an awaited `fetch`, which either
resolves to a response or rejects. `Rejected` for a write, and `ListFailed`
for a load, stand for a rejected fetch as well as for a response that is
not ok. The source throws that error and catches it (lines 21, 107 and 133
of `src/hooks/useEventOperations.ts`); the model returns a value instead,
and the logged trace is the same. The imported classifier `isRepeatingEvent` and the
series expansion `generateRepeatEvents` are not part of this model. They
are function-valued fields of `Collaborators`, so every property holds for
any classifier and any expansion.

Points where the code behaves in a way a reader might not expect:

- A same-classification edit issues a `PUT` whether both events are
  standalone or both are repeating.
- The repeat-change path does not itself reject a response that is not ok.
  It hands the response back, and the save's own check turns it into the
  save failure. A rejected fetch it logs and rethrows, and the save catches
  it as a save failure.
- A save whose write succeeded reports success even when the reload after
  it fails. The log then holds the load failure followed by the save
  success.
- `find` compares ids with `===`. An event form without an id therefore
  matches a stored event that also has no id. `Event.id` is an `Option`, and
  `Find` keeps that behaviour.

## Model

| member | source | states |
|---|---|---|
| `EventOperations.Find` | src/hooks/useEventOperations.ts:62 | the result is absent exactly when no event in the list has the given id; otherwise it is the first event in list order whose id matches |
| `EventOperations.SaveRequest` | src/hooks/useEventOperations.ts:59-93 | no write is picked exactly when editing and no stored event has the incoming id; a put is picked only when editing, to the incoming id with the whole incoming event; a batch create only for a repeating incoming event, carrying its expansion; a single create only when not editing and the event is standalone; never a delete or a list |
| `EventOperations.Controller.constructor` | src/hooks/useEventOperations.ts:9-10 | the hook starts with an empty event list and an empty log, holding its `editing` and `onSave` arguments |
| `EventOperations.Controller.Render` | src/hooks/useEventOperations.ts:9 | a later render replaces the `editing` and `onSave` arguments and keeps the list |
| `EventOperations.Controller.FetchEvents` | src/hooks/useEventOperations.ts:13-30 | sends one list request; on success the list becomes the returned list; on failure the list is kept and one load failure is reported; the list invariant is kept |
| `EventOperations.Controller.UpdateEventWithRepeatChange` | src/hooks/useEventOperations.ts:32-55 | sends exactly one request: a batch create of the expansion when the incoming event is repeating, otherwise a put of the event to its id; returns the store's answer unchanged |
| `EventOperations.Controller.SaveEvent` | src/hooks/useEventOperations.ts:57-116 | appends exactly the save trace to the log and leaves the list as that trace dictates, keeping the list invariant |
| `EventOperations.Controller.DeleteEvent` | src/hooks/useEventOperations.ts:118-142 | appends exactly the delete trace to the log and leaves the list as that trace dictates, keeping the list invariant |
| `EventOperations.Controller.Init` | src/hooks/useEventOperations.ts:144-151 | appends one load followed by the ready notice, keeping the list invariant |
| `SyncProperties.LoadReplacesOrKeeps` | src/hooks/useEventOperations.ts:13-30 | a load sends exactly one list request; a successful load, an empty list included, replaces the list wholesale and reports nothing; a failed load keeps the list and reports one load failure |
| `SyncProperties.LoadIsIdempotent` | src/hooks/useEventOperations.ts:13-20 | loading twice from an unchanged store leaves the same list as loading once |
| `SyncProperties.InitLoadsOnceThenReady` | src/hooks/useEventOperations.ts:144-151 | start-up sends one list request and reports "ready" after the load's own reports, whether the load worked or not |
| `SyncProperties.DeleteSendsOneRequest` | src/hooks/useEventOperations.ts:118-142 | a delete sends exactly one delete for the id; on ok it reloads once and reports a delete success; otherwise it sends nothing more, reports one delete failure and keeps the list |
| `SyncProperties.SaveSendsAtMostOneWrite` | src/hooks/useEventOperations.ts:59-99 | a save sends no request when the decision picks none, and otherwise exactly the picked write, followed by one list request only if the write was answered ok; nothing is retried |
| `SyncProperties.SaveSettledProjections` | src/hooks/useEventOperations.ts:99-106 | after an ok write a save lists once, writes nothing more, calls back once when a callback is given, and reports the load's outcome and then one save success |
| `SyncProperties.SaveWithoutBaselineFails` | src/hooks/useEventOperations.ts:60-64 | editing an event whose id is in no stored event sends no request, reports exactly one save failure, does not call back and keeps the list |
| `SyncProperties.SaveSameClassificationPuts` | src/hooks/useEventOperations.ts:67-74 | editing with an unchanged recurrence classification writes exactly one put, to the event's id, carrying the full incoming event |
| `SyncProperties.SaveBecomingRepeatingPostsSeries` | src/hooks/useEventOperations.ts:35-42 | editing a standalone event into a repeating one writes exactly one batch create carrying the expansion of the incoming event, and no put or single create |
| `SyncProperties.SaveBecomingStandalonePuts` | src/hooks/useEventOperations.ts:43-49 | editing a repeating event into a standalone one writes exactly one put to the event's id with the incoming event, and no batch create |
| `SyncProperties.SaveNewEventCreates` | src/hooks/useEventOperations.ts:79-93 | creating a repeating event writes exactly one batch create of its expansion and never a single create; creating a standalone event writes exactly one single create of the event |
| `SyncProperties.SaveFailureChangesNothing` | src/hooks/useEventOperations.ts:95-115 | a write not answered ok is the only request, there is no reload and no call back, exactly one save failure is reported and the list is unchanged |
| `SyncProperties.SaveSuccessReloadsThenCallsBack` | src/hooks/useEventOperations.ts:99-106 | after an ok write come, in order, the reload, the callback (once, if given) and the save success; the success says "updated" exactly when editing, whichever request was sent; the list ends as the reload left it |

## Left out

- EventOperations.Controller.UpdateEventWithRepeatChange: the rethrow of a
  rejected fetch (line 53) is modelled as returning `Rejected`, which the
  save then treats as the failure it would have caught; the error object
  and its propagation are not modelled.
- `Event` keeps only what the hook reads: the optional id. All other fields
  of the app's event record are carried as an opaque map, since only the
  collaborators inspect them.
- Network I/O is not modelled: `fetch`, URLs, headers and JSON encoding and
  decoding. A request is an abstract tag with its payload, and an answer is
  ok, not ok, rejected, or a list.
- A list response whose body cannot be decoded, or that lacks the `events`
  field, is not modelled separately. A failing decode counts as a failed
  load (`ListFailed`), and a missing field is not modelled.
- React machinery is not modelled: `useState`, `useEffect` and the hook
  lifecycle. `setEvents` is a field assignment. `init` is an ordinary method
  that the caller runs once after construction.
- Notification details are not modelled: titles, severity, duration and
  closability. Only the outcome tag is logged. `console.error` logging is
  left out.
- Asynchronous interleaving is not modelled. Each operation runs as one
  sequential method, so the race between overlapping reloads cannot arise.
- The internals of `isRepeatingEvent` and `generateRepeatEvents` are not
  modelled. Their source is not part of this model, so they are arbitrary
  functions supplied from outside. Both are assumed to return normally. A
  throw from either, or from the `onSave` callback, is not modelled.
- The classifier's independence from the presence of an id is not stated,
  since the classifier's definition is not part of this model.
