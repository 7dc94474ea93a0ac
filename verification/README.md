# Ad-schedule form: draft state machine

A Dafny model of the local logic of the ad-schedule form (`src/App.tsx`, the
`App` component). The user types an ad code and picks a start and an end
date-time. When one bound is moved past the other, the component pushes the
other bound by a default duration of 60 seconds. Pressing "+ new" either
shows a "missing start/end" notice or issues one create request to the
backing store. The list of schedules is replaced with whatever the store's
live query pushes.

The event handlers are lifted out as pure transitions over an immutable
`State`:

- `options.dfy`: `Options.Option`, the component's `Date | null`.
- `time.dfy`: timestamps are integer epoch milliseconds. A `Date` compared with
  `>=` or `<=` is coerced to `getTime()`. `addSeconds` is `t + seconds * 1000`.
  The default duration is 60 seconds.
- `draft.dfy`: the state, the initial state `Init(startRead, endRead)`, and the handlers
  `SetStart`, `SetEnd`, `SetCode`, `OnSnapshot` and `Submit`. `Submit`
  returns an `Outcome`, either `Alert(message)` or `Create(request)`.
- `session.dfy`: a session is the initial state followed by a sequence of
  events, each handled before the next. This matches React, which re-renders
  between two user events. The module proves that both bounds stay set in
  every reachable state, so the notice branch of "+ new" is dead code. It also
  proves that start stays strictly before end, given the clock condition
  below. `Replay` runs a session and collects one create per press.

The component reads the clock twice at first render, once for each initial
bound (lines 11 and 12). The two readings are the parameters `startRead` and
`endRead`. The initial bounds are ordered exactly when `endRead` is less than
two minutes behind `startRead`. An ordinary clock guarantees this, but a clock
set back between the two reads does not. Only the results about start being
before end assume it. Both bounds are set from the first render on whatever
the clock did, so every press of "+ new" creates under any clock readings.
The store's
`create` call is modelled as the emitted `CreateRequest` value. The live
query's subscription is modelled as the `Pushed(items)` event.

The adjustment rule is easy to read as keeping the bounds at least 60 seconds
apart. The code only keeps start strictly before end. When the
bounds do not cross, the other bound is left where it is. This model follows
the code. `Session.ShortWindowReachable` shows a reachable one-millisecond
window.

## Model

| member | source | states |
|---|---|---|
| Time.AddSeconds | src/App.tsx:33-35 | shifting by a positive count of seconds moves strictly later, a negative count strictly earlier, zero not at all |
| Draft.Init | src/App.tsx:10-13 | the first state has start 30 s after the first clock reading and end 150 s after the second; the bounds are ordered if and only if the second reading is less than 120 s behind the first; the code is empty and the list is empty |
| Draft.SetStart | src/App.tsx:63-69 | a null pick changes nothing; otherwise start becomes the pick and the bounds end up ordered whatever came before; end moves exactly when it was missing or not after the pick, and then to pick + 60 s; end never moves back; code and list are untouched |
| Draft.SetEnd | src/App.tsx:82-88 | the mirror rule: a null pick changes nothing; otherwise end becomes the pick, the bounds end up ordered, and start moves exactly when it was missing or not before the pick, and then to pick − 60 s; start never moves forward |
| Draft.SetCode | src/App.tsx:42-44 | the code becomes the typed text verbatim; start, end and list are unchanged, so orderedness is unchanged |
| Draft.OnSnapshot | src/App.tsx:15-19 | the list becomes exactly the pushed items, in order and with duplicates; the draft is unchanged |
| Draft.Submit | src/App.tsx:21-31 | the outcome is the notice if and only if a bound is missing, and the notice carries the fixed message; otherwise it is one create carrying the draft code, start and end verbatim |
| Draft.SubmitOrderedCreates | src/App.tsx:21-31 | on an ordered draft, submitting always creates, with start before end |
| Draft.SetStartIdempotent | src/App.tsx:63-69 | picking the same start twice equals picking it once |
| Draft.SetEndIdempotent | src/App.tsx:82-88 | picking the same end twice equals picking it once |
| Draft.StartPastEndThenSubmit | src/App.tsx:63-69 | a start picked at or after the current end, then "+ new", creates with end = start + 60 s |
| Draft.EndBeforeStartThenSubmit | src/App.tsx:82-88 | an end picked at or before the current start, then "+ new", creates with start = end − 60 s |
| Draft.PushedEndIsStable | src/App.tsx:63-88 | after a start pick has pushed end, picking end at the pushed instant (start + 60 s) changes nothing |
| Draft.PulledStartIsStable | src/App.tsx:63-88 | after an end pick has pulled start back, picking start at the pulled instant (end − 60 s) changes nothing |
| Session.Step | src/App.tsx:17-97 | one event dispatched to its handler (live-query push, text area, start picker, end picker, "+ new"); a press of "+ new" leaves the local state unchanged, only a push changes the list, and set bounds stay set and ordered bounds stay ordered |
| Session.Run | src/App.tsx:17-97 | the state after a sequence of events handled one at a time; once both bounds are set they stay set, and presses of "+ new" alone change nothing |
| Session.Outcomes | src/App.tsx:21-31 | the outcomes of the presses of "+ new" in a session, one per press and none for other events; from a state with both bounds set every outcome is a create |
| Session.RunPreservesOrdered | src/App.tsx:63-89 | every sequence of events keeps an ordered draft ordered |
| Session.ReachableOrdered | src/App.tsx:11-89 | when the two first-render clock readings left the bounds ordered, every state reachable from the first render has both bounds set and start before end |
| Session.ReachableSubmitNeverAlerts | src/App.tsx:21-31 | under any clock readings, in every state reachable from the first render both bounds are set and "+ new" creates the current draft, never the notice |
| Session.ReachableSubmitCreates | src/App.tsx:21-31 | under the same clock condition, in every reachable state "+ new" creates the current draft, never the notice, and the created window is non-empty |
| Session.ReachableOutcomesAllCreate | src/App.tsx:21-31 | under any clock readings, a session from the first render yields one outcome per press of "+ new" and every one is a create |
| Session.ListIsLastPush | src/App.tsx:15-19 | after any events the list equals the most recent push verbatim, or the initial list when there was none; no other event changes it |
| Session.ShortWindowReachable | src/App.tsx:63-69 | a single start pick just below the initial end leaves a one-millisecond window: the rule does not keep 60 s apart |
| Session.Replay | src/App.tsx:21-31 | replaying a session returns one outcome per press, equal to what `Submit` gave in the state at that press, every one a create, and ends with both bounds set; under the clock condition it also ends ordered and every create has start before end |

## Left out

- The generated store client (`generateClient`, `observeQuery().subscribe`, `create`): a managed external service. Creates are emitted values and pushes are events.
- `toISOString`: a JavaScript built-in that can throw on an invalid date. `CreateRequest` carries the raw milliseconds, and `ScheduleRecord.start`/`end` are opaque strings.
- `formatDateTime` / `toLocaleString`: the result depends on locale and timezone, so there is no stable behaviour to state.
- JSX rendering, the picker configuration (15-minute steps, display formats) and the `alert` dialog itself: presentation only. The notice is the `Alert` outcome.
- React state batching, stale closures, effect lifecycle and the never-released subscription: each handler is treated as an atomic step that reads the state of the last render.
- Invalid dates (NaN), fractional milliseconds and the finite range of a JavaScript `Date` (±8.64e15 ms): timestamps are unbounded integers.
