/** The schedule form's local state and the transitions its event handlers
    perform on it.

    Each handler is a pure function from the current state (the values the
    handler read when the component last rendered) to the next state. React
    re-renders between two user events, so running the handlers one after
    another is faithful to the component.
 */
module Draft {
  import opened Options
  import opened Time

  /** One persisted ad schedule as the live query reports it. The store
      assigns `id`; `start` and `end` are the ISO-8601 strings written on
      creation, and are only displayed, never interpreted here. */
  datatype ScheduleRecord = ScheduleRecord(id: string, code: string, start: string, end: string)

  /** Local component state: the known schedules and the draft of the next one. */
  datatype State = State(
    schedules: seq<ScheduleRecord>,
    start: Option<Millis>,
    end: Option<Millis>,
    code: string)

  /** The fields handed to the store's `create` call. */
  datatype CreateRequest = CreateRequest(code: string, start: Millis, end: Millis)

  /** What pressing "+ new" does: show the blocking notice, or issue one create. */
  datatype Outcome = Alert(message: string) | Create(request: CreateRequest)

  /** The text of the only error the component reports. */
  const MissingBoundsMessage: string := "Please select both start and end date/times"

  /** Both draft bounds are present: the only thing "+ new" checks. */
  predicate BothSet(s: State) {
    s.start.Some? && s.end.Some?
  }

  /** Both draft bounds are present and start lies strictly before end. */
  predicate Ordered(s: State) {
    BothSet(s) && s.start.value < s.end.value
  }

  /** The state on first render. The component reads the clock twice: once
      for the initial start (`startRead`, 30 seconds ahead) and once more for
      the initial end (`endRead`, 150 seconds ahead). Nothing is typed and the
      list is empty. The bounds come out ordered exactly when the second
      reading is not two minutes or more behind the first, which an ordinary
      clock guarantees but a clock set back in between does not. */
  function Init(startRead: Millis, endRead: Millis): (r: State)
    ensures BothSet(r)
    ensures r.start.value - startRead == 30_000 && r.end.value - endRead == 150_000
    ensures Ordered(r) <==> startRead - endRead < 120_000
    ensures r.code == [] && r.schedules == []
  {
    State([], Some(startRead + 30 * 1000), Some(endRead + 150 * 1000), "")
  }

  /** The start picker's change handler. A cleared picker (`None`) is ignored.
      Otherwise start takes the picked instant, and when end is missing or no
      longer after it, end is pushed to the picked instant plus the default
      duration. */
  function SetStart(s: State, date: Option<Millis>): (r: State)
    ensures date.None? ==> r == s
    ensures date.Some? ==> r.start == date && r.code == s.code && r.schedules == s.schedules
    // whatever the previous state, a picked start leaves the bounds ordered
    ensures date.Some? ==> Ordered(r)
    // end moves exactly when it was missing or not after the picked start ...
    ensures date.Some? ==> (r.end == s.end <==> s.end.Some? && date.value < s.end.value)
    // ... and then lands one default duration after it
    ensures date.Some? && r.end != s.end ==> r.end.value == date.value + DefaultAdsDurationMillis
    // end is never pulled back
    ensures s.end.Some? ==> r.end.Some? && s.end.value <= r.end.value
  {
    match date
    case None => s
    case Some(d) =>
      var end := if s.end.None? || d >= s.end.value
                 then Some(AddSeconds(d, DefaultAdsDurationSeconds))
                 else s.end;
      s.(start := Some(d), end := end)
  }

  /** The end picker's change handler, the mirror of `SetStart`: end takes the
      picked instant, and when start is missing or not before it, start is
      pulled back to the picked instant minus the default duration. */
  function SetEnd(s: State, date: Option<Millis>): (r: State)
    ensures date.None? ==> r == s
    ensures date.Some? ==> r.end == date && r.code == s.code && r.schedules == s.schedules
    ensures date.Some? ==> Ordered(r)
    ensures date.Some? ==> (r.start == s.start <==> s.start.Some? && s.start.value < date.value)
    ensures date.Some? && r.start != s.start ==> r.start.value == date.value - DefaultAdsDurationMillis
    // start is never pushed forward
    ensures s.start.Some? ==> r.start.Some? && r.start.value <= s.start.value
  {
    match date
    case None => s
    case Some(d) =>
      var start := if s.start.None? || d <= s.start.value
                   then Some(AddSeconds(d, -1 * DefaultAdsDurationSeconds))
                   else s.start;
      s.(start := start, end := Some(d))
  }

  /** The code text area's change handler: the text is stored verbatim and
      nothing else moves. */
  function SetCode(s: State, code: string): (r: State)
    ensures r.code == code
    ensures r.start == s.start && r.end == s.end && r.schedules == s.schedules
    ensures Ordered(r) <==> Ordered(s)
  {
    s.(code := code)
  }

  /** A push from the live query: the list becomes exactly the pushed items,
      in the store's order and with any duplicates, and the draft is untouched. */
  function OnSnapshot(s: State, items: seq<ScheduleRecord>): (r: State)
    ensures r.schedules == items
    ensures r.start == s.start && r.end == s.end && r.code == s.code
    ensures Ordered(r) <==> Ordered(s)
  {
    s.(schedules := items)
  }

  /** The "+ new" button. With a bound missing the only effect is the notice;
      otherwise exactly one create request is issued, carrying the current
      draft verbatim. The local state is not an output, so it cannot change. */
  function Submit(s: State): (o: Outcome)
    ensures o.Alert? <==> !BothSet(s)
    ensures o.Alert? ==> o.message == MissingBoundsMessage
    ensures o.Create? ==> o.request.code == s.code
                          && Some(o.request.start) == s.start
                          && Some(o.request.end) == s.end
  {
    if s.start.Some? && s.end.Some? then
      Create(CreateRequest(s.code, s.start.value, s.end.value))
    else
      Alert(MissingBoundsMessage)
  }

  /** On an ordered draft `Submit` always creates, and what it creates has
      start strictly before end. */
  lemma SubmitOrderedCreates(s: State)
    requires Ordered(s)
    ensures Submit(s).Create?
    ensures Submit(s).request.start < Submit(s).request.end
  {
  }

  /** Picking the same start twice is the same as picking it once: after the
      first pick end is already after the picked start. */
  lemma SetStartIdempotent(s: State, date: Option<Millis>)
    ensures SetStart(SetStart(s, date), date) == SetStart(s, date)
  {
  }

  /** Picking the same end twice is the same as picking it once. */
  lemma SetEndIdempotent(s: State, date: Option<Millis>)
    ensures SetEnd(SetEnd(s, date), date) == SetEnd(s, date)
  {
  }

  /** Choosing a start at or past the current end, then submitting, creates a
      schedule whose end is the chosen start plus the default duration. */
  lemma StartPastEndThenSubmit(s: State, d: Millis)
    requires s.end.Some? && d >= s.end.value
    ensures Submit(SetStart(s, Some(d))) == Create(CreateRequest(s.code, d, d + 60_000))
  {
  }

  /** Choosing an end at or before the current start, then submitting,
      creates a schedule whose start is the chosen end minus the default
      duration. */
  lemma EndBeforeStartThenSubmit(s: State, d: Millis)
    requires s.start.Some? && d <= s.start.value
    ensures Submit(SetEnd(s, Some(d))) == Create(CreateRequest(s.code, d - 60_000, d))
  {
  }

  /** Once a start pick has pushed end, picking end at the instant it was
      pushed to changes nothing: the pushed end is already one default
      duration after start, so the end rule does not react. */
  lemma PushedEndIsStable(s: State, d: Millis)
    requires s.end.None? || d >= s.end.value
    ensures SetEnd(SetStart(s, Some(d)), Some(AddSeconds(d, DefaultAdsDurationSeconds)))
            == SetStart(s, Some(d))
  {
  }

  /** The mirror: once an end pick has pulled start back, picking start at the
      instant it was pulled to changes nothing. */
  lemma PulledStartIsStable(s: State, d: Millis)
    requires s.start.None? || d <= s.start.value
    ensures SetStart(SetEnd(s, Some(d)), Some(AddSeconds(d, -1 * DefaultAdsDurationSeconds)))
            == SetEnd(s, Some(d))
  {
  }
}
