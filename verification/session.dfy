/** A whole session of the form: the component is created at some instant
    and then receives a sequence of events (picker changes, typing, pushes
    from the live query, presses of "+ new"), each handled to completion
    before the next.
 */
module Session {
  import opened Options
  import opened Time
  import opened Draft

  /** One event delivered to the component. */
  datatype Event =
    | StartPicked(date: Option<Millis>)
    | EndPicked(date: Option<Millis>)
    | CodeTyped(text: string)
    | Pushed(items: seq<ScheduleRecord>)
    | Submitted

  /** The state after one event: the component's wiring of the live query,
      the text area, the two pickers and the "+ new" button to their handlers.
      A press of "+ new" leaves the local state as it is: its only effect is
      the outcome `Submit` returns. */
  function Step(s: State, e: Event): (r: State)
    ensures e.Submitted? ==> r == s
    ensures !e.Pushed? ==> r.schedules == s.schedules
    ensures BothSet(s) ==> BothSet(r)
    ensures Ordered(s) ==> Ordered(r)
  {
    match e
    case StartPicked(d) => SetStart(s, d)
    case EndPicked(d) => SetEnd(s, d)
    case CodeTyped(t) => SetCode(s, t)
    case Pushed(items) => OnSnapshot(s, items)
    case Submitted => s
  }

  /** The state after handling `evs` in order, starting from `s`. Once both
      bounds are set they stay set, and presses of "+ new" alone change
      nothing. */
  function Run(s: State, evs: seq<Event>): (r: State)
    ensures BothSet(s) ==> BothSet(r)
    ensures (forall i :: 0 <= i < |evs| ==> evs[i].Submitted?) ==> r == s
    decreases |evs|
  {
    if |evs| == 0 then s else Step(Run(s, evs[..|evs| - 1]), evs[|evs| - 1])
  }

  /** The outcomes of the presses of "+ new" in `evs`, in order: one per
      press and none for any other event. When both bounds start out set,
      every outcome is a create. */
  function Outcomes(s: State, evs: seq<Event>): (outs: seq<Outcome>)
    ensures |outs| == CountSubmits(evs)
    ensures BothSet(s) ==> forall i :: 0 <= i < |outs| ==> outs[i].Create?
    decreases |evs|
  {
    if |evs| == 0 then []
    else
      var prev := Outcomes(s, evs[..|evs| - 1]);
      if evs[|evs| - 1].Submitted?
      then prev + [Submit(Run(s, evs[..|evs| - 1]))]
      else prev
  }

  /** How many presses of "+ new" `evs` holds. */
  function CountSubmits(evs: seq<Event>): (n: nat)
    decreases |evs|
  {
    if |evs| == 0 then 0
    else CountSubmits(evs[..|evs| - 1]) + (if evs[|evs| - 1].Submitted? then 1 else 0)
  }

  /** The items of the most recent push in `evs`, if there was one. */
  function LastPush(evs: seq<Event>): (items: Option<seq<ScheduleRecord>>)
    decreases |evs|
  {
    if |evs| == 0 then None
    else if evs[|evs| - 1].Pushed? then Some(evs[|evs| - 1].items)
    else LastPush(evs[..|evs| - 1])
  }

  /** Every state reached from an ordered state is ordered. */
  lemma {:induction false} RunPreservesOrdered(s: State, evs: seq<Event>)
    requires Ordered(s)
    ensures Ordered(Run(s, evs))
    decreases |evs|
  {
    if |evs| > 0 {
      RunPreservesOrdered(s, evs[..|evs| - 1]);
    }
  }

  /** In every state reachable from the first render, start and end are both
      set and start is strictly before end, provided the two clock readings
      taken at first render left the initial bounds ordered. */
  lemma ReachableOrdered(startRead: Millis, endRead: Millis, evs: seq<Event>)
    requires startRead - endRead < 120_000
    ensures Ordered(Run(Init(startRead, endRead), evs))
  {
    RunPreservesOrdered(Init(startRead, endRead), evs);
  }

  /** The "missing start/end" notice is dead code whatever the clock did at
      first render: both bounds start out set and no handler clears one, so
      in every reachable state pressing "+ new" creates the current draft. */
  lemma ReachableSubmitNeverAlerts(startRead: Millis, endRead: Millis, evs: seq<Event>)
    ensures var s := Run(Init(startRead, endRead), evs);
            BothSet(s) && Submit(s) == Create(CreateRequest(s.code, s.start.value, s.end.value))
  {
  }

  /** When the clock readings at first render left the bounds ordered, the
      create issued by "+ new" in every reachable state also has a non-empty
      window. */
  lemma ReachableSubmitCreates(startRead: Millis, endRead: Millis, evs: seq<Event>)
    requires startRead - endRead < 120_000
    ensures var s := Run(Init(startRead, endRead), evs);
            s.start.Some? && s.end.Some? && s.start.value < s.end.value
            && Submit(s) == Create(CreateRequest(s.code, s.start.value, s.end.value))
  {
    ReachableOrdered(startRead, endRead, evs);
  }

  /** Over a whole session from the first render, whatever the two clock
      readings, every press of "+ new" yields a create and never the notice. */
  lemma ReachableOutcomesAllCreate(startRead: Millis, endRead: Millis, evs: seq<Event>)
    ensures |Outcomes(Init(startRead, endRead), evs)| == CountSubmits(evs)
    ensures forall i :: 0 <= i < |Outcomes(Init(startRead, endRead), evs)| ==>
              Outcomes(Init(startRead, endRead), evs)[i].Create?
  {
  }

  /** The list shown is always the most recent push, verbatim; before any
      push it is the list the session started with. Presses of "+ new" never
      touch it. */
  lemma {:induction false} ListIsLastPush(s: State, evs: seq<Event>)
    ensures LastPush(evs).Some? ==> Run(s, evs).schedules == LastPush(evs).value
    ensures LastPush(evs).None? ==> Run(s, evs).schedules == s.schedules
    decreases |evs|
  {
    if |evs| > 0 {
      ListIsLastPush(s, evs[..|evs| - 1]);
    }
  }

  /** The auto-adjustment only reacts when the bounds would cross, so the
      window can end up far shorter than the default duration: one picked
      start just below the initial end leaves a one-millisecond window. */
  lemma ShortWindowReachable()
    ensures var s := Run(Init(0, 0), [StartPicked(Some(149_999))]);
            Ordered(s) && s.end.value - s.start.value == 1
  {
    var evs := [StartPicked(Some(149_999))];
    assert evs[..0] == [];
  }

  /** Replays a session from the first render, collecting what each press of
      "+ new" produced. Every collected outcome is a create, there is one per
      press, and each carries the draft as it stood when it was pressed. That
      each create has start before end needs the two clock readings at first
      render to have left the initial bounds ordered. */
  method Replay(startRead: Millis, endRead: Millis, evs: seq<Event>) returns (s: State, outs: seq<Outcome>)
    ensures s == Run(Init(startRead, endRead), evs)
    ensures |outs| == CountSubmits(evs)
    ensures outs == Outcomes(Init(startRead, endRead), evs)
    ensures BothSet(s)
    ensures forall i :: 0 <= i < |outs| ==> outs[i].Create?
    ensures startRead - endRead < 120_000 ==> Ordered(s)
    ensures startRead - endRead < 120_000 ==>
              forall i :: 0 <= i < |outs| ==> outs[i].request.start < outs[i].request.end
  {
    s := Init(startRead, endRead);
    outs := [];
    var k := 0;
    while k < |evs|
      invariant 0 <= k <= |evs|
      invariant s == Run(Init(startRead, endRead), evs[..k])
      invariant outs == Outcomes(Init(startRead, endRead), evs[..k])
      invariant |outs| == CountSubmits(evs[..k])
      invariant BothSet(s)
      invariant forall i :: 0 <= i < |outs| ==> outs[i].Create?
      invariant startRead - endRead < 120_000 ==> Ordered(s)
      invariant startRead - endRead < 120_000 ==>
                  forall i :: 0 <= i < |outs| ==> outs[i].request.start < outs[i].request.end
    {
      assert evs[..k + 1][..k] == evs[..k];
      var e := evs[k];
      if e.Submitted? {
        outs := outs + [Submit(s)];
      }
      s := Step(s, e);
      k := k + 1;
    }
    assert evs[..k] == evs;
  }
}
