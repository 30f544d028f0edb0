/** The controller as a single serial consumer of events from its four
    sources: touch samples read by the polling loop, one-second timer
    ticks, and rising edges on the door and safety inputs. Each event is one
    atomic step on the state record. */
module Events {
  import opened Catalog
  import opened Touch
  import opened Control
  import opened Timer

  /** One event. A touch sample carries the sensor's raw x and y and its
      status byte; a failed sample read is discarded. */
  datatype Event =
    | Touched(rawX: u32, rawY: u32, status: u32)
    | ReadFailed
    | Tick
    | DoorEdge
    | SafetyEdge

  /** One successfully read sample: the sensor's axes are swapped and
      rescaled onto the panel, then dispatched. */
  function HandleSample(s: State, rawX: u32, rawY: u32, status: u32): (r: State)
    ensures status != ACTIVE_STATUS ==> r == s
    ensures rawX <= TOUCH_SPAN && rawY <= TOUCH_SPAN && status == ACTIVE_STATUS ==>
              r == match Dispatch(PANEL_WIDTH - PANEL_WIDTH * rawY / TOUCH_SPAN,
                                  PANEL_HEIGHT * rawX / TOUCH_SPAN)
                   case None => s
                   case Some(a) => Apply(s, a)
  {
    UpdateScreenFollowsDispatch(s, ConvertX(rawY), ConvertY(rawX));
    UpdateScreen(s, ConvertX(rawY), ConvertY(rawX), status)
  }

  /** The state after one event, with the guarantees every event keeps:
      the lock moves only on an armed lock press, the program only on a
      stopped, unlocked machine, the door flag only on a door edge while
      stopped, and the safety flag on every safety edge and nothing else. */
  function Step(s: State, e: Event): (r: State)
    ensures r.locked != s.locked ==>
              e.Touched? && e.status == ACTIVE_STATUS && s.safety
              && LOCK_ZONE.Contains(ConvertX(e.rawY), ConvertY(e.rawX))
    ensures r.cycle != s.cycle ==> e.Touched? && !s.running && !s.locked
    ensures r.doorOpen != s.doorOpen <==> e.DoorEdge? && !s.running
    ensures r.safety != s.safety <==> e.SafetyEdge?
    ensures e.ReadFailed? ==> r == s
  {
    match e
    case Touched(x, y, status) => HandleSample(s, x, y, status)
    case ReadFailed => s
    case Tick => TickHandler(s)
    case DoorEdge => DoorCallback(s)
    case SafetyEdge => SafetyCallback(s)
  }

  /** The state after a whole event sequence, first event first. */
  function Run(s: State, events: seq<Event>): State
    decreases |events|
  {
    if |events| == 0 then s else Run(Step(s, events[0]), events[1..])
  }

  /** What holds of every state the controller can reach: the flag mirrors
      `running`, the counters stay within a minute and within the run
      length (so they fit easily in a C `int`), a running machine has time
      left, and a run that reached its length did so on a whole minute. */
  predicate Invariant(s: State)
  {
    && s.flag == s.running
    && 0 <= s.seconds < SECONDS_PER_MINUTE
    && 0 <= s.minutes <= s.totalMinutes <= MAX_DURATION
    && (s.running ==> s.minutes < s.totalMinutes)
    && (s.minutes == s.totalMinutes ==> s.seconds == 0)
  }

  lemma InitialSatisfiesInvariant()
    ensures Invariant(Initial())
  {
  }

  /** Every event keeps the invariant. */
  lemma StepPreservesInvariant(s: State, e: Event)
    requires Invariant(s)
    ensures Invariant(Step(s, e))
  {
    match e
    case Touched(x, y, status) =>
      var tx, ty := ConvertX(y), ConvertY(x);
      if status == ACTIVE_STATUS && PLAY_ZONE.Contains(tx, ty) && !s.locked {
        PlayPausePress(s, tx, ty);
      } else {
        ZoneBounds(tx, ty);
      }
    case ReadFailed =>
    case Tick =>
      if s.running {
        TickStep(s);
      }
    case DoorEdge =>
    case SafetyEdge =>
  }

  /** Every event sequence keeps the invariant. */
  lemma {:induction false} RunPreservesInvariant(s: State, events: seq<Event>)
    requires Invariant(s)
    ensures Invariant(Run(s, events))
    decreases |events|
  {
    if |events| > 0 {
      StepPreservesInvariant(s, events[0]);
      RunPreservesInvariant(Step(s, events[0]), events[1..]);
    }
  }

  /** Every state reachable from start-up satisfies the invariant. */
  lemma ReachableStatesSatisfyInvariant(events: seq<Event>)
    ensures Invariant(Run(Initial(), events))
  {
    InitialSatisfiesInvariant();
    RunPreservesInvariant(Initial(), events);
  }

  /** While running, no event sequence that leaves the machine running can
      change the selected program or the door flag. */
  lemma {:induction false} RunningFreezesSelection(s: State, events: seq<Event>)
    requires s.running
    requires forall i :: 0 <= i <= |events| ==> Run(s, events[..i]).running
    ensures Run(s, events).cycle == s.cycle && Run(s, events).doorOpen == s.doorOpen
    decreases |events|
  {
    if |events| > 0 {
      var t := Step(s, events[0]);
      assert events[..1] == [events[0]];
      assert Run(s, events[..1]) == Run(t, []);
      forall i | 0 <= i <= |events[1..]|
        ensures Run(t, events[1..][..i]).running
      {
        assert events[..i + 1] == [events[0]] + events[1..][..i];
        assert events[..i + 1][1..] == events[1..][..i];
        assert Run(s, events[..i + 1]).running;
      }
      RunningFreezesSelection(t, events[1..]);
      assert events[..|events|] == events;
    }
  }

  /** Two raw samples, one on the next button and one on the previous
      button, for the walk-through below. */
  const NEXT_PRESS: Event := Touched(3755, 512, ACTIVE_STATUS)
  const PREV_PRESS: Event := Touched(3755, 3584, ACTIVE_STATUS)

  /** From start-up, next then previous twice: daily, heavy, daily, quick. */
  lemma SelectionWalkThrough()
    ensures Run(Initial(), [NEXT_PRESS]).cycle == Pesado
    ensures Run(Initial(), [NEXT_PRESS, PREV_PRESS]).cycle == Diario
    ensures Run(Initial(), [NEXT_PRESS, PREV_PRESS, PREV_PRESS]).cycle == Rapido
  {
    assert ConvertX(512) == 280 && ConvertY(3755) == 440;
    assert ConvertX(3584) == 40;
    var s1 := Step(Initial(), NEXT_PRESS);
    assert s1.cycle == Pesado;
    var s2 := Step(s1, PREV_PRESS);
    assert s2.cycle == Diario;
    var s3 := Step(s2, PREV_PRESS);
    assert s3.cycle == Rapido;
    assert [NEXT_PRESS, PREV_PRESS][1..] == [PREV_PRESS];
    assert [NEXT_PRESS, PREV_PRESS, PREV_PRESS][1..] == [PREV_PRESS, PREV_PRESS];
    assert [PREV_PRESS, PREV_PRESS][1..] == [PREV_PRESS];
    assert Run(s1, [PREV_PRESS]) == s2 by {
      assert Run(s1, [PREV_PRESS]) == Run(s2, [PREV_PRESS][1..]);
    }
    assert Run(s2, [PREV_PRESS]) == s3 by {
      assert Run(s2, [PREV_PRESS]) == Run(s3, [PREV_PRESS][1..]);
    }
    assert Run(s1, [PREV_PRESS, PREV_PRESS]) == s3;
  }
}
