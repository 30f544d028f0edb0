/** The control state machine: one state record and the transitions the
    firmware applies to it. Every transition is one atomic step; the
    firmware runs them from interrupt handlers and the polling loop with no
    locking, and this model serialises them. Screen drawing is left out, so
    each transition is the update it makes to the record. */
module Control {
  import opened Catalog
  import opened Touch

  /** The controller's shared record. */
  datatype State = State(
    cycle: CycleId,      // selected program
    running: bool,       // a wash is in progress
    locked: bool,        // panel lock
    doorOpen: bool,      // door sensor, as last toggled
    safety: bool,        // safety button, as last toggled
    flag: bool,          // toggled together with `running`
    seconds: int,        // seconds within the current minute
    minutes: int,        // whole minutes elapsed in the run
    totalMinutes: int)   // run length, fixed when the run starts

  const SECONDS_PER_MINUTE: int := 60

  /** The record as the firmware sets it up before entering its main loop:
      the program list is linked and its head selected, the cursor is
      stepped forward and back once while the screen is drawn, and the door
      is assumed open. */
  function Initial(): (s: State)
    ensures s.cycle == Diario
    ensures !s.running && !s.locked && s.doorOpen && !s.safety
    ensures s.flag == s.running
    ensures s.seconds == 0 && s.minutes == 0 && s.totalMinutes == 0
  {
    var head := InitMenuOrder();
    State(Prev(Next(head)), false, false, true, false, false, 0, 0, 0)
  }

  /** A press on play/pause once the lock gate has been passed: start (with
      the counters cleared and the run length taken from the selected
      program) unless the door is open, or pause (keeping the counters). */
  function PressPlay(s: State): State
  {
    if !s.running then
      if s.doorOpen then s
      else s.(seconds := 0, minutes := 0, flag := !s.flag, running := true,
              totalMinutes := Duration(s.cycle))
    else
      s.(flag := !s.flag, running := false)
  }

  /** One touch at panel point (`tx`, `ty`). The lock zone is checked first;
      the other three zones are then gated on the lock as it stands after
      that check. */
  function UpdateScreen(s: State, tx: u32, ty: u32, status: u32): (r: State)
    ensures status != ACTIVE_STATUS ==> r == s
    ensures r.doorOpen == s.doorOpen && r.safety == s.safety
    ensures r.locked != s.locked ==> status == ACTIVE_STATUS && s.safety && LOCK_ZONE.Contains(tx, ty)
    ensures r.cycle != s.cycle ==> !s.running && !s.locked
    ensures r.running != s.running ==> !s.locked && PLAY_ZONE.Contains(tx, ty)
  {
    if status != ACTIVE_STATUS then s
    else
      var afterLock := if LOCK_ZONE.Contains(tx, ty) && s.safety then s.(locked := !s.locked) else s;
      if afterLock.locked then afterLock
      else
        var afterNext :=
          if NEXT_ZONE.Contains(tx, ty) && !afterLock.running
          then afterLock.(cycle := Next(afterLock.cycle)) else afterLock;
        var afterPrev :=
          if PREV_ZONE.Contains(tx, ty) && !afterNext.running
          then afterNext.(cycle := Prev(afterNext.cycle)) else afterNext;
        if PLAY_ZONE.Contains(tx, ty) then PressPlay(afterPrev) else afterPrev
  }

  /** Reference semantics of one panel action, each with its own gate. */
  function Apply(s: State, a: Action): State
  {
    match a
    case ToggleLock => if s.safety then s.(locked := !s.locked) else s
    case SelectNext => if s.locked || s.running then s else s.(cycle := Next(s.cycle))
    case SelectPrev => if s.locked || s.running then s else s.(cycle := Prev(s.cycle))
    case TogglePlayPause => if s.locked then s else PressPlay(s)
  }

  /** The sequential checks of a touch amount to: find the one zone hit, if
      any, and apply that zone's action. */
  lemma UpdateScreenFollowsDispatch(s: State, tx: u32, ty: u32)
    ensures UpdateScreen(s, tx, ty, ACTIVE_STATUS) ==
              match Dispatch(tx, ty)
              case None => s
              case Some(a) => Apply(s, a)
  {
    ZoneBounds(tx, ty);
  }

  /** A press on the lock flips the lock exactly when the safety button is
      armed, and changes nothing else. */
  lemma LockPress(s: State, tx: u32, ty: u32)
    requires LOCK_ZONE.Contains(tx, ty)
    ensures UpdateScreen(s, tx, ty, ACTIVE_STATUS).locked != s.locked <==> s.safety
    ensures UpdateScreen(s, tx, ty, ACTIVE_STATUS) == s.(locked := UpdateScreen(s, tx, ty, ACTIVE_STATUS).locked)
  {
    ZoneBounds(tx, ty);
  }

  /** While the panel is locked, every touch outside the lock zone is inert:
      next, previous and play/pause included. */
  lemma LockedPanelIgnoresButtons(s: State, tx: u32, ty: u32, status: u32)
    requires s.locked && !LOCK_ZONE.Contains(tx, ty)
    ensures UpdateScreen(s, tx, ty, status) == s
  {
  }

  /** next and previous move the selection one link, and only on an
      unlocked, stopped machine; nothing else changes. */
  lemma SelectionPress(s: State, tx: u32, ty: u32)
    ensures NEXT_ZONE.Contains(tx, ty) ==>
              UpdateScreen(s, tx, ty, ACTIVE_STATUS) ==
                s.(cycle := if s.locked || s.running then s.cycle else Next(s.cycle))
    ensures PREV_ZONE.Contains(tx, ty) ==>
              UpdateScreen(s, tx, ty, ACTIVE_STATUS) ==
                s.(cycle := if s.locked || s.running then s.cycle else Prev(s.cycle))
  {
    ZoneBounds(tx, ty);
  }

  /** play/pause on an unlocked panel: refused with the door open, a fresh
      start with cleared counters and the program's rinse-plus-spin time
      otherwise, and a pause that keeps the counters when running. */
  lemma PlayPausePress(s: State, tx: u32, ty: u32)
    requires PLAY_ZONE.Contains(tx, ty) && !s.locked
    ensures var r := UpdateScreen(s, tx, ty, ACTIVE_STATUS);
      && (!s.running && s.doorOpen ==> r == s)
      && (!s.running && !s.doorOpen ==>
            && r.running && r.flag == !s.flag
            && r.seconds == 0 && r.minutes == 0
            && r.totalMinutes == Record(s.cycle).rinseMinutes + Record(s.cycle).spinMinutes
            && r.cycle == s.cycle && r.locked == s.locked
            && r.doorOpen == s.doorOpen && r.safety == s.safety)
      && (s.running ==>
            && !r.running && r.flag == !s.flag
            && r.seconds == s.seconds && r.minutes == s.minutes
            && r.totalMinutes == s.totalMinutes
            && r.cycle == s.cycle && r.locked == s.locked
            && r.doorOpen == s.doorOpen && r.safety == s.safety)
  {
    ZoneBounds(tx, ty);
  }

  /** The body of the one-second timer interrupt. While running it counts a
      second, carrying into the minutes at sixty; whenever the minutes then
      equal the run length it replays a play/pause press with the lock
      cleared (which pauses the run) and puts the lock back. */
  function TickHandler(s: State): (r: State)
    ensures !s.running ==> r == s
    ensures r.cycle == s.cycle && r.locked == s.locked && r.doorOpen == s.doorOpen
    ensures r.safety == s.safety && r.totalMinutes == s.totalMinutes
    ensures r.running != s.running ==> r.minutes == r.totalMinutes
  {
    if !s.running then s
    else
      var counted :=
        if s.seconds + 1 == SECONDS_PER_MINUTE then s.(seconds := 0, minutes := s.minutes + 1)
        else s.(seconds := s.seconds + 1);
      if counted.minutes == counted.totalMinutes then
        var replayed := UpdateScreen(counted.(locked := false), PLAY_X, PLAY_Y, ACTIVE_STATUS);
        replayed.(locked := counted.locked)
      else counted
  }

  /** Door sensor edge: recorded only while stopped; while running the edge
      is dropped. */
  function DoorCallback(s: State): (r: State)
    ensures r.doorOpen != s.doorOpen <==> !s.running
    ensures r == s.(doorOpen := r.doorOpen)
  {
    if !s.running then s.(doorOpen := !s.doorOpen) else s
  }

  /** Safety button edge: always toggles the safety flag, in any state. */
  function SafetyCallback(s: State): (r: State)
    ensures r.safety != s.safety
    ensures r == s.(safety := r.safety)
  {
    s.(safety := !s.safety)
  }
}
