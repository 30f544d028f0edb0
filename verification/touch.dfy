/** Touch samples as the control logic sees them: the remap from the touch
    sensor's axes to the rotated panel's axes, the four button zones, and
    the action a panel point selects. All arithmetic is on 32-bit unsigned
    integers, written out with an explicit modulus. */
module Touch {

  const U32_MODULUS: int := 0x1_0000_0000

  type u32 = x: int | 0 <= x < U32_MODULUS

  /** Panel size in pixels (portrait). */
  const PANEL_WIDTH: u32 := 320
  const PANEL_HEIGHT: u32 := 480

  /** Full-scale reading of the touch sensor on either axis. */
  const TOUCH_SPAN: u32 := 4096

  /** The one sample status the dispatcher acts on; every other status is inert. */
  const ACTIVE_STATUS: u32 := 0x20

  datatype Option<T> = None | Some(value: T)

  /** Panel x from the sensor's y reading: `W - W*y/4096` in unsigned
      32-bit arithmetic (the product and the difference both wrap). */
  function ConvertX(touchY: u32): (px: u32)
    ensures touchY <= TOUCH_SPAN ==> px <= PANEL_WIDTH
    ensures touchY <= TOUCH_SPAN ==> px == PANEL_WIDTH - PANEL_WIDTH * touchY / TOUCH_SPAN
    ensures touchY == 0 ==> px == PANEL_WIDTH
    ensures touchY == TOUCH_SPAN ==> px == 0
  {
    (PANEL_WIDTH - (PANEL_WIDTH * touchY) % U32_MODULUS / TOUCH_SPAN) % U32_MODULUS
  }

  /** Panel y from the sensor's x reading: `H*x/4096` in unsigned 32-bit
      arithmetic (the product wraps). */
  function ConvertY(touchX: u32): (py: u32)
    ensures touchX <= TOUCH_SPAN ==> py <= PANEL_HEIGHT
    ensures touchX <= TOUCH_SPAN ==> py == PANEL_HEIGHT * touchX / TOUCH_SPAN
    ensures touchX == 0 ==> py == 0
    ensures touchX == TOUCH_SPAN ==> py == PANEL_HEIGHT
  {
    (PANEL_HEIGHT * touchX) % U32_MODULUS / TOUCH_SPAN
  }

  /** Over the sensor's range, a larger y reading never gives a larger panel x. */
  lemma ConvertXAntitone(y1: u32, y2: u32)
    requires y1 <= y2 <= TOUCH_SPAN
    ensures ConvertX(y2) <= ConvertX(y1)
  {
    assert PANEL_WIDTH * y1 / TOUCH_SPAN <= PANEL_WIDTH * y2 / TOUCH_SPAN;
  }

  /** Over the sensor's range, a larger x reading never gives a smaller panel y. */
  lemma ConvertYMonotone(x1: u32, x2: u32)
    requires x1 <= x2 <= TOUCH_SPAN
    ensures ConvertY(x1) <= ConvertY(x2)
  {
    assert PANEL_HEIGHT * x1 / TOUCH_SPAN <= PANEL_HEIGHT * x2 / TOUCH_SPAN;
  }

  /** A button zone: a square of side `w` by `h` centred on (`cx`, `cy`),
      borders included. */
  datatype Zone = Zone(cx: int, cy: int, w: int, h: int) {
    predicate Contains(tx: int, ty: int) {
      cx - w / 2 <= tx <= cx + w / 2 && cy - h / 2 <= ty <= cy + h / 2
    }
  }

  /** Centre of the play/pause button; the completion path also feeds this
      point back as a synthetic press. */
  const PLAY_X: u32 := 160
  const PLAY_Y: u32 := 440

  const LOCK_ZONE: Zone := Zone(280, 240, 80, 80)
  const NEXT_ZONE: Zone := Zone(280, 440, 80, 80)
  const PREV_ZONE: Zone := Zone(40, 440, 80, 80)
  const PLAY_ZONE: Zone := Zone(PLAY_X, PLAY_Y, 80, 80)

  /** What a press in a zone asks for. */
  datatype Action = ToggleLock | SelectNext | SelectPrev | TogglePlayPause

  function ZoneOf(a: Action): Zone
  {
    match a
    case ToggleLock => LOCK_ZONE
    case SelectNext => NEXT_ZONE
    case SelectPrev => PREV_ZONE
    case TogglePlayPause => PLAY_ZONE
  }

  /** The zones as inclusive pixel ranges. */
  lemma ZoneBounds(tx: int, ty: int)
    ensures LOCK_ZONE.Contains(tx, ty) <==> 240 <= tx <= 320 && 200 <= ty <= 280
    ensures NEXT_ZONE.Contains(tx, ty) <==> 240 <= tx <= 320 && 400 <= ty <= 480
    ensures PREV_ZONE.Contains(tx, ty) <==> 0 <= tx <= 80 && 400 <= ty <= 480
    ensures PLAY_ZONE.Contains(tx, ty) <==> 120 <= tx <= 200 && 400 <= ty <= 480
  {
  }

  /** No panel point lies in two zones, so one sample selects at most one action. */
  lemma ZonesDisjoint(a: Action, b: Action, tx: int, ty: int)
    requires ZoneOf(a).Contains(tx, ty) && ZoneOf(b).Contains(tx, ty)
    ensures a == b
  {
  }

  /** The action a panel point selects, if any. */
  function Dispatch(tx: u32, ty: u32): (r: Option<Action>)
    ensures r.Some? ==> ZoneOf(r.value).Contains(tx, ty)
    ensures r.None? <==> forall a :: !ZoneOf(a).Contains(tx, ty)
  {
    if LOCK_ZONE.Contains(tx, ty) then Some(ToggleLock)
    else if NEXT_ZONE.Contains(tx, ty) then Some(SelectNext)
    else if PREV_ZONE.Contains(tx, ty) then Some(SelectPrev)
    else if PLAY_ZONE.Contains(tx, ty) then Some(TogglePlayPause)
    else None
  }

  /** The completion path's synthetic press lands on play/pause. */
  lemma PlayPointDispatchesPlayPause()
    ensures Dispatch(PLAY_X, PLAY_Y) == Some(TogglePlayPause)
  {
  }

  /** A y reading so far past full scale that the panel-x subtraction wraps
      lands right of every zone, so it selects nothing. */
  lemma WrappedXSelectsNothing(touchX: u32, touchY: u32)
    requires (PANEL_WIDTH * touchY) % U32_MODULUS / TOUCH_SPAN > PANEL_WIDTH
    ensures ConvertX(touchY) > PANEL_WIDTH
    ensures Dispatch(ConvertX(touchY), ConvertY(touchX)).None?
  {
  }
}
