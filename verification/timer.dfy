/** Elapsed-time accounting over repeated timer ticks: a started run stays
    running for exactly its length in seconds and then stops once, with the
    counters at the run length. */
module Timer {
  import opened Catalog
  import opened Touch
  import opened Control

  /** Seconds elapsed in the run, from the two counters. */
  function Elapsed(s: State): int
  {
    s.minutes * SECONDS_PER_MINUTE + s.seconds
  }

  /** A run in progress with its counters in range. */
  predicate InProgress(s: State)
  {
    s.running && 0 <= s.seconds < SECONDS_PER_MINUTE && 0 <= s.minutes < s.totalMinutes
  }

  /** Seconds left before the run completes. */
  function Remaining(s: State): int
  {
    s.totalMinutes * SECONDS_PER_MINUTE - Elapsed(s)
  }

  /** `k` timer interrupts in a row. */
  function TickN(s: State, k: nat): State
  {
    if k == 0 then s else TickHandler(TickN(s, k - 1))
  }

  /** One tick of a run in progress adds one second, and stops the run
      exactly when that second is its last; a stopped run ends on a whole
      minute equal to the run length, and the flag follows `running`. */
  lemma TickStep(s: State)
    requires InProgress(s)
    ensures var r := TickHandler(s);
      && Elapsed(r) == Elapsed(s) + 1
      && (r.running <==> Elapsed(r) < r.totalMinutes * SECONDS_PER_MINUTE)
      && (r.running ==> InProgress(r) && r.flag == s.flag)
      && (!r.running ==> r.seconds == 0 && r.minutes == r.totalMinutes && r.flag == !s.flag)
  {
  }

  /** Ticks while stopped change nothing. */
  lemma {:induction false} StoppedTicksAreInert(s: State, k: nat)
    requires !s.running
    ensures TickN(s, k) == s
  {
    if k > 0 {
      StoppedTicksAreInert(s, k - 1);
    }
  }

  /** Ticks compose: `a` ticks followed by `b` ticks are `a + b` ticks. */
  lemma {:induction false} TickNAdds(s: State, a: nat, b: nat)
    ensures TickN(TickN(s, a), b) == TickN(s, a + b)
  {
    if b > 0 {
      TickNAdds(s, a, b - 1);
      assert TickN(s, a + b) == TickHandler(TickN(s, a + b - 1));
    }
  }

  /** From a run in progress, the machine keeps running, one second further
      per tick, until exactly `Remaining(s)` ticks have passed; that tick
      stops it with the seconds at zero and the minutes at the run length.
      The program, lock, door, safety and run length never change. */
  lemma {:induction false} RunUntilComplete(s: State, k: nat)
    requires InProgress(s) && k <= Remaining(s)
    ensures var r := TickN(s, k);
      && r.cycle == s.cycle && r.locked == s.locked && r.doorOpen == s.doorOpen
      && r.safety == s.safety && r.totalMinutes == s.totalMinutes
      && (k < Remaining(s) ==> InProgress(r) && Elapsed(r) == Elapsed(s) + k && r.flag == s.flag)
      && (k == Remaining(s) ==> !r.running && r.seconds == 0 && r.minutes == r.totalMinutes
                                && r.flag == !s.flag)
  {
    if k > 0 {
      RunUntilComplete(s, k - 1);
      TickStep(TickN(s, k - 1));
    }
  }

  /** A run started from cleared counters stops after exactly
      `totalMinutes * 60` ticks, not one earlier, and stays stopped after. */
  lemma FreshRunLength(s: State, k: nat)
    requires s.running && s.seconds == 0 && s.minutes == 0 && s.totalMinutes > 0
    ensures k < s.totalMinutes * SECONDS_PER_MINUTE ==> TickN(s, k).running
    ensures k >= s.totalMinutes * SECONDS_PER_MINUTE ==>
              var r := TickN(s, k);
              !r.running && r.seconds == 0 && r.minutes == s.totalMinutes
  {
    var n := s.totalMinutes * SECONDS_PER_MINUTE;
    if k < n {
      RunUntilComplete(s, k);
    } else {
      RunUntilComplete(s, n);
      TickNAdds(s, n, k - n);
      StoppedTicksAreInert(TickN(s, n), k - n);
    }
  }

  /** Pressing play on an unlocked, stopped machine with the door shut runs
      the selected program for exactly its rinse-plus-spin minutes. */
  lemma StartedProgramRunsItsDuration(s: State, tx: u32, ty: u32, k: nat)
    requires PLAY_ZONE.Contains(tx, ty) && !s.locked && !s.running && !s.doorOpen
    ensures var started := UpdateScreen(s, tx, ty, ACTIVE_STATUS);
      && (k < Duration(s.cycle) * SECONDS_PER_MINUTE ==> TickN(started, k).running)
      && (k >= Duration(s.cycle) * SECONDS_PER_MINUTE ==>
            !TickN(started, k).running && TickN(started, k).minutes == Duration(s.cycle))
  {
    PlayPausePress(s, tx, ty);
    FreshRunLength(UpdateScreen(s, tx, ty, ACTIVE_STATUS), k);
  }

  /** The tick logic never looks at the selected program: swapping it leaves
      the outcome of every tick unchanged, so only `totalMinutes` decides
      the run length. */
  lemma TickIgnoresProgram(s: State, c: CycleId)
    ensures TickHandler(s.(cycle := c)) == TickHandler(s).(cycle := c)
  {
    if s.running {
      ZoneBounds(PLAY_X, PLAY_Y);
    }
  }
}
