/**
 * The client's time bar (startTime, its inner frame, stopTime in script.js).
 * The 500 ms interval and the 3000 ms delay are not modelled as time: each
 * interval tick is one call of Frame, and the delayed time-up check is one
 * call of TimeUpCheck.
 */
module TimeBar {
  import opened Protocol

  /** The width change of one interval tick: +9 while below 100, otherwise none. */
  function Tick(w: int): int {
    if w >= 100 then w else w + 9
  }

  /** The width after `n` ticks from `from`. */
  function WidthAfter(from: int, n: nat): int {
    if n == 0 then from else Tick(WidthAfter(from, n - 1))
  }

  /** While the bar has not yet reached 100, the width grows by exactly 9 per tick. */
  lemma {:induction false} LinearWhileBelowFull(from: int, n: nat)
    requires n == 0 || from + 9 * (n - 1) < 100
    ensures WidthAfter(from, n) == from + 9 * n
  {
    if n > 0 {
      LinearWhileBelowFull(from, n - 1);
    }
  }

  /** Once the bar is at 100 or more, further ticks leave it where it is. */
  lemma {:induction false} FullIsFinal(from: int, n: nat, m: nat)
    requires WidthAfter(from, n) >= 100
    ensures WidthAfter(from, n + m) == WidthAfter(from, n)
  {
    if m > 0 {
      FullIsFinal(from, n, m - 1);
    }
  }

  /** From any start below 100 the width never exceeds 108. */
  lemma {:induction false} NeverBeyond108(from: int, n: nat)
    requires from < 100
    ensures WidthAfter(from, n) <= 108
  {
    if n > 0 {
      NeverBeyond108(from, n - 1);
    }
  }

  /** The bar does fill: after enough ticks it is at 100 or more, so the interval stops. */
  lemma {:induction false} EventuallyFull(from: int, n: nat)
    requires from + 9 * n >= 100
    ensures WidthAfter(from, n) >= 100
  {
    if n > 0 && WidthAfter(from, n - 1) < 100 {
      if from + 9 * (n - 1) >= 100 {
        EventuallyFull(from, n - 1);
      } else {
        LinearWhileBelowFull(from, n - 1);
      }
    } else if n > 0 {
      FullIsFinal(from, n - 1, 1);
    }
  }

  /** From the default start of 1 the bar reaches exactly 100, on the eleventh tick, and stays there. */
  lemma FromOneReachesExactlyHundred(n: nat)
    ensures n < 11 ==> WidthAfter(1, n) == 1 + 9 * n && WidthAfter(1, n) < 100
    ensures n >= 11 ==> WidthAfter(1, n) == 100
  {
    if n < 11 {
      LinearWhileBelowFull(1, n);
    } else {
      LinearWhileBelowFull(1, 11);
      FullIsFinal(1, 11, n - 11);
    }
  }

  class TimeBar {
    var barWidth: int
    var timeIsStopped: bool
    /** The interval whose id is held in intervalId is still running. */
    var intervalActive: bool
    /** Delayed time-up checks scheduled by frame and not yet run. */
    var pendingTimeUpChecks: nat
    const socket: ClientSocket

    constructor (socket: ClientSocket)
      ensures this.socket == socket
      ensures !timeIsStopped && !intervalActive && pendingTimeUpChecks == 0
    {
      this.socket := socket;
      barWidth, timeIsStopped, intervalActive, pendingTimeUpChecks := 0, false, false, 0;
    }

    /** startTime(from): width to `from`, stopped flag cleared, the interval started. */
    method StartTime(from: int)
      modifies this`barWidth, this`timeIsStopped, this`intervalActive
      ensures barWidth == from && !timeIsStopped && intervalActive
    {
      barWidth := from;
      timeIsStopped := false;
      intervalActive := true;
    }

    /**
     * One interval tick: below 100 the width grows by 9; at 100 or more the
     * interval is cleared and the delayed time-up check is scheduled.
     */
    method Frame()
      requires intervalActive
      modifies this`barWidth, this`intervalActive, this`pendingTimeUpChecks
      ensures barWidth == Tick(old(barWidth))
      ensures intervalActive == (old(barWidth) < 100)
      ensures pendingTimeUpChecks == old(pendingTimeUpChecks) + (if old(barWidth) >= 100 then 1 else 0)
    {
      if barWidth >= 100 {
        intervalActive := false;
        pendingTimeUpChecks := pendingTimeUpChecks + 1;
      } else {
        barWidth := barWidth + 9;
      }
    }

    /** The delayed callback: time-is-up-request is emitted only if the time was not stopped meanwhile. */
    method TimeUpCheck()
      requires pendingTimeUpChecks > 0
      modifies this`pendingTimeUpChecks, socket
      ensures pendingTimeUpChecks == old(pendingTimeUpChecks) - 1
      ensures socket.sent == old(socket.sent) + (if timeIsStopped then [] else [TimeIsUpRequest])
    {
      pendingTimeUpChecks := pendingTimeUpChecks - 1;
      if !timeIsStopped {
        socket.Emit(TimeIsUpRequest);
      }
    }

    /** stopTime, run on correct-answer and game-over: flag set, interval cleared. */
    method StopTime()
      modifies this`timeIsStopped, this`intervalActive
      ensures timeIsStopped && !intervalActive
    {
      timeIsStopped := true;
      intervalActive := false;
    }
  }
}
