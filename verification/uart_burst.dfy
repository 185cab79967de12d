/// Frames that follow each other as closely as the sender likes: what uart_rx.v makes of them. Busy with one frame
/// it detects the next one late, and the lateness adds up.

module UartBurst {
  import opened Arith
  import opened UartBaud
  import opened UartLink
  import Tx = UartTx
  import Rx = UartRx

  // A frame of the sender: a start bit, the data bits, a stop bit.
  function FrameLen(p: Params, period: nat): nat { (p.width + 2) * period }

  // The clock at which frame i falls, gaps[i] idle clocks after the stop bit of the frame before.
  function StartOf(p: Params, gaps: seq<nat>, period: nat, i: nat): nat
    requires i < |gaps|
  {
    if i == 0 then gaps[0] else StartOf(p, gaps, period, i - 1) + FrameLen(p, period) + gaps[i]
  }

  // The line of the whole burst.
  function LineAt(p: Params, ws: seq<seq<bool>>, gaps: seq<nat>, period: nat, n: nat): bool
    requires period > 0 && |gaps| == |ws|
    decreases |ws|
  {
    if ws == [] then true
    else
      var k := |ws| - 1;
      var t := StartOf(p, gaps, period, k);
      if n < t then LineAt(p, ws[..k], gaps[..k], period, n)
      else if n < t + FrameLen(p, period) then Tx.Level(ws[k], (n - t) / period)
      else true
  }

  function BurstLine(p: Params, ws: seq<seq<bool>>, gaps: seq<nat>, period: nat): nat -> bool
    requires period > 0 && |gaps| == |ws|
  {
    (n: nat) => LineAt(p, ws, gaps, period, n)
  }

  /// Lateness.

  // Clocks from a receiver's virtual start of one frame to its earliest start of the next.
  function Turnaround(p: Params): nat { (p.width + 2) * p.cycle + 2 }

  // How late the receiver starts on frame i.
  function Lag(p: Params, gaps: seq<nat>, period: nat, i: nat): nat
    requires i < |gaps|
  {
    if i == 0 then 0
    else Max(0, Lag(p, gaps, period, i - 1) + Turnaround(p) - FrameLen(p, period) - gaps[i])
  }

  // With no idle time at all.
  function FullLag(p: Params, period: nat, i: nat): nat
  {
    if i == 0 then 0 else Max(0, FullLag(p, period, i - 1) + Turnaround(p) - FrameLen(p, period))
  }

  // The start of frame i as the receiver takes it.
  function HeardAt(p: Params, gaps: seq<nat>, period: nat, i: nat): nat
    requires i < |gaps|
  {
    StartOf(p, gaps, period, i) + Lag(p, gaps, period, i)
  }

  // So for each of n frames without a pause between them.
  ghost predicate BurstFits(p: Params, period: nat, n: nat)
  {
    forall i :: 0 <= i < n ==> WithinTolerance(p, period, FullLag(p, period, i))
  }

  lemma {:induction false} LagIsLess(p: Params, gaps: seq<nat>, period: nat, i: nat)
    requires i < |gaps|
    ensures Lag(p, gaps, period, i) <= FullLag(p, period, i)
  {
    hide Turnaround, FrameLen;
    if i > 0 {
      LagIsLess(p, gaps, period, i - 1);
    }
  }

  // Less late is within the tolerance too.
  lemma FitsBetween(p: Params, period: nat, less: nat, more: nat)
    requires WithinTolerance(p, period, 0) && WithinTolerance(p, period, more) && less <= more
    ensures WithinTolerance(p, period, less)
  {
    forall k | 0 <= k < p.width ensures InBit(p, period, less, k) {
      assert InBit(p, period, 0, k) && InBit(p, period, more, k);
    }
  }

  lemma BurstFitsFrame(p: Params, gaps: seq<nat>, period: nat, n: nat, i: nat)
    requires BurstFits(p, period, n) && i < n && i < |gaps|
    ensures WithinTolerance(p, period, Lag(p, gaps, period, i))
  {
    hide WithinTolerance;
    LagIsLess(p, gaps, period, i);
    assert WithinTolerance(p, period, FullLag(p, period, 0));
    FitsBetween(p, period, Lag(p, gaps, period, i), FullLag(p, period, i));
  }

  // A period longer than the receiver's leaves time to catch up.
  lemma {:induction false} SlowIsNeverLate(p: Params, gaps: seq<nat>, period: nat, i: nat)
    requires Wide(p) && period > p.cycle && i < |gaps|
    ensures Lag(p, gaps, period, i) == 0
  {
    if i > 0 {
      SlowIsNeverLate(p, gaps, period, i - 1);
    }
  }

  // The stop bit has begun when the receiver turns to the next frame.
  lemma StopFits(p: Params, gaps: seq<nat>, period: nat, i: nat)
    requires Wide(p) && i < |gaps| && WithinTolerance(p, period, Lag(p, gaps, period, i))
    ensures 9 * period <= Lag(p, gaps, period, i) + Turnaround(p)
  {
    if period > p.cycle {
      SlowIsNeverLate(p, gaps, period, i);
      assert InBit(p, period, 0, 7);
    }
  }

  /// The line, frame by frame.

  lemma {:induction false} StartPrefix(p: Params, gaps: seq<nat>, period: nat, k: nat, i: nat)
    requires i < k <= |gaps|
    ensures StartOf(p, gaps[..k], period, i) == StartOf(p, gaps, period, i)
  {
    hide FrameLen;
    if i > 0 {
      StartPrefix(p, gaps, period, k, i - 1);
    }
  }

  lemma {:induction false} StartsInOrder(p: Params, gaps: seq<nat>, period: nat, i: nat, j: nat)
    requires i < j < |gaps|
    ensures StartOf(p, gaps, period, i) + FrameLen(p, period) <= StartOf(p, gaps, period, j)
    decreases j
  {
    hide FrameLen;
    if i < j - 1 {
      StartsInOrder(p, gaps, period, i, j - 1);
    }
  }

  lemma {:induction false} LineInFrame(p: Params, ws: seq<seq<bool>>, gaps: seq<nat>, period: nat, i: nat, n: nat)
    requires period > 0 && |gaps| == |ws| && i < |ws|
    requires StartOf(p, gaps, period, i) <= n < StartOf(p, gaps, period, i) + FrameLen(p, period)
    ensures LineAt(p, ws, gaps, period, n) == Tx.Level(ws[i], (n - StartOf(p, gaps, period, i)) / period)
    decreases |ws|
  {
    hide FrameLen, Tx.Level;
    var k := |ws| - 1;
    if i < k {
      StartsInOrder(p, gaps, period, i, k);
      StartPrefix(p, gaps, period, k, i);
      LineInFrame(p, ws[..k], gaps[..k], period, i, n);
    }
  }

  lemma {:induction false} LineIdles(p: Params, ws: seq<seq<bool>>, gaps: seq<nat>, period: nat, i: nat, n: nat)
    requires period > 0 && |gaps| == |ws| && i <= |ws|
    requires i > 0 ==> StartOf(p, gaps, period, i - 1) + FrameLen(p, period) <= n
    requires i < |ws| ==> n < StartOf(p, gaps, period, i)
    ensures LineAt(p, ws, gaps, period, n)
    decreases |ws|
  {
    hide FrameLen, Tx.Level;
    if i < |ws| {
      var k := |ws| - 1;
      if i < k {
        StartsInOrder(p, gaps, period, i, k);
        StartPrefix(p, gaps, period, k, i);
      }
      if i > 0 {
        StartPrefix(p, gaps, period, k, i - 1);
      }
      LineIdles(p, ws[..k], gaps[..k], period, i, n);
    }
  }

  // Within frame i, bit j.
  lemma LineInBit(p: Params, ws: seq<seq<bool>>, gaps: seq<nat>, period: nat, i: nat, j: nat, n: nat)
    requires period > 0 && |gaps| == |ws| && i < |ws| && j < p.width + 2
    requires j * period <= n - StartOf(p, gaps, period, i) < (j + 1) * period
    ensures LineAt(p, ws, gaps, period, n) == Tx.Level(ws[i], j)
  {
    hide Tx.Level;
    MulMono(j + 1, p.width + 2, period);
    LineInFrame(p, ws, gaps, period, i, n);
    QuotientIs(n - StartOf(p, gaps, period, i), j, period);
  }

  /// Finding the next start.

  ghost predicate Quiet(s: Rx.Regs) { s.cur == Idle && !s.baudValid && !s.done }

  // Idle from clock a on, with the line high up to t and low after it, the receiver starts at u: at once if it is
  // already late.
  ghost predicate Next(p: Params, s: Rx.Regs, line: nat -> bool, a: nat, t: nat, u: nat)
  {
    && Supported(p) && Rx.AtRest(p, s) && Quiet(Rx.Run(p, s, line, a)) && u == Max(t, a - 6)
    && (forall k: nat :: a - 6 <= k < t ==> line(k))
  }

  lemma {:induction false} StaysQuiet(p: Params, s: Rx.Regs, line: nat -> bool, a: nat, t: nat, u: nat, n: nat)
    requires Next(p, s, line, a, t, u) && a <= n <= u + 6
    ensures Quiet(Rx.Run(p, s, line, n))
    decreases n
  {
    hide Rx.Run, Rx.Next;
    if n > a {
      StaysQuiet(p, s, line, a, t, u, n - 1);
      Rx.SamplesFollow(p, s, line, n - 1);
      Rx.RunStep(p, s, line, n - 1);
      FirstIsHigh(Rx.Run(p, s, line, n - 1), line, n - 1);
      IdleStep(p, Rx.Run(p, s, line, n - 1), line(n - 1));
    }
  }

  lemma FirstIsHigh(u: Rx.Regs, line: nat -> bool, n: nat)
    requires Rx.Sampled(u, line, n) && Rx.LineAt(line, n - 6)
    ensures u.flags != Rx.LOW
  {
    assert u.flags[0] == Rx.LineAt(line, n - 6);
  }

  lemma AllLow(u: Rx.Regs, line: nat -> bool, n: nat)
    requires Rx.Sampled(u, line, n + 6) && forall k: nat :: n <= k < n + 5 ==> !line(k)
    ensures u.flags == Rx.LOW
  {
    assert !line(n) && !line(n + 1) && !line(n + 2) && !line(n + 3) && !line(n + 4);
  }

  lemma StartIsFound(p: Params, s: Rx.Regs, line: nat -> bool, a: nat, t: nat, u: nat)
    requires Next(p, s, line, a, t, u) && forall k: nat :: u <= k < u + 5 ==> !line(k)
    ensures Rx.Begun(p, s, line, u)
    ensures !Rx.Run(p, s, line, u + 7).done
  {
    hide Rx.Run, Rx.Next, Rx.Sampled;
    StaysQuiet(p, s, line, a, t, u, u + 6);
    Rx.SamplesFollow(p, s, line, u + 6);
    AllLow(Rx.Run(p, s, line, u + 6), line, u);
    Rx.RunStep(p, s, line, u + 6);
    Rx.StartSeen(p, Rx.Run(p, s, line, u + 6), line(u + 6));
    Rx.RunStep(p, s, line, u + 7);
    Rx.StartEntered(p, Rx.Run(p, s, line, u + 7), line(u + 7));
    Rx.SamplesFollow(p, s, line, u + 8);
    SyncIs(Rx.Run(p, s, line, u + 8), line, u + 8);
    assert Zeros(p.width) + Rx.Samples(p, line, u, 0) == Zeros(p.width);
  }

  lemma SyncIs(u: Rx.Regs, line: nat -> bool, n: nat)
    requires Rx.Sampled(u, line, n) && n > 0
    ensures u.sync == line(n - 1)
  {
  }

  /// The burst, frame by frame.

  // The clock from which the receiver waits for frame i.
  function WaitsFrom(p: Params, gaps: seq<nat>, period: nat, i: nat): nat
    requires i <= |gaps|
  {
    if i == 0 then 0 else Rx.IdleAt(p, HeardAt(p, gaps, period, i - 1))
  }

  ghost predicate Sends(p: Params, s: Rx.Regs, ws: seq<seq<bool>>, gaps: seq<nat>, period: nat)
  {
    && Wide(p) && Rx.AtRest(p, s) && period > 0 && |gaps| == |ws|
    && forall k :: 0 <= k < |ws| ==> |ws[k]| == p.width
  }

  lemma Waits(p: Params, gaps: seq<nat>, period: nat, i: nat)
    requires Wide(p) && i < |gaps|
    ensures HeardAt(p, gaps, period, i) == Max(StartOf(p, gaps, period, i), WaitsFrom(p, gaps, period, i) - 6)
    ensures i > 0 ==> WaitsFrom(p, gaps, period, i) - 6 == HeardAt(p, gaps, period, i - 1) + Turnaround(p)
  {
    hide FrameLen;
  }

  // Idle after the frames before, the receiver finds frame i.
  lemma NextFrame(p: Params, s: Rx.Regs, ws: seq<seq<bool>>, gaps: seq<nat>, period: nat, i: nat)
    requires Sends(p, s, ws, gaps, period) && i < |ws|
    requires Quiet(Rx.Run(p, s, BurstLine(p, ws, gaps, period), WaitsFrom(p, gaps, period, i)))
    requires i > 0 ==> WithinTolerance(p, period, Lag(p, gaps, period, i - 1))
    ensures Next(p, s, BurstLine(p, ws, gaps, period), WaitsFrom(p, gaps, period, i), StartOf(p, gaps, period, i),
                 HeardAt(p, gaps, period, i))
  {
    hide Rx.Run, Rx.AtRest, LineAt, WithinTolerance, Turnaround, HeardAt, StartOf, WaitsFrom;
    Waits(p, gaps, period, i);
    var a, t := WaitsFrom(p, gaps, period, i), StartOf(p, gaps, period, i);
    if i > 0 {
      StopFits(p, gaps, period, i - 1);
    }
    forall k: nat | a - 6 <= k < t ensures LineAt(p, ws, gaps, period, k) {
      HighBetween(p, ws, gaps, period, i, k);
    }
  }

  // Between the receiver's turning to frame i and that frame the line is high.
  lemma HighBetween(p: Params, ws: seq<seq<bool>>, gaps: seq<nat>, period: nat, i: nat, k: nat)
    requires Wide(p) && period > 0 && |gaps| == |ws| && i <= |ws|
    requires i > 0 ==> WithinTolerance(p, period, Lag(p, gaps, period, i - 1))
    requires WaitsFrom(p, gaps, period, i) - 6 <= k && (i < |ws| ==> k < StartOf(p, gaps, period, i))
    requires forall j :: 0 <= j < |ws| ==> |ws[j]| == p.width
    ensures LineAt(p, ws, gaps, period, k)
  {
    hide LineAt, WithinTolerance, Lag, StartOf;
    if i > 0 {
      StopFits(p, gaps, period, i - 1);
      var b := StartOf(p, gaps, period, i - 1);
      assert k >= b + 9 * period by {
        assert WaitsFrom(p, gaps, period, i) == b + Lag(p, gaps, period, i - 1) + Turnaround(p) + 6;
      }
      if k < b + FrameLen(p, period) {
        OneMore(9, period);
        LineInBit(p, ws, gaps, period, i - 1, 9, k);
      } else {
        LineIdles(p, ws, gaps, period, i, k);
      }
    } else {
      LineIdles(p, ws, gaps, period, i, k);
    }
  }

  // With the start check in the start bit, frame i is found.
  lemma FrameBegins(p: Params, s: Rx.Regs, ws: seq<seq<bool>>, gaps: seq<nat>, period: nat, i: nat)
    requires Sends(p, s, ws, gaps, period) && i < |ws|
    requires Quiet(Rx.Run(p, s, BurstLine(p, ws, gaps, period), WaitsFrom(p, gaps, period, i)))
    requires i > 0 ==> WithinTolerance(p, period, Lag(p, gaps, period, i - 1))
    requires Offset(p, 0) + Lag(p, gaps, period, i) < period
    ensures var line, u := BurstLine(p, ws, gaps, period), HeardAt(p, gaps, period, i);
      Rx.Begun(p, s, line, u) && !line(Rx.SampledAt(p, u, 0)) && !Rx.Run(p, s, line, u + 7).done
  {
    hide Rx.Run, Rx.AtRest, Rx.Begun, LineAt, Turnaround, StartOf, WaitsFrom, Lag, Next, WithinTolerance;
    var line, t, u := BurstLine(p, ws, gaps, period), StartOf(p, gaps, period, i), HeardAt(p, gaps, period, i);
    NextFrame(p, s, ws, gaps, period, i);
    forall k: nat | u <= k < u + 5 ensures !line(k) {
      LineInBit(p, ws, gaps, period, i, 0, k);
    }
    StartIsFound(p, s, line, WaitsFrom(p, gaps, period, i), t, u);
    LineInBit(p, ws, gaps, period, i, 0, Rx.SampledAt(p, u, 0));
  }

  // The samples of a frame that fits are its word.
  lemma FrameIsRead(p: Params, ws: seq<seq<bool>>, gaps: seq<nat>, period: nat, i: nat)
    requires period > 0 && |gaps| == |ws| && i < |ws| && |ws[i]| == p.width
    requires WithinTolerance(p, period, Lag(p, gaps, period, i))
    ensures Rx.Samples(p, BurstLine(p, ws, gaps, period), HeardAt(p, gaps, period, i), p.width) == ws[i]
  {
    hide LineAt, StartOf, Lag;
    var u := HeardAt(p, gaps, period, i);
    var b := Rx.Samples(p, BurstLine(p, ws, gaps, period), u, p.width);
    forall k | 0 <= k < p.width ensures b[k] == ws[i][k] {
      assert InBit(p, period, Lag(p, gaps, period, i), k);
      LineInBit(p, ws, gaps, period, i, k + 1, Rx.SampledAt(p, u, k + 1));
    }
    assert b == ws[i];
  }

  // While all frames fit, the receiver is idle again before each, in time.
  lemma {:induction false} WaitsQuietly(p: Params, s: Rx.Regs, ws: seq<seq<bool>>, gaps: seq<nat>, period: nat, i: nat)
    requires Sends(p, s, ws, gaps, period) && i <= |ws|
    requires forall j :: 0 <= j < i ==> WithinTolerance(p, period, Lag(p, gaps, period, j))
    ensures Quiet(Rx.Run(p, s, BurstLine(p, ws, gaps, period), WaitsFrom(p, gaps, period, i)))
  {
    hide LineAt, Lag, Rx.Begun, HeardAt, Rx.Run, Handed, Offset, InBit;
    if i == 0 {
      NothingYet(p, s, BurstLine(p, ws, gaps, period), gaps, period);
    } else {
      WaitsQuietly(p, s, ws, gaps, period, i - 1);
      FrameBegins(p, s, ws, gaps, period, i - 1);
      Rx.ReceptionEnds(p, s, BurstLine(p, ws, gaps, period), HeardAt(p, gaps, period, i - 1));
    }
  }

  lemma WaitsInOrder(p: Params, gaps: seq<nat>, period: nat, i: nat)
    requires Wide(p) && i < |gaps|
    ensures var d := Rx.DoneAt(p, HeardAt(p, gaps, period, i));
      WaitsFrom(p, gaps, period, i) < d < WaitsFrom(p, gaps, period, i + 1)
  {
    Waits(p, gaps, period, i);
    hide HeardAt;
    Rx.DoneTimes(p, HeardAt(p, gaps, period, i));
  }

  // From its wait for frame i to its wait for the next, the receiver hands over what it sampled, once.
  lemma FrameIsTaken(p: Params, s: Rx.Regs, ws: seq<seq<bool>>, gaps: seq<nat>, period: nat, i: nat, n: nat)
    requires Sends(p, s, ws, gaps, period) && i < |ws|
    requires forall j :: 0 <= j < i ==> WithinTolerance(p, period, Lag(p, gaps, period, j))
    requires Offset(p, 0) + Lag(p, gaps, period, i) < period
    requires WaitsFrom(p, gaps, period, i) <= n <= WaitsFrom(p, gaps, period, i + 1)
    ensures var line, u := BurstLine(p, ws, gaps, period), HeardAt(p, gaps, period, i);
      var r := Rx.Run(p, s, line, n);
      (r.done <==> n == Rx.DoneAt(p, u)) && (r.done ==> r.out == Rx.Samples(p, line, u, p.width))
  {
    hide Rx.Run, WithinTolerance, LineAt, Lag, StartOf, Rx.Begun, Next, Rx.Samples;
    var line, u := BurstLine(p, ws, gaps, period), HeardAt(p, gaps, period, i);
    var a := WaitsFrom(p, gaps, period, i);
    WaitsQuietly(p, s, ws, gaps, period, i);
    NextFrame(p, s, ws, gaps, period, i);
    FrameBegins(p, s, ws, gaps, period, i);
    Waits(p, gaps, period, i);
    WaitsInOrder(p, gaps, period, i);
    if n <= u + 6 {
      StaysQuiet(p, s, line, a, StartOf(p, gaps, period, i), u, n);
    } else if n > u + 7 {
      Rx.ReceptionDelivers(p, s, line, u, n);
    }
  }

  // That is the frame's word, if the frame fits.
  lemma BurstIsHeard(p: Params, s: Rx.Regs, ws: seq<seq<bool>>, gaps: seq<nat>, period: nat, i: nat, n: nat)
    requires Sends(p, s, ws, gaps, period) && i < |ws|
    requires forall j :: 0 <= j <= i ==> WithinTolerance(p, period, Lag(p, gaps, period, j))
    requires WaitsFrom(p, gaps, period, i) <= n <= WaitsFrom(p, gaps, period, i + 1)
    ensures var r, u := Rx.Run(p, s, BurstLine(p, ws, gaps, period), n), HeardAt(p, gaps, period, i);
      (r.done <==> n == Rx.DoneAt(p, u)) && (r.done ==> r.out == ws[i])
  {
    hide Rx.Run, LineAt, Lag, InBit, WaitsFrom, HeardAt, Rx.Samples, Offset;
    FrameIsTaken(p, s, ws, gaps, period, i, n);
    FrameIsRead(p, ws, gaps, period, i);
  }

  // And after the last frame it comes to rest.
  lemma {:induction false} RestsAfter(p: Params, s: Rx.Regs, ws: seq<seq<bool>>, gaps: seq<nat>, period: nat, n: nat)
    requires Sends(p, s, ws, gaps, period)
    requires forall j :: 0 <= j < |ws| ==> WithinTolerance(p, period, Lag(p, gaps, period, j))
    requires WaitsFrom(p, gaps, period, |ws|) <= n
    ensures Quiet(Rx.Run(p, s, BurstLine(p, ws, gaps, period), n))
    ensures n > WaitsFrom(p, gaps, period, |ws|) ==> Rx.AtRest(p, Rx.Run(p, s, BurstLine(p, ws, gaps, period), n))
    decreases n
  {
    hide Rx.Run, Rx.Next, WithinTolerance, LineAt, Lag, Rx.Sampled, WaitsFrom;
    var line, a := BurstLine(p, ws, gaps, period), WaitsFrom(p, gaps, period, |ws|);
    if n == a {
      WaitsQuietly(p, s, ws, gaps, period, |ws|);
    } else {
      RestsAfter(p, s, ws, gaps, period, n - 1);
      Rx.SamplesFollow(p, s, line, n - 1);
      Rx.SamplesFollow(p, s, line, n);
      Rx.RunStep(p, s, line, n - 1);
      forall k: nat | a - 6 <= k < n ensures line(k) {
        HighBetween(p, ws, gaps, period, |ws|, k);
      }
      FirstIsHigh(Rx.Run(p, s, line, n - 1), line, n - 1);
      IdleStep(p, Rx.Run(p, s, line, n - 1), line(n - 1));
      AllHigh(Rx.Run(p, s, line, n), line, n);
    }
  }

  /// What arrives.

  // By clock n the receiver has handed over exactly the words ws, and it stays so.
  ghost predicate Arrived(p: Params, s: Rx.Regs, line: nat -> bool, ws: seq<seq<bool>>, n: nat)
    requires Rx.Shaped(p, s)
  {
    forall m: nat :: m >= n ==> Handed(p, s, line, m) == ws
  }

  ghost predicate Arrives(p: Params, s: Rx.Regs, ws: seq<seq<bool>>, gaps: seq<nat>, period: nat)
    requires Sends(p, s, ws, gaps, period)
  {
    exists n: nat :: Arrived(p, s, BurstLine(p, ws, gaps, period), ws, n)
  }

  lemma HandedStep(p: Params, s: Rx.Regs, line: nat -> bool, n: nat)
    requires Rx.Shaped(p, s) && n > 0
    ensures Handed(p, s, line, n) ==
            Handed(p, s, line, n - 1) + if Rx.Run(p, s, line, n).done then [Rx.Run(p, s, line, n).out] else []
  {
  }

  lemma NothingYet(p: Params, s: Rx.Regs, line: nat -> bool, gaps: seq<nat>, period: nat)
    requires Rx.Shaped(p, s)
    ensures WaitsFrom(p, gaps, period, 0) == 0 && Handed(p, s, line, 0) == [] && Rx.Run(p, s, line, 0) == s
  {
  }

  lemma {:induction false} HandedInFrame(p: Params, s: Rx.Regs, ws: seq<seq<bool>>, gaps: seq<nat>, period: nat,
                                         i: nat, n: nat)
    requires Sends(p, s, ws, gaps, period) && i < |ws|
    requires forall j :: 0 <= j < i ==> WithinTolerance(p, period, Lag(p, gaps, period, j))
    requires Offset(p, 0) + Lag(p, gaps, period, i) < period
    requires WaitsFrom(p, gaps, period, i) <= n <= WaitsFrom(p, gaps, period, i + 1)
    requires Handed(p, s, BurstLine(p, ws, gaps, period), WaitsFrom(p, gaps, period, i)) == ws[..i]
    ensures var line, u := BurstLine(p, ws, gaps, period), HeardAt(p, gaps, period, i);
      Handed(p, s, line, n) == ws[..i] + if n < Rx.DoneAt(p, u) then [] else [Rx.Samples(p, line, u, p.width)]
    decreases n
  {
    hide Rx.Run, Handed, LineAt, WithinTolerance, WaitsFrom, HeardAt, Rx.DoneAt, Rx.Samples, Offset, Lag;
    FrameIsTaken(p, s, ws, gaps, period, i, n);
    WaitsInOrder(p, gaps, period, i);
    if n > WaitsFrom(p, gaps, period, i) {
      HandedInFrame(p, s, ws, gaps, period, i, n - 1);
      HandedStep(p, s, BurstLine(p, ws, gaps, period), n);
    }
  }

  lemma {:induction false} HandedFrames(p: Params, s: Rx.Regs, ws: seq<seq<bool>>, gaps: seq<nat>, period: nat, i: nat)
    requires Sends(p, s, ws, gaps, period) && i <= |ws|
    requires forall j :: 0 <= j < i ==> WithinTolerance(p, period, Lag(p, gaps, period, j))
    ensures Handed(p, s, BurstLine(p, ws, gaps, period), WaitsFrom(p, gaps, period, i)) == ws[..i]
  {
    hide Rx.Run, Handed, LineAt, InBit, WaitsFrom, HeardAt, Rx.DoneAt, Offset, Lag, Rx.Samples;
    if i == 0 {
      NothingYet(p, s, BurstLine(p, ws, gaps, period), gaps, period);
    } else {
      HandedFrames(p, s, ws, gaps, period, i - 1);
      WaitsInOrder(p, gaps, period, i - 1);
      HandedInFrame(p, s, ws, gaps, period, i - 1, WaitsFrom(p, gaps, period, i));
      FrameIsRead(p, ws, gaps, period, i - 1);
    }
  }

  // Once nothing more is handed over.
  lemma {:induction false} HandedStops(p: Params, s: Rx.Regs, line: nat -> bool, a: nat, n: nat)
    requires Rx.Shaped(p, s) && a <= n && forall m :: a < m <= n ==> !Rx.Run(p, s, line, m).done
    ensures Handed(p, s, line, n) == Handed(p, s, line, a)
    decreases n
  {
    hide Rx.Run, Handed;
    if n > a {
      HandedStops(p, s, line, a, n - 1);
      HandedStep(p, s, line, n);
    }
  }

  lemma {:induction false} HandedGrows(p: Params, s: Rx.Regs, line: nat -> bool, a: nat, n: nat)
    requires Rx.Shaped(p, s) && a <= n
    ensures Handed(p, s, line, a) <= Handed(p, s, line, n)
    decreases n
  {
    hide Rx.Run, Handed;
    if n > a {
      HandedGrows(p, s, line, a, n - 1);
      HandedStep(p, s, line, n);
    }
  }

  // A burst whose frames fit arrives as it was sent.
  lemma BurstArrives(p: Params, s: Rx.Regs, ws: seq<seq<bool>>, gaps: seq<nat>, period: nat, m: nat)
    requires Sends(p, s, ws, gaps, period) && |ws| <= m && BurstFits(p, period, m)
    ensures Arrived(p, s, BurstLine(p, ws, gaps, period), ws, WaitsFrom(p, gaps, period, |ws|))
  {
    hide Rx.Run, Handed, LineAt, WithinTolerance, WaitsFrom;
    var line, a := BurstLine(p, ws, gaps, period), WaitsFrom(p, gaps, period, |ws|);
    forall j | 0 <= j < |ws| ensures WithinTolerance(p, period, Lag(p, gaps, period, j)) {
      BurstFitsFrame(p, gaps, period, m, j);
    }
    HandedFrames(p, s, ws, gaps, period, |ws|);
    forall n: nat | n >= a ensures Handed(p, s, line, n) == ws {
      forall k: nat | a < k <= n ensures !Rx.Run(p, s, line, k).done {
        RestsAfter(p, s, ws, gaps, period, k);
      }
      HandedStops(p, s, line, a, n);
    }
  }

  /// A burst whose last frame does not fit.

  function NoGaps(n: nat): seq<nat> { seq(n, _ => 0) }

  lemma {:induction false} NoGapsLag(p: Params, period: nat, n: nat, i: nat)
    requires i < n
    ensures Lag(p, NoGaps(n), period, i) == FullLag(p, period, i)
  {
    hide Turnaround, FrameLen;
    if i > 0 {
      NoGapsLag(p, period, n, i - 1);
    }
  }

  // The last frame and the idle line after it.
  lemma LineFromLast(p: Params, ws: seq<seq<bool>>, gaps: seq<nat>, period: nat, n: nat)
    requires period > 0 && |gaps| == |ws| > 0 && |ws[|ws| - 1]| == p.width
    requires StartOf(p, gaps, period, |ws| - 1) <= n
    ensures LineAt(p, ws, gaps, period, n) == Tx.Level(ws[|ws| - 1], (n - StartOf(p, gaps, period, |ws| - 1)) / period)
  {
    hide StartOf;
    var d: nat := n - StartOf(p, gaps, period, |ws| - 1);
    if d >= FrameLen(p, period) {
      QuotientIs(d, d / period, period);
      OneMore(d / period, period);
      MulLess(p.width + 1, d / period, period);
    }
  }

  // The burst ws, without gaps, whose last frame alone does not fit.
  ghost predicate LastFails(p: Params, s: Rx.Regs, ws: seq<seq<bool>>, period: nat)
  {
    && |ws| > 0 && Sends(p, s, ws, NoGaps(|ws|), period) && BurstFits(p, period, |ws| - 1)
  }

  lemma FirstFit(p: Params, s: Rx.Regs, ws: seq<seq<bool>>, period: nat)
    requires LastFails(p, s, ws, period)
    ensures forall j :: 0 <= j < |ws| - 1 ==> WithinTolerance(p, period, Lag(p, NoGaps(|ws|), period, j))
    ensures Lag(p, NoGaps(|ws|), period, |ws| - 1) == FullLag(p, period, |ws| - 1)
  {
    hide WithinTolerance, Lag;
    forall j | 0 <= j < |ws| ensures Lag(p, NoGaps(|ws|), period, j) == FullLag(p, period, j) {
      NoGapsLag(p, period, |ws|, j);
    }
  }

  // A sample outside its own bit misreads the last word.
  lemma LastIsMisread(p: Params, s: Rx.Regs, ws: seq<seq<bool>>, period: nat, k: nat)
    requires LastFails(p, s, ws, period) && k < p.width
    requires var lag := FullLag(p, period, |ws| - 1);
      && Offset(p, 0) + lag < period && !InBit(p, period, lag, k)
      && ws[|ws| - 1] == Misread(p, Found(p, period, lag, k), k)
    ensures !Arrives(p, s, ws, NoGaps(|ws|), period)
  {
    var i, gaps, lag := |ws| - 1, NoGaps(|ws|), FullLag(p, period, |ws| - 1);
    var line, u, b := BurstLine(p, ws, gaps, period), HeardAt(p, gaps, period, i), WaitsFrom(p, gaps, period, i + 1);
    FirstFit(p, s, ws, period);
    hide Rx.Run, Handed, LineAt, InBit, HeardAt, Offset, Lag, Rx.DoneAt, StartOf, WaitsFrom, Misread, FullLag;
    HandedFrames(p, s, ws, gaps, period, i);
    WaitsInOrder(p, gaps, period, i);
    HandedInFrame(p, s, ws, gaps, period, i, b);
    LastSample(p, ws, gaps, period, k);
    MisreadDiffers(p, period, lag, k);
    forall n: nat ensures !Arrived(p, s, line, ws, n) {
      HandedGrows(p, s, line, b, Max(b, n));
      assert Handed(p, s, line, Max(b, n))[i] != ws[i];
    }
  }

  lemma LastSample(p: Params, ws: seq<seq<bool>>, gaps: seq<nat>, period: nat, k: nat)
    requires period > 0 && |gaps| == |ws| > 0 && |ws[|ws| - 1]| == p.width && k < p.width
    ensures var i := |ws| - 1;
      Rx.Samples(p, BurstLine(p, ws, gaps, period), HeardAt(p, gaps, period, i), p.width)[k] ==
      Tx.Level(ws[i], Found(p, period, Lag(p, gaps, period, i), k))
  {
    hide LineAt, StartOf, Lag, Tx.Level;
    LineFromLast(p, ws, gaps, period, Rx.SampledAt(p, HeardAt(p, gaps, period, |ws| - 1), k + 1));
  }

  function Ones(p: Params): seq<bool> { seq(p.width, _ => true) }

  // Of five samples from clock a on, one lies outside any four clocks.
  lemma NotAllLow(u: Rx.Regs, line: nat -> bool, a: nat, t: nat, e: nat, n: nat)
    requires Rx.Sampled(u, line, n) && a <= n && e < Max(t, a - 6) + 5
    requires forall k: nat :: a - 6 <= k < t || k >= e ==> line(k)
    ensures u.flags != Rx.LOW
  {
    if n >= 6 && n - 2 >= e {
      assert u.flags[4] == line(n - 2);
    } else {
      assert u.flags[0] == Rx.LineAt(line, n - 6);
    }
  }

  // Low for less than five of the clocks it looks at, the line starts nothing.
  lemma {:induction false} NeverFound(p: Params, s: Rx.Regs, line: nat -> bool, a: nat, t: nat, e: nat, n: nat)
    requires Supported(p) && Rx.AtRest(p, s) && Quiet(Rx.Run(p, s, line, a)) && a <= n && e < Max(t, a - 6) + 5
    requires forall k: nat :: a - 6 <= k < t || k >= e ==> line(k)
    ensures Quiet(Rx.Run(p, s, line, n))
    decreases n
  {
    hide Rx.Run, Rx.Next, Rx.Sampled;
    if n > a {
      NeverFound(p, s, line, a, t, e, n - 1);
      Rx.SamplesFollow(p, s, line, n - 1);
      NotAllLow(Rx.Run(p, s, line, n - 1), line, a, t, e, n - 1);
      Rx.RunStep(p, s, line, n - 1);
      IdleStep(p, Rx.Run(p, s, line, n - 1), line(n - 1));
    }
  }

  // Low only from clock t to clock e, before the start check, the line gives no word.
  lemma PulseIsDropped(p: Params, s: Rx.Regs, line: nat -> bool, a: nat, t: nat, u: nat, e: nat, n: nat)
    requires Next(p, s, line, a, t, u) && e <= u + Offset(p, 0) && a <= n
    requires forall k: nat :: if k >= e then line(k) else k >= t ==> !line(k)
    ensures !Rx.Run(p, s, line, n).done
  {
    hide Rx.Run, Rx.Begun;
    var g := Rx.At(p, u, 0, p.cycle / 2 + 2);
    if e < u + 5 {
      NeverFound(p, s, line, a, t, e, n);
    } else if n <= u + 6 {
      StaysQuiet(p, s, line, a, t, u, n);
    } else {
      StartIsFound(p, s, line, a, t, u);
      if u + 7 < n <= g {
        Rx.ReceptionGivenUp(p, s, line, u, n);
      } else if n > g {
        Rx.ReceptionGivenUp(p, s, line, u, g);
        NeverFound(p, s, line, g, 0, e, n);
      }
    }
  }

  // With the start check after the start bit, an all-ones word is never handed over.
  lemma LateFrameIsLost(p: Params, s: Rx.Regs, ws: seq<seq<bool>>, period: nat, n: nat)
    requires LastFails(p, s, ws, period) && ws[|ws| - 1] == Ones(p)
    requires Offset(p, 0) + FullLag(p, period, |ws| - 1) >= period
    requires n >= WaitsFrom(p, NoGaps(|ws|), period, |ws| - 1)
    ensures !Rx.Run(p, s, BurstLine(p, ws, NoGaps(|ws|), period), n).done
  {
    var i, gaps := |ws| - 1, NoGaps(|ws|);
    var line, t := BurstLine(p, ws, gaps, period), StartOf(p, gaps, period, i);
    FirstFit(p, s, ws, period);
    hide Rx.Run, LineAt, InBit, Lag, StartOf, WaitsFrom, FullLag, Rx.AtRest, Next, Offset;
    WaitsQuietly(p, s, ws, gaps, period, i);
    NextFrame(p, s, ws, gaps, period, i);
    hide Ones;
    forall k: nat ensures if k >= t + period then line(k) else k >= t ==> !line(k) {
      OnesLine(p, ws, gaps, period, k);
    }
    PulseIsDropped(p, s, line, WaitsFrom(p, gaps, period, i), t, HeardAt(p, gaps, period, i), t + period, n);
  }

  lemma OnesLine(p: Params, ws: seq<seq<bool>>, gaps: seq<nat>, period: nat, k: nat)
    requires period > 0 && |gaps| == |ws| > 0 && ws[|ws| - 1] == Ones(p)
    ensures var t := StartOf(p, gaps, period, |ws| - 1);
      if k >= t + period then LineAt(p, ws, gaps, period, k) else k >= t ==> !LineAt(p, ws, gaps, period, k)
  {
    var t := StartOf(p, gaps, period, |ws| - 1);
    hide LineAt, StartOf;
    if k >= t {
      LineFromLast(p, ws, gaps, period, k);
      QuotientIs(k - t, 0, period);
    }
  }

  lemma LateIsMissed(p: Params, s: Rx.Regs, ws: seq<seq<bool>>, period: nat)
    requires LastFails(p, s, ws, period) && ws[|ws| - 1] == Ones(p)
    requires Offset(p, 0) + FullLag(p, period, |ws| - 1) >= period
    ensures !Arrives(p, s, ws, NoGaps(|ws|), period)
  {
    var i, gaps := |ws| - 1, NoGaps(|ws|);
    var line, a := BurstLine(p, ws, gaps, period), WaitsFrom(p, gaps, period, i);
    FirstFit(p, s, ws, period);
    hide Rx.Run, Handed, LineAt, WithinTolerance, WaitsFrom, Offset, Lag, FullLag;
    HandedFrames(p, s, ws, gaps, period, i);
    forall n: nat ensures !Arrived(p, s, line, ws, n) {
      var m := Max(a, n);
      forall k: nat | a < k <= m ensures !Rx.Run(p, s, line, k).done {
        LateFrameIsLost(p, s, ws, period, k);
      }
      HandedStops(p, s, line, a, m);
      assert |Handed(p, s, line, m)| == i;
    }
  }

  /// The exact tolerance of a burst.

  ghost predicate AllArrive(p: Params, s: Rx.Regs, period: nat, n: nat)
  {
    forall ws: seq<seq<bool>>, gaps: seq<nat> ::
      |ws| <= n && Sends(p, s, ws, gaps, period) ==> Arrives(p, s, ws, gaps, period)
  }

  // A burst of i + 1 frames that the receiver gets wrong.
  lemma SomeFails(p: Params, s: Rx.Regs, period: nat, n: nat, i: nat)
    requires Wide(p) && Rx.AtRest(p, s) && period > 0 && i < n
    requires BurstFits(p, period, i) && !WithinTolerance(p, period, FullLag(p, period, i))
    ensures !AllArrive(p, s, period, n)
  {
    var lag, before := FullLag(p, period, i), seq(i, _ => Ones(p));
    hide FullLag, Rx.AtRest, InBit, Misread;
    if Offset(p, 0) + lag >= period {
      var ws := before + [Ones(p)];
      LateIsMissed(p, s, ws, period);
    } else {
      var k :| 0 <= k < p.width && !InBit(p, period, lag, k);
      var w := Misread(p, Found(p, period, lag, k), k);
      LastIsMisread(p, s, before + [w], period, k);
    }
  }

  // A receiver at rest gets every burst of up to n words right, whatever the gaps between them, if and only if
  // each of n frames sent without a gap has its samples in their own bits, counted from its late start.
  lemma BurstToleranceIsExact(p: Params, s: Rx.Regs, period: nat, n: nat)
    requires Wide(p) && Rx.AtRest(p, s) && period > 0
    ensures AllArrive(p, s, period, n) <==> BurstFits(p, period, n)
  {
    hide WithinTolerance, FullLag, Rx.AtRest, LineAt, Handed;
    if BurstFits(p, period, n) {
      forall ws: seq<seq<bool>>, gaps: seq<nat> | |ws| <= n && Sends(p, s, ws, gaps, period)
        ensures Arrives(p, s, ws, gaps, period)
      {
        BurstArrives(p, s, ws, gaps, period, n);
      }
    } else {
      var i := FirstMisfit(p, period, n);
      SomeFails(p, s, period, n, i);
    }
  }

  lemma {:induction false} FirstMisfit(p: Params, period: nat, n: nat) returns (i: nat)
    requires !BurstFits(p, period, n)
    ensures i < n && BurstFits(p, period, i) && !WithinTolerance(p, period, FullLag(p, period, i))
  {
    hide WithinTolerance, FullLag;
    if BurstFits(p, period, n - 1) {
      i := n - 1;
    } else {
      i := FirstMisfit(p, period, n - 1);
    }
  }

  // At equal rates each frame without a gap is taken two clocks later than the one before.
  lemma {:induction false} EqualRatesLag(p: Params, i: nat)
    ensures FullLag(p, p.cycle, i) == 2 * i
  {
    if i > 0 {
      EqualRatesLag(p, i - 1);
    }
  }

  // So a loopback without pauses carries n words exactly from this bit length on.
  lemma EqualRatesBurst(p: Params, s: Rx.Regs, n: nat)
    requires Wide(p) && Rx.AtRest(p, s) && n > 0
    ensures AllArrive(p, s, p.cycle, n) <==> p.cycle / 2 + 4 + 2 * n < p.cycle
  {
    hide AllArrive, FullLag, Rx.AtRest;
    BurstToleranceIsExact(p, s, p.cycle, n);
    forall i | 0 <= i < n
      ensures WithinTolerance(p, p.cycle, FullLag(p, p.cycle, i)) <==> p.cycle / 2 + 6 + 2 * i < p.cycle
    {
      EqualRatesLag(p, i);
      if p.cycle / 2 + 6 + 2 * i < p.cycle {
        forall k | 0 <= k < p.width ensures InBit(p, p.cycle, 2 * i, k) {
          OneMore(k + 1, p.cycle);
        }
      }
    }
    hide WithinTolerance;
    if BurstFits(p, p.cycle, n) {
      assert WithinTolerance(p, p.cycle, FullLag(p, p.cycle, n - 1));
    }
  }
}
