/// Transmitter and receiver together, and the receiver against a sender with another bit period.

module UartLink {
  import opened Arith
  import opened UartBaud
  import Tx = UartTx
  import Rx = UartRx

  // The wire from the transmitter to the receiver.
  function Wire(p: Params, s: Tx.Regs, i: nat -> Tx.Input): nat -> bool
  {
    (n: nat) => Tx.Run(p, s, i, n).line
  }

  // A mid-bit sample falls into its own bit.
  lemma SampleInBit(p: Params, t: nat, j: nat)
    requires 13 <= p.cycle
    ensures Rx.SampledAt(p, t, j) == t + j * p.cycle + (p.cycle / 2 + 6) && p.cycle / 2 + 6 < p.cycle
  {
  }

  lemma WireIsHeard(p: Params, ts: Tx.Regs, rs: Rx.Regs, i: nat -> Tx.Input)
    requires Tx.Accepts(p, ts, i) && Rx.AtRest(p, rs) && 13 <= p.cycle
    ensures Rx.Hears(p, rs, Wire(p, ts, i), Tx.StartsAt(p))
    ensures Rx.Samples(p, Wire(p, ts, i), Tx.StartsAt(p), p.width) == Tx.Latched(i)
  {
    hide Tx.Run;
    var line, t := Wire(p, ts, i), Tx.StartsAt(p);
    forall k | 0 <= k < t ensures line(k) {
      Tx.LineIdlesBefore(p, ts, i, k);
    }
    forall k | t <= k < t + 5 ensures !line(k) {
      Tx.LineCarriesFrame(p, ts, i, 0, k - t);
    }
    SampleInBit(p, t, 0);
    Tx.LineCarriesFrame(p, ts, i, 0, p.cycle / 2 + 6);
    var b := Rx.Samples(p, line, t, p.width);
    forall k | 0 <= k < p.width ensures b[k] == Tx.Latched(i)[k] {
      SampleInBit(p, t, k + 1);
      Tx.LineCarriesFrame(p, ts, i, k + 1, p.cycle / 2 + 6);
    }
  }

  // The loopback: a word accepted by the idle transmitter is handed over by the idle receiver,
  // unchanged, at exactly one clock, for every bit length from 13 clocks up.
  lemma LoopbackDelivers(p: Params, ts: Tx.Regs, rs: Rx.Regs, i: nat -> Tx.Input, n: nat)
    requires Tx.Accepts(p, ts, i) && Rx.AtRest(p, rs) && 13 <= p.cycle
    requires n <= Rx.IdleAt(p, Tx.StartsAt(p))
    ensures var r := Rx.Run(p, rs, Wire(p, ts, i), n);
      && (r.done <==> n == Rx.DoneAt(p, Tx.StartsAt(p)))
      && (r.done ==> r.out == Tx.Latched(i))
  {
    hide Tx.Run, Rx.Run;
    WireIsHeard(p, ts, rs, i);
    Rx.DeliversOnce(p, rs, Wire(p, ts, i), Tx.StartsAt(p), n);
  }

  /// Any number of words, one after the other.

  // The words handed over in the first n clocks.
  function Handed(p: Params, rs: Rx.Regs, line: nat -> bool, n: nat): seq<seq<bool>>
    requires Rx.Shaped(p, rs)
  {
    if n == 0 then []
    else
      var r := Rx.Run(p, rs, line, n);
      Handed(p, rs, line, n - 1) + if r.done then [r.out] else []
  }

  // The input that holds a word valid for two clocks, as nice_core does.
  function Hold(w: seq<bool>): nat -> Tx.Input
  {
    (n: nat) => Tx.Input(n < 2, w)
  }

  // Clocks until both ends are idle again after a word.
  function FrameClocks(p: Params): nat { Rx.IdleAt(p, Tx.StartsAt(p)) + 1 }

  datatype Ends = Ends(tx: Tx.Regs, rx: Rx.Regs, log: seq<seq<bool>>)

  // Sending w: FrameClocks clocks for the frame and gap idle ones.
  function RelayWord(p: Params, e: Ends, w: seq<bool>, gap: nat): (f: Ends)
    requires Rx.Shaped(p, e.rx)
    ensures Rx.Shaped(p, f.rx)
  {
    var i, n := Hold(w), FrameClocks(p) + gap;
    var line := Wire(p, e.tx, i);
    var rx := Rx.Run(p, e.rx, line, n);
    Ends(Tx.Run(p, e.tx, i, n), rx, e.log + Handed(p, e.rx, line, n))
  }

  function Relay(p: Params, e: Ends, ws: seq<seq<bool>>, gaps: seq<nat>): (f: Ends)
    requires Rx.Shaped(p, e.rx) && |gaps| == |ws|
    ensures Rx.Shaped(p, f.rx)
    decreases |ws|
  {
    if ws == [] then e
    else Relay(p, RelayWord(p, e, ws[0], gaps[0]), ws[1..], gaps[1..])
  }

  ghost predicate BothAtRest(p: Params, e: Ends) { Tx.AtRest(e.tx) && Rx.AtRest(p, e.rx) }

  lemma AllHigh(u: Rx.Regs, line: nat -> bool, n: nat)
    requires Rx.Sampled(u, line, n) && forall k :: n - 6 <= k < n ==> Rx.LineAt(line, k)
    ensures u.sync && u.flags == [true, true, true, true, true]
  {
  }

  lemma IdleStep(p: Params, u: Rx.Regs, l: bool)
    requires Rx.Shaped(p, u) && u.cur == Idle && !u.baudValid && u.flags != Rx.LOW
    ensures var v := Rx.Next(p, u, l); v.cur == Idle && !v.baudValid && v.baudCnt == 0 && !v.done
  {
  }

  lemma {:induction false} ReceiverIdles(p: Params, rs: Rx.Regs, line: nat -> bool, t: nat, n: nat)
    requires Rx.Hears(p, rs, line, t) && n >= Rx.IdleAt(p, t)
    requires forall k :: Rx.IdleAt(p, t) - 7 <= k < n ==> line(k)
    ensures var u := Rx.Run(p, rs, line, n);
      u.cur == Idle && !u.baudValid && !u.done && (n > Rx.IdleAt(p, t) ==> Rx.AtRest(p, u))
    decreases n
  {
    hide Rx.Run, Rx.IdleAt, Rx.Next, Rx.Sampled, Rx.FallsAt, Rx.SampledAt;
    Rx.SamplesFollow(p, rs, line, n);
    if n == Rx.IdleAt(p, t) {
      Rx.IdlesAgain(p, rs, line, t);
    } else {
      ReceiverIdles(p, rs, line, t, n - 1);
      Rx.SamplesFollow(p, rs, line, n - 1);
      Rx.RunStep(p, rs, line, n - 1);
      AllHigh(Rx.Run(p, rs, line, n - 1), line, n - 1);
      IdleStep(p, Rx.Run(p, rs, line, n - 1), line(n - 1));
      AllHigh(Rx.Run(p, rs, line, n), line, n);
    }
  }

  lemma WireStaysHigh(p: Params, ts: Tx.Regs, w: seq<bool>, k: nat)
    requires Supported(p) && Tx.AtRest(ts) && |w| == p.width && Tx.StopsAt(p) <= k
    ensures Wire(p, ts, Hold(w))(k)
  {
    assert Tx.StopsAt(p) >= 2;
    hide Tx.Run, Tx.StopsAt;
    Tx.LineIdlesAfter(p, ts, Hold(w), k);
  }

  lemma StopIsEarly(p: Params)
    requires Supported(p)
    ensures 2 <= Tx.StopsAt(p) && Tx.StopsAt(p) + 8 <= Rx.IdleAt(p, Tx.StartsAt(p))
  {
    var t, x, y := Tx.StartsAt(p), (p.width + 1) * p.cycle, (p.width + 2) * p.cycle;
    assert Tx.StopsAt(p) == t + x && Rx.IdleAt(p, t) == t + 7 + y + 1 && t >= 2;
    hide Tx.StopsAt, Rx.IdleAt, Tx.StartsAt;
    OneMore(p.width + 1, p.cycle);
  }

  lemma {:induction false} HandedOnce(p: Params, rs: Rx.Regs, line: nat -> bool, t: nat, n: nat)
    requires Rx.Hears(p, rs, line, t)
    requires forall k :: Rx.IdleAt(p, t) - 7 <= k < n ==> line(k)
    ensures Handed(p, rs, line, n) == if n < Rx.DoneAt(p, t) then [] else [Rx.Samples(p, line, t, p.width)]
    decreases n
  {
    hide Rx.Run, Rx.Samples, Rx.IdleAt, Rx.DoneAt;
    if n > 0 {
      HandedOnce(p, rs, line, t, n - 1);
      if n <= Rx.IdleAt(p, t) {
        Rx.DeliversOnce(p, rs, line, t, n);
      } else {
        ReceiverIdles(p, rs, line, t, n);
        Rx.DoneTimes(p, t);
      }
    } else {
      Rx.DoneTimes(p, t);
    }
  }

  lemma RelaysWord(p: Params, e: Ends, w: seq<bool>, gap: nat)
    requires Supported(p) && 13 <= p.cycle && BothAtRest(p, e) && |w| == p.width
    ensures BothAtRest(p, RelayWord(p, e, w, gap)) && RelayWord(p, e, w, gap).log == e.log + [w]
  {
    hide Tx.Run, Rx.Run, Rx.Samples, Handed, Rx.SampledAt, Rx.FallsAt;
    hide Tx.StopsAt, Tx.StartsAt, Rx.IdleAt, Rx.DoneAt, Tx.AtRest, Rx.AtRest;
    var i, n, t := Hold(w), FrameClocks(p) + gap, Tx.StartsAt(p);
    var line := Wire(p, e.tx, i);
    WireIsHeard(p, e.tx, e.rx, i);
    StopIsEarly(p);
    forall k | Rx.IdleAt(p, t) - 7 <= k < n ensures line(k) {
      WireStaysHigh(p, e.tx, w, k);
    }
    HandedOnce(p, e.rx, line, t, n);
    Rx.DoneTimes(p, t);
    ReceiverIdles(p, e.rx, line, t, n);
    Tx.FrameEnds(p, e.tx, i);
    Tx.StaysAtRest(p, e.tx, i, Tx.StopsAt(p) + 1, n);
  }

  // Every sequence of words arrives, in order, each exactly once, whatever the idle gaps.
  lemma {:induction false} RelaysAll(p: Params, e: Ends, ws: seq<seq<bool>>, gaps: seq<nat>)
    requires Supported(p) && 13 <= p.cycle && BothAtRest(p, e) && |gaps| == |ws|
    requires forall k :: 0 <= k < |ws| ==> |ws[k]| == p.width
    ensures BothAtRest(p, Relay(p, e, ws, gaps)) && Relay(p, e, ws, gaps).log == e.log + ws
    decreases |ws|
  {
    hide RelayWord;
    if ws != [] {
      var f := RelayWord(p, e, ws[0], gaps[0]);
      RelaysWord(p, e, ws[0], gaps[0]);
      RelaysAll(p, f, ws[1..], gaps[1..]);
      assert e.log + [ws[0]] + ws[1..] == e.log + ws;
    }
  }

  /// A sender with its own bit period.

  // The line of a sender that starts the frame of w at clock t, period clocks a bit.
  function SenderLine(w: seq<bool>, period: nat, t: nat): nat -> bool
    requires period > 0
  {
    (n: nat) => if n < t then true else Tx.Level(w, (n - t) / period)
  }

  // The receiver hands over w, once, and nothing else by the end of the frame.
  ghost predicate Decodes(p: Params, s: Rx.Regs, w: seq<bool>, period: nat, t: nat)
    requires period > 0 && Rx.Shaped(p, s)
  {
    var line := SenderLine(w, period, t);
    forall n: nat :: n <= Rx.IdleAt(p, t) ==>
      && (Rx.Run(p, s, line, n).done <==> n == Rx.DoneAt(p, t))
      && (n == Rx.DoneAt(p, t) ==> Rx.Run(p, s, line, n).out == w)
  }

  // Offset of sample j from the start of the frame.
  function Offset(p: Params, j: nat): nat { p.cycle / 2 + 6 + j * p.cycle }

  // Started lag clocks late, every sample still falls into its own bit of the sender.
  ghost predicate WithinTolerance(p: Params, period: nat, lag: nat)
  {
    && Offset(p, 0) + lag < period
    && forall k :: 0 <= k < p.width ==> InBit(p, period, lag, k)
  }

  ghost predicate InBit(p: Params, period: nat, lag: nat, k: nat)
  {
    (k + 1) * period <= Offset(p, k + 1) + lag < (k + 2) * period
  }

  // The value of sample j is the level of the bit it falls into.
  lemma SenderSample(p: Params, w: seq<bool>, period: nat, t: nat, j: nat)
    requires period > 0
    ensures Rx.SampledAt(p, t, j) == t + Offset(p, j)
    ensures SenderLine(w, period, t)(Rx.SampledAt(p, t, j)) == Tx.Level(w, Offset(p, j) / period)
  {
  }

  lemma SenderSamples(p: Params, w: seq<bool>, period: nat, t: nat, k: nat)
    requires period > 0 && k < p.width
    ensures Rx.Samples(p, SenderLine(w, period, t), t, p.width)[k] == Tx.Level(w, Offset(p, k + 1) / period)
  {
    hide Offset;
    SenderSample(p, w, period, t, k + 1);
  }

  lemma SenderFalls(p: Params, s: Rx.Regs, w: seq<bool>, period: nat, t: nat)
    requires Supported(p) && Rx.AtRest(p, s) && period >= 5
    ensures Rx.Falls(p, s, SenderLine(w, period, t), t)
  {
    forall k | t <= k < t + 5 ensures !SenderLine(w, period, t)(k) {
      QuotientIs(k - t, 0, period);
    }
  }

  lemma WithinToleranceDecodes(p: Params, s: Rx.Regs, w: seq<bool>, period: nat, t: nat)
    requires Supported(p) && Rx.AtRest(p, s) && |w| == p.width && period > 0 && WithinTolerance(p, period, 0)
    ensures Decodes(p, s, w, period, t)
  {
    assert period >= 5;
    hide Rx.Run, SenderLine, Rx.SampledAt, Offset, Rx.FallsAt;
    var line := SenderLine(w, period, t);
    SenderFalls(p, s, w, period, t);
    SenderSample(p, w, period, t, 0);
    QuotientIs(Offset(p, 0), 0, period);
    var b := Rx.Samples(p, line, t, p.width);
    forall k | 0 <= k < p.width ensures b[k] == w[k] {
      assert InBit(p, period, 0, k);
      QuotientIs(Offset(p, k + 1), k + 1, period);
      SenderSamples(p, w, period, t, k);
    }
    assert b == w;
    forall n: nat | n <= Rx.IdleAt(p, t)
      ensures Rx.Run(p, s, line, n).done <==> n == Rx.DoneAt(p, t)
      ensures n == Rx.DoneAt(p, t) ==> Rx.Run(p, s, line, n).out == w
    {
      Rx.DeliversOnce(p, s, line, t, n);
    }
  }

  // A word that a sample in bit j instead of bit k + 1 of the frame misreads.
  function Misread(p: Params, j: nat, k: nat): seq<bool>
  {
    seq(p.width, x => (x == k) == (j <= p.width))
  }

  // The bit that sample k + 1 falls into.
  function Found(p: Params, period: nat, lag: nat, k: nat): nat
    requires period > 0
  {
    (Offset(p, k + 1) + lag) / period
  }

  lemma MisreadDiffers(p: Params, period: nat, lag: nat, k: nat)
    requires period > 0 && k < p.width && !InBit(p, period, lag, k)
    ensures var j := Found(p, period, lag, k); Tx.Level(Misread(p, j, k), j) != Misread(p, j, k)[k]
  {
    QuotientIs(Offset(p, k + 1) + lag, k + 1, period);
    hide Offset;
  }

  lemma OutsideIsMisread(p: Params, s: Rx.Regs, period: nat, t: nat, k: nat)
    requires Supported(p) && Rx.AtRest(p, s) && period >= 5 && Offset(p, 0) < period && k < p.width
    requires !InBit(p, period, 0, k)
    ensures !Decodes(p, s, Misread(p, Found(p, period, 0, k), k), period, t)
  {
    hide Rx.Run, SenderLine, Rx.SampledAt, Offset, Rx.FallsAt;
    var w := Misread(p, Found(p, period, 0, k), k);
    var line := SenderLine(w, period, t);
    SenderFalls(p, s, w, period, t);
    SenderSample(p, w, period, t, 0);
    QuotientIs(Offset(p, 0), 0, period);
    MisreadDiffers(p, period, 0, k);
    hide Misread, InBit;
    SenderSamples(p, w, period, t, k);
    assert Rx.Samples(p, line, t, p.width)[k] != w[k];
    Rx.DoneTimes(p, t);
    Rx.DeliversOnce(p, s, line, t, Rx.DoneAt(p, t));
  }

  // With the start check outside the start bit, an all-ones word is taken for a glitch.
  lemma LateStartIsDropped(p: Params, s: Rx.Regs, period: nat, t: nat)
    requires Supported(p) && Rx.AtRest(p, s) && 5 <= period <= Offset(p, 0)
    ensures !Decodes(p, s, seq(p.width, _ => true), period, t)
  {
    hide Rx.Run, Rx.SampledAt, Rx.FallsAt;
    var w := seq(p.width, _ => true);
    var line := SenderLine(w, period, t);
    SenderFalls(p, s, w, period, t);
    forall n: nat | n >= t + period ensures line(n) {
      QuotientIs(n - t, 0, period);
    }
    SenderSample(p, w, period, t, 0);
    Rx.DoneTimes(p, t);
    SlotIsBeforeDone(p, t);
    GlitchStaysIdle(p, s, line, t, Rx.DoneAt(p, t));
  }

  // Shorter than five clocks, the start bit of an all-ones word is not even seen.
  lemma ShortStartIsMissed(p: Params, s: Rx.Regs, period: nat, t: nat)
    requires Supported(p) && Rx.AtRest(p, s) && 1 <= period < 5
    ensures !Decodes(p, s, seq(p.width, _ => true), period, t)
  {
    hide Rx.Run;
    var line := SenderLine(seq(p.width, _ => true), period, t);
    forall n: nat | n >= t + period ensures line(n) {
      QuotientIs(n - t, 0, period);
    }
    Rx.DoneTimes(p, t);
    NeverStarts(p, s, line, t, Rx.DoneAt(p, t));
  }

  // Of five samples in a row one lies outside any four clocks.
  lemma OneIsHigh(u: Rx.Regs, line: nat -> bool, t: nat, n: nat)
    requires Rx.Sampled(u, line, n) && forall k: nat :: k < t || k >= t + 4 ==> line(k)
    ensures u.flags != Rx.LOW
  {
    if n >= 6 && n - 6 >= t {
      assert u.flags[4] == line(n - 2);
    } else {
      assert u.flags[0] == Rx.LineAt(line, n - 6);
    }
  }

  lemma {:induction false} NeverStarts(p: Params, s: Rx.Regs, line: nat -> bool, t: nat, n: nat)
    requires Rx.AtRest(p, s) && forall k: nat :: k < t || k >= t + 4 ==> line(k)
    ensures Rx.Waiting(Rx.Run(p, s, line, n))
  {
    if n > 0 {
      hide Rx.Run, Rx.Next, Rx.Sampled, Rx.AtRest;
      NeverStarts(p, s, line, t, n - 1);
      Rx.SamplesFollow(p, s, line, n - 1);
      OneIsHigh(Rx.Run(p, s, line, n - 1), line, t, n - 1);
      Rx.RunStep(p, s, line, n - 1);
      IdleStep(p, Rx.Run(p, s, line, n - 1), line(n - 1));
    }
  }

  lemma SlotIsBeforeDone(p: Params, t: nat)
    requires Supported(p)
    ensures Rx.At(p, t, 0, p.cycle / 2 + 2) <= Rx.DoneAt(p, t)
  {
    assert (p.width + 1) * p.cycle >= p.cycle;
  }

  lemma {:induction false} GlitchStaysIdle(p: Params, s: Rx.Regs, line: nat -> bool, t: nat, n: nat)
    requires Rx.Falls(p, s, line, t) && n >= Rx.At(p, t, 0, p.cycle / 2 + 2)
    requires forall k: nat :: k >= t + Offset(p, 0) ==> line(k)
    ensures Rx.Waiting(Rx.Run(p, s, line, n))
    decreases n
  {
    hide Rx.Run, Rx.FallsAt;
    if n == Rx.At(p, t, 0, p.cycle / 2 + 2) {
      assert Rx.SampledAt(p, t, 0) == t + Offset(p, 0);
      Rx.GlitchIsDropped(p, s, line, t, n);
    } else {
      GlitchStaysIdle(p, s, line, t, n - 1);
      Rx.SamplesFollow(p, s, line, n - 1);
      var u := Rx.Run(p, s, line, n - 1);
      assert u.flags[3] == Rx.LineAt(line, n - 4);
      Rx.RunStep(p, s, line, n - 1);
    }
  }

  // The exact tolerance: a receiver decodes every word of a sender with a given bit period if and
  // only if the start check falls into the start bit and every sample into its own bit.
  lemma ToleranceIsExact(p: Params, s: Rx.Regs, period: nat, t: nat)
    requires Supported(p) && Rx.AtRest(p, s) && period >= 1
    ensures (forall w: seq<bool> :: |w| == p.width ==> Decodes(p, s, w, period, t)) <==> WithinTolerance(p, period, 0)
  {
    hide Decodes, InBit;
    if WithinTolerance(p, period, 0) {
      forall w: seq<bool> | |w| == p.width ensures Decodes(p, s, w, period, t) {
        WithinToleranceDecodes(p, s, w, period, t);
      }
    } else if period < 5 {
      ShortStartIsMissed(p, s, period, t);
    } else if Offset(p, 0) >= period {
      LateStartIsDropped(p, s, period, t);
    } else {
      var k :| 0 <= k < p.width && !InBit(p, period, 0, k);
      OutsideIsMisread(p, s, period, t, k);
    }
  }

  // At equal rates, which is what a loopback is, the samples stay in their bits exactly from 13 clocks a bit on.
  lemma EqualRates(p: Params)
    requires Supported(p)
    ensures WithinTolerance(p, p.cycle, 0) <==> 13 <= p.cycle
  {
    if 13 <= p.cycle {
      forall k | 0 <= k < p.width ensures InBit(p, p.cycle, 0, k) {
        OneMore(k + 1, p.cycle);
      }
    }
  }

  lemma LoopbackNeedsThirteen(p: Params, s: Rx.Regs, t: nat)
    requires Supported(p) && Rx.AtRest(p, s)
    ensures (forall w: seq<bool> :: |w| == p.width ==> Decodes(p, s, w, p.cycle, t)) <==> 13 <= p.cycle
  {
    hide Decodes, WithinTolerance;
    EqualRates(p);
    ToleranceIsExact(p, s, p.cycle, t);
  }
}
