/// The two serial lines of uart_top.v as a host drives and samples them: its frames on i_uart_rx, at a bit
/// period of its own, and the bytes it reads off o_uart_tx.

module SerialLines {
  import opened Arith
  import opened BitValues
  import opened Words
  import opened NiceCore
  import opened UartBaud
  import opened Handshake
  import Tx = UartTx
  import Rx = UartRx
  import opened UartLink
  import opened UartBurst

  // The byte whose bits are w, least significant first.
  function ValueOf(w: seq<bool>): byte
  {
    if |w| != 8 then 0
    else
      (if w[0] then 0x01 else 0) | (if w[1] then 0x02 else 0)
      | (if w[2] then 0x04 else 0) | (if w[3] then 0x08 else 0)
      | (if w[4] then 0x10 else 0) | (if w[5] then 0x20 else 0)
      | (if w[6] then 0x40 else 0) | (if w[7] then 0x80 else 0)
  }

  lemma ValueOfBits(b: byte)
    ensures ValueOf(Bits(b)) == b
  {
  }

  // What bits are worth, the first the least.
  function Worth(w: seq<bool>): nat
  {
    if w == [] then 0 else (if w[0] then 1 else 0) + 2 * Worth(w[1..])
  }

  lemma {:induction false} WorthDigits(w: seq<bool>, k: nat)
    ensures Worth(w) < Pow2(|w|) && DigitOf(Worth(w), k) == (k < |w| && w[k])
    decreases |w|
  {
    if w == [] {
      ZeroBits(k);
    } else {
      WorthDigits(w[1..], if k == 0 then 0 else k - 1);
      assert Pow2(0) == 1;
      if k > 0 {
        HalfBits(Worth(w), k - 1);
      }
    }
  }

  lemma ValueOfDigits(w: seq<bool>)
    requires |w| == 8
    ensures Bits(ValueOf(w)) == w
  {
  }

  lemma ValueOfIsWorth(w: seq<bool>)
    requires |w| == 8
    ensures ValueOf(w) as nat == Worth(w)
  {
    hide ValueOf, Bits, Worth, DigitOf, Pow2;
    Powers();
    ValueOfDigits(w);
    forall k: nat | k < 8 ensures DigitOf(ValueOf(w) as nat, k) == DigitOf(Worth(w), k) {
      BitsAreDigits(ValueOf(w), k);
      WorthDigits(w, k);
    }
    WorthDigits(w, 0);
    SameBits(ValueOf(w) as nat, Worth(w), 8);
  }

  /// Host to board.

  // At the host's bit period the four frames of a word are read right, however close together they come.
  ghost predicate HostRate(p: Params, period: nat)
  {
    Wide(p) && BurstFits(p, period, 4)
  }

  // At the rates of uart_top.v, 100 MHz and 115200 baud, a host may take 858 to 923 clocks a bit; for single frames
  // 821 clocks are enough.
  const BOARD := Params(868, 8)

  lemma BoardTolerance(period: nat)
    ensures HostRate(BOARD, period) <==> 858 <= period <= 923
    ensures BurstFits(BOARD, period, 1) <==> 821 <= period <= 923
  {
    BoardFrame(period);
    forall i | 0 <= i < 4 ensures FullLag(BOARD, period, i) == i * BoardLag(period) {
      BoardLags(period, i);
    }
    if HostRate(BOARD, period) {
      assert WithinTolerance(BOARD, period, FullLag(BOARD, period, 0));
      assert InBit(BOARD, period, FullLag(BOARD, period, 0), 7);
      assert WithinTolerance(BOARD, period, FullLag(BOARD, period, 3));
      assert InBit(BOARD, period, FullLag(BOARD, period, 3), 7);
    }
    if 858 <= period <= 923 {
      forall i | 0 <= i < 4 ensures WithinTolerance(BOARD, period, FullLag(BOARD, period, i)) {
        forall k | 0 <= k < 8 ensures InBit(BOARD, period, i * BoardLag(period), k) {
          BoardSample(period, i * BoardLag(period), k);
        }
      }
    }
  }

  lemma BoardFrame(period: nat)
    ensures BurstFits(BOARD, period, 1) <==> 821 <= period <= 923
  {
    if BurstFits(BOARD, period, 1) {
      assert WithinTolerance(BOARD, period, FullLag(BOARD, period, 0));
      assert InBit(BOARD, period, 0, 7);
    }
    if 821 <= period <= 923 {
      forall k | 0 <= k < 8 ensures InBit(BOARD, period, 0, k) {
        MulMono(821, period, k + 2);
        MulMono(period, 923, k + 1);
        assert (k + 1) * 923 <= 440 + (k + 1) * 868 < (k + 2) * 821;
        assert (k + 1) * period == period * (k + 1) && (k + 2) * period == period * (k + 2);
      }
    }
  }

  // How much later each frame is taken than the one before.
  function BoardLag(period: nat): nat { Max(0, 8682 - 10 * period) }

  lemma {:induction false} BoardLags(period: nat, i: nat)
    ensures FullLag(BOARD, period, i) == i * BoardLag(period)
  {
    if i > 0 {
      BoardLags(period, i - 1);
      OneMore(i - 1, BoardLag(period));
      OneMore(i - 1, 10 * period);
    }
  }

  lemma BoardSample(period: nat, lag: nat, k: nat)
    requires 858 <= period <= 923 && lag <= 3 * BoardLag(period) && k < 8
    ensures InBit(BOARD, period, lag, k)
  {
    MulMono(858, period, k + 32);
    MulMono(period, 923, k + 1);
    assert (k + 1) * 923 <= 440 + (k + 1) * 868;
    assert 26486 + (k + 1) * 868 < (k + 32) * 858;
    assert (k + 1) * period == period * (k + 1) && (k + 2) * period + 30 * period == period * (k + 32);
  }

  // The frames of bytes.
  function FrameBits(xs: seq<byte>): (ws: seq<seq<bool>>)
    ensures |ws| == |xs| && forall k :: 0 <= k < |xs| ==> ws[k] == Bits(xs[k])
  {
    seq(|xs|, k requires 0 <= k < |xs| => Bits(xs[k]))
  }

  function FramesLine(p: Params, xs: seq<byte>, gaps: seq<nat>, period: nat): nat -> bool
    requires period > 0 && |gaps| == |xs|
  {
    BurstLine(p, FrameBits(xs), gaps, period)
  }

  // What a receiver at rest makes of up to four frames, with any gaps: from its wait for frame i to its wait for the
  // next it hands over byte i, at one clock.
  lemma FrameIsHeard(p: Params, s: Rx.Regs, xs: seq<byte>, gaps: seq<nat>, period: nat, i: nat, n: nat)
    requires HostRate(p, period) && Rx.AtRest(p, s) && period > 0 && i < |xs| == |gaps| <= 4
    requires WaitsFrom(p, gaps, period, i) <= n <= WaitsFrom(p, gaps, period, i + 1)
    ensures var r := Rx.Run(p, s, FramesLine(p, xs, gaps, period), n);
      && (r.done <==> n == Rx.DoneAt(p, HeardAt(p, gaps, period, i)))
      && (r.done ==> ValueOf(r.out) == xs[i])
    ensures var d := Rx.DoneAt(p, HeardAt(p, gaps, period, i));
      WaitsFrom(p, gaps, period, i) < d < WaitsFrom(p, gaps, period, i + 1)
  {
    hide Rx.Run, BurstLine, WithinTolerance, Rx.DoneAt, HeardAt, WaitsFrom, Bits, ValueOf, Lag, Rx.AtRest;
    forall j | 0 <= j <= i ensures WithinTolerance(p, period, Lag(p, gaps, period, j)) {
      BurstFitsFrame(p, gaps, period, 4, j);
    }
    ValueOfBits(xs[i]);
    WaitsInOrder(p, gaps, period, i);
    BurstIsHeard(p, s, FrameBits(xs), gaps, period, i, n);
  }

  // After the last frame it is at rest again.
  lemma FramesEnd(p: Params, s: Rx.Regs, xs: seq<byte>, gaps: seq<nat>, period: nat, n: nat)
    requires HostRate(p, period) && Rx.AtRest(p, s) && period > 0 && |xs| == |gaps| <= 4
    requires n >= WaitsFrom(p, gaps, period, |xs|)
    ensures var r := Rx.Run(p, s, FramesLine(p, xs, gaps, period), n);
      !r.done && (n > WaitsFrom(p, gaps, period, |xs|) ==> Rx.AtRest(p, r))
  {
    hide Rx.Run, BurstLine, WithinTolerance, WaitsFrom, Bits, Lag, Rx.AtRest;
    forall j | 0 <= j < |xs| ensures WithinTolerance(p, period, Lag(p, gaps, period, j)) {
      BurstFitsFrame(p, gaps, period, 4, j);
    }
    RestsAfter(p, s, FrameBits(xs), gaps, period, n);
  }

  lemma RestIsQuiet(p: Params, s: Rx.Regs)
    requires Rx.AtRest(p, s)
    ensures Rx.Shaped(p, s) && !s.done
  {
  }

  // An idle line leaves a receiver at rest there.
  lemma RestStays(p: Params, s: Rx.Regs)
    requires Rx.AtRest(p, s)
    ensures Rx.AtRest(p, Rx.Next(p, s, true))
  {
  }

  /// Board to host.

  // The host's receiver: it waits for the line to fall, samples the middle clock of the start bit, which must be low,
  // and of each data bit, and hands the byte over once the stop bit has begun, if the line is high there.
  datatype Sampler = Hunting | Locked(count: nat, bits: seq<bool>)

  function Middle(p: Params): nat
    requires p.cycle > 0
  {
    (p.cycle - 1) / 2
  }

  function SampleNext(p: Params, s: Sampler, line: bool): Sampler
    requires p.cycle > 0
  {
    match s
    case Hunting => if line then Hunting else Locked(1, [])
    case Locked(c, bits) =>
      if c == 9 * p.cycle + 1 || (c == Middle(p) && line) then Hunting
      else
        Locked(c + 1,
               if |bits| < 8 && c == Middle(p) + (|bits| + 1) * p.cycle then bits + [line] else bits)
  }

  // The byte handed over at this clock, if any.
  function Sampled(p: Params, s: Sampler, line: bool): seq<byte>
  {
    match s
    case Hunting => []
    case Locked(c, bits) => if c == 9 * p.cycle + 1 && line then [ValueOf(bits)] else []
  }

  // Where the host's receiver is in each stage of a presented byte.
  function SamplerAt(p: Params, g: Stage): Sampler
    requires g.OnLine? ==> g.q <= 9
  {
    match g
    case OnLine(b, q, r) =>
      if q == 0 && r <= p.cycle / 2 + 1 then Hunting
      else if q == 0 then (if r > p.cycle / 2 then Locked(r - p.cycle / 2 - 1, []) else Hunting)
      else if q * p.cycle + r > p.cycle / 2 then Locked(q * p.cycle + r - p.cycle / 2 - 1, Bits(b)[..q - 1])
      else Hunting
    case Stopped(b) => Locked(9 * p.cycle, Bits(b))
    case Draining(b) => Locked(9 * p.cycle + 1, Bits(b))
    case _ => Hunting
  }

  // The sampler samples data at the last clock of each of the periods 1 to 8 and nowhere else; before that it checks
  // the start bit while it is there.
  lemma SamplesAt(p: Params, b: byte, q: nat, r: nat)
    requires Wide(p) && Position(p, q, r) && 1 <= q <= 9 && (q == 9 ==> r <= p.cycle / 2)
    ensures var c := q * p.cycle + r - p.cycle / 2 - 1;
      && ((|Bits(b)[..q - 1]| < 8 && c == Middle(p) + (|Bits(b)[..q - 1]| + 1) * p.cycle) <==> q <= 8 && r == p.cycle)
      && (c == Middle(p) ==> !Tx.LineAt(p, Bits(b), q, r))
  {
    hide Bits;
    MulMono(1, q, p.cycle);
    OneMore(q, p.cycle);
    if q >= 2 {
      MulMono(2, q, p.cycle);
    }
  }

  lemma LineInStage(p: Params, y: System, g: Stage)
    requires Wide(p) && Handshake.At(p, y, g)
    ensures g.OnLine? ==> y.tx.line == Tx.LineAt(p, Bits(g.b), g.q, g.r)
    ensures !g.OnLine? ==> y.tx.line
  {
    hide Bits;
  }

  lemma SamplerStep(p: Params, y: System, g: Stage, presented: Option<byte>)
    requires Wide(p) && Handshake.At(p, y, g)
    ensures g.OnLine? ==> Position(p, g.q, g.r) && (g.q == 9 ==> g.r <= p.cycle / 2)
    ensures var h := NextStage(p, g, presented);
      && (h.OnLine? ==> h.q <= 9)
      && SampleNext(p, SamplerAt(p, g), y.tx.line) == SamplerAt(p, h)
    ensures Sampled(p, SamplerAt(p, g), y.tx.line) == if g.Draining? then [g.b] else []
  {
    hide Bits, ValueOf;
    LineInStage(p, y, g);
    match g
    case OnLine(b, q, r) => OnLineSamples(p, b, q, r);
    case Draining(b) => ValueOfBits(b);
    case _ =>
  }

  lemma OnLineSamples(p: Params, b: byte, q: nat, r: nat)
    requires Wide(p) && Position(p, q, r) && (q == 9 ==> r <= p.cycle / 2)
    ensures var h := NextStage(p, OnLine(b, q, r), None);
      && (h.OnLine? ==> h.q <= 9)
      && SampleNext(p, SamplerAt(p, OnLine(b, q, r)), Tx.LineAt(p, Bits(b), q, r)) == SamplerAt(p, h)
      && Sampled(p, SamplerAt(p, OnLine(b, q, r)), Tx.LineAt(p, Bits(b), q, r)) == []
  {
    hide Bits;
    if q == 0 {
      StartSamples(p, b, r);
    } else {
      DataSamples(p, b, q, r);
    }
  }

  lemma StartSamples(p: Params, b: byte, r: nat)
    requires Wide(p) && Position(p, 0, r)
    ensures var h := NextStage(p, OnLine(b, 0, r), None);
      && h.OnLine? && h.q <= 9
      && SampleNext(p, SamplerAt(p, OnLine(b, 0, r)), Tx.LineAt(p, Bits(b), 0, r)) == SamplerAt(p, h)
      && Sampled(p, SamplerAt(p, OnLine(b, 0, r)), Tx.LineAt(p, Bits(b), 0, r)) == []
  {
    hide Bits;
    assert Bits(b)[..0] == [];
    assert 1 * p.cycle == p.cycle;
  }

  lemma DataSamples(p: Params, b: byte, q: nat, r: nat)
    requires Wide(p) && Position(p, q, r) && 1 <= q && (q == 9 ==> r <= p.cycle / 2)
    ensures var h := NextStage(p, OnLine(b, q, r), None);
      && (h.OnLine? ==> h.q <= 9)
      && SampleNext(p, SamplerAt(p, OnLine(b, q, r)), Tx.LineAt(p, Bits(b), q, r)) == SamplerAt(p, h)
      && Sampled(p, SamplerAt(p, OnLine(b, q, r)), Tx.LineAt(p, Bits(b), q, r)) == []
  {
    hide Bits;
    SamplesAt(p, b, q, r);
    var m, w := q * p.cycle, Bits(b);
    MulMono(1, q, p.cycle);
    OneMore(q, p.cycle);
    if q <= 8 {
      MulMono(q, 8, p.cycle);
    }
    assert SamplerAt(p, OnLine(b, q, r)) == Locked(m + r - p.cycle / 2 - 1, w[..q - 1]);
    hide SamplerAt, Middle;
    if q == 9 {
      assert w[..8] == w;
      LastPeriod(p, b, r);
    } else if r == p.cycle {
      assert w[..q] == w[..q - 1] + [w[q - 1]];
      PeriodEnds(p, b, q);
    } else {
      PeriodGoesOn(p, b, q, r);
    }
  }

  lemma LastPeriod(p: Params, b: byte, r: nat)
    requires Wide(p) && 1 <= r <= p.cycle / 2
    ensures SamplerAt(p, NextStage(p, OnLine(b, 9, r), None)) ==
            Locked(9 * p.cycle + r - p.cycle / 2, if r == p.cycle / 2 then Bits(b) else Bits(b)[..8])
  {
    hide Bits;
  }

  lemma PeriodEnds(p: Params, b: byte, q: nat)
    requires Wide(p) && 1 <= q <= 8
    ensures SamplerAt(p, NextStage(p, OnLine(b, q, p.cycle), None)) ==
            Locked(q * p.cycle + p.cycle - p.cycle / 2, Bits(b)[..q])
  {
    hide Bits;
    OneMore(q, p.cycle);
  }

  lemma PeriodGoesOn(p: Params, b: byte, q: nat, r: nat)
    requires Wide(p) && 1 <= q <= 8 && 1 <= r < p.cycle
    ensures SamplerAt(p, NextStage(p, OnLine(b, q, r), None)) ==
            Locked(q * p.cycle + r - p.cycle / 2, Bits(b)[..q - 1])
  {
    hide Bits;
    MulMono(1, q, p.cycle);
  }

  /// Runs from reset, as the host hears them.

  function SamplerAfter(p: Params, arrivals: seq<Arrival>): Sampler
    requires p.cycle > 0
  {
    if arrivals == [] then Hunting
    else
      var before := arrivals[..|arrivals| - 1];
      SampleNext(p, SamplerAfter(p, before), Handshake.Run(p, before).tx.line)
  }

  // Every byte read off o_uart_tx.
  function Heard(p: Params, arrivals: seq<Arrival>): seq<byte>
    requires p.cycle > 0
  {
    if arrivals == [] then []
    else
      var before := arrivals[..|arrivals| - 1];
      Heard(p, before) + Sampled(p, SamplerAfter(p, before), Handshake.Run(p, before).tx.line)
  }

  // The last byte presented is heard when its stage is over.
  ghost predicate HeardUpTo(g: Stage, rises: seq<byte>, heard: seq<byte>)
  {
    if g.Rest? then heard == rises
    else rises != [] && rises[|rises| - 1] == g.b && heard == rises[..|rises| - 1]
  }

  lemma HeardStep(p: Params, g: Stage, presented: Option<byte>, rises: seq<byte>, heard: seq<byte>)
    requires HeardUpTo(g, rises, heard) && (presented.Some? ==> g.Rest?)
    ensures HeardUpTo(NextStage(p, g, presented), rises + (if presented.Some? then [presented.value] else []),
                      heard + if g.Draining? then [g.b] else [])
  {
    assert rises + [] == rises && heard + [] == heard;
    assert presented.Some? ==> (rises + [presented.value])[..|rises|] == rises;
    assert g.Draining? ==> rises[..|rises| - 1] + [g.b] == rises;
  }

  lemma {:induction false} RunIsHeard(p: Params, arrivals: seq<Arrival>)
    requires Wide(p)
    ensures var y, g := Handshake.Run(p, arrivals), StageAfter(p, arrivals);
      && Handshake.At(p, y, g) && (g.OnLine? ==> g.q <= 9)
      && SamplerAfter(p, arrivals) == SamplerAt(p, g)
      && HeardUpTo(g, Rises(p, arrivals), Heard(p, arrivals))
  {
    hide Handshake.Step, Handshake.At, NextStage, Raised, CoreInput, SampleNext, Sampled, SamplerAt, HeardUpTo;
    if arrivals == [] {
      StartsAtRest(p);
      HuntsFromRest(p);
    } else {
      var before, a := arrivals[..|arrivals| - 1], arrivals[|arrivals| - 1];
      var y, g := Handshake.Run(p, before), StageAfter(p, before);
      RunIsHeard(p, before);
      StageStep(p, y, g, a);
      SamplerStep(p, y, g, Raised(y.core, CoreInput(y, a)));
      HeardStep(p, g, Raised(y.core, CoreInput(y, a)), Rises(p, before), Heard(p, before));
    }
  }

  lemma HuntsFromRest(p: Params)
    ensures SamplerAt(p, Rest) == Hunting && HeardUpTo(Rest, [], [])
  {
  }

  // In every run from reset the host hears, frame by frame off o_uart_tx, the bytes for which o_data_valid rose: in
  // order, each once, all but at most the last, and all of them whenever i_state_0 is low and nothing is offered.
  lemma HeardIsRises(p: Params, arrivals: seq<Arrival>)
    requires Wide(p)
    ensures var y, rises, heard := Handshake.Run(p, arrivals), Rises(p, arrivals), Heard(p, arrivals);
      && heard <= rises && |rises| <= |heard| + 1
      && (!y.tx.busy && !y.core.out.valid ==> heard == rises)
  {
    hide Handshake.Run, Rises, Heard, StageAfter, SamplerAfter;
    RunIsHeard(p, arrivals);
  }

  /// When each bit of a presented byte is on o_uart_tx.

  predicate RoseAt(p: Params, arrivals: seq<Arrival>, t: nat, b: byte)
  {
    t < |arrivals| && RaisedBy(Handshake.Run(p, arrivals[..t]), arrivals[t]) == [b]
  }

  lemma RoseBefore(p: Params, arrivals: seq<Arrival>, n: nat, t: nat, b: byte)
    requires RoseAt(p, arrivals, t, b) && t < n <= |arrivals|
    ensures RoseAt(p, arrivals[..n], t, b)
  {
    hide Handshake.Run;
    assert arrivals[..n][..t] == arrivals[..t];
  }

  lemma StageOfOffer(p: Params, arrivals: seq<Arrival>, t: nat, b: byte)
    requires Wide(p) && RoseAt(p, arrivals, t, b) && |arrivals| == t + 1
    ensures StageAfter(p, arrivals) == Offered(b)
  {
    var before, a := arrivals[..t], arrivals[t];
    var y, g := Handshake.Run(p, before), StageAfter(p, before);
    RunIsHeard(p, before);
    StageStep(p, y, g, a);
    hide Handshake.Run, Handshake.At, Raised, CoreInput;
    assert Raised(y.core, CoreInput(y, a)) == Some(b);
  }

  lemma StageOfLatch(p: Params, arrivals: seq<Arrival>, t: nat, b: byte)
    requires Wide(p) && RoseAt(p, arrivals, t, b) && |arrivals| == t + 2
    ensures StageAfter(p, arrivals) == Latched(b)
  {
    hide Handshake.Run, Raised, CoreInput;
    RoseBefore(p, arrivals, t + 1, t, b);
    StageOfOffer(p, arrivals[..t + 1], t, b);
  }

  lemma {:induction false} StageOfFrame(p: Params, arrivals: seq<Arrival>, t: nat, b: byte, q: nat, r: nat)
    requires Wide(p) && RoseAt(p, arrivals, t, b) && Position(p, q, r) && (q == 9 ==> r <= p.cycle / 2)
    requires |arrivals| == t + 2 + q * p.cycle + r
    ensures StageAfter(p, arrivals) == OnLine(b, q, r)
    decreases |arrivals|
  {
    hide Handshake.Run, Raised, CoreInput, RoseAt;
    var before := arrivals[..|arrivals| - 1];
    MulMono(0, q, p.cycle);
    RoseBefore(p, arrivals, |before|, t, b);
    if r > 1 {
      StageOfFrame(p, before, t, b, q, r - 1);
    } else if q > 0 {
      OneMore(q - 1, p.cycle);
      StageOfFrame(p, before, t, b, q - 1, p.cycle);
    } else {
      StageOfLatch(p, before, t, b);
    }
  }

  // The clock at which the frame of a byte falls whose o_data_valid rose at clock t.
  function FallsAfter(p: Params, t: nat): nat { t + 3 + p.cycle / 2 }

  // From there on o_uart_tx shows the start bit and then the binary digits of the byte, the least significant first,
  // each for CYCLE clocks.
  lemma LineShowsByte(p: Params, arrivals: seq<Arrival>, t: nat, b: byte, j: nat, x: nat)
    requires Wide(p) && RoseAt(p, arrivals, t, b) && j <= 8 && x < p.cycle
    requires |arrivals| == FallsAfter(p, t) + j * p.cycle + x
    ensures Handshake.Run(p, arrivals).tx.line == (j > 0 && DigitOf(b as nat, j - 1))
  {
    hide Handshake.Run, RoseAt, Bits, DigitOf, StageAfter;
    var r := p.cycle / 2 + 1 + x;
    OneMore(j, p.cycle);
    if r <= p.cycle {
      LineOfFrame(p, arrivals, t, b, j, r);
    } else {
      LineOfFrame(p, arrivals, t, b, j + 1, r - p.cycle);
    }
    if j > 0 {
      BitsAreDigits(b, j - 1);
    }
  }

  lemma LineOfFrame(p: Params, arrivals: seq<Arrival>, t: nat, b: byte, q: nat, r: nat)
    requires Wide(p) && RoseAt(p, arrivals, t, b) && Position(p, q, r) && (q == 9 ==> r <= p.cycle / 2)
    requires |arrivals| == t + 2 + q * p.cycle + r
    ensures Handshake.Run(p, arrivals).tx.line == Tx.LineAt(p, Bits(b), q, r)
  {
    hide Handshake.Run, RoseAt, Bits, StageAfter, Handshake.At, SamplerAt;
    StageOfFrame(p, arrivals, t, b, q, r);
    RunIsHeard(p, arrivals);
    LineInStage(p, Handshake.Run(p, arrivals), StageAfter(p, arrivals));
  }

  lemma StageOfStop(p: Params, arrivals: seq<Arrival>, t: nat, b: byte, x: nat)
    requires Wide(p) && RoseAt(p, arrivals, t, b) && x <= 2 && |arrivals| == FallsAfter(p, t) + 9 * p.cycle + x
    ensures StageAfter(p, arrivals) == if x == 0 then Stopped(b) else if x == 1 then Draining(b) else Rest
  {
    hide Handshake.Run, Raised, CoreInput, RoseAt;
    var n := |arrivals| - 1;
    RoseBefore(p, arrivals, n, t, b);
    if x == 0 {
      StageOfFrame(p, arrivals[..n], t, b, 9, p.cycle / 2);
    } else {
      StageOfStop(p, arrivals[..n], t, b, x - 1);
    }
  }

  lemma StageShows(p: Params, y: System, g: Stage)
    requires Wide(p) && Handshake.At(p, y, g)
    ensures y.tx.busy == (!g.Rest? && !g.Offered?)
  {
  }

  // The line is high from then until i_state_0 has fallen.
  lemma LineShowsStop(p: Params, arrivals: seq<Arrival>, t: nat, b: byte, x: nat)
    requires Wide(p) && RoseAt(p, arrivals, t, b) && x <= 2 && |arrivals| == FallsAfter(p, t) + 9 * p.cycle + x
    ensures Handshake.Run(p, arrivals).tx.line && (Handshake.Run(p, arrivals).tx.busy <==> x < 2)
  {
    hide Handshake.Run, Raised, CoreInput, RoseAt, Handshake.At, SamplerAt;
    StageOfStop(p, arrivals, t, b, x);
    RunIsHeard(p, arrivals);
    StageShows(p, Handshake.Run(p, arrivals), StageAfter(p, arrivals));
    LineInStage(p, Handshake.Run(p, arrivals), StageAfter(p, arrivals));
  }
}
