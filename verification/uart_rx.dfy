/// uart_rx.v without parity: start detection over five samples, sampling in the middle of each bit.

module UartRx {
  import opened Arith
  import opened UartBaud

  // sync is sync_uart_rx; flags is r_flag_rcv_start, oldest sample first; out and done are o_uart_data
  // and o_rx_done.
  datatype Regs = Regs(
    sync: bool, flags: seq<bool>,
    cur: Phase, baudValid: bool, baudCnt: nat, pulse: bool,
    rcvCnt: nat, data: seq<bool>, out: seq<bool>, done: bool)

  const LOW: seq<bool> := [false, false, false, false, false]

  ghost predicate Shaped(p: Params, s: Regs) { |s.flags| == 5 && |s.data| == p.width > 0 }

  function Next(p: Params, s: Regs, line: bool): (t: Regs)
    requires Shaped(p, s)
    ensures Shaped(p, t)
  {
    var t := s.(sync := line, flags := s.flags[1..] + [s.sync],
                baudCnt := BaudNext(p, s.baudValid, s.baudCnt),
                pulse := PulseNext(p, s.baudCnt),
                cur := CurrentNext(p, s.cur, s.baudValid, s.baudCnt, s.rcvCnt));
    match s.cur
    case Idle =>
      t.(rcvCnt := 0, data := Zeros(p.width), done := false, baudValid := s.baudValid || s.flags == LOW)
    case Start => if s.pulse && s.sync then t.(baudValid := false) else t
    case Data =>
      if s.pulse then t.(data := s.data[1..] + [s.sync], rcvCnt := (s.rcvCnt + 1) % 16) else t
    case End =>
      t.(out := if s.pulse then s.data else s.out, done := s.pulse,
         baudValid := if s.baudCnt == 0 then false else s.baudValid)
  }

  // The registers after n clocks of the line.
  function Run(p: Params, s: Regs, line: nat -> bool, n: nat): (t: Regs)
    requires Shaped(p, s)
    ensures Shaped(p, t)
  {
    if n == 0 then s else Next(p, Run(p, s, line, n - 1), line(n - 1))
  }

  lemma RunStep(p: Params, s: Regs, line: nat -> bool, n: nat)
    requires Shaped(p, s)
    ensures Run(p, s, line, n + 1) == Next(p, Run(p, s, line, n), line(n))
  {
  }

  // An idle receiver that has seen a high line for long enough.
  ghost predicate AtRest(p: Params, s: Regs)
  {
    && Shaped(p, s) && s.sync && s.flags == [true, true, true, true, true]
    && s.cur == Idle && !s.baudValid && s.baudCnt == 0 && !s.done
  }

  // The line before the run was high.
  function LineAt(line: nat -> bool, t: int): bool { t < 0 || line(t) }

  // The two synchronising stages hold the last samples, whatever else happens.
  ghost predicate Sampled(s: Regs, line: nat -> bool, n: nat)
  {
    s.sync == LineAt(line, n - 1) && |s.flags| == 5 && forall j :: 0 <= j < 5 ==> s.flags[j] == LineAt(line, n - 6 + j)
  }

  lemma {:induction false} SamplesFollow(p: Params, s: Regs, line: nat -> bool, n: nat)
    requires AtRest(p, s)
    ensures Sampled(Run(p, s, line, n), line, n)
  {
    if n > 0 {
      SamplesFollow(p, s, line, n - 1);
      SampledStep(p, Run(p, s, line, n - 1), line, n - 1);
      RunStep(p, s, line, n - 1);
    }
  }

  lemma SampledStep(p: Params, t: Regs, line: nat -> bool, n: nat)
    requires Shaped(p, t) && Sampled(t, line, n)
    ensures Sampled(Next(p, t, line(n)), line, n + 1)
  {
    hide BaudNext, PulseNext, CurrentNext, Zeros;
    var u := Next(p, t, line(n));
    assert u.sync == line(n) && u.flags == t.flags[1..] + [t.sync];
    hide Next;
  }

  /// A frame on the line: high until clock t, then low for five clocks.
  ghost predicate FallsAt(line: nat -> bool, t: nat)
  {
    && (forall k :: 0 <= k < t ==> line(k))
    && (forall k :: t <= k < t + 5 ==> !line(k))
  }

  ghost predicate Waiting(s: Regs) { s.cur == Idle && !s.baudValid && s.baudCnt == 0 && !s.done }

  lemma {:induction false} WaitsForStart(p: Params, s: Regs, line: nat -> bool, t: nat, n: nat)
    requires AtRest(p, s) && FallsAt(line, t) && n <= t + 6
    ensures Waiting(Run(p, s, line, n))
  {
    if n > 0 {
      WaitsForStart(p, s, line, t, n - 1);
      SamplesFollow(p, s, line, n - 1);
      var u := Run(p, s, line, n - 1);
      assert u.flags[0] == LineAt(line, n - 7);
      RunStep(p, s, line, n - 1);
    }
  }

  // The clock at which the divider is started.
  function Detected(t: nat): nat { t + 7 }

  // The clock whose line value is sampled in period j: the start check for j = 0, data bit j - 1 after.
  function SampledAt(p: Params, t: nat, j: nat): nat { t + p.cycle / 2 + 6 + j * p.cycle }

  function Samples(p: Params, line: nat -> bool, t: nat, n: nat): (b: seq<bool>)
    ensures |b| == n
  {
    seq(n, k requires 0 <= k < n => line(SampledAt(p, t, k + 1)))
  }

  function At(p: Params, t: nat, q: nat, r: nat): nat { Detected(t) + q * p.cycle + r }

  // All registers at position (q, r) of the reception.
  ghost predicate Receiving(p: Params, s: Regs, line: nat -> bool, t: nat, q: nat, r: nat)
    requires Position(p, q, r)
  {
    && s.baudValid && s.baudCnt == BaudAt(p, r) && s.pulse == (r == p.cycle / 2)
    && s.cur == PeriodPhase(p, q) && s.rcvCnt == BitsAt(p, q, r)
    && s.data == Zeros(p.width - s.rcvCnt) + Samples(p, line, t, s.rcvCnt)
    && s.sync == line(At(p, t, q, r) - 1)
    && s.done == (q == p.width + 1 && r == p.cycle / 2 + 1)
    && (q == p.width + 1 && r > p.cycle / 2 ==> s.out == Samples(p, line, t, p.width))
  }

  lemma SamplesGrow(p: Params, line: nat -> bool, t: nat, k: nat)
    requires k < p.width
    ensures Zeros(p.width - k - 1) + Samples(p, line, t, k + 1)
         == (Zeros(p.width - k) + Samples(p, line, t, k))[1..] + [line(SampledAt(p, t, k + 1))]
  {
  }

  lemma SampleClock(p: Params, t: nat, q: nat)
    ensures At(p, t, q, p.cycle / 2) - 1 == SampledAt(p, t, q)
  {
  }

  lemma ReceivingStep(p: Params, s: Regs, line: nat -> bool, t: nat, q: nat, r: nat)
    requires Supported(p) && Position(p, q, r) && Shaped(p, s) && Receiving(p, s, line, t, q, r)
    requires q > 0 || r >= p.cycle / 2 ==> !line(SampledAt(p, t, 0))
    ensures r < p.cycle ==> Receiving(p, Next(p, s, line(At(p, t, q, r))), line, t, q, r + 1)
    ensures r == p.cycle && q <= p.width ==> Receiving(p, Next(p, s, line(At(p, t, q, r))), line, t, q + 1, 1)
    ensures r == p.cycle && q == p.width + 1 ==>
      (var u := Next(p, s, line(At(p, t, q, r))); u.cur == Idle && !u.baudValid && !u.done)
  {
    hide At, Samples, Next, Receiving, SampledAt;
    if r < p.cycle {
      ReceivingStepWithin(p, s, line, t, q, r);
    } else {
      ReceivingStepOver(p, s, line, t, q);
    }
  }

  // Within a bit period.
  lemma ReceivingStepWithin(p: Params, s: Regs, line: nat -> bool, t: nat, q: nat, r: nat)
    requires Supported(p) && Position(p, q, r) && r < p.cycle && Shaped(p, s) && Receiving(p, s, line, t, q, r)
    requires q > 0 || r >= p.cycle / 2 ==> !line(SampledAt(p, t, 0))
    ensures Receiving(p, Next(p, s, line(At(p, t, q, r))), line, t, q, r + 1)
  {
    hide BitsAt, At, Samples;
    DividerAdvances(p, q, r);
    BitsAdvance(p, q, r);
    SampleClock(p, t, q);
    AtNext(p, t, q, r);
    if s.cur == Data && s.pulse {
      SamplesGrow(p, line, t, s.rcvCnt);
    }
    assert Zeros(0) == [];
  }

  // From one bit period to the next, and out of the last.
  lemma ReceivingStepOver(p: Params, s: Regs, line: nat -> bool, t: nat, q: nat)
    requires Supported(p) && Position(p, q, p.cycle) && Shaped(p, s) && Receiving(p, s, line, t, q, p.cycle)
    ensures var u := Next(p, s, line(At(p, t, q, p.cycle)));
      if q <= p.width then Receiving(p, u, line, t, q + 1, 1) else u.cur == Idle && !u.baudValid && !u.done
  {
    hide BitsAt, At, Samples;
    DividerAdvances(p, q, p.cycle);
    BitsAdvance(p, q, p.cycle);
    AtNext(p, t, q, p.cycle);
  }

  lemma AtNext(p: Params, t: nat, q: nat, r: nat)
    ensures At(p, t, q, r + 1) == At(p, t, q, r) + 1 && At(p, t, q + 1, 1) == At(p, t, q, p.cycle) + 1
  {
    assert (q + 1) * p.cycle == q * p.cycle + p.cycle;
  }

  ghost predicate Falls(p: Params, s: Regs, line: nat -> bool, t: nat)
  {
    Supported(p) && AtRest(p, s) && FallsAt(line, t)
  }

  // The start bit is still there at the start check.
  ghost predicate Hears(p: Params, s: Regs, line: nat -> bool, t: nat)
  {
    Falls(p, s, line, t) && !line(SampledAt(p, t, 0))
  }

  lemma DetectionStarts(p: Params, s: Regs, line: nat -> bool, t: nat)
    requires Falls(p, s, line, t)
    ensures Receiving(p, Run(p, s, line, At(p, t, 0, 1)), line, t, 0, 1)
    ensures !Run(p, s, line, Detected(t)).done
  {
    hide Next, Run;
    var u0, u1, u2 := Run(p, s, line, t + 6), Run(p, s, line, t + 7), Run(p, s, line, t + 8);
    WaitsForStart(p, s, line, t, t + 6);
    SamplesFollow(p, s, line, t + 6);
    RunStep(p, s, line, t + 6);
    StartSeen(p, u0, line(t + 6));
    RunStep(p, s, line, t + 7);
    SamplesFollow(p, s, line, t + 8);
    StartEntered(p, u1, line(t + 7));
    assert Zeros(p.width) + Samples(p, line, t, 0) == Zeros(p.width);
  }

  lemma StartSeen(p: Params, s: Regs, l: bool)
    requires Supported(p) && Shaped(p, s) && s.cur == Idle && !s.baudValid && s.flags == LOW
    ensures var u := Next(p, s, l);
      u.cur == Idle && u.baudValid && u.baudCnt == 0 && !u.done
  {
  }

  lemma StartEntered(p: Params, s: Regs, l: bool)
    requires Supported(p) && Shaped(p, s) && s.cur == Idle && s.baudValid && s.baudCnt == 0
    ensures var u := Next(p, s, l);
      && u.cur == Start && u.baudValid && u.baudCnt == 1 && !u.done && u.rcvCnt == 0
      && u.data == Zeros(p.width) && u.pulse == (p.cycle / 2 == 1)
  {
  }

  // A reception that starts with the divider at Detected(u), as if the line had fallen at u: u is later than the
  // real fall when the receiver was still busy with the frame before.
  ghost predicate Begun(p: Params, s: Regs, line: nat -> bool, u: nat)
  {
    Supported(p) && AtRest(p, s) && Receiving(p, Run(p, s, line, At(p, u, 0, 1)), line, u, 0, 1)
  }

  // From its beginning on a reception depends on the line at its sample clocks only.
  lemma {:induction false} ReceptionGoesOn(p: Params, s: Regs, line: nat -> bool, u: nat, q: nat, r: nat)
    requires Begun(p, s, line, u) && Position(p, q, r)
    requires q > 0 || r > p.cycle / 2 ==> !line(SampledAt(p, u, 0))
    ensures Receiving(p, Run(p, s, line, At(p, u, q, r)), line, u, q, r)
    decreases q, r
  {
    hide Next, Receiving, At, Run, SampledAt, AtRest;
    if r > 1 {
      ReceptionGoesOn(p, s, line, u, q, r - 1);
      FrameAdvances(p, s, line, u, q, r - 1);
    } else if q > 0 {
      ReceptionGoesOn(p, s, line, u, q - 1, p.cycle);
      FrameAdvances(p, s, line, u, q - 1, p.cycle);
    }
  }

  lemma FrameAdvances(p: Params, s: Regs, line: nat -> bool, u: nat, q: nat, r: nat)
    requires Supported(p) && AtRest(p, s) && Position(p, q, r)
    requires q > 0 || r >= p.cycle / 2 ==> !line(SampledAt(p, u, 0))
    requires Receiving(p, Run(p, s, line, At(p, u, q, r)), line, u, q, r)
    ensures r < p.cycle ==> Receiving(p, Run(p, s, line, At(p, u, q, r + 1)), line, u, q, r + 1)
    ensures r == p.cycle && q <= p.width ==> Receiving(p, Run(p, s, line, At(p, u, q + 1, 1)), line, u, q + 1, 1)
  {
    hide Next, Receiving, At, Run, SampledAt;
    var m := At(p, u, q, r);
    ReceivingStep(p, Run(p, s, line, m), line, u, q, r);
    AtNext(p, u, q, r);
    RunStep(p, s, line, m);
  }

  lemma FrameIsReceived(p: Params, s: Regs, line: nat -> bool, t: nat, q: nat, r: nat)
    requires Falls(p, s, line, t) && Position(p, q, r)
    requires q > 0 || r > p.cycle / 2 ==> Hears(p, s, line, t)
    ensures Receiving(p, Run(p, s, line, At(p, t, q, r)), line, t, q, r)
  {
    hide Next, Receiving, At, Run, SampledAt, FallsAt, AtRest;
    DetectionStarts(p, s, line, t);
    ReceptionGoesOn(p, s, line, t, q, r);
  }

  // The clock at which the word is handed over.
  function DoneAt(p: Params, t: nat): nat { At(p, t, p.width + 1, p.cycle / 2 + 1) }

  // The clock at which the receiver is idle again.
  function IdleAt(p: Params, t: nat): nat { At(p, t, p.width + 2, 1) }

  lemma DoneTimes(p: Params, t: nat)
    requires Supported(p)
    ensures Detected(t) < DoneAt(p, t) < IdleAt(p, t)
  {
    OneMore(p.width + 1, p.cycle);
  }

  lemma ReceptionEnds(p: Params, s: Regs, line: nat -> bool, u: nat)
    requires Begun(p, s, line, u) && !line(SampledAt(p, u, 0))
    ensures var r := Run(p, s, line, IdleAt(p, u)); r.cur == Idle && !r.baudValid && !r.done
  {
    hide Next, Run, SampledAt;
    var m := At(p, u, p.width + 1, p.cycle);
    ReceptionGoesOn(p, s, line, u, p.width + 1, p.cycle);
    ReceivingStep(p, Run(p, s, line, m), line, u, p.width + 1, p.cycle);
    AtNext(p, u, p.width + 1, p.cycle);
    RunStep(p, s, line, m);
  }

  lemma ReceivingDone(p: Params, s: Regs, line: nat -> bool, t: nat, q: nat, r: nat)
    requires Position(p, q, r) && Receiving(p, s, line, t, q, r)
    ensures s.done <==> q == p.width + 1 && r == p.cycle / 2 + 1
    ensures s.done ==> s.out == Samples(p, line, t, p.width)
  {
  }

  // During a reception the word of mid-bit samples is handed over at exactly one clock.
  lemma ReceptionDelivers(p: Params, s: Regs, line: nat -> bool, u: nat, n: nat)
    requires Begun(p, s, line, u) && !line(SampledAt(p, u, 0)) && Detected(u) < n <= IdleAt(p, u)
    ensures Run(p, s, line, n).done <==> n == DoneAt(p, u)
    ensures n == DoneAt(p, u) ==> Run(p, s, line, n).out == Samples(p, line, u, p.width)
  {
    hide Next, Run, SampledAt, Receiving, Samples;
    if n == IdleAt(p, u) {
      DoneTimes(p, u);
      ReceptionEnds(p, s, line, u);
    } else {
      var q, r := Place(p, u, n);
      hide At;
      ReceptionGoesOn(p, s, line, u, q, r);
      ReceivingDone(p, Run(p, s, line, n), line, u, q, r);
      PlaceIsUnique(p, u, q, r, p.width + 1, p.cycle / 2 + 1);
    }
  }

  lemma IdlesAgain(p: Params, s: Regs, line: nat -> bool, t: nat)
    requires Hears(p, s, line, t)
    ensures var u := Run(p, s, line, IdleAt(p, t)); u.cur == Idle && !u.baudValid && !u.done
  {
    hide Next, Run, SampledAt, FallsAt;
    DetectionStarts(p, s, line, t);
    ReceptionEnds(p, s, line, t);
  }

  // From the idle line to the end of the frame, o_rx_done is high for exactly one clock, and at that
  // clock the output is the word of mid-bit samples, whatever the line does between the samples.
  lemma DeliversOnce(p: Params, s: Regs, line: nat -> bool, t: nat, n: nat)
    requires Hears(p, s, line, t) && n <= IdleAt(p, t)
    ensures Run(p, s, line, n).done <==> n == DoneAt(p, t)
    ensures n == DoneAt(p, t) ==> Run(p, s, line, n).out == Samples(p, line, t, p.width)
  {
    hide Next, Run, SampledAt, FallsAt, AtRest, Receiving, Samples;
    if n <= t + 6 {
      WaitsForStart(p, s, line, t, n);
    } else {
      DetectionStarts(p, s, line, t);
      if n > t + 7 {
        ReceptionDelivers(p, s, line, t, n);
      }
    }
  }

  // Every clock of a reception has a position.
  lemma Place(p: Params, t: nat, n: nat) returns (q: nat, r: nat)
    requires Supported(p) && Detected(t) < n < IdleAt(p, t)
    ensures Position(p, q, r) && n == At(p, t, q, r)
  {
    var d := n - Detected(t) - 1;
    q, r := d / p.cycle, d % p.cycle + 1;
    DivMod(d, p.cycle);
    assert d < (p.width + 2) * p.cycle;
    hide IdleAt;
    MulLess(q, p.width + 2, p.cycle);
  }

  lemma PlaceIsUnique(p: Params, t: nat, q: nat, r: nat, q': nat, r': nat)
    requires Supported(p) && Position(p, q, r) && Position(p, q', r')
    ensures At(p, t, q, r) == At(p, t, q', r') <==> q == q' && r == r'
  {
    if q < q' {
      MulMono(q + 1, q', p.cycle);
      assert (q + 1) * p.cycle == q * p.cycle + p.cycle;
    } else if q' < q {
      MulMono(q' + 1, q, p.cycle);
      assert (q' + 1) * p.cycle == q' * p.cycle + p.cycle;
    }
  }

  // A reception whose start check finds a high line is given up: no word, and the receiver idles again.
  lemma ReceptionGivenUp(p: Params, s: Regs, line: nat -> bool, u: nat, n: nat)
    requires Begun(p, s, line, u) && line(SampledAt(p, u, 0)) && Detected(u) < n <= At(p, u, 0, p.cycle / 2 + 2)
    ensures !Run(p, s, line, n).done
    ensures n == At(p, u, 0, p.cycle / 2 + 2) ==> Waiting(Run(p, s, line, n))
  {
    hide Run, SampledAt;
    var half := p.cycle / 2;
    if n <= At(p, u, 0, half) {
      ReceptionGoesOn(p, s, line, u, 0, n - Detected(u));
    } else {
      ReceptionGoesOn(p, s, line, u, 0, half);
      SampleClock(p, u, 0);
      var v := Run(p, s, line, At(p, u, 0, half));
      RunStep(p, s, line, At(p, u, 0, half));
      RunStep(p, s, line, At(p, u, 0, half) + 1);
      assert v.cur == Start && v.pulse && v.sync;
    }
  }

  // A low pulse that is gone by the start check is dropped.
  lemma GlitchIsDropped(p: Params, s: Regs, line: nat -> bool, t: nat, n: nat)
    requires Falls(p, s, line, t) && line(SampledAt(p, t, 0)) && n <= At(p, t, 0, p.cycle / 2 + 2)
    ensures !Run(p, s, line, n).done
    ensures n == At(p, t, 0, p.cycle / 2 + 2) ==> Waiting(Run(p, s, line, n))
  {
    hide Run, FallsAt, SampledAt;
    if n <= t + 6 {
      WaitsForStart(p, s, line, t, n);
    } else {
      DetectionStarts(p, s, line, t);
      if n > t + 7 {
        ReceptionGivenUp(p, s, line, t, n);
      }
    }
  }

  /// The clocked blocks as written; every block reads the registers from before the edge.
  class Receiver {
    const p: Params
    var regs: Regs

    // i_rst_n low.
    constructor (p: Params)
      requires p.width > 0
      ensures this.p == p && AtRest(p, regs)
    {
      this.p := p;
      var zero := Zeros(p.width);
      regs := Regs(true, [true, true, true, true, true], Idle, false, 0, false, 0, zero, zero, false);
    }

    method Posedge(line: bool)
      requires Supported(p) && Shaped(p, regs) && regs.baudCnt < 65536
      modifies this
      ensures regs == Next(p, old(regs), line) && regs.baudCnt < 65536
    {
      var s := regs;
      var baudCnt, pulse, cur := Divider(p, s.cur, s.baudValid, s.baudCnt, s.rcvCnt);
      hide BaudNext, PulseNext, CurrentNext;
      var n := s.(sync := line, flags := s.flags[1..] + [s.sync], baudCnt := baudCnt, pulse := pulse, cur := cur);
      match s.cur {
        case Idle =>
          n := n.(rcvCnt := 0, data := Zeros(p.width), done := false);
          if s.flags == LOW {
            n := n.(baudValid := true);
          }
        case Start =>
          if s.pulse && s.sync {
            n := n.(baudValid := false);
          }
        case Data =>
          if s.pulse {
            n := n.(data := s.data[1..] + [s.sync], rcvCnt := (s.rcvCnt + 1) % 16);
          }
        case End =>
          if s.pulse {
            n := n.(out := s.data, done := true);
          } else {
            n := n.(done := false);
          }
          if s.baudCnt == 0 {
            n := n.(baudValid := false);
          }
      }
      regs := n;
    }
  }
}
