/// The serial link between host and coprocessor, one clock at a time: a byte that the coprocessor
/// presents waits for the transmitter, is in transmission for an arbitrary finite time during which
/// i_state_0 is high, and then reaches the host.

module Link {
  import opened Words
  import opened NiceReference
  import opened NiceCore
  import opened NiceProtocol
  import SboxRom

  datatype Hand =
    | Quiet
    | Pending(b: byte, wait: nat)   // o_data_valid high, not yet taken; taken in wait + 1 clocks
    | Moving(b: byte, left: nat)    // i_state_0 high for left + 1 more clocks

  datatype Session = Session(view: View, hand: Hand, received: seq<byte>)

  function Edge(rx: byte, rxValid: bool, busy: bool): Input { Input(rx, rxValid, busy, 0) }

  // One clock. The waiting time of a newly presented byte and the transmission time of a newly taken
  // one are arbitrary.
  ghost predicate Clocked(s: Session, t: Session, rx: byte, rxValid: bool)
  {
    var i := Edge(rx, rxValid, s.hand.Moving?);
    && t.view == Step(s.view, i, s.hand.Quiet?)
    && match s.hand
       case Quiet =>
         && t.received == s.received
         && (match Presents(s.view, i, true)
             case Some(b) => t.hand.Pending? && t.hand.b == b
             case None => t.hand == Quiet)
       case Pending(b, w) =>
         && t.received == s.received
         && (if w > 0 then t.hand == Pending(b, w - 1) else t.hand.Moving? && t.hand.b == b)
       case Moving(b, l) =>
         if l > 0 then t.hand == Moving(b, l - 1) && t.received == s.received
         else t.hand == Quiet && t.received == s.received + [b]
  }

  // The output registers of the process under the handshake.
  lemma CoreOutStep(c: Regs, i: Input)
    requires Valid(c) && c.out.valid == c.out.count
    ensures var o := Next(c, i).out;
      && o.valid == o.count
      && (i.busy ==> !o.valid)
      && (!i.busy && c.out.valid ==> o == c.out)
      && (!i.busy && !c.out.valid ==> o.valid == Raised(c, i).Some? && (o.valid ==> o.data == Raised(c, i).value))
      && (i.busy || c.out.valid ==> Raised(c, i) == None)
  {
    hide NextState, NextInst, NextSm3, NextSm4, NextResult, NextCycles, ReplyMux;
  }

  lemma FreeToPresent(v: View, i: Input)
    ensures Presents(v, i, false) == None
  {
  }

  // The S-box wire plays no part in what the view does.
  lemma SboxUnseen(v: View, i: Input, free: bool)
    ensures Step(v, i, free) == Step(v, Edge(i.rx, i.rxValid, i.busy), free)
    ensures Presents(v, i, free) == Presents(v, Edge(i.rx, i.rxValid, i.busy), free)
  {
    hide Reply, Parse;
  }

  // What the transmitter and the view need from one edge of the process.
  lemma FollowsLinked(c: Regs, v: View, i: Input)
    requires Sees(c, v) && i.sbox == SboxRom.DataOut(SboxIn(c.sm4))
    ensures NiceCore.Valid(c) && Free(c, i) == (!i.busy && !c.out.valid)
    ensures Sees(Next(c, i), Step(v, i, Free(c, i)))
    ensures Step(v, i, Free(c, i)) == Step(v, Edge(i.rx, i.rxValid, i.busy), Free(c, i))
    ensures Presents(v, i, Free(c, i)) == Presents(v, Edge(i.rx, i.rxValid, i.busy), Free(c, i))
    ensures var o := Next(c, i).out;
      && (match Presents(v, i, Free(c, i))
          case Some(b) => o.valid && o.data == b
          case None => true)
      && (!i.busy && c.out.valid ==> o == c.out)
      && (i.busy ==> !o.valid)
      && (Free(c, i) && Presents(v, i, true).None? ==> !o.valid)
  {
    assert NiceCore.Valid(c) && c.out.valid == c.out.count;
    hide SboxRom.DataOut, Next, Sees, Step, Raised, SboxIn;
    Simulates(c, v, i);
    SboxUnseen(v, i, Free(c, i));
    CoreOutStep(c, i);
    FreeToPresent(v, i);
  }

  /// What the host waits for.
  datatype Phase =
    | Ack(got: seq<byte>)            // the acknowledgement of the bytes got
    | Polled(q: Request, b: byte)    // the answer b to a poll
    | Fetch(q: Request)              // the five bytes of the reply

  // Twelve bytes that name a request.
  ghost predicate Complete(got: seq<byte>)
  {
    |got| == 12 && Parse(got).Some?
  }

  // The acknowledged bytes are held, and if they are complete the calculation may be under way.
  ghost predicate Holding(v: View, got: seq<byte>)
  {
    || v == Collect(got)
    || (Complete(got) && (v == Decoding(got) || (v.Work? && v.q == Parse(got).value && v.k <= Steps(v.q.op))))
  }

  ghost predicate Computing(v: View, q: Request)
  {
    || (v.Decoding? && Complete(v.got) && Parse(v.got).value == q)
    || (v.Work? && v.q == q && v.k <= Steps(q.op))
  }

  ghost predicate Finished(v: View, q: Request) { v.Work? && v.q == q && v.k == Steps(q.op) }

  // Clocks until the calculation is finished.
  ghost function Remaining(v: View): nat
  {
    match v
    case Decoding(_) => 8
    case Work(q, k) => if k <= Steps(q.op) then Steps(q.op) - k else 0
    case _ => 9
  }

  ghost predicate InPhase(p: Phase, s: Session)
  {
    match p
    case Ack(got) =>
      && |got| in {4, 8, 12} && (|got| == 12 ==> Complete(got))
      && (match s.hand
          case Quiet => (s.view == Acking(got) && s.received == []) || (Holding(s.view, got) && s.received == [1])
          case Pending(b, _) => b == 1 && s.view == Acking(got) && s.received == []
          case Moving(b, _) => b == 1 && (s.view == Acking(got) || Holding(s.view, got)) && s.received == [])
    case Polled(q, b) =>
      && Computing(s.view, q) && (b == 1 ==> Finished(s.view, q))
      && (match s.hand
          case Quiet => s.received == [b]
          case Pending(c, _) => c == b && s.received == []
          case Moving(c, _) => c == b && s.received == [])
    case Fetch(q) =>
      (match s.view
       case Answer(r, n) =>
         && r == q && n <= 5
         && (match s.hand
             case Quiet => s.received == Reply(q)[..n]
             case Pending(b, _) => n > 0 && b == Reply(q)[n - 1] && s.received == Reply(q)[..n - 1]
             case Moving(b, _) => n > 0 && b == Reply(q)[n - 1] && s.received == Reply(q)[..n - 1])
       case Collect(got) => got == [] && s.hand == Quiet && s.received == Reply(q)
       case _ => false)
  }

  function Awaited(p: Phase): nat { if p.Fetch? then 5 else 1 }

  ghost predicate Done(p: Phase, s: Session) { |s.received| >= Awaited(p) }

  // Every silent clock of an unfinished phase makes (Coarse, Fine) smaller.
  ghost function Coarse(p: Phase, s: Session): nat
  {
    if Done(p, s) then 0
    else (if s.view.Answer? && s.view.n <= 5 then 3 * (5 - s.view.n) else 0)
         + match s.hand case Quiet => (if s.view.Answer? then 0 else 3) case Pending(_, _) => 2 case Moving(_, _) => 1
  }

  ghost function Fine(s: Session): nat
  {
    match s.hand case Quiet => 0 case Pending(_, w) => w case Moving(_, l) => l
  }

  ghost predicate Progress(p: Phase, s: Session, t: Session)
  {
    && InPhase(p, t)
    && (if Done(p, s) then Done(p, t)
        else Coarse(p, t) < Coarse(p, s) || (Coarse(p, t) == Coarse(p, s) && Fine(t) < Fine(s)))
  }

  lemma ProgressAddsUp(p: Phase, r: Session, s: Session, t: Session)
    requires InPhase(p, r) && Progress(p, r, s) && Progress(p, s, t)
    ensures Progress(p, r, t)
  {
    hide InPhase, Parse, Reply;
  }

  lemma AckProgress(p: Phase, s: Session, t: Session)
    requires p.Ack? && InPhase(p, s) && Clocked(s, t, 0, false)
    ensures Progress(p, s, t)
  {
    hide Parse, Reply;
  }

  lemma PolledProgress(p: Phase, s: Session, t: Session)
    requires p.Polled? && InPhase(p, s) && Clocked(s, t, 0, false)
    ensures Progress(p, s, t) && Remaining(t.view) <= Remaining(s.view)
  {
    hide Parse, Reply;
  }

  lemma FetchProgress(p: Phase, s: Session, t: Session)
    requires p.Fetch? && InPhase(p, s) && Clocked(s, t, 0, false)
    ensures Progress(p, s, t)
  {
    hide Parse, Reply;
    var r := Reply(p.q);
    if s.view.Answer? && s.view.n > 0 {
      assert r[..s.view.n] == r[..s.view.n - 1] + [r[s.view.n - 1]];
    }
    assert r[..5] == r;
  }

  // Whatever the delays, every silent clock keeps the phase and brings it nearer to its end.
  lemma SilentProgress(p: Phase, s: Session, t: Session)
    requires InPhase(p, s) && Clocked(s, t, 0, false)
    ensures Progress(p, s, t)
    ensures p.Polled? ==> Remaining(t.view) <= Remaining(s.view)
  {
    match p
    case Ack(_) => AckProgress(p, s, t);
    case Polled(_, _) => PolledProgress(p, s, t);
    case Fetch(_) => FetchProgress(p, s, t);
  }

  /// What the host may send next, after any number of silent clocks.
  datatype Wait =
    | Listen(got: seq<byte>)   // the next byte of a request
    | Poll(q: Request)         // a poll
    | Read(q: Request)         // the read command

  // The coprocessor may still have one clock of its own to spend.
  ghost predicate Waits(w: Wait, s: Session)
  {
    && s.hand == Quiet
    && match w
       case Listen(got) => s.view == Collect(got) || (got == [] && s.view.Answer? && s.view.n == 5)
       case Poll(q) =>
         || Computing(s.view, q)
         || (s.view.Collect? && Complete(s.view.got) && Parse(s.view.got).value == q)
       case Read(q) => Finished(s.view, q)
  }

  ghost predicate Settled(w: Wait, s: Session)
  {
    && s.hand == Quiet
    && match w
       case Listen(got) => s.view == Collect(got)
       case Poll(q) => Computing(s.view, q)
       case Read(q) => Finished(s.view, q)
  }

  ghost predicate Settleable(w: Wait) { w.Listen? ==> |w.got| < 12 }

  // One silent clock settles, and a settled coprocessor stays settled.
  lemma SilentSettles(w: Wait, s: Session, t: Session)
    requires Settleable(w) && (Waits(w, s) || Settled(w, s)) && Clocked(s, t, 0, false)
    ensures Settled(w, t) && t.received == s.received
    ensures w.Poll? ==> Remaining(t.view) <= Remaining(s.view)
  {
    hide Parse, Reply;
  }

  lemma ListenByte(got: seq<byte>, s: Session, t: Session, x: byte)
    requires Settled(Listen(got), s) && |got| < 12 && Clocked(s, t, x, true)
    ensures t.hand == Quiet && t.received == s.received
    ensures t.view == if (|got| + 1) % 4 == 0 then Acking(got + [x]) else Collect(got + [x])
  {
  }

  // A settled coprocessor answers every poll, and a poll that comes too early brings the end nearer.
  lemma PollByte(q: Request, s: Session, t: Session)
    requires Settled(Poll(q), s) && s.received == [] && Clocked(s, t, 0xff, true)
    ensures InPhase(Polled(q, if Finished(s.view, q) then 1 else 0), t)
    ensures Finished(s.view, q) || Remaining(t.view) < Remaining(s.view)
  {
    hide Parse, Reply;
  }

  // What a host byte is for when it is not dropped: it is collected, answered, or starts the reply.
  ghost predicate Taken(w: Wait, t: Session, x: byte)
  {
    match w
    case Listen(got) => t.view == if (|got| + 1) % 4 == 0 then Acking(got + [x]) else Collect(got + [x])
    case Poll(_) => t.hand.Pending?
    case Read(q) => t.view == Answer(q, 0)
  }

  // The byte the host is to send next is taken exactly when the coprocessor has settled: at the one clock it may
  // still need, a poll or the first byte of a request is lost.
  lemma ByteTakenIffSettled(w: Wait, s: Session, t: Session, x: byte)
    requires Settleable(w) && Waits(w, s) && Clocked(s, t, x, true)
    requires (w.Poll? ==> x == 0xff) && (w.Read? ==> x == 0x00)
    ensures Taken(w, t, x) <==> Settled(w, s)
  {
    hide Parse, Reply;
  }

  // The first byte of the next request, arriving when the whole reply is out but the coprocessor is not back in
  // IDLE, is dropped without a trace.
  lemma EarlyRequestIsLost(q: Request, s: Session, t: Session, x: byte)
    requires s == Session(Answer(q, 5), Quiet, Reply(q)) && Clocked(s, t, x, true)
    ensures Done(Fetch(q), s) && InPhase(Fetch(q), s) && Waits(Listen([]), s)
    ensures t == Session(Collect([]), Quiet, Reply(q))
  {
    hide Parse;
    assert Reply(q)[..5] == Reply(q);
    hide Reply;
  }

  // A poll that arrives before the coprocessor has left IDLE is lost.
  lemma EarlyPollIsLost(got: seq<byte>, s: Session, t: Session)
    requires Complete(got) && s.hand == Quiet && Clocked(s, t, 0xff, true)
    requires s.view == Collect(got) || Computing(s.view, Parse(got).value)
    ensures t.hand == Quiet <==> s.view == Collect(got)
  {
    hide Parse, Reply;
  }

  lemma ReadByte(q: Request, s: Session, t: Session)
    requires Settled(Read(q), s) && s.received == [] && Clocked(s, t, 0x00, true)
    ensures InPhase(Fetch(q), t)
  {
    hide Parse, Reply;
    assert Reply(q)[..0] == [];
  }

  // A clock without a byte is silent, whatever the data input holds.
  lemma SilentWhatever(s: Session, t: Session, x: byte)
    requires Clocked(s, t, x, false)
    ensures Clocked(s, t, 0, false)
  {
    hide Parse, Reply;
  }

  lemma SettledWaits(w: Wait, s: Session)
    requires Settled(w, s)
    ensures Waits(w, s)
  {
  }

  /// From a byte of the host to what it sets off.

  // The byte is the one awaited.
  ghost predicate Sendable(w: Wait, x: byte)
  {
    match w
    case Listen(got) => |got| < 12 && (|got| == 11 ==> Complete(got + [x]))
    case Poll(_) => x == 0xff
    case Read(_) => x == 0x00
  }

  // Some time after the byte x was taken in the session before.
  ghost predicate Responding(w: Wait, x: byte, before: Session, s: Session)
  {
    match w
    case Listen(got) =>
      if (|got| + 1) % 4 == 0 then InPhase(Ack(got + [x]), s)
      else Settled(Listen(got + [x]), s) && s.received == []
    case Poll(q) =>
      && InPhase(Polled(q, if Finished(before.view, q) then 1 else 0), s)
      && (Finished(before.view, q) || Remaining(s.view) < Remaining(before.view))
    case Read(q) => InPhase(Fetch(q), s)
  }

  lemma ByteStartsResponse(w: Wait, x: byte, s: Session, t: Session)
    requires Sendable(w, x) && Settled(w, s) && s.received == [] && Clocked(s, t, x, true)
    ensures Responding(w, x, s, t)
  {
    hide InPhase, Clocked, Complete;
    match w
    case Listen(got) =>
      ListenByte(got, s, t, x);
      if (|got| + 1) % 4 == 0 {
        AckBegins(got + [x], t);
      }
    case Poll(q) => PollByte(q, s, t);
    case Read(q) => ReadByte(q, s, t);
  }

  lemma SilentKeepsResponse(w: Wait, x: byte, before: Session, s: Session, t: Session)
    requires Sendable(w, x) && Responding(w, x, before, s) && Clocked(s, t, 0, false)
    ensures Responding(w, x, before, t)
  {
    hide InPhase, Clocked, Complete, Settled, Remaining, Finished;
    match w
    case Listen(got) =>
      if (|got| + 1) % 4 == 0 {
        SilentProgress(Ack(got + [x]), s, t);
      } else {
        SilentSettles(Listen(got + [x]), s, t);
      }
    case Poll(q) => SilentProgress(Polled(q, if Finished(before.view, q) then 1 else 0), s, t);
    case Read(q) => SilentProgress(Fetch(q), s, t);
  }

  /// A long acknowledgement leaves no room for an early poll.

  // The view k clocks after the transmitter has taken the third acknowledgement.
  function AfterAck(got: seq<byte>, q: Request, k: nat): View
  {
    if k == 0 then Acking(got)
    else if k == 1 then Collect(got)
    else if k == 2 then Decoding(got)
    else Work(q, if k - 3 < Steps(q.op) then k - 3 else Steps(q.op))
  }

  ghost predicate SilentRun(ss: seq<Session>)
  {
    forall k :: 0 <= k < |ss| - 1 ==> Clocked(ss[k], ss[k + 1], 0, false)
  }

  lemma {:induction false} AckRuns(got: seq<byte>, q: Request, ss: seq<Session>, left: nat, k: nat)
    requires |got| == 12 && Parse(got) == Some(q) && SilentRun(ss) && k < |ss|
    requires ss[0].view == Acking(got) && ss[0].hand == Moving(1, left) && k <= left
    ensures ss[k].view == AfterAck(got, q, k) && ss[k].hand == Moving(1, left - k)
  {
    hide Parse, Reply;
    if k > 0 {
      AckRuns(got, q, ss, left, k - 1);
      assert Clocked(ss[k - 1], ss[k], 0, false);
    }
  }

  // If the transmitter is busy with the third acknowledgement for ten clocks or more, the result is ready when it
  // falls idle, so the host's first poll is answered 1.
  lemma LongAckFinishes(got: seq<byte>, q: Request, ss: seq<Session>, left: nat)
    requires |got| == 12 && Parse(got) == Some(q) && SilentRun(ss) && |ss| == left + 2 && left >= 9
    requires ss[0].view == Acking(got) && ss[0].hand == Moving(1, left)
    ensures ss[left + 1].hand == Quiet && Finished(ss[left + 1].view, q)
  {
    hide Parse, Reply;
    AckRuns(got, q, ss, left, left);
    assert Clocked(ss[left], ss[left + 1], 0, false);
  }

  /// Ends and beginnings of phases.

  lemma PhaseLength(p: Phase, s: Session)
    requires InPhase(p, s)
    ensures |s.received| <= Awaited(p)
  {
    hide Parse, Reply;
  }

  lemma AckBegins(got: seq<byte>, s: Session)
    requires s == Session(Acking(got), Quiet, []) && |got| in {4, 8, 12} && (|got| == 12 ==> Complete(got))
    ensures InPhase(Ack(got), s)
  {
  }

  lemma AckEnds(got: seq<byte>, s: Session)
    requires InPhase(Ack(got), s) && Done(Ack(got), s)
    ensures s.hand == Quiet && s.received == [1]
    ensures |got| < 12 ==> Waits(Listen(got), s)
    ensures |got| == 12 ==> Complete(got) && Waits(Poll(Parse(got).value), s)
  {
    hide Parse, Reply;
  }

  lemma PolledEnds(q: Request, b: byte, s: Session)
    requires InPhase(Polled(q, b), s) && Done(Polled(q, b), s)
    ensures s.received == [b] && Waits(Poll(q), s)
    ensures b == 1 ==> Waits(Read(q), s)
  {
    hide Parse, Reply;
  }

  lemma FetchEnds(q: Request, s: Session)
    requires InPhase(Fetch(q), s) && Done(Fetch(q), s)
    ensures s.received == Reply(q) && Waits(Listen([]), s)
  {
    hide Parse, Reply;
    assert Reply(q)[..5] == Reply(q);
  }
}
