/// Safety of the coprocessor's replies over every run from reset: any bytes at any times, any
/// behaviour of the busy signal.

module ReplySafety {
  import opened Words
  import opened NiceReference
  import opened NiceCore
  import opened NiceProtocol
  import SboxRom

  // What the outside drives at one edge.
  datatype Drive = Drive(rx: byte, rxValid: bool, busy: bool)

  // The input of the process with the S-box instance wired in.
  function Wired(c: Regs, d: Drive): Input
  {
    Input(d.rx, d.rxValid, d.busy, SboxRom.DataOut(SboxIn(c.sm4)))
  }

  // The registers after a run.
  function Run(ds: seq<Drive>): (c: Regs)
    ensures Valid(c)
  {
    if ds == [] then RESET
    else
      var c := Run(ds[..|ds| - 1]);
      Next(c, Wired(c, ds[|ds| - 1]))
  }

  // The bytes accepted in IDLE, in order.
  function Accepted(ds: seq<Drive>): seq<byte>
  {
    if ds == [] then []
    else
      var before, d := ds[..|ds| - 1], ds[|ds| - 1];
      Accepted(before) + if Receives(Run(before), Wired(Run(before), d)) then [d.rx] else []
  }

  // The bytes for which o_data_valid was raised in TX_DATA, in order.
  function Presented(ds: seq<Drive>): seq<byte>
  {
    if ds == [] then []
    else
      var before := ds[..|ds| - 1];
      Presented(before) + AnswerByte(Run(before), Wired(Run(before), ds[|ds| - 1]))
  }

  function AnswerByte(c: Regs, i: Input): seq<byte>
  {
    match Raised(c, i)
    case Some(b) => if c.state == TxData then [b] else []
    case None => []
  }

  ghost function ViewAfter(ds: seq<Drive>): View
  {
    if ds == [] then Collect([])
    else
      var c, d := Run(ds[..|ds| - 1]), ds[|ds| - 1];
      Step(ViewAfter(ds[..|ds| - 1]), Wired(c, d), Free(c, Wired(c, d)))
  }

  function Last(s: seq<byte>, n: nat): seq<byte>
    requires n <= |s|
  {
    s[|s| - n..]
  }

  /// What the coprocessor owes for the bytes it accepted: one reply for each group of twelve that names a request.

  function ReplyTo(group: seq<byte>): seq<byte>
    requires |group| == 12
  {
    match Parse(group)
    case Some(q) => Reply(q)
    case None => []
  }

  function Replies(acc: seq<byte>): seq<byte>
  {
    if |acc| < 12 then [] else ReplyTo(acc[..12]) + Replies(acc[12..])
  }

  lemma {:induction false} RepliesGrow(whole: seq<byte>, group: seq<byte>)
    requires |whole| % 12 == 0 && |group| == 12
    ensures Replies(whole + group) == Replies(whole) + ReplyTo(group)
    decreases |whole|
  {
    hide ReplyTo;
    var all := whole + group;
    if whole == [] {
      assert all[..12] == group && all[12..] == [];
    } else {
      RepliesGrow(whole[12..], group);
      assert all[..12] == whole[..12] && all[12..] == whole[12..] + group;
    }
  }

  lemma {:induction false} RepliesArePrefixed(whole: seq<byte>, more: seq<byte>)
    requires |whole| % 12 == 0
    ensures Replies(whole) <= Replies(whole + more)
    decreases |whole|
  {
    hide ReplyTo;
    if whole != [] {
      RepliesArePrefixed(whole[12..], more);
      var all := whole + more;
      assert all[..12] == whole[..12] && all[12..] == whole[12..] + more;
    }
  }

  // All groups before the bytes got have been answered.
  ghost predicate Open(acc: seq<byte>, got: seq<byte>, out: seq<byte>)
  {
    && |got| <= 12 && |got| <= |acc| && Last(acc, |got|) == got
    && (|acc| - |got|) % 12 == 0 && out == Replies(acc[..|acc| - |got|])
  }

  // The last group names the request q, and n bytes of its reply are out.
  ghost predicate Owing(acc: seq<byte>, q: Request, n: nat, out: seq<byte>)
  {
    && |acc| >= 12 && |acc| % 12 == 0 && Parse(Last(acc, 12)) == Some(q)
    && n <= 5 && out == Replies(acc[..|acc| - 12]) + Reply(q)[..n]
  }

  ghost predicate Tracks(v: View, acc: seq<byte>, out: seq<byte>)
  {
    match v
    case Collect(got) => Open(acc, got, out)
    case Acking(got) => Open(acc, got, out)
    case Decoding(got) => Open(acc, got, out)
    case Rejected => Open(acc, [], out)
    case Work(q, _) => Owing(acc, q, 0, out)
    case Answer(q, n) => Owing(acc, q, n, out)
  }

  // What the view adds to the two logs.
  function Taken(v: View, i: Input): seq<byte>
  {
    if v.Collect? && i.rxValid && |v.got| < 12 then [i.rx] else []
  }

  function Sent(v: View, free: bool): seq<byte>
  {
    if v.Answer? && v.n < 5 && free then [Reply(v.q)[v.n]] else []
  }

  lemma LogsOf(c: Regs, v: View, i: Input)
    requires Sees(c, v) && Raised(c, i) == Presents(v, i, Free(c, i))
    ensures (if Receives(c, i) then [i.rx] else []) == Taken(v, i)
    ensures AnswerByte(c, i) == Sent(v, Free(c, i))
  {
    hide BytesOf, WordOf, Reply, Shifted, Substituted, Result, ReplyMux, SM4Nonlinear, SM4Linear, Rotl;
    hide Raised, Quiescent;
    match v
    case Work(q, k) =>
      assert c.state != TxData && c.state != Idle by {
        assert if q.op == P0 || q.op == P1 then SeesSm3(c, q, k) else SeesSm4(c, q, k);
      }
    case _ =>
  }

  lemma OpenGrows(acc: seq<byte>, got: seq<byte>, out: seq<byte>, x: byte)
    requires Open(acc, got, out) && |got| < 12
    ensures Open(acc + [x], got + [x], out)
  {
    hide Replies;
    assert (acc + [x])[..|acc| - |got|] == acc[..|acc| - |got|];
  }

  lemma GroupOf(acc: seq<byte>)
    requires |acc| >= 12 && |acc| % 12 == 0
    ensures Replies(acc) == Replies(acc[..|acc| - 12]) + ReplyTo(Last(acc, 12))
  {
    hide Replies, ReplyTo;
    assert acc == acc[..|acc| - 12] + Last(acc, 12);
    RepliesGrow(acc[..|acc| - 12], Last(acc, 12));
  }

  lemma OpenDecodes(acc: seq<byte>, got: seq<byte>, out: seq<byte>)
    requires Open(acc, got, out) && |got| == 12
    ensures Parse(got).Some? ==> Owing(acc, Parse(got).value, 0, out)
    ensures Parse(got).None? ==> Open(acc, [], out)
  {
    hide Parse, Reply, Replies;
    GroupOf(acc);
    assert acc[..|acc|] == acc;
    if Parse(got).Some? {
      assert Reply(Parse(got).value)[..0] == [];
    }
  }

  lemma OwingEnds(acc: seq<byte>, q: Request, out: seq<byte>)
    requires Owing(acc, q, 5, out)
    ensures Open(acc, [], out)
  {
    hide Parse, Replies, Reply;
    GroupOf(acc);
    assert acc[..|acc|] == acc && Reply(q)[..5] == Reply(q);
  }

  lemma OwingGrows(acc: seq<byte>, q: Request, n: nat, out: seq<byte>)
    requires Owing(acc, q, n, out) && n < 5
    ensures Owing(acc, q, n + 1, out + [Reply(q)[n]])
  {
    hide Parse, Replies, Reply;
    assert Reply(q)[..n + 1] == Reply(q)[..n] + [Reply(q)[n]];
  }

  lemma TracksStep(v: View, i: Input, free: bool, acc: seq<byte>, out: seq<byte>)
    requires Tracks(v, acc, out)
    ensures Tracks(Step(v, i, free), acc + Taken(v, i), out + Sent(v, free))
  {
    hide Reply, Parse, Steps, Open, Owing;
    assert acc + [] == acc && out + [] == out;
    match v
    case Collect(got) =>
      if i.rxValid && |got| < 12 {
        OpenGrows(acc, got, out, i.rx);
      }
    case Decoding(got) =>
      if |got| == 12 {
        OpenDecodes(acc, got, out);
      }
    case Answer(q, n) =>
      if free && n == 5 {
        OwingEnds(acc, q, out);
      } else if free && n < 5 {
        OwingGrows(acc, q, n, out);
      } else if free {
        OwingBound(acc, q, n, out);
      }
    case _ =>
  }

  lemma OwingBound(acc: seq<byte>, q: Request, n: nat, out: seq<byte>)
    requires Owing(acc, q, n, out)
    ensures n <= 5
  {
  }

  lemma {:induction false} RunIsTracked(ds: seq<Drive>)
    ensures Sees(Run(ds), ViewAfter(ds)) && Tracks(ViewAfter(ds), Accepted(ds), Presented(ds))
  {
    hide SboxRom.DataOut, Next, Step, Sees, Tracks, Raised, Receives, AnswerByte, Presents, Taken, Sent;
    if ds == [] {
      ResetIsTracked();
    } else {
      var before, d := ds[..|ds| - 1], ds[|ds| - 1];
      var c, v := Run(before), ViewAfter(before);
      RunIsTracked(before);
      Simulates(c, v, Wired(c, d));
      LogsOf(c, v, Wired(c, d));
      TracksStep(v, Wired(c, d), Free(c, Wired(c, d)), Accepted(before), Presented(before));
    }
  }

  lemma ResetIsTracked()
    ensures Sees(RESET, Collect([])) && Tracks(Collect([]), [], [])
  {
    assert Kept([]) == [];
  }

  // How many of the accepted bytes belong to a request that is not answered yet.
  function Unanswered(c: Regs): nat
  {
    if c.state == TxData || Calculating(c.state) then 12 else c.rxCnt
  }

  // What the tracked view says about the registers and the two logs.
  ghost predicate RightSoFar(c: Regs, acc: seq<byte>, out: seq<byte>)
  {
    var u := Unanswered(c);
    && u <= 12 && u <= |acc| && (|acc| - u) % 12 == 0
    && if c.state == TxData then
         && c.txCnt <= 5 && Parse(Last(acc, 12)).Some?
         && out == Replies(acc[..|acc| - 12]) + Reply(Parse(Last(acc, 12)).value)[..c.txCnt]
       else
         out == Replies(acc[..|acc| - u])
  }

  lemma TrackedIsRight(c: Regs, v: View, acc: seq<byte>, out: seq<byte>)
    requires Sees(c, v) && Tracks(v, acc, out)
    ensures RightSoFar(c, acc, out)
  {
    hide Parse, Reply, Shifted, Result, BytesOf, Substituted, Replies;
    match v
    case Work(q, k) =>
      assert Calculating(c.state) by {
        assert if q.op == P0 || q.op == P1 then SeesSm3(c, q, k) else SeesSm4(c, q, k);
      }
      assert Reply(q)[..0] == [];
    case _ =>
  }

  // At every moment of every run the bytes presented in TX_DATA are the replies, in order, to all accepted groups of
  // twelve bytes that name a request, up to the group still being collected, calculated or answered; of a reply
  // being given, as many bytes as tx_byte_cnt says.
  lemma RepliesAreRight(ds: seq<Drive>)
    ensures RightSoFar(Run(ds), Accepted(ds), Presented(ds))
  {
    hide SboxRom.DataOut, Next, Run, ViewAfter, Accepted, Presented, Sees, Tracks, RightSoFar;
    RunIsTracked(ds);
    TrackedIsRight(Run(ds), ViewAfter(ds), Accepted(ds), Presented(ds));
  }

  // So no request is answered twice, out of order, or before it was made.
  lemma OneReplyEach(ds: seq<Drive>)
    ensures Presented(ds) <= Replies(Accepted(ds))
  {
    hide SboxRom.DataOut, Next, Run, Accepted, Presented, Replies, Reply, Parse;
    var c, acc, out := Run(ds), Accepted(ds), Presented(ds);
    RepliesAreRight(ds);
    var m := |acc| - Unanswered(c);
    assert acc == acc[..m] + acc[m..];
    RepliesArePrefixed(acc[..m], acc[m..]);
    if c.state == TxData {
      GroupOf(acc);
    }
  }

  // The cycle byte that the instruction-set simulator feeds to advance(cycles - 1) exceeds 1.
  lemma CycleByteAdvances(q: Request)
    ensures Reply(q)[4] == (if q.op in {P0, P1} then 3 else 7) && Reply(q)[4] > 1
    ensures WordOf(Reply(q)[..4]) == Reference(q.op, q.a, q.b)
  {
    hide Reference, BytesOf, WordOf;
    WordOfBytes(Result(q));
    assert Reply(q)[..4] == BytesOf(Result(q));
  }

  // A poll is answered with 1 only once the result register holds the reference value, and a free
  // transmitter lets every poll outside IDLE, TX_DATA and TX_ONE be answered.
  lemma PollIsTruthful(ds: seq<Drive>, rx: byte, busy: bool)
    requires Run(ds).state !in {Idle, TxData, TxOne}
    ensures var c := Run(ds);
      var i := Wired(c, Drive(rx, true, busy));
      && Raised(c, i) == (if rx == 0xff && Free(c, i) then Some(if c.done then 1 else 0) else None)
      && (c.done ==> |Accepted(ds)| >= 12 && Parse(Last(Accepted(ds), 12)).Some?
                     && c.result == Result(Parse(Last(Accepted(ds), 12)).value))
  {
    hide SboxRom.DataOut, Next, Run, ViewAfter, Reply, Parse, Accepted, Presented, Result, SeesSm4, SeesSm3;
    RunIsTracked(ds);
  }
}
