/// What nice_core does, said without its registers: which request it is collecting, computing or
/// answering. Next simulates this machine for every input at every edge.

module NiceProtocol {
  import opened Words
  import opened NiceReference
  import opened NiceCore
  import SboxRom

  datatype Request = Request(op: Op, a: word, b: word)

  datatype View =
    | Collect(got: seq<byte>)                    // IDLE, with the bytes of the request so far
    | Acking(got: seq<byte>)                     // TX_ONE
    | Decoding(got: seq<byte>)                   // RECV_INST, before decoding
    | Rejected                                   // RECV_INST, after an unknown opcode
    | Work(q: Request, k: nat)                   // k clocks into the calculation
    | Answer(q: Request, n: nat)                 // TX_DATA, n bytes of the reply presented

  // The request named by twelve bytes: opcode in the first two, bytes 2 and 3 ignored.
  function Parse(got: seq<byte>): Option<Request>
    requires |got| == 12
  {
    match OpOf(got[0], got[1])
    case Some(op) => Some(Request(op, WordOf(got[4..8]), WordOf(got[8..12])))
    case None => None
  }

  // Clocks from the first step until calc_done.
  function Steps(op: Op): nat { if op == P0 || op == P1 then 3 else 7 }

  function Result(q: Request): word { Reference(q.op, q.a, q.b) }

  // The five bytes of a reply: the result, most significant byte first, then the cycle count.
  function Reply(q: Request): (r: seq<byte>)
    ensures |r| == 5
  {
    BytesOf(Result(q)) + [if q.op == P0 || q.op == P1 then 3 else 7]
  }

  // The step of the view; free says that no output byte is pending or in transmission.
  function Step(v: View, i: Input, free: bool): View
  {
    match v
    case Collect(got) =>
      if i.rxValid && |got| < 12 then
        (if (|got| + 1) % 4 == 0 then Acking(got + [i.rx]) else Collect(got + [i.rx]))
      else if |got| == 12 then Decoding(got) else v
    case Acking(got) => if i.busy then Collect(got) else v
    case Decoding(got) =>
      if |got| != 12 then v
      else (match Parse(got)
            case Some(q) => Work(q, 0)
            case None => Rejected)
    case Rejected => Collect([])
    case Work(q, k) =>
      if k < Steps(q.op) then Work(q, k + 1)
      else if i.rxValid && i.rx == 0x00 then Answer(q, 0) else v
    case Answer(q, n) =>
      if !free then v else if n == 5 then Collect([]) else Answer(q, n + 1)
  }

  // The byte the view presents to the transmitter at this edge.
  function Presents(v: View, i: Input, free: bool): Option<byte>
  {
    if !free then None
    else match v
      case Collect(_) => None
      case Acking(_) => Some(1)
      case Answer(q, n) => if n < 5 then Some(Reply(q)[n]) else None
      case Work(q, k) => if i.rxValid && i.rx == 0xff then Some(if k == Steps(q.op) then 1 else 0) else None
      case _ => if i.rxValid && i.rx == 0xff then Some(0) else None
  }

  /// The relation between registers and view.

  // The request bytes that reach the shift register: all but bytes 2 and 3.
  function Kept(got: seq<byte>): seq<byte>
  {
    if |got| <= 2 then got else if |got| <= 4 then got[..2] else got[..2] + got[4..]
  }

  ghost predicate Shifted(inst: seq<byte>, got: seq<byte>)
  {
    |inst| == 10 && |got| <= 12 && inst[10 - |Kept(got)|..] == Kept(got)
  }

  ghost predicate Quiescent(c: Regs)
  {
    c.cycles == 0 && !c.done && c.sm4.sel == 0 && c.txCnt == 0
  }

  // The S-box stage: the k most significant bytes of sm4_sbox_out are the substituted low bytes.
  ghost predicate Substituted(w: word, b: word, k: nat)
  {
    k <= 4 && forall j :: 0 <= j < k ==> BytesOf(w)[j] == Sbox(BytesOf(b)[4 - k + j])
  }

  ghost predicate SeesSm3(c: Regs, q: Request, k: nat)
  {
    && c.sm3.rs1 == q.a && c.sm3.p0 == (q.op == P0) && c.sm3.p1 == (q.op == P1)
    && c.state == (if k == 0 then Sm3Step1 else if k == 1 then Sm3Step2 else Sm3Step3)
    && (k >= 1 ==> c.sm3.temp1 == if q.op == P0 then Rotl(q.a, 9) else Rotl(q.a, 15))
    && (k >= 2 ==> c.sm3.temp2 == if q.op == P0 then Rotl(q.a, 17) else Rotl(q.a, 23))
    && c.sm4.sel == 0
  }

  ghost predicate SeesSm4(c: Regs, q: Request, k: nat)
  {
    && c.sm4.rs1 == q.a && c.sm4.rs2 == q.b && c.sm4.ks == (q.op == Ks) && c.sm4.ed == (q.op == Ed)
    && c.state == (if k < 5 then Sm4Step1 else if k == 5 then Sm4Step2 else Sm4Step3)
    && c.sm4.sel == (if k < 5 then k else 0)
    && (k <= 4 ==> Substituted(c.sm4.sboxOut, q.b, k))
    && (k == 5 ==> c.sm4.sboxOut == SM4Nonlinear(q.b))
    && (k >= 6 ==> c.sm4.linear == SM4Linear(SM4Nonlinear(q.b), if q.op == Ks then 0 else 1))
  }

  ghost predicate Sees(c: Regs, v: View)
  {
    Valid(c) && c.out.valid == c.out.count &&
    match v
    case Collect(got) => c.state == Idle && c.rxCnt == |got| && Shifted(c.inst, got) && Quiescent(c)
    case Acking(got) =>
      c.state == TxOne && c.rxCnt == |got| && |got| in {4, 8, 12} && Shifted(c.inst, got) && Quiescent(c)
    case Decoding(got) => c.state == RecvInst && c.rxCnt == |got| == 12 && Shifted(c.inst, got) && Quiescent(c)
    case Rejected => c.state == RecvInst && c.rxCnt == 0 && Quiescent(c)
    case Work(q, k) =>
      && k <= Steps(q.op) && c.rxCnt == 0 && c.txCnt == 0 && c.cycles == Small(k)
      && c.done == (k == Steps(q.op)) && (c.done ==> c.result == Result(q))
      && (if q.op == P0 || q.op == P1 then SeesSm3(c, q, k) else SeesSm4(c, q, k))
    case Answer(q, n) =>
      && c.state == TxData && n <= 5 && c.txCnt == n && c.rxCnt == 0 && c.sm4.sel == 0
      && c.result == Result(q) && c.cycles == Small(Steps(q.op)) && (n > 0 ==> !c.done)
  }

  // The cycle counter after k <= 7 clocks.
  function Small(k: nat): byte
  {
    if k == 0 then 0 else if k == 1 then 1 else if k == 2 then 2 else if k == 3 then 3
    else if k == 4 then 4 else if k == 5 then 5 else if k == 6 then 6 else 7
  }

  /// One step, case by case.

  lemma ShiftInBytes(s: byte, w: word)
    ensures BytesOf(ShiftIn(s, w)) == [s] + BytesOf(w)[..3]
  {
    ShiftInByte0(s, w);
    ShiftInByte1(s, w);
    ShiftInByte2(s, w);
    ShiftInByte3(s, w);
  }

  lemma ShiftInByte0(s: byte, w: word)
    ensures (ShiftIn(s, w) >> 24) as byte == s
  {
  }

  lemma ShiftInByte1(s: byte, w: word)
    ensures ((ShiftIn(s, w) >> 16) & 0xff) as byte == (w >> 24) as byte
  {
  }

  lemma ShiftInByte2(s: byte, w: word)
    ensures ((ShiftIn(s, w) >> 8) & 0xff) as byte == ((w >> 16) & 0xff) as byte
  {
  }

  lemma ShiftInByte3(s: byte, w: word)
    ensures (ShiftIn(s, w) & 0xff) as byte == ((w >> 8) & 0xff) as byte
  {
  }

  // What every step lemma shows: the view is followed and the presented byte is the view's.
  ghost predicate Follows(c: Regs, v: View, i: Input)
    requires Valid(c)
  {
    && Sees(Next(c, i), Step(v, i, Free(c, i)))
    && Raised(c, i) == Presents(v, i, Free(c, i))
  }

  lemma KeptGrows(inst: seq<byte>, got: seq<byte>, x: byte)
    requires Shifted(inst, got) && |got| < 12
    ensures Shifted(if |got| == 2 || |got| == 3 then inst else inst[1..] + [x], got + [x])
  {
    var k, n := Kept(got), 10 - |Kept(got)|;
    if |got| == 2 || |got| == 3 {
      assert Kept(got + [x]) == k;
    } else {
      assert Kept(got + [x]) == k + [x];
      assert (inst[1..] + [x])[n - 1..] == inst[n..] + [x];
    }
  }

  lemma StepCollect(c: Regs, v: View, i: Input)
    requires v.Collect? && Sees(c, v)
    ensures Follows(c, v, i)
  {
    hide Result, WordOf, BytesOf, ShiftIn, Rotl, Xor, Xor3, SM4Linear, SM4Nonlinear, ReplyMux, Substituted, Kept;
    if Receives(c, i) {
      KeptGrows(c.inst, v.got, i.rx);
    }
  }

  lemma StepAcking(c: Regs, v: View, i: Input)
    requires v.Acking? && Sees(c, v)
    ensures Follows(c, v, i)
  {
    hide Result, WordOf, BytesOf, ShiftIn, Rotl, Xor, Xor3, SM4Linear, SM4Nonlinear, ReplyMux, Substituted, Kept;
  }

  // After twelve bytes the shift register holds the opcode and both operands in place.
  lemma ShiftedFull(inst: seq<byte>, got: seq<byte>)
    requires Shifted(inst, got) && |got| == 12
    ensures inst[0] == got[0] && inst[1] == got[1] && inst[2..6] == got[4..8] && inst[6..10] == got[8..12]
  {
    assert inst == got[..2] + got[4..];
    assert inst[2..6] == got[4..8];
    assert inst[6..10] == got[8..12];
  }

  lemma NothingSubstituted(w: word, b: word)
    ensures Substituted(w, b, 0)
  {
  }

  lemma StepDecoding(c: Regs, v: View, i: Input)
    requires v.Decoding? && Sees(c, v)
    ensures Follows(c, v, i)
  {
    hide WordOf, Result, BytesOf, ShiftIn, Rotl, Xor, Xor3, SM4Linear, SM4Nonlinear, ReplyMux, Shifted, Substituted;
    ShiftedFull(c.inst, v.got);
    NothingSubstituted(c.sm4.sboxOut, WordOf(v.got[8..12]));
  }

  lemma StepRejected(c: Regs, v: View, i: Input)
    requires v.Rejected? && Sees(c, v)
    ensures Follows(c, v, i)
  {
    assert Kept([]) == [];
  }

  // While it works, the core answers polls with its done flag.
  lemma WorkRaises(c: Regs, v: View, i: Input)
    requires v.Work? && Sees(c, v)
    ensures Raised(c, i) == Presents(v, i, Free(c, i))
    ensures NextOut(c, i).valid == NextOut(c, i).count
  {
    hide Sbox, ShiftIn, SM4Nonlinear, SM4Linear, Rotl, Substituted, Result, Xor, Xor3;
    hide WordOf, BytesOf, ReplyMux, Shifted;
  }

  lemma StepSm3(c: Regs, v: View, i: Input)
    requires v.Work? && v.q.op in {P0, P1} && v.k < 2 && Sees(c, v)
    ensures Follows(c, v, i)
  {
    hide Rotl, Result;
  }

  lemma StepSm3Finish(c: Regs, v: View, i: Input)
    requires v.Work? && v.q.op in {P0, P1} && v.k >= 2 && Sees(c, v)
    ensures Follows(c, v, i)
  {
    hide Rotl, Xor3;
    WorkRaises(c, v, i);
    hide Raised, Presents, NextOut, Shifted, Substituted;
    assert Result(v.q) == Xor3(c.sm3.rs1, c.sm3.temp1, c.sm3.temp2);
    hide Result;
  }

  lemma SubstitutedGrows(w: word, b: word, k: nat, s: byte)
    requires k < 4 && Substituted(w, b, k) && s == Sbox(BytesOf(b)[3 - k])
    ensures Substituted(ShiftIn(s, w), b, k + 1)
  {
    hide Sbox, ShiftIn, BytesOf;
    ShiftInBytes(s, w);
    var x, y := BytesOf(w), BytesOf(ShiftIn(s, w));
    forall j | 0 <= j < k + 1 ensures y[j] == Sbox(BytesOf(b)[3 - k + j]) {
      if j > 0 {
        assert y[j] == x[j - 1];
      }
    }
  }

  lemma SubstitutedFull(w: word, b: word)
    requires Substituted(w, b, 4)
    ensures w == SM4Nonlinear(b)
  {
    hide Sbox, WordOf;
    var t := BytesOf(b);
    assert BytesOf(w) == [Sbox(t[0]), Sbox(t[1]), Sbox(t[2]), Sbox(t[3])];
    WordOfBytes(w);
  }

  lemma StepSm4Substitute(c: Regs, v: View, i: Input)
    requires v.Work? && v.q.op in {Ks, Ed} && v.k < 4 && Sees(c, v)
    requires i.sbox == Sbox(SboxIn(c.sm4))
    ensures Follows(c, v, i)
  {
    hide Sbox, ShiftIn, SM4Nonlinear, SM4Linear, Rotl, Substituted, Result, Xor, Xor3, WordOf, BytesOf;
    WorkRaises(c, v, i);
    hide Raised, Presents, NextOut, Shifted;
    SubstitutedGrows(c.sm4.sboxOut, v.q.b, v.k, i.sbox);
  }

  lemma StepSm4Full(c: Regs, v: View, i: Input)
    requires v.Work? && v.q.op in {Ks, Ed} && v.k == 4 && Sees(c, v)
    ensures Follows(c, v, i)
  {
    hide Sbox, ShiftIn, SM4Nonlinear, SM4Linear, Rotl, Substituted, Result;
    SubstitutedFull(c.sm4.sboxOut, v.q.b);
  }

  lemma StepSm4Linear(c: Regs, v: View, i: Input)
    requires v.Work? && v.q.op in {Ks, Ed} && v.k == 5 && Sees(c, v)
    ensures Follows(c, v, i)
  {
    hide SM4Nonlinear, SM4Linear, Rotl, Substituted, Result;
  }

  lemma StepSm4Finish(c: Regs, v: View, i: Input)
    requires v.Work? && v.q.op in {Ks, Ed} && v.k > 5 && Sees(c, v)
    ensures Follows(c, v, i)
  {
    hide SM4Nonlinear, SM4Linear, Rotl, Xor;
    WorkRaises(c, v, i);
    hide Raised, Presents, NextOut, Shifted, Substituted;
    XorComm(c.sm4.linear, c.sm4.rs1);
    assert Result(v.q) == Xor(c.sm4.linear, c.sm4.rs1);
    hide Result;
  }

  lemma StepAnswer(c: Regs, v: View, i: Input)
    requires v.Answer? && Sees(c, v)
    ensures Follows(c, v, i)
  {
    hide Result, BytesOf;
    assert Kept([]) == [];
  }

  // The simulation: at every edge, whatever arrives and however busy the transmitter is, the
  // registers move with the view and present its byte.
  lemma Simulates(c: Regs, v: View, i: Input)
    requires Sees(c, v) && i.sbox == SboxRom.DataOut(SboxIn(c.sm4))
    ensures Follows(c, v, i)
  {
    SboxRom.SameTable(SboxIn(c.sm4));
    match v
    case Collect(_) => StepCollect(c, v, i);
    case Acking(_) => StepAcking(c, v, i);
    case Decoding(_) => StepDecoding(c, v, i);
    case Rejected => StepRejected(c, v, i);
    case Work(q, k) =>
      if q.op == P0 || q.op == P1 { if k < 2 { StepSm3(c, v, i); } else { StepSm3Finish(c, v, i); } }
      else if k < 4 { StepSm4Substitute(c, v, i); }
      else if k == 4 { StepSm4Full(c, v, i); }
      else if k == 5 { StepSm4Linear(c, v, i); }
      else { StepSm4Finish(c, v, i); }
    case Answer(_, _) => StepAnswer(c, v, i);
  }
}
