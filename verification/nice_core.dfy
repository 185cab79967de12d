/// nice_core.v: the coprocessor's single clocked process.

module NiceCore {
  import opened Words
  import opened NiceReference

  datatype State =
    | Idle | RecvInst
    | Sm3Step1 | Sm3Step2 | Sm3Step3
    | Sm4Step1 | Sm4Step2 | Sm4Step3
    | TxData | TxOne

  type bit3 = x: int | 0 <= x < 8
  type bit4 = x: int | 0 <= x < 16

  // The registers. The 80-bit shift register nice_req_inst is held as its ten bytes, oldest first.
  datatype Sm3Regs = Sm3Regs(p0: bool, p1: bool, rs1: word, temp1: word, temp2: word)
  datatype Sm4Regs = Sm4Regs(ks: bool, ed: bool, rs1: word, rs2: word, sboxOut: word, linear: word, sel: bit3)
  datatype OutRegs = OutRegs(data: byte, valid: bool, count: bool)
  datatype Regs = Regs(
    state: State, inst: seq<byte>, rxCnt: bit4, txCnt: bit3, cycles: byte, done: bool, result: word,
    sm3: Sm3Regs, sm4: Sm4Regs, out: OutRegs)

  // What the process samples at a clock edge: i_data_rx, i_data_valid, i_state_0, and the wire
  // sbox_out that the S-box instance drives.
  datatype Input = Input(rx: byte, rxValid: bool, busy: bool, sbox: byte)

  ghost predicate Valid(c: Regs) { |c.inst| == 10 }

  const RESET := Regs(
    Idle, [0, 0, 0, 0, 0, 0, 0, 0, 0, 0], 0, 0, 0, false, 0,
    Sm3Regs(false, false, 0, 0, 0), Sm4Regs(false, false, 0, 0, 0, 0, 0), OutRegs(0, false, false))

  // The four opcodes 16'h7b71 .. 16'h7b74, high byte first.
  function OpOf(hi: byte, lo: byte): Option<Op>
  {
    if hi != 0x7b then None
    else if lo == 0x71 then Some(P0)
    else if lo == 0x72 then Some(P1)
    else if lo == 0x73 then Some(Ks)
    else if lo == 0x74 then Some(Ed)
    else None
  }

  predicate Calculating(s: State)
  {
    s in {Sm3Step1, Sm3Step2, Sm3Step3, Sm4Step1, Sm4Step2, Sm4Step3}
  }

  // The S-box input wire: byte sbox_sel of sm4_rs2, counted from the least significant one.
  function SboxIn(m: Sm4Regs): byte
  {
    if m.sel < 4 then BytesOf(m.rs2)[3 - m.sel] else 0
  }

  // The decoded opcode, in the one state that looks at it.
  function Issued(c: Regs): Option<Op>
    requires Valid(c)
  {
    if c.state == RecvInst && c.rxCnt == 12 then OpOf(c.inst[0], c.inst[1]) else None
  }

  predicate Receives(c: Regs, i: Input) { c.state == Idle && i.rxValid && c.rxCnt < 12 }

  predicate Free(c: Regs, i: Input) { !i.busy && !c.out.count }

  /// One function per register (group): its value after the edge.

  function NextState(c: Regs, i: Input): State
    requires Valid(c)
  {
    var read := i.rxValid && i.rx == 0x00 && c.done;
    match c.state
    case Idle =>
      if Receives(c, i) then (if (c.rxCnt + 1) % 4 == 0 then TxOne else Idle)
      else if c.rxCnt == 12 then RecvInst else Idle
    case RecvInst =>
      if c.rxCnt != 12 then Idle
      else (match Issued(c)
            case None => RecvInst
            case Some(o) => if o == P0 || o == P1 then Sm3Step1 else Sm4Step1)
    case Sm3Step1 => Sm3Step2
    case Sm3Step2 => Sm3Step3
    case Sm3Step3 => if read then TxData else Sm3Step3
    case Sm4Step1 => if c.sm4.sel == 4 then Sm4Step2 else Sm4Step1
    case Sm4Step2 => Sm4Step3
    case Sm4Step3 => if read then TxData else Sm4Step3
    case TxData => if Free(c, i) && c.txCnt == 5 then Idle else TxData
    case TxOne => if i.busy then Idle else TxOne
  }

  function NextInst(c: Regs, i: Input): (s: seq<byte>)
    requires Valid(c)
    ensures |s| == 10
  {
    if Receives(c, i) && c.rxCnt != 2 && c.rxCnt != 3 then c.inst[1..] + [i.rx] else c.inst
  }

  function NextRxCnt(c: Regs, i: Input): bit4
  {
    if Receives(c, i) then c.rxCnt + 1
    else if c.state == RecvInst && c.rxCnt == 12 then 0
    else c.rxCnt
  }

  function NextTxCnt(c: Regs, i: Input): bit3
  {
    if c.state != TxData || !Free(c, i) then c.txCnt
    else if c.txCnt == 5 then 0
    else (c.txCnt + 1) % 8
  }

  function NextCycles(c: Regs, i: Input): byte
  {
    if Calculating(c.state) && !c.done then c.cycles + 1
    else if c.state == TxData && Free(c, i) && c.txCnt == 5 then 0
    else c.cycles
  }

  function NextDone(c: Regs): bool
  {
    if c.state == Sm3Step3 || c.state == Sm4Step3 then true
    else if c.state == TxData then false
    else c.done
  }

  function NextResult(c: Regs): word
  {
    if c.state == Sm3Step3 then Xor3(c.sm3.rs1, c.sm3.temp1, c.sm3.temp2)
    else if c.state == Sm4Step3 then Xor(c.sm4.linear, c.sm4.rs1)
    else c.result
  }

  function NextSm3(c: Regs): Sm3Regs
    requires Valid(c)
  {
    var m := c.sm3;
    match c.state
    case RecvInst =>
      (match Issued(c)
       case Some(o) => if o == P0 || o == P1 then m.(rs1 := WordOf(c.inst[2..6]), p0 := o == P0, p1 := o == P1) else m
       case None => m)
    case Sm3Step1 => m.(temp1 := if m.p0 then Rotl(m.rs1, 9) else if m.p1 then Rotl(m.rs1, 15) else 0)
    case Sm3Step2 => m.(temp2 := if m.p0 then Rotl(m.rs1, 17) else if m.p1 then Rotl(m.rs1, 23) else 0)
    case _ => m
  }

  function NextSm4(c: Regs, i: Input): Sm4Regs
    requires Valid(c)
  {
    var m := c.sm4;
    match c.state
    case RecvInst =>
      (match Issued(c)
       case Some(o) =>
         if o == Ks || o == Ed
         then m.(rs1 := WordOf(c.inst[2..6]), rs2 := WordOf(c.inst[6..10]), ks := o == Ks, ed := o == Ed)
         else m
       case None => m)
    case Sm4Step1 =>
      if m.sel == 4 then m.(sel := 0)
      else m.(sboxOut := ShiftIn(i.sbox, m.sboxOut), sel := (m.sel + 1) % 8)
    case Sm4Step2 =>
      m.(linear := if m.ks then SM4Linear(m.sboxOut, 0) else if m.ed then SM4Linear(m.sboxOut, 1) else 0)
    case _ => m
  }

  // {sbox_out, sm4_sbox_out[31:8]}
  function ShiftIn(s: byte, w: word): word { ((s as word) << 24) | (w >> 8) }

  // The byte for which o_data_valid is raised at this edge, if any.
  function Raised(c: Regs, i: Input): Option<byte>
  {
    if !Free(c, i) then None
    else match c.state
      case TxOne => Some(1)
      case TxData => if c.txCnt == 5 then None else Some(ReplyMux(c))
      case Idle => None
      case _ => if i.rxValid && i.rx == 0xff then Some(if c.done then 1 else 0) else None
  }

  // The byte TX_DATA puts out; a counter value past the reply leaves the old byte in place.
  function ReplyMux(c: Regs): byte
  {
    if c.txCnt < 4 then BytesOf(c.result)[c.txCnt]
    else if c.txCnt == 4 then c.cycles
    else c.out.data
  }

  function NextOut(c: Regs, i: Input): OutRegs
  {
    match Raised(c, i)
    case Some(b) => OutRegs(b, true, true)
    case None =>
      if i.busy then OutRegs(c.out.data, false, false)
      else if c.state == TxData && Free(c, i) then OutRegs(c.out.data, false, c.out.count)
      else c.out
  }

  // All registers after the edge, as a function of the registers and inputs before it.
  function Next(c: Regs, i: Input): (n: Regs)
    requires Valid(c)
    ensures Valid(n)
  {
    Regs(NextState(c, i), NextInst(c, i), NextRxCnt(c, i), NextTxCnt(c, i), NextCycles(c, i),
         NextDone(c), NextResult(c), NextSm3(c), NextSm4(c, i), NextOut(c, i))
  }

  /// The process as written: every right-hand side reads the registers from before the edge (regs),
  /// the statements run in source order on their next values, a later assignment to the same register
  /// wins, and all registers change together.
  class Core {
    var regs: Regs

    // nice_rst_n low.
    constructor ()
      ensures regs == RESET
    {
      regs := RESET;
    }

    // One posedge of nice_clk.
    method Posedge(i: Input)
      requires Valid(regs)
      modifies this
      ensures regs == Next(old(regs), i) && Valid(regs)
    {
      hide Next;
      var c := regs;
      var n := Common(c, i);
      match c.state {
        case Idle => n := CaseIdle(c, n, i);
        case RecvInst => n := CaseRecvInst(c, n, i);
        case Sm3Step1 | Sm3Step2 | Sm3Step3 => n := CaseSm3(c, n, i);
        case Sm4Step1 | Sm4Step2 | Sm4Step3 => n := CaseSm4(c, n, i);
        case TxData => n := CaseTxData(c, n, i);
        case TxOne => n := CaseTxOne(c, n, i);
      }
      regs := n;
    }

    // The next values after the three statements ahead of the case.

    static ghost function AheadCycles(c: Regs): byte
    {
      if Calculating(c.state) && !c.done then c.cycles + 1 else c.cycles
    }

    static ghost function AheadOut(c: Regs, i: Input): OutRegs
    {
      if Free(c, i) && i.rxValid && i.rx == 0xff && c.state !in {Idle, TxData, TxOne} then
        OutRegs(if c.done then 1 else 0, true, true)
      else if i.busy then OutRegs(c.out.data, false, false)
      else c.out
    }

    static ghost function AheadState(c: Regs, i: Input): State
    {
      if i.rxValid && i.rx == 0x00 && c.state in {Sm3Step3, Sm4Step3} && c.done then TxData else c.state
    }

    static ghost function AheadOfCase(c: Regs, i: Input): Regs
    {
      c.(cycles := AheadCycles(c), out := AheadOut(c, i), state := AheadState(c, i))
    }

    static method Common(c: Regs, i: Input) returns (n: Regs)
      ensures n == AheadOfCase(c, i)
    {
      var cycles, out, state := c.cycles, c.out, c.state;
      if Calculating(c.state) && !c.done {
        cycles := c.cycles + 1;
      }
      assert cycles == AheadCycles(c);
      if i.rxValid && i.rx == 0xff && c.state != Idle && c.state != TxData && c.state != TxOne
         && !i.busy && !c.out.count {
        out := OutRegs(if c.done then 1 else 0, true, true);
      } else if i.busy {
        out := OutRegs(out.data, false, false);
      }
      assert out == AheadOut(c, i);
      if i.rxValid && i.rx == 0x00 && (c.state == Sm3Step3 || c.state == Sm4Step3) && c.done {
        state := TxData;
      }
      assert state == AheadState(c, i);
      hide AheadCycles, AheadOut, AheadState;
      n := c.(cycles := cycles, out := out, state := state);
    }

    // In the states that answer polls, nothing after those statements touches the output registers.
    static lemma PollStates(c: Regs, i: Input)
      requires c.state !in {Idle, TxData, TxOne}
      ensures AheadOut(c, i) == NextOut(c, i) && AheadCycles(c) == NextCycles(c, i)
    {
    }

    static method CaseIdle(c: Regs, p: Regs, i: Input) returns (n: Regs)
      requires c.state == Idle && Valid(c) && p == AheadOfCase(c, i)
      ensures n == Next(c, i)
    {
      hide WordOf, Rotl, SM4Linear, Xor, Xor3, ShiftIn;
      var inst, rxCnt, state := c.inst, c.rxCnt, p.state;
      if i.rxValid && c.rxCnt < 12 {
        if c.rxCnt != 2 && c.rxCnt != 3 {
          inst := c.inst[1..] + [i.rx];
        }
        state := if (c.rxCnt + 1) % 4 == 0 then TxOne else Idle;
        rxCnt := c.rxCnt + 1;
      } else if c.rxCnt == 12 {
        state := RecvInst;
      } else {
        state := Idle;
      }
      n := p.(state := state, inst := inst, rxCnt := rxCnt);
    }

    static method CaseRecvInst(c: Regs, p: Regs, i: Input) returns (n: Regs)
      requires c.state == RecvInst && Valid(c) && p == AheadOfCase(c, i)
      ensures n == Next(c, i)
    {
      hide WordOf, Rotl, SM4Linear, Xor, Xor3, ShiftIn;
      PollStates(c, i);
      hide AheadOut, NextOut, AheadCycles, NextCycles, Raised;
      n := p;
      if c.rxCnt == 12 {
        var hi, lo := c.inst[0], c.inst[1];
        if hi == 0x7b && (lo == 0x71 || lo == 0x72) {
          n := n.(sm3 := c.sm3.(rs1 := WordOf(c.inst[2..6]), p0 := lo == 0x71, p1 := lo == 0x72),
                  state := Sm3Step1);
        } else if hi == 0x7b && (lo == 0x73 || lo == 0x74) {
          n := n.(sm4 := c.sm4.(rs1 := WordOf(c.inst[2..6]), rs2 := WordOf(c.inst[6..10]),
                                   ks := lo == 0x73, ed := lo == 0x74),
                  state := Sm4Step1);
        }
        n := n.(rxCnt := 0);
      } else {
        n := n.(state := Idle);
      }
    }

    static method CaseSm3(c: Regs, p: Regs, i: Input) returns (n: Regs)
      requires c.state in {Sm3Step1, Sm3Step2, Sm3Step3} && Valid(c) && p == AheadOfCase(c, i)
      ensures n == Next(c, i)
    {
      hide WordOf, Rotl, SM4Linear, Xor, Xor3, ShiftIn;
      PollStates(c, i);
      hide AheadOut, NextOut, AheadCycles, NextCycles, Raised;
      var m := c.sm3;
      if c.state == Sm3Step1 {
        m := m.(temp1 := if m.p0 then Rotl(m.rs1, 9) else if m.p1 then Rotl(m.rs1, 15) else 0);
        n := p.(sm3 := m, state := Sm3Step2);
      } else if c.state == Sm3Step2 {
        m := m.(temp2 := if m.p0 then Rotl(m.rs1, 17) else if m.p1 then Rotl(m.rs1, 23) else 0);
        n := p.(sm3 := m, state := Sm3Step3);
      } else {
        n := p.(result := Xor3(m.rs1, m.temp1, m.temp2), done := true);
      }
    }

    static method CaseSm4(c: Regs, p: Regs, i: Input) returns (n: Regs)
      requires c.state in {Sm4Step1, Sm4Step2, Sm4Step3} && Valid(c) && p == AheadOfCase(c, i)
      ensures n == Next(c, i)
    {
      hide WordOf, Rotl, SM4Linear, Xor, Xor3, ShiftIn;
      PollStates(c, i);
      hide AheadOut, NextOut, AheadCycles, NextCycles, Raised;
      var m := c.sm4;
      if c.state == Sm4Step1 {
        if m.sel == 4 {
          n := p.(sm4 := m.(sel := 0), state := Sm4Step2);
        } else {
          n := p.(sm4 := m.(sboxOut := ShiftIn(i.sbox, m.sboxOut), sel := (m.sel + 1) % 8));
        }
      } else if c.state == Sm4Step2 {
        m := m.(linear := if m.ks then SM4Linear(m.sboxOut, 0) else if m.ed then SM4Linear(m.sboxOut, 1) else 0);
        n := p.(sm4 := m, state := Sm4Step3);
      } else {
        n := p.(result := Xor(m.linear, m.rs1), done := true);
      }
    }

    // The inner case on tx_byte_cnt.
    static method TxByte(c: Regs) returns (data: byte)
      ensures data == ReplyMux(c)
    {
      data := c.out.data;
      match c.txCnt {
        case 0 => data := (c.result >> 24) as byte;
        case 1 => data := ((c.result >> 16) & 0xff) as byte;
        case 2 => data := ((c.result >> 8) & 0xff) as byte;
        case 3 => data := (c.result & 0xff) as byte;
        case 4 => data := c.cycles;
        case _ =>
      }
    }

    static method CaseTxData(c: Regs, p: Regs, i: Input) returns (n: Regs)
      requires c.state == TxData && Valid(c) && p == AheadOfCase(c, i)
      ensures n == Next(c, i)
    {
      hide WordOf, Rotl, SM4Linear, Xor, Xor3, ShiftIn, ReplyMux;
      n := p.(done := false);
      if !i.busy && !c.out.count {
        if c.txCnt == 5 {
          n := n.(out := n.out.(valid := false), txCnt := 0, cycles := 0, state := Idle);
        } else {
          var data := TxByte(c);
          n := n.(out := OutRegs(data, true, true), txCnt := (c.txCnt + 1) % 8, state := TxData);
        }
      } else if i.busy {
        n := n.(out := n.out.(valid := false, count := false));
      }
    }

    static method CaseTxOne(c: Regs, p: Regs, i: Input) returns (n: Regs)
      requires c.state == TxOne && Valid(c) && p == AheadOfCase(c, i)
      ensures n == Next(c, i)
    {
      hide WordOf, Rotl, SM4Linear, Xor, Xor3, ShiftIn;
      n := p;
      if !i.busy && !c.out.count {
        n := n.(out := OutRegs(1, true, true));
      } else if i.busy {
        n := n.(out := n.out.(valid := false, count := false), state := Idle);
      }
    }
  }
}
