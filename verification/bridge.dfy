/// The host half: Bridge_Socket_Uart's register window in front of the serial device, and the drivers
/// of sm_tlm_uart/sm3.h and sm4.h that run one custom-3 operation through it.

module Bridge {
  import opened Words
  import opened NiceReference
  import opened NiceCore
  import opened NiceProtocol
  import opened Link
  import opened Device
  import opened ReplySafety
  import opened SerialLines
  import UartBaud

  // What a write to a register asks of the coprocessor, in the order the drivers keep.
  ghost predicate Ordered(addr: word, data: word, w: Wait)
  {
    match addr
    case 0x00 => w == Listen([])
    case 0x04 => w.Listen? && |w.got| == 4
    case 0x08 => w.Listen? && |w.got| == 8 && Complete(w.got + BytesOf(data))
    case 0x0c => w.Poll? && BytesOf(data)[3] == 0xff
    case 0x10 => w.Read? && BytesOf(data)[3] == 0x00
    case _ => true
  }

  class SocketUart {
    const board: Board
    const writeBuff: array<byte>
    const readBuff: array<byte>
    var state: word

    ghost predicate Valid()
      reads this, board, board.core
    {
      board.Valid() && writeBuff.Length == 4 && readBuff.Length == 5 && writeBuff != readBuff
    }

    ghost function Now(): Session
      reads board, board.core
    {
      board.Now()
    }

    // In front of the board of uart_top.v, at the host's own bit period.
    constructor OnLines(p: UartBaud.Params, period: nat)
      requires HostRate(p, period)
      ensures Valid() && fresh(board) && fresh(board.core) && fresh(writeBuff) && fresh(readBuff)
      ensures Waits(Listen([]), Now()) && board.wires.Serial?
    {
      board := new Board.OnLines(p, period);
      writeBuff, readBuff := new byte[4], new byte[5];
      state := 0;
    }

    // In front of a board with arbitrary delays.
    constructor ()
      ensures Valid() && fresh(board) && fresh(board.core) && fresh(writeBuff) && fresh(readBuff)
      ensures Waits(Listen([]), Now())
    {
      board := new Board();
      writeBuff, readBuff := new byte[4], new byte[5];
      state := 0;
    }

    // while(1) { nread = read(fd, read_buff, n); if (nread > 0) break; }
    method ReadUntil(n: nat, ghost p: Phase)
      requires Valid() && InPhase(p, Now()) && n == Awaited(p)
      modifies board, board.core, readBuff
      ensures Valid() && board.received == [] && readBuff[n..] == old(readBuff[n..])
      ensures InPhase(p, Now().(received := readBuff[..n])) && Done(p, Now().(received := readBuff[..n]))
      ensures p.Polled? ==> Remaining(board.view) <= old(Remaining(board.view))
    {
      hide InPhase, Coarse, Fine, Remaining, Sees, OnWires;
      var nread: nat := 0;
      while nread == 0
        invariant Valid()
        invariant nread == 0 ==> InPhase(p, Now()) && readBuff[..] == old(readBuff[..])
        invariant p.Polled? ==> Remaining(board.view) <= old(Remaining(board.view))
        invariant nread > 0 ==>
          && Valid() && board.received == [] && readBuff[n..] == old(readBuff[n..])
          && InPhase(p, Now().(received := readBuff[..n])) && Done(p, Now().(received := readBuff[..n]))
        decreases if nread == 0 then 1 else 0, Coarse(p, Now()), Fine(Now())
      {
        var b := board.Receive(n, p);
        nread := |b|;
        if nread > 0 {
          PhaseLength(p, Now().(received := b));
          forall k | 0 <= k < |b| {
            readBuff[k] := b[k];
          }
          assert readBuff[..n] == b;
        }
      }
    }

    method FillWriteBuff(data: word)
      requires writeBuff.Length == 4
      modifies writeBuff
      ensures writeBuff[..] == BytesOf(data)
    {
      writeBuff[0] := (data >> 24) as byte;
      writeBuff[1] := ((data >> 16) & 0xff) as byte;
      writeBuff[2] := ((data >> 8) & 0xff) as byte;
      writeBuff[3] := (data & 0xff) as byte;
    }

    // The three request words: send four bytes, wait for the acknowledgement.
    method WriteRequest(data: word, next: word, ghost got: seq<byte>)
      requires Valid() && |got| in {0, 4, 8} && Waits(Listen(got), Now())
      requires |got| == 8 ==> Complete(got + BytesOf(data))
      modifies this, board, board.core, writeBuff, readBuff
      ensures Valid() && state == next && After(got + BytesOf(data))
    {
      hide InPhase, Waits, Parse, Holding, BytesOf, Sees, OnWires;
      ghost var sent := got + BytesOf(data);
      FillWriteBuff(data);
      WaitsWhateverReceived(Listen(got), Now());
      board.Flush();
      board.SendWord(writeBuff[..], got);
      ReadUntil(1, Ack(sent));
      AckEnds(sent, Now().(received := readBuff[..1]));
      if |sent| < 12 {
        WaitsWhateverReceived(Listen(sent), Now().(received := readBuff[..1]));
      } else {
        WaitsWhateverReceived(Poll(Parse(sent).value), Now().(received := readBuff[..1]));
      }
      state := next;
    }

    // What the coprocessor waits for once it has acknowledged the bytes sent.
    ghost predicate After(sent: seq<byte>)
      reads this, board, board.core
    {
      if |sent| < 12 then Waits(Listen(sent), Now())
      else Complete(sent) && Waits(Poll(Parse(sent).value), Now())
    }

    // Register 0x0c: poll until the coprocessor answers 1.
    method WritePoll(data: word, ghost q: Request)
      requires Valid() && Waits(Poll(q), Now()) && BytesOf(data)[3] == 0xff
      modifies this, board, board.core, writeBuff, readBuff
      ensures Valid() && state == 4 && Waits(Read(q), Now())
    {
      hide InPhase, Waits, Settled, Remaining, Computing, Finished, Sees, OnWires;
      readBuff[0] := 0;
      writeBuff[0] := (data & 0xff) as byte;
      WaitsWhateverReceived(Poll(q), Now());
      board.Flush();
      while readBuff[0] != 1
        invariant Valid() && writeBuff[0] == 0xff && board.received == [] && Waits(Poll(q), Now())
        invariant readBuff[0] == 1 ==> Waits(Read(q), Now())
        decreases if readBuff[0] == 1 then 0 else 1, Remaining(board.view)
      {
        ghost var before := board.SendByte(writeBuff[0], Poll(q));
        ghost var b: byte := if Finished(before.view, q) then 1 else 0;
        ReadUntil(1, Polled(q, b));
        PolledEnds(q, b, Now().(received := readBuff[..1]));
        WaitsWhateverReceived(Poll(q), Now().(received := readBuff[..1]));
        if b == 1 {
          WaitsWhateverReceived(Read(q), Now().(received := readBuff[..1]));
        }
        assert readBuff[0] == readBuff[..1][0] == b;
      }
      state := 4;
    }

    // Register 0x10: the read command, answered by five bytes.
    method WriteRead(data: word, ghost q: Request)
      requires Valid() && Waits(Read(q), Now()) && BytesOf(data)[3] == 0x00
      modifies this, board, board.core, writeBuff, readBuff
      ensures Valid() && state == 5 && Waits(Listen([]), Now()) && readBuff[..] == Reply(q)
    {
      assert (data & 0xff) as byte == 0x00;
      hide InPhase, Waits, Settled, Reply, BytesOf, Sees, OnWires;
      writeBuff[0] := (data & 0xff) as byte;
      WaitsWhateverReceived(Read(q), Now());
      board.Flush();
      ghost var before := board.SendByte(writeBuff[0], Read(q));
      ReadUntil(5, Fetch(q));
      assert readBuff[..5] == readBuff[..];
      FetchEnds(q, Now().(received := readBuff[..5]));
      WaitsWhateverReceived(Listen([]), Now().(received := readBuff[..5]));
      state := 5;
    }

    // SM4_write. An address outside the window is ignored.
    method SM4Write(addr: word, data: word, ghost w: Wait)
      requires Valid() && Ordered(addr, data, w) && (addr in REQUEST + {0x0c, 0x10} ==> Waits(w, Now()))
      modifies this, board, board.core, writeBuff, readBuff
      ensures Valid()
      ensures addr in REQUEST ==> After(w.got + BytesOf(data))
      ensures addr == 0x0c ==> Waits(Read(w.q), Now())
      ensures addr == 0x10 ==> Waits(Listen([]), Now()) && readBuff[..] == Reply(w.q)
      ensures state == StateAfter(addr, old(state))
      ensures addr !in REQUEST + {0x0c, 0x10} ==> unchanged(this, board, board.core, writeBuff, readBuff)
    {
      hide Waits, Reply, Complete, BytesOf;
      if addr == 0x00 {
        WriteRequest(data, 1, w.got);
      } else if addr == 0x04 {
        WriteRequest(data, 2, w.got);
      } else if addr == 0x08 {
        WriteRequest(data, 3, w.got);
      } else if addr == 0x0c {
        WritePoll(data, w.q);
      } else if addr == 0x10 {
        WriteRead(data, w.q);
      }
    }

    // SM4_read. *data keeps its value at any other address.
    method SM4Read(addr: word, data: word) returns (out: word)
      requires Valid()
      ensures addr == 0x18 ==> out == state
      ensures addr == 0x14 ==> out == WordOf(readBuff[..4])
      ensures addr != 0x18 && addr != 0x14 ==> out == data
    {
      if addr == 0x18 {
        out := state;
      } else if addr == 0x14 {
        JoinIsSum(readBuff[0], readBuff[1], readBuff[2], readBuff[3]);
        out := (((readBuff[0] as word) << 24) & 0xff000000) + (((readBuff[1] as word) << 16) & 0x00ff0000)
               + (((readBuff[2] as word) << 8) & 0x0000ff00) + ((readBuff[3] as word) & 0x000000ff);
      } else {
        out := data;
      }
    }
  }

  // The registers that take the three words of a request.
  const REQUEST: set<word> := {0x00, 0x04, 0x08}

  // addr_state after a write.
  function StateAfter(addr: word, before: word): word
  {
    match addr
    case 0x00 => 1
    case 0x04 => 2
    case 0x08 => 3
    case 0x0c => 4
    case 0x10 => 5
    case _ => before
  }

  lemma WaitsWhateverReceived(w: Wait, s: Session)
    requires Waits(w, s)
    ensures forall r: seq<byte> :: Waits(w, s.(received := r))
  {
  }

  /// sm3.h and sm4.h.

  const BASE: word := 0x50004000

  // writeReg32(addr, data) followed by while(rdata != flag) rdata = readReg32(addr_state).
  method WriteAndWait(uart: SocketUart, addr: word, data: word, flag: word, garbage: word, ghost w: Wait)
    returns (rdata: word)
    requires uart.Valid() && Ordered(addr, data, w) && Waits(w, uart.Now())
    requires addr in REQUEST + {0x0c, 0x10} && flag == StateAfter(addr, 0)
    modifies uart, uart.board, uart.board.core, uart.writeBuff, uart.readBuff
    ensures uart.Valid() && rdata == flag
    ensures addr in REQUEST ==> uart.After(w.got + BytesOf(data))
    ensures addr == 0x0c ==> Waits(Read(w.q), uart.Now())
    ensures addr == 0x10 ==> Waits(Listen([]), uart.Now()) && uart.readBuff[..] == Reply(w.q)
  {
    hide Waits, Reply, Complete, BytesOf, Parse, Sees;
    uart.SM4Write(addr, data, w);
    rdata := WaitForState(uart, flag, garbage);
  }

  method WaitForState(uart: SocketUart, flag: word, garbage: word) returns (rdata: word)
    requires uart.Valid() && uart.state == flag
    ensures rdata == flag
  {
    rdata := garbage;
    while rdata != flag
      decreases if rdata == flag then 0 else 1
    {
      rdata := uart.SM4Read(0x50004018 - BASE, rdata);
    }
  }

  // The body that the four drivers repeat with their own opcode and operands; rdata is
  // the uninitialised local that the first loop condition reads.
  method Custom3(uart: SocketUart, rs1: word, rs2: word, garbage: word, op: Op) returns (y: word)
    requires uart.Valid() && Waits(Listen([]), uart.Now())
    modifies uart, uart.board, uart.board.core, uart.writeBuff, uart.readBuff
    ensures uart.Valid() && Waits(Listen([]), uart.Now())
    ensures y == Reference(op, rs1, rs2)
  {
    hide Waits, Reply, Complete, BytesOf, Reference, Parse, WordOf, Sees;
    ghost var q := Request(op, rs1, rs2);
    var code := OpCode(op);
    ghost var c0, c1 := BytesOf(code), BytesOf(code) + BytesOf(rs1);
    CodeNames(q, code, rs1, rs2);
    assert [] + c0 == c0;
    var rdata := WriteAndWait(uart, 0x50004000 - BASE, code, 1, garbage, Listen([]));
    rdata := WriteAndWait(uart, 0x50004004 - BASE, rs1, 2, rdata, Listen(c0));
    rdata := WriteAndWait(uart, 0x50004008 - BASE, rs2, 3, rdata, Listen(c1));
    rdata := WriteAndWait(uart, 0x5000400c - BASE, 0x000000ff, 4, rdata, Poll(q));
    rdata := WriteAndWait(uart, 0x50004010 - BASE, 0x00000000, 5, rdata, Read(q));
    CycleByteAdvances(q);
    y := uart.SM4Read(0x50004014 - BASE, 0);
  }

  /// The four drivers.

  method Custom3Sm3p0(uart: SocketUart, x: word, garbage: word) returns (y: word)
    requires uart.Valid() && Waits(Listen([]), uart.Now())
    modifies uart, uart.board, uart.board.core, uart.writeBuff, uart.readBuff
    ensures uart.Valid() && Waits(Listen([]), uart.Now()) && y == SM3P0(x)
  {
    hide Waits, Sees, SM3P0, SM3P1, SM4Ks, SM4Ed;
    y := Custom3(uart, x, 0x00000000, garbage, P0);
  }

  method Custom3Sm3p1(uart: SocketUart, x: word, garbage: word) returns (y: word)
    requires uart.Valid() && Waits(Listen([]), uart.Now())
    modifies uart, uart.board, uart.board.core, uart.writeBuff, uart.readBuff
    ensures uart.Valid() && Waits(Listen([]), uart.Now()) && y == SM3P1(x)
  {
    hide Waits, Sees, SM3P0, SM3P1, SM4Ks, SM4Ed;
    y := Custom3(uart, x, 0x00000000, garbage, P1);
  }

  method Custom3Sm4ks(uart: SocketUart, k: word, tk: word, garbage: word) returns (y: word)
    requires uart.Valid() && Waits(Listen([]), uart.Now())
    modifies uart, uart.board, uart.board.core, uart.writeBuff, uart.readBuff
    ensures uart.Valid() && Waits(Listen([]), uart.Now()) && y == SM4Ks(k, tk)
  {
    hide Waits, Sees, SM3P0, SM3P1, SM4Ks, SM4Ed;
    y := Custom3(uart, k, tk, garbage, Ks);
  }

  method Custom3Sm4ed(uart: SocketUart, x: word, tx: word, garbage: word) returns (y: word)
    requires uart.Valid() && Waits(Listen([]), uart.Now())
    modifies uart, uart.board, uart.board.core, uart.writeBuff, uart.readBuff
    ensures uart.Valid() && Waits(Listen([]), uart.Now()) && y == SM4Ed(x, tx)
  {
    hide Waits, Sees, SM3P0, SM3P1, SM4Ks, SM4Ed;
    y := Custom3(uart, x, tx, garbage, Ed);
  }

  // Any sequence of driver calls, on arbitrary operands: every call returns, with the value of the software
  // reference, and after a moment's silence the coprocessor is collecting the first byte of a request again.
  method RunCalls(uart: SocketUart, calls: seq<Request>) returns (results: seq<word>)
    requires uart.Valid() && Waits(Listen([]), uart.Now())
    modifies uart, uart.board, uart.board.core, uart.writeBuff, uart.readBuff
    ensures uart.Valid() && Settled(Listen([]), uart.Now())
    ensures |results| == |calls|
    ensures forall k :: 0 <= k < |calls| ==> results[k] == Reference(calls[k].op, calls[k].a, calls[k].b)
  {
    hide Waits, Settled, Sees, SM3P0, SM3P1, SM4Ks, SM4Ed;
    results := [];
    while |results| < |calls|
      invariant |results| <= |calls|
      invariant uart.Valid() && Waits(Listen([]), uart.Now())
      invariant forall k :: 0 <= k < |results| ==> results[k] == Reference(calls[k].op, calls[k].a, calls[k].b)
    {
      var c, garbage, y := calls[|results|], *, *;
      match c.op {
        case P0 => y := Custom3Sm3p0(uart, c.a, garbage);
        case P1 => y := Custom3Sm3p1(uart, c.a, garbage);
        case Ks => y := Custom3Sm4ks(uart, c.a, c.b, garbage);
        case Ed => y := Custom3Sm4ed(uart, c.a, c.b, garbage);
      }
      results := results + [y];
    }
    uart.board.Gap(Listen([]));
  }

  // The same over the whole board of uart_top.v on its two serial lines, for a host of any bit period within the
  // receiver's tolerance and any idle time before each of its frames: bytes go through uart_rx, nice_core and
  // uart_tx, and back through a receiver that samples o_uart_tx.
  method OnSerialLines(p: UartBaud.Params, period: nat, calls: seq<Request>) returns (results: seq<word>)
    requires HostRate(p, period)
    ensures |results| == |calls|
    ensures forall k :: 0 <= k < |calls| ==> results[k] == Reference(calls[k].op, calls[k].a, calls[k].b)
  {
    hide Waits, Settled, Reference, HostRate;
    var uart := new SocketUart.OnLines(p, period);
    results := RunCalls(uart, calls);
  }

  // And over a transmitter with arbitrary finite delays.
  method WithAnyDelays(calls: seq<Request>) returns (results: seq<word>)
    ensures |results| == |calls|
    ensures forall k :: 0 <= k < |calls| ==> results[k] == Reference(calls[k].op, calls[k].a, calls[k].b)
  {
    hide Waits, Settled, Reference;
    var uart := new SocketUart();
    results := RunCalls(uart, calls);
  }

  // The first word a driver writes: its opcode in the upper half.
  function OpCode(op: Op): word
  {
    match op
    case P0 => 0x7b710000
    case P1 => 0x7b720000
    case Ks => 0x7b730000
    case Ed => 0x7b740000
  }

  // The func7 field of the custom-3 instruction that names the operation.
  function Func7(op: Op): byte
  {
    match op
    case P0 => 1
    case P1 => 2
    case Ks => 3
    case Ed => 4
  }

  // The drivers send the opcode of custom-3 and func3 = 7 with func7, and the coprocessor takes that for the
  // operation and nothing else.
  lemma OpCodeBytes(op: Op)
    ensures BytesOf(OpCode(op)) == [0x7b, 0x70 + Func7(op), 0, 0]
    ensures forall hi, lo :: OpOf(hi, lo) == Some(op) <==> hi == 0x7b && lo == 0x70 + Func7(op)
  {
    assert BytesOf(OpCode(op))[0] == 0x7b && BytesOf(OpCode(op))[1] == 0x70 + Func7(op);
    assert BytesOf(OpCode(op))[2] == 0 && BytesOf(OpCode(op))[3] == 0;
  }

  lemma CodeNames(q: Request, code: word, rs1: word, rs2: word)
    requires code == OpCode(q.op) && rs1 == q.a && rs2 == q.b
    ensures Complete(BytesOf(code) + BytesOf(rs1) + BytesOf(rs2))
    ensures Parse(BytesOf(code) + BytesOf(rs1) + BytesOf(rs2)).value == q
    ensures BytesOf(0x000000ff)[3] == 0xff && BytesOf(0x00000000)[3] == 0x00
  {
    OpCodeBytes(q.op);
    WordOfBytes(rs1);
    WordOfBytes(rs2);
    assert BytesOf(0x000000ff)[3] == 0xff;
    assert BytesOf(0x00000000)[3] == 0x00;
    hide BytesOf, WordOf;
    var t := BytesOf(code) + BytesOf(rs1) + BytesOf(rs2);
    assert t[4..8] == BytesOf(rs1) && t[8..12] == BytesOf(rs2);
  }
}
