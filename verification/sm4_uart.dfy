/// sm4_nice of sm_tlm_uart/sm4.h: the loops of the cipher with every round computed by the coprocessor, through the
/// drivers and the serial link.

module Sm4Uart {
  import opened Words
  import opened NiceReference
  import opened Mixing
  import opened Sm4
  import opened Bridge
  import Link
  import SerialLines
  import UartBaud

  // The drivers may be called.
  ghost predicate Ready(uart: SocketUart)
    reads uart, uart.board, uart.board.core
  {
    uart.Valid() && Link.Waits(Link.Listen([]), uart.Now())
  }

  method KeyLoop(uart: SocketUart, ck: seq<word>, k: array<word>, rk: array<word>)
    requires Ready(uart) && |ck| == 32 && k.Length == 36 && rk.Length == 32 && k != rk
    modifies uart, uart.board, uart.board.core, uart.writeBuff, uart.readBuff, k, rk
    ensures Ready(uart) && k[..4] == old(k[..4])
    ensures Chain(KeyT, k[..], ck)
    ensures forall i :: 0 <= i < 32 ==> rk[i] == k[i + 4]
  {
    hide KeyT, Xor, Sum, Chain, SM4Ks, Link.Waits, SocketUart.Valid;
    var i := 0;
    ChainStarts(KeyT, k[..4]);
    while i < 32
      invariant 0 <= i <= 32 && Ready(uart) && k[..4] == old(k[..4])
      invariant Chain(KeyT, k[..i + 4], ck[..i])
      invariant forall j :: 0 <= j < i ==> rk[j] == k[j + 4]
    {
      ghost var before := k[..i + 4];
      var garbage := *;
      var temp := Sum(k[i + 1], k[i + 2], k[i + 3], ck[i]);
      var next := Custom3Sm4ks(uart, k[i], temp, garbage);
      KsIsFeistel(k[i], temp);
      ChainGrows(KeyT, before, ck[..i], ck[i], next);
      k[i + 4] := next;
      assert k[..i + 5] == before + [next] && ck[..i + 1] == ck[..i] + [ck[i]];
      assert k[..4] == before[..4];
      rk[i] := k[i + 4];
      i := i + 1;
    }
    assert k[..36] == k[..] && ck[..32] == ck;
  }

  method EncryptLoop(uart: SocketUart, x: array<word>, rk: array<word>)
    requires Ready(uart) && x.Length == 36 && rk.Length == 32 && x != rk
    modifies uart, uart.board, uart.board.core, uart.writeBuff, uart.readBuff, x
    ensures Ready(uart) && x[..4] == old(x[..4])
    ensures Chain(DataT, x[..], rk[..])
  {
    hide DataT, Xor, Sum, Chain, SM4Ed, Link.Waits, SocketUart.Valid;
    var i := 0;
    ChainStarts(DataT, x[..4]);
    while i < 32
      invariant 0 <= i <= 32 && Ready(uart) && x[..4] == old(x[..4])
      invariant Chain(DataT, x[..i + 4], rk[..i])
    {
      ghost var before := x[..i + 4];
      var garbage := *;
      var temp := Sum(x[i + 1], x[i + 2], x[i + 3], rk[i]);
      var next := Custom3Sm4ed(uart, x[i], temp, garbage);
      EdIsFeistel(x[i], temp);
      ChainGrows(DataT, before, rk[..i], rk[i], next);
      x[i + 4] := next;
      assert x[..i + 5] == before + [next] && rk[..i + 1] == rk[..i] + [rk[i]];
      assert x[..4] == before[..4];
      i := i + 1;
    }
    assert x[..36] == x[..] && rk[..32] == rk[..];
  }

  method DecryptLoop(uart: SocketUart, y: array<word>, rk: array<word>)
    requires Ready(uart) && y.Length == 36 && rk.Length == 32 && y != rk
    modifies uart, uart.board, uart.board.core, uart.writeBuff, uart.readBuff, y
    ensures Ready(uart) && y[..4] == old(y[..4])
    ensures Chain(DataT, y[..], Backwards(rk[..]))
  {
    hide DataT, Xor, Sum, Chain, SM4Ed, Backwards, Link.Waits, SocketUart.Valid;
    var i := 0;
    ghost var ks := Backwards(rk[..]);
    ChainStarts(DataT, y[..4]);
    while i < 32
      invariant 0 <= i <= 32 && Ready(uart) && y[..4] == old(y[..4])
      invariant Chain(DataT, y[..i + 4], ks[..i])
    {
      ghost var before := y[..i + 4];
      var garbage := *;
      BackwardsAt(rk[..], i);
      var temp := Sum(y[i + 1], y[i + 2], y[i + 3], rk[31 - i]);
      var next := Custom3Sm4ed(uart, y[i], temp, garbage);
      EdIsFeistel(y[i], temp);
      ChainGrows(DataT, before, ks[..i], ks[i], next);
      y[i + 4] := next;
      assert y[..i + 5] == before + [next] && ks[..i + 1] == ks[..i] + [ks[i]];
      assert y[..4] == before[..4];
      i := i + 1;
    }
    assert y[..36] == y[..] && ks[..32] == ks;
  }

  method ExpandKey(uart: SocketUart, key: array<word>) returns (rk: array<word>)
    requires Ready(uart) && key.Length == 4
    modifies uart, uart.board, uart.board.core, uart.writeBuff, uart.readBuff
    ensures Ready(uart) && fresh(rk) && rk[..] == RoundKeys(Window(old(key[..]), 0))
  {
    hide KeyT, Xor, Chain, RoundKeys, Link.Waits, SocketUart.Valid;
    var k := new word[36](i => 0);
    rk := new word[32](i => 0);
    k[0], k[1], k[2], k[3] := Xor(key[0], FK[0]), Xor(key[1], FK[1]), Xor(key[2], FK[2]), Xor(key[3], FK[3]);
    ghost var k0 := k[..4];
    KeyLoop(uart, CK, k, rk);
    assert Window(k[..], 0) == Window(k0, 0) == Masked(Window(old(key[..]), 0));
    KeysOfChain(Window(old(key[..]), 0), k[..], rk[..]);
  }

  method EncryptBlock(uart: SocketUart, cipher: array<word>, rk: array<word>) returns (x: array<word>)
    requires Ready(uart) && cipher.Length == 4 && rk.Length == 32
    modifies uart, uart.board, uart.board.core, uart.writeBuff, uart.readBuff
    ensures Ready(uart) && fresh(x) && x.Length == 36 && Chain(DataT, x[..], rk[..])
    ensures Window(x[..], 0) == Window(cipher[..], 0)
    ensures Flip(Window(x[..], 32)) == Encrypt(DataT, rk[..], Window(cipher[..], 0))
  {
    hide DataT, Chain, Rounds, Link.Waits, SocketUart.Valid;
    x := new word[36](i => 0);
    x[0], x[1], x[2], x[3] := cipher[0], cipher[1], cipher[2], cipher[3];
    ghost var x0 := x[..4];
    EncryptLoop(uart, x, rk);
    assert Window(x[..], 0) == Window(x0, 0) == Window(cipher[..], 0);
    ChainIsRounds(DataT, x[..], rk[..], 32);
    assert rk[..][..32] == rk[..];
  }

  method DecryptBlock(uart: SocketUart, x: array<word>, rk: array<word>) returns (y: array<word>)
    requires Ready(uart) && x.Length == 36 && rk.Length == 32
    modifies uart, uart.board, uart.board.core, uart.writeBuff, uart.readBuff
    ensures Ready(uart) && fresh(y) && y.Length == 36 && Chain(DataT, y[..], Backwards(rk[..]))
    ensures Window(y[..], 0) == Flip(Window(x[..], 32))
  {
    hide DataT, Chain, Rounds, Backwards, Link.Waits, SocketUart.Valid;
    y := new word[36](i => 0);
    y[0], y[1], y[2], y[3] := x[35], x[34], x[33], x[32];
    ghost var y0 := y[..4];
    DecryptLoop(uart, y, rk);
    assert Window(y[..], 0) == Window(y0, 0) == Flip(Window(x[..], 32));
  }

  // sm4_nice: x ends with the encrypted block, y undoes x from its end and ends with the block again, and the
  // coprocessor is ready for the next call.
  method Sm4Nice(uart: SocketUart, key: array<word>, cipher: array<word>) returns (x: array<word>, y: array<word>)
    requires Ready(uart) && key.Length == 4 && cipher.Length == 4
    modifies uart, uart.board, uart.board.core, uart.writeBuff, uart.readBuff
    ensures Ready(uart) && x.Length == y.Length == 36
    ensures Window(x[..], 0) == Window(cipher[..], 0)
    ensures Flip(Window(x[..], 32)) == Encrypt(DataT, RoundKeys(Window(key[..], 0)), Window(cipher[..], 0))
    ensures forall i :: 0 <= i < 36 ==> y[i] == x[35 - i]
    ensures Flip(Window(y[..], 32)) == Window(cipher[..], 0)
  {
    hide KeyT, DataT, Chain, RoundKeys, Rounds, Backwards, Link.Waits, SocketUart.Valid;
    var rk := ExpandKey(uart, key);
    x := EncryptBlock(uart, cipher, rk);
    y := DecryptBlock(uart, x, rk);
    MirrorAll(DataT, x[..], y[..], rk[..]);
  }

  // The same over the two serial lines of uart_top.v.
  method OnSerialLines(p: UartBaud.Params, period: nat, key: array<word>, cipher: array<word>)
    returns (x: array<word>, y: array<word>)
    requires SerialLines.HostRate(p, period) && key.Length == 4 && cipher.Length == 4
    ensures x.Length == y.Length == 36
    ensures Flip(Window(x[..], 32)) == Encrypt(DataT, RoundKeys(Window(key[..], 0)), Window(cipher[..], 0))
    ensures Flip(Window(y[..], 32)) == Window(cipher[..], 0)
  {
    hide DataT, RoundKeys, Rounds, Link.Waits, SerialLines.HostRate;
    var uart := new SocketUart.OnLines(p, period);
    x, y := Sm4Nice(uart, key, cipher);
  }
}
