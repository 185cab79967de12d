/// Reading a 64-bit counter through 32-bit registers: __get_rv_cycle, __get_rv_instret and __get_rv_time.

module CounterRead {

  const WORD: nat := 0x1_0000_0000

  function High(c: nat): nat { c / WORD }

  function Low(c: nat): nat { c % WORD }

  // The value put together from the counter's values c1, c2, c3 at the first three reads and c4 at the fourth.
  function Full(c1: nat, c2: nat, c3: nat, c4: nat): nat
  {
    High(c3) * WORD + if High(c1) != High(c3) then Low(c4) else Low(c2)
  }

  // A counter that other things advance between the reads.
  class Counter {
    var value: nat

    constructor (start: nat)
      ensures value == start
    {
      value := start;
    }

    method Advance(n: nat)
      modifies this
      ensures value == old(value) + n
    {
      value := value + n;
    }

    method ReadHigh() returns (w: nat)
      ensures w == High(value)
    {
      w := value / WORD;
    }

    method ReadLow() returns (w: nat)
      ensures w == Low(value)
    {
      w := value % WORD;
    }

    // n1, n2 and n3 are how far the counter gets between one read and the next. The result is a value the
    // counter passed during the call, and the value at one of the two low reads when it passed no more than 2^32.
    method Get(n1: nat, n2: nat, n3: nat) returns (full: nat)
      modifies this
      ensures old(value) <= full <= value <= old(value) + n1 + n2 + n3
      ensures n1 + n2 + n3 <= WORD ==> full == old(value) + n1 || full == value
    {
      ghost var c1 := value;
      var high0 := ReadHigh();
      Advance(n1);
      ghost var c2 := value;
      var low := ReadLow();
      Advance(n2);
      ghost var c3 := value;
      var high := ReadHigh();
      if high0 != high {
        Advance(n3);
        low := ReadLow();
      }
      full := high * WORD + low;
      WithinTheCall(c1, c2, c3, c3 + n3);
      if n1 + n2 + n3 <= WORD {
        ExactWhenClose(c1, c2, c3, c3 + n3);
      }
    }
  }

  lemma Parts(c: nat)
    ensures c == High(c) * WORD + Low(c) && Low(c) < WORD
  {
  }

  lemma HighOrder(c: nat, d: nat)
    requires c <= d
    ensures High(c) <= High(d)
  {
  }

  // However far the counter gets, the result is one it passed during the call.
  lemma WithinTheCall(c1: nat, c2: nat, c3: nat, c4: nat)
    requires c1 <= c2 <= c3 <= c4
    ensures var r := Full(c1, c2, c3, c4);
      if High(c1) == High(c3) then r == c2 else c1 < r <= c4
  {
    hide High, Low;
    Parts(c1);
    Parts(c2);
    Parts(c3);
    Parts(c4);
    HighOrder(c1, c2);
    HighOrder(c2, c3);
    HighOrder(c3, c4);
  }

  // The low word read last belongs to the high word exactly when no carry falls between the two.
  lemma RightExactlyWhen(c1: nat, c2: nat, c3: nat, c4: nat)
    requires c1 <= c2 <= c3 <= c4
    ensures Full(c1, c2, c3, c4) == (if High(c1) == High(c3) then c2 else c4) <==>
            High(c1) == High(c3) || High(c3) == High(c4)
  {
    hide High, Low;
    Parts(c4);
    WithinTheCall(c1, c2, c3, c4);
  }

  lemma ExactWhenClose(c1: nat, c2: nat, c3: nat, c4: nat)
    requires c1 <= c2 <= c3 <= c4 <= c1 + WORD
    ensures Full(c1, c2, c3, c4) == if High(c1) == High(c3) then c2 else c4
  {
    hide High, Low;
    Parts(c1);
    Parts(c3);
    Parts(c4);
    HighOrder(c1, c3);
    HighOrder(c3, c4);
    RightExactlyWhen(c1, c2, c3, c4);
  }

  // One more than 2^32 is too far: two carries fit between the first and the last read.
  lemma BoundIsSharp(c2: nat)
    requires WORD < c2 <= WORD + 5
    ensures var c1, c3, c4 := WORD - 1, WORD + 5, 2 * WORD;
      c4 - c1 == WORD + 1 && Full(c1, c2, c3, c4) !in {c1, c2, c3, c4}
  {
  }
}
