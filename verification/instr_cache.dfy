/// The instruction-cache timing of timing.h: 512 two-way lines with an LRU mark, against the history of fetches.

module InstrCache {
  import opened Arith
  import opened BitValues
  import opened Words
  import opened PipelineTiming

  const DELAY_MIN: nat := 4520
  const DELAY_MAX: nat := 4720
  const SETS: nat := 512

  function TagBits(pc: word): word { (pc & 0x3FE0) >> 5 }

  function Tag(pc: word): (t: nat)
    ensures t < SETS
  {
    TagIs(pc);
    Value(TagBits(pc))
  }

  function Head(pc: word): word { pc & 0xFFFF_C000 }

  // The set of an address is the number of its 32-byte line modulo 512.
  lemma TagIs(pc: word)
    ensures Value(TagBits(pc)) == Value(pc) / 32 % 512
  {
    hide Bit, Pow2, DigitOf, Value, TagBits;
    Powers();
    Bounded(pc);
    var v := Value(pc);
    assert Below(Above(v, 5), 9) == v / 32 % 512;
    hide Above, Below;
    forall i: nat | i < 32 ensures BitAt(TagBits(pc), i) == DigitOf(Below(Above(v, 5), 9), i) {
      BitIs(TagBits(pc), i);
      DivBits(v, 5, i);
      ModBits(Above(v, 5), 9, i);
      TagDigit(pc, i);
    }
    ValueIs(TagBits(pc), v / 32 % 512);
  }

  lemma TagDigit(pc: word, i: nat)
    requires i < 32
    ensures Bit(TagBits(pc), i as bv5) == (i < 9 && BitAt(pc, i + 5))
  {
    hide Bit, BitAt, TagBits;
    if i < 9 {
      BitIs(pc, i + 5);
      assert (i + 5) as bv5 == (i as bv5) + 5 && (i as bv5) < 9;
    } else {
      assert (i as bv5) >= 9;
    }
    TagShift(pc, i as bv5);
  }

  lemma TagShift(pc: word, n: bv5)
    ensures Bit(TagBits(pc), n) == (n < 9 && Bit(pc, n + 5))
  {
  }

  // And its head is the address rounded down to a multiple of 16 KiB.
  lemma HeadIs(pc: word)
    ensures Value(Head(pc)) == Value(pc) / 0x4000 * 0x4000
  {
    hide Bit, Pow2, DigitOf, Value, Head;
    Powers();
    Bounded(pc);
    var v := Value(pc);
    var x := v / 0x4000 * 0x4000;
    assert Below(x, 14) == 0 && Above(x, 14) == Above(v, 14);
    hide Above, Below;
    forall i: nat | i < 32 ensures BitAt(Head(pc), i) == DigitOf(x, i) {
      BitIs(Head(pc), i);
      BitIs(pc, i);
      HeadShift(pc, i as bv5);
      if i < 14 {
        ModBits(x, 14, i);
        ZeroBits(i);
        assert (i as bv5) < 14;
      } else {
        DivBits(x, 14, i - 14);
        DivBits(v, 14, i - 14);
        assert (i as bv5) >= 14;
      }
    }
    ValueIs(Head(pc), x);
  }

  lemma HeadShift(pc: word, n: bv5)
    ensures Bit(Head(pc), n) == (n >= 14 && Bit(pc, n))
  {
  }

  function Penalty(rand: nat): nat { rand % (DELAY_MAX - DELAY_MIN) + DELAY_MIN }

  datatype Line = Line(first: word, second: word, stat: bool) {
    predicate Holds(head: word) { first == head || second == head }

    function Touched(head: word): Line
    {
      if first == head then this.(stat := true)
      else if second == head then this.(stat := false)
      else if stat then Line(first, head, false)
      else Line(head, second, true)
    }
  }

  const EMPTY := Line(0, 0, false)

  class Cache {
    const lines: array<Line>
    const pipeline: Scoreboard

    constructor (pipeline: Scoreboard)
      ensures fresh(lines) && this.pipeline == pipeline
      ensures lines.Length == SETS && forall k :: 0 <= k < SETS ==> lines[k] == EMPTY
    {
      lines := new Line[SETS](i => EMPTY);
      this.pipeline := pipeline;
    }

    method UpdateTimingModel(pc: word, rand: nat) returns (hit: bool)
      requires lines.Length == SETS && Sound(pipeline.Now())
      modifies pipeline, lines
      ensures var k := Tag(pc);
        && lines[..] == old(lines[..])[k := old(lines[k]).Touched(Head(pc))]
        && hit == old(lines[k]).Holds(Head(pc))
      ensures pipeline.Now() == Stalled(old(pipeline.Now()), if hit then 0 else Penalty(rand)) && Sound(pipeline.Now())
      ensures pipeline.total == old(pipeline.total) + if hit then 0 else Penalty(rand)
    {
      hide Tag, Sound, Advance;
      var k := Tag(pc);
      var head := Head(pc);
      hit := true;
      if lines[k].first == head {
        lines[k] := lines[k].(stat := true);
      } else if lines[k].second == head {
        lines[k] := lines[k].(stat := false);
      } else {
        hit := false;
        pipeline.Stall(Penalty(rand));
        var line := lines[k];
        if line.stat {
          line := line.(second := head);
        } else {
          line := line.(first := head);
        }
        line := line.(stat := !line.stat);
        lines[k] := line;
      }
    }
  }

  /// What a set has seen: head 0 at power-on, then the heads fetched in it.

  function Heads(pcs: seq<word>, set': nat): (h: seq<word>)
    ensures |h| > 0
  {
    if pcs == [] then [0]
    else
      var pc := pcs[|pcs| - 1];
      Heads(pcs[..|pcs| - 1], set') + if Tag(pc) == set' then [Head(pc)] else []
  }

  function Latest(h: seq<word>): word
    requires |h| > 0
  {
    h[|h| - 1]
  }

  // The latest element other than x, or x when there is none.
  function LatestOther(h: seq<word>, x: word): word
  {
    if h == [] then x else if h[|h| - 1] != x then h[|h| - 1] else LatestOther(h[..|h| - 1], x)
  }

  // The line as the history determines it: the mark tells which way was used last.
  predicate Reflects(line: Line, h: seq<word>)
    requires |h| > 0
  {
    && (if line.stat then line.first else line.second) == Latest(h)
    && (if line.stat then line.second else line.first) == LatestOther(h, Latest(h))
  }

  lemma TouchReflects(line: Line, h: seq<word>, head: word)
    requires |h| > 0 && Reflects(line, h)
    ensures Reflects(line.Touched(head), h + [head])
  {
    var g := h + [head];
    assert g[..|g| - 1] == h;
    assert LatestOther(g, head) == LatestOther(h, head);
  }

  // The head was fetched, and since then at most one other was.
  ghost predicate AmongTwoLatest(h: seq<word>, head: word)
  {
    exists i, y: word :: 0 <= i < |h| && h[i] == head && AllAfter(h, i, y)
  }

  predicate AllAfter(h: seq<word>, i: int, y: word)
    requires 0 <= i < |h|
  {
    forall j :: i < j < |h| ==> h[j] == y
  }

  lemma {:induction false} LatestOtherIs(h: seq<word>, x: word)
    ensures LatestOther(h, x) == x <==> forall j :: 0 <= j < |h| ==> h[j] == x
    ensures LatestOther(h, x) != x ==>
              exists i :: 0 <= i < |h| && h[i] == LatestOther(h, x) && AllAfter(h, i, x)
  {
    if h != [] && h[|h| - 1] == x {
      var g := h[..|h| - 1];
      LatestOtherIs(g, x);
      if LatestOther(g, x) != x {
        var i :| 0 <= i < |g| && g[i] == LatestOther(g, x) && AllAfter(g, i, x);
        assert h[i] == g[i] && AllAfter(h, i, x) by {
          forall j | i < j < |h| ensures h[j] == x {
            if j < |g| {
              assert g[j] == x;
            }
          }
        }
      } else {
        forall j | 0 <= j < |h| ensures h[j] == x {
          if j < |g| {
            assert g[j] == x;
          }
        }
      }
    } else if h != [] {
      assert AllAfter(h, |h| - 1, x);
    }
  }

  lemma HoldsTwoLatest(line: Line, h: seq<word>, head: word)
    requires |h| > 0 && Reflects(line, h)
    ensures line.Holds(head) <==> AmongTwoLatest(h, head)
  {
    var x := Latest(h);
    var z := LatestOther(h, x);
    LatestOtherIs(h, x);
    if head == x {
      assert AllAfter(h, |h| - 1, x);
    } else if head == z {
      var i :| 0 <= i < |h| && h[i] == z && AllAfter(h, i, x);
    }
    if AmongTwoLatest(h, head) && head != x {
      var i, y: word :| 0 <= i < |h| && h[i] == head && AllAfter(h, i, y);
      assert h[|h| - 1] == y;
      var k :| 0 <= k < |h| && h[k] == z && AllAfter(h, k, x);
      assert i == k;
    }
  }

  /// A run of fetches.

  function Misses(hits: seq<bool>): nat
  {
    if hits == [] then 0 else Misses(hits[..|hits| - 1]) + if hits[|hits| - 1] then 0 else 1
  }

  ghost predicate Tracks(lines: seq<Line>, pcs: seq<word>)
  {
    |lines| == SETS && forall k :: 0 <= k < SETS ==> Reflects(lines[k], Heads(pcs, k))
  }

  lemma TracksOne(lines: seq<Line>, pcs: seq<word>, pc: word)
    requires Tracks(lines, pcs)
    ensures Tracks(lines[Tag(pc) := lines[Tag(pc)].Touched(Head(pc))], pcs + [pc])
  {
    hide Tag, Reflects, Head;
    var now := pcs + [pc];
    assert now[..|now| - 1] == pcs;
    var k := Tag(pc);
    TouchReflects(lines[k], Heads(pcs, k), Head(pc));
    forall i | 0 <= i < SETS ensures Reflects(lines[k := lines[k].Touched(Head(pc))][i], Heads(now, i)) {
      if i != k {
        assert Heads(now, i) == Heads(pcs, i) + [] == Heads(pcs, i);
      }
    }
  }

  /// The same in plain addresses.

  function Line32(pc: word): nat { Value(pc) / 32 }

  // Set and head together name the 32-byte line of an address.
  lemma SameLine(x: word, y: word)
    ensures (Tag(x) == Tag(y) && Head(x) == Head(y)) <==> Line32(x) == Line32(y)
  {
    hide TagBits, Head, Value;
    TagIs(x);
    TagIs(y);
    HeadIs(x);
    HeadIs(y);
    SameValue(Head(x), Head(y));
    SameParts(Value(x), Value(y));
  }

  lemma SameParts(u: nat, v: nat)
    ensures (u / 32 % 512 == v / 32 % 512 && u / 0x4000 * 0x4000 == v / 0x4000 * 0x4000) <==> u / 32 == v / 32
  {
  }

  // Since the last fetch from its own 32-byte line, or since power-on for the lowest 16 KiB, at most one other line
  // with the same number modulo 512 has been fetched.
  ghost predicate Recent(pcs: seq<word>, pc: word)
  {
    exists i: int, y: nat ::
      -1 <= i < |pcs| && (if i < 0 then Value(pc) < 0x4000 else Line32(pcs[i]) == Line32(pc)) && OneOther(pcs, i, pc, y)
  }

  predicate OneOther(pcs: seq<word>, i: int, pc: word, y: nat)
    requires -1 <= i < |pcs|
  {
    forall j :: i < j < |pcs| && Line32(pcs[j]) % 512 == Line32(pc) % 512 ==> Line32(pcs[j]) == y
  }

  // Going back through the heads of a set, only y lies before the head.
  predicate BackTo(h: seq<word>, head: word, y: word)
  {
    h != [] && (h[|h| - 1] == head || (h[|h| - 1] == y && BackTo(h[..|h| - 1], head, y)))
  }

  lemma {:induction false} AmongIsBackTo(h: seq<word>, head: word, i: nat, y: word)
    requires i < |h| && h[i] == head && AllAfter(h, i, y)
    ensures BackTo(h, head, y)
    decreases |h|
  {
    if i < |h| - 1 {
      var g := h[..|h| - 1];
      assert h[|h| - 1] == y;
      assert AllAfter(g, i, y) by {
        forall j | i < j < |g| ensures g[j] == y {
          assert h[j] == y;
        }
      }
      AmongIsBackTo(g, head, i, y);
    }
  }

  lemma {:induction false} BackToIsAmong(h: seq<word>, head: word, y: word) returns (i: nat)
    requires BackTo(h, head, y)
    ensures i < |h| && h[i] == head && AllAfter(h, i, y)
    decreases |h|
  {
    if h[|h| - 1] == head {
      i := |h| - 1;
    } else {
      var g := h[..|h| - 1];
      i := BackToIsAmong(g, head, y);
      forall j | i < j < |h| ensures h[j] == y {
        if j < |g| {
          assert g[j] == y;
        }
      }
    }
  }

  lemma HeadsBack(pcs: seq<word>, k: nat)
    requires pcs != []
    ensures var b, before, h := pcs[|pcs| - 1], Heads(pcs[..|pcs| - 1], k), Heads(pcs, k);
      if Tag(b) == k then h[|h| - 1] == Head(b) && h[..|h| - 1] == before else h == before
  {
    hide Tag, Head;
    var before := Heads(pcs[..|pcs| - 1], k);
    assert before + [] == before;
  }

  // Where the fetch that the heads lead back to was.
  lemma {:induction false} BackToFetch(pcs: seq<word>, pc: word, y: word, z: nat) returns (i: int)
    requires BackTo(Heads(pcs, Tag(pc)), Head(pc), y)
    requires forall b :: b in pcs && Tag(b) == Tag(pc) && Head(b) == y ==> Line32(b) == z
    ensures -1 <= i < |pcs| && (if i < 0 then Value(pc) < 0x4000 else Line32(pcs[i]) == Line32(pc))
    ensures OneOther(pcs, i, pc, z)
    decreases |pcs|
  {
    hide Tag, Head, Line32;
    if pcs == [] {
      i := -1;
      LowHead(pc);
    } else {
      var b, rest := pcs[|pcs| - 1], pcs[..|pcs| - 1];
      var h := Heads(pcs, Tag(pc));
      SameLine(b, pc);
      SameSet(b, pc);
      HeadsBack(pcs, Tag(pc));
      hide Heads;
      if Tag(b) == Tag(pc) && Head(b) == Head(pc) {
        i := |pcs| - 1;
      } else {
        i := BackToFetch(rest, pc, y, z);
        forall j | i < j < |pcs| && Line32(pcs[j]) % 512 == Line32(pc) % 512 ensures Line32(pcs[j]) == z {
          if j < |rest| {
            assert rest[j] == pcs[j];
          }
        }
      }
    }
  }

  lemma LowHead(pc: word)
    ensures Head(pc) == 0 <==> Value(pc) < 0x4000
  {
    hide Head, Value;
    HeadIs(pc);
    SameValue(Head(pc), 0);
    Bounded(0);
  }

  lemma SameSet(x: word, y: word)
    ensures Tag(x) == Tag(y) <==> Line32(x) % 512 == Line32(y) % 512
  {
    hide TagBits, Value;
    TagIs(x);
    TagIs(y);
  }

  lemma {:induction false} FetchIsBackTo(pcs: seq<word>, pc: word, i: int, z: nat, y: word)
    requires -1 <= i < |pcs| && (if i < 0 then Value(pc) < 0x4000 else Line32(pcs[i]) == Line32(pc))
    requires OneOther(pcs, i, pc, z)
    requires forall b :: b in pcs && Tag(b) == Tag(pc) && Line32(b) == z ==> Head(b) == y
    ensures BackTo(Heads(pcs, Tag(pc)), Head(pc), y)
    decreases |pcs|
  {
    hide Tag, Head, Line32;
    if pcs == [] {
      LowHead(pc);
    } else {
      var b, rest := pcs[|pcs| - 1], pcs[..|pcs| - 1];
      var h := Heads(pcs, Tag(pc));
      SameLine(b, pc);
      SameSet(b, pc);
      if i < |pcs| - 1 {
        assert OneOther(rest, i, pc, z) by {
          forall j | i < j < |rest| && Line32(rest[j]) % 512 == Line32(pc) % 512 ensures Line32(rest[j]) == z {
            assert rest[j] == pcs[j];
          }
        }
        assert i >= 0 ==> rest[i] == pcs[i];
        FetchIsBackTo(rest, pc, i, z, y);
        assert Tag(b) == Tag(pc) ==> Line32(b) == z && h[..|h| - 1] == Heads(rest, Tag(pc));
        assert Tag(b) != Tag(pc) ==> h == Heads(rest, Tag(pc));
      }
    }
  }

  lemma RecentIsAmong(pcs: seq<word>, pc: word)
    ensures Recent(pcs, pc) <==> AmongTwoLatest(Heads(pcs, Tag(pc)), Head(pc))
  {
    hide Tag, Head, Line32, Heads, BackTo;
    var h := Heads(pcs, Tag(pc));
    if Recent(pcs, pc) {
      var i: int, z: nat :|
        -1 <= i < |pcs| && (if i < 0 then Value(pc) < 0x4000 else Line32(pcs[i]) == Line32(pc))
        && OneOther(pcs, i, pc, z);
      var y := HeadOf(pcs, pc, z);
      FetchIsBackTo(pcs, pc, i, z, y);
      var k := BackToIsAmong(h, Head(pc), y);
    }
    if AmongTwoLatest(h, Head(pc)) {
      var k, y: word :| 0 <= k < |h| && h[k] == Head(pc) && AllAfter(h, k, y);
      AmongIsBackTo(h, Head(pc), k, y);
      var z := LineOf(pcs, pc, y);
      var i := BackToFetch(pcs, pc, y, z);
    }
  }

  // Within one set a line has one head, and the other way round.
  lemma HeadOf(pcs: seq<word>, pc: word, z: nat) returns (y: word)
    ensures forall b :: b in pcs && Tag(b) == Tag(pc) && Line32(b) == z ==> Head(b) == y
  {
    hide Tag, Head, Line32;
    y := 0;
    if exists c :: c in pcs && Tag(c) == Tag(pc) && Line32(c) == z {
      var c :| c in pcs && Tag(c) == Tag(pc) && Line32(c) == z;
      y := Head(c);
      forall b | b in pcs && Tag(b) == Tag(pc) && Line32(b) == z ensures Head(b) == y {
        SameLine(b, c);
      }
    }
  }

  lemma LineOf(pcs: seq<word>, pc: word, y: word) returns (z: nat)
    ensures forall b :: b in pcs && Tag(b) == Tag(pc) && Head(b) == y ==> Line32(b) == z
  {
    hide Tag, Head, Line32;
    z := 0;
    if exists c :: c in pcs && Tag(c) == Tag(pc) && Head(c) == y {
      var c :| c in pcs && Tag(c) == Tag(pc) && Head(c) == y;
      z := Line32(c);
      forall b | b in pcs && Tag(b) == Tag(pc) && Head(b) == y ensures Line32(b) == z {
        SameLine(b, c);
      }
    }
  }

  // Fetching on within the line just fetched never misses.
  lemma StayingHits(pcs: seq<word>, x: word, y: word)
    requires Line32(x) == Line32(y)
    ensures Recent(pcs + [x], y)
  {
    hide Line32;
    assert OneOther(pcs + [x], |pcs|, y, 0);
  }

  // Every fetch hits exactly when its line is among the two latest of its set, and each miss costs 4520 to 4719
  // cycles.
  method Fetch(pcs: seq<word>, rands: seq<nat>) returns (hits: seq<bool>, stalled: nat)
    requires |rands| == |pcs|
    ensures |hits| == |pcs|
    ensures forall i :: 0 <= i < |pcs| ==> hits[i] == Recent(pcs[..i], pcs[i])
    ensures 4520 * Misses(hits) <= stalled <= 4719 * Misses(hits)
  {
    hide Tag, Head, Heads, Reflects, AmongTwoLatest, Tracks, Sound, Stalled, Recent;
    var pipeline := new Scoreboard();
    var cache := new Cache(pipeline);
    ghost var fetched: seq<word> := [];
    EmptyTracks(cache.lines[..]);
    hits := [];
    var i := 0;
    while i < |pcs|
      invariant 0 <= i <= |pcs| && |hits| == i && fresh(cache.lines) && cache.lines.Length == SETS
      invariant fresh(cache.pipeline) && Sound(cache.pipeline.Now())
      invariant Tracks(cache.lines[..], pcs[..i])
      invariant forall k :: 0 <= k < i ==> hits[k] == Recent(pcs[..k], pcs[k])
      invariant 4520 * Misses(hits) <= cache.pipeline.total <= 4719 * Misses(hits)
    {
      TracksOne(cache.lines[..], pcs[..i], pcs[i]);
      assert pcs[..i] + [pcs[i]] == pcs[..i + 1];
      TracksMeansHolds(cache.lines[..], pcs[..i], pcs[i]);
      RecentIsAmong(pcs[..i], pcs[i]);
      var hit := cache.UpdateTimingModel(pcs[i], rands[i]);
      assert (hits + [hit])[..|hits|] == hits;
      hits := hits + [hit];
      i := i + 1;
    }
    stalled := pipeline.total;
  }

  lemma TracksMeansHolds(lines: seq<Line>, pcs: seq<word>, pc: word)
    requires Tracks(lines, pcs)
    ensures |lines| == SETS && (lines[Tag(pc)].Holds(Head(pc)) <==> AmongTwoLatest(Heads(pcs, Tag(pc)), Head(pc)))
  {
    hide Tag, Head, AmongTwoLatest, Heads, Reflects;
    HoldsTwoLatest(lines[Tag(pc)], Heads(pcs, Tag(pc)), Head(pc));
  }

  lemma EmptyTracks(lines: seq<Line>)
    requires |lines| == SETS && forall k :: 0 <= k < SETS ==> lines[k] == EMPTY
    ensures Tracks(lines, [])
  {
    forall k | 0 <= k < SETS ensures Reflects(lines[k], Heads([], k)) {
      assert LatestOther([0], 0) == LatestOther([0][..0], 0);
    }
  }
}
