/// HiFive1BranchPredictor of timing.h: history tables, target buffer and return stack, how often they can be wrong,
/// and the cycles that costs on the scoreboard.

module BranchPrediction {
  import opened Arith
  import opened PipelineTiming

  const PENALTY: nat := 3
  const BHT_ENTRIES: nat := 128
  const BTB_ENTRIES: nat := 40
  const RAS_SIZE: nat := 2
  const HISTORIES: nat := 8
  const COUNTER_MAX := 3
  const COUNTER_THRESHOLD := 2

  datatype Entry = Entry(history: nat, counters: seq<int>) {
    ghost predicate Valid()
    {
      && history < HISTORIES && |counters| == HISTORIES
      && forall h :: 0 <= h < HISTORIES ==> 0 <= counters[h] <= COUNTER_MAX
    }

    predicate PredictsTaken()
      requires Valid()
    {
      counters[history] >= COUNTER_THRESHOLD
    }

    // Saturating count of the outcome under the current history, which then takes the outcome in at its top bit.
    function Updated(taken: bool): (e: Entry)
      requires Valid()
      ensures e.Valid()
    {
      var c := counters[history];
      Entry(history / 2 + (if taken then 4 else 0),
            counters[history := if taken then Min(c + 1, COUNTER_MAX) else Max(c - 1, 0)])
    }
  }

  datatype Event =
    | Branch(lastPc: nat, pc: nat, taken: bool)
    | Jump(lastPc: nat, pc: nat)
    | Call(lastPc: nat, pc: nat, link: nat)
    | Return(lastPc: nat, pc: nat)

  // total is num_total_cycles of the pipeline.
  datatype State = State(bht: seq<Entry>, btb: seq<nat>, ras: seq<nat>, total: int) {
    ghost predicate Valid()
    {
      && |bht| == BHT_ENTRIES && (forall k :: 0 <= k < BHT_ENTRIES ==> bht[k].Valid())
      && |btb| == BTB_ENTRIES && |ras| <= RAS_SIZE
    }
  }

  const RESET_ENTRY := Entry(0, [0, 0, 0, 0, 0, 0, 0, 0])

  predicate IsReset(s: State)
  {
    && |s.bht| == BHT_ENTRIES && (forall k :: 0 <= k < BHT_ENTRIES ==> s.bht[k] == RESET_ENTRY)
    && |s.btb| == BTB_ENTRIES && (forall k :: 0 <= k < BTB_ENTRIES ==> s.btb[k] == 0)
    && s.ras == []
  }

  function StepBranch(s: State, lastPc: nat, pc: nat, taken: bool): (t: State)
    requires s.Valid()
    ensures t.Valid()
  {
    var k := lastPc % BHT_ENTRIES;
    var j := lastPc % BTB_ENTRIES;
    var predicted := s.bht[k].PredictsTaken();
    var right := if predicted then taken && s.btb[j] == pc else !taken;
    State(s.bht[k := s.bht[k].Updated(taken)],
          if taken then s.btb[j := pc] else s.btb,
          s.ras,
          s.total + if right then 0 else PENALTY)
  }

  function StepJump(s: State, lastPc: nat, pc: nat): (t: State)
    requires s.Valid()
    ensures t.Valid()
  {
    var j := lastPc % BTB_ENTRIES;
    if s.btb[j] == pc then s else s.(btb := s.btb[j := pc], total := s.total + PENALTY)
  }

  function Pushed(q: seq<nat>, link: nat): seq<nat>
  {
    var r := q + [link];
    if |r| > RAS_SIZE then r[1..] else r
  }

  function Step(s: State, e: Event): (t: State)
    requires s.Valid()
    ensures t.Valid()
  {
    match e
    case Branch(lastPc, pc, taken) => StepBranch(s, lastPc, pc, taken)
    case Jump(lastPc, pc) => StepJump(s, lastPc, pc)
    case Call(lastPc, pc, link) =>
      var t := StepJump(s, lastPc, pc);
      t.(ras := Pushed(t.ras, link))
    case Return(lastPc, pc) =>
      if s.ras == [] then StepJump(s, lastPc, pc)
      else
        var t := s.(ras := s.ras[..|s.ras| - 1]);
        if s.ras[|s.ras| - 1] == pc then t else StepJump(t, lastPc, pc)
  }

  function RunEvents(s: State, es: seq<Event>): (t: State)
    requires s.Valid()
    ensures t.Valid()
    decreases |es|
  {
    if es == [] then s else RunEvents(Step(s, es[0]), es[1..])
  }

  /// The predictor as written, in front of its pipeline.
  class Predictor {
    const pipeline: Scoreboard
    const bht: array<Entry>
    const btb: array<nat>
    var ras: seq<nat>

    ghost function Now(): State
      reads this, bht, btb, pipeline
    {
      State(bht[..], btb[..], ras, pipeline.total)
    }

    ghost predicate Valid()
      reads this, bht, btb, pipeline
    {
      Now().Valid() && Sound(pipeline.Now())
    }

    // The state t has been reached from s, the pipeline's from p: it was stalled for what t costs more.
    ghost predicate Reached(s: State, p: Pipe, t: State)
      reads this, bht, btb, pipeline
    {
      Valid() && Now() == t && pipeline.Now() == Stalled(p, t.total - s.total)
    }

    constructor (pipeline: Scoreboard)
      requires Sound(pipeline.Now())
      ensures IsReset(Now()) && Valid() && fresh(bht) && fresh(btb) && this.pipeline == pipeline
    {
      this.pipeline := pipeline;
      bht := new Entry[BHT_ENTRIES](i => RESET_ENTRY);
      btb := new nat[BTB_ENTRIES](i => 0);
      ras := [];
    }

    method UpdateHistory(k: nat, taken: bool)
      requires k < bht.Length && bht[k].Valid()
      modifies bht
      ensures bht[..] == old(bht[..])[k := old(bht[k]).Updated(taken)]
    {
      var e := bht[k];
      assert e.history < HISTORIES;
      var c := e.counters[e.history];
      if taken {
        c := c + 1;
        c := Min(c, COUNTER_MAX);
      } else {
        c := c - 1;
        c := Max(c, 0);
      }
      bht[k] := Entry(e.history / 2 + (if taken then 4 else 0), e.counters[e.history := c]);
    }

    method UpdateBranchPrediction(lastPc: nat, pc: nat, taken: bool)
      requires Valid()
      modifies pipeline, bht, btb
      ensures Reached(old(Now()), old(pipeline.Now()), Step(old(Now()), Branch(lastPc, pc, taken)))
    {
      hide Sound, Advance;
      var k, j := lastPc % BHT_ENTRIES, lastPc % BTB_ENTRIES;
      if bht[k].counters[bht[k].history] >= COUNTER_THRESHOLD {
        if taken {
          if btb[j] != pc {
            btb[j] := pc;
            pipeline.Stall(PENALTY);
          }
        } else {
          pipeline.Stall(PENALTY);
        }
      } else {
        if taken {
          btb[j] := pc;
          pipeline.Stall(PENALTY);
        }
      }
      assert btb[..] == if taken then old(btb[..])[j := pc] else old(btb[..]);
      UpdateHistory(k, taken);
    }

    method DoJump(lastPc: nat, pc: nat)
      requires Valid()
      modifies pipeline, btb
      ensures Reached(old(Now()), old(pipeline.Now()), StepJump(old(Now()), lastPc, pc))
    {
      hide Sound, Advance;
      var j := lastPc % BTB_ENTRIES;
      if btb[j] != pc {
        btb[j] := pc;
        pipeline.Stall(PENALTY);
        assert btb[..] == old(btb[..])[j := pc];
      }
    }

    method DoCall(lastPc: nat, pc: nat, link: nat)
      requires Valid()
      modifies this, pipeline, btb
      ensures Reached(old(Now()), old(pipeline.Now()), Step(old(Now()), Call(lastPc, pc, link)))
    {
      hide Sound, Advance;
      DoJump(lastPc, pc);
      ras := ras + [link];
      if |ras| > RAS_SIZE {
        ras := ras[1..];
      }
    }

    method DoReturn(lastPc: nat, pc: nat)
      requires Valid()
      modifies this, pipeline, btb
      ensures Reached(old(Now()), old(pipeline.Now()), Step(old(Now()), Return(lastPc, pc)))
    {
      hide Sound, Advance;
      if |ras| == 0 {
        DoJump(lastPc, pc);
        return;
      }
      var top := ras[|ras| - 1];
      ras := ras[..|ras| - 1];
      if pc != top {
        DoJump(lastPc, pc);
      }
    }

    // What the simulator calls after a branch, a jump, a call and a return.
    method Follow(e: Event)
      requires Valid()
      modifies this, pipeline, bht, btb
      ensures Reached(old(Now()), old(pipeline.Now()), Step(old(Now()), e))
    {
      hide Reached, Sound;
      match e {
        case Branch(lastPc, pc, taken) => UpdateBranchPrediction(lastPc, pc, taken);
        case Jump(lastPc, pc) => DoJump(lastPc, pc);
        case Call(lastPc, pc, link) => DoCall(lastPc, pc, link);
        case Return(lastPc, pc) => DoReturn(lastPc, pc);
      }
    }

    // A whole run; from reset num_total_cycles rises by 3 for each mispredicted event.
    method Replay(es: seq<Event>)
      requires Valid()
      modifies this, pipeline, bht, btb
      ensures Valid() && Now() == RunEvents(old(Now()), es)
      ensures old(IsReset(Now())) ==> pipeline.total == old(pipeline.total) + 3 * Mispredictions(es)
    {
      hide Sound, Step, Stalled, IsReset, Mispredictions;
      if IsReset(Now()) {
        TotalIsMispredictions(Now(), es);
      }
      var k := 0;
      assert es[0..] == es;
      while k < |es|
        invariant 0 <= k <= |es| && Valid()
        invariant RunEvents(Now(), es[k..]) == RunEvents(old(Now()), es)
      {
        assert es[k..][0] == es[k] && es[k..][1..] == es[k + 1..];
        Follow(es[k]);
        k := k + 1;
      }
    }
  }

  /// One branch, followed through a run.

  // The event is the branch b, whose outcome depends only on its history and whose taken target is fixed, or it
  // shares no table slot with b.
  predicate Regular(s: State, e: Event, b: nat, target: nat, f: nat -> bool)
    requires s.Valid()
  {
    if e.Branch? && e.lastPc == b then
      e.taken == f(s.bht[b % BHT_ENTRIES].history) && (e.taken ==> e.pc == target)
    else
      e.lastPc % BTB_ENTRIES != b % BTB_ENTRIES && (e.Branch? ==> e.lastPc % BHT_ENTRIES != b % BHT_ENTRIES)
  }

  predicate RegularRun(s: State, es: seq<Event>, b: nat, target: nat, f: nat -> bool)
    requires s.Valid()
    decreases |es|
  {
    es == [] || (Regular(s, es[0], b, target, f) && RegularRun(Step(s, es[0]), es[1..], b, target, f))
  }

  predicate At(e: Event, b: nat) { e.Branch? && e.lastPc == b }

  function Wrong(s: State, e: Event, b: nat): nat
    requires s.Valid()
  {
    if At(e, b) && Step(s, e).total != s.total then 1 else 0
  }

  // How often the branch is mispredicted, and the cycles that costs.
  function Mistakes(s: State, es: seq<Event>, b: nat): nat
    requires s.Valid()
    decreases |es|
  {
    if es == [] then 0 else Wrong(s, es[0], b) + Mistakes(Step(s, es[0]), es[1..], b)
  }

  function StallsAt(s: State, es: seq<Event>, b: nat): int
    requires s.Valid()
    decreases |es|
  {
    if es == [] then 0
    else
      (if At(es[0], b) then Step(s, es[0]).total - s.total else 0) + StallsAt(Step(s, es[0]), es[1..], b)
  }

  // How often the branch meets each history.
  function Visits(s: State, es: seq<Event>, b: nat): (v: seq<nat>)
    requires s.Valid()
    ensures |v| == HISTORIES
    decreases |es|
  {
    if es == [] then [0, 0, 0, 0, 0, 0, 0, 0]
    else
      var rest := Visits(Step(s, es[0]), es[1..], b);
      var h := s.bht[b % BHT_ENTRIES].history;
      if At(es[0], b) then rest[h := rest[h] + 1] else rest
  }

  lemma {:induction false} StallsAreMistakes(s: State, es: seq<Event>, b: nat)
    requires s.Valid()
    ensures StallsAt(s, es, b) == PENALTY * Mistakes(s, es, b)
    decreases |es|
  {
    if es != [] {
      StallsAreMistakes(Step(s, es[0]), es[1..], b);
    }
  }

  // With no other events in the run that is all that num_total_cycles rises by.
  lemma {:induction false} LoneBranchCosts(s: State, es: seq<Event>, b: nat)
    requires s.Valid() && forall e :: e in es ==> At(e, b)
    ensures RunEvents(s, es).total == s.total + StallsAt(s, es, b)
    decreases |es|
  {
    hide Step;
    if es != [] {
      assert At(es[0], b);
      LoneBranchCosts(Step(s, es[0]), es[1..], b);
    }
  }

  // Other events leave the branch's slots alone.
  lemma OthersLeaveIt(s: State, e: Event, b: nat, target: nat, f: nat -> bool)
    requires s.Valid() && Regular(s, e, b, target, f) && !At(e, b)
    ensures Step(s, e).bht[b % BHT_ENTRIES] == s.bht[b % BHT_ENTRIES]
    ensures Step(s, e).btb[b % BTB_ENTRIES] == s.btb[b % BTB_ENTRIES]
  {
  }

  /// From any state.

  // What the counter of a history still has to unlearn.
  function Doubt(f: nat -> bool, c: seq<int>, h: nat): nat
    requires h < |c|
  {
    if f(h) then Max(0, COUNTER_THRESHOLD - c[h]) else Max(0, c[h] - COUNTER_THRESHOLD + 1)
  }

  function Doubts(f: nat -> bool, c: seq<int>, k: nat): nat
    requires k <= |c|
  {
    if k == 0 then 0 else Doubts(f, c, k - 1) + Doubt(f, c, k - 1)
  }

  function Potential(s: State, b: nat, target: nat, f: nat -> bool): nat
    requires s.Valid()
  {
    Doubts(f, s.bht[b % BHT_ENTRIES].counters, HISTORIES) + if s.btb[b % BTB_ENTRIES] == target then 0 else 1
  }

  lemma {:induction false} DoubtsAfter(f: nat -> bool, c: seq<int>, h: nat, x: int, k: nat)
    requires h < |c| && k <= |c|
    ensures Doubts(f, c[h := x], k) == Doubts(f, c, k) + if h < k then Doubt(f, c[h := x], h) - Doubt(f, c, h) else 0
  {
    if k > 0 {
      DoubtsAfter(f, c, h, x, k - 1);
    }
  }

  lemma {:induction false} DoubtsBounded(f: nat -> bool, c: seq<int>, k: nat)
    requires k <= |c| && forall h :: 0 <= h < |c| ==> 0 <= c[h] <= COUNTER_MAX
    ensures Doubts(f, c, k) <= 2 * k
  {
    if k > 0 {
      DoubtsBounded(f, c, k - 1);
    }
  }

  lemma MistakesPay(s: State, e: Event, b: nat, target: nat, f: nat -> bool)
    requires s.Valid() && Regular(s, e, b, target, f)
    ensures Wrong(s, e, b) + Potential(Step(s, e), b, target, f) <= Potential(s, b, target, f)
  {
    hide Doubts;
    if At(e, b) {
      var entry := s.bht[b % BHT_ENTRIES];
      var h := entry.history;
      DoubtsAfter(f, entry.counters, h, entry.Updated(e.taken).counters[h], HISTORIES);
    } else {
      OthersLeaveIt(s, e, b, target, f);
    }
  }

  lemma {:induction false} MistakesPaid(s: State, es: seq<Event>, b: nat, target: nat, f: nat -> bool)
    requires s.Valid() && RegularRun(s, es, b, target, f)
    ensures Mistakes(s, es, b) <= Potential(s, b, target, f)
    decreases |es|
  {
    hide Step, Wrong, Regular, Potential;
    if es != [] {
      MistakesPay(s, es[0], b, target, f);
      MistakesPaid(Step(s, es[0]), es[1..], b, target, f);
    }
  }

  // Whatever the tables hold at the start, the branch is mispredicted at most 17 times however long it runs.
  lemma MistakeBound(s: State, es: seq<Event>, b: nat, target: nat, f: nat -> bool)
    requires s.Valid() && RegularRun(s, es, b, target, f)
    ensures Mistakes(s, es, b) <= 2 * HISTORIES + 1
    ensures StallsAt(s, es, b) <= PENALTY * (2 * HISTORIES + 1)
  {
    MistakesPaid(s, es, b, target, f);
    DoubtsBounded(f, s.bht[b % BHT_ENTRIES].counters, HISTORIES);
    StallsAreMistakes(s, es, b);
  }

  /// From reset, exactly.

  // What the branch still has to learn in v more visits.
  function Lesson(f: nat -> bool, c: int, v: int, h: nat): int
  {
    if f(h) then Min(COUNTER_THRESHOLD, c + v) - Min(COUNTER_THRESHOLD, c) else 0
  }

  function Lessons(f: nat -> bool, c: seq<int>, v: seq<nat>, k: nat): int
    requires k <= |c| && k <= |v|
  {
    if k == 0 then 0 else Lessons(f, c, v, k - 1) + Lesson(f, c[k - 1], v[k - 1], k - 1)
  }

  lemma {:induction false} LessonsAfter(f: nat -> bool, c: seq<int>, v: seq<nat>, h: nat, x: int, y: nat, k: nat)
    requires h < |c| == |v| && k <= |c|
    ensures Lessons(f, c[h := x], v[h := y], k) ==
            Lessons(f, c, v, k) + if h < k then Lesson(f, x, y, h) - Lesson(f, c[h], v[h], h) else 0
  {
    if k > 0 {
      LessonsAfter(f, c, v, h, x, y, k - 1);
    }
  }

  // Nothing learned is wrong: only taken histories have counts, and with any count the target is known.
  ghost predicate Fair(s: State, b: nat, target: nat, f: nat -> bool)
    requires s.Valid()
  {
    var c := s.bht[b % BHT_ENTRIES].counters;
    && (forall h :: 0 <= h < HISTORIES && !f(h) ==> c[h] == 0)
    && (forall h :: 0 <= h < HISTORIES && c[h] > 0 ==> s.btb[b % BTB_ENTRIES] == target)
  }

  lemma FairStays(s: State, e: Event, b: nat, target: nat, f: nat -> bool)
    requires s.Valid() && Regular(s, e, b, target, f) && Fair(s, b, target, f)
    ensures Fair(Step(s, e), b, target, f)
  {
    if !At(e, b) {
      OthersLeaveIt(s, e, b, target, f);
    }
  }

  lemma OneLesson(s: State, e: Event, b: nat, target: nat, f: nat -> bool, v: seq<nat>)
    requires s.Valid() && Regular(s, e, b, target, f) && Fair(s, b, target, f) && At(e, b) && |v| == HISTORIES
    ensures var entry := s.bht[b % BHT_ENTRIES];
      var next := Step(s, e).bht[b % BHT_ENTRIES];
      var h := entry.history;
      Lessons(f, entry.counters, v[h := v[h] + 1], HISTORIES)
      == Wrong(s, e, b) + Lessons(f, next.counters, v, HISTORIES)
  {
    hide Lessons;
    var entry := s.bht[b % BHT_ENTRIES];
    var h := entry.history;
    var c, w := entry.counters, v[h := v[h] + 1];
    var x := entry.Updated(e.taken).counters[h];
    LessonsAfter(f, c, w, h, x, v[h], HISTORIES);
    assert w[h := v[h]] == v;
  }

  lemma {:induction false} MistakesAreLessons(s: State, es: seq<Event>, b: nat, target: nat, f: nat -> bool)
    requires s.Valid() && RegularRun(s, es, b, target, f) && Fair(s, b, target, f)
    ensures Mistakes(s, es, b) == Lessons(f, s.bht[b % BHT_ENTRIES].counters, Visits(s, es, b), HISTORIES)
    decreases |es|
  {
    hide Step, Wrong, Regular, Fair, Lessons;
    if es == [] {
      NothingToLearn(f, s.bht[b % BHT_ENTRIES].counters, Visits(s, es, b), HISTORIES);
    } else {
      var t := Step(s, es[0]);
      FairStays(s, es[0], b, target, f);
      MistakesAreLessons(t, es[1..], b, target, f);
      if At(es[0], b) {
        OneLesson(s, es[0], b, target, f, Visits(t, es[1..], b));
      } else {
        OthersLeaveIt(s, es[0], b, target, f);
        NotAtIsRight(s, es[0], b);
      }
    }
  }

  lemma NotAtIsRight(s: State, e: Event, b: nat)
    requires s.Valid() && !At(e, b)
    ensures Wrong(s, e, b) == 0
  {
  }

  lemma {:induction false} NothingToLearn(f: nat -> bool, c: seq<int>, v: seq<nat>, k: nat)
    requires k <= |c| && k <= |v| && forall h :: 0 <= h < |v| ==> v[h] == 0
    ensures Lessons(f, c, v, k) == 0
  {
    if k > 0 {
      NothingToLearn(f, c, v, k - 1);
    }
  }

  // Two mistakes, or as many as there are visits if fewer, for each history after which it is taken.
  function Expected(f: nat -> bool, v: seq<nat>, k: nat): nat
    requires k <= |v|
  {
    if k == 0 then 0 else Expected(f, v, k - 1) + if f(k - 1) then Min(2, v[k - 1]) else 0
  }

  function TakenHistories(f: nat -> bool, k: nat): nat
  {
    if k == 0 then 0 else TakenHistories(f, k - 1) + if f(k - 1) then 1 else 0
  }

  lemma {:induction false} LessonsFromReset(f: nat -> bool, v: seq<nat>, k: nat)
    requires k <= |v| == HISTORIES
    ensures Lessons(f, RESET_ENTRY.counters, v, k) == Expected(f, v, k) <= 2 * TakenHistories(f, k) <= 2 * k
  {
    if k > 0 {
      LessonsFromReset(f, v, k - 1);
      assert RESET_ENTRY.counters[k - 1] == 0;
    }
  }

  lemma MistakesFromReset(s: State, es: seq<Event>, b: nat, target: nat, f: nat -> bool)
    requires s.Valid() && IsReset(s) && RegularRun(s, es, b, target, f)
    ensures Mistakes(s, es, b) == Expected(f, Visits(s, es, b), HISTORIES) <= 2 * TakenHistories(f, HISTORIES) <= 16
    ensures StallsAt(s, es, b) == PENALTY * Mistakes(s, es, b) <= 48
    ensures (forall e :: e in es ==> At(e, b)) ==>
      s.total <= RunEvents(s, es).total == s.total + PENALTY * Mistakes(s, es, b) <= s.total + 48
  {
    hide Lessons, Visits;
    assert s.bht[b % BHT_ENTRIES] == RESET_ENTRY;
    MistakesAreLessons(s, es, b, target, f);
    LessonsFromReset(f, Visits(s, es, b), HISTORIES);
    StallsAreMistakes(s, es, b);
    if forall e :: e in es ==> At(e, b) {
      LoneBranchCosts(s, es, b);
    }
  }

  // Three outcomes fill the history, the latest at its top.
  lemma HistoryIsLastThree(e: Entry, x: bool, y: bool, z: bool)
    requires e.Valid()
    ensures e.Updated(x).Updated(y).Updated(z).history ==
            (if x then 1 else 0) + (if y then 2 else 0) + (if z then 4 else 0)
  {
  }

  /// The return stack against a call stack without bound.

  function CallStackStep(stack: seq<nat>, e: Event): seq<nat>
  {
    match e
    case Call(_, _, link) => stack + [link]
    case Return(_, _) => if stack == [] then [] else stack[..|stack| - 1]
    case _ => stack
  }

  function CallStack(stack: seq<nat>, es: seq<Event>): seq<nat>
    decreases |es|
  {
    if es == [] then stack else CallStack(CallStackStep(stack, es[0]), es[1..])
  }

  // How many of its innermost entries are still remembered: a third call forgets the outermost.
  function RememberedStep(n: nat, e: Event): nat
  {
    match e
    case Call(_, _, _) => Min(2, n + 1)
    case Return(_, _) => Max(0, n - 1)
    case _ => n
  }

  function Remembered(n: nat, es: seq<Event>): nat
    decreases |es|
  {
    if es == [] then n else Remembered(RememberedStep(n, es[0]), es[1..])
  }

  ghost predicate Remembers(ras: seq<nat>, stack: seq<nat>, n: nat)
  {
    n <= |stack| && n <= RAS_SIZE && ras == stack[|stack| - n..]
  }

  lemma RasStep(s: State, e: Event)
    requires s.Valid()
    ensures Step(s, e).ras ==
            match e
            case Call(_, _, link) => Pushed(s.ras, link)
            case Return(_, _) => if s.ras == [] then [] else s.ras[..|s.ras| - 1]
            case _ => s.ras
  {
  }

  lemma PushRemembers(ras: seq<nat>, stack: seq<nat>, n: nat, link: nat)
    requires Remembers(ras, stack, n)
    ensures Remembers(Pushed(ras, link), stack + [link], Min(RAS_SIZE, n + 1))
  {
    var all := stack + [link];
    assert ras + [link] == all[|all| - (n + 1)..];
  }

  lemma PopRemembers(ras: seq<nat>, stack: seq<nat>, n: nat)
    requires Remembers(ras, stack, n) && n > 0
    ensures ras != [] && stack != [] && Remembers(ras[..|ras| - 1], stack[..|stack| - 1], n - 1)
    ensures ras[|ras| - 1] == stack[|stack| - 1]
  {
  }

  lemma RemembersStep(s: State, e: Event, stack: seq<nat>, n: nat)
    requires s.Valid() && Remembers(s.ras, stack, n)
    ensures Remembers(Step(s, e).ras, CallStackStep(stack, e), RememberedStep(n, e))
  {
    hide Step, Pushed;
    RasStep(s, e);
    match e
    case Call(lastPc, pc, link) => PushRemembers(s.ras, stack, n, link);
    case Return(lastPc, pc) =>
      if n > 0 {
        PopRemembers(s.ras, stack, n);
      }
    case _ =>
  }

  // After any run the stack holds the innermost entries of the unbounded one.
  lemma {:induction false} StackIsInnermost(s: State, es: seq<Event>, stack: seq<nat>, n: nat)
    requires s.Valid() && Remembers(s.ras, stack, n)
    ensures Remembers(RunEvents(s, es).ras, CallStack(stack, es), Remembered(n, es))
    decreases |es|
  {
    hide Remembers, Step, CallStackStep, RememberedStep;
    if es != [] {
      RemembersStep(s, es[0], stack, n);
      StackIsInnermost(Step(s, es[0]), es[1..], CallStackStep(stack, es[0]), RememberedStep(n, es[0]));
    }
  }

  // So a return to its caller costs nothing and touches no table while that caller is remembered.
  lemma RememberedReturnsAreFree(s: State, es: seq<Event>, stack: seq<nat>, n: nat, lastPc: nat)
    requires s.Valid() && Remembers(s.ras, stack, n) && Remembered(n, es) > 0
    ensures var t, calls := RunEvents(s, es), CallStack(stack, es);
      && calls != [] && t.ras != []
      && Step(t, Return(lastPc, calls[|calls| - 1])) == t.(ras := t.ras[..|t.ras| - 1])
  {
    StackIsInnermost(s, es, stack, n);
    PopRemembers(RunEvents(s, es).ras, CallStack(stack, es), Remembered(n, es));
  }

  /// What a run costs, from its events alone.

  // The outcomes of the branches that share an entry of the history table.
  function Outcomes(es: seq<Event>, k: nat): seq<bool>
  {
    if es == [] then []
    else
      var e := es[|es| - 1];
      Outcomes(es[..|es| - 1], k) + if e.Branch? && e.lastPc % 128 == k then [e.taken] else []
  }

  predicate TakenAgo(os: seq<bool>, n: nat)
    requires n > 0
  {
    n <= |os| && os[|os| - n]
  }

  // The last three outcomes, the latest at the top; before the first nothing was taken.
  function Pattern(os: seq<bool>): (h: nat)
    ensures h < 8
  {
    (if TakenAgo(os, 1) then 4 else 0) + (if TakenAgo(os, 2) then 2 else 0) + (if TakenAgo(os, 3) then 1 else 0)
  }

  // What followed the pattern h.
  function Under(os: seq<bool>, h: nat): seq<bool>
  {
    if os == [] then []
    else
      var p := os[..|os| - 1];
      Under(p, h) + if Pattern(p) == h then [os[|os| - 1]] else []
  }

  // Taken less not taken.
  function Net(os: seq<bool>): int
  {
    if os == [] then 0 else Net(os[..|os| - 1]) + if os[|os| - 1] then 1 else -1
  }

  // A counter from 0 to 3 stands at k or above: since some moment k more were taken than not, and since no later one
  // fewer than k - 3 more.
  ghost predicate Reaches(os: seq<bool>, k: int)
  {
    exists i :: 0 <= i <= |os| && Net(os[i..]) >= k && Stays(os, i, k)
  }

  predicate Stays(os: seq<bool>, i: int, k: int)
    requires 0 <= i <= |os|
  {
    forall j :: i <= j <= |os| ==> Net(os[j..]) >= k - 3
  }

  lemma NetSuffix(os: seq<bool>, b: bool, j: nat)
    requires j <= |os|
    ensures Net((os + [b])[j..]) == Net(os[j..]) + if b then 1 else -1
  {
    var s := (os + [b])[j..];
    assert s[..|s| - 1] == os[j..];
  }

  lemma ReachesStep(os: seq<bool>, b: bool, k: int)
    ensures Reaches(os + [b], k) <==> k <= 0 || (k <= 3 && Reaches(os, k - if b then 1 else -1))
  {
    hide Net;
    var t, d := os + [b], if b then 1 else -1;
    assert Net(t[|t|..]) == 0 by {
      NetOfNone();
      assert t[|t|..] == [];
    }
    forall j: nat | j <= |os| ensures Net(t[j..]) == Net(os[j..]) + d {
      NetSuffix(os, b, j);
    }
    if k <= 0 {
      assert Stays(t, |t|, k);
    } else {
      if Reaches(t, k) {
        var i :| 0 <= i <= |t| && Net(t[i..]) >= k && Stays(t, i, k);
        assert Net(t[|t|..]) >= k - 3;
        assert Net(os[i..]) >= k - d && Stays(os, i, k - d) by {
          forall j | i <= j <= |os| ensures Net(os[j..]) >= k - d - 3 {
            assert Net(t[j..]) >= k - 3;
          }
        }
      }
      if k <= 3 && Reaches(os, k - d) {
        var i :| 0 <= i <= |os| && Net(os[i..]) >= k - d && Stays(os, i, k - d);
        assert Net(t[i..]) >= k && Stays(t, i, k) by {
          forall j | i <= j <= |t| ensures Net(t[j..]) >= k - 3 {
            if j <= |os| {
              assert Net(os[j..]) >= k - d - 3;
            }
          }
        }
      }
    }
  }

  lemma NetOfNone()
    ensures Net([]) == 0
  {
  }

  // An entry that has seen these outcomes since reset.
  ghost predicate EntryFollows(e: Entry, os: seq<bool>)
  {
    && e.Valid() && e.history == Pattern(os)
    && forall h, k: int :: 0 <= h < 8 ==> (e.counters[h] >= k <==> Reaches(Under(os, h), k))
  }

  lemma FreshFollows()
    ensures EntryFollows(RESET_ENTRY, [])
  {
    forall h, k: int | 0 <= h < 8 ensures RESET_ENTRY.counters[h] >= k <==> Reaches(Under([], h), k) {
      NetOfNone();
      var none: seq<bool> := [];
      assert Under(none, h) == none && none[0..] == none;
      if k <= 0 {
        assert Stays(none, 0, k);
      }
    }
  }

  lemma PatternStep(os: seq<bool>, b: bool)
    ensures Pattern(os + [b]) == Pattern(os) / 2 + if b then 4 else 0
  {
    var t := os + [b];
    assert TakenAgo(t, 1) == b && TakenAgo(t, 2) == TakenAgo(os, 1) && TakenAgo(t, 3) == TakenAgo(os, 2);
  }

  lemma UnderStep(os: seq<bool>, b: bool, h: nat)
    ensures Under(os + [b], h) == Under(os, h) + if Pattern(os) == h then [b] else []
  {
    assert (os + [b])[..|os|] == os;
  }

  lemma UpdateFollows(e: Entry, os: seq<bool>, b: bool)
    requires EntryFollows(e, os)
    ensures EntryFollows(e.Updated(b), os + [b])
  {
    hide Pattern, Under, Reaches;
    PatternStep(os, b);
    forall h, k: int | 0 <= h < 8
      ensures e.Updated(b).counters[h] >= k <==> Reaches(Under(os + [b], h), k)
    {
      UnderStep(os, b, h);
      if h == e.history {
        ReachesStep(Under(os, h), b, k);
        assert e.counters[h] >= k - (if b then 1 else -1) <==> Reaches(Under(os, h), k - if b then 1 else -1);
      } else {
        assert Under(os, h) + [] == Under(os, h);
        assert e.counters[h] >= k <==> Reaches(Under(os, h), k);
      }
    }
  }

  // The return goes where the innermost remembered call came from.
  predicate ReturnsHome(es: seq<Event>, pc: nat)
  {
    var calls := CallStack([], es);
    Remembered(0, es) > 0 && calls != [] && calls[|calls| - 1] == pc
  }

  // The last target that went into slot j of the target buffer.
  function LastTarget(es: seq<Event>, j: nat): nat
  {
    if es == [] then 0
    else
      var before, e := es[..|es| - 1], es[|es| - 1];
      if e.lastPc % 40 == j && StoresTarget(before, e) then e.pc else LastTarget(before, j)
  }

  predicate StoresTarget(es: seq<Event>, e: Event)
  {
    match e
    case Branch(_, _, taken) => taken
    case Jump(_, _) => true
    case Call(_, _, _) => true
    case Return(_, pc) => !ReturnsHome(es, pc)
  }

  // Two of three steps of the counter under the present pattern make a prediction.
  ghost predicate PredictsTaken(es: seq<Event>, lastPc: nat)
  {
    var os := Outcomes(es, lastPc % 128);
    Reaches(Under(os, Pattern(os)), 2)
  }

  ghost predicate Mispredicted(es: seq<Event>, e: Event)
  {
    var known := LastTarget(es, e.lastPc % 40) == e.pc;
    match e
    case Branch(lastPc, _, taken) => if PredictsTaken(es, lastPc) then !(taken && known) else taken
    case Jump(_, _) => !known
    case Call(_, _, _) => !known
    case Return(_, pc) => !ReturnsHome(es, pc) && !known
  }

  ghost function Mispredictions(es: seq<Event>): nat
  {
    if es == [] then 0
    else
      var before := es[..|es| - 1];
      Mispredictions(before) + if Mispredicted(before, es[|es| - 1]) then 1 else 0
  }

  // The tables hold what the events say.
  ghost predicate Follows(t: State, es: seq<Event>)
  {
    && t.Valid()
    && (forall k :: 0 <= k < 128 ==> EntryFollows(t.bht[k], Outcomes(es, k)))
    && (forall j :: 0 <= j < 40 ==> t.btb[j] == LastTarget(es, j))
    && Remembers(t.ras, CallStack([], es), Remembered(0, es))
  }

  lemma {:induction false} RunOneMore(s: State, es: seq<Event>, e: Event)
    requires s.Valid()
    ensures RunEvents(s, es + [e]) == Step(RunEvents(s, es), e)
    decreases |es|
  {
    hide Step;
    if es == [] {
      assert ([] + [e])[1..] == [];
      assert RunEvents(Step(s, e), []) == Step(s, e);
    } else {
      assert (es + [e])[1..] == es[1..] + [e];
      RunOneMore(Step(s, es[0]), es[1..], e);
    }
  }

  lemma HomeIsOnTop(t: State, es: seq<Event>, pc: nat)
    requires Follows(t, es)
    ensures ReturnsHome(es, pc) <==> t.ras != [] && t.ras[|t.ras| - 1] == pc
  {
    hide EntryFollows, Outcomes, LastTarget, CallStack, Remembered;
  }

  lemma OutcomesStep(es: seq<Event>, e: Event, k: nat)
    ensures Outcomes(es + [e], k)
         == Outcomes(es, k) + if e.Branch? && e.lastPc % 128 == k then [e.taken] else []
  {
    assert (es + [e])[..|es|] == es;
  }

  lemma LastTargetStep(es: seq<Event>, e: Event, j: nat)
    ensures LastTarget(es + [e], j)
         == if e.lastPc % 40 == j && StoresTarget(es, e) then e.pc else LastTarget(es, j)
  {
    hide StoresTarget;
    assert (es + [e])[..|es|] == es;
  }

  lemma HistoryStep(t: State, es: seq<Event>, e: Event, k: nat)
    requires Follows(t, es) && k < 128
    ensures EntryFollows(Step(t, e).bht[k], Outcomes(es + [e], k))
  {
    hide EntryFollows, LastTarget, CallStack, Remembered, Remembers, Outcomes;
    OutcomesStep(es, e, k);
    var os := Outcomes(es, k);
    assert EntryFollows(t.bht[k], os) && os + [] == os;
    if e.Branch? && e.lastPc % 128 == k {
      UpdateFollows(t.bht[k], os, e.taken);
    }
  }

  lemma TargetStep(t: State, es: seq<Event>, e: Event, j: nat)
    requires Follows(t, es) && j < 40
    ensures Step(t, e).btb[j] == LastTarget(es + [e], j)
  {
    LastTargetStep(es, e, j);
    assert t.btb[j] == LastTarget(es, j);
    if e.Return? {
      HomeIsOnTop(t, es, e.pc);
    }
    hide EntryFollows, LastTarget, CallStack, Remembered, Remembers, Outcomes, ReturnsHome;
  }

  // Every run from reset follows its events.
  lemma {:induction false} RunFollows(s: State, es: seq<Event>)
    requires s.Valid() && IsReset(s)
    ensures Follows(RunEvents(s, es), es)
  {
    hide EntryFollows, Step;
    StackIsInnermost(s, es, [], 0);
    if es == [] {
      FreshFollows();
    } else {
      hide Outcomes, LastTarget, CallStack, Remembered, Remembers;
      var before, e := es[..|es| - 1], es[|es| - 1];
      assert es == before + [e];
      RunFollows(s, before);
      RunOneMore(s, before, e);
      var t := RunEvents(s, before);
      forall k | 0 <= k < 128 ensures EntryFollows(Step(t, e).bht[k], Outcomes(es, k)) {
        HistoryStep(t, before, e, k);
      }
      forall j | 0 <= j < 40 ensures Step(t, e).btb[j] == LastTarget(es, j) {
        TargetStep(t, before, e, j);
      }
    }
  }

  lemma EventCosts(t: State, es: seq<Event>, e: Event)
    requires Follows(t, es)
    ensures Step(t, e).total == t.total + if Mispredicted(es, e) then 3 else 0
  {
    var k := e.lastPc % 128;
    assert t.btb[e.lastPc % 40] == LastTarget(es, e.lastPc % 40);
    if e.Branch? {
      assert EntryFollows(t.bht[k], Outcomes(es, k));
    }
    if e.Return? {
      HomeIsOnTop(t, es, e.pc);
    }
    hide LastTarget, CallStack, Remembered, Remembers, Outcomes, ReturnsHome, Reaches, Under, Pattern;
  }

  // Each event of a run from reset costs 3 cycles or none, by the events before it: a branch on a wrong direction or
  // an unknown target, a jump or a call on an unknown target, a return on an unknown target unless it goes home.
  lemma EventOfRunCosts(s: State, es: seq<Event>, e: Event)
    requires s.Valid() && IsReset(s)
    ensures RunEvents(s, es + [e]).total == RunEvents(s, es).total + if Mispredicted(es, e) then 3 else 0
  {
    hide Step, Mispredicted, Follows, IsReset;
    RunFollows(s, es);
    EventCosts(RunEvents(s, es), es, e);
    RunOneMore(s, es, e);
  }

  lemma {:induction false} TotalIsMispredictions(s: State, es: seq<Event>)
    requires s.Valid() && IsReset(s)
    ensures RunEvents(s, es).total == s.total + 3 * Mispredictions(es)
  {
    hide Step, Mispredicted, IsReset;
    if es != [] {
      hide RunEvents;
      var before := es[..|es| - 1];
      assert es == before + [es[|es| - 1]];
      TotalIsMispredictions(s, before);
      EventOfRunCosts(s, before, es[|es| - 1]);
    }
  }
}
