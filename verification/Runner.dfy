/**
 The bounded-parallel test runner: a main loop that adds to a wait group, takes a slot of a counting
 semaphore and spawns, and goroutines that run a binary, record the first error under a mutex, give
 the slot back and leave the wait group, in that order.
 */
module Runner {
  import opened Prelude

  /** The main goroutine: the three statements of the loop body at binary i, then wg.Wait and the return. */
  datatype Main = Add(i: nat) | Acquire(i: nat) | Spawn(i: nat) | Wait | Returned(result: Option<nat>)

  /** The goroutine of one binary; Locking to Unlocking happen only when its process failed. */
  datatype Phase = Absent | Ready | Running | Locking | Writing | Unlocking | Releasing | Leaving | Gone

  /** sem is the number of slots taken, mu the goroutine that holds the mutex, firstErr the binary that
      the recorded error names. runs and failed are history: process starts and failures per binary. */
  datatype State = State(
    main: Main,
    phases: seq<Phase>,
    sem: nat,
    wg: int,
    mu: Option<nat>,
    firstErr: Option<nat>,
    runs: seq<nat>,
    failed: seq<bool>)

  /** A move of the main goroutine, or of goroutine g; ok is how its process ends, when that is the move. */
  datatype Move = MainMoves | Goroutine(g: nat, ok: bool)

  function Capacity(parallel: int): nat {
    if parallel < 1 then 1 else parallel
  }

  function Init(n: nat): State {
    State(
      if n == 0 then Returned(None) else Add(0),
      seq(n, _ => Absent), 0, 0, None, None, seq(n, _ => 0), seq(n, _ => false))
  }

  /** Whether the move can be made now; a receive from an empty semaphore and a second lock would block. */
  predicate Enabled(parallel: int, s: State, m: Move) {
    match m
    case MainMoves =>
      (match s.main
       case Add(_) => true
       case Acquire(_) => s.sem < Capacity(parallel)
       case Spawn(i) => i < |s.phases|
       case Wait => s.wg == 0
       case Returned(_) => false)
    case Goroutine(g, _) =>
      g < |s.phases| && g < |s.runs| && g < |s.failed| &&
      match s.phases[g]
      case Absent => false
      case Locking => s.mu.None?
      case Releasing => s.sem > 0
      case Gone => false
      case _ => true
  }

  function Step(parallel: int, s: State, m: Move): State
    requires Enabled(parallel, s, m)
  {
    match m
    case MainMoves =>
      (match s.main
       case Add(i) => s.(wg := s.wg + 1, main := Acquire(i))
       case Acquire(i) => s.(sem := s.sem + 1, main := Spawn(i))
       case Spawn(i) => s.(phases := s.phases[i := Ready], main := if i + 1 < |s.phases| then Add(i + 1) else Wait)
       case Wait => s.(main := Returned(s.firstErr)))
    case Goroutine(g, ok) =>
      match s.phases[g]
      case Ready => s.(phases := s.phases[g := Running], runs := s.runs[g := s.runs[g] + 1])
      case Running => s.(phases := s.phases[g := if ok then Releasing else Locking], failed := s.failed[g := !ok])
      case Locking => s.(phases := s.phases[g := Writing], mu := Some(g))
      case Writing => s.(phases := s.phases[g := Unlocking], firstErr := if s.firstErr.None? then Some(g) else s.firstErr)
      case Unlocking => s.(phases := s.phases[g := Releasing], mu := None)
      case Releasing => s.(phases := s.phases[g := Leaving], sem := s.sem - 1)
      case Leaving => s.(phases := s.phases[g := Gone], wg := s.wg - 1)
  }

  /** A run makes the moves of the script that are enabled and skips the others. */
  function Run(parallel: int, s: State, script: seq<Move>): State {
    if script == [] then s
    else
      var before, m := Run(parallel, s, script[..|script| - 1]), script[|script| - 1];
      if Enabled(parallel, before, m) then Step(parallel, before, m) else before
  }

  // ----- counting goroutines

  predicate HoldsSlot(p: Phase) {
    p.Ready? || p.Running? || p.Locking? || p.Writing? || p.Unlocking? || p.Releasing?
  }

  predicate IsOpen(p: Phase) {
    HoldsSlot(p) || p.Leaving?
  }

  function Slots(phases: seq<Phase>): nat {
    if phases == [] then 0
    else Slots(phases[..|phases| - 1]) + if HoldsSlot(phases[|phases| - 1]) then 1 else 0
  }

  function Open(phases: seq<Phase>): nat {
    if phases == [] then 0
    else Open(phases[..|phases| - 1]) + if IsOpen(phases[|phases| - 1]) then 1 else 0
  }

  function Processes(phases: seq<Phase>): nat {
    if phases == [] then 0
    else Processes(phases[..|phases| - 1]) + if phases[|phases| - 1].Running? then 1 else 0
  }

  /** Moves a goroutine still has to make, at most. */
  function Rank(p: Phase): nat {
    match p
    case Absent => 8
    case Ready => 7
    case Running => 6
    case Locking => 5
    case Writing => 4
    case Unlocking => 3
    case Releasing => 2
    case Leaving => 1
    case Gone => 0
  }

  function Ranks(phases: seq<Phase>): nat {
    if phases == [] then 0
    else Ranks(phases[..|phases| - 1]) + Rank(phases[|phases| - 1])
  }

  lemma {:induction false} Recount(phases: seq<Phase>, g: nat, p: Phase)
    requires g < |phases|
    ensures Slots(phases[g := p]) == Slots(phases) - (if HoldsSlot(phases[g]) then 1 else 0) + if HoldsSlot(p) then 1 else 0
    ensures Open(phases[g := p]) == Open(phases) - (if IsOpen(phases[g]) then 1 else 0) + if IsOpen(p) then 1 else 0
    ensures Ranks(phases[g := p]) == Ranks(phases) - Rank(phases[g]) + Rank(p)
  {
    var n := |phases| - 1;
    if g == n {
      assert phases[g := p][..n] == phases[..n];
    } else {
      Recount(phases[..n], g, p);
      assert phases[g := p][..n] == phases[..n][g := p];
    }
  }

  lemma {:induction false} ProcessesHoldSlots(phases: seq<Phase>)
    ensures Processes(phases) <= Slots(phases) <= Open(phases)
  {
    if phases != [] {
      ProcessesHoldSlots(phases[..|phases| - 1]);
    }
  }

  lemma {:induction false} NoneOpen(phases: seq<Phase>)
    requires Open(phases) == 0
    ensures forall g :: 0 <= g < |phases| ==> phases[g].Absent? || phases[g].Gone?
  {
    if phases != [] {
      NoneOpen(phases[..|phases| - 1]);
    }
  }

  lemma {:induction false} SlotHolder(phases: seq<Phase>) returns (g: nat)
    requires Slots(phases) > 0
    ensures g < |phases| && HoldsSlot(phases[g])
  {
    if HoldsSlot(phases[|phases| - 1]) {
      g := |phases| - 1;
    } else {
      g := SlotHolder(phases[..|phases| - 1]);
    }
  }

  lemma {:induction false} OpenGoroutine(phases: seq<Phase>) returns (g: nat)
    requires Open(phases) > 0
    ensures g < |phases| && IsOpen(phases[g])
  {
    if IsOpen(phases[|phases| - 1]) {
      g := |phases| - 1;
    } else {
      g := OpenGoroutine(phases[..|phases| - 1]);
    }
  }

  lemma {:induction false} NothingStarted(n: nat)
    ensures var phases := seq(n, _ => Absent);
      Slots(phases) == 0 && Open(phases) == 0 && Ranks(phases) == 8 * n
  {
    if n > 0 {
      NothingStarted(n - 1);
      assert seq(n, _ => Absent)[..n - 1] == seq(n - 1, _ => Absent);
    }
  }

  // ----- the invariant

  /** How many goroutines have been spawned. */
  function Spawned(s: State): nat {
    match s.main
    case Add(i) => i
    case Acquire(i) => i
    case Spawn(i) => i
    case Wait => |s.phases|
    case Returned(_) => |s.phases|
  }

  predicate Critical(p: Phase) {
    p.Writing? || p.Unlocking?
  }

  predicate Finished(p: Phase) {
    p.Releasing? || p.Leaving? || p.Gone?
  }

  /** What the fields say about goroutine g. */
  predicate GoroutineOk(s: State, g: nat)
    requires g < |s.phases| && |s.runs| == |s.failed| == |s.phases|
  {
    var p := s.phases[g];
    && (p.Absent? <==> g >= Spawned(s))
    && s.runs[g] == (if p.Absent? || p.Ready? then 0 else 1)
    && (s.failed[g] ==> !p.Absent? && !p.Ready? && !p.Running?)
    && (p.Locking? || Critical(p) ==> s.failed[g])
    && (Critical(p) <==> s.mu == Some(g))
    && (p.Unlocking? || (Finished(p) && s.failed[g]) ==> s.firstErr.Some?)
  }

  predicate Inv(parallel: int, s: State) {
    && |s.runs| == |s.failed| == |s.phases|
    && Spawned(s) <= |s.phases|
    && (s.main.Add? || s.main.Acquire? || s.main.Spawn? ==> Spawned(s) < |s.phases|)
    && (forall g :: 0 <= g < |s.phases| ==> GoroutineOk(s, g))
    && (s.mu.Some? ==> s.mu.value < |s.phases|)
    && (s.firstErr.Some? ==> s.firstErr.value < |s.phases| && s.failed[s.firstErr.value])
    && s.sem == Slots(s.phases) + (if s.main.Spawn? then 1 else 0)
    && s.sem <= Capacity(parallel)
    && s.wg == Open(s.phases) + (if s.main.Acquire? || s.main.Spawn? then 1 else 0)
    && (s.main.Returned? ==> Open(s.phases) == 0 && s.main.result == s.firstErr)
  }

  lemma InitOk(parallel: int, n: nat)
    ensures Inv(parallel, Init(n))
  {
    NothingStarted(n);
  }

  lemma MainKeeps(parallel: int, s: State)
    requires Inv(parallel, s) && Enabled(parallel, s, MainMoves)
    ensures Inv(parallel, Step(parallel, s, MainMoves))
  {
    hide Slots, Open, Ranks;
    if s.main.Spawn? {
      assert GoroutineOk(s, s.main.i);
      Recount(s.phases, s.main.i, Ready);
    }
    var next := Step(parallel, s, MainMoves);
    forall g | 0 <= g < |next.phases|
      ensures GoroutineOk(next, g)
    {
      assert GoroutineOk(s, g);
    }
  }

  lemma GoroutineKeeps(parallel: int, s: State, g: nat, ok: bool)
    requires Inv(parallel, s) && Enabled(parallel, s, Goroutine(g, ok))
    ensures Inv(parallel, Step(parallel, s, Goroutine(g, ok)))
  {
    hide Slots, Open, Ranks, GoroutineOk, Step;
    var next := Step(parallel, s, Goroutine(g, ok));
    GoroutineCounts(parallel, s, g, ok);
    assert GoroutineOk(s, g);
    forall h | 0 <= h < |next.phases|
      ensures GoroutineOk(next, h)
    {
      assert GoroutineOk(s, h);
      GoroutineLocal(parallel, s, g, ok, h);
    }
  }

  lemma GoroutineLocal(parallel: int, s: State, g: nat, ok: bool, h: nat)
    requires |s.runs| == |s.failed| == |s.phases| && Spawned(s) <= |s.phases| && h < |s.phases|
    requires Enabled(parallel, s, Goroutine(g, ok)) && GoroutineOk(s, g) && GoroutineOk(s, h)
    ensures var next := Step(parallel, s, Goroutine(g, ok));
      |next.runs| == |next.failed| == |next.phases| == |s.phases| && GoroutineOk(next, h)
  {
  }

  /** What a goroutine's move does outside its own phase. */
  lemma GoroutineCounts(parallel: int, s: State, g: nat, ok: bool)
    requires |s.runs| == |s.failed| == |s.phases|
    requires Enabled(parallel, s, Goroutine(g, ok)) && GoroutineOk(s, g)
    requires s.sem == Slots(s.phases) + (if s.main.Spawn? then 1 else 0)
    requires s.wg == Open(s.phases) + (if s.main.Acquire? || s.main.Spawn? then 1 else 0)
    requires s.main.Returned? ==> Open(s.phases) == 0
    requires s.firstErr.Some? ==> s.firstErr.value < |s.phases| && s.failed[s.firstErr.value]
    requires s.mu.Some? ==> s.mu.value < |s.phases|
    requires forall h :: 0 <= h < |s.phases| ==> GoroutineOk(s, h)
    ensures var next := Step(parallel, s, Goroutine(g, ok));
      && next.main == s.main && !s.main.Returned? && |next.runs| == |next.failed| == |next.phases| == |s.phases|
      && next.sem == Slots(next.phases) + (if s.main.Spawn? then 1 else 0) && next.sem <= s.sem
      && next.wg == Open(next.phases) + (if s.main.Acquire? || s.main.Spawn? then 1 else 0)
      && (next.firstErr.Some? ==> next.firstErr.value < |s.phases| && next.failed[next.firstErr.value])
      && (next.mu.Some? ==> next.mu.value < |s.phases|)
  {
    hide Slots, Open, Ranks;
    Recount(s.phases, g, Step(parallel, s, Goroutine(g, ok)).phases[g]);
    OpenCounted(s.phases, g);
    if s.firstErr.Some? {
      assert GoroutineOk(s, s.firstErr.value);
    }
  }

  lemma {:induction false} OpenCounted(phases: seq<Phase>, g: nat)
    requires g < |phases|
    ensures IsOpen(phases[g]) ==> Open(phases) > 0
  {
    if g < |phases| - 1 {
      OpenCounted(phases[..|phases| - 1], g);
    }
  }

  lemma {:induction false} RunKeeps(parallel: int, n: nat, script: seq<Move>)
    ensures Inv(parallel, Run(parallel, Init(n), script)) && |Run(parallel, Init(n), script).phases| == n
  {
    if script == [] {
      InitOk(parallel, n);
    } else {
      RunKeeps(parallel, n, script[..|script| - 1]);
      var s, m := Run(parallel, Init(n), script[..|script| - 1]), script[|script| - 1];
      if Enabled(parallel, s, m) {
        match m
        case MainMoves => MainKeeps(parallel, s);
        case Goroutine(g, ok) => GoroutineKeeps(parallel, s, g, ok);
      }
    }
  }

  // ----- the theorems

  /** The bound: whatever the interleaving, at most max(1, parallel) processes run at once, and the two counters
      count what they should. */
  lemma BoundedParallelism(parallel: int, n: nat, script: seq<Move>)
    ensures var s := Run(parallel, Init(n), script);
      && (Processes(s.phases) <= 1 || Processes(s.phases) <= parallel)
      && s.sem == Slots(s.phases) + (if s.main.Spawn? then 1 else 0)
      && s.wg == Open(s.phases) + (if s.main.Acquire? || s.main.Spawn? then 1 else 0)
      && s.wg >= 0
  {
    RunKeeps(parallel, n, script);
    ProcessesHoldSlots(Run(parallel, Init(n), script).phases);
  }

  /** Mutual exclusion: two goroutines never write the first error at the same time. */
  lemma FirstErrorIsExclusive(parallel: int, n: nat, script: seq<Move>, g: nat, h: nat)
    requires g < n && h < n
    ensures var s := Run(parallel, Init(n), script);
      |s.phases| == n && (Critical(s.phases[g]) && Critical(s.phases[h]) ==> g == h)
  {
    RunKeeps(parallel, n, script);
    var s := Run(parallel, Init(n), script);
    assert GoroutineOk(s, g) && GoroutineOk(s, h);
  }

  // ----- how the processes ended, read off the script

  /** Position k of the script ends the process of binary g, with success when ok. */
  predicate EndsAt(parallel: int, n: nat, script: seq<Move>, k: nat, g: nat, ok: bool) {
    && k < |script| && script[k] == Goroutine(g, ok)
    && var s := Run(parallel, Init(n), script[..k]);
       g < |s.phases| && g < |s.runs| && g < |s.failed| && s.phases[g].Running?
  }

  ghost predicate Ended(parallel: int, n: nat, script: seq<Move>, g: nat, ok: bool) {
    exists k: nat :: EndsAt(parallel, n, script, k, g, ok)
  }

  lemma EndedOn(parallel: int, n: nat, script: seq<Move>, g: nat, ok: bool)
    requires script != []
    ensures var front := script[..|script| - 1];
      Ended(parallel, n, script, g, ok) <==> Ended(parallel, n, front, g, ok) || EndsAt(parallel, n, script, |script| - 1, g, ok)
  {
    hide Run;
    var front := script[..|script| - 1];
    if Ended(parallel, n, front, g, ok) {
      var k: nat :| EndsAt(parallel, n, front, k, g, ok);
      assert front[..k] == script[..k];
      assert EndsAt(parallel, n, script, k, g, ok);
    }
    if Ended(parallel, n, script, g, ok) {
      var k: nat :| EndsAt(parallel, n, script, k, g, ok);
      if k < |front| {
        assert front[..k] == script[..k];
        assert EndsAt(parallel, n, front, k, g, ok);
      }
    }
  }

  predicate PastRunning(p: Phase) {
    !p.Absent? && !p.Ready? && !p.Running?
  }

  /** The history of failures is what the script did: a binary is failed exactly when its process ended with an error, and
      past its run exactly when its process ended. */
  lemma {:induction false} HistoryOfEnds(parallel: int, n: nat, script: seq<Move>, g: nat)
    requires g < n
    ensures var s := Run(parallel, Init(n), script);
      && |s.phases| == |s.failed| == |s.runs| == n
      && (s.failed[g] <==> Ended(parallel, n, script, g, false))
      && (PastRunning(s.phases[g]) <==> Ended(parallel, n, script, g, false) || Ended(parallel, n, script, g, true))
      && !(Ended(parallel, n, script, g, false) && Ended(parallel, n, script, g, true))
  {
    RunKeeps(parallel, n, script);
    if script != [] {
      hide Inv, Slots, Open, Ranks;
      var front, m := script[..|script| - 1], script[|script| - 1];
      var before := Run(parallel, Init(n), front);
      HistoryOfEnds(parallel, n, front, g);
      EndedOn(parallel, n, script, g, false);
      EndedOn(parallel, n, script, g, true);
      RunKeeps(parallel, n, front);
      InvAt(parallel, before, g);
      hide Run, Ended;
      RunSplits(parallel, n, script);
      OneEnd(parallel, before, m, g);
    }
  }

  lemma InvAt(parallel: int, s: State, g: nat)
    requires Inv(parallel, s) && g < |s.phases|
    ensures |s.runs| == |s.failed| == |s.phases| && GoroutineOk(s, g)
  {
  }

  lemma RunSplits(parallel: int, n: nat, script: seq<Move>)
    requires script != []
    ensures var before, m := Run(parallel, Init(n), script[..|script| - 1]), script[|script| - 1];
      Run(parallel, Init(n), script) == if Enabled(parallel, before, m) then Step(parallel, before, m) else before
  {
  }

  /** One move ends the process of g exactly when it is g's move while g is running. */
  lemma OneEnd(parallel: int, s: State, m: Move, g: nat)
    requires g < |s.phases| && |s.runs| == |s.failed| == |s.phases| && GoroutineOk(s, g)
    requires s.main.Spawn? ==> Spawned(s) < |s.phases|
    ensures var next := if Enabled(parallel, s, m) then Step(parallel, s, m) else s;
      && |next.phases| == |s.phases| && |next.failed| == |s.phases|
      && (next.failed[g] <==> s.failed[g] || (m == Goroutine(g, false) && s.phases[g].Running?))
      && (PastRunning(next.phases[g]) <==> PastRunning(s.phases[g]) || (m.Goroutine? && m.g == g && s.phases[g].Running?))
      && (s.failed[g] ==> PastRunning(s.phases[g]))
  {
  }

  /**
   The result. Once runBinaries returns, every binary has run exactly once, all slots are free, and its process has ended
   either with success or with an error. The result is nil exactly when every move that ended a process ended it with
   success, and otherwise it names a binary whose process ended with an error.
   */
  lemma ReturnedResult(parallel: int, n: nat, script: seq<Move>)
    requires Run(parallel, Init(n), script).main.Returned?
    ensures var s := Run(parallel, Init(n), script);
      && |s.phases| == |s.runs| == |s.failed| == n
      && (forall g :: 0 <= g < n ==> s.phases[g] == Gone && s.runs[g] == 1)
      && (forall g :: 0 <= g < n ==> (Ended(parallel, n, script, g, true) <==> !Ended(parallel, n, script, g, false)))
      && s.sem == 0 && s.wg == 0 && s.mu == None
      && (s.main.result.None? <==> forall k: nat, g: nat :: !EndsAt(parallel, n, script, k, g, false))
      && (s.main.result.Some? ==> s.main.result.value < n && Ended(parallel, n, script, s.main.result.value, false))
  {
    ReturnedFields(parallel, n, script);
    hide Run, Enabled, EndsAt;
    var s := Run(parallel, Init(n), script);
    forall g | 0 <= g < n
      ensures s.failed[g] <==> Ended(parallel, n, script, g, false)
      ensures Ended(parallel, n, script, g, true) <==> !Ended(parallel, n, script, g, false)
    {
      HistoryOfEnds(parallel, n, script, g);
    }
    forall k: nat, g: nat | EndsAt(parallel, n, script, k, g, false)
      ensures g < n && Ended(parallel, n, script, g, false)
    {
      EndsKnown(parallel, n, script, k, g);
    }
  }

  lemma EndsKnown(parallel: int, n: nat, script: seq<Move>, k: nat, g: nat)
    requires EndsAt(parallel, n, script, k, g, false)
    ensures g < n && Ended(parallel, n, script, g, false)
  {
    hide Run;
    RunKeeps(parallel, n, script[..k]);
  }

  /** The same in the fields of the final state. */
  lemma ReturnedFields(parallel: int, n: nat, script: seq<Move>)
    requires Run(parallel, Init(n), script).main.Returned?
    ensures var s := Run(parallel, Init(n), script);
      && |s.phases| == |s.runs| == |s.failed| == n
      && (forall g :: 0 <= g < n ==> s.phases[g] == Gone && s.runs[g] == 1)
      && s.sem == 0 && s.wg == 0 && s.mu == None
      && (s.main.result.None? <==> forall g :: 0 <= g < n ==> !s.failed[g])
      && (s.main.result.Some? ==> s.main.result.value < n && s.failed[s.main.result.value])
  {
    RunKeeps(parallel, n, script);
    var s := Run(parallel, Init(n), script);
    NoneOpen(s.phases);
    ProcessesHoldSlots(s.phases);
    forall g | 0 <= g < n
      ensures s.phases[g] == Gone && s.runs[g] == 1 && (s.failed[g] ==> s.firstErr.Some?) && s.mu != Some(g)
    {
      assert GoroutineOk(s, g);
    }
  }

  /** The error recorded first is the one returned: later failures never overwrite it. */
  lemma {:induction false} FirstErrorStays(parallel: int, s: State, script: seq<Move>)
    requires s.firstErr.Some?
    ensures Run(parallel, s, script).firstErr == s.firstErr
  {
    if script != [] {
      FirstErrorStays(parallel, s, script[..|script| - 1]);
    }
  }

  // ----- the bound is reached

  /** The first k binaries are running and nothing else has been spawned. */
  function Launched(n: nat, k: nat): State
    requires k <= n
  {
    State(
      if n == 0 then Returned(None) else if k < n then Add(k) else Wait,
      seq(n, g requires 0 <= g < n => if g < k then Running else Absent), k, k, None, None,
      seq(n, g requires 0 <= g < n => if g < k then 1 else 0), seq(n, _ => false))
  }

  lemma {:induction false} LaunchedProcesses(phases: seq<Phase>, k: nat)
    requires k <= |phases| && forall g :: 0 <= g < |phases| ==> phases[g] == if g < k then Running else Absent
    ensures Processes(phases) == k
  {
    if phases != [] {
      LaunchedProcesses(phases[..|phases| - 1], if k == |phases| then k - 1 else k);
    }
  }

  lemma LaunchOne(parallel: int, n: nat, k: nat, script: seq<Move>)
    requires k < n && (k == 0 || k < parallel)
    requires Run(parallel, Init(n), script) == Launched(n, k)
    ensures Run(parallel, Init(n), script + [MainMoves] + [MainMoves] + [MainMoves] + [Goroutine(k, true)]) == Launched(n, k + 1)
  {
    RunOn(parallel, Init(n), script, MainMoves);
    RunOn(parallel, Init(n), script + [MainMoves], MainMoves);
    RunOn(parallel, Init(n), script + [MainMoves] + [MainMoves], MainMoves);
    RunOn(parallel, Init(n), script + [MainMoves] + [MainMoves] + [MainMoves], Goroutine(k, true));
    hide Run;
    var s := Launched(n, k);
    var spawned := s.(wg := k + 1, sem := k + 1, phases := s.phases[k := Ready], main := if k + 1 < n then Add(k + 1) else Wait);
    assert Run(parallel, Init(n), script + [MainMoves] + [MainMoves] + [MainMoves]) == spawned;
    assert Step(parallel, spawned, Goroutine(k, true)) == Launched(n, k + 1) by {
      assert s.phases[k := Ready][k := Running] == Launched(n, k + 1).phases;
      assert s.runs[k := 1] == Launched(n, k + 1).runs;
    }
  }

  lemma RunOn(parallel: int, s: State, script: seq<Move>, m: Move)
    ensures var before := Run(parallel, s, script);
      Run(parallel, s, script + [m]) == if Enabled(parallel, before, m) then Step(parallel, before, m) else before
  {
    hide Step, Enabled;
    assert (script + [m])[..|script|] == script;
  }

  /** The parallelism is real: every number of processes up to the length of the list and to parallel, and one process
      when parallel is smaller than one, runs at once under some schedule. */
  lemma {:induction false} ParallelismReached(parallel: int, n: nat, k: nat) returns (script: seq<Move>)
    requires k <= n && (k <= 1 || k <= parallel)
    ensures Run(parallel, Init(n), script) == Launched(n, k)
    ensures Processes(Run(parallel, Init(n), script).phases) == k
  {
    hide Step, Enabled;
    if k == 0 {
      script := [];
      NothingLaunched(n);
    } else {
      var before := ParallelismReached(parallel, n, k - 1);
      LaunchOne(parallel, n, k - 1, before);
      script := before + [MainMoves] + [MainMoves] + [MainMoves] + [Goroutine(k - 1, true)];
    }
    LaunchedProcesses(Launched(n, k).phases, k);
  }

  lemma NothingLaunched(n: nat)
    ensures Launched(n, 0) == Init(n)
  {
    assert Launched(n, 0).phases == Init(n).phases;
    assert Launched(n, 0).runs == Init(n).runs;
  }

  function MainLeft(s: State): nat {
    match s.main
    case Add(i) => if i < |s.phases| then 3 * (|s.phases| - i) + 1 else 1
    case Acquire(i) => if i < |s.phases| then 3 * (|s.phases| - i) else 1
    case Spawn(i) => if i < |s.phases| then 3 * (|s.phases| - i) - 1 else 1
    case Wait => 1
    case Returned(_) => 0
  }

  /** An upper bound on the moves that are left. */
  function Left(s: State): nat {
    MainLeft(s) + Ranks(s.phases)
  }

  lemma MainDecreases(parallel: int, s: State)
    requires Inv(parallel, s) && Enabled(parallel, s, MainMoves)
    ensures Left(Step(parallel, s, MainMoves)) < Left(s)
  {
    hide Slots, Open, Ranks;
    if s.main.Spawn? {
      assert GoroutineOk(s, s.main.i);
      Recount(s.phases, s.main.i, Ready);
    }
  }

  lemma GoroutineDecreases(parallel: int, s: State, g: nat, ok: bool)
    requires Enabled(parallel, s, Goroutine(g, ok))
    ensures Left(Step(parallel, s, Goroutine(g, ok))) < Left(s)
  {
    hide Slots, Open, Ranks;
    Recount(s.phases, g, Step(parallel, s, Goroutine(g, ok)).phases[g]);
  }

  /** Every move brings the end closer. */
  lemma MovesDecrease(parallel: int, s: State, m: Move)
    requires Inv(parallel, s) && Enabled(parallel, s, m)
    ensures Left(Step(parallel, s, m)) < Left(s)
  {
    hide Left, Inv, Enabled, Step;
    match m
    case MainMoves => MainDecreases(parallel, s);
    case Goroutine(g, ok) => GoroutineDecreases(parallel, s, g, ok);
  }

  /** A goroutine that has been spawned and is not gone can move, or waits for a mutex whose holder can move. */
  lemma OpenCanMove(parallel: int, s: State, g: nat, ok: bool) returns (h: nat)
    requires Inv(parallel, s) && g < |s.phases| && IsOpen(s.phases[g])
    ensures Enabled(parallel, s, Goroutine(h, ok))
  {
    h := g;
    assert GoroutineOk(s, g);
    if s.phases[g].Locking? && s.mu.Some? {
      h := s.mu.value;
      assert GoroutineOk(s, h);
    } else if s.phases[g].Releasing? {
      SlotCounted(s.phases, g);
    }
  }

  lemma {:induction false} SlotCounted(phases: seq<Phase>, g: nat)
    requires g < |phases| && HoldsSlot(phases[g])
    ensures Slots(phases) > 0
  {
    if g < |phases| - 1 {
      SlotCounted(phases[..|phases| - 1], g);
    }
  }

  /** No deadlock: as long as runBinaries has not returned some move is enabled, for every list length and every value
      of parallel, however the running processes are going to end. */
  lemma NeverStuck(parallel: int, n: nat, script: seq<Move>, ok: bool) returns (m: Move)
    ensures var s := Run(parallel, Init(n), script);
      s.main.Returned? || (Enabled(parallel, s, m) && (m.Goroutine? ==> m.ok == ok))
  {
    RunKeeps(parallel, n, script);
    var s := Run(parallel, Init(n), script);
    m := MainMoves;
    if s.main.Acquire? && s.sem == Capacity(parallel) {
      var g := SlotHolder(s.phases);
      var h := OpenCanMove(parallel, s, g, ok);
      m := Goroutine(h, ok);
    } else if s.main.Wait? && s.wg > 0 {
      var g := OpenGoroutine(s.phases);
      var h := OpenCanMove(parallel, s, g, ok);
      m := Goroutine(h, ok);
    }
  }

  /** The number of moves of the script that are really made. */
  function Made(parallel: int, s: State, script: seq<Move>): nat {
    if script == [] then 0
    else
      var front, m := script[..|script| - 1], script[|script| - 1];
      Made(parallel, s, front) + if Enabled(parallel, Run(parallel, s, front), m) then 1 else 0
  }

  /** Every run is short: with n binaries no schedule makes more than 11 n + 1 moves, so a run that keeps making
      enabled moves returns. */
  lemma {:induction false} RunsEnd(parallel: int, n: nat, script: seq<Move>)
    ensures Made(parallel, Init(n), script) + Left(Run(parallel, Init(n), script)) <= 11 * n + 1
  {
    if script == [] {
      NothingStarted(n);
    } else {
      var front, m := script[..|script| - 1], script[|script| - 1];
      RunsEnd(parallel, n, front);
      RunKeeps(parallel, n, front);
      var s := Run(parallel, Init(n), front);
      if Enabled(parallel, s, m) {
        MovesDecrease(parallel, s, m);
      }
    }
  }
}
