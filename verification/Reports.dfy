/**
 The number that AddSpendingUnits reports, against the rows that were inserted: for one batch under any
 failures, and for every handler of an interleaved system.
 */
module Reports {
  import opened Prelude
  import opened Identity
  import opened Gateway
  import opened Tables
  import opened Requests
  import opened Serving
  import opened Batch
  import opened System
  import Billing

  /** How many items a handler can still count, on top of its total. */
  function Countable(pc: Pc): (int, nat) {
    match pc
    case EnsureCredit(_, goal) => GoalCountable(goal)
    case EnsureAccount(_, goal) => GoalCountable(goal)
    case EnsureCreditAgain(_, goal) => GoalCountable(goal)
    case Insert(loop) => (loop.total, |loop.rest| + 1)
    case Charge(loop) => (loop.total, |loop.rest|)
    case Finished(answer) => if answer.Added? then (answer.total, 0) else (0, 0)
    case _ => (0, 0)
  }

  function GoalCountable(goal: Goal): (int, nat) {
    if goal.ThenInsert? then (goal.loop.total, |goal.loop.rest| + 1) else (0, 0)
  }

  /** The handler is in the ledger loop or has reported a total. */
  predicate Counts(pc: Pc) {
    match pc
    case EnsureCredit(_, goal) => goal.ThenInsert?
    case EnsureAccount(_, goal) => goal.ThenInsert?
    case EnsureCreditAgain(_, goal) => goal.ThenInsert?
    case Insert(_) => true
    case Charge(_) => true
    case Finished(answer) => answer.Added?
    case _ => false
  }

  lemma JudgeCountsNothing(cfg: Config, sub: Subscription, spent: int, email: string)
    ensures !Judge(cfg, sub, spent, email).Added?
  {
  }

  /** In the loop the total grows by exactly the rows that a call inserts; elsewhere nothing is inserted or counted. */
  ghost predicate Tallies(t: Tables, u: Tables, pc: Pc, next: Pc) {
    && |t.units| <= |u.units| <= |t.units| + 1
    && (|t.units| < |u.units| ==> pc.Insert?)
    && (Counts(next) ==>
        && Counts(pc)
        && Countable(next).0 == Countable(pc).0 + |u.units| - |t.units|
        && Countable(next).0 + Countable(next).1 <= Countable(pc).0 + Countable(pc).1)
  }

  lemma CountStep(cfg: Config, stripe: Stripe, fault: Fault, t: Tables, pc: Pc)
    requires !pc.Finished?
    ensures var (u, reply) := Effect(cfg, stripe, fault, t, pc);
      Tallies(t, u, pc, Resume(cfg, stripe.now, pc, reply))
  {
    hide Effect, Resume, Tallies;
    if InLoop(pc) {
      LoopTallies(cfg, stripe, fault, t, pc);
    } else if pc.EnsureCredit? || pc.EnsureAccount? || pc.EnsureCreditAgain? {
      EnsureTallies(cfg, stripe, fault, t, pc);
    } else {
      OtherTallies(cfg, stripe, fault, t, pc);
    }
  }

  lemma LoopTallies(cfg: Config, stripe: Stripe, fault: Fault, t: Tables, pc: Pc)
    requires InLoop(pc)
    ensures var (u, reply) := Effect(cfg, stripe, fault, t, pc);
      Tallies(t, u, pc, Resume(cfg, stripe.now, pc, reply))
  {
    hide HasUnit, Spend, Key, UnitRowOf, NextItem;
    var total, reply := pc.loop.total, Effect(cfg, stripe, fault, t, pc).1;
    NextItemCounts(pc.loop.rest, pc.loop.ensured, if pc.Insert? && reply.Number? then total + reply.n else total);
  }

  lemma EnsureTallies(cfg: Config, stripe: Stripe, fault: Fault, t: Tables, pc: Pc)
    requires pc.EnsureCredit? || pc.EnsureAccount? || pc.EnsureCreditAgain?
    ensures var (u, reply) := Effect(cfg, stripe, fault, t, pc);
      Tallies(t, u, pc, Resume(cfg, stripe.now, pc, reply))
  {
    hide Key, Grant, Merged;
  }

  lemma OtherTallies(cfg: Config, stripe: Stripe, fault: Fault, t: Tables, pc: Pc)
    requires !pc.Finished? && !InLoop(pc) && !pc.EnsureCredit? && !pc.EnsureAccount? && !pc.EnsureCreditAgain?
    ensures var (u, reply) := Effect(cfg, stripe, fault, t, pc);
      Tallies(t, u, pc, Resume(cfg, stripe.now, pc, reply))
  {
    hide HasUnit, SumBetween, Merged, IsCancelled, Key, Judge;
    if pc.CountSpending? {
      var reply := Effect(cfg, stripe, fault, t, pc).1;
      JudgeCountsNothing(cfg, pc.subscription, if reply.Number? then reply.n else 0, pc.email);
    }
  }

  lemma NextItemCounts(items: seq<SpendingUnit>, ensured: set<Bytes>, total: int)
    ensures Counts(NextItem(items, ensured, total)) ==> Countable(NextItem(items, ensured, total)) == (total, |items|)
  {
  }

  /** A reported total counts each remaining item at most once. */
  lemma {:induction false} AddedAtMost(cfg: Config, stripe: Stripe, faults: nat -> Fault, t: Tables, tick: nat, pc: Pc)
    ensures var ran := RunAlone(cfg, stripe, faults, t, tick, pc);
      ran.answer.Added? ==> Counts(pc) && Countable(pc).0 <= ran.answer.total <= Countable(pc).0 + Countable(pc).1
    decreases CallsLeft(pc)
  {
    if !pc.Finished? {
      hide Effect, Resume, CallsLeft;
      var (u, reply) := Effect(cfg, stripe, faults(tick), t, pc);
      CallsDecrease(cfg, stripe.now, pc, reply);
      CountStep(cfg, stripe, faults(tick), t, pc);
      AddedAtMost(cfg, stripe, faults, u, tick + 1, Resume(cfg, stripe.now, pc, reply));
    }
  }

  // ----- one batch under failures

  /** How many insert statements the run executes. */
  function Inserts(cfg: Config, stripe: Stripe, faults: nat -> Fault, t: Tables, tick: nat, pc: Pc): nat
    decreases CallsLeft(pc)
  {
    if pc.Finished? then 0
    else
      var (u, reply) := Effect(cfg, stripe, faults(tick), t, pc);
      var next := Resume(cfg, stripe.now, pc, reply);
      CallsDecrease(cfg, stripe.now, pc, reply);
      Executes(pc, faults(tick)) + Inserts(cfg, stripe, faults, u, tick + 1, next)
  }

  /** The items whose insert is still to come. */
  function Todo(pc: Pc): seq<SpendingUnit> {
    match pc
    case EnsureCredit(_, goal) => GoalTodo(goal)
    case EnsureAccount(_, goal) => GoalTodo(goal)
    case EnsureCreditAgain(_, goal) => GoalTodo(goal)
    case Insert(loop) => [loop.item] + loop.rest
    case Charge(loop) => loop.rest
    case _ => []
  }

  function GoalTodo(goal: Goal): seq<SpendingUnit> {
    if goal.ThenInsert? then [goal.loop.item] + goal.loop.rest else []
  }

  /** The memo is right, and an insert is reached only for a user with credit. */
  ghost predicate MemoOk(cfg: Config, t: Tables, pc: Pc) {
    match pc
    case EnsureCredit(user, goal) => goal.ThenInsert? ==> user == goal.loop.item.userId && EnsuredOk(cfg, t, goal.loop.ensured)
    case EnsureAccount(user, goal) => goal.ThenInsert? ==> user == goal.loop.item.userId && EnsuredOk(cfg, t, goal.loop.ensured)
    case EnsureCreditAgain(user, goal) => goal.ThenInsert? ==> user == goal.loop.item.userId && EnsuredOk(cfg, t, goal.loop.ensured)
    case Insert(loop) => EnsuredOk(cfg, t, loop.ensured) && Key(cfg, loop.item.userId) in t.credit
    case Charge(loop) => EnsuredOk(cfg, t, loop.ensured)
    case _ => true
  }

  predicate CreditHasAccounts(t: Tables) {
    t.credit.Keys <= t.accounts.Keys
  }

  lemma NextItemTodo(cfg: Config, t: Tables, items: seq<SpendingUnit>, ensured: set<Bytes>, total: int)
    requires EnsuredOk(cfg, t, ensured)
    ensures var next := NextItem(items, ensured, total);
      MemoOk(cfg, t, next) && if Counts(next) then Todo(next) == items && Countable(next).0 == total else Stopped(next)
  {
  }

  lemma LoopStep(cfg: Config, stripe: Stripe, fault: Fault, t: Tables, pc: Pc)
    requires InLoop(pc) && MemoOk(cfg, t, pc) && CreditHasAccounts(t)
    ensures var (u, reply) := Effect(cfg, stripe, fault, t, pc);
      var next := Resume(cfg, stripe.now, pc, reply);
      && CreditHasAccounts(u) && MemoOk(cfg, u, next)
      && u.units == t.units + (if Executes(pc, fault) == 1 then FreshRow(cfg, t.units, pc.loop.item) else [])
      && (if Counts(next) then !(pc.Insert? && fault.FailsBefore?) && Todo(pc) == (if pc.Insert? then [pc.loop.item] else []) + Todo(next)
          else Stopped(next))
  {
    hide NextItem, Key, HasUnit, Spend, EnsuredOk;
    var (u, reply) := Effect(cfg, stripe, fault, t, pc);
    EnsuredLasts(cfg, t, u, pc.loop.ensured);
    UnitRowUser(cfg, pc.loop.item);
    NextItemTodo(cfg, u, pc.loop.rest, pc.loop.ensured, pc.loop.total);
    NextItemTodo(cfg, u, pc.loop.rest, pc.loop.ensured, pc.loop.total + 0);
  }

  lemma EnsuredLasts(cfg: Config, t: Tables, u: Tables, ensured: set<Bytes>)
    requires EnsuredOk(cfg, t, ensured) && t.credit.Keys <= u.credit.Keys
    ensures EnsuredOk(cfg, u, ensured)
  {
  }

  lemma EnsureStep(cfg: Config, stripe: Stripe, fault: Fault, t: Tables, pc: Pc)
    requires !pc.Finished? && Counts(pc) && !InLoop(pc) && MemoOk(cfg, t, pc) && CreditHasAccounts(t)
    ensures var (u, reply) := Effect(cfg, stripe, fault, t, pc);
      var next := Resume(cfg, stripe.now, pc, reply);
      && CreditHasAccounts(u) && MemoOk(cfg, u, next)
      && u.units == t.units
      && (if Counts(next) then Todo(pc) == Todo(next) else Stopped(next))
  {
    hide Key, HasUnit, Spend, Grant;
  }

  lemma IsNewFront(cfg: Config, units: seq<UnitRow>, it: SpendingUnit, rest: seq<SpendingUnit>, j: nat)
    requires j < |rest|
    ensures IsNew(cfg, units, [it] + rest, j + 1) <==> IsNew(cfg, units + FreshRow(cfg, units, it), rest, j)
  {
    hide HasUnit, FreshRow, Key;
    var items, e := [it] + rest, Key(cfg, rest[j].externalId);
    FreshHas(cfg, units, it, e);
    assert items[0] == it && items[j + 1] == rest[j];
    assert forall i :: 0 < i < j + 1 ==> items[i] == rest[i - 1];
    if IsNew(cfg, units, items, j + 1) {
      forall i | 0 <= i < j
        ensures Key(cfg, rest[i].externalId) != e
      {
        assert items[i + 1] == rest[i];
      }
    }
  }

  lemma {:induction false} NewRowsFront(cfg: Config, units: seq<UnitRow>, it: SpendingUnit, rest: seq<SpendingUnit>, k: nat)
    requires k <= |rest|
    ensures var head := FreshRow(cfg, units, it);
      NewRows(cfg, units, [it] + rest, k + 1) == head + NewRows(cfg, units + head, rest, k)
  {
    var items, head := [it] + rest, FreshRow(cfg, units, it);
    if k > 0 {
      hide HasUnit, FreshRow, IsNew, NewRows;
      NewRowsFront(cfg, units, it, rest, k - 1);
      IsNewFront(cfg, units, it, rest, k - 1);
      assert items[k] == rest[k - 1];
      NewRowsStep(cfg, units, items, k);
      NewRowsStep(cfg, units + head, rest, k - 1);
    } else {
      hide *;
      FirstRow(cfg, units, it, rest);
    }
  }

  lemma FirstRow(cfg: Config, units: seq<UnitRow>, it: SpendingUnit, rest: seq<SpendingUnit>)
    ensures var head := FreshRow(cfg, units, it);
      NewRows(cfg, units, [it] + rest, 1) == head + NewRows(cfg, units + head, rest, 0)
  {
    hide HasUnit;
    assert NewRows(cfg, units, [it] + rest, 0) == [];
    assert IsNew(cfg, units, [it] + rest, 0) <==> !HasUnit(units, Key(cfg, it.externalId));
  }

  lemma FreshHas(cfg: Config, units: seq<UnitRow>, it: SpendingUnit, e: Digest)
    ensures HasUnit(units + FreshRow(cfg, units, it), e) <==> HasUnit(units, e) || Key(cfg, it.externalId) == e
  {
    var row := UnitRowOf(cfg, it);
    HasUnitConcat(units, FreshRow(cfg, units, it), e);
    assert HasUnit([row], e) <==> row.externalId == e;
  }

  /** A run that executed k of the inserts of todo left the new rows among them, and a reported total counts them all. */
  ghost predicate RowsClaim(cfg: Config, units: seq<UnitRow>, todo: seq<SpendingUnit>, total: int, ran: Ran, k: nat) {
    && k <= |todo|
    && ran.tables.units == units + NewRows(cfg, units, todo, k)
    && (ran.answer.Added? || ran.answer.Failed?)
    && (ran.answer.Added? ==> k == |todo| && ran.answer.total == total + |ran.tables.units| - |units|)
  }

  lemma ClaimInsert(cfg: Config, units: seq<UnitRow>, it: SpendingUnit, rest: seq<SpendingUnit>, total: int, ran: Ran, k: nat)
    requires var head := FreshRow(cfg, units, it); RowsClaim(cfg, units + head, rest, total + |head|, ran, k)
    ensures RowsClaim(cfg, units, [it] + rest, total, ran, k + 1)
  {
    hide FreshRow, NewRows;
    NewRowsFront(cfg, units, it, rest, k);
  }

  lemma ClaimStop(cfg: Config, units: seq<UnitRow>, todo: seq<SpendingUnit>, total: int, ran: Ran)
    requires ran.tables.units == units
    requires ran.answer.Failed? || (ran.answer == Added(total) && todo == [])
    ensures RowsClaim(cfg, units, todo, total, ran, 0)
  {
  }

  /** From any point of the loop: the inserts executed decide the rows, and an answer counts them all. */
  lemma {:induction false} RowsOf(cfg: Config, stripe: Stripe, faults: nat -> Fault, t: Tables, tick: nat, pc: Pc)
    requires CreditHasAccounts(t) && MemoOk(cfg, t, pc)
    requires Counts(pc) || Stopped(pc)
    ensures RowsClaim(cfg, t.units, Todo(pc), Countable(pc).0,
      RunAlone(cfg, stripe, faults, t, tick, pc), Inserts(cfg, stripe, faults, t, tick, pc))
    decreases CallsLeft(pc)
  {
    hide *;
    if pc.Finished? {
      RowsAtEnd(cfg, stripe, faults, t, tick, pc);
    } else {
      var (u, reply) := Effect(cfg, stripe, faults(tick), t, pc);
      var next := Resume(cfg, stripe.now, pc, reply);
      CallsDecrease(cfg, stripe.now, pc, reply);
      CountStep(cfg, stripe, faults(tick), t, pc);
      TalliesTotal(t, u, pc, next);
      StoppedEnds(pc);
      AnyStep(cfg, stripe, faults(tick), t, pc);
      RowsOf(cfg, stripe, faults, u, tick + 1, next);
      OneCall(cfg, stripe, faults, t, tick, pc, u, next);
      OneInsert(cfg, stripe, faults, t, tick, pc, u, next);
      ClaimStep(cfg, faults(tick), t, u, pc, next,
        RunAlone(cfg, stripe, faults, u, tick + 1, next), Inserts(cfg, stripe, faults, u, tick + 1, next));
    }
  }

  lemma RowsAtEnd(cfg: Config, stripe: Stripe, faults: nat -> Fault, t: Tables, tick: nat, pc: Pc)
    requires pc.Finished? && (Counts(pc) || Stopped(pc))
    ensures RowsClaim(cfg, t.units, Todo(pc), Countable(pc).0,
      RunAlone(cfg, stripe, faults, t, tick, pc), Inserts(cfg, stripe, faults, t, tick, pc))
  {
    hide RowsClaim;
    ClaimStop(cfg, t.units, [], Countable(pc).0, Ran(t, tick, pc.answer));
  }

  function Executes(pc: Pc, fault: Fault): nat {
    if pc.Insert? && !fault.FailsBefore? then 1 else 0
  }

  lemma ClaimStep(cfg: Config, fault: Fault, t: Tables, u: Tables, pc: Pc, next: Pc, ran: Ran, rest: nat)
    requires u.units == t.units + if Executes(pc, fault) == 1 then FreshRow(cfg, t.units, pc.loop.item) else []
    requires Counts(next) ==> Countable(next).0 == Countable(pc).0 + |u.units| - |t.units|
    requires if Counts(next) then !(pc.Insert? && fault.FailsBefore?) && Todo(pc) == (if pc.Insert? then [pc.loop.item] else []) + Todo(next)
             else Stopped(next)
    requires Stopped(next) ==> ran.answer == next.answer && ran.tables == u && rest == 0
    requires RowsClaim(cfg, u.units, Todo(next), Countable(next).0, ran, rest)
    ensures RowsClaim(cfg, t.units, Todo(pc), Countable(pc).0, ran, Executes(pc, fault) + rest)
  {
    hide Todo, Countable, RowsClaim, FreshRow, NewRows;
    if Stopped(next) {
      if Executes(pc, fault) == 1 {
        var head := FreshRow(cfg, t.units, pc.loop.item);
        InsertedTodo(pc);
        ClaimStop(cfg, u.units, pc.loop.rest, Countable(pc).0 + |head|, ran);
        ClaimInsert(cfg, t.units, pc.loop.item, pc.loop.rest, Countable(pc).0, ran, 0);
      } else {
        ClaimStop(cfg, t.units, Todo(pc), Countable(pc).0, ran);
      }
    } else if pc.Insert? {
      ClaimInsert(cfg, t.units, pc.loop.item, Todo(next), Countable(pc).0, ran, rest);
    } else {
      assert u.units == t.units && Todo(pc) == Todo(next);
    }
  }

  lemma OneInsert(cfg: Config, stripe: Stripe, faults: nat -> Fault, t: Tables, tick: nat, pc: Pc, u: Tables, next: Pc)
    requires !pc.Finished?
    requires var (v, reply) := Effect(cfg, stripe, faults(tick), t, pc); u == v && next == Resume(cfg, stripe.now, pc, reply)
    ensures Inserts(cfg, stripe, faults, t, tick, pc)
         == Executes(pc, faults(tick)) + Inserts(cfg, stripe, faults, u, tick + 1, next)
    ensures Stopped(next) ==> RunAlone(cfg, stripe, faults, u, tick + 1, next) == Ran(u, tick + 1, next.answer)
    ensures Stopped(next) ==> Inserts(cfg, stripe, faults, u, tick + 1, next) == 0
  {
    CallsDecrease(cfg, stripe.now, pc, Effect(cfg, stripe, faults(tick), t, pc).1);
  }

  predicate Stopped(pc: Pc) {
    pc.Finished? && pc.answer.Failed?
  }

  lemma StoppedEnds(pc: Pc)
    ensures Stopped(pc) ==> pc.Finished?
  {
  }

  lemma InsertedTodo(pc: Pc)
    requires pc.Insert?
    ensures Todo(pc) == [pc.loop.item] + pc.loop.rest
  {
  }

  lemma TalliesTotal(t: Tables, u: Tables, pc: Pc, next: Pc)
    requires Tallies(t, u, pc, next)
    ensures Counts(next) ==> Countable(next).0 == Countable(pc).0 + |u.units| - |t.units|
  {
  }

  lemma AnyStep(cfg: Config, stripe: Stripe, fault: Fault, t: Tables, pc: Pc)
    requires !pc.Finished? && Counts(pc) && MemoOk(cfg, t, pc) && CreditHasAccounts(t)
    ensures var (u, reply) := Effect(cfg, stripe, fault, t, pc);
      var next := Resume(cfg, stripe.now, pc, reply);
      && CreditHasAccounts(u) && MemoOk(cfg, u, next)
      && u.units == t.units + (if Executes(pc, fault) == 1 then FreshRow(cfg, t.units, pc.loop.item) else [])
      && (if Counts(next) then !(pc.Insert? && fault.FailsBefore?) && Todo(pc) == (if pc.Insert? then [pc.loop.item] else []) + Todo(next)
          else Stopped(next))
  {
    hide Effect, Resume, MemoOk, Todo, Counts, FreshRow;
    if InLoop(pc) {
      LoopStep(cfg, stripe, fault, t, pc);
    } else {
      EnsureStep(cfg, stripe, fault, t, pc);
    }
  }

  /** What the Go function returns as its count: 0 beside every error. */
  function Reported(answer: Answer): int {
    if answer.Added? then answer.total else 0
  }

  lemma {:induction false} NoneNew(cfg: Config, units: seq<UnitRow>, items: seq<SpendingUnit>, k: nat)
    requires k <= |items|
    ensures NewRows(cfg, units, items, k) == [] <==> forall i :: 0 <= i < k ==> !IsNew(cfg, units, items, i)
  {
    if k > 0 {
      hide IsNew;
      NoneNew(cfg, units, items, k - 1);
    }
  }

  /**
   The promised row count. Whatever fails, and whatever the items, the rows a batch leaves are those of the new
   items among the ones whose insert was executed. A total, when one is reported, is their number and covers the
   whole batch. So the count returned is the number of rows inserted exactly when a total is reported or none of
   those items was new.
   */
  lemma ReportedRows(cfg: Config, stripe: Stripe, faults: nat -> Fault, t: Tables, tick: nat, items: seq<SpendingUnit>)
    requires CreditHasAccounts(t)
    ensures var ran := RunAlone(cfg, stripe, faults, t, tick, NextItem(items, {}, 0));
      var k := Inserts(cfg, stripe, faults, t, tick, NextItem(items, {}, 0));
      && k <= |items|
      && ran.tables.units == t.units + NewRows(cfg, t.units, items, k)
      && (ran.answer.Added? || ran.answer.Failed?)
      && (ran.answer.Added? ==> k == |items| && ran.answer.total == |ran.tables.units| - |t.units|)
      && (Reported(ran.answer) == |ran.tables.units| - |t.units|
          <==> ran.answer.Added? || forall i :: 0 <= i < k ==> !IsNew(cfg, t.units, items, i))
  {
    var pc := NextItem(items, {}, 0);
    NextItemTodo(cfg, t, items, {}, 0);
    if Counts(pc) {
      hide RunAlone, Inserts, NextItem, NewRows, IsNew, Todo, Counts, MemoOk;
      RowsOf(cfg, stripe, faults, t, tick, pc);
      NoneNew(cfg, t.units, items, Inserts(cfg, stripe, faults, t, tick, pc));
    } else {
      assert t.units + [] == t.units;
    }
  }

  /** Every call works but one, which fails before its effect. */
  function FailsOnce(failing: nat): nat -> Fault {
    n => if n == failing then FailsBefore else Works
  }

  /** The report does fall short: on any well-formed tables, when the first item of a batch is new, there is a call whose
      failure alone leaves that item's row stored while the function returns 0 beside its error. */
  lemma ShortReport(cfg: Config, stripe: Stripe, t: Tables, a: SpendingUnit, b: SpendingUnit)
    returns (failing: nat)
    requires WellFormed(t) && ItemOk(a) && Accepted(b) && !HasUnit(t.units, Key(cfg, a.externalId))
    ensures var ran := RunAlone(cfg, stripe, FailsOnce(failing), t, 0, NextItem([a, b], {}, 0));
      && ran.answer == Failed(DatabaseError) && Reported(ran.answer) == 0
      && ran.tables.units == t.units + [UnitRowOf(cfg, a)]
  {
    hide RunAlone, Key, WellFormed, HasUnit, Spend;
    var u, loop := Key(cfg, a.userId), Loop(a, [b], {}, 0);
    var calls := if u in t.credit || u in t.accounts then 1 else 3;
    failing := calls + 2;
    assert [a, b][1..] == [b] && NextItem([a, b], {}, 0) == EnsureCredit(a.userId, ThenInsert(loop));
    EnsuredKeeps(cfg, t, u);
    SpendFits(Ensured(cfg, t, u), u, ToInt32(a.amount));
    EnsureCalls(cfg, stripe, FailsOnce(failing), t, loop);
    ShortTail(cfg, stripe, FailsOnce(failing), Ensured(cfg, t, u), calls, loop.(ensured := {} + {a.userId}));
  }

  /** Ensuring credit takes one call, or three when the user is not known at all. */
  lemma EnsureCalls(cfg: Config, stripe: Stripe, faults: nat -> Fault, t: Tables, loop: Loop)
    requires faults(0).Works? && faults(1).Works? && faults(2).Works?
    ensures var user := loop.item.userId;
      var u := Key(cfg, user);
      RunAlone(cfg, stripe, faults, t, 0, EnsureCredit(user, ThenInsert(loop)))
      == RunAlone(cfg, stripe, faults, Ensured(cfg, t, u), if u in t.credit || u in t.accounts then 1 else 3,
           Insert(loop.(ensured := loop.ensured + {user})))
  {
    hide RunAlone, Key, Grant;
    var user, goal := loop.item.userId, ThenInsert(loop);
    var u := Key(cfg, user);
    var inserting := Insert(loop.(ensured := loop.ensured + {user}));
    if u in t.credit || u in t.accounts {
      OneCall(cfg, stripe, faults, t, 0, EnsureCredit(user, goal), Ensured(cfg, t, u), inserting);
    } else {
      var t1 := t.(accounts := t.accounts[u := NO_SUBSCRIPTION]);
      OneCall(cfg, stripe, faults, t, 0, EnsureCredit(user, goal), t, EnsureAccount(user, goal));
      OneCall(cfg, stripe, faults, t, 1, EnsureAccount(user, goal), t1, EnsureCreditAgain(user, goal));
      OneCall(cfg, stripe, faults, t1, 2, EnsureCreditAgain(user, goal), Ensured(cfg, t, u), inserting);
    }
  }

  lemma ShortTail(cfg: Config, stripe: Stripe, faults: nat -> Fault, t: Tables, tick: nat, loop: Loop)
    requires var u := Key(cfg, loop.item.userId); u in t.credit && u in t.accounts && IsInt32(Spend(t.credit[u], ToInt32(loop.item.amount)))
    requires loop.rest != [] && Accepted(loop.rest[0]) && !HasUnit(t.units, Key(cfg, loop.item.externalId))
    requires faults(tick).Works? && faults(tick + 1).Works? && faults(tick + 2).FailsBefore?
    ensures var ran := RunAlone(cfg, stripe, faults, t, tick, Insert(loop));
      ran.answer == Failed(DatabaseError) && ran.tables.units == t.units + [UnitRowOf(cfg, loop.item)]
  {
    hide RunAlone, Key, HasUnit, Spend;
    var t1 := t.(units := t.units + [UnitRowOf(cfg, loop.item)]);
    var charging := loop.(total := loop.total + 1);
    OneCall(cfg, stripe, faults, t, tick, Insert(loop), t1, Charge(charging));
    var t2 := Exec(t1, ConsumeCredit(Key(cfg, loop.item.userId), ToInt32(loop.item.amount))).0;
    var last := NextItem(loop.rest, loop.ensured, charging.total);
    OneCall(cfg, stripe, faults, t1, tick + 1, Charge(charging), t2, last);
    OneCall(cfg, stripe, faults, t2, tick + 2, last, t2, Finished(Failed(DatabaseError)));
    OneEnd(cfg, stripe, faults, t2, tick + 3, Failed(DatabaseError));
  }

  lemma OneCall(cfg: Config, stripe: Stripe, faults: nat -> Fault, t: Tables, tick: nat, pc: Pc, u: Tables, next: Pc)
    requires !pc.Finished?
    requires var (v, reply) := Effect(cfg, stripe, faults(tick), t, pc); u == v && next == Resume(cfg, stripe.now, pc, reply)
    ensures RunAlone(cfg, stripe, faults, t, tick, pc) == RunAlone(cfg, stripe, faults, u, tick + 1, next)
  {
    CallsDecrease(cfg, stripe.now, pc, Effect(cfg, stripe, faults(tick), t, pc).1);
  }

  lemma OneEnd(cfg: Config, stripe: Stripe, faults: nat -> Fault, t: Tables, tick: nat, answer: Answer)
    ensures RunAlone(cfg, stripe, faults, t, tick, Finished(answer)) == Ran(t, tick, answer)
  {
  }

  // ----- every handler of an interleaved system

  /** The handler that inserts a row in this move, if one does. */
  function Inserter(cfg: Config, s: System, m: Move): seq<nat> {
    if m.Act? && |Step(cfg, s, m).tables.units| > |s.tables.units| then [m.p] else []
  }

  /** For every row of spending_unit, in order, the handler that inserted it. */
  function Inserters(cfg: Config, s: System, script: seq<Move>): seq<nat> {
    if script == [] then []
    else
      var front := script[..|script| - 1];
      Inserters(cfg, s, front) + Inserter(cfg, Run(cfg, s, front), script[|script| - 1])
  }

  ghost predicate AllTallied(s: System, inserters: seq<nat>) {
    && |inserters| == |s.tables.units|
    && (forall p :: p in inserters ==> p < |s.procs|)
    && (forall p :: 0 <= p < |s.procs| && Counts(s.procs[p].pc) ==> Countable(s.procs[p].pc).0 == multiset(inserters)[p])
  }

  lemma StartCounts(req: Request)
    ensures Counts(Start(req)) ==> Countable(Start(req)).0 == 0
  {
  }

  lemma StepTallied(cfg: Config, s: System, m: Move, inserters: seq<nat>)
    requires AllTallied(s, inserters)
    ensures AllTallied(Step(cfg, s, m), inserters + Inserter(cfg, s, m))
  {
    hide Effect, Resume, Counts, Countable, Start;
    var next := Step(cfg, s, m);
    assert multiset(inserters + Inserter(cfg, s, m)) == multiset(inserters) + multiset(Inserter(cfg, s, m));
    if m.Arrive? {
      StartCounts(m.req);
      assert |s.procs| !in inserters;
    } else if m.Act? && CanAct(s, m.p) {
      CountStep(cfg, s.stripe, m.fault, s.tables, s.procs[m.p].pc);
    }
  }

  lemma {:induction false} RunTallied(cfg: Config, stripe: Stripe, script: seq<Move>)
    ensures AllTallied(Run(cfg, Init(stripe), script), Inserters(cfg, Init(stripe), script))
  {
    if script != [] {
      hide Step, AllTallied, Inserter;
      var front := script[..|script| - 1];
      RunTallied(cfg, stripe, front);
      StepTallied(cfg, Run(cfg, Init(stripe), front), script[|script| - 1], Inserters(cfg, Init(stripe), front));
    } else {
      assert AllTallied(Init(stripe), []);
    }
  }

  /** However requests interleave and calls fail, a handler that reports a total reports exactly the rows of
      spending_unit that it inserted itself. */
  lemma OwnRowsReported(cfg: Config, stripe: Stripe, script: seq<Move>, p: nat)
    requires var s := Run(cfg, Init(stripe), script);
      p < |s.procs| && s.procs[p].pc.Finished? && s.procs[p].pc.answer.Added?
    ensures var s, inserters := Run(cfg, Init(stripe), script), Inserters(cfg, Init(stripe), script);
      |inserters| == |s.tables.units| && multiset(inserters)[p] == s.procs[p].pc.answer.total
  {
    hide Run, Inserters;
    RunTallied(cfg, stripe, script);
    assert Counts(Run(cfg, Init(stripe), script).procs[p].pc);
  }

  // ----- nothing that is reported as added is missing

  predicate ComesIn(todo: seq<SpendingUnit>, id: Bytes) {
    exists x :: x in todo && x.externalId == id
  }

  /** Every item of the request has a row, or its insert is still to come. */
  ghost predicate Recorded(cfg: Config, t: Tables, items: seq<RpcItem>, pc: Pc) {
    forall it :: it in items ==> HasUnit(t.units, Key(cfg, it.externalId)) || ComesIn(Todo(pc), it.externalId)
  }

  ghost predicate RecordedAt(cfg: Config, s: System, p: nat)
    requires p < |s.procs|
  {
    s.procs[p].req.AddUnits? && Counts(s.procs[p].pc) ==> Recorded(cfg, s.tables, s.procs[p].req.items, s.procs[p].pc)
  }

  lemma StartRecorded(cfg: Config, t: Tables, items: seq<RpcItem>)
    ensures Counts(Start(AddUnits(items))) ==> Recorded(cfg, t, items, Start(AddUnits(items)))
  {
    var pc := Start(AddUnits(items));
    if Counts(pc) {
      var units := Converted(items);
      NextItemTodo(cfg, t, units, {}, 0);
      forall it | it in items
        ensures ComesIn(Todo(pc), it.externalId)
      {
        var i :| 0 <= i < |items| && items[i] == it;
        assert units[i] in Todo(pc) && units[i].externalId == it.externalId;
      }
    }
  }

  lemma RowsStay(units: seq<UnitRow>, more: seq<UnitRow>, e: Digest)
    requires units <= more && HasUnit(units, e)
    ensures HasUnit(more, e)
  {
    HasUnitConcat(units, more[|units|..], e);
    assert units + more[|units|..] == more;
  }

  lemma ComesAfter(item: SpendingUnit, rest: seq<SpendingUnit>, id: Bytes)
    requires ComesIn([item] + rest, id)
    ensures item.externalId == id || ComesIn(rest, id)
  {
  }

  /** The handler's own call: an item leaves the list of those to come only with its row in place. */
  lemma OwnCallRecorded(cfg: Config, stripe: Stripe, fault: Fault, t: Tables, pc: Pc, items: seq<RpcItem>)
    requires !pc.Finished? && Counts(pc) && MemoOk(cfg, t, pc) && CreditHasAccounts(t) && Recorded(cfg, t, items, pc)
    ensures var (u, reply) := Effect(cfg, stripe, fault, t, pc);
      var next := Resume(cfg, stripe.now, pc, reply);
      Counts(next) ==> Recorded(cfg, u, items, next)
  {
    hide Effect, Resume, MemoOk, Todo, Counts, FreshRow, HasUnit, ComesIn, Key;
    AnyStep(cfg, stripe, fault, t, pc);
    var (u, reply) := Effect(cfg, stripe, fault, t, pc);
    var next := Resume(cfg, stripe.now, pc, reply);
    if Counts(next) {
      forall it | it in items
        ensures HasUnit(u.units, Key(cfg, it.externalId)) || ComesIn(Todo(next), it.externalId)
      {
        var e := Key(cfg, it.externalId);
        if HasUnit(t.units, e) {
          RowsStay(t.units, u.units, e);
        } else if pc.Insert? {
          ComesAfter(pc.loop.item, Todo(next), it.externalId);
          FreshHas(cfg, t.units, pc.loop.item, e);
        } else {
          assert [] + Todo(next) == Todo(next);
        }
      }
    }
  }

  lemma PointMemo(cfg: Config, s: System, p: nat)
    requires Billing.Inv(cfg, s) && p < |s.procs|
    ensures MemoOk(cfg, s.tables, s.procs[p].pc) && CreditHasAccounts(s.tables)
  {
    hide Billing.Books, Billing.Balances, Billing.Positive;
    assert PointOk(cfg, s.tables, s.procs[p].pc);
  }

  lemma StepRecorded(cfg: Config, s: System, m: Move, p: nat)
    requires Billing.Inv(cfg, s) && p < |Step(cfg, s, m).procs|
    requires p < |s.procs| ==> RecordedAt(cfg, s, p)
    ensures RecordedAt(cfg, Step(cfg, s, m), p)
  {
    hide Effect, Resume, Start, Counts, MemoOk, Todo, HasUnit, ComesIn, Key, Billing.Inv;
    var next := Step(cfg, s, m);
    if p >= |s.procs| {
      if m.req.AddUnits? {
        StartRecorded(cfg, s.tables, m.req.items);
      }
    } else if next.procs[p].req.AddUnits? && Counts(next.procs[p].pc) {
      var items := next.procs[p].req.items;
      if m.Act? && m.p == p && CanAct(s, p) {
        PointMemo(cfg, s, p);
        CountStep(cfg, s.stripe, m.fault, s.tables, s.procs[p].pc);
        CountedBefore(s.tables, next.tables, s.procs[p].pc, next.procs[p].pc);
        OwnCallRecorded(cfg, s.stripe, m.fault, s.tables, s.procs[p].pc, items);
      } else {
        UnitsGrow(cfg, s, m);
        forall it | it in items && HasUnit(s.tables.units, Key(cfg, it.externalId))
          ensures HasUnit(next.tables.units, Key(cfg, it.externalId))
        {
          RowsStay(s.tables.units, next.tables.units, Key(cfg, it.externalId));
        }
      }
    }
  }

  lemma CountedBefore(t: Tables, u: Tables, pc: Pc, next: Pc)
    requires Tallies(t, u, pc, next) && Counts(next)
    ensures Counts(pc)
  {
  }

  lemma UnitsGrow(cfg: Config, s: System, m: Move)
    requires Billing.Inv(cfg, s)
    ensures s.tables.units <= Step(cfg, s, m).tables.units
  {
    hide Step, Billing.Inv;
    Billing.StepKeepsInv(cfg, s, m);
  }

  lemma {:induction false} RunRecorded(cfg: Config, stripe: Stripe, script: seq<Move>, p: nat)
    requires p < |Run(cfg, Init(stripe), script).procs|
    ensures RecordedAt(cfg, Run(cfg, Init(stripe), script), p)
    ensures Billing.Inv(cfg, Run(cfg, Init(stripe), script))
  {
    Billing.InitInv(cfg, stripe);
    Billing.RunKeepsInv(cfg, Init(stripe), script);
    if script != [] {
      hide Step, RecordedAt, Billing.Inv;
      var front := script[..|script| - 1];
      var s := Run(cfg, Init(stripe), front);
      Billing.RunKeepsInv(cfg, Init(stripe), front);
      if p < |s.procs| {
        RunRecorded(cfg, stripe, front, p);
      }
      StepRecorded(cfg, s, script[|script| - 1], p);
    }
  }

  /** Exactly-once ingestion: however requests interleave and calls fail, once a request has been answered with a total,
      every one of its items has a row in spending_unit, and no more than one. */
  lemma AddedIsRecorded(cfg: Config, stripe: Stripe, script: seq<Move>, p: nat)
    requires var s := Run(cfg, Init(stripe), script);
      p < |s.procs| && s.procs[p].req.AddUnits? && s.procs[p].pc.Finished? && s.procs[p].pc.answer.Added?
    ensures var s := Run(cfg, Init(stripe), script);
      && (forall it :: it in s.procs[p].req.items ==> HasUnit(s.tables.units, Key(cfg, it.externalId)))
      && DistinctUnits(s.tables.units)
  {
    hide Run, HasUnit, Key, Billing.Books, Billing.Balances, Billing.Positive, Billing.PointsOk;
    RunRecorded(cfg, stripe, script, p);
  }

  // ----- no row comes from nowhere

  /** x is an item of the request's message. */
  ghost predicate ItemFrom(req: Request, x: SpendingUnit) {
    req.AddUnits? &&
    exists i :: 0 <= i < |req.items| &&
      x == SpendingUnit(req.items[i].externalId, req.items[i].userId, req.items[i].amount, req.items[i].createdAt)
  }

  /** r is the row of an item of the request's message. */
  ghost predicate RowFrom(cfg: Config, req: Request, r: UnitRow) {
    req.AddUnits? &&
    exists i :: 0 <= i < |req.items| &&
      r == UnitRow(Key(cfg, req.items[i].externalId), Key(cfg, req.items[i].userId), req.items[i].amount, req.items[i].createdAt)
  }

  lemma RowOfItem(cfg: Config, req: Request, x: SpendingUnit)
    requires ItemFrom(req, x)
    ensures RowFrom(cfg, req, UnitRowOf(cfg, x))
  {
    hide Key;
  }

  ghost predicate TodoFrom(s: System, p: nat)
    requires p < |s.procs|
  {
    Counts(s.procs[p].pc) ==> forall x :: x in Todo(s.procs[p].pc) ==> ItemFrom(s.procs[p].req, x)
  }

  lemma StartTodo(req: Request)
    ensures Counts(Start(req)) ==> forall x :: x in Todo(Start(req)) ==> ItemFrom(req, x)
  {
    hide NextItem;
    if req.AddUnits? && Counts(Start(req)) {
      var units := Converted(req.items);
      TodoOfStart(units);
      forall x | x in units
        ensures ItemFrom(req, x)
      {
        var i :| 0 <= i < |units| && units[i] == x;
      }
    }
  }

  lemma TodoOfStart(units: seq<SpendingUnit>)
    ensures Counts(NextItem(units, {}, 0)) ==> Todo(NextItem(units, {}, 0)) == units
  {
  }

  lemma StepTodo(cfg: Config, s: System, m: Move, p: nat)
    requires Billing.Inv(cfg, s) && p < |Step(cfg, s, m).procs|
    requires p < |s.procs| ==> TodoFrom(s, p)
    ensures TodoFrom(Step(cfg, s, m), p)
  {
    hide Effect, Resume, Start, Counts, MemoOk, Todo, HasUnit, ItemFrom, FreshRow, Billing.Inv;
    if p >= |s.procs| {
      StartTodo(m.req);
    } else if m.Act? && m.p == p && CanAct(s, p) && Counts(Step(cfg, s, m).procs[p].pc) {
      var next := Step(cfg, s, m).procs[p].pc;
      PointMemo(cfg, s, p);
      CountStep(cfg, s.stripe, m.fault, s.tables, s.procs[p].pc);
      CountedBefore(s.tables, Step(cfg, s, m).tables, s.procs[p].pc, next);
      AnyStep(cfg, s.stripe, m.fault, s.tables, s.procs[p].pc);
      assert forall x :: x in Todo(next) ==> x in Todo(s.procs[p].pc);
    }
  }

  /** The row that a move appends is the row of the item at which its handler stands. */
  lemma AppendedRow(cfg: Config, s: System, m: Move)
    requires |Step(cfg, s, m).tables.units| > |s.tables.units|
    ensures m.Act? && CanAct(s, m.p) && s.procs[m.p].pc.Insert?
    ensures Step(cfg, s, m).tables.units == s.tables.units + [UnitRowOf(cfg, s.procs[m.p].pc.loop.item)]
  {
    hide Effect, Resume, Exec, UnitRowOf;
    assert m.Act? && CanAct(s, m.p);
    var pc := s.procs[m.p].pc;
    CountStep(cfg, s.stripe, m.fault, s.tables, pc);
    Billing.InsertCall(cfg, s.stripe, m.fault, s.tables, pc);
    Billing.InsertAppends(cfg, s.tables, pc.loop.item);
  }

  ghost predicate Owned(cfg: Config, s: System, inserters: seq<nat>) {
    && |inserters| == |s.tables.units|
    && forall k :: 0 <= k < |inserters| ==> inserters[k] < |s.procs| && RowFrom(cfg, s.procs[inserters[k]].req, s.tables.units[k])
  }

  lemma SameRequests(cfg: Config, s: System, m: Move)
    ensures |Step(cfg, s, m).procs| >= |s.procs|
    ensures forall p :: 0 <= p < |s.procs| ==> Step(cfg, s, m).procs[p].req == s.procs[p].req
  {
    hide Effect, Resume, Start;
  }

  lemma StepOwned(cfg: Config, s: System, m: Move, inserters: seq<nat>)
    requires Billing.Inv(cfg, s) && Owned(cfg, s, inserters)
    requires forall p :: 0 <= p < |s.procs| ==> TodoFrom(s, p)
    ensures Owned(cfg, Step(cfg, s, m), inserters + Inserter(cfg, s, m))
  {
    hide Step, RowFrom, TodoFrom, UnitRowOf, Billing.Inv;
    SameRequests(cfg, s, m);
    UnitsGrow(cfg, s, m);
    if |Step(cfg, s, m).tables.units| > |s.tables.units| {
      AppendedRow(cfg, s, m);
      AboutToInsert(cfg, s, m.p);
    } else {
      assert Step(cfg, s, m).tables.units == s.tables.units;
    }
  }

  lemma AboutToInsert(cfg: Config, s: System, p: nat)
    requires CanAct(s, p) && s.procs[p].pc.Insert? && TodoFrom(s, p)
    ensures RowFrom(cfg, s.procs[p].req, UnitRowOf(cfg, s.procs[p].pc.loop.item))
  {
    hide ItemFrom, RowFrom, UnitRowOf;
    InsertedTodo(s.procs[p].pc);
    assert s.procs[p].pc.loop.item in Todo(s.procs[p].pc);
    RowOfItem(cfg, s.procs[p].req, s.procs[p].pc.loop.item);
  }

  lemma {:induction false} RunOwned(cfg: Config, stripe: Stripe, script: seq<Move>)
    ensures var s := Run(cfg, Init(stripe), script);
      && Billing.Inv(cfg, s)
      && (forall p :: 0 <= p < |s.procs| ==> TodoFrom(s, p))
      && Owned(cfg, s, Inserters(cfg, Init(stripe), script))
  {
    Billing.InitInv(cfg, stripe);
    if script != [] {
      hide Step, Owned, TodoFrom, Inserter, Billing.Inv;
      var front, m := script[..|script| - 1], script[|script| - 1];
      var s := Run(cfg, Init(stripe), front);
      RunOwned(cfg, stripe, front);
      Billing.StepKeepsInv(cfg, s, m);
      StepOwned(cfg, s, m, Inserters(cfg, Init(stripe), front));
      forall p | 0 <= p < |Step(cfg, s, m).procs|
        ensures TodoFrom(Step(cfg, s, m), p)
      {
        StepTodo(cfg, s, m, p);
      }
    }
  }

  /** Every row of spending_unit, in every reachable state, was inserted by a handler for an item of that handler's own
      request: its event id, its user, its amount and its time, as the message had them. */
  lemma RowsAreRequested(cfg: Config, stripe: Stripe, script: seq<Move>, k: nat)
    requires k < |Run(cfg, Init(stripe), script).tables.units|
    ensures var s, inserters := Run(cfg, Init(stripe), script), Inserters(cfg, Init(stripe), script);
      && |inserters| == |s.tables.units| && inserters[k] < |s.procs| && s.procs[inserters[k]].req.AddUnits?
      && var items := s.procs[inserters[k]].req.items;
         exists i :: 0 <= i < |items| && s.tables.units[k]
           == UnitRow(Key(cfg, items[i].externalId), Key(cfg, items[i].userId), items[i].amount, items[i].createdAt)
  {
    hide Run, Inserters, Key, Billing.Inv;
    RunOwned(cfg, stripe, script);
    var s, inserters := Run(cfg, Init(stripe), script), Inserters(cfg, Init(stripe), script);
    assert RowFrom(cfg, s.procs[inserters[k]].req, s.tables.units[k]);
  }
}
