/**
 Any number of requests served at once. In one move a request arrives, a request makes its next
 external call, or Stripe and the clock change. A script is any sequence of moves, so every
 interleaving of calls, every failure and every abandoned handler is some script.
 */
module System {
  import opened Identity
  import opened Gateway
  import opened Tables
  import opened Requests

  datatype Proc = Proc(req: Request, pc: Pc)

  /** A subscription that a checkout saw cancelled and then replaced. */
  datatype Retired = Retired(user: Digest, subscriptionId: string)

  /**
   charges, lost and retired are history: the rows whose charge has committed, the rows that were
   inserted and whose charge will never be made, and the subscriptions replaced so far.
   */
  datatype System = System(
    tables: Tables,
    stripe: Stripe,
    procs: seq<Proc>,
    charges: seq<UnitRow>,
    lost: seq<UnitRow>,
    retired: set<Retired>)

  datatype Move = Arrive(req: Request) | Act(p: nat, fault: Fault) | Drift(stripe: Stripe)

  function Init(stripe: Stripe): System {
    System(EMPTY, stripe, [], [], [], {})
  }

  predicate CanAct(s: System, p: nat) {
    p < |s.procs| && !s.procs[p].pc.Finished?
  }

  function Charged(cfg: Config, pc: Pc, fault: Fault): seq<UnitRow> {
    if pc.Charge? && !fault.FailsBefore? then [UnitRowOf(cfg, pc.loop.item)] else []
  }

  function Lost(cfg: Config, t: Tables, pc: Pc, fault: Fault): seq<UnitRow> {
    if pc.Charge? && fault.FailsBefore? then [UnitRowOf(cfg, pc.loop.item)]
    else if pc.Insert? && fault.FailsAfter? then
      Exec(t, InsertUnit(UnitRowOf(cfg, pc.loop.item))).0.units[|t.units|..]
    else []
  }

  function Replaced(cfg: Config, pc: Pc, fault: Fault): set<Retired> {
    if pc.Store? && pc.seen.Some? && !fault.FailsBefore? then {Retired(Key(cfg, pc.event.user), pc.seen.value)} else {}
  }

  function Acted(cfg: Config, s: System, p: nat, fault: Fault): System
    requires CanAct(s, p)
  {
    var pc := s.procs[p].pc;
    var (u, reply) := Effect(cfg, s.stripe, fault, s.tables, pc);
    System(
      u,
      s.stripe,
      s.procs[p := Proc(s.procs[p].req, Resume(cfg, s.stripe.now, pc, reply))],
      s.charges + Charged(cfg, pc, fault),
      s.lost + Lost(cfg, s.tables, pc, fault),
      s.retired + Replaced(cfg, pc, fault))
  }

  function Step(cfg: Config, s: System, m: Move): System {
    match m
    case Arrive(req) => s.(procs := s.procs + [Proc(req, Start(req))])
    case Act(p, fault) => if CanAct(s, p) then Acted(cfg, s, p, fault) else s
    case Drift(stripe) => s.(stripe := stripe)
  }

  function Run(cfg: Config, s: System, script: seq<Move>): System {
    if script == [] then s
    else Step(cfg, Run(cfg, s, script[..|script| - 1]), script[|script| - 1])
  }

  lemma {:induction false} RunConcat(cfg: Config, s: System, a: seq<Move>, b: seq<Move>)
    ensures Run(cfg, s, a + b) == Run(cfg, Run(cfg, s, a), b)
  {
    if b == [] {
      assert a + b == a;
    } else {
      RunConcat(cfg, s, a, b[..|b| - 1]);
      assert (a + b)[..|a + b| - 1] == a + b[..|b| - 1];
    }
  }

  /** A request served alone is one particular script: its own calls, one after the other. */
  lemma {:induction false} RunAloneIsScript(cfg: Config, s: System, faults: nat -> Fault, tick: nat, p: nat)
    returns (script: seq<Move>)
    requires p < |s.procs|
    ensures forall m :: m in script ==> m.Act? && m.p == p
    ensures var ran := RunAlone(cfg, s.stripe, faults, s.tables, tick, s.procs[p].pc);
      var end := Run(cfg, s, script);
      && end.tables == ran.tables && end.stripe == s.stripe
      && end.procs == s.procs[p := Proc(s.procs[p].req, Finished(ran.answer))]
      && ran.tick == tick + |script|
    decreases CallsLeft(s.procs[p].pc)
  {
    hide Effect, Resume, CallsLeft, Charged, Lost, Replaced;
    var pc := s.procs[p].pc;
    if pc.Finished? {
      script := [];
      assert s.procs[p := s.procs[p]] == s.procs;
    } else {
      var (_, reply) := Effect(cfg, s.stripe, faults(tick), s.tables, pc);
      CallsDecrease(cfg, s.stripe.now, pc, reply);
      var next := Acted(cfg, s, p, faults(tick));
      var tail := RunAloneIsScript(cfg, next, faults, tick + 1, p);
      script := [Act(p, faults(tick))] + tail;
      hide Acted;
      RunConcat(cfg, s, [Act(p, faults(tick))], tail);
      FirstCall(cfg, s, p, faults(tick));
    }
  }

  lemma FirstCall(cfg: Config, s: System, p: nat, fault: Fault)
    requires CanAct(s, p)
    ensures Run(cfg, s, [Act(p, fault)]) == Acted(cfg, s, p, fault)
  {
    hide Acted;
    assert [Act(p, fault)][..0] == [];
  }

  // ----- what holds at each program point

  ghost predicate LoopOk(cfg: Config, t: Tables, loop: Loop) {
    && ItemOk(loop.item)
    && (forall it :: it in loop.rest ==> ItemOk(it))
    && EnsuredOk(cfg, t, loop.ensured)
  }

  ghost predicate GoalOk(cfg: Config, t: Tables, user: Bytes, goal: Goal) {
    goal.ThenInsert? ==> user == goal.loop.item.userId && LoopOk(cfg, t, goal.loop)
  }

  /** What the rest of the world may rely on about a handler at pc, and the handler about the tables. */
  ghost predicate PointOk(cfg: Config, t: Tables, pc: Pc) {
    match pc
    case EnsureCredit(user, goal) => GoalOk(cfg, t, user, goal)
    case EnsureAccount(user, goal) => GoalOk(cfg, t, user, goal)
    case EnsureCreditAgain(user, goal) => GoalOk(cfg, t, user, goal) && Key(cfg, user) in t.accounts
    case Insert(loop) => LoopOk(cfg, t, loop) && Key(cfg, loop.item.userId) in t.credit
    case Charge(loop) => LoopOk(cfg, t, loop) && UnitRowOf(cfg, loop.item) in t.units
    case FetchPrevious(event, _) => Key(cfg, event.user) in t.accounts
    case RecordInvalid(event) => Key(cfg, event.user) in t.accounts
    case RecordInvalidAccount(event) => false
    case RecordInvalidAgain(event) => false
    case ReadAccount(user) => Key(cfg, user) in t.credit
    case Finished(answer) => answer != Failed(BadItem)
    case _ => true
  }

  lemma PointOkLasts(cfg: Config, t: Tables, u: Tables, pc: Pc)
    requires Grows(t, u) && PointOk(cfg, t, pc)
    ensures PointOk(cfg, u, pc)
  {
    if pc.Charge? {
      assert forall r :: r in t.units ==> r in u.units;
    }
  }

  lemma NextItemOk(cfg: Config, t: Tables, items: seq<SpendingUnit>, ensured: set<Bytes>, total: int)
    requires forall it :: it in items ==> ItemOk(it)
    requires EnsuredOk(cfg, t, ensured)
    ensures PointOk(cfg, t, NextItem(items, ensured, total))
    ensures !NextItem(items, ensured, total).Charge?
  {
    if items != [] {
      assert ItemOk(items[0]);
    }
  }

  lemma StartOk(cfg: Config, t: Tables, req: Request)
    ensures PointOk(cfg, t, Start(req))
    ensures !Start(req).Charge?
  {
    if req.AddUnits? && forall it :: it in req.items ==> AcceptedRpc(it) {
      var units := Converted(req.items);
      assert forall i :: 0 <= i < |units| ==> ItemOk(units[i]) by {
        assert forall i :: 0 <= i < |units| ==> req.items[i] in req.items;
      }
      NextItemOk(cfg, t, units, {}, 0);
    }
  }

  lemma EffectKeeps(cfg: Config, stripe: Stripe, fault: Fault, t: Tables, pc: Pc)
    requires Chained(t) && !pc.Finished? && PointOk(cfg, t, pc)
    ensures var u := Effect(cfg, stripe, fault, t, pc).0;
      && Chained(u) && Grows(t, u) && PointOk(cfg, u, pc)
  {
    var u := Effect(cfg, stripe, fault, t, pc).0;
    var call := CallOf(cfg, pc);
    if call.Query? {
      AttemptGrows(fault, t, call.stmt);
      AttemptKeepsChain(fault, t, call.stmt);
    }
    PointOkLasts(cfg, t, u, pc);
  }

  predicate InLoop(pc: Pc) {
    pc.Insert? || pc.Charge?
  }

  lemma ResumeLoopOk(cfg: Config, stripe: Stripe, fault: Fault, t: Tables, pc: Pc)
    requires Chained(t) && InLoop(pc) && PointOk(cfg, t, pc)
    ensures var (u, reply) := Effect(cfg, stripe, fault, t, pc);
      PointOk(cfg, u, Resume(cfg, stripe.now, pc, reply))
  {
    EffectKeeps(cfg, stripe, fault, t, pc);
    var (u, reply) := Effect(cfg, stripe, fault, t, pc);
    if pc.Charge? {
      NextItemOk(cfg, u, pc.loop.rest, pc.loop.ensured, pc.loop.total);
    } else if reply.Number? && reply.n == 0 {
      NextItemOk(cfg, u, pc.loop.rest, pc.loop.ensured, pc.loop.total);
    } else if reply.Number? {
      assert u.units[|t.units|] == UnitRowOf(cfg, pc.loop.item);
    }
  }

  lemma ReturnCreditOk(cfg: Config, t: Tables, user: Bytes, goal: Goal, credit: int)
    requires GoalOk(cfg, t, user, goal) && Key(cfg, user) in t.credit
    ensures PointOk(cfg, t, ReturnCredit(user, goal, credit))
  {
  }

  lemma ResumeEnsureOk(cfg: Config, stripe: Stripe, fault: Fault, t: Tables, pc: Pc)
    requires Chained(t) && (pc.EnsureCredit? || pc.EnsureAccount? || pc.EnsureCreditAgain?) && PointOk(cfg, t, pc)
    ensures var (u, reply) := Effect(cfg, stripe, fault, t, pc);
      PointOk(cfg, u, Resume(cfg, stripe.now, pc, reply))
  {
    hide LoopOk, Key, Grant;
    var (u, reply) := Effect(cfg, stripe, fault, t, pc);
    EffectKeeps(cfg, stripe, fault, t, pc);
    if reply.Number? {
      ReturnCreditOk(cfg, u, pc.user, pc.goal, reply.n);
    }
  }

  lemma ResumeCheckoutOk(cfg: Config, stripe: Stripe, fault: Fault, t: Tables, pc: Pc)
    requires pc.CheckAccount? || pc.FetchPrevious? || pc.Store? || pc.RecordInvalid?
    requires PointOk(cfg, t, pc)
    ensures var (u, reply) := Effect(cfg, stripe, fault, t, pc);
      PointOk(cfg, u, Resume(cfg, stripe.now, pc, reply))
  {
    hide LoopOk, Key, IsCancelled, CheckoutRow, InvalidRowOf;
    if pc.RecordInvalid? {
      InvalidRowUser(cfg, pc.event);
    }
  }

  lemma InvalidRowUser(cfg: Config, event: Event)
    ensures InvalidRowOf(cfg, event).user == Key(cfg, event.user)
  {
  }

  lemma ResumeVerifyOk(cfg: Config, stripe: Stripe, fault: Fault, t: Tables, pc: Pc)
    requires pc.ReadAccount? || pc.FetchCurrent? || pc.FetchCustomer? || pc.CountSpending?
    ensures var (u, reply) := Effect(cfg, stripe, fault, t, pc);
      PointOk(cfg, u, Resume(cfg, stripe.now, pc, reply))
  {
    hide LoopOk, Key, IsCancelled, Limit, SumBetween;
  }

  lemma ResumeOk(cfg: Config, stripe: Stripe, fault: Fault, t: Tables, pc: Pc)
    requires Chained(t) && !pc.Finished? && PointOk(cfg, t, pc)
    ensures var (u, reply) := Effect(cfg, stripe, fault, t, pc);
      PointOk(cfg, u, Resume(cfg, stripe.now, pc, reply))
  {
    hide Effect, Resume, Chained, LoopOk;
    if InLoop(pc) {
      ResumeLoopOk(cfg, stripe, fault, t, pc);
    } else if pc.EnsureCredit? || pc.EnsureAccount? || pc.EnsureCreditAgain? {
      ResumeEnsureOk(cfg, stripe, fault, t, pc);
    } else if pc.CheckAccount? || pc.FetchPrevious? || pc.Store? || pc.RecordInvalid? {
      ResumeCheckoutOk(cfg, stripe, fault, t, pc);
    } else {
      ResumeVerifyOk(cfg, stripe, fault, t, pc);
    }
  }
}
