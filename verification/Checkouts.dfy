/**
 Handlers over whole runs: each stays at its own request, and an account holds nothing but the ids
 of one checkout event of its user.
 */
module Checkouts {
  import opened Prelude
  import opened Identity
  import opened Gateway
  import opened Tables
  import opened Requests
  import opened System
  import opened Serving
  import Billing

  // ----- handlers stay at their own event

  /** The handler of req can be at pc. */
  predicate Matches(req: Request, pc: Pc) {
    match pc
    case EnsureCredit(user, goal) => GoalMatches(req, user, goal)
    case EnsureAccount(user, goal) => GoalMatches(req, user, goal)
    case EnsureCreditAgain(user, goal) => GoalMatches(req, user, goal)
    case Insert(_) => req.AddUnits?
    case Charge(_) => req.AddUnits?
    case CheckAccount(event) => req == Checkout(event) && EventOk(event)
    case FetchPrevious(event, _) => req == Checkout(event) && EventOk(event)
    case Store(event, _) => req == Checkout(event) && EventOk(event)
    case RecordInvalid(event) => req == Checkout(event) && EventOk(event)
    case RecordInvalidAccount(event) => req == Checkout(event) && EventOk(event)
    case RecordInvalidAgain(event) => req == Checkout(event) && EventOk(event)
    case Finished(answer) => answer == Handled ==> req.Checkout? && EventOk(req.event)
    case ReadAccount(user) => req == Verify(user)
    case FetchCurrent(user, _) => req == Verify(user)
    case FetchCustomer(user, _, _) => req == Verify(user)
    case CountSpending(user, _, _) => req == Verify(user)
  }

  predicate GoalMatches(req: Request, user: Bytes, goal: Goal) {
    match goal
    case ThenInsert(_) => req.AddUnits?
    case ThenVerdict => req == Verify(user)
    case ThenFinish => req.Checkout? && req.event.user == user && EventOk(req.event)
  }

  lemma NextItemMatches(req: Request, items: seq<SpendingUnit>, ensured: set<Bytes>, total: int)
    requires req.AddUnits?
    ensures Matches(req, NextItem(items, ensured, total))
  {
  }

  lemma StartMatches(req: Request)
    ensures Matches(req, Start(req))
  {
    hide NextItem;
    if req.AddUnits? {
      NextItemMatches(req, Converted(req.items), {}, 0);
    }
  }

  lemma ResumeMatches(cfg: Config, req: Request, now: int, pc: Pc, reply: Reply)
    requires !pc.Finished? && Matches(req, pc)
    ensures Matches(req, Resume(cfg, now, pc, reply))
  {
    hide NextItem, Judge, IsCancelled;
    if pc.Insert? && reply.Number? {
      NextItemMatches(req, pc.loop.rest, pc.loop.ensured, pc.loop.total + reply.n);
    } else if pc.Charge? {
      NextItemMatches(req, pc.loop.rest, pc.loop.ensured, pc.loop.total);
    } else if pc.CountSpending? && reply.Number? {
      JudgeNotHandled(cfg, pc.subscription, reply.n, pc.email);
    }
  }

  lemma JudgeNotHandled(cfg: Config, sub: Subscription, spent: int, email: string)
    ensures Judge(cfg, sub, spent, email) != Handled
  {
  }

  // ----- the account cells

  /** The call commits a checkout's ids to the account of u. */
  predicate Stores(cfg: Config, pc: Pc, fault: Fault, u: Digest) {
    pc.Store? && !fault.FailsBefore? && u == Key(cfg, pc.event.user)
  }

  /** One call changes an account only by creating an empty one or by storing its own checkout. */
  lemma AccountMoves(cfg: Config, stripe: Stripe, fault: Fault, t: Tables, pc: Pc, u: Digest)
    requires !pc.Finished?
    requires pc.Store? ==> EventOk(pc.event)
    ensures AccountOf(Effect(cfg, stripe, fault, t, pc).0, u)
         == if Stores(cfg, pc, fault, u) then CheckoutRow(pc.event) else AccountOf(t, u)
  {
    hide HasUnit, Spend, SumBetween, UnitRowOf, Grant, Key;
  }

  /** The account belongs to nobody, or to one checkout of that user, with both Stripe ids from that one event. */
  ghost predicate Paired(cfg: Config, s: System, u: Digest) {
    var row := AccountOf(s.tables, u);
    row == NO_SUBSCRIPTION || exists p :: StoredBy(cfg, s, p, u, row)
  }

  ghost predicate StoredBy(cfg: Config, s: System, p: int, u: Digest, row: Account) {
    && 0 <= p < |s.procs| && s.procs[p].req.Checkout?
    && EventOk(s.procs[p].req.event) && Key(cfg, s.procs[p].req.event.user) == u
    && row == CheckoutRow(s.procs[p].req.event)
  }

  /** A handler past its check of the account knows that a subscription is there. */
  ghost predicate CellFilled(cfg: Config, s: System, p: nat)
    requires p < |s.procs|
  {
    var proc := s.procs[p];
    Settled(proc.pc) || proc.pc.FetchPrevious? || proc.pc.RecordInvalid? || proc.pc.RecordInvalidAccount? || proc.pc.RecordInvalidAgain? ==>
      proc.req.Checkout? && FromNull(CellOf(s.tables, Key(cfg, proc.req.event.user))) != ""
  }

  /** The checkout's own effect has committed and it has not failed since. */
  predicate Settled(pc: Pc) {
    match pc
    case EnsureCredit(_, goal) => goal.ThenFinish?
    case EnsureAccount(_, goal) => goal.ThenFinish?
    case EnsureCreditAgain(_, goal) => goal.ThenFinish?
    case Finished(answer) => answer == Handled
    case _ => false
  }

  ghost predicate AccountsInv(cfg: Config, s: System) {
    && (forall p :: 0 <= p < |s.procs| ==> Matches(s.procs[p].req, s.procs[p].pc))
    && (forall u :: Paired(cfg, s, u))
    && (forall p :: 0 <= p < |s.procs| ==> CellFilled(cfg, s, p))
  }

  function Cell(cfg: Config, s: System, event: Event): NullString {
    CellOf(s.tables, Key(cfg, event.user))
  }

  lemma CellStays(cfg: Config, s: System, p: nat, fault: Fault, u: Digest)
    requires CanAct(s, p) && Matches(s.procs[p].req, s.procs[p].pc)
    ensures var pc, next := s.procs[p].pc, Acted(cfg, s, p, fault);
      CellOf(next.tables, u) == if Stores(cfg, pc, fault, u) then Some(pc.event.subscriptionId) else CellOf(s.tables, u)
  {
    hide Effect, Resume;
    AccountMoves(cfg, s.stripe, fault, s.tables, s.procs[p].pc, u);
  }

  lemma PairedStep(cfg: Config, s: System, p: nat, fault: Fault, u: Digest)
    requires CanAct(s, p) && Matches(s.procs[p].req, s.procs[p].pc) && Paired(cfg, s, u)
    ensures Paired(cfg, Acted(cfg, s, p, fault), u)
  {
    hide Effect, Resume, CheckoutRow;
    var pc, next := s.procs[p].pc, Acted(cfg, s, p, fault);
    AccountMoves(cfg, s.stripe, fault, s.tables, pc, u);
    if Stores(cfg, pc, fault, u) {
      assert StoredBy(cfg, next, p, u, AccountOf(next.tables, u));
    } else if AccountOf(s.tables, u) != NO_SUBSCRIPTION {
      var q :| StoredBy(cfg, s, q, u, AccountOf(s.tables, u));
      assert StoredBy(cfg, next, q, u, AccountOf(next.tables, u));
    }
  }

  /** A handler that gets past the check of the account, or settles, leaves a filled cell behind it. */
  lemma FilledStep(cfg: Config, s: System, p: nat, fault: Fault)
    requires CanAct(s, p) && Matches(s.procs[p].req, s.procs[p].pc) && CellFilled(cfg, s, p)
    ensures CellFilled(cfg, Acted(cfg, s, p, fault), p)
  {
    hide NextItem, Judge, IsCancelled, Key, Grant, UnitRowOf, SumBetween, HasUnit, Spend, InvalidRowOf;
    var pc, req := s.procs[p].pc, s.procs[p].req;
    if req.Checkout? {
      CellStays(cfg, s, p, fault, Key(cfg, req.event.user));
    } else {
      var next := Acted(cfg, s, p, fault);
      ResumeMatches(cfg, req, s.stripe.now, pc, Effect(cfg, s.stripe, fault, s.tables, pc).1);
    }
  }

  lemma FilledOther(cfg: Config, s: System, p: nat, fault: Fault, q: nat)
    requires CanAct(s, p) && Matches(s.procs[p].req, s.procs[p].pc) && q < |s.procs| && q != p && CellFilled(cfg, s, q)
    ensures CellFilled(cfg, Acted(cfg, s, p, fault), q)
  {
    hide Effect, Resume;
    if s.procs[q].req.Checkout? {
      CellStays(cfg, s, p, fault, Key(cfg, s.procs[q].req.event.user));
    }
  }

  lemma CallKeepsAccounts(cfg: Config, s: System, p: nat, fault: Fault)
    requires AccountsInv(cfg, s) && CanAct(s, p)
    ensures AccountsInv(cfg, Acted(cfg, s, p, fault))
  {
    hide Effect, Resume, Paired, CellFilled, Matches;
    var pc, next := s.procs[p].pc, Acted(cfg, s, p, fault);
    ResumeMatches(cfg, s.procs[p].req, s.stripe.now, pc, Effect(cfg, s.stripe, fault, s.tables, pc).1);
    forall u
      ensures Paired(cfg, next, u)
    {
      PairedStep(cfg, s, p, fault, u);
    }
    forall q | 0 <= q < |next.procs|
      ensures CellFilled(cfg, next, q)
    {
      if q == p {
        FilledStep(cfg, s, p, fault);
      } else {
        FilledOther(cfg, s, p, fault, q);
      }
    }
  }

  lemma ArrivalKeepsAccounts(cfg: Config, s: System, req: Request)
    requires AccountsInv(cfg, s)
    ensures AccountsInv(cfg, Step(cfg, s, Arrive(req)))
  {
    hide Matches;
    var next := Step(cfg, s, Arrive(req));
    StartMatches(req);
    StartUnsettled(req);
    forall u
      ensures Paired(cfg, next, u)
    {
      if AccountOf(s.tables, u) != NO_SUBSCRIPTION {
        assert Paired(cfg, s, u);
        var q :| StoredBy(cfg, s, q, u, AccountOf(s.tables, u));
        assert StoredBy(cfg, next, q, u, AccountOf(next.tables, u));
      }
    }
    forall q | 0 <= q < |next.procs|
      ensures CellFilled(cfg, next, q)
    {
      assert q < |s.procs| ==> CellFilled(cfg, s, q);
    }
  }

  lemma StartUnsettled(req: Request)
    ensures var pc := Start(req);
      !Settled(pc) && !pc.FetchPrevious? && !pc.RecordInvalid? && !pc.RecordInvalidAccount? && !pc.RecordInvalidAgain?
  {
  }

  lemma StepKeepsAccounts(cfg: Config, s: System, m: Move)
    requires AccountsInv(cfg, s)
    ensures AccountsInv(cfg, Step(cfg, s, m))
    ensures |Step(cfg, s, m).procs| >= |s.procs|
    ensures forall u :: FromNull(CellOf(s.tables, u)) != "" ==> FromNull(CellOf(Step(cfg, s, m).tables, u)) != ""
  {
    hide Acted;
    match m
    case Arrive(req) => ArrivalKeepsAccounts(cfg, s, req);
    case Act(p, fault) =>
      if CanAct(s, p) {
        CallKeepsAccounts(cfg, s, p, fault);
        CallKeepsCells(cfg, s, p, fault);
      }
    case Drift(stripe) => DriftKeepsAccounts(cfg, s, stripe);
  }

  lemma CallKeepsCells(cfg: Config, s: System, p: nat, fault: Fault)
    requires AccountsInv(cfg, s) && CanAct(s, p)
    ensures var next := Acted(cfg, s, p, fault);
      && |next.procs| == |s.procs|
      && forall u :: FromNull(CellOf(s.tables, u)) != "" ==> FromNull(CellOf(next.tables, u)) != ""
  {
    hide Effect, Resume, Paired, CellFilled;
    forall u | FromNull(CellOf(s.tables, u)) != ""
      ensures FromNull(CellOf(Acted(cfg, s, p, fault).tables, u)) != ""
    {
      CellStays(cfg, s, p, fault, u);
    }
  }

  lemma DriftKeepsAccounts(cfg: Config, s: System, stripe: Stripe)
    requires AccountsInv(cfg, s)
    ensures AccountsInv(cfg, s.(stripe := stripe))
  {
    hide Matches;
    var next := s.(stripe := stripe);
    forall u
      ensures Paired(cfg, next, u)
    {
      assert Paired(cfg, s, u);
      if AccountOf(s.tables, u) != NO_SUBSCRIPTION {
        var q :| StoredBy(cfg, s, q, u, AccountOf(s.tables, u));
        assert StoredBy(cfg, next, q, u, AccountOf(next.tables, u));
      }
    }
    forall q | 0 <= q < |next.procs|
      ensures CellFilled(cfg, next, q)
    {
      assert CellFilled(cfg, s, q);
    }
  }

  lemma {:induction false} RunKeepsAccounts(cfg: Config, s: System, script: seq<Move>)
    requires AccountsInv(cfg, s)
    ensures AccountsInv(cfg, Run(cfg, s, script))
    ensures forall u :: FromNull(CellOf(s.tables, u)) != "" ==> FromNull(CellOf(Run(cfg, s, script).tables, u)) != ""
  {
    hide AccountsInv, Step;
    if script != [] {
      RunKeepsAccounts(cfg, s, script[..|script| - 1]);
      StepKeepsAccounts(cfg, Run(cfg, s, script[..|script| - 1]), script[|script| - 1]);
    }
  }

  lemma ReachableAccounts(cfg: Config, s: System)
    requires Billing.Reachable(cfg, s)
    ensures AccountsInv(cfg, s)
  {
    hide Run;
    var stripe, script :| s == Run(cfg, Init(stripe), script);
    RunKeepsAccounts(cfg, Init(stripe), script);
  }

  /** What one move does to a handler that was there, and to one that arrives. */
  lemma HandlerMoves(cfg: Config, s: System, m: Move, q: nat)
    requires q < |Step(cfg, s, m).procs|
    ensures var next := Step(cfg, s, m);
      if q >= |s.procs| then m.Arrive? && next.procs[q] == Proc(m.req, Start(m.req))
      else if m.Act? && m.p == q && CanAct(s, q) then
        var (after, reply) := Effect(cfg, s.stripe, m.fault, s.tables, s.procs[q].pc);
        next.tables == after && next.procs[q] == Proc(s.procs[q].req, Resume(cfg, s.stripe.now, s.procs[q].pc, reply))
      else next.procs[q] == s.procs[q]
  {
    hide Effect, Resume, Start;
  }

  lemma MatchesHere(cfg: Config, s: System, q: nat)
    requires AccountsInv(cfg, s) && q < |s.procs|
    ensures Matches(s.procs[q].req, s.procs[q].pc)
  {
  }

  /** Pairing: in every reachable state an account's subscription and customer ids are both absent, or come
      from one and the same checkout event of that user. */
  lemma IdsArePaired(cfg: Config, s: System, u: Digest)
    requires Billing.Reachable(cfg, s) && u in s.tables.accounts
    ensures var row := s.tables.accounts[u];
      || (row.subscriptionId.None? && row.customerId.None?)
      || exists p :: 0 <= p < |s.procs| && s.procs[p].req.Checkout? && Key(cfg, s.procs[p].req.event.user) == u
           && row.subscriptionId == Some(s.procs[p].req.event.subscriptionId)
           && row.customerId == Some(s.procs[p].req.event.customerId)
  {
    hide Billing.Reachable;
    ReachableAccounts(cfg, s);
    assert Paired(cfg, s, u);
  }
}
