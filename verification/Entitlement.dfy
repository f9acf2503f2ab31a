/**
 Entitlement over whole runs, said about the answers that verifications give while other requests, failures
 and Stripe changes run between their calls: what a user has lost, or gained by a checkout, stays that way.
 */
module Entitlement {
  import opened Prelude
  import opened Identity
  import opened Gateway
  import opened Tables
  import opened Requests
  import opened System
  import opened Serving
  import opened Checkouts
  import opened Subscriptions
  import Billing

  predicate IsCancelledVerdict(answer: Answer) {
    answer.Judged? && answer.verdict.Invalid? && answer.verdict.why.Cancelled?
  }

  predicate IsNoSubscription(answer: Answer) {
    answer.Judged? && answer.verdict.Invalid? && answer.verdict.why.NoSubscription?
  }

  /** A verification of the user with key u. */
  predicate VerifiesFor(cfg: Config, proc: Proc, u: Digest) {
    proc.req.Verify? && Key(cfg, proc.req.user) == u
  }

  /** The handler q has not answered in s: it is unfinished, or has not arrived. */
  predicate Pending(s: System, q: nat) {
    q < |s.procs| ==> !s.procs[q].pc.Finished?
  }

  /** The handler q has answered in s. */
  predicate Answers(s: System, q: nat) {
    q < |s.procs| && s.procs[q].pc.Finished?
  }

  // ----- the free tier

  /** Positive free credit never rises, counting a user without a row as holding the grant. */
  lemma CreditOfRatchet(cfg: Config, s: System, script: seq<Move>, u: Digest)
    requires Billing.Reachable(cfg, s)
    ensures Max(0, CreditOf(cfg, Run(cfg, s, script).tables, u)) <= Max(0, CreditOf(cfg, s.tables, u))
  {
    hide Run, Billing.Reachable, Billing.Balances, Billing.Books, Billing.PointsOk, Grant, SumFor;
    Billing.ReachableInv(cfg, s);
    Billing.RunKeepsInv(cfg, s, script);
    if u in s.tables.credit {
      Billing.CreditRatchet(cfg, s, script, u);
    } else if u in Run(cfg, s, script).tables.credit {
      var end := Run(cfg, s, script);
      Billing.BalanceOf(cfg, end, u);
      Billing.ChargesPositive(cfg, end, end.charges);
      SumForPositive(u, end.charges);
    }
  }

  /** The verification has found no free credit. */
  predicate PastCredit(pc: Pc) {
    match pc
    case ReadAccount(_) => true
    case FetchCurrent(_, _) => true
    case FetchCustomer(_, _, _) => true
    case CountSpending(_, _, _) => true
    case Finished(answer) => answer.Judged? && !answer.verdict.FreeTier?
    case _ => false
  }

  /** A verification takes its free-tier decision on the credit stored at that moment. */
  lemma CreditDecides(cfg: Config, stripe: Stripe, fault: Fault, t: Tables, req: Request, pc: Pc)
    requires req.Verify? && !pc.Finished? && Matches(req, pc)
    ensures var (after, reply) := Effect(cfg, stripe, fault, t, pc);
      var next := Resume(cfg, stripe.now, pc, reply);
      && (next == Finished(Judged(FreeTier)) ==> CreditOf(cfg, after, Key(cfg, req.user)) > 0)
      && (PastCredit(next) && !PastCredit(pc) ==> CreditOf(cfg, after, Key(cfg, req.user)) <= 0)
  {
    hide Key, Grant, Judge, SumBetween, IsCancelled, Merged;
    if pc.CountSpending? {
      var reply := Effect(cfg, stripe, fault, t, pc).1;
      JudgeNotFree(cfg, pc.subscription, if reply.Number? then reply.n else 0, pc.email);
    }
  }

  lemma JudgeNotFree(cfg: Config, sub: Subscription, spent: int, email: string)
    ensures Judge(cfg, sub, spent, email) != Judged(FreeTier)
  {
  }

  ghost predicate Drained(cfg: Config, s: System, p: nat)
    requires p < |s.procs|
  {
    s.procs[p].req.Verify? && PastCredit(s.procs[p].pc) ==> CreditOf(cfg, s.tables, Key(cfg, s.procs[p].req.user)) <= 0
  }

  lemma StepRatchet(cfg: Config, s: System, m: Move, u: Digest)
    requires Billing.Reachable(cfg, s)
    ensures Max(0, CreditOf(cfg, Step(cfg, s, m).tables, u)) <= Max(0, CreditOf(cfg, s.tables, u))
  {
    hide Step, CreditOf, Billing.Reachable;
    CreditOfRatchet(cfg, s, [m], u);
    RunOn(cfg, s, [], m);
    assert [] + [m] == [m];
  }

  lemma StepDrained(cfg: Config, s: System, m: Move, p: nat)
    requires Billing.Reachable(cfg, s) && AccountsInv(cfg, s) && p < |Step(cfg, s, m).procs|
    requires p < |s.procs| ==> Drained(cfg, s, p)
    ensures Drained(cfg, Step(cfg, s, m), p)
  {
    hide Effect, Resume, Billing.Reachable, CreditOf, Matches, Paired, CellFilled;
    var next := Step(cfg, s, m);
    if p >= |s.procs| {
      StartsFresh(m.req);
    } else if next.procs[p].req.Verify? {
      StepRatchet(cfg, s, m, Key(cfg, next.procs[p].req.user));
      if m.Act? && CanAct(s, m.p) && m.p == p {
        CreditDecides(cfg, s.stripe, m.fault, s.tables, s.procs[p].req, s.procs[p].pc);
      }
    }
  }

  lemma StartsFresh(req: Request)
    ensures req.Verify? ==> !PastCredit(Start(req)) && !(Start(req).Finished? && Start(req).answer.Judged?)
  {
  }

  lemma Extends(cfg: Config, stripe: Stripe, script: seq<Move>)
    ensures Billing.Reachable(cfg, Run(cfg, Init(stripe), script))
  {
  }

  /** Whoever has found no free credit is right from then on. */
  lemma {:induction false} RunDrained(cfg: Config, stripe: Stripe, script: seq<Move>, p: nat)
    requires p < |Run(cfg, Init(stripe), script).procs|
    ensures Drained(cfg, Run(cfg, Init(stripe), script), p)
  {
    if script != [] {
      hide Run, Step, Billing.Reachable, Drained, AccountsInv;
      var front := script[..|script| - 1];
      LastStep(cfg, Init(stripe), script);
      Extends(cfg, stripe, front);
      ReachableAccounts(cfg, Run(cfg, Init(stripe), front));
      if p < |Run(cfg, Init(stripe), front).procs| {
        RunDrained(cfg, stripe, front, p);
      }
      StepDrained(cfg, Run(cfg, Init(stripe), front), script[|script| - 1], p);
    }
  }

  lemma ReachableDrained(cfg: Config, s: System, p: nat)
    requires Billing.Reachable(cfg, s) && p < |s.procs|
    ensures Drained(cfg, s, p)
  {
    hide Run, Drained;
    var stripe, script :| s == Run(cfg, Init(stripe), script);
    RunDrained(cfg, stripe, script, p);
  }

  lemma RunOnward(cfg: Config, s: System, script: seq<Move>)
    requires Billing.Reachable(cfg, s)
    ensures Billing.Reachable(cfg, Run(cfg, s, script)) && AccountsInv(cfg, Run(cfg, s, script))
  {
    hide Run, AccountsInv;
    var stripe, before :| s == Run(cfg, Init(stripe), before);
    RunConcat(cfg, Init(stripe), before, script);
    Extends(cfg, stripe, before + script);
    ReachableAccounts(cfg, Run(cfg, s, script));
  }

  /** Without free credit, no verification that answers later answers freeTier. */
  lemma {:induction false} NoCreditNoFreeTier(cfg: Config, s: System, script: seq<Move>, u: Digest, q: nat)
    requires Billing.Reachable(cfg, s) && CreditOf(cfg, s.tables, u) <= 0 && Pending(s, q)
    requires var end := Run(cfg, s, script); Answers(end, q) && VerifiesFor(cfg, end.procs[q], u)
    ensures Run(cfg, s, script).procs[q].pc != Finished(Judged(FreeTier))
  {
    if script != [] {
      hide Run, Step, Billing.Reachable, AccountsInv, CreditOf, Effect, Resume, Matches, Start;
      var front, m := script[..|script| - 1], script[|script| - 1];
      var mid := Run(cfg, s, front);
      LastStep(cfg, s, script);
      HandlerMoves(cfg, mid, m, q);
      if q >= |mid.procs| {
        StartsFresh(m.req);
      } else if mid.procs[q].pc.Finished? {
        NoCreditNoFreeTier(cfg, s, front, u, q);
      } else {
        RunOnward(cfg, s, front);
        MatchesHere(cfg, mid, q);
        CreditDecides(cfg, mid.stripe, m.fault, mid.tables, mid.procs[q].req, mid.procs[q].pc);
        CreditOfRatchet(cfg, s, script, u);
      }
    }
  }

  /** Once a verification of the user has answered anything but freeTier, none that answers later answers freeTier,
      however their calls interleave with other requests, failures and Stripe changes. */
  lemma FreeTierNeverReturns(cfg: Config, s: System, script: seq<Move>, u: Digest, p: nat, q: nat)
    requires Billing.Reachable(cfg, s)
    requires Answers(s, p) && VerifiesFor(cfg, s.procs[p], u)
    requires s.procs[p].pc.answer.Judged? && !s.procs[p].pc.answer.verdict.FreeTier?
    requires Pending(s, q)
    requires var end := Run(cfg, s, script); Answers(end, q) && VerifiesFor(cfg, end.procs[q], u)
    ensures Run(cfg, s, script).procs[q].pc != Finished(Judged(FreeTier))
  {
    hide Run, Billing.Reachable, CreditOf;
    ReachableDrained(cfg, s, p);
    NoCreditNoFreeTier(cfg, s, script, u, q);
  }

  // ----- noSubscription

  lemma JudgeHasSubscription(cfg: Config, sub: Subscription, spent: int, email: string)
    ensures !IsNoSubscription(Judge(cfg, sub, spent, email))
  {
  }

  lemma FilledDecides(cfg: Config, stripe: Stripe, fault: Fault, t: Tables, req: Request, pc: Pc)
    requires req.Verify? && !pc.Finished? && Matches(req, pc)
    requires FromNull(CellOf(t, Key(cfg, req.user))) != ""
    ensures var next := Resume(cfg, stripe.now, pc, Effect(cfg, stripe, fault, t, pc).1);
      next.Finished? ==> !IsNoSubscription(next.answer)
  {
    hide Key, Grant, Judge, SumBetween, IsCancelled, Merged;
    if pc.CountSpending? {
      var reply := Effect(cfg, stripe, fault, t, pc).1;
      JudgeHasSubscription(cfg, pc.subscription, if reply.Number? then reply.n else 0, pc.email);
    } else if pc.ReadAccount? {
      var key := Key(cfg, pc.user);
      assert |key| == DIGEST_LENGTH && |ACCOUNT_WITHOUT_SUBSCRIPTION| == 26;
    }
  }

  lemma {:induction false} FilledStays(cfg: Config, s: System, script: seq<Move>, u: Digest, q: nat)
    requires Billing.Reachable(cfg, s) && FromNull(CellOf(s.tables, u)) != "" && Pending(s, q)
    requires var end := Run(cfg, s, script); Answers(end, q) && VerifiesFor(cfg, end.procs[q], u)
    ensures !IsNoSubscription(Run(cfg, s, script).procs[q].pc.answer)
  {
    if script != [] {
      hide Run, Step, Billing.Reachable, AccountsInv, CellOf, Effect, Resume, Matches, Start;
      var front, m := script[..|script| - 1], script[|script| - 1];
      var mid := Run(cfg, s, front);
      LastStep(cfg, s, script);
      HandlerMoves(cfg, mid, m, q);
      if q >= |mid.procs| {
        StartsFresh(m.req);
      } else if mid.procs[q].pc.Finished? {
        FilledStays(cfg, s, front, u, q);
      } else {
        RunOnward(cfg, s, front);
        MatchesHere(cfg, mid, q);
        ReachableAccounts(cfg, s);
        RunKeepsAccounts(cfg, s, front);
        FilledDecides(cfg, mid.stripe, m.fault, mid.tables, mid.procs[q].req, mid.procs[q].pc);
      }
    }
  }

  /** Once a checkout of the user has been handled, no verification that answers later, even one already under way,
      answers noSubscription. */
  lemma CheckoutEndsNoSubscription(cfg: Config, s: System, script: seq<Move>, p: nat, q: nat)
    requires Billing.Reachable(cfg, s)
    requires p < |s.procs| && s.procs[p].pc == Finished(Handled)
    requires Pending(s, q) && Answers(Run(cfg, s, script), q)
    ensures s.procs[p].req.Checkout?
    ensures var end := Run(cfg, s, script);
      VerifiesFor(cfg, end.procs[q], Key(cfg, s.procs[p].req.event.user)) ==> !IsNoSubscription(end.procs[q].pc.answer)
  {
    hide Run, Billing.Reachable, Matches, Paired;
    ReachableAccounts(cfg, s);
    assert CellFilled(cfg, s, p);
    var u := Key(cfg, s.procs[p].req.event.user);
    if VerifiesFor(cfg, Run(cfg, s, script).procs[q], u) {
      FilledStays(cfg, s, script, u, q);
    }
  }

  // ----- the allowance

  /** The account of u holds the subscription id, and Stripe's record of it is rec. */
  predicate Holds(s: System, u: Digest, id: string, rec: Subscription) {
    CellOf(s.tables, u) == Some(id) && id in s.stripe.subscriptions && s.stripe.subscriptions[id] == rec
  }

  ghost predicate Frozen(cfg: Config, s: System, script: seq<Move>, u: Digest, id: string, rec: Subscription) {
    && Holds(Run(cfg, s, script), u, id, rec)
    && (script == [] || Frozen(cfg, s, script[..|script| - 1], u, id, rec))
  }

  /** The clock does not go back during the run. */
  ghost predicate Advancing(cfg: Config, s: System, script: seq<Move>) {
    script == [] ||
    (Advancing(cfg, s, script[..|script| - 1])
     && Run(cfg, s, script[..|script| - 1]).stripe.now <= Run(cfg, s, script).stripe.now)
  }

  /** In the billing period of rec the user has spent more than rec allows, and rec is active and well configured. */
  predicate Overspent(cfg: Config, t: Tables, u: Digest, rec: Subscription) {
    rec.status == Active && OverLimit(cfg, t, u, rec)
  }

  /** What the verification has read so far is the subscription id and its record rec. */
  predicate Informed(pc: Pc, id: string, rec: Subscription) {
    match pc
    case FetchCurrent(_, account) => FromNull(account.subscriptionId) == id
    case FetchCustomer(_, _, sub) => sub == rec
    case CountSpending(_, sub, _) => sub == rec && rec.status == Active
    case _ => true
  }

  lemma InformedStep(cfg: Config, s: System, fault: Fault, q: nat, u: Digest, id: string, rec: Subscription)
    requires CanAct(s, q) && VerifiesFor(cfg, s.procs[q], u) && Matches(s.procs[q].req, s.procs[q].pc)
    requires Holds(s, u, id, rec) && Informed(s.procs[q].pc, id, rec)
    ensures var (after, reply) := Effect(cfg, s.stripe, fault, s.tables, s.procs[q].pc);
      var next := Resume(cfg, s.stripe.now, s.procs[q].pc, reply);
      && Informed(next, id, rec)
      && (next.Finished? && IsExhausted(next.answer) ==> Overspent(cfg, after, u, rec))
  {
    hide Key, Grant, SumBetween, IsCancelled, Merged, Limit, ToInt64;
  }

  lemma OverspentLasts(cfg: Config, t: Tables, later: Tables, u: Digest, rec: Subscription)
    requires Overspent(cfg, t, u, rec) && t.units <= later.units && Billing.Positive(later.units)
    ensures Overspent(cfg, later, u, rec)
  {
    hide SumBetween, Limit, ToInt64;
    WindowGrows(u, ToInt64(rec.periodStart * 1000), ToInt64(rec.periodEnd * 1000), t.units, later.units);
  }

  lemma StepGrows(cfg: Config, s: System, m: Move)
    requires Billing.Reachable(cfg, s)
    ensures s.tables.units <= Step(cfg, s, m).tables.units && Billing.Positive(Step(cfg, s, m).tables.units)
  {
    hide Step, Billing.Reachable, Billing.PointsOk, Billing.Books, Billing.Balances, Billing.Positive, Chained;
    Billing.ReachableInv(cfg, s);
    Billing.StepKeepsInv(cfg, s, m);
  }

  ghost predicate KnowsRecord(cfg: Config, s: System, q: nat, u: Digest, id: string, rec: Subscription)
    requires q < |s.procs|
  {
    && Informed(s.procs[q].pc, id, rec)
    && (s.procs[q].pc.Finished? && IsExhausted(s.procs[q].pc.answer) ==> Overspent(cfg, s.tables, u, rec))
  }

  /** A verification that arrives while the account and the record stay the same decides on that record. */
  lemma {:induction false} RunKnowsRecord(cfg: Config, s: System, script: seq<Move>, u: Digest, id: string, rec: Subscription, q: nat)
    requires Billing.Reachable(cfg, s) && Frozen(cfg, s, script, u, id, rec)
    requires var end := Run(cfg, s, script); |s.procs| <= q < |end.procs| && VerifiesFor(cfg, end.procs[q], u)
    ensures KnowsRecord(cfg, Run(cfg, s, script), q, u, id, rec)
  {
    if script != [] {
      hide Run, Step, Billing.Reachable, AccountsInv, Holds, Overspent, Informed, Effect, Resume, Matches, Start;
      var front, m := script[..|script| - 1], script[|script| - 1];
      var mid := Run(cfg, s, front);
      LastStep(cfg, s, script);
      HandlerMoves(cfg, mid, m, q);
      RunOnward(cfg, s, front);
      if q >= |mid.procs| {
        StartsFresh(m.req);
        StartInformed(m.req, id, rec);
      } else {
        RunKnowsRecord(cfg, s, front, u, id, rec, q);
        FrozenHolds(cfg, s, front, u, id, rec);
        if m.Act? && m.p == q && CanAct(mid, q) {
          MatchesHere(cfg, mid, q);
          InformedStep(cfg, mid, m.fault, q, u, id, rec);
        } else if mid.procs[q].pc.Finished? && IsExhausted(mid.procs[q].pc.answer) {
          StepGrows(cfg, mid, m);
          OverspentLasts(cfg, mid.tables, Step(cfg, mid, m).tables, u, rec);
        }
      }
    }
  }

  lemma FrozenHolds(cfg: Config, s: System, script: seq<Move>, u: Digest, id: string, rec: Subscription)
    requires Frozen(cfg, s, script, u, id, rec)
    ensures Holds(Run(cfg, s, script), u, id, rec)
  {
  }

  lemma StartInformed(req: Request, id: string, rec: Subscription)
    requires req.Verify?
    ensures Informed(Start(req), id, rec)
  {
  }

  /** On a record that is overspent, a verdict is freeTier, exhausted or cancelled. */
  lemma OverspentDecides(cfg: Config, s: System, fault: Fault, q: nat, u: Digest, id: string, rec: Subscription)
    requires CanAct(s, q) && VerifiesFor(cfg, s.procs[q], u) && Matches(s.procs[q].req, s.procs[q].pc)
    requires Holds(s, u, id, rec) && id != "" && Informed(s.procs[q].pc, id, rec) && Overspent(cfg, s.tables, u, rec)
    ensures var next := Resume(cfg, s.stripe.now, s.procs[q].pc, Effect(cfg, s.stripe, fault, s.tables, s.procs[q].pc).1);
      next.Finished? && next.answer.Judged? ==>
        || next.answer.verdict.FreeTier?
        || IsExhausted(next.answer)
        || (IsCancelledVerdict(next.answer) && IsCancelled(rec, s.stripe.now))
  {
    hide Key, Grant, SumBetween, Merged, Limit, ToInt64, IsCancelled;
    var pc := s.procs[q].pc;
    if pc.ReadAccount? {
      FilledDecides(cfg, s.stripe, fault, s.tables, s.procs[q].req, pc);
    }
  }

  /** The answer, if it is a verdict, is exhausted, or cancelled. */
  predicate StaysInvalid(answer: Answer) {
    answer.Judged? ==> IsExhausted(answer) || IsCancelledVerdict(answer)
  }

  lemma CancelledForGood(sub: Subscription, now: int, later: int)
    requires now <= later && IsCancelled(sub, now)
    ensures IsCancelled(sub, later)
  {
  }

  /** From a moment at which the record is overspent and the credit used up, whatever answers come. */
  lemma {:induction false} OverspentStays(
      cfg: Config, s: System, before: seq<Move>, script: seq<Move>, u: Digest, id: string, rec: Subscription, q: nat)
    requires Billing.Reachable(cfg, s) && Frozen(cfg, s, before + script, u, id, rec) && id != "" && |s.procs| <= q
    requires var mid, end := Run(cfg, s, before), Run(cfg, s, before + script);
      && CreditOf(cfg, mid.tables, u) <= 0 && Overspent(cfg, mid.tables, u, rec) && Pending(mid, q)
    ensures var end := Run(cfg, s, before + script);
      && Overspent(cfg, end.tables, u, rec)
      && (Answers(end, q) && VerifiesFor(cfg, end.procs[q], u) ==>
          && StaysInvalid(end.procs[q].pc.answer)
          && (Advancing(cfg, s, before + script) && IsCancelledVerdict(end.procs[q].pc.answer) ==> IsCancelled(rec, end.stripe.now)))
    decreases |script|
  {
    hide Run, Step, Billing.Reachable, AccountsInv, Holds, Overspent, Informed, Effect, Resume, Matches, Start, CreditOf, IsCancelled;
    if script == [] {
      assert before + script == before;
    } else {
      var front, m := script[..|script| - 1], script[|script| - 1];
      assert (before + script)[..|before + script| - 1] == before + front;
      var last, end := Run(cfg, s, before + front), Run(cfg, s, before + script);
      LastStep(cfg, s, before + script);
      OverspentStays(cfg, s, before, front, u, id, rec, q);
      RunOnward(cfg, s, before + front);
      StepGrows(cfg, last, m);
      OverspentLasts(cfg, last.tables, end.tables, u, rec);
      if Answers(end, q) && VerifiesFor(cfg, end.procs[q], u) {
        HandlerMoves(cfg, last, m, q);
        if q >= |last.procs| {
          StartsFresh(m.req);
        } else if last.procs[q].pc.Finished? {
          if Advancing(cfg, s, before + script) && IsCancelledVerdict(end.procs[q].pc.answer) {
            CancelledForGood(rec, last.stripe.now, end.stripe.now);
          }
        } else {
          FrozenHolds(cfg, s, before + front, u, id, rec);
          RunKnowsRecord(cfg, s, before + front, u, id, rec, q);
          MatchesHere(cfg, last, q);
          OverspentDecides(cfg, last, m.fault, q, u, id, rec);
          RunOnward(cfg, s, before);
          RunConcat(cfg, s, before, script);
          NoCreditNoFreeTier(cfg, Run(cfg, s, before), script, u, q);
          SameStripe(cfg, last, m);
        }
      }
    }
  }

  lemma SameStripe(cfg: Config, s: System, m: Move)
    requires m.Act?
    ensures Step(cfg, s, m).stripe == s.stripe
  {
  }

  lemma {:induction false} FrozenPart(cfg: Config, s: System, before: seq<Move>, script: seq<Move>, u: Digest, id: string, rec: Subscription)
    requires Frozen(cfg, s, before + script, u, id, rec)
    ensures Frozen(cfg, s, before, u, id, rec)
  {
    if script == [] {
      assert before + script == before;
    } else {
      assert (before + script)[..|before + script| - 1] == before + script[..|script| - 1];
      FrozenPart(cfg, s, before, script[..|script| - 1], u, id, rec);
    }
  }

  lemma HeldIdNotEmpty(cfg: Config, s: System, u: Digest, id: string, rec: Subscription)
    requires AccountsInv(cfg, s) && Holds(s, u, id, rec)
    ensures id != ""
  {
    hide Paired, Matches, CellFilled;
    assert Paired(cfg, s, u);
    CellNotEmpty(cfg, s, u);
  }

  /**
   Exhausted stays exhausted. During a run in which the account keeps one subscription and Stripe one record of it,
   after a verification p has answered exhausted, no verification q that answers later answers freeTier,
   payingCustomer, noSubscription or other; it answers exhausted, or, once the record is cancelled, cancelled.
   */
  lemma ExhaustedStays(
      cfg: Config, s: System, before: seq<Move>, script: seq<Move>, u: Digest, id: string, rec: Subscription, p: nat, q: nat)
    requires Billing.Reachable(cfg, s) && Frozen(cfg, s, before + script, u, id, rec)
    requires var mid := Run(cfg, s, before);
      |s.procs| <= p && Answers(mid, p) && VerifiesFor(cfg, mid.procs[p], u) && IsExhausted(mid.procs[p].pc.answer) && Pending(mid, q)
    requires var end := Run(cfg, s, before + script);
      |s.procs| <= q && Answers(end, q) && VerifiesFor(cfg, end.procs[q], u)
    ensures var end := Run(cfg, s, before + script);
      && StaysInvalid(end.procs[q].pc.answer)
      && (Advancing(cfg, s, before + script) && IsCancelledVerdict(end.procs[q].pc.answer) ==> IsCancelled(rec, end.stripe.now))
  {
    hide Run, Billing.Reachable, AccountsInv, Holds, Overspent, Informed, CreditOf, IsCancelled;
    var mid := Run(cfg, s, before);
    FrozenPart(cfg, s, before, script, u, id, rec);
    FrozenHolds(cfg, s, before, u, id, rec);
    RunOnward(cfg, s, before);
    HeldIdNotEmpty(cfg, mid, u, id, rec);
    RunKnowsRecord(cfg, s, before, u, id, rec, p);
    ReachableDrained(cfg, mid, p);
    OverspentStays(cfg, s, before, script, u, id, rec, q);
  }

  // ----- the allowance while checkouts are serial

  /** Stripe keeps one record of id during the run. */
  ghost predicate KeepsRecord(cfg: Config, s: System, script: seq<Move>, id: string, rec: Subscription) {
    && id in Run(cfg, s, script).stripe.subscriptions && Run(cfg, s, script).stripe.subscriptions[id] == rec
    && (script == [] || KeepsRecord(cfg, s, script[..|script| - 1], id, rec))
  }

  /** While the checkouts of a user are handled one at a time, an uncancelled subscription stays in the account. */
  lemma {:induction false} AliveIsFrozen(
      cfg: Config, stripe: Stripe, before: seq<Move>, script: seq<Move>, u: Digest, id: string, rec: Subscription)
    requires Serial(cfg, Init(stripe), before + script) && Steady(cfg, Init(stripe), before + script)
    requires var s := Run(cfg, Init(stripe), before);
      && CellOf(s.tables, u) == Some(id)
      && KeepsRecord(cfg, s, script, id, rec) && Advancing(cfg, s, script)
      && !IsCancelled(rec, Run(cfg, s, script).stripe.now)
    ensures Frozen(cfg, Run(cfg, Init(stripe), before), script, u, id, rec)
  {
    if script != [] {
      hide Run, IsCancelled, CellOf, Step, InTurn, CancelsStay;
      var s := Run(cfg, Init(stripe), before);
      var front, m := script[..|script| - 1], script[|script| - 1];
      assert (before + script)[..|before + script| - 1] == before + front;
      assert (before + script)[|before + script| - 1] == m;
      LastStep(cfg, s, script);
      RunConcat(cfg, Init(stripe), before, front);
      if IsCancelled(rec, Run(cfg, s, front).stripe.now) {
        CancelledForGood(rec, Run(cfg, s, front).stripe.now, Run(cfg, s, script).stripe.now);
      }
      AliveIsFrozen(cfg, stripe, before, front, u, id, rec);
      FrozenHolds(cfg, s, front, u, id, rec);
      NeverReplacedAlive(cfg, stripe, before + front, m, u);
    }
  }

  /**
   With the checkouts of a user handled one at a time and Stripe never reviving what it cancelled: after a
   verification has answered exhausted, every later verdict is exhausted for as long as Stripe keeps the record,
   the clock does not go back and the record is not cancelled.
   */
  lemma ExhaustedUntilCancelled(
      cfg: Config, stripe: Stripe, start: seq<Move>, before: seq<Move>, script: seq<Move>, u: Digest, id: string, rec: Subscription,
      p: nat, q: nat)
    requires Serial(cfg, Init(stripe), start + (before + script)) && Steady(cfg, Init(stripe), start + (before + script))
    requires var s := Run(cfg, Init(stripe), start);
      && CellOf(s.tables, u) == Some(id)
      && KeepsRecord(cfg, s, before + script, id, rec) && Advancing(cfg, s, before + script)
      && !IsCancelled(rec, Run(cfg, s, before + script).stripe.now)
    requires var s := Run(cfg, Init(stripe), start);
      var mid, end := Run(cfg, s, before), Run(cfg, s, before + script);
      && |s.procs| <= p && Answers(mid, p) && VerifiesFor(cfg, mid.procs[p], u) && IsExhausted(mid.procs[p].pc.answer)
      && |s.procs| <= q && Pending(mid, q) && Answers(end, q) && VerifiesFor(cfg, end.procs[q], u)
    ensures var answer := Run(cfg, Run(cfg, Init(stripe), start), before + script).procs[q].pc.answer;
      answer.Judged? ==> IsExhausted(answer)
  {
    hide Run, IsCancelled, Serial, Steady, KeepsRecord, Advancing, Frozen, Billing.Reachable, CellOf;
    AliveIsFrozen(cfg, stripe, start, before + script, u, id, rec);
    Extends(cfg, stripe, start);
    ExhaustedStays(cfg, Run(cfg, Init(stripe), start), before, script, u, id, rec, p, q);
  }

  // ----- how entitlement can come back

  /** At position n of the script a checkout of u commits a store that takes id out of the account. */
  ghost predicate ReplacedAt(cfg: Config, s: System, script: seq<Move>, u: Digest, id: string, n: nat) {
    && n < |script|
    && var at := Run(cfg, s, script[..n]);
    && CellOf(at.tables, u) == Some(id)
    && script[n].Act? && CanAct(at, script[n].p)
    && Stores(cfg, at.procs[script[n].p].pc, script[n].fault, u)
    && at.procs[script[n].p].pc.event.subscriptionId != id
  }

  lemma LeavesOnlyReplaced(cfg: Config, s: System, m: Move, u: Digest)
    requires AccountsInv(cfg, s)
    ensures CellOf(s.tables, u) != CellOf(Step(cfg, s, m).tables, u) ==>
      && m.Act? && CanAct(s, m.p) && Stores(cfg, s.procs[m.p].pc, m.fault, u)
      && CellOf(s.tables, u) != Some(s.procs[m.p].pc.event.subscriptionId)
  {
    hide Acted, CellOf, Paired, CellFilled;
    if m.Act? && CanAct(s, m.p) {
      CellStays(cfg, s, m.p, m.fault, u);
    }
  }

  /** While Stripe keeps the record, the account keeps the subscription or a store takes it out. */
  lemma {:induction false} FrozenOrReplaced(cfg: Config, s: System, script: seq<Move>, u: Digest, id: string, rec: Subscription)
    returns (n: nat)
    requires Billing.Reachable(cfg, s) && CellOf(s.tables, u) == Some(id) && KeepsRecord(cfg, s, script, id, rec)
    ensures Frozen(cfg, s, script, u, id, rec) || ReplacedAt(cfg, s, script, u, id, n)
  {
    n := 0;
    if script != [] {
      hide Run, Step, Billing.Reachable, AccountsInv, CellOf, Stores, CanAct;
      var front, m := script[..|script| - 1], script[|script| - 1];
      n := FrozenOrReplaced(cfg, s, front, u, id, rec);
      LastStep(cfg, s, script);
      if Frozen(cfg, s, front, u, id, rec) {
        FrozenHolds(cfg, s, front, u, id, rec);
        RunOnward(cfg, s, front);
        LeavesOnlyReplaced(cfg, Run(cfg, s, front), m, u);
        if CellOf(Run(cfg, s, script).tables, u) != Some(id) {
          n := |script| - 1;
        }
      } else {
        assert script[..n] == front[..n] && script[n] == front[n];
      }
    }
  }

  /**
   A valid verdict after an exhausted one needs a renewal: while Stripe keeps the record, whatever else interleaves, if a
   verification p has answered exhausted and a verification q that answers later answers freeTier or payingCustomer, then
   some checkout of the user has replaced the subscription in between. With the checkouts of the user handled one at a
   time and nothing revived at Stripe, the record was cancelled at that moment.
   */
  lemma ValidNeedsRenewal(
      cfg: Config, stripe: Stripe, start: seq<Move>, before: seq<Move>, script: seq<Move>, u: Digest, id: string, rec: Subscription,
      p: nat, q: nat)
    returns (n: nat)
    requires var s := Run(cfg, Init(stripe), start);
      CellOf(s.tables, u) == Some(id) && KeepsRecord(cfg, s, before + script, id, rec)
    requires var s := Run(cfg, Init(stripe), start);
      var mid, end := Run(cfg, s, before), Run(cfg, s, before + script);
      && |s.procs| <= p && Answers(mid, p) && VerifiesFor(cfg, mid.procs[p], u) && IsExhausted(mid.procs[p].pc.answer)
      && |s.procs| <= q && Pending(mid, q) && Answers(end, q) && VerifiesFor(cfg, end.procs[q], u)
      && IsValid(end.procs[q].pc.answer)
    ensures var s := Run(cfg, Init(stripe), start);
      && ReplacedAt(cfg, s, before + script, u, id, n)
      && (Serial(cfg, Init(stripe), start + (before + script)) && Steady(cfg, Init(stripe), start + (before + script)) ==>
          IsCancelled(rec, Run(cfg, s, (before + script)[..n]).stripe.now))
  {
    hide Run, IsCancelled, Serial, Steady, KeepsRecord, Frozen, Billing.Reachable, CellOf, ReplacedAt;
    var s, all := Run(cfg, Init(stripe), start), before + script;
    Extends(cfg, stripe, start);
    n := FrozenOrReplaced(cfg, s, all, u, id, rec);
    if Frozen(cfg, s, all, u, id, rec) {
      ExhaustedStays(cfg, s, before, script, u, id, rec, p, q);
    } else if Serial(cfg, Init(stripe), start + all) && Steady(cfg, Init(stripe), start + all) {
      ReplacedWhileCancelled(cfg, stripe, start, all, u, id, rec, n);
    }
  }

  lemma ReplacedWhileCancelled(
      cfg: Config, stripe: Stripe, start: seq<Move>, script: seq<Move>, u: Digest, id: string, rec: Subscription, n: nat)
    requires Serial(cfg, Init(stripe), start + script) && Steady(cfg, Init(stripe), start + script)
    requires KeepsRecord(cfg, Run(cfg, Init(stripe), start), script, id, rec)
    requires ReplacedAt(cfg, Run(cfg, Init(stripe), start), script, u, id, n)
    ensures IsCancelled(rec, Run(cfg, Run(cfg, Init(stripe), start), script[..n]).stripe.now)
  {
    hide Run, Step, IsCancelled, Serial, Steady, KeepsRecord, Matches, Paired, CellFilled;
    var s, m := Run(cfg, Init(stripe), start), script[n];
    var at := Run(cfg, s, script[..n]);
    RunConcat(cfg, Init(stripe), start, script[..n]);
    SerialPart(cfg, stripe, start + script, |start| + n);
    assert (start + script)[..|start| + n] == start + script[..n];
    KeepsRecordPart(cfg, s, script, id, rec, n);
    Extends(cfg, stripe, start + script[..n]);
    ReachableAccounts(cfg, at);
    TakesOut(cfg, at, m, u);
    NeverReplacedAlive(cfg, stripe, start + script[..n], m, u);
  }

  lemma TakesOut(cfg: Config, s: System, m: Move, u: Digest)
    requires AccountsInv(cfg, s) && m.Act? && CanAct(s, m.p) && Stores(cfg, s.procs[m.p].pc, m.fault, u)
    ensures CellOf(Step(cfg, s, m).tables, u) == Some(s.procs[m.p].pc.event.subscriptionId)
  {
    hide Acted, CellOf, Paired, CellFilled;
    CellStays(cfg, s, m.p, m.fault, u);
  }

  lemma {:induction false} SerialPart(cfg: Config, stripe: Stripe, script: seq<Move>, n: nat)
    requires Serial(cfg, Init(stripe), script) && Steady(cfg, Init(stripe), script) && n <= |script|
    ensures Serial(cfg, Init(stripe), script[..n]) && Steady(cfg, Init(stripe), script[..n])
  {
    hide Run, InTurn, CancelsStay;
    if n == |script| {
      assert script[..n] == script;
    } else {
      assert script[..|script| - 1][..n] == script[..n];
      SerialPart(cfg, stripe, script[..|script| - 1], n);
    }
  }

  lemma {:induction false} KeepsRecordPart(cfg: Config, s: System, script: seq<Move>, id: string, rec: Subscription, n: nat)
    requires KeepsRecord(cfg, s, script, id, rec) && n <= |script|
    ensures var at := Run(cfg, s, script[..n]); id in at.stripe.subscriptions && at.stripe.subscriptions[id] == rec
  {
    hide Run;
    if n == |script| {
      assert script[..n] == script;
    } else {
      assert script[..|script| - 1][..n] == script[..n];
      KeepsRecordPart(cfg, s, script[..|script| - 1], id, rec, n);
    }
  }

  // ----- spending

  /** Along any run no user's spending in any window falls. */
  lemma CountsNeverFall(cfg: Config, s: System, script: seq<Move>, u: Digest, from: int, to: int)
    requires Billing.Reachable(cfg, s)
    ensures SumBetween(u, from, to, s.tables.units) <= SumBetween(u, from, to, Run(cfg, s, script).tables.units)
  {
    hide Run, Billing.Reachable, SumBetween, Billing.PointsOk, Billing.Books, Billing.Balances, Chained;
    Billing.ReachableInv(cfg, s);
    Billing.RunKeepsInv(cfg, s, script);
    WindowGrows(u, from, to, s.tables.units, Run(cfg, s, script).tables.units);
  }
}
