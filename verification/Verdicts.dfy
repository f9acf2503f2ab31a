/**
 What the verdict of an interleaved verification rests on. Its five readings are made at five moments, between
 which other requests, failures and Stripe changes may run; the verdict is the judgement of those readings.
 */
module Verdicts {
  import opened Prelude
  import opened Identity
  import opened Gateway
  import opened Tables
  import opened Requests
  import opened Serving
  import opened System
  import opened Checkouts

  /** The positions in a script of the moves by which a verification made its readings. */
  datatype Moments = Moments(credit: nat, account: nat, record: nat, customer: nat, spending: nat)

  /** The system in which the move at position n of the script is made. */
  function At(cfg: Config, stripe: Stripe, script: seq<Move>, n: nat): System
    requires n <= |script|
  {
    Run(cfg, Init(stripe), script[..n])
  }

  /** The handler q makes a call at position n. */
  predicate Calls(script: seq<Move>, q: nat, n: nat) {
    n < |script| && script[n].Act? && script[n].p == q
  }

  ghost predicate ReadCredit(cfg: Config, stripe: Stripe, script: seq<Move>, q: nat, u: Digest, n: nat) {
    Calls(script, q, n) && CreditOf(cfg, At(cfg, stripe, script, n).tables, u) <= 0
  }

  ghost predicate ReadRow(cfg: Config, stripe: Stripe, script: seq<Move>, q: nat, u: Digest, account: Account, n: nat) {
    Calls(script, q, n) && AccountOf(At(cfg, stripe, script, n).tables, u) == account && FromNull(account.subscriptionId) != ""
  }

  ghost predicate ReadRecord(cfg: Config, stripe: Stripe, script: seq<Move>, q: nat, id: string, sub: Subscription, n: nat) {
    && Calls(script, q, n)
    && id in At(cfg, stripe, script, n).stripe.subscriptions
    && At(cfg, stripe, script, n).stripe.subscriptions[id] == sub
  }

  /** The customer was read, and at that moment the subscription was active and not cancelled. */
  ghost predicate ReadCustomer(
      cfg: Config, stripe: Stripe, script: seq<Move>, q: nat, customer: string, sub: Subscription, email: string, n: nat)
  {
    && Calls(script, q, n)
    && customer in At(cfg, stripe, script, n).stripe.customers
    && At(cfg, stripe, script, n).stripe.customers[customer] == email
    && !IsCancelled(sub, At(cfg, stripe, script, n).stripe.now) && sub.status == Active
  }

  /** What a verification at pc has read before position n, at the moments ms. */
  ghost predicate Trail(cfg: Config, stripe: Stripe, script: seq<Move>, q: nat, u: Digest, pc: Pc, n: nat, ms: Moments) {
    match pc
    case ReadAccount(_) =>
      ms.credit < n && ReadCredit(cfg, stripe, script, q, u, ms.credit)
    case FetchCurrent(_, account) =>
      && ms.credit < ms.account < n
      && ReadCredit(cfg, stripe, script, q, u, ms.credit) && ReadRow(cfg, stripe, script, q, u, account, ms.account)
    case FetchCustomer(_, account, sub) =>
      && ms.credit < ms.account < ms.record < n
      && ReadCredit(cfg, stripe, script, q, u, ms.credit) && ReadRow(cfg, stripe, script, q, u, account, ms.account)
      && ReadRecord(cfg, stripe, script, q, FromNull(account.subscriptionId), sub, ms.record)
    case CountSpending(_, sub, email) =>
      && ms.credit < ms.account < ms.record < ms.customer < n <= |script|
      && var account := AccountOf(At(cfg, stripe, script, ms.account).tables, u);
      && ReadCredit(cfg, stripe, script, q, u, ms.credit) && ReadRow(cfg, stripe, script, q, u, account, ms.account)
      && ReadRecord(cfg, stripe, script, q, FromNull(account.subscriptionId), sub, ms.record)
      && ReadCustomer(cfg, stripe, script, q, FromNull(account.customerId), sub, email, ms.customer)
    case Finished(answer) =>
      answer.Judged? ==> n <= |script| && Justified(cfg, stripe, script, q, u, answer, n, ms)
    case _ => true
  }

  /** The answer is the judgement of what the handler q read at the moments ms, in this order and before position n. */
  ghost predicate Justified(cfg: Config, stripe: Stripe, script: seq<Move>, q: nat, u: Digest, answer: Answer, n: nat, ms: Moments)
    requires n <= |script|
  {
    && ms.credit <= ms.account <= ms.record <= ms.customer <= ms.spending < n
    && Calls(script, q, ms.credit) && Calls(script, q, ms.account) && Calls(script, q, ms.record)
    && Calls(script, q, ms.customer) && Calls(script, q, ms.spending)
    && answer == VerdictFrom(cfg, u,
         At(cfg, stripe, script, ms.credit).tables, At(cfg, stripe, script, ms.account).tables,
         At(cfg, stripe, script, ms.record).stripe, At(cfg, stripe, script, ms.customer).stripe,
         At(cfg, stripe, script, ms.spending).tables)
  }

  // ----- one reading

  /** A call that belongs to the verification of req, made in the system s, and where it leads. */
  ghost predicate Leads(cfg: Config, s: System, req: Request, pc: Pc, fault: Fault, next: Pc) {
    && req.Verify? && !pc.Finished? && Matches(req, pc)
    && next == Resume(cfg, s.stripe.now, pc, Effect(cfg, s.stripe, fault, s.tables, pc).1)
  }

  lemma CreditReading(cfg: Config, s: System, req: Request, pc: Pc, fault: Fault, next: Pc)
    requires Leads(cfg, s, req, pc, fault, next) && (pc.EnsureCredit? || pc.EnsureAccount? || pc.EnsureCreditAgain?)
    ensures next.EnsureAccount? || next.EnsureCreditAgain? || next.ReadAccount? || next.Finished?
    ensures next.ReadAccount? ==> CreditOf(cfg, s.tables, Key(cfg, req.user)) <= 0
    ensures next.Finished? && next.answer.Judged? ==>
      next.answer == Judged(FreeTier) && CreditOf(cfg, s.tables, Key(cfg, req.user)) > 0
  {
    hide Key, Grant, Merged;
  }

  lemma AccountReading(cfg: Config, s: System, req: Request, pc: Pc, fault: Fault, next: Pc)
    requires Leads(cfg, s, req, pc, fault, next) && pc.ReadAccount?
    ensures next.FetchCurrent? || next.Finished?
    ensures var account := AccountOf(s.tables, Key(cfg, req.user));
      && (next.FetchCurrent? ==> next.account == account && FromNull(account.subscriptionId) != "")
      && (next.Finished? && next.answer.Judged? ==>
          next.answer == Judged(Invalid(NoSubscription, "")) && FromNull(account.subscriptionId) == "")
  {
    hide Key;
    var key := Key(cfg, pc.user);
    assert |key| == DIGEST_LENGTH && |ACCOUNT_WITHOUT_SUBSCRIPTION| == 26;
  }

  lemma RecordReading(cfg: Config, s: System, req: Request, pc: Pc, fault: Fault, next: Pc)
    requires Leads(cfg, s, req, pc, fault, next) && pc.FetchCurrent?
    ensures next.FetchCustomer? || (next.Finished? && !next.answer.Judged?)
    ensures var id := FromNull(pc.account.subscriptionId);
      next.FetchCustomer? ==>
        next.account == pc.account && id in s.stripe.subscriptions && next.subscription == s.stripe.subscriptions[id]
  {
  }

  lemma CustomerReading(cfg: Config, s: System, req: Request, pc: Pc, fault: Fault, next: Pc)
    requires Leads(cfg, s, req, pc, fault, next) && pc.FetchCustomer?
    ensures next.CountSpending? || next.Finished?
    ensures var customer := FromNull(pc.account.customerId);
      && (next.CountSpending? ==>
          && next.subscription == pc.subscription
          && customer in s.stripe.customers && next.email == s.stripe.customers[customer]
          && !IsCancelled(pc.subscription, s.stripe.now) && pc.subscription.status == Active)
      && (next.Finished? && next.answer.Judged? ==>
          && customer in s.stripe.customers
          && forall t, u :: next.answer == JudgedRecord(cfg, s.stripe, t, u, pc.subscription, s.stripe.customers[customer]))
  {
    hide IsCancelled, Judge;
  }

  lemma SpendingReading(cfg: Config, s: System, req: Request, pc: Pc, fault: Fault, next: Pc)
    requires Leads(cfg, s, req, pc, fault, next) && pc.CountSpending?
    ensures next.Finished?
    ensures var sub := pc.subscription;
      next.answer.Judged? ==>
        next.answer == Judge(cfg, sub, PeriodSpending(s.tables, Key(cfg, req.user), sub), pc.email)
  {
    hide Judge, SumBetween, ToInt64, Key;
  }

  // ----- the trail grows with the readings

  lemma TrailStep(cfg: Config, stripe: Stripe, script: seq<Move>, q: nat, n: nat, req: Request, pc: Pc, fault: Fault, next: Pc, ms: Moments)
    returns (ms1: Moments)
    requires n < |script| && script[n] == Act(q, fault)
    requires Leads(cfg, At(cfg, stripe, script, n), req, pc, fault, next)
    requires Trail(cfg, stripe, script, q, Key(cfg, req.user), pc, n, ms)
    ensures Trail(cfg, stripe, script, q, Key(cfg, req.user), next, n + 1, ms1)
  {
    hide At, Key, CreditOf, IsCancelled, Judge, SumBetween, ToInt64, Leads;
    var s := At(cfg, stripe, script, n);
    KindOfPoint(cfg, s, req, pc, fault, next);
    if pc.ReadAccount? {
      AccountReading(cfg, s, req, pc, fault, next);
      ms1 := Moments(ms.credit, n, n, n, n);
    } else if pc.FetchCurrent? {
      RecordReading(cfg, s, req, pc, fault, next);
      ms1 := Moments(ms.credit, ms.account, n, n, n);
    } else if pc.FetchCustomer? {
      CustomerReading(cfg, s, req, pc, fault, next);
      ms1 := Moments(ms.credit, ms.account, ms.record, n, n);
    } else if pc.CountSpending? {
      SpendingReading(cfg, s, req, pc, fault, next);
      ms1 := Moments(ms.credit, ms.account, ms.record, ms.customer, n);
    } else {
      CreditReading(cfg, s, req, pc, fault, next);
      ms1 := Moments(n, n, n, n, n);
    }
  }

  lemma KindOfPoint(cfg: Config, s: System, req: Request, pc: Pc, fault: Fault, next: Pc)
    requires Leads(cfg, s, req, pc, fault, next)
    ensures pc.EnsureCredit? || pc.EnsureAccount? || pc.EnsureCreditAgain?
         || pc.ReadAccount? || pc.FetchCurrent? || pc.FetchCustomer? || pc.CountSpending?
  {
  }

  lemma NextAt(cfg: Config, stripe: Stripe, script: seq<Move>, n: nat)
    requires n < |script|
    ensures At(cfg, stripe, script, n + 1) == Step(cfg, At(cfg, stripe, script, n), script[n])
    ensures AccountsInv(cfg, At(cfg, stripe, script, n))
  {
    hide Step, AccountsInv;
    assert script[..n + 1][..n] == script[..n];
    ReachableAccounts(cfg, Run(cfg, Init(stripe), script[..n]));
  }

  lemma TrailWaits(cfg: Config, stripe: Stripe, script: seq<Move>, q: nat, u: Digest, pc: Pc, n: nat, ms: Moments)
    requires n < |script| && Trail(cfg, stripe, script, q, u, pc, n, ms)
    ensures Trail(cfg, stripe, script, q, u, pc, n + 1, ms)
  {
    hide At, ReadCredit, ReadRow, ReadRecord, ReadCustomer, VerdictFrom;
  }

  lemma StartTrail(cfg: Config, stripe: Stripe, script: seq<Move>, q: nat, u: Digest, req: Request, n: nat)
    requires req.Verify?
    ensures Trail(cfg, stripe, script, q, u, Start(req), n, Moments(0, 0, 0, 0, 0))
  {
  }

  lemma {:induction false} TrailOf(cfg: Config, stripe: Stripe, script: seq<Move>, q: nat, n: nat)
    returns (ms: Moments)
    requires n <= |script|
    requires var s := At(cfg, stripe, script, n); q < |s.procs| && s.procs[q].req.Verify?
    ensures var proc := At(cfg, stripe, script, n).procs[q];
      Trail(cfg, stripe, script, q, Key(cfg, proc.req.user), proc.pc, n, ms)
  {
    if n > 0 {
      hide At, Step, Trail, AccountsInv, Effect, Resume, Start, Matches;
      var before, m := At(cfg, stripe, script, n - 1), script[n - 1];
      NextAt(cfg, stripe, script, n - 1);
      HandlerMoves(cfg, before, m, q);
      if q >= |before.procs| {
        ms := Moments(0, 0, 0, 0, 0);
        StartTrail(cfg, stripe, script, q, Key(cfg, m.req.user), m.req, n);
      } else {
        ms := TrailOf(cfg, stripe, script, q, n - 1);
        var proc := before.procs[q];
        if m.Act? && m.p == q && CanAct(before, q) {
          MatchesHere(cfg, before, q);
          ms := TrailStep(cfg, stripe, script, q, n - 1, proc.req, proc.pc, m.fault,
            At(cfg, stripe, script, n).procs[q].pc, ms);
        } else {
          TrailWaits(cfg, stripe, script, q, Key(cfg, proc.req.user), proc.pc, n - 1, ms);
        }
      }
    }
  }

  /**
   Every verdict is justified. However a verification interleaves with other requests, failures and Stripe changes, its
   verdict is the judgement of the credit, the account, the Stripe record, the customer with the clock, and the spending
   as they were at moments, in this order, at which this handler itself made a call.
   */
  lemma VerdictIsJustified(cfg: Config, stripe: Stripe, script: seq<Move>, q: nat)
    returns (ms: Moments)
    requires var s := Run(cfg, Init(stripe), script);
      q < |s.procs| && s.procs[q].req.Verify? && s.procs[q].pc.Finished? && s.procs[q].pc.answer.Judged?
    ensures var proc := Run(cfg, Init(stripe), script).procs[q];
      Justified(cfg, stripe, script, q, Key(cfg, proc.req.user), proc.pc.answer, |script|, ms)
  {
    hide Run, Justified;
    assert script[..|script|] == script;
    ms := TrailOf(cfg, stripe, script, q, |script|);
  }

  /** What a customer has who is told to be paying: at the moments of the readings there was no free credit, the account
      held a subscription, Stripe's record of it was active and not cancelled, and the period's spending was within its limit. */
  lemma PayingIsPaid(cfg: Config, stripe: Stripe, script: seq<Move>, q: nat)
    returns (ms: Moments)
    requires var s := Run(cfg, Init(stripe), script);
      && q < |s.procs| && s.procs[q].req.Verify? && s.procs[q].pc.Finished?
      && s.procs[q].pc.answer.Judged? && s.procs[q].pc.answer.verdict.PayingCustomer?
    ensures ms.credit <= ms.account <= ms.record <= ms.customer <= ms.spending < |script|
    ensures Calls(script, q, ms.credit) && Calls(script, q, ms.account) && Calls(script, q, ms.record)
    ensures Calls(script, q, ms.customer) && Calls(script, q, ms.spending)
    ensures var u := Key(cfg, Run(cfg, Init(stripe), script).procs[q].req.user);
      var account := AccountOf(At(cfg, stripe, script, ms.account).tables, u);
      var id, records := FromNull(account.subscriptionId), At(cfg, stripe, script, ms.record).stripe.subscriptions;
      && CreditOf(cfg, At(cfg, stripe, script, ms.credit).tables, u) <= 0
      && id != "" && id in records && records[id].status == Active
      && !IsCancelled(records[id], At(cfg, stripe, script, ms.customer).stripe.now)
      && WithinLimit(cfg, At(cfg, stripe, script, ms.spending).tables, u, records[id])
  {
    hide Run, At, IsCancelled, SumBetween, Limit, ToInt64, CreditOf, Key;
    ms := VerdictIsJustified(cfg, stripe, script, q);
  }
}
