/** One request served alone while every call works, and what each kind of request then does. */
module Serving {
  import opened Prelude
  import opened Identity
  import opened Gateway
  import opened Tables
  import opened Requests

  datatype Served = Served(tables: Tables, answer: Answer)

  function Serve(cfg: Config, stripe: Stripe, t: Tables, pc: Pc): Served
    decreases CallsLeft(pc)
  {
    if pc.Finished? then Served(t, pc.answer)
    else
      var (u, reply) := Effect(cfg, stripe, Works, t, pc);
      var next := Resume(cfg, stripe.now, pc, reply);
      CallsDecrease(cfg, stripe.now, pc, reply);
      Serve(cfg, stripe, u, next)
  }

  /** Serving is running alone without a fault. */
  lemma {:induction false} ServeIsFaultless(cfg: Config, stripe: Stripe, faults: nat -> Fault, t: Tables, tick: nat, pc: Pc)
    requires forall n :: n >= tick ==> faults(n).Works?
    ensures var ran := RunAlone(cfg, stripe, faults, t, tick, pc);
      Served(ran.tables, ran.answer) == Serve(cfg, stripe, t, pc)
    decreases CallsLeft(pc)
  {
    if !pc.Finished? {
      assert faults(tick).Works?;
      var (u, reply) := Effect(cfg, stripe, Works, t, pc);
      CallsDecrease(cfg, stripe.now, pc, reply);
      ServeIsFaultless(cfg, stripe, faults, u, tick + 1, Resume(cfg, stripe.now, pc, reply));
    }
  }

  lemma RunsAsServed(cfg: Config, stripe: Stripe, faults: nat -> Fault, t: Tables, tick: nat, pc: Pc, served: Served)
    requires forall n :: n >= tick ==> faults(n).Works?
    requires Serve(cfg, stripe, t, pc) == served
    ensures var ran := RunAlone(cfg, stripe, faults, t, tick, pc);
      ran.tables == served.tables && ran.answer == served.answer
  {
    hide Serve, RunAlone;
    ServeIsFaultless(cfg, stripe, faults, t, tick, pc);
  }

  // ----- GetFreeCredit

  /** The tables after GetFreeCredit: the user has a credit row, and an account row if the credit row is new. */
  function Ensured(cfg: Config, t: Tables, u: Digest): Tables {
    if u in t.credit then t
    else
      var accounts := if u in t.accounts then t.accounts else t.accounts[u := NO_SUBSCRIPTION];
      t.(accounts := accounts, credit := t.credit[u := Grant(cfg)])
  }

  function CreditOf(cfg: Config, t: Tables, u: Digest): int {
    if u in t.credit then t.credit[u] else Grant(cfg)
  }

  /** GetFreeCredit creates what is missing, retrying once after creating the account, and never fails. */
  lemma ServeEnsure(cfg: Config, stripe: Stripe, t: Tables, user: Bytes, goal: Goal)
    ensures var u := Key(cfg, user);
      Serve(cfg, stripe, t, EnsureCredit(user, goal))
      == Serve(cfg, stripe, Ensured(cfg, t, u), ReturnCredit(user, goal, CreditOf(cfg, t, u)))
  {
    var u := Key(cfg, user);
    if u !in t.credit && u !in t.accounts {
      var t1 := Exec(t, UpsertAccount(u, None, None, None)).0;
      assert Serve(cfg, stripe, t, EnsureCredit(user, goal)) == Serve(cfg, stripe, t, EnsureAccount(user, goal));
      assert Serve(cfg, stripe, t, EnsureAccount(user, goal)) == Serve(cfg, stripe, t1, EnsureCreditAgain(user, goal));
    }
  }

  // ----- VerifySubscription

  function CellOf(t: Tables, u: Digest): NullString {
    AccountOf(t, u).subscriptionId
  }

  /** The user's spending in the billing period of sub. */
  function PeriodSpending(t: Tables, u: Digest, sub: Subscription): int {
    SumBetween(u, ToInt64(sub.periodStart * 1000), ToInt64(sub.periodEnd * 1000), t.units)
  }

  /** The plan and the configuration are complete enough to compute a limit. */
  predicate Billable(cfg: Config, sub: Subscription) {
    && sub.planAmount.Some? && sub.planAmount.value != 0 && sub.quantity != 0
    && cfg.unitsPerDollar.Some? && cfg.unitsPerDollar.value > 0
  }

  predicate WithinLimit(cfg: Config, t: Tables, u: Digest, sub: Subscription) {
    Billable(cfg, sub) && PeriodSpending(t, u, sub) <= Limit(sub.planAmount.value, sub.quantity, cfg.unitsPerDollar.value)
  }

  predicate OverLimit(cfg: Config, t: Tables, u: Digest, sub: Subscription) {
    Billable(cfg, sub) && PeriodSpending(t, u, sub) > Limit(sub.planAmount.value, sub.quantity, cfg.unitsPerDollar.value)
  }

  predicate IsExhausted(answer: Answer) {
    answer.Judged? && answer.verdict.Invalid? && answer.verdict.why.Exhausted?
  }

  /** The verdict entitles the user: free tier or paying customer. */
  predicate IsValid(answer: Answer) {
    answer.Judged? && !answer.verdict.Invalid?
  }

  /** The verdict on a user without free credit, from the record of the current subscription. */
  function JudgedRecord(cfg: Config, stripe: Stripe, t: Tables, u: Digest, sub: Subscription, email: string): Answer {
    if IsCancelled(sub, stripe.now) then Judged(Invalid(Cancelled, email))
    else if sub.status != Active then Judged(Invalid(Other, email))
    else Judge(cfg, sub, PeriodSpending(t, u, sub), email)
  }

  /** The verdict on a user, with the credit, the account, the record, the customer together with the clock, and the
      spending each read from a state of its own. */
  function VerdictFrom(
      cfg: Config, u: Digest, creditAt: Tables, accountAt: Tables, recordAt: Stripe, customerAt: Stripe, spendingAt: Tables): Answer
  {
    var account := AccountOf(accountAt, u);
    var id, customer := FromNull(account.subscriptionId), FromNull(account.customerId);
    if CreditOf(cfg, creditAt, u) > 0 then Judged(FreeTier)
    else if id == "" then Judged(Invalid(NoSubscription, ""))
    else if id !in recordAt.subscriptions || customer !in customerAt.customers then Failed(GatewayError)
    else JudgedRecord(cfg, customerAt, spendingAt, u, recordAt.subscriptions[id], customerAt.customers[customer])
  }

  /** The verdict on a user, read off one snapshot. */
  function Judgement(cfg: Config, stripe: Stripe, t: Tables, u: Digest): Answer {
    VerdictFrom(cfg, u, t, t, stripe, stripe, t)
  }

  lemma ServeCustomer(cfg: Config, stripe: Stripe, t: Tables, user: Bytes, account: Account, sub: Subscription)
    ensures var customer := FromNull(account.customerId);
      Serve(cfg, stripe, t, FetchCustomer(user, account, sub))
      == Served(t, if customer in stripe.customers then JudgedRecord(cfg, stripe, t, Key(cfg, user), sub, stripe.customers[customer])
                   else Failed(GatewayError))
  {
    var customer := FromNull(account.customerId);
    if customer in stripe.customers && !IsCancelled(sub, stripe.now) && sub.status == Active {
      var email := stripe.customers[customer];
      var spent := PeriodSpending(t, Key(cfg, user), sub);
      assert Serve(cfg, stripe, t, FetchCustomer(user, account, sub)) == Serve(cfg, stripe, t, CountSpending(user, sub, email));
      assert Serve(cfg, stripe, t, CountSpending(user, sub, email)) == Served(t, Judge(cfg, sub, spent, email));
    }
  }

  lemma ServeSubscription(cfg: Config, stripe: Stripe, t: Tables, user: Bytes, account: Account)
    requires FromNull(account.subscriptionId) != ""
    ensures var id, customer := FromNull(account.subscriptionId), FromNull(account.customerId);
      Serve(cfg, stripe, t, FetchCurrent(user, account))
      == Served(t, if id !in stripe.subscriptions || customer !in stripe.customers then Failed(GatewayError)
                   else JudgedRecord(cfg, stripe, t, Key(cfg, user), stripe.subscriptions[id], stripe.customers[customer]))
  {
    var id := FromNull(account.subscriptionId);
    if id in stripe.subscriptions {
      var sub := stripe.subscriptions[id];
      assert Serve(cfg, stripe, t, FetchCurrent(user, account)) == Serve(cfg, stripe, t, FetchCustomer(user, account, sub));
      ServeCustomer(cfg, stripe, t, user, account, sub);
    }
  }

  /** VerifySubscription answers the judgement on the tables it was called on, and creates the credit row. */
  lemma ServeVerify(cfg: Config, stripe: Stripe, t: Tables, user: Bytes)
    requires user != []
    ensures var u := Key(cfg, user);
      Serve(cfg, stripe, t, Start(Verify(user))) == Served(Ensured(cfg, t, u), Judgement(cfg, stripe, t, u))
  {
    var u := Key(cfg, user);
    var t1 := Ensured(cfg, t, u);
    ServeEnsure(cfg, stripe, t, user, ThenVerdict);
    if CreditOf(cfg, t, u) <= 0 && u in t1.accounts && FromNull(CellOf(t, u)) != "" {
      var account := t.accounts[u];
      assert Serve(cfg, stripe, t1, ReadAccount(user)) == Serve(cfg, stripe, t1, FetchCurrent(user, account));
      ServeSubscription(cfg, stripe, t1, user, account);
    }
  }

  /**
   The allowance in units: a subscription with a plan is exhausted exactly when the period's spending
   exceeds whole dollars times quantity times units per dollar. That never allows more than the exact
   price would, and less by fewer units than one dollar buys.
   */
  lemma ExhaustedExactly(cfg: Config, sub: Subscription, spent: int, email: string)
    requires sub.planAmount.Some? && sub.planAmount.value > 0 && sub.quantity > 0
    requires cfg.unitsPerDollar.Some? && cfg.unitsPerDollar.value > 0
    requires IsInt64(sub.planAmount.value / 100 * sub.quantity * cfg.unitsPerDollar.value)
    ensures var perDollar := sub.quantity * cfg.unitsPerDollar.value;
      var allowed, exact := (sub.planAmount.value / 100) * perDollar, sub.planAmount.value * perDollar / 100;
      && Judge(cfg, sub, spent, email) == Judged(if spent > allowed then Invalid(Exhausted, email) else PayingCustomer(email))
      && allowed <= exact < allowed + perDollar
  {
    hide Limit;
    LimitShortfall(sub.planAmount.value, sub.quantity, cfg.unitsPerDollar.value);
  }

  // ----- HandleCheckoutSessionCompleted

  predicate EventOk(event: Event) {
    event.user != [] && event.customerId != "" && event.subscriptionId != ""
  }

  /** What a checkout does: it fills an empty account or replaces a cancelled subscription, records itself
      as invalid beside a live one, and changes nothing when Stripe does not know the current one. */
  function CheckedOut(cfg: Config, stripe: Stripe, t: Tables, event: Event): Tables {
    var u, current := Key(cfg, event.user), FromNull(CellOf(t, Key(cfg, event.user)));
    if current == "" then Ensured(cfg, Upserted(t, u, CheckoutRow(event)), u)
    else if current !in stripe.subscriptions then t
    else if IsCancelled(stripe.subscriptions[current], stripe.now) then Ensured(cfg, Upserted(t, u, CheckoutRow(event)), u)
    else Ensured(cfg, t.(invalid := t.invalid + [InvalidRowOf(cfg, event)]), u)
  }

  lemma ServeStore(cfg: Config, stripe: Stripe, t: Tables, event: Event, seen: NullString)
    ensures Serve(cfg, stripe, t, Store(event, seen))
         == Served(Ensured(cfg, Upserted(t, Key(cfg, event.user), CheckoutRow(event)), Key(cfg, event.user)), Handled)
  {
    var t1 := Upserted(t, Key(cfg, event.user), CheckoutRow(event));
    assert Serve(cfg, stripe, t, Store(event, seen)) == Serve(cfg, stripe, t1, EnsureCredit(event.user, ThenFinish));
    ServeEnsure(cfg, stripe, t1, event.user, ThenFinish);
  }

  lemma ServeRecord(cfg: Config, stripe: Stripe, t: Tables, event: Event)
    requires Key(cfg, event.user) in t.accounts
    ensures Serve(cfg, stripe, t, RecordInvalid(event))
         == Served(Ensured(cfg, t.(invalid := t.invalid + [InvalidRowOf(cfg, event)]), Key(cfg, event.user)), Handled)
  {
    var t1 := t.(invalid := t.invalid + [InvalidRowOf(cfg, event)]);
    assert Serve(cfg, stripe, t, RecordInvalid(event)) == Serve(cfg, stripe, t1, EnsureCredit(event.user, ThenFinish));
    ServeEnsure(cfg, stripe, t1, event.user, ThenFinish);
  }

  lemma ServeCheckout(cfg: Config, stripe: Stripe, t: Tables, event: Event)
    requires EventOk(event)
    ensures var current := FromNull(CellOf(t, Key(cfg, event.user)));
      Serve(cfg, stripe, t, Start(Checkout(event)))
      == Served(CheckedOut(cfg, stripe, t, event),
                if current == "" || current in stripe.subscriptions then Handled else Failed(GatewayError))
  {
    hide Key, Ensured, Upserted, IsCancelled;
    var u := Key(cfg, event.user);
    var current := FromNull(CellOf(t, u));
    assert Start(Checkout(event)) == CheckAccount(event);
    if current == "" {
      assert Serve(cfg, stripe, t, CheckAccount(event)) == Serve(cfg, stripe, t, Store(event, None));
      ServeStore(cfg, stripe, t, event, None);
    } else {
      assert Serve(cfg, stripe, t, CheckAccount(event)) == Serve(cfg, stripe, t, FetchPrevious(event, current));
      if current !in stripe.subscriptions {
        assert Serve(cfg, stripe, t, FetchPrevious(event, current)) == Served(t, Failed(GatewayError));
      } else {
        var next := if IsCancelled(stripe.subscriptions[current], stripe.now) then Store(event, Some(current)) else RecordInvalid(event);
        assert Serve(cfg, stripe, t, FetchPrevious(event, current)) == Serve(cfg, stripe, t, next);
        if IsCancelled(stripe.subscriptions[current], stripe.now) {
          ServeStore(cfg, stripe, t, event, Some(current));
        } else {
          ServeRecord(cfg, stripe, t, event);
        }
      }
    }
  }

  function Redelivered(cfg: Config, stripe: Stripe, t: Tables, event: Event, times: nat): Tables {
    if times == 0 then t
    else Serve(cfg, stripe, Redelivered(cfg, stripe, t, event, times - 1), Start(Checkout(event))).tables
  }

  /** The event would be recorded as invalid if it were handled on t. */
  predicate FindsLiveSubscription(cfg: Config, stripe: Stripe, t: Tables, event: Event) {
    var current := FromNull(CellOf(t, Key(cfg, event.user)));
    current != "" && current in stripe.subscriptions && !IsCancelled(stripe.subscriptions[current], stripe.now)
  }

  /**
   Delivering the same checkout any number of times leaves accounts and credits as after the first
   delivery. It does not leave invalid_subscription alone: each further delivery adds a row exactly
   when the account's subscription after the first one is live at Stripe.
   */
  lemma {:induction false} RedeliveryIsHarmless(cfg: Config, stripe: Stripe, t: Tables, event: Event, times: nat)
    requires EventOk(event) && times >= 1
    ensures var once, many := Redelivered(cfg, stripe, t, event, 1), Redelivered(cfg, stripe, t, event, times);
      && many.accounts == once.accounts && many.credit == once.credit && many.units == once.units == t.units
      && |many.invalid| == |once.invalid| + (if FindsLiveSubscription(cfg, stripe, once, event) then times - 1 else 0)
      && forall i :: |once.invalid| <= i < |many.invalid| ==> many.invalid[i] == InvalidRowOf(cfg, event)
  {
    hide Serve, CheckedOut, FindsLiveSubscription;
    var once := Redelivered(cfg, stripe, t, event, 1);
    assert once == Serve(cfg, stripe, t, Start(Checkout(event))).tables by {
      assert Redelivered(cfg, stripe, t, event, 0) == t;
    }
    ServeCheckout(cfg, stripe, t, event);
    if times > 1 {
      RedeliveryIsHarmless(cfg, stripe, t, event, times - 1);
      ServeCheckout(cfg, stripe, Redelivered(cfg, stripe, t, event, times - 1), event);
      SecondDelivery(cfg, stripe, t, Redelivered(cfg, stripe, t, event, times - 1), event);
      SameFinding(cfg, stripe, once, Redelivered(cfg, stripe, t, event, times - 1), event);
    }
    CheckoutUnits(cfg, stripe, t, event);
  }

  lemma SameFinding(cfg: Config, stripe: Stripe, t: Tables, other: Tables, event: Event)
    requires t.accounts == other.accounts
    ensures FindsLiveSubscription(cfg, stripe, t, event) == FindsLiveSubscription(cfg, stripe, other, event)
  {
  }

  lemma CheckoutUnits(cfg: Config, stripe: Stripe, t: Tables, event: Event)
    ensures CheckedOut(cfg, stripe, t, event).units == t.units
  {
  }

  /** Handling an event again on tables that agree with those after its first handling. */
  lemma SecondDelivery(cfg: Config, stripe: Stripe, t: Tables, again: Tables, event: Event)
    requires EventOk(event)
    requires var once := CheckedOut(cfg, stripe, t, event); again.accounts == once.accounts && again.credit == once.credit
    ensures var twice := CheckedOut(cfg, stripe, again, event);
      && twice.accounts == again.accounts && twice.credit == again.credit && twice.units == again.units
      && twice.invalid == if FindsLiveSubscription(cfg, stripe, again, event) then again.invalid + [InvalidRowOf(cfg, event)] else again.invalid
  {
    var u := Key(cfg, event.user);
    var once, twice := CheckedOut(cfg, stripe, t, event), CheckedOut(cfg, stripe, again, event);
    if FromNull(CellOf(again, u)) != "" && u !in again.credit {
      assert once == t;
    }
  }
}
