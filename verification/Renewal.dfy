/**
 When entitlement comes back after it was exhausted: exactly when a checkout replaces a cancelled subscription by one
 that is good and not itself exhausted.
 */
module Renewal {
  import opened Prelude
  import opened Identity
  import opened Gateway
  import opened Tables
  import opened Requests
  import opened Serving
  import opened System
  import Amounts

  /** A checkout that replaces a cancelled subscription starts over: the next verification judges the new record alone,
      whatever the verdict on the old one was. */
  lemma RenewalIsJudgedAnew(cfg: Config, stripe: Stripe, t: Tables, event: Event)
    requires EventOk(event) && CreditOf(cfg, t, Key(cfg, event.user)) <= 0
    requires var current := FromNull(CellOf(t, Key(cfg, event.user)));
      current != "" && current in stripe.subscriptions && IsCancelled(stripe.subscriptions[current], stripe.now)
    requires event.subscriptionId in stripe.subscriptions && event.customerId in stripe.customers
    ensures var after := Serve(cfg, stripe, t, Start(Checkout(event))).tables;
      Serve(cfg, stripe, after, Start(Verify(event.user))).answer
      == JudgedRecord(cfg, stripe, t, Key(cfg, event.user),
           stripe.subscriptions[event.subscriptionId], stripe.customers[event.customerId])
  {
    hide Serve, IsCancelled, Judge, Grant, Key;
    var u := Key(cfg, event.user);
    ServeCheckout(cfg, stripe, t, event);
    var after := CheckedOut(cfg, stripe, t, event);
    ServeVerify(cfg, stripe, after, event.user);
    assert after.accounts[u].subscriptionId == Some(event.subscriptionId);
    assert after.accounts[u].customerId == Some(event.customerId);
    assert after.units == t.units;
  }

  /** The checkout replaces the current subscription, and the new one is known, alive, complete and within its limit. */
  predicate Renews(cfg: Config, stripe: Stripe, t: Tables, event: Event) {
    var u := Key(cfg, event.user);
    var current := FromNull(CellOf(t, u));
    && current in stripe.subscriptions && IsCancelled(stripe.subscriptions[current], stripe.now)
    && event.subscriptionId in stripe.subscriptions && event.customerId in stripe.customers
    && var sub := stripe.subscriptions[event.subscriptionId];
       !IsCancelled(sub, stripe.now) && sub.status == Active && WithinLimit(cfg, t, u, sub)
  }

  lemma RecordVerdict(cfg: Config, stripe: Stripe, t: Tables, u: Digest, sub: Subscription, email: string)
    ensures var answer := JudgedRecord(cfg, stripe, t, u, sub, email);
      && (IsValid(answer) <==> !IsCancelled(sub, stripe.now) && sub.status == Active && WithinLimit(cfg, t, u, sub))
      && (IsExhausted(answer) <==> !IsCancelled(sub, stripe.now) && sub.status == Active && OverLimit(cfg, t, u, sub))
  {
    hide IsCancelled, PeriodSpending, Limit;
  }

  lemma ExhaustedBecause(cfg: Config, stripe: Stripe, t: Tables, u: Digest)
    requires IsExhausted(Judgement(cfg, stripe, t, u))
    ensures var current := FromNull(CellOf(t, u));
      && CreditOf(cfg, t, u) <= 0 && current != "" && current in stripe.subscriptions
      && stripe.subscriptions[current].status == Active && OverLimit(cfg, t, u, stripe.subscriptions[current])
  {
    hide JudgedRecord, CreditOf, OverLimit;
    var account := AccountOf(t, u);
    var id, customer := FromNull(account.subscriptionId), FromNull(account.customerId);
    if id in stripe.subscriptions && customer in stripe.customers {
      RecordVerdict(cfg, stripe, t, u, stripe.subscriptions[id], stripe.customers[customer]);
    }
  }

  /** The verdict after a checkout that does not replace the current subscription. */
  lemma KeptVerdict(cfg: Config, stripe: Stripe, t: Tables, event: Event)
    requires EventOk(event) && CreditOf(cfg, t, Key(cfg, event.user)) <= 0
    requires var u := Key(cfg, event.user);
      var current := FromNull(CellOf(t, u));
      && current != "" && current in stripe.subscriptions && !IsCancelled(stripe.subscriptions[current], stripe.now)
      && OverLimit(cfg, t, u, stripe.subscriptions[current])
    ensures var after := Serve(cfg, stripe, t, Start(Checkout(event))).tables;
      !IsValid(Serve(cfg, stripe, after, Start(Verify(event.user))).answer)
  {
    hide Serve, IsCancelled, Grant, Key, JudgedRecord, PeriodSpending, Limit;
    var u := Key(cfg, event.user);
    ServeCheckout(cfg, stripe, t, event);
    var after := CheckedOut(cfg, stripe, t, event);
    ServeVerify(cfg, stripe, after, event.user);
    assert AccountOf(after, u) == AccountOf(t, u) && CreditOf(cfg, after, u) <= 0;
    var id, customer := FromNull(AccountOf(t, u).subscriptionId), FromNull(AccountOf(t, u).customerId);
    if customer in stripe.customers {
      RecordVerdict(cfg, stripe, after, u, stripe.subscriptions[id], stripe.customers[customer]);
      SameSpending(after, t, u, stripe.subscriptions[id]);
    }
  }

  lemma SameSpending(t: Tables, other: Tables, u: Digest, sub: Subscription)
    requires t.units == other.units
    ensures PeriodSpending(t, u, sub) == PeriodSpending(other, u, sub)
  {
  }

  /**
   After `exhausted`, with Stripe's record of the current subscription unchanged and whatever the clock now says, the
   verdict that follows a checkout is valid if and only if that checkout renews: the current subscription is cancelled by
   now, and the new one is known with its customer, active, not cancelled, complete, and within its own limit.
   */
  lemma ValidIffRenewed(cfg: Config, before: Stripe, stripe: Stripe, t: Tables, event: Event)
    requires EventOk(event) && IsExhausted(Judgement(cfg, before, t, Key(cfg, event.user)))
    requires var current := FromNull(CellOf(t, Key(cfg, event.user)));
      current in before.subscriptions ==>
        current in stripe.subscriptions && stripe.subscriptions[current] == before.subscriptions[current]
    ensures var after := Serve(cfg, stripe, t, Start(Checkout(event))).tables;
      IsValid(Serve(cfg, stripe, after, Start(Verify(event.user))).answer) <==> Renews(cfg, stripe, t, event)
  {
    hide Serve, Judgement, IsCancelled, CreditOf, CellOf, Key, JudgedRecord, OverLimit, WithinLimit;
    var u := Key(cfg, event.user);
    var current := FromNull(CellOf(t, u));
    ExhaustedBecause(cfg, before, t, u);
    if !IsCancelled(stripe.subscriptions[current], stripe.now) {
      KeptVerdict(cfg, stripe, t, event);
    } else if event.subscriptionId in stripe.subscriptions && event.customerId in stripe.customers {
      RenewalIsJudgedAnew(cfg, stripe, t, event);
      RecordVerdict(cfg, stripe, t, u, stripe.subscriptions[event.subscriptionId], stripe.customers[event.customerId]);
    } else {
      UnknownVerdict(cfg, stripe, t, event);
    }
  }

  /** A new subscription or customer that Stripe does not know is an error at the next verification. */
  lemma UnknownVerdict(cfg: Config, stripe: Stripe, t: Tables, event: Event)
    requires EventOk(event) && CreditOf(cfg, t, Key(cfg, event.user)) <= 0
    requires var current := FromNull(CellOf(t, Key(cfg, event.user)));
      current != "" && current in stripe.subscriptions && IsCancelled(stripe.subscriptions[current], stripe.now)
    requires event.subscriptionId !in stripe.subscriptions || event.customerId !in stripe.customers
    ensures var after := Serve(cfg, stripe, t, Start(Checkout(event))).tables;
      Serve(cfg, stripe, after, Start(Verify(event.user))).answer == Failed(GatewayError)
  {
    hide Serve, IsCancelled, JudgedRecord, Grant, Key;
    var u := Key(cfg, event.user);
    ServeCheckout(cfg, stripe, t, event);
    var after := CheckedOut(cfg, stripe, t, event);
    ServeVerify(cfg, stripe, after, event.user);
    assert after.accounts[u].subscriptionId == Some(event.subscriptionId);
    assert after.accounts[u].customerId == Some(event.customerId);
  }

  // ----- a run in which entitlement comes back

  /** Serving a request is a script of the system: it arrives and makes its calls with nothing between them. */
  lemma ServeInSystem(cfg: Config, s: System, req: Request)
    returns (script: seq<Move>)
    ensures var end, served := Run(cfg, s, script), Serve(cfg, s.stripe, s.tables, Start(req));
      && end.tables == served.tables && end.stripe == s.stripe
      && end.procs == s.procs + [Proc(req, Finished(served.answer))]
  {
    hide Start, RunAlone, Serve;
    var arrived := Step(cfg, s, Arrive(req));
    var calm := (n: nat) => Works;
    ServeIsFaultless(cfg, s.stripe, calm, s.tables, 0, Start(req));
    var calls := RunAloneIsScript(cfg, arrived, calm, 0, |s.procs|);
    script := [Arrive(req)] + calls;
    RunConcat(cfg, s, [Arrive(req)], calls);
    assert [Arrive(req)][..0] == [];
  }

  lemma ServeNext(cfg: Config, stripe: Stripe, script: seq<Move>, req: Request)
    returns (more: seq<Move>)
    ensures script <= more
    ensures var s, end := Run(cfg, Init(stripe), script), Run(cfg, Init(stripe), more);
      var served := Serve(cfg, s.stripe, s.tables, Start(req));
      && end.tables == served.tables && end.stripe == s.stripe
      && end.procs == s.procs + [Proc(req, Finished(served.answer))]
  {
    hide *;
    var calls := ServeInSystem(cfg, Run(cfg, Init(stripe), script), req);
    RunConcat(cfg, Init(stripe), script, calls);
    more := script + calls;
  }

  /** One dollar a period; the first record ends at 10, the second begins a period at 20. */
  const OLD_RECORD := Subscription(Active, 10, 0, 100, Some(100), 1)
  const NEW_RECORD := Subscription(Active, 0, 20, 100, Some(100), 1)

  function Early(a: Event, b: Event, email: string): Stripe {
    Stripe(
      map[a.subscriptionId := OLD_RECORD, b.subscriptionId := NEW_RECORD],
      map[a.customerId := email, b.customerId := email],
      5)
  }

  function Late(a: Event, b: Event, email: string): Stripe {
    Early(a, b, email).(now := 20)
  }

  predicate Sample(cfg: Config, a: Event, b: Event, id: Bytes) {
    && cfg.initialFreeCredit == 0 && cfg.unitsPerDollar == Some(1)
    && EventOk(a) && EventOk(b) && a.user == b.user && a.subscriptionId != b.subscriptionId && id != []
  }

  /** Two units, spent one second into the first period. */
  function SampleItems(a: Event, id: Bytes): seq<RpcItem> {
    [RpcItem(id, a.user, 2, 1000)]
  }

  /** The tables after the first checkout, and after two units have been spent. */
  function Subscribed(cfg: Config, a: Event): Tables {
    Tables(map[Key(cfg, a.user) := CheckoutRow(a)], [], map[Key(cfg, a.user) := 0], [])
  }

  function Spent(cfg: Config, a: Event, id: Bytes): Tables {
    Subscribed(cfg, a).(units := [UnitRow(Key(cfg, id), Key(cfg, a.user), 2, 1000)])
  }

  lemma SampleSubscribes(cfg: Config, a: Event, b: Event, id: Bytes, email: string)
    requires Sample(cfg, a, b, id)
    ensures Serve(cfg, Early(a, b, email), EMPTY, Start(Checkout(a))) == Served(Subscribed(cfg, a), Handled)
  {
    hide Serve, IsCancelled, Key;
    ServeCheckout(cfg, Early(a, b, email), EMPTY, a);
  }

  lemma SampleSpends(cfg: Config, a: Event, b: Event, id: Bytes, email: string)
    requires Sample(cfg, a, b, id)
    ensures Serve(cfg, Early(a, b, email), Subscribed(cfg, a), Start(AddUnits(SampleItems(a, id))))
         == Served(Spent(cfg, a, id), Added(1))
  {
    hide Serve, NextItem, Key;
    var items := SampleItems(a, id);
    assert Converted(items) == [SpendingUnit(id, a.user, 2, 1000)];
    Amounts.ServeOne(cfg, Early(a, b, email), Subscribed(cfg, a), SpendingUnit(id, a.user, 2, 1000));
  }

  lemma SampleSums(cfg: Config, a: Event, id: Bytes)
    ensures PeriodSpending(Spent(cfg, a, id), Key(cfg, a.user), OLD_RECORD) == 2
    ensures PeriodSpending(Spent(cfg, a, id), Key(cfg, a.user), NEW_RECORD) == 0
  {
    hide Key;
    var u, units := Key(cfg, a.user), Spent(cfg, a, id).units;
    assert units[..0] == [];
    assert ToInt64(0) == 0 && ToInt64(100_000) == 100_000 && ToInt64(20_000) == 20_000;
    assert SumBetween(u, 0, 100_000, units) == 2 && SumBetween(u, 20_000, 100_000, units) == 0;
  }

  lemma SampleExhausted(cfg: Config, a: Event, b: Event, id: Bytes, email: string)
    requires Sample(cfg, a, b, id)
    ensures Serve(cfg, Early(a, b, email), Spent(cfg, a, id), Start(Verify(a.user)))
         == Served(Spent(cfg, a, id), Judged(Invalid(Exhausted, email)))
  {
    hide Serve, Key, PeriodSpending;
    ServeVerify(cfg, Early(a, b, email), Spent(cfg, a, id), a.user);
    SampleSums(cfg, a, id);
  }

  lemma SamplePays(cfg: Config, a: Event, b: Event, id: Bytes, email: string)
    requires Sample(cfg, a, b, id)
    ensures var renewed := Serve(cfg, Late(a, b, email), Spent(cfg, a, id), Start(Checkout(b)));
      && renewed.answer == Handled
      && Serve(cfg, Late(a, b, email), renewed.tables, Start(Verify(a.user))).answer == Judged(PayingCustomer(email))
  {
    hide Serve, Key, PeriodSpending;
    ServeCheckout(cfg, Late(a, b, email), Spent(cfg, a, id), b);
    RenewalIsJudgedAnew(cfg, Late(a, b, email), Spent(cfg, a, id), b);
    SampleSums(cfg, a, id);
  }

  /**
   Exhausted is not for ever: a run from empty tables in which a verification has answered exhausted, then the clock
   passes the end of the subscription, a second checkout replaces it, and the next verification answers payingCustomer.
   */
  lemma ExhaustedThenPaying(cfg: Config, a: Event, b: Event, id: Bytes, email: string)
    returns (before: seq<Move>, after: seq<Move>)
    requires Sample(cfg, a, b, id)
    ensures var mid, end := Run(cfg, Init(Early(a, b, email)), before), Run(cfg, Init(Early(a, b, email)), before + after);
      && mid.stripe == Early(a, b, email) && end.stripe == Late(a, b, email)
      && mid.procs == [
           Proc(Checkout(a), Finished(Handled)),
           Proc(AddUnits(SampleItems(a, id)), Finished(Added(1))),
           Proc(Verify(a.user), Finished(Judged(Invalid(Exhausted, email))))]
      && end.procs == mid.procs + [
           Proc(Checkout(b), Finished(Handled)),
           Proc(Verify(a.user), Finished(Judged(PayingCustomer(email))))]
  {
    hide *;
    var early, late := Early(a, b, email), Late(a, b, email);
    StartsEmpty(cfg, early);
    before := ServeNext(cfg, early, [], Checkout(a));
    SampleSubscribes(cfg, a, b, id, email);
    before := ServeNext(cfg, early, before, AddUnits(SampleItems(a, id)));
    SampleSpends(cfg, a, b, id, email);
    before := ServeNext(cfg, early, before, Verify(a.user));
    SampleExhausted(cfg, a, b, id, email);
    var all := DriftNext(cfg, early, before, late);
    all := ServeNext(cfg, early, all, Checkout(b));
    all := ServeNext(cfg, early, all, Verify(a.user));
    SamplePays(cfg, a, b, id, email);
    after := all[|before|..];
    assert before + after == all;
  }

  lemma StartsEmpty(cfg: Config, stripe: Stripe)
    ensures var s := Run(cfg, Init(stripe), []); s.tables == EMPTY && s.stripe == stripe && s.procs == []
  {
  }

  lemma DriftNext(cfg: Config, stripe: Stripe, script: seq<Move>, later: Stripe)
    returns (more: seq<Move>)
    ensures script <= more
    ensures Run(cfg, Init(stripe), more) == Run(cfg, Init(stripe), script).(stripe := later)
  {
    more := script + [Drift(later)];
    assert more[..|script|] == script;
  }
}
