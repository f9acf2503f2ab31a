/**
 What each request promises, said once more in the fields of its message, of Stripe's records and of the rows
 alone: served by itself with every call working, on any tables.
 */
module Promises {
  import opened Prelude
  import opened Identity
  import opened Gateway
  import opened Tables
  import opened Requests
  import opened Serving
  import opened Batch
  import opened Names

  // ----- checkouts

  /** The credit rows once the user is known to have one. */
  lemma EnsuredCredit(cfg: Config, t: Tables, u: Digest)
    ensures Ensured(cfg, t, u).credit == if u in t.credit then t.credit else t.credit[u := ToInt32(cfg.initialFreeCredit)]
    ensures Ensured(cfg, t, u).units == t.units && Ensured(cfg, t, u).invalid == t.invalid
    ensures Ensured(cfg, t, u).accounts
         == if u in t.credit || u in t.accounts then t.accounts else t.accounts[u := Account(None, None, None)]
  {
  }

  lemma StoredRow(t: Tables, u: Digest, event: Event)
    requires event.customerId != "" && event.subscriptionId != ""
    ensures Upserted(t, u, CheckoutRow(event))
         == t.(accounts := t.accounts[u := Account(Some(event.subscriptionId), Some("no_need"), Some(event.customerId))])
  {
  }

  /**
   The checkout webhook. An event without user, customer or subscription is refused. With no subscription on the account,
   or with one whose Stripe record is cancelled, the event's ids become the account. With one that Stripe does not know
   nothing changes. Otherwise the account stays as it is and the event is recorded as invalid.
   */
  lemma CheckoutOutcome(cfg: Config, stripe: Stripe, t: Tables, event: Event)
    ensures event.user == [] || event.customerId == "" || event.subscriptionId == "" ==>
      Serve(cfg, stripe, t, Start(Checkout(event))) == Served(t, Failed(BadEvent))
    ensures event.user != [] && event.customerId != "" && event.subscriptionId != "" ==>
      var u := Key(cfg, event.user);
      var current := if u in t.accounts && t.accounts[u].subscriptionId.Some? then t.accounts[u].subscriptionId.value else "";
      var stored := t.accounts[u := Account(Some(event.subscriptionId), Some("no_need"), Some(event.customerId))];
      var credit := if u in t.credit then t.credit else t.credit[u := ToInt32(cfg.initialFreeCredit)];
      var row := InvalidRow(u, Some(event.subscriptionId), Some("no_need"), Some(event.customerId));
      Serve(cfg, stripe, t, Start(Checkout(event)))
      == if current == "" then Served(Tables(stored, t.invalid, credit, t.units), Handled)
         else if current !in stripe.subscriptions then Served(t, Failed(GatewayError))
         else
           var rec := stripe.subscriptions[current];
           if rec.status == Canceled || (rec.cancelAt != 0 && rec.cancelAt < stripe.now)
           then Served(Tables(stored, t.invalid, credit, t.units), Handled)
           else Served(Tables(t.accounts, t.invalid + [row], credit, t.units), Handled)
  {
    if EventOk(event) {
      hide Serve, Key, Ensured, Upserted;
      var u := Key(cfg, event.user);
      ServeCheckout(cfg, stripe, t, event);
      StoredRow(t, u, event);
      EnsuredCredit(cfg, Upserted(t, u, CheckoutRow(event)), u);
      EnsuredCredit(cfg, t.(invalid := t.invalid + [InvalidRowOf(cfg, event)]), u);
    }
  }

  /** A known subscription is taken over by another checkout exactly when its record is cancelled, whatever other status
      it has; otherwise the checkout is on record as invalid. */
  lemma ReplacedIffCancelled(cfg: Config, stripe: Stripe, t: Tables, event: Event, current: string)
    requires event.user != [] && event.customerId != "" && event.subscriptionId != ""
    requires var u := Key(cfg, event.user); u in t.accounts && t.accounts[u].subscriptionId == Some(current)
    requires current != "" && current != event.subscriptionId && current in stripe.subscriptions
    ensures var u, rec := Key(cfg, event.user), stripe.subscriptions[current];
      var after := Serve(cfg, stripe, t, Start(Checkout(event))).tables;
      && u in after.accounts
      && (after.accounts[u].subscriptionId == Some(event.subscriptionId)
          <==> rec.status == Canceled || (rec.cancelAt != 0 && rec.cancelAt < stripe.now))
      && (after.invalid == t.invalid + [InvalidRow(u, Some(event.subscriptionId), Some("no_need"), Some(event.customerId))]
          <==> after.accounts[u].subscriptionId == Some(current))
  {
    hide Serve, Key;
    CheckoutOutcome(cfg, stripe, t, event);
  }

  // ----- verifications

  lemma RecordOutcome(cfg: Config, stripe: Stripe, t: Tables, u: Digest, rec: Subscription, email: string)
    ensures var answer := JudgedRecord(cfg, stripe, t, u, rec, email);
      var cancelled := rec.status == Canceled || (rec.cancelAt != 0 && rec.cancelAt < stripe.now);
      var planless := rec.planAmount == None || rec.planAmount == Some(0) || rec.quantity == 0;
      var unitless := cfg.unitsPerDollar == None || cfg.unitsPerDollar.value <= 0;
      && (cancelled ==> answer == Judged(Invalid(Cancelled, email)))
      && (!cancelled && rec.status != Active ==> answer == Judged(Invalid(Other, email)))
      && (!cancelled && rec.status == Active && planless ==> answer == Failed(BadPlan))
      && (!cancelled && rec.status == Active && !planless && unitless ==> answer == Failed(BadConfig))
      && (!cancelled && rec.status == Active && !planless && !unitless && rec.planAmount.value > 0 && rec.quantity > 0
          && IsInt64(rec.planAmount.value / 100 * rec.quantity * cfg.unitsPerDollar.value) ==>
          var spent := SumFor(u, Within(ToInt64(rec.periodStart * 1000), ToInt64(rec.periodEnd * 1000), t.units));
          answer == Judged(
            if spent > (rec.planAmount.value / 100) * (rec.quantity * cfg.unitsPerDollar.value) then Invalid(Exhausted, email)
            else PayingCustomer(email)))
  {
    hide SumBetween, Limit, SumFor, Within, Judge;
    SumBetweenIsWindow(u, ToInt64(rec.periodStart * 1000), ToInt64(rec.periodEnd * 1000), t.units);
    PlanOutcome(cfg, rec, PeriodSpending(t, u, rec), email);
  }

  lemma PlanOutcome(cfg: Config, rec: Subscription, spent: int, email: string)
    ensures var answer := Judge(cfg, rec, spent, email);
      var planless := rec.planAmount == None || rec.planAmount == Some(0) || rec.quantity == 0;
      var unitless := cfg.unitsPerDollar == None || cfg.unitsPerDollar.value <= 0;
      && (planless ==> answer == Failed(BadPlan))
      && (!planless && unitless ==> answer == Failed(BadConfig))
      && (!planless && !unitless && rec.planAmount.value > 0 && rec.quantity > 0
          && IsInt64(rec.planAmount.value / 100 * rec.quantity * cfg.unitsPerDollar.value) ==>
          answer == Judged(
            if spent > (rec.planAmount.value / 100) * (rec.quantity * cfg.unitsPerDollar.value) then Invalid(Exhausted, email)
            else PayingCustomer(email)))
  {
    hide Limit;
    if rec.planAmount.Some? && rec.planAmount.value > 0 && rec.quantity > 0 && cfg.unitsPerDollar.Some?
       && cfg.unitsPerDollar.value > 0 && IsInt64(rec.planAmount.value / 100 * rec.quantity * cfg.unitsPerDollar.value) {
      ExhaustedExactly(cfg, rec, spent, email);
    }
  }

  /**
   VerifySubscription. It creates the missing rows of the user and changes nothing else; free credit comes first, then
   the account, Stripe's record and customer, cancellation, status, configuration, and the spending of this user in the
   period, with the period's bounds in milliseconds, against whole dollars times quantity times units.
   */
  lemma VerifyOutcome(cfg: Config, stripe: Stripe, t: Tables, user: Bytes)
    ensures user == [] ==> Serve(cfg, stripe, t, Start(Verify(user))) == Served(t, Failed(BadRequest))
    ensures user != [] ==>
      var u := Key(cfg, user);
      var served := Serve(cfg, stripe, t, Start(Verify(user)));
      && served.tables.units == t.units && served.tables.invalid == t.invalid
      && served.tables.credit == (if u in t.credit then t.credit else t.credit[u := ToInt32(cfg.initialFreeCredit)])
      && served.tables.accounts
         == (if u in t.credit || u in t.accounts then t.accounts else t.accounts[u := Account(None, None, None)])
    ensures user != [] ==>
      var u := Key(cfg, user);
      var answer := Serve(cfg, stripe, t, Start(Verify(user))).answer;
      var credit := if u in t.credit then t.credit[u] else ToInt32(cfg.initialFreeCredit);
      var id := if u in t.accounts && t.accounts[u].subscriptionId.Some? then t.accounts[u].subscriptionId.value else "";
      var customer := if u in t.accounts && t.accounts[u].customerId.Some? then t.accounts[u].customerId.value else "";
      if credit > 0 then answer == Judged(FreeTier)
      else if id == "" then answer == Judged(Invalid(NoSubscription, ""))
      else if id !in stripe.subscriptions || customer !in stripe.customers then answer == Failed(GatewayError)
      else
        var rec, email := stripe.subscriptions[id], stripe.customers[customer];
        var cancelled := rec.status == Canceled || (rec.cancelAt != 0 && rec.cancelAt < stripe.now);
        var planless := rec.planAmount == None || rec.planAmount == Some(0) || rec.quantity == 0;
        var unitless := cfg.unitsPerDollar == None || cfg.unitsPerDollar.value <= 0;
        && (cancelled ==> answer == Judged(Invalid(Cancelled, email)))
        && (!cancelled && rec.status != Active ==> answer == Judged(Invalid(Other, email)))
        && (!cancelled && rec.status == Active && planless ==> answer == Failed(BadPlan))
        && (!cancelled && rec.status == Active && !planless && unitless ==> answer == Failed(BadConfig))
        && (!cancelled && rec.status == Active && !planless && !unitless && rec.planAmount.value > 0 && rec.quantity > 0
            && IsInt64(rec.planAmount.value / 100 * rec.quantity * cfg.unitsPerDollar.value) ==>
            var spent := SumFor(u, Within(ToInt64(rec.periodStart * 1000), ToInt64(rec.periodEnd * 1000), t.units));
            answer == Judged(
              if spent > (rec.planAmount.value / 100) * (rec.quantity * cfg.unitsPerDollar.value) then Invalid(Exhausted, email)
              else PayingCustomer(email)))
  {
    hide Serve, Key, JudgedRecord, Ensured, SumFor, Within;
    if user != [] {
      var u := Key(cfg, user);
      ServeVerify(cfg, stripe, t, user);
      EnsuredCredit(cfg, t, u);
      var id, customer := FromNull(AccountOf(t, u).subscriptionId), FromNull(AccountOf(t, u).customerId);
      if id in stripe.subscriptions && customer in stripe.customers {
        RecordOutcome(cfg, stripe, t, u, stripe.subscriptions[id], stripe.customers[customer]);
      }
    } else {
      TurnedAway(cfg, stripe, t, Verify(user));
    }
  }

  /** A first verification grants the configured credit, whatever it is. */
  lemma FirstGrant(cfg: Config, stripe: Stripe, user: Bytes)
    requires user != [] && IsInt32(cfg.initialFreeCredit)
    ensures Serve(cfg, stripe, EMPTY, Start(Verify(user))).tables.credit == map[Key(cfg, user) := cfg.initialFreeCredit]
  {
    hide Serve, Key;
    VerifyOutcome(cfg, stripe, EMPTY, user);
  }

  /** The verdict on a user depends on that user's rows only. */
  lemma OthersDoNotMatter(cfg: Config, stripe: Stripe, t: Tables, other: Tables, user: Bytes)
    requires user != []
    requires var u := Key(cfg, user);
      && (u in t.accounts <==> u in other.accounts) && (u in t.accounts ==> t.accounts[u] == other.accounts[u])
      && (u in t.credit <==> u in other.credit) && (u in t.credit ==> t.credit[u] == other.credit[u])
      && OwnRows(u, t.units) == OwnRows(u, other.units)
    ensures Serve(cfg, stripe, t, Start(Verify(user))).answer == Serve(cfg, stripe, other, Start(Verify(user))).answer
  {
    hide Serve, Key, JudgedRecord, Ensured, OwnRows;
    var u := Key(cfg, user);
    ServeVerify(cfg, stripe, t, user);
    ServeVerify(cfg, stripe, other, user);
    forall rec, email
      ensures JudgedRecord(cfg, stripe, t, u, rec, email) == JudgedRecord(cfg, stripe, other, u, rec, email)
    {
      SameOwnSpending(cfg, stripe, t, other, u, rec, email);
    }
  }

  lemma SameOwnSpending(cfg: Config, stripe: Stripe, t: Tables, other: Tables, u: Digest, rec: Subscription, email: string)
    requires OwnRows(u, t.units) == OwnRows(u, other.units)
    ensures JudgedRecord(cfg, stripe, t, u, rec, email) == JudgedRecord(cfg, stripe, other, u, rec, email)
  {
    hide SumBetween, OwnRows, Judge, IsCancelled;
    SumOfOwnRows(u, ToInt64(rec.periodStart * 1000), ToInt64(rec.periodEnd * 1000), t.units);
    SumOfOwnRows(u, ToInt64(rec.periodStart * 1000), ToInt64(rec.periodEnd * 1000), other.units);
  }

  // ----- spending

  /** A batch is refused exactly when it is empty or has an item without event id, user id, positive amount or time. */
  lemma RefusedIff(cfg: Config, stripe: Stripe, t: Tables, items: seq<RpcItem>)
    requires WellFormed(t)
    ensures var served := Serve(cfg, stripe, t, Start(AddUnits(items)));
      && (served.answer == Failed(BadRequest)
          <==> items == [] || exists it :: it in items && (it.externalId == [] || it.userId == [] || it.amount <= 0 || it.createdAt == 0))
      && (served.answer == Failed(BadRequest) ==> served.tables == t)
      && (served.answer != Failed(BadRequest) ==> served.answer == Added(|served.tables.units| - |t.units|))
  {
    hide Serve, PostedAll;
    ServeAddUnits(cfg, stripe, t, items);
    if it :| it in items && (it.externalId == [] || it.userId == [] || it.amount <= 0 || it.createdAt == 0) {
      var i :| 0 <= i < |items| && items[i] == it;
      assert !AcceptedRpc(items[i]);
    }
  }

  /** Item i brings an event id that neither the table nor an earlier item of the batch has. */
  predicate FirstSeen(cfg: Config, units: seq<UnitRow>, items: seq<RpcItem>, i: nat)
    requires i < |items|
  {
    && (forall r :: r in units ==> r.externalId != Key(cfg, items[i].externalId))
    && forall j :: 0 <= j < i ==> Key(cfg, items[j].externalId) != Key(cfg, items[i].externalId)
  }

  /** What the new ones among the first n items cost the user u. */
  function ChargeFor(cfg: Config, units: seq<UnitRow>, items: seq<RpcItem>, u: Digest, n: nat): int
    requires n <= |items|
  {
    if n == 0 then 0
    else
      ChargeFor(cfg, units, items, u, n - 1)
      + if FirstSeen(cfg, units, items, n - 1) && Key(cfg, items[n - 1].userId) == u then items[n - 1].amount else 0
  }

  lemma NewIffFirst(cfg: Config, units: seq<UnitRow>, items: seq<RpcItem>, i: nat)
    requires i < |items|
    ensures IsNew(cfg, units, Converted(items), i) <==> FirstSeen(cfg, units, items, i)
  {
    hide Key;
    var converted := Converted(items);
    assert forall j :: 0 <= j <= i ==> converted[j].externalId == items[j].externalId;
    if IsNew(cfg, units, converted, i) {
      forall j | 0 <= j < i
        ensures Key(cfg, items[j].externalId) != Key(cfg, items[i].externalId)
      {
        assert Key(cfg, converted[j].externalId) != Key(cfg, converted[i].externalId);
      }
    }
  }

  lemma ConvertedRow(cfg: Config, items: seq<RpcItem>, i: nat)
    requires i < |items|
    ensures UnitRowOf(cfg, Converted(items)[i])
         == UnitRow(Key(cfg, items[i].externalId), Key(cfg, items[i].userId), items[i].amount, items[i].createdAt)
  {
    hide Key;
  }

  /** r is the row of one of the first n items, in terms of the message, and that item is new. */
  ghost predicate RowOfNew(cfg: Config, units: seq<UnitRow>, items: seq<RpcItem>, n: nat, r: UnitRow)
    requires n <= |items|
  {
    exists i :: 0 <= i < n && FirstSeen(cfg, units, items, i) && r == UnitRowOf(cfg, Converted(items)[i])
  }

  /** The rows of a batch are those of its new items. */
  lemma {:induction false} BatchRows(cfg: Config, units: seq<UnitRow>, items: seq<RpcItem>, n: nat)
    requires n <= |items|
    ensures forall r :: r in NewRows(cfg, units, Converted(items), n) <==> RowOfNew(cfg, units, items, n, r)
  {
    if n > 0 {
      hide Key, IsNew, FirstSeen, UnitRowOf, Converted;
      BatchRows(cfg, units, items, n - 1);
      NewIffFirst(cfg, units, items, n - 1);
      forall r
        ensures RowOfNew(cfg, units, items, n, r) <==>
          (RowOfNew(cfg, units, items, n - 1, r)
          || (FirstSeen(cfg, units, items, n - 1) && r == UnitRowOf(cfg, Converted(items)[n - 1])))
      {
      }
    }
  }

  lemma {:induction false} BatchCharge(cfg: Config, units: seq<UnitRow>, items: seq<RpcItem>, u: Digest, n: nat)
    requires n <= |items|
    ensures SumFor(u, NewRows(cfg, units, Converted(items), n)) == ChargeFor(cfg, units, items, u, n)
  {
    hide *;
    if n == 0 {
      NothingCharged(cfg, units, items, u);
    } else {
      BatchCharge(cfg, units, items, u, n - 1);
      NewIffFirst(cfg, units, items, n - 1);
      ConvertedRow(cfg, items, n - 1);
      NewRowsStep(cfg, units, Converted(items), n - 1);
      SumForSnoc(u, NewRows(cfg, units, Converted(items), n - 1), UnitRowOf(cfg, Converted(items)[n - 1]));
      ChargeStep(cfg, units, items, u, n - 1);
    }
  }

  lemma NothingCharged(cfg: Config, units: seq<UnitRow>, items: seq<RpcItem>, u: Digest)
    ensures SumFor(u, NewRows(cfg, units, Converted(items), 0)) == ChargeFor(cfg, units, items, u, 0)
  {
    assert NewRows(cfg, units, Converted(items), 0) == [];
  }

  lemma ChargeStep(cfg: Config, units: seq<UnitRow>, items: seq<RpcItem>, u: Digest, n: nat)
    requires n < |items|
    ensures ChargeFor(cfg, units, items, u, n + 1)
         == ChargeFor(cfg, units, items, u, n)
          + if FirstSeen(cfg, units, items, n) && Key(cfg, items[n].userId) == u then items[n].amount else 0
  {
  }

  /** Some item of the batch is about the user u. */
  ghost predicate Mentioned(cfg: Config, items: seq<RpcItem>, u: Digest) {
    exists i :: 0 <= i < |items| && Key(cfg, items[i].userId) == u
  }

  lemma ConvertedUsers(cfg: Config, items: seq<RpcItem>, u: Digest)
    ensures u in Users(cfg, Converted(items)) <==> Mentioned(cfg, items, u)
  {
    var units := Converted(items);
    if u in Users(cfg, units) {
      var it :| it in units && Key(cfg, it.userId) == u;
      var i :| 0 <= i < |units| && units[i] == it;
      assert Key(cfg, items[i].userId) == u;
    }
    if i :| 0 <= i < |items| && Key(cfg, items[i].userId) == u {
      assert units[i] in units;
    }
  }

  /**
   The AddSpendingUnits RPC on an accepted batch: every item whose event id is new gets a row with its own event id, user,
   amount and time; there are no other new rows and the old ones stay; and every user is charged the sum of that user's
   own new items, which never takes a credit below zero and leaves it alone when there is nothing to charge.
   */
  lemma AddUnitsOutcome(cfg: Config, stripe: Stripe, t: Tables, items: seq<RpcItem>)
    requires WellFormed(t) && items != []
    requires forall it :: it in items ==> it.externalId != [] && it.userId != [] && it.amount > 0 && it.createdAt != 0
    ensures var served := Serve(cfg, stripe, t, Start(AddUnits(items)));
      var end := served.tables;
      && served.answer == Added(|end.units| - |t.units|)
      && t.units <= end.units && end.invalid == t.invalid
      && (forall i :: 0 <= i < |items| && FirstSeen(cfg, t.units, items, i) ==>
          UnitRow(Key(cfg, items[i].externalId), Key(cfg, items[i].userId), items[i].amount, items[i].createdAt) in end.units[|t.units|..])
      && (forall r :: r in end.units[|t.units|..] ==>
          exists i :: 0 <= i < |items| && FirstSeen(cfg, t.units, items, i) &&
            r == UnitRow(Key(cfg, items[i].externalId), Key(cfg, items[i].userId), items[i].amount, items[i].createdAt))
    ensures var end := Serve(cfg, stripe, t, Start(AddUnits(items))).tables;
      forall u ::
        && (u in end.credit <==> u in t.credit || Mentioned(cfg, items, u))
        && (u in end.accounts <==> u in t.accounts || Mentioned(cfg, items, u))
        && (u in end.accounts ==> end.accounts[u] == if u in t.accounts then t.accounts[u] else Account(None, None, None))
        && (u in end.credit ==>
            var before := if u in t.credit then t.credit[u] else ToInt32(cfg.initialFreeCredit);
            var charge := ChargeFor(cfg, t.units, items, u, |items|);
            end.credit[u] == if charge == 0 then before else if before > charge then before - charge else 0)
  {
    hide *;
    AcceptedBatch(items);
    ServeAddUnits(cfg, stripe, t, items);
    PostedAllIsClean(cfg, t, Converted(items));
    CleanRows(cfg, t, items, PostedAll(cfg, t, Converted(items)));
    forall u {
      CleanUser(cfg, t, items, PostedAll(cfg, t, Converted(items)), u);
    }
  }

  lemma CleanRows(cfg: Config, t: Tables, items: seq<RpcItem>, end: Tables)
    requires CleanRun(cfg, t, Converted(items), end)
    ensures t.units <= end.units && end.invalid == t.invalid
    ensures forall i :: 0 <= i < |items| && FirstSeen(cfg, t.units, items, i) ==>
      UnitRow(Key(cfg, items[i].externalId), Key(cfg, items[i].userId), items[i].amount, items[i].createdAt) in end.units[|t.units|..]
    ensures forall r :: r in end.units[|t.units|..] ==>
      exists i :: 0 <= i < |items| && FirstSeen(cfg, t.units, items, i) &&
        r == UnitRow(Key(cfg, items[i].externalId), Key(cfg, items[i].userId), items[i].amount, items[i].createdAt)
  {
    hide NewRows, SumFor, FirstSeen, Key, Users, Converted;
    MessageRows(cfg, t.units, items);
    assert end.units[|t.units|..] == NewRows(cfg, t.units, Converted(items), |items|);
  }

  lemma CleanUser(cfg: Config, t: Tables, items: seq<RpcItem>, end: Tables, u: Digest)
    requires CleanRun(cfg, t, Converted(items), end)
    ensures u in end.credit <==> u in t.credit || Mentioned(cfg, items, u)
    ensures u in end.accounts <==> u in t.accounts || Mentioned(cfg, items, u)
    ensures u in end.accounts ==> end.accounts[u] == if u in t.accounts then t.accounts[u] else Account(None, None, None)
    ensures u in end.credit ==>
      var before := if u in t.credit then t.credit[u] else ToInt32(cfg.initialFreeCredit);
      var charge := ChargeFor(cfg, t.units, items, u, |items|);
      end.credit[u] == if charge == 0 then before else if before > charge then before - charge else 0
  {
    hide NewRows, SumFor, FirstSeen, Key, Users, Converted, ChargeFor, ToInt32, Mentioned;
    BatchCharge(cfg, t.units, items, u, |items|);
    ConvertedUsers(cfg, items, u);
  }

  /** The rows of a whole batch, in terms of its message. */
  lemma MessageRows(cfg: Config, units: seq<UnitRow>, items: seq<RpcItem>)
    ensures var rows := NewRows(cfg, units, Converted(items), |items|);
      && (forall i :: 0 <= i < |items| && FirstSeen(cfg, units, items, i) ==>
          UnitRow(Key(cfg, items[i].externalId), Key(cfg, items[i].userId), items[i].amount, items[i].createdAt) in rows)
      && (forall r :: r in rows ==>
          exists i :: 0 <= i < |items| && FirstSeen(cfg, units, items, i) &&
            r == UnitRow(Key(cfg, items[i].externalId), Key(cfg, items[i].userId), items[i].amount, items[i].createdAt))
  {
    hide Key, NewRows, FirstSeen, UnitRowOf, Converted;
    BatchRows(cfg, units, items, |items|);
    forall i | 0 <= i < |items|
      ensures UnitRowOf(cfg, Converted(items)[i])
           == UnitRow(Key(cfg, items[i].externalId), Key(cfg, items[i].userId), items[i].amount, items[i].createdAt)
    {
      ConvertedRow(cfg, items, i);
    }
    forall i | 0 <= i < |items| && FirstSeen(cfg, units, items, i)
      ensures UnitRowOf(cfg, Converted(items)[i]) in NewRows(cfg, units, Converted(items), |items|)
    {
      assert RowOfNew(cfg, units, items, |items|, UnitRowOf(cfg, Converted(items)[i]));
    }
    forall r | r in NewRows(cfg, units, Converted(items), |items|)
      ensures exists i :: 0 <= i < |items| && FirstSeen(cfg, units, items, i) && r == UnitRowOf(cfg, Converted(items)[i])
    {
      assert RowOfNew(cfg, units, items, |items|, r);
    }
  }

  lemma AcceptedBatch(items: seq<RpcItem>)
    requires items != []
    requires forall it :: it in items ==> it.externalId != [] && it.userId != [] && it.amount > 0 && it.createdAt != 0
    ensures BatchAccepted(items)
  {
    forall i | 0 <= i < |items|
      ensures AcceptedRpc(items[i])
    {
      assert items[i] in items;
    }
  }
}
