/** The two operations that combine the ledger with Stripe, and the RPC in front of the ledger. */
module Service {
  import opened Prelude
  import opened Identity
  import opened Gateway
  import opened Tables
  import opened Requests
  import opened Connections
  import opened Ledger
  import opened Serving
  import Reports

  method HandleCheckoutSessionCompleted(b: Backend, cfg: Config, event: Event) returns (r: Outcome<()>)
    modifies b
    ensures old(b.Rest(cfg, Start(Checkout(event))))
         == Ran(b.Snapshot(), b.tick, match r case Ok(_) => Handled case Err(e) => Failed(e))
    ensures old(b.Calm()) && EventOk(event) ==> b.Snapshot() == CheckedOut(cfg, b.stripe, old(b.Snapshot()), event)
  {
    hide RunAlone, Key, IsCancelled, CheckedOut, Serve;
    if b.Calm() && EventOk(event) {
      ServeCheckout(cfg, b.stripe, b.Snapshot(), event);
      RunsAsServed(cfg, b.stripe, b.faults, b.Snapshot(), b.tick, Start(Checkout(event)),
        Serve(cfg, b.stripe, b.Snapshot(), Start(Checkout(event))));
    }
    b.Ended(cfg, Failed(BadEvent));
    if event.user == [] {
      return Err(BadEvent);
    }
    if event.customerId == "" {
      return Err(BadEvent);
    }
    if event.subscriptionId == "" {
      return Err(BadEvent);
    }
    var found := CheckUserAccount(b, cfg, event.user);
    ghost var reply := Attempt(b.faults(old(b.tick)), old(b.Snapshot()), SelectSubscription(Key(cfg, event.user))).1;
    b.Turned(cfg, old(b.Snapshot()), old(b.tick), CheckAccount(event), reply);
    if found.Err? {
      b.Ended(cfg, Failed(DatabaseError));
      return Err(found.error);
    }
    var (accountExists, existingSubId) := found.value;
    if !accountExists || existingSubId == "" {
      r := StoreCheckout(b, cfg, event, None);
    } else {
      label Found:
      var record := b.GetSubscription(existingSubId);
      b.Turned(cfg, old@Found(b.Snapshot()), old@Found(b.tick), FetchPrevious(event, existingSubId), record);
      if !record.SubscriptionRecord? {
        b.Ended(cfg, Failed(GatewayError));
        return Err(GatewayError);
      }
      if IsCancelled(record.subscription, b.stripe.now) {
        r := StoreCheckout(b, cfg, event, Some(existingSubId));
      } else {
        r := InsertInvalidSubscription(b, cfg, event);
      }
    }
    if r.Ok? {
      var credit := GetFreeCredit(b, cfg, event.user, ThenFinish);
      b.Ended(cfg, Handled);
      r := if credit.Ok? then Ok(()) else Err(credit.error);
    }
  }

  /** The upsert shared by the three branches that store the new subscription. */
  method StoreCheckout(b: Backend, cfg: Config, event: Event, ghost seen: NullString) returns (r: Outcome<()>)
    modifies b
    ensures old(b.Rest(cfg, Store(event, seen)))
         == match r
            case Ok(_) => b.Rest(cfg, EnsureCredit(event.user, ThenFinish))
            case Err(e) => Ran(b.Snapshot(), b.tick, Failed(e))
  {
    hide RunAlone, Key;
    r := UpsertUserAccount(b, cfg, event.user, event.subscriptionId, PLAN_PLACEHOLDER, event.customerId);
    b.Turned(cfg, old(b.Snapshot()), old(b.tick), Store(event, seen), if r.Ok? then Acked else Failure);
    b.Ended(cfg, Failed(DatabaseError));
  }

  method VerifySubscription(b: Backend, cfg: Config, user: Bytes) returns (r: Outcome<Verdict>)
    modifies b
    ensures old(b.Rest(cfg, EnsureCredit(user, ThenVerdict)))
         == Ran(b.Snapshot(), b.tick, match r case Ok(v) => Judged(v) case Err(e) => Failed(e))
    ensures old(b.Calm()) && user != [] ==>
      && b.Snapshot() == Ensured(cfg, old(b.Snapshot()), Key(cfg, user))
      && old(Judgement(cfg, b.stripe, b.Snapshot(), Key(cfg, user))) == (match r case Ok(v) => Judged(v) case Err(e) => Failed(e))
  {
    hide RunAlone, Key, Judge, Serve, Judgement, Ensured;
    if b.Calm() && user != [] {
      ServeVerify(cfg, b.stripe, b.Snapshot(), user);
      RunsAsServed(cfg, b.stripe, b.faults, b.Snapshot(), b.tick, Start(Verify(user)),
        Serve(cfg, b.stripe, b.Snapshot(), Start(Verify(user))));
    }
    var credit := GetFreeCredit(b, cfg, user, ThenVerdict);
    if credit.Err? {
      return Err(credit.error);
    }
    if credit.value > 0 {
      b.Ended(cfg, Judged(FreeTier));
      return Ok(FreeTier);
    }
    r := VerifyAccount(b, cfg, user);
  }

  /** The verification of a user without free credit: find the account and its subscription, and judge it. */
  method VerifyAccount(b: Backend, cfg: Config, user: Bytes) returns (r: Outcome<Verdict>)
    modifies b`tick
    ensures old(b.Rest(cfg, ReadAccount(user)))
         == Ran(b.Snapshot(), b.tick, match r case Ok(v) => Judged(v) case Err(e) => Failed(e))
  {
    hide RunAlone, Key;
    ghost var reply := Attempt(b.faults(b.tick), b.Snapshot(), SelectAccount(Key(cfg, user))).1;
    var account := GetUserAccount(b, cfg, user);
    b.Turned(cfg, old(b.Snapshot()), old(b.tick), ReadAccount(user), reply);
    if account.Err? {
      b.Ended(cfg, Failed(DatabaseError));
      return Err(account.error);
    }
    var ua := account.value;
    b.Ended(cfg, Judged(Invalid(NoSubscription, "")));
    if ua.userExternalId == ACCOUNT_WITHOUT_SUBSCRIPTION {
      return Ok(Invalid(NoSubscription, ""));
    }
    if ua.subscriptionId == "" {
      return Ok(Invalid(NoSubscription, ""));
    }
    ghost var row := reply.account;
    label Subscribed:
    var retrieved := b.GetSubscription(ua.subscriptionId);
    b.Turned(cfg, old@Subscribed(b.Snapshot()), old@Subscribed(b.tick), FetchCurrent(user, row), retrieved);
    if !retrieved.SubscriptionRecord? {
      b.Ended(cfg, Failed(GatewayError));
      return Err(GatewayError);
    }
    r := JudgeSubscription(b, cfg, user, ua.customerId, retrieved.subscription, row);
  }

  /** The second half of the verification: customer, cancellation, status, and spending against the allowance. */
  method JudgeSubscription(b: Backend, cfg: Config, user: Bytes, customerId: string, sub: Subscription, ghost row: Account)
    returns (r: Outcome<Verdict>)
    requires customerId == FromNull(row.customerId)
    modifies b`tick
    ensures old(b.Rest(cfg, FetchCustomer(user, row, sub)))
         == Ran(b.Snapshot(), b.tick, match r case Ok(v) => Judged(v) case Err(e) => Failed(e))
  {
    hide RunAlone, Key, IsCancelled;
    var customer := b.GetCustomer(customerId);
    b.Turned(cfg, old(b.Snapshot()), old(b.tick), FetchCustomer(user, row, sub), customer);
    if !customer.CustomerRecord? {
      b.Ended(cfg, Failed(GatewayError));
      return Err(GatewayError);
    }
    var email := customer.email;
    if IsCancelled(sub, b.stripe.now) {
      b.Ended(cfg, Judged(Invalid(Cancelled, email)));
      return Ok(Invalid(Cancelled, email));
    }
    if sub.status != Active {
      b.Ended(cfg, Judged(Invalid(Other, email)));
      return Ok(Invalid(Other, email));
    }
    label Billable:
    var count := CountUnitsBetween(b, cfg, user, ToInt64(sub.periodStart * 1000), ToInt64(sub.periodEnd * 1000));
    b.Turned(cfg, old@Billable(b.Snapshot()), old@Billable(b.tick), CountSpending(user, sub, email), if count.Ok? then Number(count.value) else Failure);
    if count.Err? {
      b.Ended(cfg, Failed(DatabaseError));
      return Err(count.error);
    }
    b.Ended(cfg, Judge(cfg, sub, count.value, email));
    if sub.planAmount.None? {
      return Err(BadPlan);
    }
    if sub.planAmount.value == 0 {
      return Err(BadPlan);
    }
    if sub.quantity == 0 {
      return Err(BadPlan);
    }
    if cfg.unitsPerDollar.None? || cfg.unitsPerDollar.value <= 0 {
      return Err(BadConfig);
    }
    var dollars := TruncDiv(sub.planAmount.value, 100);
    if count.value > ToInt64(ToInt64(dollars * sub.quantity) * cfg.unitsPerDollar.value) {
      return Ok(Invalid(Exhausted, email));
    }
    r := Ok(PayingCustomer(email));
  }

  /** The RPC: validate and convert every item, hand the batch to the ledger, and reply with an int32. */
  method AddSpendingUnitsRpc(b: Backend, cfg: Config, items: seq<RpcItem>) returns (r: Outcome<Int32>)
    modifies b
    ensures var ran := old(b.Rest(cfg, Start(AddUnits(items))));
      && b.Snapshot() == ran.tables && b.tick == ran.tick
      && (r.Ok? <==> ran.answer.Added?)
      && (r.Err? ==> ran.answer == Failed(r.error))
      && (r.Ok? && |items| < TWO_31 ==> r.value == ran.answer.total)
  {
    if items == [] {
      return Err(BadRequest);
    }
    var units: seq<SpendingUnit> := [];
    for i := 0 to |items|
      invariant units == Converted(items)[..i]
      invariant forall j :: 0 <= j < i ==> AcceptedRpc(items[j])
      invariant b.Snapshot() == old(b.Snapshot()) && b.tick == old(b.tick)
    {
      var it := items[i];
      if it.externalId == [] || it.userId == [] {
        assert it in items && !AcceptedRpc(it);
        return Err(BadRequest);
      }
      if it.amount <= 0 {
        assert it in items && !AcceptedRpc(it);
        return Err(BadRequest);
      }
      if it.createdAt == 0 {
        assert it in items && !AcceptedRpc(it);
        return Err(BadRequest);
      }
      units := units + [SpendingUnit(it.externalId, it.userId, it.amount, it.createdAt)];
    }
    assert units == Converted(items);
    Reports.AddedAtMost(cfg, b.stripe, b.faults, b.Snapshot(), b.tick, NextItem(units, {}, 0));
    var added := AddSpendingUnits(b, cfg, units);
    r := if added.Ok? then Ok(ToInt32(added.value)) else Err(added.error);
  }
}
