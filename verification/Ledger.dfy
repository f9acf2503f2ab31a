/** The database functions of the service: each method is proved to be the small-step program it names. */
module Ledger {
  import opened Prelude
  import opened Identity
  import opened Tables
  import opened Requests
  import opened Connections
  import opened Batch

  datatype Outcome<+T> = Ok(value: T) | Err(error: Error)

  /** UserAccount, with NULL read as the empty string. */
  datatype UserAccount = UserAccount(userExternalId: string, subscriptionId: string, planId: string, customerId: string)

  method UpsertUserAccount(b: Backend, cfg: Config, user: Bytes, subscriptionId: string, planId: string, customerId: string)
    returns (r: Outcome<()>)
    modifies b
    ensures var (t, reply) := Attempt(b.faults(old(b.tick)), old(b.Snapshot()),
        UpsertAccount(Key(cfg, user), ToNull(subscriptionId), ToNull(planId), ToNull(customerId)));
      b.Snapshot() == t && r == if reply.Acked? then Ok(()) else Err(DatabaseError)
    ensures b.tick == old(b.tick) + 1
  {
    var hashed := HashExternalID(cfg, user);
    var reply := b.UpsertUserAccount(hashed, ToNull(subscriptionId), ToNull(planId), ToNull(customerId));
    r := if reply.Acked? then Ok(()) else Err(DatabaseError);
  }

  /**
   Returns the user's credit, creating the row, and on a foreign-key violation the account, on demand.
   goal is what the caller does next.
   */
  method GetFreeCredit(b: Backend, cfg: Config, user: Bytes, ghost goal: Goal) returns (r: Outcome<int>)
    modifies b
    ensures r.Ok? ==> Key(cfg, user) in b.credit && r.value == b.credit[Key(cfg, user)]
    ensures old(b.Rest(cfg, EnsureCredit(user, goal)))
         == match r
            case Ok(c) => b.Rest(cfg, ReturnCredit(user, goal, c))
            case Err(e) => Ran(b.Snapshot(), b.tick, Failed(e))
  {
    hide RunAlone, ReturnCredit, Key;
    var hashed := HashExternalID(cfg, user);
    var reply := b.UpsertAndGetFreeCredit(hashed, ToInt32(cfg.initialFreeCredit));
    b.Turned(cfg, old(b.Snapshot()), old(b.tick), EnsureCredit(user, goal), reply);
    if reply.FkViolation? {
      label Missing:
      var ensured := UpsertUserAccount(b, cfg, user, "", "", "");
      b.Turned(cfg, old@Missing(b.Snapshot()), old@Missing(b.tick), EnsureAccount(user, goal), if ensured.Ok? then Acked else Failure);
      if ensured.Err? {
        b.Ended(cfg, Failed(DatabaseError));
        return Err(DatabaseError);
      }
      label Created:
      reply := b.UpsertAndGetFreeCredit(hashed, ToInt32(cfg.initialFreeCredit));
      b.Turned(cfg, old@Created(b.Snapshot()), old@Created(b.tick), EnsureCreditAgain(user, goal), reply);
    }
    b.Ended(cfg, Failed(DatabaseError));
    r := if reply.Number? then Ok(reply.n) else Err(DatabaseError);
  }

  /** Inserts the items one by one, skipping ids that are there, and charges each row that was really inserted. */
  method AddSpendingUnits(b: Backend, cfg: Config, items: seq<SpendingUnit>) returns (r: Outcome<int>)
    modifies b
    ensures old(b.Rest(cfg, NextItem(items, {}, 0)))
         == Ran(b.Snapshot(), b.tick, match r case Ok(n) => Added(n) case Err(e) => Failed(e))
    ensures old(b.Calm() && WellFormed(b.Snapshot())) && ItemsOk(items) ==>
      b.Snapshot() == PostedAll(cfg, old(b.Snapshot()), items) && r == Ok(|b.units| - |old(b.units)|)
  {
    hide RunAlone, ReturnCredit, Key, PostedAll, WellFormed;
    if b.Calm() && WellFormed(b.Snapshot()) && ItemsOk(items) {
      RunBatch(cfg, b.stripe, b.faults, b.Snapshot(), b.tick, items);
    }
    var ensured: set<Bytes> := {};
    var total := 0;
    assert items[0..] == items;
    for i := 0 to |items|
      invariant old(b.Rest(cfg, NextItem(items, {}, 0))) == b.Rest(cfg, NextItem(items[i..], ensured, total))
    {
      var it := items[i];
      ghost var loop := Loop(it, items[i + 1..], ensured, total);
      assert items[i..][0] == it && items[i..][1..] == items[i + 1..];
      b.Ended(cfg, Failed(BadItem));
      if it.externalId == [] || it.userId == [] {
        return Err(BadItem);
      }
      if it.amount <= 0 {
        return Err(BadItem);
      }
      if it.createdAt == 0 {
        return Err(BadItem);
      }
      if it.userId !in ensured {
        assert NextItem(items[i..], ensured, total) == EnsureCredit(it.userId, ThenInsert(loop));
        var credit := GetFreeCredit(b, cfg, it.userId, ThenInsert(loop));
        if credit.Err? {
          return Err(credit.error);
        }
        ensured := ensured + {it.userId};
        ReturnsToInsert(it.userId, loop, credit.value);
        loop := loop.(ensured := ensured);
      }
      assert old(b.Rest(cfg, NextItem(items, {}, 0))) == b.Rest(cfg, Insert(loop));
      var inserted := InsertAndCharge(b, cfg, it, loop);
      if inserted.Err? {
        return Err(inserted.error);
      }
      total := total + inserted.value;
    }
    b.Ended(cfg, Added(total));
    r := Ok(total);
  }

  lemma ReturnsToInsert(user: Bytes, loop: Loop, credit: int)
    ensures ReturnCredit(user, ThenInsert(loop), credit) == Insert(loop.(ensured := loop.ensured + {user}))
  {
  }

  /** The rest of one turn of the loop: insert the row and, if it is new, consume free credit. */
  method InsertAndCharge(b: Backend, cfg: Config, it: SpendingUnit, ghost loop: Loop) returns (r: Outcome<int>)
    requires loop.item == it
    modifies b
    ensures old(b.Rest(cfg, Insert(loop)))
         == match r
            case Ok(n) => b.Rest(cfg, NextItem(loop.rest, loop.ensured, loop.total + n))
            case Err(e) => Ran(b.Snapshot(), b.tick, Failed(e))
  {
    hide RunAlone, NextItem, HasUnit, Key, Spend;
    var hashedExternalId := HashExternalID(cfg, it.externalId);
    var hashedUserId := HashExternalID(cfg, it.userId);
    var reply := b.InsertSpendingUnit(UnitRow(hashedExternalId, hashedUserId, ToInt32(it.amount), it.createdAt));
    b.Turned(cfg, old(b.Snapshot()), old(b.tick), Insert(loop), reply);
    if !reply.Number? {
      b.Ended(cfg, Failed(DatabaseError));
      return Err(DatabaseError);
    }
    var n := reply.n;
    if n > 0 {
      label Inserted:
      reply := b.ConsumeFreeCredit(hashedUserId, ToInt32(it.amount));
      b.Turned(cfg, old@Inserted(b.Snapshot()), old@Inserted(b.tick), Charge(loop.(total := loop.total + n)), reply);
      if !reply.Acked? {
        b.Ended(cfg, Failed(DatabaseError));
        return Err(DatabaseError);
      }
    }
    r := Ok(n);
  }

  /** Whether the account exists, and its subscription id, empty when there is none. */
  method CheckUserAccount(b: Backend, cfg: Config, user: Bytes) returns (r: Outcome<(bool, string)>)
    modifies b`tick
    ensures b.tick == old(b.tick) + 1
    ensures var u := Key(cfg, user);
      r == if !b.faults(old(b.tick)).Works? then Err(DatabaseError)
           else if u !in b.accounts then Ok((false, ""))
           else Ok((true, FromNull(b.accounts[u].subscriptionId)))
  {
    var hashed := HashExternalID(cfg, user);
    var reply := b.GetSubscriptionIDByUserExternalID(hashed);
    match reply
    case NoRows => r := Ok((false, ""));
    case SubscriptionCell(cell) => r := if cell.Some? then Ok((true, cell.value)) else Ok((true, ""));
    case _ => r := Err(DatabaseError);
  }

  method GetUserAccount(b: Backend, cfg: Config, user: Bytes) returns (r: Outcome<UserAccount>)
    modifies b`tick
    ensures b.tick == old(b.tick) + 1
    ensures var u := Key(cfg, user);
      r == if !b.faults(old(b.tick)).Works? then Err(DatabaseError)
           else if u !in b.accounts then Ok(UserAccount(ACCOUNT_WITHOUT_SUBSCRIPTION, "", "", ""))
           else Ok(UserAccount(u, FromNull(b.accounts[u].subscriptionId), FromNull(b.accounts[u].planId), FromNull(b.accounts[u].customerId)))
  {
    var hashed := HashExternalID(cfg, user);
    var reply := b.GetUserAccount(hashed);
    match reply
    case NoRows => r := Ok(UserAccount(ACCOUNT_WITHOUT_SUBSCRIPTION, "", "", ""));
    case AccountRow(key, row) =>
      var account := UserAccount(key, "", "", "");
      if row.subscriptionId.Some? {
        account := account.(subscriptionId := row.subscriptionId.value);
      }
      if row.planId.Some? {
        account := account.(planId := row.planId.value);
      }
      if row.customerId.Some? {
        account := account.(customerId := row.customerId.value);
      }
      r := Ok(account);
    case _ => r := Err(DatabaseError);
  }

  /** Records a checkout beside a live subscription, creating the account after a foreign-key violation. */
  method InsertInvalidSubscription(b: Backend, cfg: Config, event: Event) returns (r: Outcome<()>)
    modifies b
    ensures old(b.Rest(cfg, RecordInvalid(event)))
         == match r
            case Ok(_) => b.Rest(cfg, EnsureCredit(event.user, ThenFinish))
            case Err(e) => Ran(b.Snapshot(), b.tick, Failed(e))
  {
    hide RunAlone, Key;
    var hashed := HashExternalID(cfg, event.user);
    var row := InvalidRow(hashed, ToNull(event.subscriptionId), ToNull(PLAN_PLACEHOLDER), ToNull(event.customerId));
    var reply := b.InsertInvalidSubscription(row);
    b.Turned(cfg, old(b.Snapshot()), old(b.tick), RecordInvalid(event), reply);
    if reply.FkViolation? {
      label Missing:
      var ensured := UpsertUserAccount(b, cfg, event.user, "", "", "");
      b.Turned(cfg, old@Missing(b.Snapshot()), old@Missing(b.tick), RecordInvalidAccount(event), if ensured.Ok? then Acked else Failure);
      if ensured.Err? {
        b.Ended(cfg, Failed(DatabaseError));
        return Err(DatabaseError);
      }
      label Created:
      reply := b.InsertInvalidSubscription(row);
      b.Turned(cfg, old@Created(b.Snapshot()), old@Created(b.tick), RecordInvalidAgain(event), reply);
    }
    b.Ended(cfg, Failed(DatabaseError));
    r := if reply.Acked? then Ok(()) else Err(DatabaseError);
  }

  method CountUnitsBetween(b: Backend, cfg: Config, user: Bytes, from: int, to: int) returns (r: Outcome<int>)
    modifies b`tick
    ensures b.tick == old(b.tick) + 1
    ensures r == if b.faults(old(b.tick)).Works? then Ok(SumBetween(Key(cfg, user), from, to, b.units)) else Err(DatabaseError)
  {
    var hashed := HashExternalID(cfg, user);
    var reply := b.CountUnitsBetween(hashed, from, to);
    r := if reply.Number? then Ok(reply.n) else Err(DatabaseError);
  }
}
