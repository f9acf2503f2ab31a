/** The database and the Stripe client as the process holds them: every method is one external call. */
module Connections {
  import opened Prelude
  import opened Identity
  import opened Gateway
  import opened Tables
  import opened Requests

  class Backend {
    var accounts: map<Digest, Account>
    var invalid: seq<InvalidRow>
    var credit: map<Digest, int>
    var units: seq<UnitRow>

    /** How many external calls have been made; faults says what befalls the n-th. */
    var tick: nat
    const faults: nat -> Fault
    const stripe: Stripe

    constructor (stripe: Stripe, faults: nat -> Fault)
      ensures Snapshot() == EMPTY && tick == 0 && this.stripe == stripe && this.faults == faults
    {
      accounts, invalid, credit, units, tick := map[], [], map[], [], 0;
      this.stripe, this.faults := stripe, faults;
    }

    ghost function Snapshot(): Tables
      reads this
    {
      Tables(accounts, invalid, credit, units)
    }

    /** No external call from here on fails. */
    ghost predicate Calm()
      reads this
    {
      forall n :: n >= tick ==> faults(n).Works?
    }

    /** What is still to come for a handler at pc, were it served alone from here. */
    ghost function Rest(cfg: Config, pc: Pc): Ran
      reads this
    {
      RunAlone(cfg, stripe, faults, Snapshot(), tick, pc)
    }

    /** After the call that pc made on the tables t, what is to come is what is to come at the next program point. */
    lemma Turned(cfg: Config, t: Tables, n: nat, pc: Pc, reply: Reply)
      requires !pc.Finished?
      requires (Snapshot(), reply) == Effect(cfg, stripe, faults(n), t, pc)
      requires tick == n + 1
      ensures RunAlone(cfg, stripe, faults, t, n, pc) == Rest(cfg, Resume(cfg, stripe.now, pc, reply))
    {
      CallsDecrease(cfg, stripe.now, pc, reply);
    }

    /** At the end nothing is to come. */
    lemma Ended(cfg: Config, answer: Answer)
      ensures Rest(cfg, Finished(answer)) == Ran(Snapshot(), tick, answer)
    {
    }

    method UpsertUserAccount(user: Digest, subscriptionId: NullString, planId: NullString, customerId: NullString)
      returns (reply: Reply)
      modifies this
      ensures (Snapshot(), reply) == Attempt(faults(old(tick)), old(Snapshot()), UpsertAccount(user, subscriptionId, planId, customerId))
      ensures tick == old(tick) + 1
    {
      var fault := faults(tick);
      tick := tick + 1;
      if fault.FailsBefore? {
        return Failure;
      }
      var row := Account(subscriptionId, planId, customerId);
      if user in accounts {
        var now := accounts[user];
        row := Account(
          Coalesce(subscriptionId, now.subscriptionId), Coalesce(planId, now.planId), Coalesce(customerId, now.customerId));
      }
      accounts := accounts[user := row];
      reply := if fault.Works? then Acked else Failure;
    }

    method GetSubscriptionIDByUserExternalID(user: Digest) returns (reply: Reply)
      modifies this`tick
      ensures (Snapshot(), reply) == Attempt(faults(old(tick)), old(Snapshot()), SelectSubscription(user))
      ensures tick == old(tick) + 1
    {
      var fault := faults(tick);
      tick := tick + 1;
      if !fault.Works? {
        return Failure;
      }
      reply := if user in accounts then SubscriptionCell(accounts[user].subscriptionId) else NoRows;
    }

    method GetUserAccount(user: Digest) returns (reply: Reply)
      modifies this`tick
      ensures (Snapshot(), reply) == Attempt(faults(old(tick)), old(Snapshot()), SelectAccount(user))
      ensures tick == old(tick) + 1
    {
      var fault := faults(tick);
      tick := tick + 1;
      if !fault.Works? {
        return Failure;
      }
      reply := if user in accounts then AccountRow(user, accounts[user]) else NoRows;
    }

    method InsertInvalidSubscription(row: InvalidRow) returns (reply: Reply)
      modifies this
      ensures (Snapshot(), reply) == Attempt(faults(old(tick)), old(Snapshot()), InsertInvalid(row))
      ensures tick == old(tick) + 1
    {
      var fault := faults(tick);
      tick := tick + 1;
      if fault.FailsBefore? {
        return Failure;
      }
      if row.user in accounts {
        invalid := invalid + [row];
        reply := Acked;
      } else {
        reply := FkViolation;
      }
      if fault.FailsAfter? {
        reply := Failure;
      }
    }

    method UpsertAndGetFreeCredit(user: Digest, grant: int) returns (reply: Reply)
      modifies this
      ensures (Snapshot(), reply) == Attempt(faults(old(tick)), old(Snapshot()), UpsertCredit(user, grant))
      ensures tick == old(tick) + 1
    {
      var fault := faults(tick);
      tick := tick + 1;
      if fault.FailsBefore? {
        return Failure;
      }
      if user in credit {
        reply := Number(credit[user]);
      } else if user !in accounts {
        reply := FkViolation;
      } else {
        credit := credit[user := grant];
        reply := Number(grant);
      }
      if fault.FailsAfter? {
        reply := Failure;
      }
    }

    method ConsumeFreeCredit(user: Digest, amount: int) returns (reply: Reply)
      modifies this
      ensures (Snapshot(), reply) == Attempt(faults(old(tick)), old(Snapshot()), ConsumeCredit(user, amount))
      ensures tick == old(tick) + 1
    {
      var fault := faults(tick);
      tick := tick + 1;
      if fault.FailsBefore? {
        return Failure;
      }
      reply := Acked;
      if user in credit {
        var left := if credit[user] <= amount then 0 else credit[user] - amount;
        if IsInt32(left) {
          credit := credit[user := left];
        } else {
          reply := Failure;
        }
      }
      if fault.FailsAfter? {
        reply := Failure;
      }
    }

    method InsertSpendingUnit(unit: UnitRow) returns (reply: Reply)
      modifies this
      ensures (Snapshot(), reply) == Attempt(faults(old(tick)), old(Snapshot()), InsertUnit(unit))
      ensures tick == old(tick) + 1
    {
      var fault := faults(tick);
      tick := tick + 1;
      if fault.FailsBefore? {
        return Failure;
      }
      if HasUnit(units, unit.externalId) {
        reply := Number(0);
      } else if unit.user !in accounts {
        reply := FkViolation;
      } else {
        units := units + [unit];
        reply := Number(1);
      }
      if fault.FailsAfter? {
        reply := Failure;
      }
    }

    method CountUnitsBetween(user: Digest, from: int, to: int) returns (reply: Reply)
      modifies this`tick
      ensures (Snapshot(), reply) == Attempt(faults(old(tick)), old(Snapshot()), SumUnits(user, from, to))
      ensures tick == old(tick) + 1
    {
      var fault := faults(tick);
      tick := tick + 1;
      if !fault.Works? {
        return Failure;
      }
      var sum := 0;
      for i := 0 to |units|
        invariant sum == SumBetween(user, from, to, units[..i])
      {
        assert units[..i + 1][..i] == units[..i];
        var r := units[i];
        if r.user == user && from <= r.createdAt <= to {
          sum := sum + r.amount;
        }
      }
      assert units[..|units|] == units;
      reply := Number(sum);
    }

    method GetSubscription(id: string) returns (reply: Reply)
      modifies this`tick
      ensures reply == if faults(old(tick)).Works? && id in stripe.subscriptions then SubscriptionRecord(stripe.subscriptions[id]) else Failure
      ensures tick == old(tick) + 1
    {
      var fault := faults(tick);
      tick := tick + 1;
      reply := if fault.Works? && id in stripe.subscriptions then SubscriptionRecord(stripe.subscriptions[id]) else Failure;
    }

    method GetCustomer(id: string) returns (reply: Reply)
      modifies this`tick
      ensures reply == if faults(old(tick)).Works? && id in stripe.customers then CustomerRecord(stripe.customers[id]) else Failure
      ensures tick == old(tick) + 1
    {
      var fault := faults(tick);
      tick := tick + 1;
      reply := if fault.Works? && id in stripe.customers then CustomerRecord(stripe.customers[id]) else Failure;
    }
  }
}
