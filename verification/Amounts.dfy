/**
 Amounts beyond int32, which only a direct caller of the ledger can send: the function converts them
 without a check, so they are stored and charged modulo 2^32.
 */
module Amounts {
  import opened Prelude
  import opened Identity
  import opened Gateway
  import opened Tables
  import opened Requests
  import opened Serving
  import opened Batch

  /** A batch of one new item of any amount; the database refuses a charge that would leave no int32. */
  lemma ServeOne(cfg: Config, stripe: Stripe, t: Tables, it: SpendingUnit)
    requires WellFormed(t) && Accepted(it) && !HasUnit(t.units, Key(cfg, it.externalId))
    ensures var row := UnitRowOf(cfg, it);
      var left, ensured := Spend(CreditOf(cfg, t, row.user), row.amount), Ensured(cfg, t, row.user);
      var t1 := ensured.(units := t.units + [row]);
      Serve(cfg, stripe, t, NextItem([it], {}, 0))
      == if IsInt32(left) then Served(t1.(credit := t1.credit[row.user := left]), Added(1)) else Served(t1, Failed(DatabaseError))
  {
    hide WellFormed, HasUnit, Spend;
    var row := UnitRowOf(cfg, it);
    var t1 := Ensured(cfg, t, row.user);
    var t2 := t1.(units := t.units + [row]);
    var loop := Loop(it, [], {}, 0);
    EnsuredFor(cfg, t, row.user);
    assert [it][1..] == [];
    assert NextItem([it], {}, 0) == EnsureCredit(it.userId, ThenInsert(loop));
    ServeEnsure(cfg, stripe, t, it.userId, ThenInsert(loop));
    var inserting := loop.(ensured := {} + {it.userId});
    assert Serve(cfg, stripe, t1, Insert(inserting)) == Serve(cfg, stripe, t2, Charge(inserting.(total := 1)));
  }

  lemma EnsuredFor(cfg: Config, t: Tables, u: Digest)
    requires WellFormed(t)
    ensures var t1 := Ensured(cfg, t, u);
      u in t1.credit && u in t1.accounts && t1.credit[u] == CreditOf(cfg, t, u) && IsInt32(CreditOf(cfg, t, u)) && t1.units == t.units
  {
  }

  /** The wrapped amount, against the stored credit, decides everything. */
  lemma WrappedCharge(before: int, amount: int)
    requires IsInt32(before) && amount > 0
    ensures var wrapped := ToInt32(amount);
      var left := Spend(before, wrapped);
      var after := if IsInt32(left) then left else before;
      && (IsInt32(left) <==> before - wrapped < TWO_31)
      && left == Max(0, before - wrapped)
      && (after == Max(0, before - amount) <==> IsInt32(amount) || wrapped >= before || (before == 0 && wrapped == -TWO_31))
      && (after > before <==> (before < 0 || wrapped < 0) && before - wrapped < TWO_31)
  {
  }

  /**
   A new item of any amount, on any well-formed tables. The row is stored with the wrapped amount even when
   its charge is refused, and the charge is refused exactly when it would lift the credit beyond int32.
   The credit ends right, at max(0, credit - amount), exactly when the amount is an int32, or wraps to no less
   than the credit, or is refused with no credit to take; it rises exactly when the wrapped amount or the
   credit is negative and the charge is not refused. Nobody else's credit changes.
   */
  lemma OversizedAmounts(cfg: Config, stripe: Stripe, t: Tables, it: SpendingUnit)
    requires WellFormed(t) && Accepted(it) && !HasUnit(t.units, Key(cfg, it.externalId))
    ensures var u, wrapped := Key(cfg, it.userId), ToInt32(it.amount);
      var served := Serve(cfg, stripe, t, NextItem([it], {}, 0));
      var before, after := CreditOf(cfg, t, u), CreditOf(cfg, served.tables, u);
      && served.tables.units == t.units + [UnitRow(Key(cfg, it.externalId), u, wrapped, it.createdAt)]
      && served.answer == (if before - wrapped < TWO_31 then Added(1) else Failed(DatabaseError))
      && after == (if before - wrapped < TWO_31 then Max(0, before - wrapped) else before)
      && (after == Max(0, before - it.amount) <==> IsInt32(it.amount) || wrapped >= before || (before == 0 && wrapped == -TWO_31))
      && (after > before <==> (before < 0 || wrapped < 0) && before - wrapped < TWO_31)
      && forall x :: x != u ==> CreditOf(cfg, served.tables, x) == CreditOf(cfg, t, x)
  {
    hide WellFormed, HasUnit, Spend, Serve, NextItem, ToInt32, IsInt32, Max;
    var u := Key(cfg, it.userId);
    EnsuredFor(cfg, t, u);
    ServeOne(cfg, stripe, t, it);
    WrappedCharge(CreditOf(cfg, t, u), it.amount);
  }

  /** From empty tables and a grant of 10: a spending of 2^32 - 5 units is reported as added and leaves a credit
      of 15; one of 2^31 units ends in an error, with its row stored and the credit still 10 instead of 0. */
  lemma OversizedExamples(cfg: Config, stripe: Stripe, externalId: Bytes, userId: Bytes)
    requires externalId != [] && userId != [] && cfg.initialFreeCredit == 10
    ensures var u, e := Key(cfg, userId), Key(cfg, externalId);
      var raised := Serve(cfg, stripe, EMPTY, NextItem([SpendingUnit(externalId, userId, TWO_32 - 5, 1)], {}, 0));
      var refused := Serve(cfg, stripe, EMPTY, NextItem([SpendingUnit(externalId, userId, TWO_31, 1)], {}, 0));
      && raised == Served(Tables(map[u := NO_SUBSCRIPTION], [], map[u := 15], [UnitRow(e, u, -5, 1)]), Added(1))
      && refused == Served(Tables(map[u := NO_SUBSCRIPTION], [], map[u := 10], [UnitRow(e, u, -TWO_31, 1)]), Failed(DatabaseError))
  {
    hide Serve, NextItem, Key;
    ServeOne(cfg, stripe, EMPTY, SpendingUnit(externalId, userId, TWO_32 - 5, 1));
    ServeOne(cfg, stripe, EMPTY, SpendingUnit(externalId, userId, TWO_31, 1));
  }
}
