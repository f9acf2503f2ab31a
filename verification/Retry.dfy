/**
 A batch that fails part of the way and is sent again. Any call of any attempt may fail before or
 after its effect; the handler gives up at the first error, and the whole batch is retried.
 */
module Retry {
  import opened Prelude
  import opened Identity
  import opened Gateway
  import opened Tables
  import opened Requests
  import opened Serving
  import opened Batch

  // ----- what one turn of the loop can leave behind

  /** The tables during GetFreeCredit: untouched, with the account only, or done. */
  ghost predicate Staged(cfg: Config, t: Tables, t1: Tables, u: Digest) {
    || t1 == t
    || (u !in t.credit && u !in t.accounts && t1 == t.(accounts := t.accounts[u := NO_SUBSCRIPTION]))
    || t1 == Ensured(cfg, t, u)
  }

  function Inserted(cfg: Config, t: Tables, it: SpendingUnit): Tables {
    var row := UnitRowOf(cfg, it);
    if HasUnit(t.units, row.externalId) then t else t.(units := t.units + [row])
  }

  /** The tables an interrupted turn can leave: during GetFreeCredit, inserted but not charged, or done. */
  ghost predicate Interrupted(cfg: Config, t: Tables, t1: Tables, it: SpendingUnit) {
    var u := Key(cfg, it.userId);
    || Staged(cfg, t, t1, u)
    || t1 == Inserted(cfg, Ensured(cfg, t, u), it)
    || t1 == Posted(cfg, t, it)
  }

  lemma EnsureUnderFaults(cfg: Config, stripe: Stripe, faults: nat -> Fault, t: Tables, tick: nat, user: Bytes, goal: Goal)
    returns (t1: Tables, tick1: nat, ok: bool)
    requires goal.ThenInsert?
    ensures Staged(cfg, t, t1, Key(cfg, user))
    ensures var ran := RunAlone(cfg, stripe, faults, t, tick, EnsureCredit(user, goal));
      if ok then t1 == Ensured(cfg, t, Key(cfg, user))
              && ran == RunAlone(cfg, stripe, faults, t1, tick1, ReturnCredit(user, goal, 0))
      else ran.tables == t1 && ran.answer == Failed(DatabaseError)
  {
    hide Key, Grant;
    var u := Key(cfg, user);
    var t2 := Attempt(faults(tick), t, UpsertCredit(u, Grant(cfg))).0;
    if u in t.credit || u in t.accounts || !faults(tick).Works? {
      ok, t1, tick1 := faults(tick).Works?, t2, tick + 1;
      assert t2 == t || t2 == Ensured(cfg, t, u);
    } else {
      var t3 := t.(accounts := t.accounts[u := NO_SUBSCRIPTION]);
      assert RunAlone(cfg, stripe, faults, t, tick, EnsureCredit(user, goal))
          == RunAlone(cfg, stripe, faults, t, tick + 1, EnsureAccount(user, goal));
      if !faults(tick + 1).Works? {
        ok, t1, tick1 := false, if faults(tick + 1).FailsBefore? then t else t3, tick + 2;
        assert RunAlone(cfg, stripe, faults, t, tick + 1, EnsureAccount(user, goal)) == Ran(t1, tick1, Failed(DatabaseError));
      } else {
        assert RunAlone(cfg, stripe, faults, t, tick + 1, EnsureAccount(user, goal))
            == RunAlone(cfg, stripe, faults, t3, tick + 2, EnsureCreditAgain(user, goal));
        ok, t1, tick1 := faults(tick + 2).Works?, if faults(tick + 2).FailsBefore? then t3 else Ensured(cfg, t, u), tick + 3;
        assert ok || RunAlone(cfg, stripe, faults, t3, tick + 2, EnsureCreditAgain(user, goal)) == Ran(t1, tick1, Failed(DatabaseError));
      }
    }
  }

  lemma InsertUnderFaults(cfg: Config, stripe: Stripe, faults: nat -> Fault, t: Tables, tick: nat, loop: Loop)
    returns (t1: Tables, tick1: nat, ok: bool)
    requires WellFormed(t) && ItemOk(loop.item) && Key(cfg, loop.item.userId) in t.credit
    ensures t1 == t || t1 == Inserted(cfg, t, loop.item) || t1 == Posted(cfg, t, loop.item)
    ensures var ran := RunAlone(cfg, stripe, faults, t, tick, Insert(loop));
      if ok then t1 == Posted(cfg, t, loop.item)
              && exists total :: ran == RunAlone(cfg, stripe, faults, t1, tick1, NextItem(loop.rest, loop.ensured, total))
      else ran.tables == t1 && ran.answer == Failed(DatabaseError)
  {
    hide WellFormed, NextItem, HasUnit, Spend;
    var row := UnitRowOf(cfg, loop.item);
    SpendFits(t, row.user, row.amount);
    if HasUnit(t.units, row.externalId) || !faults(tick).Works? {
      ok, tick1 := faults(tick).Works?, tick + 1;
      t1 := if faults(tick).FailsBefore? then t else Inserted(cfg, t, loop.item);
      if ok {
        assert RunAlone(cfg, stripe, faults, t, tick, Insert(loop))
            == RunAlone(cfg, stripe, faults, t1, tick1, NextItem(loop.rest, loop.ensured, loop.total + 0));
      }
    } else {
      var t2 := Inserted(cfg, t, loop.item);
      var charging := loop.(total := loop.total + 1);
      assert RunAlone(cfg, stripe, faults, t, tick, Insert(loop)) == RunAlone(cfg, stripe, faults, t2, tick + 1, Charge(charging));
      ok, tick1 := faults(tick + 1).Works?, tick + 2;
      t1 := if faults(tick + 1).FailsBefore? then t2 else Posted(cfg, t, loop.item);
      if ok {
        assert RunAlone(cfg, stripe, faults, t2, tick + 1, Charge(charging))
            == RunAlone(cfg, stripe, faults, t1, tick1, NextItem(loop.rest, loop.ensured, loop.total + 1));
      } else {
        assert RunAlone(cfg, stripe, faults, t2, tick + 1, Charge(charging)) == Ran(t1, tick1, Failed(DatabaseError));
      }
    }
  }

  lemma TurnUnderFaults(
      cfg: Config, stripe: Stripe, faults: nat -> Fault, t: Tables, tick: nat,
      items: seq<SpendingUnit>, ensured: set<Bytes>, total: int)
    returns (t1: Tables, tick1: nat, total1: int, ok: bool)
    requires items != [] && WellFormed(t) && ItemsOk(items) && EnsuredOk(cfg, t, ensured)
    ensures Interrupted(cfg, t, t1, items[0])
    ensures var ran := RunAlone(cfg, stripe, faults, t, tick, NextItem(items, ensured, total));
      if ok then t1 == Posted(cfg, t, items[0])
              && ran == RunAlone(cfg, stripe, faults, t1, tick1, NextItem(items[1..], ensured + {items[0].userId}, total1))
      else ran.tables == t1 && ran.answer == Failed(DatabaseError)
  {
    hide RunAlone, Posted;
    var it := items[0];
    assert ItemOk(it);
    var u := Key(cfg, it.userId);
    var loop := Loop(it, items[1..], ensured, total);
    var t2, tick2 := t, tick;
    ok := true;
    if it.userId in ensured {
      assert loop.ensured == ensured + {it.userId};
    } else {
      t2, tick2, ok := EnsureUnderFaults(cfg, stripe, faults, t, tick, it.userId, ThenInsert(loop));
      loop := loop.(ensured := ensured + {it.userId});
    }
    t1, tick1, total1 := t2, tick2, total;
    if ok {
      EnsuredKeeps(cfg, t, u);
      PostedEnsured(cfg, t, it);
      assert t2 == Ensured(cfg, t, u);
      t1, tick1, ok := InsertUnderFaults(cfg, stripe, faults, t2, tick2, loop);
      if ok {
        total1 :| RunAlone(cfg, stripe, faults, t2, tick2, Insert(loop))
               == RunAlone(cfg, stripe, faults, t1, tick1, NextItem(loop.rest, loop.ensured, total1));
      }
    }
  }

  lemma PostedEnsured(cfg: Config, t: Tables, it: SpendingUnit)
    ensures Posted(cfg, Ensured(cfg, t, Key(cfg, it.userId)), it) == Posted(cfg, t, it)
  {
  }

  // ----- how far the attempts have come

  /** Accounts and credit rows exist for nobody but the users from before and those of the batch. */
  ghost predicate PartKeys(t0: Tables, t: Tables, users: set<Digest>) {
    && t0.credit.Keys <= t.credit.Keys <= t0.credit.Keys + users
    && t0.accounts.Keys <= t.accounts.Keys <= t0.accounts.Keys + users
    && (forall u :: u in t.accounts ==> t.accounts[u] == AccountOf(t0, u))
    && t.invalid == t0.invalid
  }

  /** Every credit is what the inserted rows leave, except for the lost ones. */
  ghost predicate PartCredit(cfg: Config, t0: Tables, t: Tables, rows: seq<UnitRow>, lost: seq<UnitRow>) {
    && multiset(lost) <= multiset(rows)
    && forall u :: u in t.credit ==> t.credit[u] == Balance(CreditOf(cfg, t0, u), SumFor(u, rows) - SumFor(u, lost))
  }

  /** t is t0 with the rows of the first k items, every new one charged but those in lost. */
  ghost predicate Partial(cfg: Config, t0: Tables, items: seq<SpendingUnit>, t: Tables, k: nat, lost: seq<UnitRow>) {
    && k <= |items|
    && WellFormed(t)
    && t.units == t0.units + NewRows(cfg, t0.units, items, k)
    && PartKeys(t0, t, Users(cfg, items))
    && PartCredit(cfg, t0, t, NewRows(cfg, t0.units, items, k), lost)
  }

  lemma StagedKeeps(cfg: Config, t: Tables, t1: Tables, u: Digest)
    requires WellFormed(t) && Staged(cfg, t, t1, u)
    ensures WellFormed(t1) && t1.units == t.units
  {
  }

  lemma StagedCredit(cfg: Config, t0: Tables, t: Tables, t1: Tables, rows: seq<UnitRow>, lost: seq<UnitRow>, u: Digest)
    requires Staged(cfg, t, t1, u) && t0.credit.Keys <= t.credit.Keys
    requires PartCredit(cfg, t0, t, rows, lost)
    requires forall r :: r in rows ==> r.amount > 0 && r.user in t.credit
    ensures PartCredit(cfg, t0, t1, rows, lost)
  {
    if u !in t.credit {
      SumForPositive(u, rows);
      SumForPart(u, lost, rows);
    }
  }

  lemma StagedPartial(cfg: Config, t0: Tables, items: seq<SpendingUnit>, t: Tables, k: nat, lost: seq<UnitRow>, t1: Tables, u: Digest)
    requires ItemsOk(items) && Partial(cfg, t0, items, t, k, lost)
    requires u in Users(cfg, items) && Staged(cfg, t, t1, u)
    ensures Partial(cfg, t0, items, t1, k, lost)
  {
    hide WellFormed, NewRows, SumFor, PartCredit, CreditOf;
    var rows := NewRows(cfg, t0.units, items, k);
    StagedKeeps(cfg, t, t1, u);
    NewRowsPositive(cfg, t0.units, items, k);
    NewRowsUsers(t, t0.units, rows);
    StagedCredit(cfg, t0, t, t1, rows, lost, u);
  }

  lemma InsertedKeeps(cfg: Config, t: Tables, it: SpendingUnit)
    requires WellFormed(t) && Key(cfg, it.userId) in t.credit
    ensures WellFormed(Inserted(cfg, t, it))
  {
    assert forall i :: 0 <= i < |t.units| ==> t.units[i] in t.units;
  }

  lemma InsertedCredit(cfg: Config, t0: Tables, t: Tables, rows: seq<UnitRow>, lost: seq<UnitRow>, row: UnitRow)
    requires PartCredit(cfg, t0, t, rows, lost)
    ensures PartCredit(cfg, t0, t.(units := t.units + [row]), rows + [row], lost + [row])
  {
    forall u | u in t.credit
      ensures SumFor(u, rows + [row]) - SumFor(u, lost + [row]) == SumFor(u, rows) - SumFor(u, lost)
    {
      SumForSnoc(u, rows, row);
      SumForSnoc(u, lost, row);
    }
  }

  /** Inserting item j: a retry skips the rows already there, and a new row counts as lost until it is charged. */
  lemma InsertedPartial(cfg: Config, t0: Tables, items: seq<SpendingUnit>, t: Tables, k: nat, lost: seq<UnitRow>, j: nat)
    requires Partial(cfg, t0, items, t, k, lost) && j < |items| && j <= k
    requires Key(cfg, items[j].userId) in t.credit
    ensures var row := UnitRowOf(cfg, items[j]);
      if HasUnit(t.units, row.externalId) then Partial(cfg, t0, items, t, if k == j then j + 1 else k, lost)
      else k == j && Partial(cfg, t0, items, Inserted(cfg, t, items[j]), j + 1, lost + [row])
  {
    hide WellFormed, NewRows, SumFor, PartCredit, HasUnit, IsNew;
    var row := UnitRowOf(cfg, items[j]);
    var rows := NewRows(cfg, t0.units, items, k);
    NewRowsHas(cfg, t0.units, items, k, Key(cfg, items[j].externalId));
    InsertedKeeps(cfg, t, items[j]);
    InsertedCredit(cfg, t0, t, rows, lost, row);
    if k == j {
      NewRowsStep(cfg, t0.units, items, j);
      PostedUnits(cfg, t0, t, items, j);
    }
  }

  lemma ChargedCredit(cfg: Config, t0: Tables, t: Tables, rows: seq<UnitRow>, lost: seq<UnitRow>, row: UnitRow)
    requires PartCredit(cfg, t0, t, rows, lost + [row]) && row.user in t.credit
    requires forall r :: r in rows ==> r.amount > 0
    ensures PartCredit(cfg, t0, t.(credit := t.credit[row.user := Spend(t.credit[row.user], row.amount)]), rows, lost)
  {
    var u := row.user;
    assert row in multiset(lost + [row]);
    SumForPart(u, lost + [row], rows);
    SpendBalance(CreditOf(cfg, t0, u), SumFor(u, rows) - SumFor(u, lost + [row]), row.amount);
    forall x | x in t.credit
      ensures SumFor(x, lost + [row]) == SumFor(x, lost) + if x == u then row.amount else 0
    {
      SumForSnoc(x, lost, row);
    }
  }

  lemma ChargedPartial(cfg: Config, t0: Tables, items: seq<SpendingUnit>, t: Tables, k: nat, lost: seq<UnitRow>, row: UnitRow)
    requires ItemsOk(items) && Partial(cfg, t0, items, t, k, lost + [row]) && row.user in t.credit && row.amount > 0
    ensures Partial(cfg, t0, items, t.(credit := t.credit[row.user := Spend(t.credit[row.user], row.amount)]), k, lost)
  {
    hide NewRows, SumFor, PartCredit, HasUnit, CreditOf;
    NewRowsPositive(cfg, t0.units, items, k);
    SpendFits(t, row.user, row.amount);
    ChargedCredit(cfg, t0, t, NewRows(cfg, t0.units, items, k), lost, row);
  }

  /** An interrupted turn moves the attempts forward and loses at most the charge of its own row; a finished one loses none. */
  lemma TurnPartial(cfg: Config, t0: Tables, items: seq<SpendingUnit>, t: Tables, k: nat, lost: seq<UnitRow>, j: nat, t1: Tables)
    returns (k1: nat, lost1: seq<UnitRow>)
    requires ItemsOk(items) && Partial(cfg, t0, items, t, k, lost) && j < |items| && j <= k
    requires Interrupted(cfg, t, t1, items[j])
    ensures Partial(cfg, t0, items, t1, k1, lost1) && j <= k1 && |lost1| <= |lost| + 1
    ensures t1 == Posted(cfg, t, items[j]) ==> j + 1 <= k1 && lost1 == lost && Key(cfg, items[j].userId) in t1.credit
  {
    hide Partial, Users, UnitRowOf, HasUnit, WellFormed;
    var it := items[j];
    var u, row := Key(cfg, it.userId), UnitRowOf(cfg, it);
    ItemFacts(cfg, items, j);
    if Staged(cfg, t, t1, u) && t1 != Posted(cfg, t, it) {
      StagedPartial(cfg, t0, items, t, k, lost, t1, u);
      k1, lost1 := k, lost;
    } else {
      var t2 := Ensured(cfg, t, u);
      StagedPartial(cfg, t0, items, t, k, lost, t2, u);
      InsertedPartial(cfg, t0, items, t2, k, lost, j);
      if HasUnit(t2.units, row.externalId) {
        k1, lost1 := if k == j then j + 1 else k, lost;
      } else if t1 == Posted(cfg, t, it) {
        ChargedPartial(cfg, t0, items, Inserted(cfg, t2, it), j + 1, lost, row);
        k1, lost1 := j + 1, lost;
      } else {
        k1, lost1 := j + 1, lost + [row];
      }
    }
  }

  lemma ItemFacts(cfg: Config, items: seq<SpendingUnit>, j: nat)
    requires ItemsOk(items) && j < |items|
    ensures ItemOk(items[j]) && Key(cfg, items[j].userId) in Users(cfg, items)
    ensures UnitRowOf(cfg, items[j]).user == Key(cfg, items[j].userId) && UnitRowOf(cfg, items[j]).amount > 0
    ensures UnitRowOf(cfg, items[j]).externalId == Key(cfg, items[j].externalId)
  {
  }

  // ----- one attempt

  /** The users of the first j items all have credit. */
  ghost predicate Covered(cfg: Config, t: Tables, items: seq<SpendingUnit>, j: nat)
    requires j <= |items|
  {
    forall i :: 0 <= i < j ==> Key(cfg, items[i].userId) in t.credit
  }

  lemma CoveredStep(cfg: Config, t: Tables, t1: Tables, items: seq<SpendingUnit>, j: nat, ensured: set<Bytes>)
    requires j < |items| && Covered(cfg, t, items, j) && EnsuredOk(cfg, t, ensured)
    requires t1 == Posted(cfg, t, items[j]) && Key(cfg, items[j].userId) in t1.credit
    ensures Covered(cfg, t1, items, j + 1) && EnsuredOk(cfg, t1, ensured + {items[j].userId})
  {
  }

  /** What an attempt that started at item j of the batch leaves. */
  ghost predicate AttemptLeaves(cfg: Config, t0: Tables, items: seq<SpendingUnit>, ran: Ran, k: nat, lost: seq<UnitRow>, k1: nat, lost1: seq<UnitRow>) {
    && Partial(cfg, t0, items, ran.tables, k1, lost1)
    && |lost1| <= |lost| + 1
    && (ran.answer.Added? || ran.answer == Failed(DatabaseError))
    && (ran.answer.Added? ==> k1 == |items| && lost1 == lost && Covered(cfg, ran.tables, items, |items|))
  }

  lemma {:induction false} AttemptPartial(
      cfg: Config, stripe: Stripe, faults: nat -> Fault, t0: Tables, items: seq<SpendingUnit>, j: nat,
      t: Tables, tick: nat, ensured: set<Bytes>, total: int, k: nat, lost: seq<UnitRow>)
    returns (k1: nat, lost1: seq<UnitRow>)
    requires ItemsOk(items) && j <= |items| && j <= k
    requires Partial(cfg, t0, items, t, k, lost) && EnsuredOk(cfg, t, ensured) && Covered(cfg, t, items, j)
    ensures AttemptLeaves(cfg, t0, items,
      RunAlone(cfg, stripe, faults, t, tick, NextItem(items[j..], ensured, total)), k, lost, k1, lost1)
    decreases |items| - j
  {
    hide RunAlone, NextItem, Posted, Interrupted, EnsuredOk, Covered, WellFormed, PartKeys, PartCredit, NewRows;
    if j == |items| {
      RunNothing(cfg, stripe, faults, t, tick, ensured, total);
      k1, lost1 := k, lost;
    } else {
      var t1, tick1, total1, ok := TurnUnderFaults(cfg, stripe, faults, t, tick, items[j..], ensured, total);
      k1, lost1 := TurnPartial(cfg, t0, items, t, k, lost, j, t1);
      if ok {
        CoveredStep(cfg, t, t1, items, j, ensured);
        assert items[j..][1..] == items[j + 1..];
        k1, lost1 := AttemptPartial(cfg, stripe, faults, t0, items, j + 1, t1, tick1, ensured + {items[j].userId}, total1, k1, lost1);
      }
    }
  }

  lemma RunNothing(cfg: Config, stripe: Stripe, faults: nat -> Fault, t: Tables, tick: nat, ensured: set<Bytes>, total: int)
    ensures RunAlone(cfg, stripe, faults, t, tick, NextItem([], ensured, total)) == Ran(t, tick, Added(total))
  {
  }

  // ----- any number of attempts

  /** The batch is sent once for every element of tries, which says what befalls that attempt's calls. */
  function Attempts(cfg: Config, stripe: Stripe, t: Tables, items: seq<SpendingUnit>, tries: seq<nat -> Fault>): Tables {
    if tries == [] then t
    else
      var before := Attempts(cfg, stripe, t, items, tries[..|tries| - 1]);
      RunAlone(cfg, stripe, tries[|tries| - 1], before, 0, NextItem(items, {}, 0)).tables
  }

  lemma {:induction false} AttemptsPartial(cfg: Config, stripe: Stripe, t0: Tables, items: seq<SpendingUnit>, tries: seq<nat -> Fault>)
    returns (k: nat, lost: seq<UnitRow>)
    requires WellFormed(t0) && ItemsOk(items)
    ensures Partial(cfg, t0, items, Attempts(cfg, stripe, t0, items, tries), k, lost) && |lost| <= |tries|
  {
    if tries == [] {
      k, lost := 0, [];
      NothingDone(cfg, t0, items);
    } else {
      hide RunAlone, NextItem, Partial;
      k, lost := AttemptsPartial(cfg, stripe, t0, items, tries[..|tries| - 1]);
      var before := Attempts(cfg, stripe, t0, items, tries[..|tries| - 1]);
      assert items[0..] == items;
      k, lost := AttemptPartial(cfg, stripe, tries[|tries| - 1], t0, items, 0, before, 0, {}, 0, k, lost);
    }
  }

  lemma NothingDone(cfg: Config, t0: Tables, items: seq<SpendingUnit>)
    requires WellFormed(t0)
    ensures Partial(cfg, t0, items, t0, 0, [])
  {
    assert t0.units + [] == t0.units;
  }

  /** A finished attempt leaves the tables of one clean run, up to the lost charges. */
  lemma PartialIsClean(cfg: Config, t0: Tables, items: seq<SpendingUnit>, t: Tables, lost: seq<UnitRow>)
    requires WellFormed(t0) && ItemsOk(items)
    requires Partial(cfg, t0, items, t, |items|, lost) && Covered(cfg, t, items, |items|)
    ensures var clean, rows := PostedAll(cfg, t0, items), NewRows(cfg, t0.units, items, |items|);
      && t.units == clean.units && t.accounts == clean.accounts && t.invalid == clean.invalid
      && t.credit.Keys == clean.credit.Keys
      && (forall u :: u in clean.credit ==> clean.credit[u] == Balance(CreditOf(cfg, t0, u), SumFor(u, rows)))
      && (forall u :: u in t.credit ==> t.credit[u] == Balance(CreditOf(cfg, t0, u), SumFor(u, rows) - SumFor(u, lost)))
  {
    hide NewRows, PostedAll, SumFor, CreditOf;
    PostedAllIsClean(cfg, t0, items);
    assert Users(cfg, items) <= t.credit.Keys;
    assert t.credit.Keys <= t.accounts.Keys;
  }

  /** What uncharged rows are worth: the credit left out of c when lost of the spent units were never charged. */
  lemma LostCharges(c: int, spent: int, lost: int)
    requires 0 <= lost <= spent
    ensures Max(0, Balance(c, spent)) <= Max(0, Balance(c, spent - lost)) <= Max(0, Balance(c, spent)) + lost
    ensures c >= 0 ==> Balance(c, spent) <= Balance(c, spent - lost) <= Balance(c, spent) + lost
  {
  }

  /**
   Crash and retry: after any number of failed attempts, a retry whose calls all work leaves exactly the
   accounts, the rows and the set of credit rows of one clean run. There is one list of lost rows for all
   users together, at most one row per failed attempt, each inserted by the batch; every credit is exactly
   what the new rows leave but for the lost ones, so it is never below the clean run's and exceeds it by at
   most the user's lost charges.
   */
  lemma CrashAndRetry(cfg: Config, stripe: Stripe, t0: Tables, items: seq<SpendingUnit>, tries: seq<nat -> Fault>)
    returns (lost: seq<UnitRow>)
    requires WellFormed(t0) && ItemsOk(items)
    ensures |lost| <= |tries| && multiset(lost) <= multiset(NewRows(cfg, t0.units, items, |items|))
    ensures var clean := Serve(cfg, stripe, t0, NextItem(items, {}, 0)).tables;
      var retried := Serve(cfg, stripe, Attempts(cfg, stripe, t0, items, tries), NextItem(items, {}, 0));
      var t, rows := retried.tables, NewRows(cfg, t0.units, items, |items|);
      && retried.answer.Added?
      && t.units == clean.units && t.accounts == clean.accounts && t.invalid == clean.invalid
      && t.credit.Keys == clean.credit.Keys
      && forall u :: u in t.credit ==>
           && t.credit[u] == Balance(CreditOf(cfg, t0, u), SumFor(u, rows) - SumFor(u, lost))
           && Max(0, clean.credit[u]) <= Max(0, t.credit[u]) <= Max(0, clean.credit[u]) + SumFor(u, lost)
           && (CreditOf(cfg, t0, u) >= 0 ==> clean.credit[u] <= t.credit[u] <= clean.credit[u] + SumFor(u, lost))
  {
    hide RunAlone, NextItem, Serve, PostedAll, NewRows, SumFor, CreditOf, Balance, Max, Covered, PartKeys;
    ServeBatch(cfg, stripe, t0, items);
    var k: nat;
    k, lost := AttemptsPartial(cfg, stripe, t0, items, tries);
    var before := Attempts(cfg, stripe, t0, items, tries);
    var calm := (n: nat) => Works;
    ServeIsFaultless(cfg, stripe, calm, before, 0, NextItem(items, {}, 0));
    ServeBatch(cfg, stripe, before, items);
    FinalAttempt(cfg, stripe, calm, t0, items, before, k, lost);
    var t := RunAlone(cfg, stripe, calm, before, 0, NextItem(items, {}, 0)).tables;
    PartialIsClean(cfg, t0, items, t, lost);
    var rows := NewRows(cfg, t0.units, items, |items|);
    NewRowsPositive(cfg, t0.units, items, |items|);
    forall u | u in t.credit
      ensures 0 <= SumFor(u, lost) <= SumFor(u, rows)
    {
      SumForPart(u, lost, rows);
    }
    forall u | u in t.credit {
      LostCharges(CreditOf(cfg, t0, u), SumFor(u, rows), SumFor(u, lost));
    }
  }

  lemma EnsuredNobody(cfg: Config, t: Tables, items: seq<SpendingUnit>)
    ensures EnsuredOk(cfg, t, {}) && Covered(cfg, t, items, 0)
  {
  }

  /** An attempt that reports a total has finished the batch and lost nothing more. */
  lemma FinalAttempt(cfg: Config, stripe: Stripe, faults: nat -> Fault, t0: Tables, items: seq<SpendingUnit>, before: Tables, k: nat, lost: seq<UnitRow>)
    requires ItemsOk(items) && Partial(cfg, t0, items, before, k, lost)
    requires RunAlone(cfg, stripe, faults, before, 0, NextItem(items, {}, 0)).answer.Added?
    ensures var t := RunAlone(cfg, stripe, faults, before, 0, NextItem(items, {}, 0)).tables;
      Partial(cfg, t0, items, t, |items|, lost) && Covered(cfg, t, items, |items|)
  {
    hide RunAlone, NextItem, Partial;
    EnsuredNobody(cfg, before, items);
    assert items[0..] == items;
    var _, _ := AttemptPartial(cfg, stripe, faults, t0, items, 0, before, 0, {}, 0, k, lost);
  }
}
