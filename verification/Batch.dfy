/** A batch of spending units as a whole: what a clean run does, and how batches compose. */
module Batch {
  import opened Prelude
  import opened Identity
  import opened Gateway
  import opened Tables
  import opened Requests
  import opened Serving

  ghost predicate WellFormed(t: Tables) {
    Chained(t) && forall u :: u in t.credit ==> IsInt32(t.credit[u])
  }

  predicate ItemsOk(items: seq<SpendingUnit>) {
    forall it :: it in items ==> ItemOk(it)
  }

  /** The simple loop body: ensure the user's credit, insert the row, and charge it if it is new. */
  function Posted(cfg: Config, t: Tables, it: SpendingUnit): Tables {
    var row := UnitRowOf(cfg, it);
    var t1 := Ensured(cfg, t, row.user);
    if HasUnit(t1.units, row.externalId) then t1
    else t1.(units := t1.units + [row], credit := t1.credit[row.user := Spend(t1.credit[row.user], row.amount)])
  }

  /** The simple loop, which ensures credit for every item. */
  function PostedAll(cfg: Config, t: Tables, items: seq<SpendingUnit>): Tables {
    if items == [] then t
    else Posted(cfg, PostedAll(cfg, t, items[..|items| - 1]), items[|items| - 1])
  }

  lemma EnsuredKeeps(cfg: Config, t: Tables, u: Digest)
    requires WellFormed(t)
    ensures WellFormed(Ensured(cfg, t, u)) && Grows(t, Ensured(cfg, t, u)) && u in Ensured(cfg, t, u).credit
  {
  }

  lemma PostedKeeps(cfg: Config, t: Tables, it: SpendingUnit)
    requires WellFormed(t) && ItemOk(it)
    ensures WellFormed(Posted(cfg, t, it)) && Grows(t, Posted(cfg, t, it))
    ensures Key(cfg, it.userId) in Posted(cfg, t, it).credit
  {
    var row := UnitRowOf(cfg, it);
    EnsuredKeeps(cfg, t, row.user);
    var t1, t2 := Ensured(cfg, t, row.user), Posted(cfg, t, it);
    assert forall i :: 0 <= i < |t1.units| ==> t1.units[i] in t1.units;
  }

  lemma {:induction false} PostedAllKeeps(cfg: Config, t: Tables, items: seq<SpendingUnit>)
    requires WellFormed(t) && ItemsOk(items)
    ensures WellFormed(PostedAll(cfg, t, items)) && Grows(t, PostedAll(cfg, t, items))
  {
    if items != [] {
      PostedAllKeeps(cfg, t, items[..|items| - 1]);
      PostedKeeps(cfg, PostedAll(cfg, t, items[..|items| - 1]), items[|items| - 1]);
    }
  }

  /** Adding a ++ b is adding a and then b. */
  lemma {:induction false} PostedConcat(cfg: Config, t: Tables, a: seq<SpendingUnit>, b: seq<SpendingUnit>)
    ensures PostedAll(cfg, t, a + b) == PostedAll(cfg, PostedAll(cfg, t, a), b)
  {
    hide Posted;
    if b == [] {
      assert a + b == a;
    } else {
      PostedConcat(cfg, t, a, b[..|b| - 1]);
      assert (a + b)[..|a + b| - 1] == a + b[..|b| - 1];
    }
  }

  // ----- the memo of ensured users

  lemma SpendFits(t: Tables, u: Digest, amount: int)
    requires WellFormed(t) && u in t.credit && amount > 0
    ensures u in t.accounts && IsInt32(Spend(t.credit[u], amount))
  {
  }

  /** One turn of the real loop, from its insert on. */
  lemma ServeInsert(cfg: Config, stripe: Stripe, t: Tables, loop: Loop)
    requires WellFormed(t) && ItemOk(loop.item) && Key(cfg, loop.item.userId) in t.credit
    ensures var t2 := Posted(cfg, t, loop.item);
      Serve(cfg, stripe, t, Insert(loop))
      == Serve(cfg, stripe, t2, NextItem(loop.rest, loop.ensured, loop.total + |t2.units| - |t.units|))
  {
    hide WellFormed, NextItem, HasUnit, Spend;
    var row := UnitRowOf(cfg, loop.item);
    if !HasUnit(t.units, row.externalId) {
      SpendFits(t, row.user, row.amount);
      var t1 := t.(units := t.units + [row]);
      var charging := loop.(total := loop.total + 1);
      assert Serve(cfg, stripe, t, Insert(loop)) == Serve(cfg, stripe, t1, Charge(charging));
      assert Serve(cfg, stripe, t1, Charge(charging))
          == Serve(cfg, stripe, Posted(cfg, t, loop.item), NextItem(loop.rest, loop.ensured, loop.total + 1));
    }
  }

  lemma ServeItem(cfg: Config, stripe: Stripe, t: Tables, items: seq<SpendingUnit>, ensured: set<Bytes>, total: int)
    requires items != [] && WellFormed(t) && ItemOk(items[0]) && EnsuredOk(cfg, t, ensured)
    ensures var t2 := Posted(cfg, t, items[0]);
      Serve(cfg, stripe, t, NextItem(items, ensured, total))
      == Serve(cfg, stripe, t2, NextItem(items[1..], ensured + {items[0].userId}, total + |t2.units| - |t.units|))
  {
    hide Serve;
    var it := items[0];
    var u := Key(cfg, it.userId);
    var loop := Loop(it, items[1..], ensured, total);
    if it.userId in ensured {
      assert ensured + {it.userId} == ensured;
      ServeInsert(cfg, stripe, t, loop);
    } else {
      ServeFresh(cfg, stripe, t, loop);
    }
  }

  lemma ServeFresh(cfg: Config, stripe: Stripe, t: Tables, loop: Loop)
    requires WellFormed(t) && ItemOk(loop.item)
    ensures var t2 := Posted(cfg, t, loop.item);
      Serve(cfg, stripe, t, EnsureCredit(loop.item.userId, ThenInsert(loop)))
      == Serve(cfg, stripe, t2, NextItem(loop.rest, loop.ensured + {loop.item.userId}, loop.total + |t2.units| - |t.units|))
  {
    hide Serve;
    var u := Key(cfg, loop.item.userId);
    ServeEnsure(cfg, stripe, t, loop.item.userId, ThenInsert(loop));
    EnsuredKeeps(cfg, t, u);
    assert Posted(cfg, Ensured(cfg, t, u), loop.item) == Posted(cfg, t, loop.item);
    ServeInsert(cfg, stripe, Ensured(cfg, t, u), loop.(ensured := loop.ensured + {loop.item.userId}));
  }

  /**
   The memo refines the simple loop: with every call working, a batch leaves the same tables and
   reports the same number of new rows as if credit were ensured for every item, even when
   different raw user ids share one key.
   */
  lemma {:induction false} MemoRefines(cfg: Config, stripe: Stripe, t: Tables, items: seq<SpendingUnit>, ensured: set<Bytes>, total: int)
    requires WellFormed(t) && ItemsOk(items) && EnsuredOk(cfg, t, ensured)
    ensures var end := PostedAll(cfg, t, items);
      Serve(cfg, stripe, t, NextItem(items, ensured, total))
      == Served(end, Added(total + |end.units| - |t.units|))
    decreases |items|
  {
    hide *;
    if items == [] {
      ServeNothing(cfg, stripe, t, ensured, total);
    } else {
      var t2 := Posted(cfg, t, items[0]);
      ItemsSplit(items);
      ServeItem(cfg, stripe, t, items, ensured, total);
      TurnKeeps(cfg, t, items, ensured);
      PostedFront(cfg, t, items);
      MemoRefines(cfg, stripe, t2, items[1..], ensured + {items[0].userId}, total + |t2.units| - |t.units|);
    }
  }

  lemma ServeNothing(cfg: Config, stripe: Stripe, t: Tables, ensured: set<Bytes>, total: int)
    ensures Serve(cfg, stripe, t, NextItem([], ensured, total)) == Served(t, Added(total))
    ensures PostedAll(cfg, t, []) == t
  {
  }

  lemma TurnKeeps(cfg: Config, t: Tables, items: seq<SpendingUnit>, ensured: set<Bytes>)
    requires items != [] && WellFormed(t) && ItemOk(items[0]) && EnsuredOk(cfg, t, ensured)
    ensures var t2 := Posted(cfg, t, items[0]);
      WellFormed(t2) && EnsuredOk(cfg, t2, ensured + {items[0].userId})
  {
    PostedKeeps(cfg, t, items[0]);
  }

  lemma ItemsSplit(items: seq<SpendingUnit>)
    requires items != [] && ItemsOk(items)
    ensures ItemOk(items[0]) && ItemsOk(items[1..])
  {
  }

  lemma PostedFront(cfg: Config, t: Tables, items: seq<SpendingUnit>)
    requires items != []
    ensures PostedAll(cfg, t, items) == PostedAll(cfg, Posted(cfg, t, items[0]), items[1..])
  {
    PostedConcat(cfg, t, [items[0]], items[1..]);
    assert [items[0]] + items[1..] == items;
    assert [items[0]][..0] == [];
  }

  /** Batch algebra: serving a ++ b is serving a and then b, in final tables and in total. */
  lemma ServeConcat(cfg: Config, stripe: Stripe, t: Tables, a: seq<SpendingUnit>, b: seq<SpendingUnit>)
    requires WellFormed(t) && ItemsOk(a) && ItemsOk(b)
    ensures var first := Serve(cfg, stripe, t, NextItem(a, {}, 0));
      var second := Serve(cfg, stripe, first.tables, NextItem(b, {}, 0));
      && first.answer.Added? && second.answer.Added?
      && Serve(cfg, stripe, t, NextItem(a + b, {}, 0))
         == Served(second.tables, Added(first.answer.total + second.answer.total))
  {
    hide *;
    PostedAllKeeps(cfg, t, a);
    PostedConcat(cfg, t, a, b);
    ItemsConcat(a, b);
    ServeBatch(cfg, stripe, t, a);
    ServeBatch(cfg, stripe, PostedAll(cfg, t, a), b);
    ServeBatch(cfg, stripe, t, a + b);
  }

  lemma ItemsConcat(a: seq<SpendingUnit>, b: seq<SpendingUnit>)
    requires ItemsOk(a) && ItemsOk(b)
    ensures ItemsOk(a + b)
  {
  }

  lemma ServeBatch(cfg: Config, stripe: Stripe, t: Tables, items: seq<SpendingUnit>)
    requires WellFormed(t) && ItemsOk(items)
    ensures var end := PostedAll(cfg, t, items);
      Serve(cfg, stripe, t, NextItem(items, {}, 0)) == Served(end, Added(|end.units| - |t.units|))
  {
    MemoRefines(cfg, stripe, t, items, {}, 0);
  }

  /** Validation happens item by item: the items before the first bad one are committed, and the batch ends there. */
  lemma {:induction false} BadItemStops(
      cfg: Config, stripe: Stripe, t: Tables, items: seq<SpendingUnit>, j: nat, ensured: set<Bytes>, total: int)
    requires WellFormed(t) && EnsuredOk(cfg, t, ensured) && j < |items|
    requires forall i :: 0 <= i < j ==>
      items[i].externalId != [] && items[i].userId != [] && 0 < items[i].amount < TWO_31 && items[i].createdAt != 0
    requires items[j].externalId == [] || items[j].userId == [] || items[j].amount <= 0 || items[j].createdAt == 0
    ensures Serve(cfg, stripe, t, NextItem(items, ensured, total)) == Served(PostedAll(cfg, t, items[..j]), Failed(BadItem))
    decreases j
  {
    hide Serve, PostedAll, Posted, EnsuredOk, WellFormed, NextItem;
    if j == 0 {
      ServeBad(cfg, stripe, t, items, ensured, total);
    } else {
      var t2 := Posted(cfg, t, items[0]);
      ServeItem(cfg, stripe, t, items, ensured, total);
      TurnKeeps(cfg, t, items, ensured);
      PostedFront(cfg, t, items[..j]);
      assert items[..j][1..] == items[1..][..j - 1];
      BadItemStops(cfg, stripe, t2, items[1..], j - 1, ensured + {items[0].userId}, total + |t2.units| - |t.units|);
    }
  }

  lemma ServeBad(cfg: Config, stripe: Stripe, t: Tables, items: seq<SpendingUnit>, ensured: set<Bytes>, total: int)
    requires items != []
    requires items[0].externalId == [] || items[0].userId == [] || items[0].amount <= 0 || items[0].createdAt == 0
    ensures Serve(cfg, stripe, t, NextItem(items, ensured, total)) == Served(t, Failed(BadItem))
    ensures PostedAll(cfg, t, items[..0]) == t
  {
  }

  /** The same run counted call by call. */
  lemma RunBatch(cfg: Config, stripe: Stripe, faults: nat -> Fault, t: Tables, tick: nat, items: seq<SpendingUnit>)
    requires WellFormed(t) && ItemsOk(items) && forall n :: n >= tick ==> faults(n).Works?
    ensures var ran, end := RunAlone(cfg, stripe, faults, t, tick, NextItem(items, {}, 0)), PostedAll(cfg, t, items);
      ran.tables == end && ran.answer == Added(|end.units| - |t.units|)
  {
    hide RunAlone, Serve, NextItem, PostedAll;
    ServeIsFaultless(cfg, stripe, faults, t, tick, NextItem(items, {}, 0));
    ServeBatch(cfg, stripe, t, items);
  }

  // ----- what a clean run adds

  /** Item j brings an external id that is neither in the table nor earlier in the batch. */
  predicate IsNew(cfg: Config, units: seq<UnitRow>, items: seq<SpendingUnit>, j: nat)
    requires j < |items|
  {
    && !HasUnit(units, Key(cfg, items[j].externalId))
    && forall i :: 0 <= i < j ==> Key(cfg, items[i].externalId) != Key(cfg, items[j].externalId)
  }

  /** The rows of the new ones among the first n items. */
  function NewRows(cfg: Config, units: seq<UnitRow>, items: seq<SpendingUnit>, n: nat): seq<UnitRow>
    requires n <= |items|
  {
    if n == 0 then []
    else NewRows(cfg, units, items, n - 1) + if IsNew(cfg, units, items, n - 1) then [UnitRowOf(cfg, items[n - 1])] else []
  }

  lemma HasUnitConcat(a: seq<UnitRow>, b: seq<UnitRow>, e: Digest)
    ensures HasUnit(a + b, e) <==> HasUnit(a, e) || HasUnit(b, e)
  {
    if HasUnit(a, e) {
      var r :| r in a && r.externalId == e;
      assert r in a + b;
    } else if HasUnit(b, e) {
      var r :| r in b && r.externalId == e;
      assert r in a + b;
    }
  }

  /** After n items, a row exists for exactly the ids that were there before or occur among the n. */
  lemma {:induction false} NewRowsHas(cfg: Config, units: seq<UnitRow>, items: seq<SpendingUnit>, n: nat, e: Digest)
    requires n <= |items|
    ensures HasUnit(units + NewRows(cfg, units, items, n), e)
      <==> HasUnit(units, e) || exists i :: 0 <= i < n && Key(cfg, items[i].externalId) == e
  {
    if n == 0 {
      assert units + [] == units;
    } else {
      var front := NewRows(cfg, units, items, n - 1);
      NewRowsHas(cfg, units, items, n - 1, e);
      var row := UnitRowOf(cfg, items[n - 1]);
      if IsNew(cfg, units, items, n - 1) {
        assert units + NewRows(cfg, units, items, n) == (units + front) + [row];
        HasUnitConcat(units + front, [row], e);
        assert HasUnit([row], e) <==> row.externalId == e;
      } else if row.externalId == e && !HasUnit(units, e) {
        var i :| 0 <= i < n - 1 && Key(cfg, items[i].externalId) == e;
      }
    }
  }

  function Users(cfg: Config, items: seq<SpendingUnit>): set<Digest> {
    set it | it in items :: Key(cfg, it.userId)
  }

  /** The tables of a clean run, read off the batch: rows, credit and account per user. */
  ghost predicate CleanRun(cfg: Config, t: Tables, items: seq<SpendingUnit>, end: Tables) {
    var rows := NewRows(cfg, t.units, items, |items|);
    && end.units == t.units + rows
    && end.invalid == t.invalid
    && end.credit.Keys == t.credit.Keys + Users(cfg, items)
    && (forall u :: u in end.credit ==> end.credit[u] == Balance(CreditOf(cfg, t, u), SumFor(u, rows)))
    && end.accounts.Keys == t.accounts.Keys + Users(cfg, items)
    && (forall u :: u in end.accounts ==> end.accounts[u] == AccountOf(t, u))
  }

  lemma {:induction false} NewRowsPositive(cfg: Config, units: seq<UnitRow>, items: seq<SpendingUnit>, n: nat)
    requires n <= |items| && ItemsOk(items)
    ensures forall r :: r in NewRows(cfg, units, items, n) ==> r.amount > 0
  {
    if n > 0 {
      assert items[n - 1] in items;
      NewRowsPositive(cfg, units, items, n - 1);
    }
  }

  lemma {:induction false} NewRowsPrefix(cfg: Config, units: seq<UnitRow>, items: seq<SpendingUnit>, more: seq<SpendingUnit>, n: nat)
    requires n <= |items| <= |more| && items == more[..|items|]
    ensures NewRows(cfg, units, items, n) == NewRows(cfg, units, more, n)
  {
    if n > 0 {
      NewRowsPrefix(cfg, units, items, more, n - 1);
      assert forall i :: 0 <= i < n ==> items[i] == more[i];
    }
  }

  lemma UsersSnoc(cfg: Config, items: seq<SpendingUnit>, it: SpendingUnit)
    ensures Users(cfg, items + [it]) == Users(cfg, items) + {Key(cfg, it.userId)}
  {
    assert forall x :: x in items + [it] <==> x in items || x == it;
  }

  /** The credits after one more item: the user's charges so far, clamped, and this one if it is new. */
  lemma PostedCredit(cfg: Config, t: Tables, mid: Tables, rows: seq<UnitRow>, it: SpendingUnit)
    requires WellFormed(mid) && ItemOk(it)
    requires t.credit.Keys <= mid.credit.Keys
    requires forall r :: r in rows ==> r.amount > 0 && r.user in mid.credit
    requires forall u :: u in mid.credit ==> mid.credit[u] == Balance(CreditOf(cfg, t, u), SumFor(u, rows))
    ensures var end := Posted(cfg, mid, it);
      var more := if HasUnit(mid.units, Key(cfg, it.externalId)) then rows else rows + [UnitRowOf(cfg, it)];
      forall u :: u in end.credit ==> end.credit[u] == Balance(CreditOf(cfg, t, u), SumFor(u, more))
  {
    var row := UnitRowOf(cfg, it);
    var end := Posted(cfg, mid, it);
    var more := if HasUnit(mid.units, row.externalId) then rows else rows + [row];
    forall u | u in end.credit
      ensures end.credit[u] == Balance(CreditOf(cfg, t, u), SumFor(u, more))
    {
      SumForPositive(u, rows);
      SumForSnoc(u, rows, row);
      if u == row.user {
        SpendBalance(CreditOf(cfg, t, u), SumFor(u, rows), row.amount);
      }
    }
  }

  lemma PostedAccounts(cfg: Config, t: Tables, mid: Tables, users: set<Digest>, it: SpendingUnit)
    requires mid.credit.Keys <= mid.accounts.Keys
    requires mid.credit.Keys == t.credit.Keys + users && mid.accounts.Keys == t.accounts.Keys + users
    requires forall u :: u in mid.accounts ==> mid.accounts[u] == AccountOf(t, u)
    ensures var end, u := Posted(cfg, mid, it), Key(cfg, it.userId);
      && end.credit.Keys == t.credit.Keys + (users + {u}) && end.accounts.Keys == t.accounts.Keys + (users + {u})
      && (forall x :: x in end.accounts ==> end.accounts[x] == AccountOf(t, x))
      && end.invalid == mid.invalid
  {
    hide HasUnit, Spend, UnitRowOf, Grant;
    var u := Key(cfg, it.userId);
    assert UnitRowOf(cfg, it).user == u by {
      UnitRowUser(cfg, it);
    }
    assert Ensured(cfg, mid, u).credit.Keys == mid.credit.Keys + {u};
    assert Ensured(cfg, mid, u).accounts.Keys == mid.accounts.Keys + {u};
  }

  lemma UnitRowUser(cfg: Config, it: SpendingUnit)
    ensures UnitRowOf(cfg, it).user == Key(cfg, it.userId)
  {
  }

  lemma CreditHasAccount(t: Tables)
    requires WellFormed(t)
    ensures t.credit.Keys <= t.accounts.Keys
  {
  }

  lemma PostedUnits(cfg: Config, t: Tables, mid: Tables, items: seq<SpendingUnit>, n: nat)
    requires n < |items| && mid.units == t.units + NewRows(cfg, t.units, items, n)
    ensures HasUnit(mid.units, Key(cfg, items[n].externalId)) <==> !IsNew(cfg, t.units, items, n)
    ensures Posted(cfg, mid, items[n]).units == t.units + NewRows(cfg, t.units, items, n + 1)
  {
    NewRowsHas(cfg, t.units, items, n, Key(cfg, items[n].externalId));
  }

  lemma CleanStep(cfg: Config, t: Tables, items: seq<SpendingUnit>, mid: Tables)
    requires items != [] && ItemsOk(items) && WellFormed(mid)
    requires CleanRun(cfg, t, items[..|items| - 1], mid)
    ensures CleanRun(cfg, t, items, Posted(cfg, mid, items[|items| - 1]))
  {
    hide Posted, WellFormed, NewRows, IsNew, HasUnit, SumFor;
    var n := |items| - 1;
    var front, it := items[..n], items[n];
    var rows := NewRows(cfg, t.units, items, n);
    NewRowsPrefix(cfg, t.units, front, items, n);
    NewRowsPositive(cfg, t.units, items, n);
    NewRowsUsers(mid, t.units, rows);
    PostedUnits(cfg, t, mid, items, n);
    NewRowsStep(cfg, t.units, items, n);
    PostedCredit(cfg, t, mid, rows, it);
    CreditHasAccount(mid);
    PostedAccounts(cfg, t, mid, Users(cfg, front), it);
    assert items == front + [it];
    UsersSnoc(cfg, front, it);
  }

  lemma NewRowsStep(cfg: Config, units: seq<UnitRow>, items: seq<SpendingUnit>, n: nat)
    requires n < |items|
    ensures NewRows(cfg, units, items, n + 1)
         == if IsNew(cfg, units, items, n) then NewRows(cfg, units, items, n) + [UnitRowOf(cfg, items[n])] else NewRows(cfg, units, items, n)
  {
  }

  lemma NewRowsUsers(mid: Tables, units: seq<UnitRow>, rows: seq<UnitRow>)
    requires WellFormed(mid) && mid.units == units + rows
    ensures forall r :: r in rows ==> r.user in mid.credit
  {
    assert forall r :: r in rows ==> r in mid.units;
  }

  /** A clean run adds the rows of the new items in batch order, charges each user their sum, creates what is
      missing, and leaves everything else as it was. */
  lemma {:induction false} PostedAllIsClean(cfg: Config, t: Tables, items: seq<SpendingUnit>)
    requires WellFormed(t) && ItemsOk(items)
    ensures CleanRun(cfg, t, items, PostedAll(cfg, t, items))
  {
    if items == [] {
      assert t.units + [] == t.units;
    } else {
      var front := items[..|items| - 1];
      PostedAllIsClean(cfg, t, front);
      PostedAllKeeps(cfg, t, front);
      CleanStep(cfg, t, items, PostedAll(cfg, t, front));
    }
  }

  // ----- order

  ghost predicate DistinctIds(cfg: Config, items: seq<SpendingUnit>) {
    forall i, j :: 0 <= i < j < |items| ==> Key(cfg, items[i].externalId) != Key(cfg, items[j].externalId)
  }

  /** The rows of the items whose id the table does not have. */
  function FreshRows(cfg: Config, units: seq<UnitRow>, items: seq<SpendingUnit>): seq<UnitRow> {
    if items == [] then []
    else FreshRows(cfg, units, items[..|items| - 1]) + FreshRow(cfg, units, items[|items| - 1])
  }

  function FreshRow(cfg: Config, units: seq<UnitRow>, it: SpendingUnit): seq<UnitRow> {
    if HasUnit(units, Key(cfg, it.externalId)) then [] else [UnitRowOf(cfg, it)]
  }

  lemma {:induction false} DistinctAreFresh(cfg: Config, units: seq<UnitRow>, items: seq<SpendingUnit>, n: nat)
    requires DistinctIds(cfg, items) && n <= |items|
    ensures NewRows(cfg, units, items, n) == FreshRows(cfg, units, items[..n])
  {
    if n > 0 {
      hide HasUnit;
      DistinctAreFresh(cfg, units, items, n - 1);
      assert items[..n][..n - 1] == items[..n - 1];
    }
  }

  lemma {:induction false} FreshConcat(cfg: Config, units: seq<UnitRow>, a: seq<SpendingUnit>, b: seq<SpendingUnit>)
    ensures FreshRows(cfg, units, a + b) == FreshRows(cfg, units, a) + FreshRows(cfg, units, b)
  {
    hide FreshRow;
    if b == [] {
      assert a + b == a;
    } else {
      var front, it := b[..|b| - 1], b[|b| - 1];
      FreshConcat(cfg, units, a, front);
      assert (a + b)[..|a + b| - 1] == a + front;
      assert FreshRows(cfg, units, a + b) == FreshRows(cfg, units, a) + FreshRows(cfg, units, front) + FreshRow(cfg, units, it);
    }
  }

  lemma FreshWithout(cfg: Config, units: seq<UnitRow>, items: seq<SpendingUnit>, k: nat)
    requires k < |items|
    ensures multiset(FreshRows(cfg, units, items))
         == multiset(FreshRows(cfg, units, Without(items, k))) + multiset(FreshRow(cfg, units, items[k]))
  {
    hide FreshRows, FreshRow;
    var it := items[k];
    FreshConcat(cfg, units, items[..k], items[k + 1..]);
    FreshConcat(cfg, units, items[..k], [it]);
    FreshConcat(cfg, units, items[..k] + [it], items[k + 1..]);
    assert items == items[..k] + [it] + items[k + 1..];
    FreshOne(cfg, units, it);
    MiddleOut(FreshRows(cfg, units, items[..k]), FreshRow(cfg, units, it), FreshRows(cfg, units, items[k + 1..]));
  }

  lemma FreshOne(cfg: Config, units: seq<UnitRow>, it: SpendingUnit)
    ensures FreshRows(cfg, units, [it]) == FreshRow(cfg, units, it)
  {
    assert [it][..0] == [];
  }

  lemma {:induction false} FreshPermutation(cfg: Config, units: seq<UnitRow>, a: seq<SpendingUnit>, b: seq<SpendingUnit>)
    requires multiset(a) == multiset(b)
    ensures multiset(FreshRows(cfg, units, a)) == multiset(FreshRows(cfg, units, b))
  {
    if a == [] {
      assert |multiset(b)| == 0;
    } else {
      var it := a[0];
      assert it in multiset(b);
      var k :| 0 <= k < |b| && b[k] == it;
      WithoutMultiset(a, 0);
      WithoutMultiset(b, k);
      assert multiset(Without(a, 0)) == multiset(a) - multiset{it};
      assert multiset(Without(b, k)) == multiset(b) - multiset{it};
      FreshPermutation(cfg, units, Without(a, 0), Without(b, k));
      FreshWithout(cfg, units, a, 0);
      FreshWithout(cfg, units, b, k);
    }
  }

  /** Distinct ids, said without positions. */
  ghost predicate DistinctBag(cfg: Config, items: multiset<SpendingUnit>) {
    && (forall x :: x in items ==> items[x] == 1)
    && (forall x, y :: x in items && y in items && Key(cfg, x.externalId) == Key(cfg, y.externalId) ==> x == y)
  }

  lemma DistinctToBag(cfg: Config, items: seq<SpendingUnit>)
    requires DistinctIds(cfg, items)
    ensures DistinctBag(cfg, multiset(items))
  {
    forall x | x in multiset(items)
      ensures multiset(items)[x] == 1
    {
      var k :| 0 <= k < |items| && items[k] == x;
      WithoutMultiset(items, k);
      assert x !in Without(items, k);
    }
  }

  lemma DistinctFromBag(cfg: Config, items: seq<SpendingUnit>)
    requires DistinctBag(cfg, multiset(items))
    ensures DistinctIds(cfg, items)
  {
    forall i, j | 0 <= i < j < |items|
      ensures Key(cfg, items[i].externalId) != Key(cfg, items[j].externalId)
    {
      WithoutMultiset(items, i);
      assert Without(items, i)[j - 1] == items[j];
      assert items[j] in multiset(Without(items, i));
      assert items[i] in multiset(items) && items[j] in multiset(items);
    }
  }

  lemma PermutedRows(cfg: Config, units: seq<UnitRow>, a: seq<SpendingUnit>, b: seq<SpendingUnit>)
    requires DistinctIds(cfg, a) && multiset(a) == multiset(b)
    ensures var rows, swapped := NewRows(cfg, units, a, |a|), NewRows(cfg, units, b, |b|);
      multiset(rows) == multiset(swapped) && |rows| == |swapped|
  {
    hide *;
    DistinctToBag(cfg, a);
    DistinctFromBag(cfg, b);
    DistinctAreFresh(cfg, units, a, |a|);
    DistinctAreFresh(cfg, units, b, |b|);
    assert a[..|a|] == a && b[..|b|] == b;
    FreshPermutation(cfg, units, a, b);
    var rows, swapped := NewRows(cfg, units, a, |a|), NewRows(cfg, units, b, |b|);
    assert |rows| == |multiset(rows)| == |multiset(swapped)| == |swapped|;
  }

  lemma PermutedItems(cfg: Config, a: seq<SpendingUnit>, b: seq<SpendingUnit>)
    requires ItemsOk(a) && multiset(a) == multiset(b)
    ensures ItemsOk(b) && Users(cfg, a) == Users(cfg, b)
  {
    assert forall it :: it in a <==> it in multiset(a);
    assert forall it :: it in b <==> it in multiset(b);
  }

  /** Order does not matter: for items with pairwise distinct ids, serving any permutation of the batch leaves the
      same accounts and credits and the same rows up to order, and reports the same total. */
  lemma PermutedBatch(cfg: Config, stripe: Stripe, t: Tables, a: seq<SpendingUnit>, b: seq<SpendingUnit>)
    requires WellFormed(t) && ItemsOk(a) && DistinctIds(cfg, a) && multiset(a) == multiset(b)
    ensures var first, second := Serve(cfg, stripe, t, NextItem(a, {}, 0)), Serve(cfg, stripe, t, NextItem(b, {}, 0));
      var x, y := first.tables, second.tables;
      && first.answer == second.answer && first.answer.Added?
      && x.accounts == y.accounts && x.credit == y.credit && x.invalid == y.invalid
      && multiset(x.units) == multiset(y.units)
  {
    hide *;
    PermutedPosts(cfg, t, a, b);
    ServeBatch(cfg, stripe, t, a);
    ServeBatch(cfg, stripe, t, b);
  }

  lemma PermutedPosts(cfg: Config, t: Tables, a: seq<SpendingUnit>, b: seq<SpendingUnit>)
    requires WellFormed(t) && ItemsOk(a) && DistinctIds(cfg, a) && multiset(a) == multiset(b)
    ensures ItemsOk(b)
    ensures var x, y := PostedAll(cfg, t, a), PostedAll(cfg, t, b);
      && x.accounts == y.accounts && x.credit == y.credit && x.invalid == y.invalid
      && multiset(x.units) == multiset(y.units) && |x.units| == |y.units|
  {
    hide PostedAll, WellFormed, NewRows, SumFor, ItemsOk, DistinctIds;
    PermutedItems(cfg, a, b);
    PermutedRows(cfg, t.units, a, b);
    PostedAllIsClean(cfg, t, a);
    PostedAllIsClean(cfg, t, b);
    var x, y := PostedAll(cfg, t, a), PostedAll(cfg, t, b);
    var rows, swapped := NewRows(cfg, t.units, a, |a|), NewRows(cfg, t.units, b, |b|);
    forall u | u in x.credit
      ensures x.credit[u] == y.credit[u]
    {
      SumForPermutation(u, rows, swapped);
    }
  }
}
