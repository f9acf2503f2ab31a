/**
 The four database tables as values, and what each SQL statement does to them in one atomic step.
 A statement either changes the tables and replies, or leaves them alone and replies with an error.
 */
module Tables {
  import opened Prelude
  import opened Identity
  import opened Gateway

  type NullString = Option<string>

  datatype Account = Account(subscriptionId: NullString, planId: NullString, customerId: NullString)

  const NO_SUBSCRIPTION := Account(None, None, None)

  datatype InvalidRow = InvalidRow(user: Digest, subscriptionId: NullString, planId: NullString, customerId: NullString)

  datatype UnitRow = UnitRow(externalId: Digest, user: Digest, amount: int, createdAt: int)

  /** Accounts and credits are keyed by their unique column; spending rows are in insertion order. */
  datatype Tables = Tables(
    accounts: map<Digest, Account>,
    invalid: seq<InvalidRow>,
    credit: map<Digest, int>,
    units: seq<UnitRow>)

  const EMPTY := Tables(map[], [], map[], [])

  datatype Statement =
    | UpsertAccount(user: Digest, subscriptionId: NullString, planId: NullString, customerId: NullString)
    | SelectSubscription(user: Digest)
    | SelectAccount(user: Digest)
    | InsertInvalid(row: InvalidRow)
    | UpsertCredit(user: Digest, grant: int)
    | ConsumeCredit(user: Digest, amount: int)
    | InsertUnit(unit: UnitRow)
    | SumUnits(user: Digest, from: int, to: int)

  datatype Reply =
    | Acked
    | NoRows
    | SubscriptionCell(cell: NullString)
    | AccountRow(user: Digest, account: Account)
    | Number(n: int)
    | SubscriptionRecord(subscription: Subscription)
    | CustomerRecord(email: string)
    | FkViolation
    | Failure

  predicate HasUnit(units: seq<UnitRow>, externalId: Digest) {
    exists r | r in units :: r.externalId == externalId
  }

  function Coalesce(a: NullString, b: NullString): NullString {
    if a.Some? then a else b
  }

  function Merged(now: Account, later: Account): Account {
    Account(
      Coalesce(later.subscriptionId, now.subscriptionId),
      Coalesce(later.planId, now.planId),
      Coalesce(later.customerId, now.customerId))
  }

  /** credit - LEAST(credit, amount) */
  function Spend(credit: int, amount: int): int {
    credit - Min(credit, amount)
  }

  /** The spending of one user, over all rows. */
  function SumFor(user: Digest, units: seq<UnitRow>): int {
    if units == [] then 0
    else
      var last := units[|units| - 1];
      SumFor(user, units[..|units| - 1]) + if last.user == user then last.amount else 0
  }

  /** The spending of one user with created_at between from and to, both included. */
  function SumBetween(user: Digest, from: int, to: int, units: seq<UnitRow>): int {
    if units == [] then 0
    else
      var last := units[|units| - 1];
      SumBetween(user, from, to, units[..|units| - 1])
      + if last.user == user && from <= last.createdAt <= to then last.amount else 0
  }

  function Exec(t: Tables, stmt: Statement): (Tables, Reply) {
    match stmt
    case UpsertAccount(user, sub, plan, customer) =>
      var later := Account(sub, plan, customer);
      var row := if user in t.accounts then Merged(t.accounts[user], later) else later;
      (t.(accounts := t.accounts[user := row]), Acked)
    case SelectSubscription(user) =>
      (t, if user in t.accounts then SubscriptionCell(t.accounts[user].subscriptionId) else NoRows)
    case SelectAccount(user) =>
      (t, if user in t.accounts then AccountRow(user, t.accounts[user]) else NoRows)
    case InsertInvalid(row) =>
      if row.user in t.accounts then (t.(invalid := t.invalid + [row]), Acked) else (t, FkViolation)
    case UpsertCredit(user, grant) =>
      if user in t.credit then (t, Number(t.credit[user]))
      else if user !in t.accounts then (t, FkViolation)
      else (t.(credit := t.credit[user := grant]), Number(grant))
    case ConsumeCredit(user, amount) =>
      if user !in t.credit then (t, Acked)
      else
        var left := Spend(t.credit[user], amount);
        if IsInt32(left) then (t.(credit := t.credit[user := left]), Acked) else (t, Failure)
    case InsertUnit(unit) =>
      if HasUnit(t.units, unit.externalId) then (t, Number(0))
      else if unit.user !in t.accounts then (t, FkViolation)
      else (t.(units := t.units + [unit]), Number(1))
    case SumUnits(user, from, to) =>
      (t, Number(SumBetween(user, from, to, t.units)))
  }

  /**
   What happens to one external call: it works, it fails before it has any effect, or its effect
   commits and the caller still sees an error.
   */
  datatype Fault = Works | FailsBefore | FailsAfter

  function Attempt(fault: Fault, t: Tables, stmt: Statement): (Tables, Reply) {
    match fault
    case Works => Exec(t, stmt)
    case FailsBefore => (t, Failure)
    case FailsAfter => (Exec(t, stmt).0, Failure)
  }

  // ----- what the statements keep

  /** Later tables still hold every row of the earlier ones; only cells of accounts and credits may differ. */
  ghost predicate Grows(t: Tables, u: Tables) {
    && t.accounts.Keys <= u.accounts.Keys
    && t.credit.Keys <= u.credit.Keys
    && t.invalid <= u.invalid
    && t.units <= u.units
  }

  ghost predicate DistinctUnits(units: seq<UnitRow>) {
    forall i, j :: 0 <= i < j < |units| ==> units[i].externalId != units[j].externalId
  }

  /** Foreign keys hold, external ids are unique, and every user with spending has a credit row. */
  ghost predicate Chained(t: Tables) {
    && t.credit.Keys <= t.accounts.Keys
    && (forall r :: r in t.units ==> r.user in t.credit)
    && (forall r :: r in t.invalid ==> r.user in t.accounts)
    && DistinctUnits(t.units)
  }

  lemma AttemptGrows(fault: Fault, t: Tables, stmt: Statement)
    ensures Grows(t, Attempt(fault, t, stmt).0)
  {
  }

  /** The database keeps the chain by itself, except that spending may only be inserted for a user with credit. */
  lemma AttemptKeepsChain(fault: Fault, t: Tables, stmt: Statement)
    requires Chained(t)
    requires stmt.InsertUnit? ==> stmt.unit.user in t.credit
    ensures Chained(Attempt(fault, t, stmt).0)
  {
    var u := Attempt(fault, t, stmt).0;
    if stmt.InsertUnit? && u != t {
      assert forall i :: 0 <= i < |t.units| ==> t.units[i] in t.units;
    }
  }

  // ----- sums

  lemma {:induction false} SumForConcat(user: Digest, a: seq<UnitRow>, b: seq<UnitRow>)
    ensures SumFor(user, a + b) == SumFor(user, a) + SumFor(user, b)
  {
    if b == [] {
      assert a + b == a;
    } else {
      SumForConcat(user, a, b[..|b| - 1]);
      assert (a + b)[..|a + b| - 1] == a + b[..|b| - 1];
    }
  }

  lemma SumForOne(user: Digest, r: UnitRow)
    ensures SumFor(user, [r]) == if r.user == user then r.amount else 0
  {
    assert [r][..0] == [];
  }

  lemma SumForSnoc(user: Digest, a: seq<UnitRow>, r: UnitRow)
    ensures SumFor(user, a + [r]) == SumFor(user, a) + if r.user == user then r.amount else 0
  {
    assert (a + [r])[..|a|] == a;
  }

  lemma SumForWithout(user: Digest, units: seq<UnitRow>, k: nat)
    requires k < |units|
    ensures SumFor(user, units) == SumFor(user, Without(units, k)) + SumFor(user, [units[k]])
  {
    SumForConcat(user, units[..k], units[k + 1..]);
    SumForConcat(user, units[..k], [units[k]]);
    SumForConcat(user, units[..k] + [units[k]], units[k + 1..]);
    assert units == units[..k] + [units[k]] + units[k + 1..];
  }

  /** A user's spending does not depend on the order of the rows. */
  lemma {:induction false} SumForPermutation(user: Digest, a: seq<UnitRow>, b: seq<UnitRow>)
    requires multiset(a) == multiset(b)
    ensures SumFor(user, a) == SumFor(user, b)
  {
    if a == [] {
      assert |multiset(b)| == 0;
    } else {
      var r := a[0];
      assert r in multiset(b);
      var k :| 0 <= k < |b| && b[k] == r;
      WithoutMultiset(a, 0);
      WithoutMultiset(b, k);
      assert multiset(Without(a, 0)) == multiset(a) - multiset{r};
      assert multiset(Without(b, k)) == multiset(b) - multiset{r};
      SumForPermutation(user, Without(a, 0), Without(b, k));
      SumForWithout(user, a, 0);
      SumForWithout(user, b, k);
    }
  }

  /** Part of some positive rows sums to at most the whole. */
  lemma {:induction false} SumForPart(user: Digest, part: seq<UnitRow>, whole: seq<UnitRow>)
    requires multiset(part) <= multiset(whole)
    requires forall r :: r in whole ==> r.amount > 0
    ensures 0 <= SumFor(user, part) <= SumFor(user, whole)
  {
    if part == [] {
      SumForPositive(user, whole);
    } else {
      hide SumFor, Without;
      var r := part[0];
      assert r in multiset(whole);
      var k :| 0 <= k < |whole| && whole[k] == r;
      PartWithout(part, whole, k);
      assert forall x :: x in Without(whole, k) ==> x in multiset(Without(whole, k));
      SumForPart(user, Without(part, 0), Without(whole, k));
      SumForWithout(user, part, 0);
      SumForWithout(user, whole, k);
      SumForOne(user, r);
    }
  }

  lemma {:induction false} SumForPositive(user: Digest, units: seq<UnitRow>)
    requires forall r :: r in units ==> r.amount > 0
    ensures SumFor(user, units) >= 0
    ensures SumFor(user, units) == 0 <==> forall r :: r in units ==> r.user != user
  {
    if units != [] {
      var front := units[..|units| - 1];
      assert units == front + [units[|units| - 1]];
      SumForPositive(user, front);
    }
  }

  /** The rows with created_at between from and to, both included. */
  function Within(from: int, to: int, units: seq<UnitRow>): seq<UnitRow> {
    if units == [] then []
    else
      var last := units[|units| - 1];
      Within(from, to, units[..|units| - 1]) + if from <= last.createdAt <= to then [last] else []
  }

  /** A windowed sum is the user's spending over the rows of the window. */
  lemma {:induction false} SumBetweenIsWindow(user: Digest, from: int, to: int, units: seq<UnitRow>)
    ensures SumBetween(user, from, to, units) == SumFor(user, Within(from, to, units))
  {
    if units != [] {
      var front, last := units[..|units| - 1], units[|units| - 1];
      SumBetweenIsWindow(user, from, to, front);
      SumForSnoc(user, Within(from, to, front), last);
      assert Within(from, to, front) + [] == Within(from, to, front);
    }
  }

  /** A window that holds all rows holds all the spending. */
  lemma {:induction false} WholeWindow(user: Digest, from: int, to: int, units: seq<UnitRow>)
    requires forall r :: r in units ==> from <= r.createdAt <= to
    ensures SumBetween(user, from, to, units) == SumFor(user, units)
  {
    if units != [] {
      WholeWindow(user, from, to, units[..|units| - 1]);
    }
  }

  /** One more row: of the user and in the window it adds its amount, otherwise it changes nothing. */
  lemma OneMoreRow(user: Digest, from: int, to: int, units: seq<UnitRow>, r: UnitRow)
    ensures r.user == user && from <= r.createdAt <= to ==>
      SumBetween(user, from, to, units + [r]) == SumBetween(user, from, to, units) + r.amount
    ensures r.user != user || r.createdAt < from || r.createdAt > to ==>
      SumBetween(user, from, to, units + [r]) == SumBetween(user, from, to, units)
  {
    assert (units + [r])[..|units|] == units;
  }

  /** The rows of one user. */
  function OwnRows(user: Digest, units: seq<UnitRow>): seq<UnitRow> {
    if units == [] then []
    else
      var last := units[|units| - 1];
      OwnRows(user, units[..|units| - 1]) + if last.user == user then [last] else []
  }

  /** Other users' rows never count. */
  lemma {:induction false} SumOfOwnRows(user: Digest, from: int, to: int, units: seq<UnitRow>)
    ensures SumBetween(user, from, to, units) == SumBetween(user, from, to, OwnRows(user, units))
  {
    if units != [] {
      var front, last := units[..|units| - 1], units[|units| - 1];
      SumOfOwnRows(user, from, to, front);
      OneMoreRow(user, from, to, OwnRows(user, front), last);
      OneMoreRow(user, from, to, front, last);
      assert front + [last] == units;
      assert OwnRows(user, front) + [] == OwnRows(user, front);
    }
  }

  /** Adjacent windows add up. */
  lemma {:induction false} WindowsAdd(user: Digest, a: int, b: int, c: int, units: seq<UnitRow>)
    requires a <= b <= c
    ensures SumBetween(user, a, b, units) + SumBetween(user, b + 1, c, units) == SumBetween(user, a, c, units)
  {
    if units != [] {
      WindowsAdd(user, a, b, c, units[..|units| - 1]);
    }
  }

  /** Back-to-back periods share their boundary: its spending, and nothing else, is counted twice. */
  lemma {:induction false} SharedBoundary(user: Digest, a: int, b: int, c: int, units: seq<UnitRow>)
    requires a <= b <= c
    ensures SumBetween(user, a, b, units) + SumBetween(user, b, c, units)
         == SumBetween(user, a, c, units) + SumBetween(user, b, b, units)
  {
    if units != [] {
      SharedBoundary(user, a, b, c, units[..|units| - 1]);
    }
  }

  /** Added rows never lower a window's sum. */
  lemma {:induction false} WindowGrows(user: Digest, a: int, b: int, units: seq<UnitRow>, more: seq<UnitRow>)
    requires units <= more
    requires forall r :: r in more ==> r.amount > 0
    ensures SumBetween(user, a, b, units) <= SumBetween(user, a, b, more)
  {
    if units == more {
    } else {
      var front := more[..|more| - 1];
      assert forall r :: r in front ==> r in more;
      WindowGrows(user, a, b, units, front);
    }
  }

  // ----- the account merge

  function Upserted(t: Tables, user: Digest, row: Account): Tables {
    Exec(t, UpsertAccount(user, row.subscriptionId, row.planId, row.customerId)).0
  }

  function UpsertedAll(t: Tables, user: Digest, rows: seq<Account>): Tables {
    if rows == [] then t else Upserted(UpsertedAll(t, user, rows[..|rows| - 1]), user, rows[|rows| - 1])
  }

  ghost predicate IsLastWrite(writes: seq<NullString>, i: int) {
    0 <= i < |writes| && writes[i].Some? && forall j :: i < j < |writes| ==> writes[j].None?
  }

  /** now holds the last value written to the cell, or the earlier value when none was. */
  ghost predicate LastWritten(writes: seq<NullString>, before: NullString, now: NullString) {
    || (now == before && forall i :: 0 <= i < |writes| ==> writes[i].None?)
    || (exists i :: IsLastWrite(writes, i) && now == writes[i])
  }

  lemma LastWrittenStep(writes: seq<NullString>, more: seq<NullString>, before: NullString, now: NullString)
    requires |more| == |writes| + 1 && writes <= more
    requires LastWritten(writes, before, now)
    ensures LastWritten(more, before, Coalesce(more[|writes|], now))
  {
    if more[|writes|].Some? {
      assert IsLastWrite(more, |writes|);
    } else if now == before && forall i :: 0 <= i < |writes| ==> writes[i].None? {
      assert forall i :: 0 <= i < |more| ==> more[i].None?;
    } else {
      var i :| IsLastWrite(writes, i) && now == writes[i];
      assert IsLastWrite(more, i);
    }
  }

  function SubscriptionIds(rows: seq<Account>): seq<NullString> {
    seq(|rows|, i requires 0 <= i < |rows| => rows[i].subscriptionId)
  }

  function PlanIds(rows: seq<Account>): seq<NullString> {
    seq(|rows|, i requires 0 <= i < |rows| => rows[i].planId)
  }

  function CustomerIds(rows: seq<Account>): seq<NullString> {
    seq(|rows|, i requires 0 <= i < |rows| => rows[i].customerId)
  }

  /** Every cell of now is the last one that rows wrote to it, or before's when none did. */
  ghost predicate CellwiseLast(rows: seq<Account>, before: Account, now: Account) {
    && LastWritten(SubscriptionIds(rows), before.subscriptionId, now.subscriptionId)
    && LastWritten(PlanIds(rows), before.planId, now.planId)
    && LastWritten(CustomerIds(rows), before.customerId, now.customerId)
  }

  lemma CellwiseLastStep(rows: seq<Account>, row: Account, before: Account, now: Account)
    requires CellwiseLast(rows, before, now)
    ensures CellwiseLast(rows + [row], before, Merged(now, row))
  {
    LastWrittenStep(SubscriptionIds(rows), SubscriptionIds(rows + [row]), before.subscriptionId, now.subscriptionId);
    LastWrittenStep(PlanIds(rows), PlanIds(rows + [row]), before.planId, now.planId);
    LastWrittenStep(CustomerIds(rows), CustomerIds(rows + [row]), before.customerId, now.customerId);
  }

  function AccountOf(t: Tables, user: Digest): Account {
    if user in t.accounts then t.accounts[user] else NO_SUBSCRIPTION
  }

  lemma UpsertMerges(t: Tables, user: Digest, row: Account)
    ensures Upserted(t, user, row) == t.(accounts := t.accounts[user := Merged(AccountOf(t, user), row)])
    ensures AccountOf(Upserted(t, user, row), user) == Merged(AccountOf(t, user), row)
  {
    assert user !in t.accounts ==> Merged(NO_SUBSCRIPTION, row) == row;
  }

  lemma NothingWritten(account: Account)
    ensures CellwiseLast([], account, account)
  {
  }

  /** Any sequence of upserts leaves every cell at its last non-NULL argument and touches no other row or table. */
  lemma {:induction false} UpsertsMerge(t: Tables, user: Digest, rows: seq<Account>)
    requires rows != []
    ensures var u := UpsertedAll(t, user, rows);
      && u == t.(accounts := t.accounts[user := AccountOf(u, user)])
      && CellwiseLast(rows, AccountOf(t, user), AccountOf(u, user))
  {
    hide CellwiseLast, Merged, Upserted;
    var front, last := rows[..|rows| - 1], rows[|rows| - 1];
    var mid := UpsertedAll(t, user, front);
    if front == [] {
      NothingWritten(AccountOf(t, user));
    } else {
      UpsertsMerge(t, user, front);
    }
    UpsertMerges(mid, user, last);
    CellwiseLastStep(front, last, AccountOf(t, user), AccountOf(mid, user));
    assert rows == front + [last];
  }

  /** The on-demand upsert with no Stripe ids never changes an account that exists. */
  lemma EmptyUpsertIsIdentity(t: Tables, user: Digest)
    requires user in t.accounts
    ensures Upserted(t, user, NO_SUBSCRIPTION) == t
  {
    assert Upserted(t, user, NO_SUBSCRIPTION).accounts == t.accounts;
  }

  // ----- clamped spending

  /** The credit left of g after charges of total s: untouched without a charge, otherwise clamped at zero. */
  function Balance(g: int, s: int): int {
    if s == 0 then g else Max(0, g - s)
  }

  /** Clamping one charge at a time is clamping the total, whatever the starting credit. */
  lemma SpendBalance(g: int, s: int, amount: int)
    requires s >= 0 && amount > 0
    ensures Spend(Balance(g, s), amount) == Balance(g, s + amount)
  {
  }
}
