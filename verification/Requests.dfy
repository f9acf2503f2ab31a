/**
 The RPCs as small-step programs. A program point carries everything the handler holds at that
 point; between two points lies exactly one external call, a SQL statement or a Stripe request.
 */
module Requests {
  import opened Prelude
  import opened Identity
  import opened Gateway
  import opened Tables

  /** An item of the AddSpendingUnits message; amount is an int32 there. */
  datatype RpcItem = RpcItem(externalId: Bytes, userId: Bytes, amount: Int32, createdAt: int)

  /** The same item in the ledger, where amount is a Go int. */
  datatype SpendingUnit = SpendingUnit(externalId: Bytes, userId: Bytes, amount: int, createdAt: int)

  /** A decoded checkout.session.completed event; a missing object is the empty string. */
  datatype Event = Event(user: Bytes, customerId: string, subscriptionId: string)

  datatype Request =
    | AddUnits(items: seq<RpcItem>)
    | Verify(user: Bytes)
    | Checkout(event: Event)

  datatype Error = BadRequest | BadItem | BadEvent | DatabaseError | GatewayError | BadPlan | BadConfig

  datatype Invalidity = NoSubscription | Cancelled | Exhausted | Other

  datatype Verdict = FreeTier | PayingCustomer(email: string) | Invalid(why: Invalidity, email: string)

  datatype Answer = Added(total: int) | Judged(verdict: Verdict) | Handled | Failed(error: Error)

  /** The ledger loop at an item: that item, those after it, the users already ensured, the running total. */
  datatype Loop = Loop(item: SpendingUnit, rest: seq<SpendingUnit>, ensured: set<Bytes>, total: int)

  /** What a call of GetFreeCredit returns into. */
  datatype Goal = ThenInsert(loop: Loop) | ThenVerdict | ThenFinish

  datatype Pc =
    | EnsureCredit(user: Bytes, goal: Goal)
    | EnsureAccount(user: Bytes, goal: Goal)
    | EnsureCreditAgain(user: Bytes, goal: Goal)
    | Insert(loop: Loop)
    | Charge(loop: Loop)
    | CheckAccount(event: Event)
    | FetchPrevious(event: Event, previous: string)
    | Store(event: Event, seen: NullString)
    | RecordInvalid(event: Event)
    | RecordInvalidAccount(event: Event)
    | RecordInvalidAgain(event: Event)
    | ReadAccount(user: Bytes)
    | FetchCurrent(user: Bytes, account: Account)
    | FetchCustomer(user: Bytes, account: Account, subscription: Subscription)
    | CountSpending(user: Bytes, subscription: Subscription, email: string)
    | Finished(answer: Answer)

  // ----- entering a request

  predicate Accepted(it: SpendingUnit) {
    it.externalId != [] && it.userId != [] && it.amount > 0 && it.createdAt != 0
  }

  /** An item as the RPC hands it over: accepted, with an amount that is an int32. */
  predicate ItemOk(it: SpendingUnit) {
    Accepted(it) && IsInt32(it.amount)
  }

  predicate AcceptedRpc(it: RpcItem) {
    it.externalId != [] && it.userId != [] && it.amount > 0 && it.createdAt != 0
  }

  function Converted(items: seq<RpcItem>): (units: seq<SpendingUnit>)
    ensures |units| == |items|
  {
    seq(|items|, i requires 0 <= i < |items| =>
      SpendingUnit(items[i].externalId, items[i].userId, items[i].amount, items[i].createdAt))
  }

  /** The memo is right: its users all have credit. */
  ghost predicate EnsuredOk(cfg: Config, t: Tables, ensured: set<Bytes>) {
    forall raw :: raw in ensured ==> Key(cfg, raw) in t.credit
  }

  /** The head of the ledger loop: validate the next item, and ensure its user's credit unless that was done. */
  function NextItem(items: seq<SpendingUnit>, ensured: set<Bytes>, total: int): Pc {
    if items == [] then Finished(Added(total))
    else if !Accepted(items[0]) then Finished(Failed(BadItem))
    else
      var loop := Loop(items[0], items[1..], ensured, total);
      if items[0].userId in ensured then Insert(loop) else EnsureCredit(items[0].userId, ThenInsert(loop))
  }

  function Start(req: Request): Pc {
    match req
    case AddUnits(items) =>
      if items == [] || exists it | it in items :: !AcceptedRpc(it) then Finished(Failed(BadRequest))
      else NextItem(Converted(items), {}, 0)
    case Verify(user) =>
      if user == [] then Finished(Failed(BadRequest)) else EnsureCredit(user, ThenVerdict)
    case Checkout(event) =>
      if event.user == [] || event.customerId == "" || event.subscriptionId == "" then Finished(Failed(BadEvent))
      else CheckAccount(event)
  }

  // ----- the call a program point makes

  datatype Call = Query(stmt: Statement) | GetSubscription(id: string) | GetCustomer(id: string)

  /** toNullString */
  function ToNull(s: string): NullString {
    if s == "" then None else Some(s)
  }

  function FromNull(s: NullString): string {
    if s.Some? then s.value else ""
  }

  /** The empty string is NULL and nothing else is; reading it back gives the string. */
  lemma NullRoundTrip(s: string)
    ensures FromNull(ToNull(s)) == s
    ensures ToNull(s).None? <==> s == ""
  {
  }

  function Grant(cfg: Config): int {
    ToInt32(cfg.initialFreeCredit)
  }

  function UnitRowOf(cfg: Config, it: SpendingUnit): UnitRow {
    UnitRow(Key(cfg, it.externalId), Key(cfg, it.userId), ToInt32(it.amount), it.createdAt)
  }

  const PLAN_PLACEHOLDER := "no_need"

  function CheckoutRow(event: Event): Account {
    Account(ToNull(event.subscriptionId), Some(PLAN_PLACEHOLDER), ToNull(event.customerId))
  }

  function InvalidRowOf(cfg: Config, event: Event): InvalidRow {
    InvalidRow(Key(cfg, event.user), ToNull(event.subscriptionId), Some(PLAN_PLACEHOLDER), ToNull(event.customerId))
  }

  function CallOf(cfg: Config, pc: Pc): Call
    requires !pc.Finished?
  {
    match pc
    case EnsureCredit(user, _) => Query(UpsertCredit(Key(cfg, user), Grant(cfg)))
    case EnsureAccount(user, _) => Query(UpsertAccount(Key(cfg, user), None, None, None))
    case EnsureCreditAgain(user, _) => Query(UpsertCredit(Key(cfg, user), Grant(cfg)))
    case Insert(loop) => Query(InsertUnit(UnitRowOf(cfg, loop.item)))
    case Charge(loop) => Query(ConsumeCredit(Key(cfg, loop.item.userId), ToInt32(loop.item.amount)))
    case CheckAccount(event) => Query(SelectSubscription(Key(cfg, event.user)))
    case FetchPrevious(_, previous) => GetSubscription(previous)
    case Store(event, _) =>
      var row := CheckoutRow(event);
      Query(UpsertAccount(Key(cfg, event.user), row.subscriptionId, row.planId, row.customerId))
    case RecordInvalid(event) => Query(InsertInvalid(InvalidRowOf(cfg, event)))
    case RecordInvalidAccount(event) => Query(UpsertAccount(Key(cfg, event.user), None, None, None))
    case RecordInvalidAgain(event) => Query(InsertInvalid(InvalidRowOf(cfg, event)))
    case ReadAccount(user) => Query(SelectAccount(Key(cfg, user)))
    case FetchCurrent(_, account) => GetSubscription(FromNull(account.subscriptionId))
    case FetchCustomer(_, account, _) => GetCustomer(FromNull(account.customerId))
    case CountSpending(user, sub, _) =>
      Query(SumUnits(Key(cfg, user), ToInt64(sub.periodStart * 1000), ToInt64(sub.periodEnd * 1000)))
  }

  function Effect(cfg: Config, stripe: Stripe, fault: Fault, t: Tables, pc: Pc): (Tables, Reply)
    requires !pc.Finished?
  {
    match CallOf(cfg, pc)
    case Query(stmt) => Attempt(fault, t, stmt)
    case GetSubscription(id) =>
      (t, if fault.Works? && id in stripe.subscriptions then SubscriptionRecord(stripe.subscriptions[id]) else Failure)
    case GetCustomer(id) =>
      (t, if fault.Works? && id in stripe.customers then CustomerRecord(stripe.customers[id]) else Failure)
  }

  // ----- where the handler goes with the reply

  const ACCOUNT_WITHOUT_SUBSCRIPTION := "accountWithoutSubscription"

  function ReturnCredit(user: Bytes, goal: Goal, credit: int): Pc {
    match goal
    case ThenInsert(loop) => Insert(loop.(ensured := loop.ensured + {user}))
    case ThenVerdict => if credit > 0 then Finished(Judged(FreeTier)) else ReadAccount(user)
    case ThenFinish => Finished(Handled)
  }

  /** The last step of VerifySubscription: period spending against the subscription's allowance. */
  function Judge(cfg: Config, sub: Subscription, spent: int, email: string): Answer {
    if sub.planAmount.None? || sub.planAmount.value == 0 || sub.quantity == 0 then Failed(BadPlan)
    else if cfg.unitsPerDollar.None? || cfg.unitsPerDollar.value <= 0 then Failed(BadConfig)
    else if spent > Limit(sub.planAmount.value, sub.quantity, cfg.unitsPerDollar.value) then
      Judged(Invalid(Exhausted, email))
    else Judged(PayingCustomer(email))
  }

  function Resume(cfg: Config, now: int, pc: Pc, reply: Reply): Pc
    requires !pc.Finished?
  {
    match pc
    case EnsureCredit(user, goal) =>
      (match reply
       case Number(n) => ReturnCredit(user, goal, n)
       case FkViolation => EnsureAccount(user, goal)
       case _ => Finished(Failed(DatabaseError)))
    case EnsureAccount(user, goal) =>
      if reply.Acked? then EnsureCreditAgain(user, goal) else Finished(Failed(DatabaseError))
    case EnsureCreditAgain(user, goal) =>
      if reply.Number? then ReturnCredit(user, goal, reply.n) else Finished(Failed(DatabaseError))
    case Insert(loop) =>
      if !reply.Number? then Finished(Failed(DatabaseError))
      else
        var total := loop.total + reply.n;
        if reply.n > 0 then Charge(loop.(total := total)) else NextItem(loop.rest, loop.ensured, total)
    case Charge(loop) =>
      if reply.Acked? then NextItem(loop.rest, loop.ensured, loop.total) else Finished(Failed(DatabaseError))
    case CheckAccount(event) =>
      (match reply
       case NoRows => Store(event, None)
       case SubscriptionCell(cell) => if FromNull(cell) == "" then Store(event, None) else FetchPrevious(event, cell.value)
       case _ => Finished(Failed(DatabaseError)))
    case FetchPrevious(event, previous) =>
      if !reply.SubscriptionRecord? then Finished(Failed(GatewayError))
      else if IsCancelled(reply.subscription, now) then Store(event, Some(previous))
      else RecordInvalid(event)
    case Store(event, _) =>
      if reply.Acked? then EnsureCredit(event.user, ThenFinish) else Finished(Failed(DatabaseError))
    case RecordInvalid(event) =>
      (match reply
       case Acked => EnsureCredit(event.user, ThenFinish)
       case FkViolation => RecordInvalidAccount(event)
       case _ => Finished(Failed(DatabaseError)))
    case RecordInvalidAccount(event) =>
      if reply.Acked? then RecordInvalidAgain(event) else Finished(Failed(DatabaseError))
    case RecordInvalidAgain(event) =>
      if reply.Acked? then EnsureCredit(event.user, ThenFinish) else Finished(Failed(DatabaseError))
    case ReadAccount(user) =>
      (match reply
       case NoRows => Finished(Judged(Invalid(NoSubscription, "")))
       case AccountRow(key, account) =>
         if key == ACCOUNT_WITHOUT_SUBSCRIPTION || FromNull(account.subscriptionId) == "" then
           Finished(Judged(Invalid(NoSubscription, "")))
         else FetchCurrent(user, account)
       case _ => Finished(Failed(DatabaseError)))
    case FetchCurrent(user, account) =>
      if reply.SubscriptionRecord? then FetchCustomer(user, account, reply.subscription)
      else Finished(Failed(GatewayError))
    case FetchCustomer(user, _, sub) =>
      if !reply.CustomerRecord? then Finished(Failed(GatewayError))
      else if IsCancelled(sub, now) then Finished(Judged(Invalid(Cancelled, reply.email)))
      else if sub.status != Active then Finished(Judged(Invalid(Other, reply.email)))
      else CountSpending(user, sub, reply.email)
    case CountSpending(_, sub, email) =>
      if reply.Number? then Finished(Judge(cfg, sub, reply.n, email)) else Finished(Failed(DatabaseError))
  }

  // ----- one request served alone

  function GoalRank(goal: Goal): nat {
    match goal
    case ThenInsert(loop) => 6 * |loop.rest| + 2
    case ThenVerdict => 4
    case ThenFinish => 0
  }

  /** An upper bound on the calls a request still makes. */
  function CallsLeft(pc: Pc): nat {
    match pc
    case EnsureCredit(_, goal) => GoalRank(goal) + 4
    case EnsureAccount(_, goal) => GoalRank(goal) + 3
    case EnsureCreditAgain(_, goal) => GoalRank(goal) + 2
    case Insert(loop) => 6 * |loop.rest| + 2
    case Charge(loop) => 6 * |loop.rest| + 1
    case CheckAccount(_) => 10
    case FetchPrevious(_, _) => 9
    case Store(_, _) => 8
    case RecordInvalid(_) => 8
    case RecordInvalidAccount(_) => 7
    case RecordInvalidAgain(_) => 6
    case ReadAccount(_) => 4
    case FetchCurrent(_, _) => 3
    case FetchCustomer(_, _, _) => 2
    case CountSpending(_, _, _) => 1
    case Finished(_) => 0
  }

  /** Every call brings the request closer to its answer, whatever the reply. */
  lemma CallsDecrease(cfg: Config, now: int, pc: Pc, reply: Reply)
    requires !pc.Finished?
    ensures CallsLeft(Resume(cfg, now, pc, reply)) < CallsLeft(pc)
  {
  }

  datatype Ran = Ran(tables: Tables, tick: nat, answer: Answer)

  /** The request run to its answer with nothing beside it; faults(n) befalls the n-th external call. */
  function RunAlone(cfg: Config, stripe: Stripe, faults: nat -> Fault, t: Tables, tick: nat, pc: Pc): Ran
    decreases CallsLeft(pc)
  {
    if pc.Finished? then Ran(t, tick, pc.answer)
    else
      var (u, reply) := Effect(cfg, stripe, faults(tick), t, pc);
      var next := Resume(cfg, stripe.now, pc, reply);
      CallsDecrease(cfg, stripe.now, pc, reply);
      RunAlone(cfg, stripe, faults, u, tick + 1, next)
  }
}
