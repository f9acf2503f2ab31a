/**
 Working on sanitised ids: stripping the punctuation from every id of a request changes nothing, for a request
 served alone and for whole runs of the interleaved system.
 */
module Names {
  import opened Identity
  import opened Gateway
  import opened Tables
  import opened Requests
  import opened Serving
  import opened Batch
  import opened System
  import Billing

  function CleanItem(it: RpcItem): RpcItem {
    it.(externalId := Alnum(it.externalId), userId := Alnum(it.userId))
  }

  function CleanItems(items: seq<RpcItem>): (clean: seq<RpcItem>)
    ensures |clean| == |items|
  {
    seq(|items|, i requires 0 <= i < |items| => CleanItem(items[i]))
  }

  /** The request with every user id and event id reduced to its letters and digits. */
  function CleanRequest(req: Request): Request {
    match req
    case AddUnits(items) => AddUnits(CleanItems(items))
    case Verify(user) => Verify(Alnum(user))
    case Checkout(event) => Checkout(event.(user := Alnum(event.user)))
  }

  predicate Usable(id: Bytes) {
    id != [] ==> Alnum(id) != []
  }

  /** No id consists of punctuation only. */
  predicate UsableIds(req: Request) {
    match req
    case AddUnits(items) => forall it :: it in items ==> Usable(it.externalId) && Usable(it.userId)
    case Verify(user) => Usable(user)
    case Checkout(event) => Usable(event.user)
  }

  /** The request passed the RPC's and the webhook's own checks. */
  predicate TakenUp(answer: Answer) {
    answer != Failed(BadRequest) && answer != Failed(BadEvent)
  }

  lemma CleanKey(cfg: Config, raw: Bytes)
    ensures Key(cfg, Alnum(raw)) == Key(cfg, raw)
  {
    AlnumIdempotent(raw);
  }

  lemma AlnumEmpty()
    ensures Alnum([]) == []
  {
  }

  /** A cleaned request differs from the raw one in its user and event ids only, and those are the letters and digits. */
  lemma CleanedFields(req: Request)
    ensures req.Verify? ==> CleanRequest(req) == Verify(Alnum(req.user))
    ensures req.Checkout? ==>
      CleanRequest(req) == Checkout(Event(Alnum(req.event.user), req.event.customerId, req.event.subscriptionId))
    ensures req.AddUnits? ==>
      && CleanRequest(req).AddUnits? && |CleanRequest(req).items| == |req.items|
      && forall i :: 0 <= i < |req.items| ==>
        var it := req.items[i];
        CleanRequest(req).items[i] == RpcItem(Alnum(it.externalId), Alnum(it.userId), it.amount, it.createdAt)
  {
  }

  function CleanUnit(it: SpendingUnit): SpendingUnit {
    it.(externalId := Alnum(it.externalId), userId := Alnum(it.userId))
  }

  lemma PostedClean(cfg: Config, t: Tables, it: SpendingUnit)
    ensures Posted(cfg, t, CleanUnit(it)) == Posted(cfg, t, it)
  {
    CleanKey(cfg, it.externalId);
    CleanKey(cfg, it.userId);
    assert UnitRowOf(cfg, CleanUnit(it)) == UnitRowOf(cfg, it);
  }

  lemma {:induction false} PostedAllClean(cfg: Config, t: Tables, items: seq<SpendingUnit>, clean: seq<SpendingUnit>)
    requires |clean| == |items| && forall i :: 0 <= i < |items| ==> clean[i] == CleanUnit(items[i])
    ensures PostedAll(cfg, t, clean) == PostedAll(cfg, t, items)
  {
    if items != [] {
      var n := |items| - 1;
      PostedAllClean(cfg, t, items[..n], clean[..n]);
      PostedClean(cfg, PostedAll(cfg, t, items[..n]), items[n]);
    }
  }

  predicate BatchAccepted(items: seq<RpcItem>) {
    items != [] && forall i :: 0 <= i < |items| ==> AcceptedRpc(items[i])
  }

  lemma ServeAddUnits(cfg: Config, stripe: Stripe, t: Tables, items: seq<RpcItem>)
    requires WellFormed(t)
    ensures var end := PostedAll(cfg, t, Converted(items));
      Serve(cfg, stripe, t, Start(AddUnits(items)))
      == if BatchAccepted(items) then Served(end, Added(|end.units| - |t.units|)) else Served(t, Failed(BadRequest))
    ensures BatchAccepted(items) ==> ItemsOk(Converted(items))
  {
    hide PostedAll;
    if BatchAccepted(items) {
      var units := Converted(items);
      forall it | it in units
        ensures ItemOk(it)
      {
        var i :| 0 <= i < |units| && units[i] == it;
      }
      forall it | it in items
        ensures AcceptedRpc(it)
      {
        var i :| 0 <= i < |items| && items[i] == it;
      }
      assert Start(AddUnits(items)) == NextItem(units, {}, 0);
      ServeBatch(cfg, stripe, t, units);
    } else if items != [] {
      var i :| 0 <= i < |items| && !AcceptedRpc(items[i]);
      assert items[i] in items;
    }
  }

  /** Serving the cleaned request does the same to the tables and gives the same answer. */
  lemma ServeClean(cfg: Config, stripe: Stripe, t: Tables, req: Request)
    requires WellFormed(t) && UsableIds(req)
    ensures Serve(cfg, stripe, t, Start(CleanRequest(req))) == Serve(cfg, stripe, t, Start(req))
  {
    hide Serve, PostedAll, CheckedOut, Judgement, Ensured;
    AlnumEmpty();
    match req
    case AddUnits(items) =>
      var clean := CleanItems(items);
      ServeAddUnits(cfg, stripe, t, items);
      ServeAddUnits(cfg, stripe, t, clean);
      forall i | 0 <= i < |items|
        ensures AcceptedRpc(clean[i]) <==> AcceptedRpc(items[i])
      {
        assert items[i] in items;
        AlnumEmpty();
      }
      assert BatchAccepted(clean) <==> BatchAccepted(items);
      PostedAllClean(cfg, t, Converted(items), Converted(clean));
    case Verify(user) =>
      CleanKey(cfg, user);
      if user != [] {
        ServeVerify(cfg, stripe, t, user);
        ServeVerify(cfg, stripe, t, Alnum(user));
      }
    case Checkout(event) =>
      var clean := event.(user := Alnum(event.user));
      CleanKey(cfg, event.user);
      if EventOk(event) {
        ServeCheckout(cfg, stripe, t, event);
        ServeCheckout(cfg, stripe, t, clean);
        CheckedOutClean(cfg, stripe, t, event);
      } else {
        BadCheckout(cfg, stripe, t, event);
        BadCheckout(cfg, stripe, t, clean);
      }
  }

  lemma BadCheckout(cfg: Config, stripe: Stripe, t: Tables, event: Event)
    requires !EventOk(event)
    ensures Serve(cfg, stripe, t, Start(Checkout(event))) == Served(t, Failed(BadEvent))
  {
  }

  lemma CheckedOutClean(cfg: Config, stripe: Stripe, t: Tables, event: Event)
    ensures CheckedOut(cfg, stripe, t, event.(user := Alnum(event.user))) == CheckedOut(cfg, stripe, t, event)
  {
    CleanKey(cfg, event.user);
  }

  /** The condition is exact: a request that is served, but has an id of punctuation only, is turned away once cleaned. */
  lemma CleanOnlyIfUsable(cfg: Config, stripe: Stripe, t: Tables, req: Request)
    requires WellFormed(t)
    requires TakenUp(Serve(cfg, stripe, t, Start(req)).answer)
    ensures Serve(cfg, stripe, t, Start(CleanRequest(req))) == Serve(cfg, stripe, t, Start(req)) <==> UsableIds(req)
  {
    if UsableIds(req) {
      ServeClean(cfg, stripe, t, req);
    } else {
      hide Serve;
      match req
      case AddUnits(items) =>
        ServeAddUnits(cfg, stripe, t, CleanItems(items));
        var it :| it in items && !(Usable(it.externalId) && Usable(it.userId));
        var i :| 0 <= i < |items| && items[i] == it;
        assert !AcceptedRpc(CleanItems(items)[i]);
      case Verify(user) => TurnedAway(cfg, stripe, t, Verify(Alnum(user)));
      case Checkout(event) => BadCheckout(cfg, stripe, t, event.(user := Alnum(event.user)));
    }
  }

  lemma TurnedAway(cfg: Config, stripe: Stripe, t: Tables, req: Request)
    requires req == Verify([])
    ensures Serve(cfg, stripe, t, Start(req)) == Served(t, Failed(BadRequest))
  {
  }

  // ----- whole runs

  function CleanSet(ids: set<Bytes>): set<Bytes> {
    set id | id in ids :: Alnum(id)
  }

  function CleanUnits(items: seq<SpendingUnit>): (clean: seq<SpendingUnit>)
    ensures |clean| == |items|
  {
    seq(|items|, i requires 0 <= i < |items| => CleanUnit(items[i]))
  }

  function CleanLoop(loop: Loop): Loop {
    Loop(CleanUnit(loop.item), CleanUnits(loop.rest), CleanSet(loop.ensured), loop.total)
  }

  function CleanGoal(goal: Goal): Goal {
    if goal.ThenInsert? then ThenInsert(CleanLoop(goal.loop)) else goal
  }

  function CleanEvent(event: Event): Event {
    event.(user := Alnum(event.user))
  }

  /** The loop ensures credit for a user that its memo knows under another spelling. */
  predicate Redundant(pc: Pc) {
    pc.EnsureCredit? && pc.goal.ThenInsert? && Alnum(pc.user) in CleanSet(pc.goal.loop.ensured)
  }

  /** Where the handler of the cleaned request is while the handler of the raw one is at pc. */
  function CleanPc(pc: Pc): Pc {
    match pc
    case EnsureCredit(user, goal) =>
      if Redundant(pc) then Insert(CleanLoop(goal.loop)) else EnsureCredit(Alnum(user), CleanGoal(goal))
    case EnsureAccount(user, goal) => EnsureAccount(Alnum(user), CleanGoal(goal))
    case EnsureCreditAgain(user, goal) => EnsureCreditAgain(Alnum(user), CleanGoal(goal))
    case Insert(loop) => Insert(CleanLoop(loop))
    case Charge(loop) => Charge(CleanLoop(loop))
    case CheckAccount(event) => CheckAccount(CleanEvent(event))
    case FetchPrevious(event, previous) => FetchPrevious(CleanEvent(event), previous)
    case Store(event, seen) => Store(CleanEvent(event), seen)
    case RecordInvalid(event) => RecordInvalid(CleanEvent(event))
    case RecordInvalidAccount(event) => RecordInvalidAccount(CleanEvent(event))
    case RecordInvalidAgain(event) => RecordInvalidAgain(CleanEvent(event))
    case ReadAccount(user) => ReadAccount(Alnum(user))
    case FetchCurrent(user, account) => FetchCurrent(Alnum(user), account)
    case FetchCustomer(user, account, sub) => FetchCustomer(Alnum(user), account, sub)
    case CountSpending(user, sub, email) => CountSpending(Alnum(user), sub, email)
    case Finished(_) => pc
  }

  predicate UsableUnits(items: seq<SpendingUnit>) {
    forall it :: it in items ==> Usable(it.externalId) && Usable(it.userId)
  }

  /** The items still to come have usable ids. */
  predicate UsablePc(pc: Pc) {
    match pc
    case EnsureCredit(_, goal) => goal.ThenInsert? ==> UsableUnits(goal.loop.rest)
    case EnsureAccount(_, goal) => goal.ThenInsert? ==> UsableUnits(goal.loop.rest)
    case EnsureCreditAgain(_, goal) => goal.ThenInsert? ==> UsableUnits(goal.loop.rest)
    case Insert(loop) => UsableUnits(loop.rest)
    case Charge(loop) => UsableUnits(loop.rest)
    case _ => true
  }

  lemma CleanNextItem(items: seq<SpendingUnit>, ensured: set<Bytes>, total: int)
    requires UsableUnits(items)
    ensures var next := NextItem(items, ensured, total);
      UsablePc(next) && CleanPc(next) == NextItem(CleanUnits(items), CleanSet(ensured), total)
  {
    AlnumEmpty();
    if items != [] {
      hide Alnum;
      assert items[0] in items;
      assert Accepted(CleanUnit(items[0])) <==> Accepted(items[0]);
      assert CleanUnits(items)[1..] == CleanUnits(items[1..]);
      assert CleanUnits(items)[0] == CleanUnit(items[0]);
    }
  }

  lemma CleanStart(req: Request)
    requires UsableIds(req)
    ensures UsablePc(Start(req)) && CleanPc(Start(req)) == Start(CleanRequest(req))
  {
    hide Alnum, NextItem;
    AlnumEmpty();
    match req
    case AddUnits(items) =>
      var clean := CleanItems(items);
      forall i | 0 <= i < |items|
        ensures AcceptedRpc(clean[i]) <==> AcceptedRpc(items[i])
      {
        assert items[i] in items;
      }
      SameAcceptance(items, clean);
      assert Converted(clean) == CleanUnits(Converted(items));
      UsableConverted(items);
      CleanNextItem(Converted(items), {}, 0);
      assert CleanSet({}) == {};
    case Verify(user) =>
    case Checkout(event) =>
  }

  lemma SameAcceptance(items: seq<RpcItem>, clean: seq<RpcItem>)
    requires |clean| == |items| && forall i :: 0 <= i < |items| ==> (AcceptedRpc(clean[i]) <==> AcceptedRpc(items[i]))
    ensures (exists it :: it in clean && !AcceptedRpc(it)) <==> (exists it :: it in items && !AcceptedRpc(it))
  {
    if it :| it in clean && !AcceptedRpc(it) {
      var i :| 0 <= i < |clean| && clean[i] == it;
      assert items[i] in items && !AcceptedRpc(items[i]);
    }
    if it :| it in items && !AcceptedRpc(it) {
      var i :| 0 <= i < |items| && items[i] == it;
      assert clean[i] in clean && !AcceptedRpc(clean[i]);
    }
  }

  lemma UsableConverted(items: seq<RpcItem>)
    requires UsableIds(AddUnits(items))
    ensures UsableUnits(Converted(items))
  {
    var units := Converted(items);
    forall it | it in units
      ensures Usable(it.externalId) && Usable(it.userId)
    {
      var i :| 0 <= i < |units| && units[i] == it;
      assert items[i] in items;
    }
  }

  /** Away from a redundant ensure, both handlers make the same call. */
  lemma CleanCall(cfg: Config, pc: Pc)
    requires !pc.Finished? && !Redundant(pc)
    ensures !CleanPc(pc).Finished? && CallOf(cfg, CleanPc(pc)) == CallOf(cfg, pc)
  {
    hide Alnum, Redundant, CleanUnits, CleanSet, Grant;
    match pc
    case EnsureCredit(user, _) => CleanKey(cfg, user);
    case EnsureAccount(user, _) => CleanKey(cfg, user);
    case EnsureCreditAgain(user, _) => CleanKey(cfg, user);
    case Insert(loop) => CleanRow(cfg, loop.item);
    case Charge(loop) => CleanRow(cfg, loop.item);
    case CheckAccount(event) => CleanKey(cfg, event.user);
    case FetchPrevious(_, _) =>
    case Store(event, _) => CleanKey(cfg, event.user);
    case RecordInvalid(event) => CleanKey(cfg, event.user);
    case RecordInvalidAccount(event) => CleanKey(cfg, event.user);
    case RecordInvalidAgain(event) => CleanKey(cfg, event.user);
    case ReadAccount(user) => CleanKey(cfg, user);
    case FetchCurrent(_, _) =>
    case FetchCustomer(_, _, _) =>
    case CountSpending(user, _, _) => CleanKey(cfg, user);
  }

  lemma CleanRow(cfg: Config, it: SpendingUnit)
    ensures UnitRowOf(cfg, CleanUnit(it)) == UnitRowOf(cfg, it)
    ensures Key(cfg, CleanUnit(it).userId) == Key(cfg, it.userId)
  {
    CleanKey(cfg, it.externalId);
    CleanKey(cfg, it.userId);
  }

  lemma CleanSetSnoc(ids: set<Bytes>, id: Bytes)
    ensures CleanSet(ids + {id}) == CleanSet(ids) + {Alnum(id)}
  {
  }

  lemma CleanReturn(user: Bytes, goal: Goal, credit: int)
    requires goal.ThenInsert? ==> UsableUnits(goal.loop.rest)
    ensures var next := ReturnCredit(user, goal, credit);
      UsablePc(next) && CleanPc(next) == ReturnCredit(Alnum(user), CleanGoal(goal), credit)
  {
    hide Alnum, CleanSet;
    if goal.ThenInsert? {
      CleanSetSnoc(goal.loop.ensured, user);
    }
  }

  /** With the same reply both handlers go on in step. */
  ghost predicate InStep(cfg: Config, now: int, pc: Pc, reply: Reply)
    requires !pc.Finished?
  {
    && !CleanPc(pc).Finished?
    && var next := Resume(cfg, now, pc, reply);
       UsablePc(next) && CleanPc(next) == Resume(cfg, now, CleanPc(pc), reply)
  }

  lemma CleanResume(cfg: Config, now: int, pc: Pc, reply: Reply)
    requires !pc.Finished? && !Redundant(pc) && UsablePc(pc)
    ensures InStep(cfg, now, pc, reply)
  {
    hide InStep, Redundant, UsablePc;
    if InLoop(pc) {
      CleanResumeLoop(cfg, now, pc, reply);
    } else if pc.EnsureCredit? || pc.EnsureAccount? || pc.EnsureCreditAgain? {
      CleanResumeEnsure(cfg, now, pc, reply);
    } else if pc.ReadAccount? || pc.FetchCurrent? || pc.FetchCustomer? || pc.CountSpending? {
      CleanResumeVerify(cfg, now, pc, reply);
    } else {
      CleanResumeCheckout(cfg, now, pc, reply);
    }
  }

  lemma CleanResumeLoop(cfg: Config, now: int, pc: Pc, reply: Reply)
    requires InLoop(pc) && UsablePc(pc)
    ensures InStep(cfg, now, pc, reply)
  {
    hide Alnum, NextItem, CleanSet, UsableUnits, CleanUnits, CleanUnit;
    CleanNextItem(pc.loop.rest, pc.loop.ensured, if pc.Insert? && reply.Number? then pc.loop.total + reply.n else pc.loop.total);
  }

  lemma CleanResumeEnsure(cfg: Config, now: int, pc: Pc, reply: Reply)
    requires pc.EnsureCredit? || pc.EnsureAccount? || pc.EnsureCreditAgain?
    requires !Redundant(pc) && UsablePc(pc)
    ensures InStep(cfg, now, pc, reply)
  {
    hide Alnum, ReturnCredit, CleanSet, UsableUnits, CleanUnits, CleanUnit;
    if reply.Number? {
      CleanReturn(pc.user, pc.goal, reply.n);
    }
  }

  lemma CleanResumeVerify(cfg: Config, now: int, pc: Pc, reply: Reply)
    requires pc.ReadAccount? || pc.FetchCurrent? || pc.FetchCustomer? || pc.CountSpending?
    ensures InStep(cfg, now, pc, reply)
  {
    hide Alnum, Judge, IsCancelled, CleanSet, CleanUnits;
    if pc.CountSpending? && reply.Number? {
      JudgeEnds(cfg, pc.subscription, reply.n, pc.email);
    }
  }

  lemma CleanResumeCheckout(cfg: Config, now: int, pc: Pc, reply: Reply)
    requires pc.CheckAccount? || pc.FetchPrevious? || pc.Store? || pc.RecordInvalid? || pc.RecordInvalidAccount? || pc.RecordInvalidAgain?
    ensures InStep(cfg, now, pc, reply)
  {
    hide Alnum, IsCancelled, CleanSet, CleanUnits;
  }

  lemma JudgeEnds(cfg: Config, sub: Subscription, spent: int, email: string)
    ensures var next := Finished(Judge(cfg, sub, spent, email)); CleanPc(next) == next && UsablePc(next)
  {
  }

  lemma CleanHistory(cfg: Config, t: Tables, pc: Pc, fault: Fault)
    requires !Redundant(pc)
    ensures Charged(cfg, CleanPc(pc), fault) == Charged(cfg, pc, fault)
    ensures Lost(cfg, t, CleanPc(pc), fault) == Lost(cfg, t, pc, fault)
    ensures Replaced(cfg, CleanPc(pc), fault) == Replaced(cfg, pc, fault)
  {
    hide Alnum, Redundant, CleanUnits, CleanSet, Exec, UnitRowOf;
    if pc.Insert? || pc.Charge? {
      CleanRow(cfg, pc.loop.item);
    } else if pc.Store? {
      CleanKey(cfg, pc.event.user);
    }
  }

  // ----- the two systems side by side

  /** The cleaned system is where the raw one is. */
  ghost predicate Follows(raw: System, clean: System) {
    && clean.tables == raw.tables && clean.stripe == raw.stripe
    && clean.charges == raw.charges && clean.lost == raw.lost && clean.retired == raw.retired
    && |clean.procs| == |raw.procs|
    && forall p :: 0 <= p < |raw.procs| ==>
         UsablePc(raw.procs[p].pc) && clean.procs[p] == Proc(CleanRequest(raw.procs[p].req), CleanPc(raw.procs[p].pc))
  }

  /** All that a run leaves to see: tables, Stripe, the history, and the answer of every request. */
  ghost predicate SameOutcome(raw: System, clean: System) {
    && clean.tables == raw.tables && clean.stripe == raw.stripe
    && clean.charges == raw.charges && clean.lost == raw.lost && clean.retired == raw.retired
    && |clean.procs| == |raw.procs|
    && forall p :: 0 <= p < |raw.procs| ==>
         && clean.procs[p].req == CleanRequest(raw.procs[p].req)
         && (clean.procs[p].pc.Finished? <==> raw.procs[p].pc.Finished?)
         && (raw.procs[p].pc.Finished? ==> clean.procs[p].pc.answer == raw.procs[p].pc.answer)
  }

  lemma FollowingShows(raw: System, clean: System)
    requires Follows(raw, clean)
    ensures SameOutcome(raw, clean)
  {
    hide Redundant, CleanLoop, CleanGoal, CleanEvent, CleanRequest;
  }

  predicate UsableMove(m: Move) {
    m.Arrive? ==> UsableIds(m.req)
  }

  predicate UsableScript(script: seq<Move>) {
    forall m :: m in script ==> UsableMove(m)
  }

  lemma PlainAct(cfg: Config, raw: System, clean: System, p: nat, fault: Fault)
    requires Follows(raw, clean) && CanAct(raw, p) && !Redundant(raw.procs[p].pc)
    ensures CanAct(clean, p) && Follows(Acted(cfg, raw, p, fault), Acted(cfg, clean, p, fault))
  {
    hide Resume, CallOf, CleanPc, UsablePc, Charged, Lost, Replaced, Redundant, CleanRequest, Exec;
    var pc := raw.procs[p].pc;
    CleanCall(cfg, pc);
    CleanHistory(cfg, raw.tables, pc, fault);
    CleanResume(cfg, raw.stripe.now, pc, Effect(cfg, raw.stripe, fault, raw.tables, pc).1);
  }

  lemma RedundantHasCredit(cfg: Config, t: Tables, pc: Pc)
    requires Redundant(pc) && PointOk(cfg, t, pc)
    ensures Key(cfg, pc.user) in t.credit
  {
    hide Alnum;
    var x :| x in pc.goal.loop.ensured && Alnum(x) == Alnum(pc.user);
    CleanKey(cfg, x);
    CleanKey(cfg, pc.user);
  }

  /** A redundant ensure changes nothing but its own handler, whatever befalls it. */
  lemma RedundantAct(cfg: Config, raw: System, p: nat, fault: Fault)
    requires CanAct(raw, p) && Redundant(raw.procs[p].pc) && PointOk(cfg, raw.tables, raw.procs[p].pc)
    ensures var proc := raw.procs[p];
      var next := if fault.Works? then ReturnCredit(proc.pc.user, proc.pc.goal, 0) else Finished(Failed(DatabaseError));
      Acted(cfg, raw, p, fault) == raw.(procs := raw.procs[p := Proc(proc.req, next)])
  {
    hide Alnum, Key, Grant;
    RedundantHasCredit(cfg, raw.tables, raw.procs[p].pc);
    assert raw.charges + [] == raw.charges && raw.lost + [] == raw.lost && raw.retired + {} == raw.retired;
  }

  /** The cleaned handler goes through a redundant ensure without a call, or fails with it at its insert. */
  lemma StutterFollows(cfg: Config, raw: System, clean: System, p: nat, fault: Fault)
    requires Follows(raw, clean) && CanAct(raw, p) && Redundant(raw.procs[p].pc) && PointOk(cfg, raw.tables, raw.procs[p].pc)
    ensures CanAct(clean, p)
    ensures Follows(Acted(cfg, raw, p, fault), if fault.Works? then clean else Acted(cfg, clean, p, FailsBefore))
    ensures |Acted(cfg, raw, p, fault).procs| == |raw.procs|
    ensures fault.Works? ==> Acted(cfg, raw, p, fault).procs[p].pc.Insert?
  {
    hide Alnum, UsableUnits, CleanUnits, CleanRequest, Acted;
    RedundantAct(cfg, raw, p, fault);
    var pc := raw.procs[p].pc;
    if fault.Works? {
      var loop := pc.goal.loop;
      CleanSetSnoc(loop.ensured, pc.user);
      assert CleanSet(loop.ensured + {pc.user}) == CleanSet(loop.ensured);
    } else {
      FailingInsert(cfg, clean, p);
    }
  }

  lemma FailingInsert(cfg: Config, clean: System, p: nat)
    requires CanAct(clean, p) && clean.procs[p].pc.Insert?
    ensures Acted(cfg, clean, p, FailsBefore)
         == clean.(procs := clean.procs[p := Proc(clean.procs[p].req, Finished(Failed(DatabaseError)))])
  {
    assert clean.charges + [] == clean.charges && clean.lost + [] == clean.lost && clean.retired + {} == clean.retired;
  }

  lemma ArrivalFollows(cfg: Config, raw: System, clean: System, req: Request)
    requires Follows(raw, clean) && UsableIds(req)
    ensures Follows(Step(cfg, raw, Arrive(req)), Step(cfg, clean, Arrive(CleanRequest(req))))
  {
    hide Start, CleanPc, UsablePc, CleanRequest, UsableIds;
    CleanStart(req);
  }

  // ----- from raw runs to cleaned runs

  /** What the cleaned system does while the raw one, at s, makes the move m. */
  function Translated(s: System, m: Move): seq<Move> {
    match m
    case Arrive(req) => [Arrive(CleanRequest(req))]
    case Act(p, fault) =>
      if CanAct(s, p) && Redundant(s.procs[p].pc) then (if fault.Works? then [] else [Act(p, FailsBefore)]) else [m]
    case Drift(_) => [m]
  }

  function TranslatedAll(cfg: Config, s: System, script: seq<Move>): seq<Move> {
    if script == [] then []
    else
      var front := script[..|script| - 1];
      TranslatedAll(cfg, s, front) + Translated(Run(cfg, s, front), script[|script| - 1])
  }

  lemma FinishedTogether(raw: System, clean: System, p: nat)
    requires Follows(raw, clean)
    ensures CanAct(clean, p) <==> CanAct(raw, p)
  {
    FollowingShows(raw, clean);
  }

  lemma TranslatedStep(cfg: Config, raw: System, clean: System, m: Move)
    requires Follows(raw, clean) && Billing.PointsOk(cfg, raw) && UsableMove(m)
    ensures Follows(Step(cfg, raw, m), Run(cfg, clean, Translated(raw, m)))
    ensures Billing.Failures(Translated(raw, m)) <= Billing.Failures([m])
  {
    hide Follows, Acted, Redundant, CleanRequest, PointOk, UsableIds;
    RunNothing(cfg, clean);
    match m
    case Arrive(req) =>
      RunSingle(cfg, clean, Arrive(CleanRequest(req)));
      FailureOf(m);
      FailureOf(Arrive(CleanRequest(req)));
      ArrivalFollows(cfg, raw, clean, req);
    case Act(p, fault) =>
      RunSingle(cfg, clean, m);
      RunSingle(cfg, clean, Act(p, FailsBefore));
      FailureOf(m);
      FailureOf(Act(p, FailsBefore));
      FinishedTogether(raw, clean, p);
      if CanAct(raw, p) {
        if Redundant(raw.procs[p].pc) {
          StutterFollows(cfg, raw, clean, p, fault);
        } else {
          PlainAct(cfg, raw, clean, p, fault);
        }
      }
    case Drift(stripe) =>
      RunSingle(cfg, clean, m);
      DriftFollows(cfg, raw, clean, stripe);
  }

  lemma DriftFollows(cfg: Config, raw: System, clean: System, stripe: Stripe)
    requires Follows(raw, clean)
    ensures Follows(Step(cfg, raw, Drift(stripe)), Step(cfg, clean, Drift(stripe)))
  {
    hide CleanPc, UsablePc, CleanRequest;
  }

  lemma RunNothing(cfg: Config, s: System)
    ensures Run(cfg, s, []) == s && Billing.Failures([]) == 0
  {
  }

  lemma RunSingle(cfg: Config, s: System, m: Move)
    ensures Run(cfg, s, [m]) == Step(cfg, s, m)
  {
    hide Step;
    assert [m][..0] == [];
  }

  lemma FailureOf(m: Move)
    ensures Billing.Failures([m]) == if m.Act? && !m.fault.Works? then 1 else 0
  {
    assert [m][..0] == [];
  }

  lemma {:induction false} FailuresConcat(a: seq<Move>, b: seq<Move>)
    ensures Billing.Failures(a + b) == Billing.Failures(a) + Billing.Failures(b)
  {
    if b == [] {
      assert a + b == a;
    } else {
      FailuresConcat(a, b[..|b| - 1]);
      assert (a + b)[..|a + b| - 1] == a + b[..|b| - 1];
    }
  }

  lemma UsableFront(front: seq<Move>, m: Move)
    requires UsableScript(front + [m])
    ensures UsableScript(front) && UsableMove(m)
  {
    assert m in front + [m];
  }

  lemma TranslatedLast(cfg: Config, s: System, front: seq<Move>, m: Move)
    ensures TranslatedAll(cfg, s, front + [m]) == TranslatedAll(cfg, s, front) + Translated(Run(cfg, s, front), m)
    ensures Run(cfg, s, front + [m]) == Step(cfg, Run(cfg, s, front), m)
  {
    hide Translated, Step;
    assert (front + [m])[..|front|] == front;
  }

  lemma TranslatedNone(cfg: Config, stripe: Stripe)
    ensures TranslatedAll(cfg, Init(stripe), []) == [] && Follows(Init(stripe), Init(stripe))
  {
  }

  lemma {:induction false} TranslationFollows(cfg: Config, stripe: Stripe, script: seq<Move>)
    requires UsableScript(script)
    ensures Follows(Run(cfg, Init(stripe), script), Run(cfg, Init(stripe), TranslatedAll(cfg, Init(stripe), script)))
    ensures Billing.Failures(TranslatedAll(cfg, Init(stripe), script)) <= Billing.Failures(script)
  {
    hide *;
    if script == [] {
      TranslatedNone(cfg, stripe);
      RunNothing(cfg, Init(stripe));
    } else {
      var front, m := script[..|script| - 1], script[|script| - 1];
      var raw, moves := Run(cfg, Init(stripe), front), TranslatedAll(cfg, Init(stripe), front);
      var clean := Run(cfg, Init(stripe), moves);
      assert script == front + [m];
      UsableFront(front, m);
      TranslationFollows(cfg, stripe, front);
      PointsOfRun(cfg, stripe, front);
      TranslatedStep(cfg, raw, clean, m);
      TranslatedLast(cfg, Init(stripe), front, m);
      RunConcat(cfg, Init(stripe), moves, Translated(raw, m));
      FailuresConcat(moves, Translated(raw, m));
      FailuresConcat(front, [m]);
    }
  }

  lemma PointsOfRun(cfg: Config, stripe: Stripe, script: seq<Move>)
    ensures Billing.PointsOk(cfg, Run(cfg, Init(stripe), script))
  {
    hide Run, Billing.PointsOk, Billing.Books, Billing.Balances, Billing.Positive;
    Billing.InitInv(cfg, stripe);
    Billing.RunKeepsInv(cfg, Init(stripe), script);
  }

  /**
   Working on stripped ids is a simulation: for every run of usable requests, whatever interleaves, fails or
   changes at Stripe, the translated run of the stripped requests leaves the same tables, the same charges, losses
   and replaced subscriptions, and gives every request the same answer, with no more failed calls.
   */
  lemma CleanRuns(cfg: Config, stripe: Stripe, script: seq<Move>)
    requires UsableScript(script)
    ensures var moves := TranslatedAll(cfg, Init(stripe), script);
      && SameOutcome(Run(cfg, Init(stripe), script), Run(cfg, Init(stripe), moves))
      && Billing.Failures(moves) <= Billing.Failures(script)
  {
    hide *;
    TranslationFollows(cfg, stripe, script);
    FollowingShows(Run(cfg, Init(stripe), script), Run(cfg, Init(stripe), TranslatedAll(cfg, Init(stripe), script)));
  }

  // ----- and back

  function CleanMove(m: Move): Move {
    if m.Arrive? then Arrive(CleanRequest(m.req)) else m
  }

  /** The same script with every arriving request stripped. */
  function CleanScript(script: seq<Move>): (clean: seq<Move>)
    ensures |clean| == |script|
  {
    seq(|script|, i requires 0 <= i < |script| => CleanMove(script[i]))
  }

  /** What the raw system, at s, does while the stripped one makes the move m: it gets a redundant ensure out of the way. */
  function Retraced(s: System, m: Move): seq<Move> {
    if m.Act? && CanAct(s, m.p) && Redundant(s.procs[m.p].pc) then [Act(m.p, Works), m] else [m]
  }

  function RetracedAll(cfg: Config, s: System, script: seq<Move>): seq<Move> {
    if script == [] then []
    else
      var before := RetracedAll(cfg, s, script[..|script| - 1]);
      before + Retraced(Run(cfg, s, before), script[|script| - 1])
  }

  lemma RetracedStep(cfg: Config, raw: System, clean: System, m: Move)
    requires Follows(raw, clean) && Billing.PointsOk(cfg, raw) && UsableMove(m)
    ensures Follows(Run(cfg, raw, Retraced(raw, m)), Step(cfg, clean, CleanMove(m)))
    ensures Billing.Failures(Retraced(raw, m)) == Billing.Failures([m])
  {
    hide Follows, Acted, Redundant, CleanRequest, PointOk, UsableIds, Run, Billing.Failures;
    RunSingle(cfg, raw, m);
    match m
    case Arrive(req) => ArrivalFollows(cfg, raw, clean, req);
    case Act(p, fault) =>
      FinishedTogether(raw, clean, p);
      if CanAct(raw, p) {
        if Redundant(raw.procs[p].pc) {
          var mid := Acted(cfg, raw, p, Works);
          StutterFollows(cfg, raw, clean, p, Works);
          NotRedundant(mid.procs[p].pc);
          FinishedTogether(mid, clean, p);
          PlainAct(cfg, mid, clean, p, fault);
          RunSingle(cfg, raw, Act(p, Works));
          RunSingle(cfg, mid, m);
          RunConcat(cfg, raw, [Act(p, Works)], [m]);
          FailuresConcat([Act(p, Works)], [m]);
          FailureOf(Act(p, Works));
          assert [Act(p, Works)] + [m] == [Act(p, Works), m];
        } else {
          PlainAct(cfg, raw, clean, p, fault);
        }
      }
    case Drift(stripe) => DriftFollows(cfg, raw, clean, stripe);
  }

  lemma NotRedundant(pc: Pc)
    requires pc.Insert?
    ensures !Redundant(pc)
  {
  }

  lemma RetracedLast(cfg: Config, s: System, front: seq<Move>, m: Move)
    ensures var before := RetracedAll(cfg, s, front);
      RetracedAll(cfg, s, front + [m]) == before + Retraced(Run(cfg, s, before), m)
    ensures Run(cfg, s, CleanScript(front + [m])) == Step(cfg, Run(cfg, s, CleanScript(front)), CleanMove(m))
  {
    hide Retraced, Step, CleanMove;
    assert (front + [m])[..|front|] == front;
    assert CleanScript(front + [m])[..|front|] == CleanScript(front);
  }

  lemma RetracedNone(cfg: Config, stripe: Stripe)
    ensures RetracedAll(cfg, Init(stripe), []) == CleanScript([]) == [] && Follows(Init(stripe), Init(stripe))
  {
  }

  lemma {:induction false} RetracingFollows(cfg: Config, stripe: Stripe, script: seq<Move>)
    requires UsableScript(script)
    ensures Follows(Run(cfg, Init(stripe), RetracedAll(cfg, Init(stripe), script)), Run(cfg, Init(stripe), CleanScript(script)))
    ensures Billing.Failures(RetracedAll(cfg, Init(stripe), script)) == Billing.Failures(script)
  {
    hide *;
    if script == [] {
      RetracedNone(cfg, stripe);
      RunNothing(cfg, Init(stripe));
    } else {
      var front, m := script[..|script| - 1], script[|script| - 1];
      var moves := RetracedAll(cfg, Init(stripe), front);
      var raw, clean := Run(cfg, Init(stripe), moves), Run(cfg, Init(stripe), CleanScript(front));
      assert script == front + [m];
      UsableFront(front, m);
      RetracingFollows(cfg, stripe, front);
      PointsOfRun(cfg, stripe, moves);
      RetracedStep(cfg, raw, clean, m);
      RetracedLast(cfg, Init(stripe), front, m);
      RunConcat(cfg, Init(stripe), moves, Retraced(raw, m));
      FailuresConcat(moves, Retraced(raw, m));
      FailuresConcat(front, [m]);
    }
  }

  /** And back: every run of the stripped requests is matched by a run of the raw ones, with the same outcome and
      the same failed calls. */
  lemma RawRuns(cfg: Config, stripe: Stripe, script: seq<Move>)
    requires UsableScript(script)
    ensures var moves := RetracedAll(cfg, Init(stripe), script);
      && SameOutcome(Run(cfg, Init(stripe), moves), Run(cfg, Init(stripe), CleanScript(script)))
      && Billing.Failures(moves) == Billing.Failures(script)
  {
    hide *;
    RetracingFollows(cfg, stripe, script);
    FollowingShows(Run(cfg, Init(stripe), RetracedAll(cfg, Init(stripe), script)), Run(cfg, Init(stripe), CleanScript(script)));
  }
}
