/**
 When a paid subscription can be lost: exactly when some store is unguarded, which never happens while
 the checkouts of one user are handled one at a time, and does happen when they overlap.
 */
module Subscriptions {
  import opened Prelude
  import opened Identity
  import opened Gateway
  import opened Tables
  import opened Requests
  import opened System
  import opened Serving
  import opened Checkouts
  import Billing

  /** The subscription id is the account's current one, is recorded as invalid, or was replaced once cancelled. */
  ghost predicate Accounted(cfg: Config, s: System, u: Digest, id: string) {
    CellOf(s.tables, u) == Some(id) || OnRecord(s, u, id)
  }

  ghost predicate OnRecord(s: System, u: Digest, id: string) {
    RecordedInvalid(s.tables, u, id) || Retired(u, id) in s.retired
  }

  ghost predicate RecordedInvalid(t: Tables, u: Digest, id: string) {
    exists r :: r in t.invalid && r.user == u && r.subscriptionId == Some(id)
  }

  /** An unfinished checkout of the user u. */
  ghost predicate Busy(cfg: Config, proc: Proc, u: Digest) {
    proc.req.Checkout? && !proc.pc.Finished? && Key(cfg, proc.req.event.user) == u
  }

  ghost predicate OneAtATime(cfg: Config, s: System) {
    forall p, q, u :: 0 <= p < q < |s.procs| && Busy(cfg, s.procs[p], u) ==> !Busy(cfg, s.procs[q], u)
  }

  /** A checkout of a user may arrive only when no other checkout of that user is unfinished. */
  ghost predicate InTurn(cfg: Config, s: System, m: Move) {
    m.Arrive? && m.req.Checkout? ==>
      forall p :: 0 <= p < |s.procs| ==> !Busy(cfg, s.procs[p], Key(cfg, m.req.event.user))
  }

  ghost predicate Serial(cfg: Config, s: System, script: seq<Move>) {
    script == [] ||
    (Serial(cfg, s, script[..|script| - 1]) && InTurn(cfg, Run(cfg, s, script[..|script| - 1]), script[|script| - 1]))
  }

  /** What a handler has seen of the account still holds. */
  ghost predicate Watching(cfg: Config, s: System, p: nat)
    requires p < |s.procs|
  {
    var pc := s.procs[p].pc;
    && (pc.Store? ==> Cell(cfg, s, pc.event) == pc.seen)
    && (pc.FetchPrevious? ==> Cell(cfg, s, pc.event) == Some(pc.previous))
  }

  ghost predicate SerialInv(cfg: Config, s: System) {
    && AccountsInv(cfg, s)
    && OneAtATime(cfg, s)
    && (forall p :: 0 <= p < |s.procs| ==> Watching(cfg, s, p))
  }

  // ----- one call of a serial run

  lemma WatchingSelf(cfg: Config, s: System, p: nat, fault: Fault)
    requires CanAct(s, p) && Matches(s.procs[p].req, s.procs[p].pc) && Watching(cfg, s, p)
    requires forall u :: Paired(cfg, s, u)
    ensures Watching(cfg, Acted(cfg, s, p, fault), p)
  {
    hide NextItem, Judge, IsCancelled, Key, Grant, UnitRowOf, SumBetween, HasUnit, Spend, InvalidRowOf, Paired;
    var pc, next := s.procs[p].pc, Acted(cfg, s, p, fault);
    if pc.CheckAccount? {
      CellNotEmpty(cfg, s, Key(cfg, pc.event.user));
    } else if InLoop(pc) {
      var reply := Effect(cfg, s.stripe, fault, s.tables, pc).1;
      NextItemInLoop(pc.loop.rest, pc.loop.ensured, if pc.Insert? && reply.Number? then pc.loop.total + reply.n else pc.loop.total);
    }
  }

  lemma NextItemInLoop(items: seq<SpendingUnit>, ensured: set<Bytes>, total: int)
    ensures !NextItem(items, ensured, total).Store? && !NextItem(items, ensured, total).FetchPrevious?
  {
  }

  lemma CellNotEmpty(cfg: Config, s: System, u: Digest)
    requires Paired(cfg, s, u)
    ensures CellOf(s.tables, u) != Some("")
  {
  }

  lemma WatchingOther(cfg: Config, s: System, p: nat, fault: Fault, q: nat)
    requires CanAct(s, p) && q < |s.procs| && q != p && OneAtATime(cfg, s) && Watching(cfg, s, q)
    requires Matches(s.procs[p].req, s.procs[p].pc) && Matches(s.procs[q].req, s.procs[q].pc)
    ensures Watching(cfg, Acted(cfg, s, p, fault), q)
  {
    hide Effect, Resume;
    var pc, other := s.procs[p].pc, s.procs[q].pc;
    if other.Store? || other.FetchPrevious? {
      var u := Key(cfg, other.event.user);
      CellStays(cfg, s, p, fault, u);
      assert Busy(cfg, s.procs[q], u);
      assert !Busy(cfg, s.procs[p], u);
    }
  }

  lemma CallKeepsTurns(cfg: Config, s: System, p: nat, fault: Fault)
    requires CanAct(s, p) && OneAtATime(cfg, s)
    ensures OneAtATime(cfg, Acted(cfg, s, p, fault))
  {
    hide Effect, Resume;
    var next := Acted(cfg, s, p, fault);
    forall i, j, u | 0 <= i < j < |next.procs| && Busy(cfg, next.procs[i], u)
      ensures !Busy(cfg, next.procs[j], u)
    {
      assert Busy(cfg, s.procs[i], u);
      assert !Busy(cfg, s.procs[j], u);
    }
  }

  lemma CallKeepsSerial(cfg: Config, s: System, p: nat, fault: Fault)
    requires SerialInv(cfg, s) && CanAct(s, p)
    ensures SerialInv(cfg, Acted(cfg, s, p, fault))
  {
    hide Effect, Resume, Matches, Paired, CellFilled, Watching, OneAtATime;
    var next := Acted(cfg, s, p, fault);
    CallKeepsAccounts(cfg, s, p, fault);
    CallKeepsTurns(cfg, s, p, fault);
    forall q | 0 <= q < |next.procs|
      ensures Watching(cfg, next, q)
    {
      if q == p {
        WatchingSelf(cfg, s, p, fault);
      } else {
        WatchingOther(cfg, s, p, fault, q);
      }
    }
  }

  lemma SameTables(cfg: Config, s: System, next: System, q: nat)
    requires next.tables == s.tables
    requires q < |s.procs| <= |next.procs| && next.procs[q] == s.procs[q]
    requires Watching(cfg, s, q)
    ensures Watching(cfg, next, q)
  {
  }

  lemma ArrivalKeepsSerial(cfg: Config, s: System, req: Request)
    requires SerialInv(cfg, s) && InTurn(cfg, s, Arrive(req))
    ensures SerialInv(cfg, Step(cfg, s, Arrive(req)))
  {
    hide Matches, Paired, CellFilled, Watching;
    var next := Step(cfg, s, Arrive(req));
    ArrivalKeepsAccounts(cfg, s, req);
    NewcomerKeeps(cfg, next, |s.procs|, req);
    forall q | 0 <= q < |s.procs|
      ensures Watching(cfg, next, q)
    {
      SameTables(cfg, s, next, q);
    }
    assert OneAtATime(cfg, next) by {
      hide Start;
      forall i, j, u | 0 <= i < j < |next.procs| && Busy(cfg, next.procs[i], u)
        ensures !Busy(cfg, next.procs[j], u)
      {
      }
    }
  }

  lemma NewcomerKeeps(cfg: Config, s: System, q: nat, req: Request)
    requires q < |s.procs| && s.procs[q] == Proc(req, Start(req))
    ensures Watching(cfg, s, q)
  {
    StartUnsettled(req);
    hide NextItem;
    if req.AddUnits? {
      NextItemInLoop(Converted(req.items), {}, 0);
    }
  }

  lemma StepKeepsSerial(cfg: Config, s: System, m: Move)
    requires SerialInv(cfg, s) && InTurn(cfg, s, m)
    ensures SerialInv(cfg, Step(cfg, s, m))
  {
    hide Acted, InTurn, Watching, AccountsInv, OneAtATime;
    match m
    case Arrive(req) => ArrivalKeepsSerial(cfg, s, req);
    case Act(p, fault) =>
      if CanAct(s, p) {
        CallKeepsSerial(cfg, s, p, fault);
      }
    case Drift(stripe) =>
      DriftKeepsAccounts(cfg, s, stripe);
      DriftKeepsTurns(cfg, s, stripe);
      forall q | 0 <= q < |s.procs|
        ensures Watching(cfg, s.(stripe := stripe), q)
      {
        SameTables(cfg, s, s.(stripe := stripe), q);
      }
  }

  lemma DriftKeepsTurns(cfg: Config, s: System, stripe: Stripe)
    requires OneAtATime(cfg, s)
    ensures OneAtATime(cfg, s.(stripe := stripe))
  {
  }

  lemma {:induction false} RunKeepsSerial(cfg: Config, stripe: Stripe, script: seq<Move>)
    requires Serial(cfg, Init(stripe), script)
    ensures SerialInv(cfg, Run(cfg, Init(stripe), script))
  {
    if script != [] {
      hide Step, SerialInv;
      RunKeepsSerial(cfg, stripe, script[..|script| - 1]);
      StepKeepsSerial(cfg, Run(cfg, Init(stripe), script[..|script| - 1]), script[|script| - 1]);
    }
  }

  // ----- guarded stores

  /**
   A store that commits overwrites nothing, what its own handler read and saw cancelled, the very id it
   stores, or an id that is on record already.
   */
  ghost predicate Guarded(cfg: Config, s: System, m: Move) {
    m.Act? && CanAct(s, m.p) && s.procs[m.p].pc.Store? && !m.fault.FailsBefore? ==>
      var pc := s.procs[m.p].pc;
      var cell := Cell(cfg, s, pc.event);
      cell.Some? ==>
        pc.seen == cell || pc.event.subscriptionId == cell.value || OnRecord(s, Key(cfg, pc.event.user), cell.value)
  }

  ghost predicate AllGuarded(cfg: Config, s: System, script: seq<Move>) {
    script == [] ||
    (AllGuarded(cfg, s, script[..|script| - 1]) && Guarded(cfg, Run(cfg, s, script[..|script| - 1]), script[|script| - 1]))
  }

  /** At some moment of the run id was the current subscription of u. */
  ghost predicate EverCurrent(cfg: Config, s: System, script: seq<Move>, u: Digest, id: string) {
    || CellOf(Run(cfg, s, script).tables, u) == Some(id)
    || (script != [] && EverCurrent(cfg, s, script[..|script| - 1], u, id))
  }

  /** At every moment of the run, every subscription that has been current so far is accounted for. */
  ghost predicate NeverLoses(cfg: Config, s: System, script: seq<Move>) {
    && (forall u, id :: EverCurrent(cfg, s, script, u, id) ==> Accounted(cfg, Run(cfg, s, script), u, id))
    && (script == [] || NeverLoses(cfg, s, script[..|script| - 1]))
  }

  lemma InvalidGrows(cfg: Config, s: System, p: nat, fault: Fault)
    requires CanAct(s, p)
    ensures s.tables.invalid <= Acted(cfg, s, p, fault).tables.invalid
    ensures s.retired <= Acted(cfg, s, p, fault).retired
  {
    hide Resume, CallOf, Exec;
    var pc := s.procs[p].pc;
    var call := CallOf(cfg, pc);
    if call.Query? {
      AttemptGrows(fault, s.tables, call.stmt);
    }
  }

  /** A guarded call keeps every id accounted for, even while its place in the account is taken. */
  lemma AccountedStays(cfg: Config, s: System, p: nat, fault: Fault, u: Digest, id: string)
    requires CanAct(s, p) && Matches(s.procs[p].req, s.procs[p].pc) && Guarded(cfg, s, Act(p, fault))
    requires Accounted(cfg, s, u, id)
    ensures Accounted(cfg, Acted(cfg, s, p, fault), u, id)
  {
    hide Effect, Resume, Matches;
    var pc, next := s.procs[p].pc, Acted(cfg, s, p, fault);
    CellStays(cfg, s, p, fault, u);
    InvalidGrows(cfg, s, p, fault);
    if RecordedInvalid(s.tables, u, id) {
      var r :| r in s.tables.invalid && r.user == u && r.subscriptionId == Some(id);
      assert r in next.tables.invalid;
    } else if CellOf(s.tables, u) == Some(id) && Stores(cfg, pc, fault, u) && pc.seen == Some(id) {
      assert Retired(u, id) in next.retired;
    }
  }

  /** An unguarded store loses the subscription that it overwrites. */
  lemma UnguardedLoses(cfg: Config, s: System, m: Move)
    requires !Guarded(cfg, s, m) && Matches(s.procs[m.p].req, s.procs[m.p].pc)
    ensures var event := s.procs[m.p].pc.event;
      Cell(cfg, s, event).Some? && !Accounted(cfg, Step(cfg, s, m), Key(cfg, event.user), Cell(cfg, s, event).value)
  {
    var pc, next := s.procs[m.p].pc, Acted(cfg, s, m.p, m.fault);
    AccountMoves(cfg, s.stripe, m.fault, s.tables, pc, Key(cfg, pc.event.user));
    assert next.tables.invalid == s.tables.invalid;
  }

  lemma StepAccounts(cfg: Config, s: System, m: Move, u: Digest, id: string)
    requires AccountsInv(cfg, s) && Guarded(cfg, s, m) && Accounted(cfg, s, u, id)
    ensures Accounted(cfg, Step(cfg, s, m), u, id)
  {
    hide Acted, Matches, Paired, CellFilled, Guarded;
    if m.Act? && CanAct(s, m.p) {
      hide Accounted;
      AccountedStays(cfg, s, m.p, m.fault, u, id);
    }
  }

  /**
   Exactly when subscriptions are lost: a run, with any interleaving, failures and Stripe changes, keeps every
   subscription that was ever current accounted for at every moment if and only if every store that commits in it
   is guarded.
   */
  lemma {:induction false} LosesNothingIffGuarded(cfg: Config, stripe: Stripe, script: seq<Move>)
    ensures NeverLoses(cfg, Init(stripe), script) <==> AllGuarded(cfg, Init(stripe), script)
  {
    if script != [] {
      hide Run, Step, Guarded, Accounted, AccountsInv;
      var front, m := script[..|script| - 1], script[|script| - 1];
      var s := Run(cfg, Init(stripe), front);
      LosesNothingIffGuarded(cfg, stripe, front);
      InitAccounts(cfg, stripe);
      RunKeepsAccounts(cfg, Init(stripe), front);
      LastStep(cfg, Init(stripe), script);
      if AllGuarded(cfg, Init(stripe), script) {
        forall u, id | EverCurrent(cfg, Init(stripe), script, u, id)
          ensures Accounted(cfg, Run(cfg, Init(stripe), script), u, id)
        {
          CurrentIsAccounted(cfg, Run(cfg, Init(stripe), script), u, id);
          if EverCurrent(cfg, Init(stripe), front, u, id) {
            StepAccounts(cfg, s, m, u, id);
          }
        }
      } else if NeverLoses(cfg, Init(stripe), script) {
        MatchesAt(cfg, s, m);
        UnguardedLoses(cfg, s, m);
        var event := s.procs[m.p].pc.event;
        assert EverCurrent(cfg, Init(stripe), front, Key(cfg, event.user), Cell(cfg, s, event).value);
      }
    } else {
      hide Accounted;
      forall u, id
        ensures !EverCurrent(cfg, Init(stripe), [], u, id)
      {
      }
    }
  }

  lemma InitAccounts(cfg: Config, stripe: Stripe)
    ensures AccountsInv(cfg, Init(stripe))
  {
  }

  lemma LastStep(cfg: Config, s: System, script: seq<Move>)
    requires script != []
    ensures Run(cfg, s, script) == Step(cfg, Run(cfg, s, script[..|script| - 1]), script[|script| - 1])
  {
  }

  lemma CurrentIsAccounted(cfg: Config, s: System, u: Digest, id: string)
    ensures CellOf(s.tables, u) == Some(id) ==> Accounted(cfg, s, u, id)
  {
  }

  lemma MatchesAt(cfg: Config, s: System, m: Move)
    requires AccountsInv(cfg, s) && !Guarded(cfg, s, m)
    ensures m.Act? && CanAct(s, m.p) && s.procs[m.p].pc.Store? && Matches(s.procs[m.p].req, s.procs[m.p].pc)
  {
  }

  // ----- checkouts that were handled

  /** A checkout that has settled is accounted for. */
  ghost predicate Kept(cfg: Config, s: System, p: nat)
    requires p < |s.procs|
  {
    var proc := s.procs[p];
    Settled(proc.pc) && proc.req.Checkout? ==>
      Accounted(cfg, s, Key(cfg, proc.req.event.user), proc.req.event.subscriptionId)
  }

  lemma SettlesNow(cfg: Config, s: System, p: nat, fault: Fault)
    requires CanAct(s, p) && Matches(s.procs[p].req, s.procs[p].pc) && s.procs[p].req.Checkout?
    requires !Settled(s.procs[p].pc) && Settled(Acted(cfg, s, p, fault).procs[p].pc)
    ensures var event := s.procs[p].req.event;
      Accounted(cfg, Acted(cfg, s, p, fault), Key(cfg, event.user), event.subscriptionId)
  {
    hide NextItem, Judge, IsCancelled, Key, Grant, UnitRowOf, SumBetween, HasUnit, Spend;
    var pc, event, next := s.procs[p].pc, s.procs[p].req.event, Acted(cfg, s, p, fault);
    var u := Key(cfg, event.user);
    CellStays(cfg, s, p, fault, u);
    if pc.RecordInvalid? || pc.RecordInvalidAgain? {
      var row := InvalidRowOf(cfg, event);
      assert next.tables.invalid == s.tables.invalid + [row];
      assert row in next.tables.invalid;
    } else {
      assert pc.Store? && Stores(cfg, pc, fault, u);
    }
  }

  lemma StepKept(cfg: Config, s: System, m: Move, q: nat)
    requires AccountsInv(cfg, s) && Guarded(cfg, s, m) && q < |Step(cfg, s, m).procs|
    requires q < |s.procs| ==> Kept(cfg, s, q)
    ensures Kept(cfg, Step(cfg, s, m), q)
  {
    hide Effect, Resume, Matches, Paired, CellFilled, Guarded, Accounted, Start;
    var next := Step(cfg, s, m);
    var req := next.procs[q].req;
    if q >= |s.procs| {
      StartUnsettled(m.req);
    } else if req.Checkout? && Settled(next.procs[q].pc) {
      if Settled(s.procs[q].pc) {
        StepAccounts(cfg, s, m, Key(cfg, req.event.user), req.event.subscriptionId);
      } else {
        SettlesNow(cfg, s, q, m.fault);
      }
    }
  }

  lemma {:induction false} GuardedKeepsHandled(cfg: Config, stripe: Stripe, script: seq<Move>, q: nat)
    requires AllGuarded(cfg, Init(stripe), script) && q < |Run(cfg, Init(stripe), script).procs|
    ensures Kept(cfg, Run(cfg, Init(stripe), script), q)
  {
    if script != [] {
      hide Run, Step, Guarded, AccountsInv, Kept;
      var front := script[..|script| - 1];
      LastStep(cfg, Init(stripe), script);
      InitAccounts(cfg, stripe);
      RunKeepsAccounts(cfg, Init(stripe), front);
      if q < |Run(cfg, Init(stripe), front).procs| {
        GuardedKeepsHandled(cfg, stripe, front, q);
      }
      StepKept(cfg, Run(cfg, Init(stripe), front), script[|script| - 1], q);
    }
  }

  // ----- one at a time

  lemma SerialGuards(cfg: Config, s: System, m: Move)
    requires SerialInv(cfg, s)
    ensures Guarded(cfg, s, m)
  {
    hide AccountsInv, OneAtATime, OnRecord;
    if m.Act? && CanAct(s, m.p) {
      assert Watching(cfg, s, m.p);
    }
  }

  /** While the checkouts of one user are handled one at a time, every store is guarded. */
  lemma {:induction false} SerialIsGuarded(cfg: Config, stripe: Stripe, script: seq<Move>)
    requires Serial(cfg, Init(stripe), script)
    ensures AllGuarded(cfg, Init(stripe), script)
  {
    if script != [] {
      hide Run, Guarded, SerialInv, InTurn;
      var front := script[..|script| - 1];
      SerialIsGuarded(cfg, stripe, front);
      RunKeepsSerial(cfg, stripe, front);
      SerialGuards(cfg, Run(cfg, Init(stripe), front), script[|script| - 1]);
    }
  }

  /** No subscription is lost: when the checkouts of one user are handled one at a time, beside any other traffic and
      any failures, every subscription that was ever current and every successfully handled one is current, recorded
      as invalid, or was replaced after being seen cancelled. */
  lemma NoSubscriptionLost(cfg: Config, stripe: Stripe, script: seq<Move>)
    requires Serial(cfg, Init(stripe), script)
    ensures NeverLoses(cfg, Init(stripe), script)
    ensures var s := Run(cfg, Init(stripe), script);
      forall p :: 0 <= p < |s.procs| && s.procs[p].pc == Finished(Handled) ==>
        && s.procs[p].req.Checkout?
        && Accounted(cfg, s, Key(cfg, s.procs[p].req.event.user), s.procs[p].req.event.subscriptionId)
  {
    hide Run, Serial, Accounted, AllGuarded, NeverLoses, Matches, SerialInv;
    SerialIsGuarded(cfg, stripe, script);
    LosesNothingIffGuarded(cfg, stripe, script);
    InitAccounts(cfg, stripe);
    RunKeepsAccounts(cfg, Init(stripe), script);
    var s := Run(cfg, Init(stripe), script);
    forall p | 0 <= p < |s.procs| && s.procs[p].pc == Finished(Handled)
      ensures s.procs[p].req.Checkout?
      ensures Accounted(cfg, s, Key(cfg, s.procs[p].req.event.user), s.procs[p].req.event.subscriptionId)
    {
      HandledIsCheckout(s.procs[p]);
      GuardedKeepsHandled(cfg, stripe, script, p);
      assert Kept(cfg, s, p);
    }
  }

  lemma HandledIsCheckout(proc: Proc)
    requires Matches(proc.req, proc.pc) && proc.pc == Finished(Handled)
    ensures proc.req.Checkout?
  {
  }

  // ----- what retired means

  /** At position k of the script the handler p asked Stripe about id and its record was cancelled. */
  ghost predicate SawCancelled(cfg: Config, stripe: Stripe, script: seq<Move>, p: nat, id: string, k: nat) {
    && k < |script| && script[k].Act? && script[k].p == p
    && var s := Run(cfg, Init(stripe), script[..k]);
    && CanAct(s, p) && s.procs[p].pc.FetchPrevious? && s.procs[p].pc.previous == id && id in s.stripe.subscriptions
    && var rec := s.stripe.subscriptions[id];
       rec.status == Canceled || (rec.cancelAt != 0 && rec.cancelAt < s.stripe.now)
  }

  lemma SawEarlier(cfg: Config, stripe: Stripe, script: seq<Move>, p: nat, id: string, k: nat)
    requires script != [] && SawCancelled(cfg, stripe, script[..|script| - 1], p, id, k)
    ensures SawCancelled(cfg, stripe, script, p, id, k)
  {
    hide Run;
    assert script[..|script| - 1][..k] == script[..k];
  }

  /** A handler comes to replace id only from its question about id, answered by a cancelled record. */
  lemma ComesFromCancelled(cfg: Config, s: System, fault: Fault, pc: Pc)
    requires !pc.Finished?
    ensures var next := Resume(cfg, s.stripe.now, pc, Effect(cfg, s.stripe, fault, s.tables, pc).1);
      next.Store? && next.seen.Some? ==>
        && pc.FetchPrevious? && pc.previous == next.seen.value && pc.previous in s.stripe.subscriptions
        && var rec := s.stripe.subscriptions[pc.previous];
           rec.status == Canceled || (rec.cancelAt != 0 && rec.cancelAt < s.stripe.now)
  {
    hide NextItem, Judge, Key, Grant, UnitRowOf, SumBetween, HasUnit, Spend, InvalidRowOf;
    if InLoop(pc) {
      var reply := Effect(cfg, s.stripe, fault, s.tables, pc).1;
      NextItemInLoop(pc.loop.rest, pc.loop.ensured, if pc.Insert? && reply.Number? then pc.loop.total + reply.n else pc.loop.total);
    }
  }

  lemma {:induction false} StoringSaw(cfg: Config, stripe: Stripe, script: seq<Move>, p: nat)
    returns (k: nat)
    requires var s := Run(cfg, Init(stripe), script);
      p < |s.procs| && s.procs[p].pc.Store? && s.procs[p].pc.seen.Some?
    ensures SawCancelled(cfg, stripe, script, p, Run(cfg, Init(stripe), script).procs[p].pc.seen.value, k)
  {
    k := 0;
    if script != [] {
      hide Run, Step, Effect, Resume, Start;
      var front, m := script[..|script| - 1], script[|script| - 1];
      var s, end := Run(cfg, Init(stripe), front), Run(cfg, Init(stripe), script);
      LastStep(cfg, Init(stripe), script);
      HandlerMoves(cfg, s, m, p);
      if p >= |s.procs| {
        StartUnstored(m.req);
      } else if m.Act? && m.p == p && CanAct(s, p) {
        ComesFromCancelled(cfg, s, m.fault, s.procs[p].pc);
        k := |script| - 1;
      } else {
        k := StoringSaw(cfg, stripe, front, p);
        SawEarlier(cfg, stripe, script, p, end.procs[p].pc.seen.value, k);
      }
    } else {
      NobodyYet(cfg, stripe);
    }
  }

  lemma NobodyYet(cfg: Config, stripe: Stripe)
    ensures Run(cfg, Init(stripe), []) == Init(stripe)
  {
  }

  lemma StartUnstored(req: Request)
    ensures !Start(req).Store?
  {
    hide NextItem;
    if req.AddUnits? {
      NextItemInLoop(Converted(req.items), {}, 0);
    }
  }

  /** At position n of the script the handler p commits a checkout's ids to the account of u, having seen id there. */
  ghost predicate StoredOver(cfg: Config, stripe: Stripe, script: seq<Move>, p: nat, u: Digest, id: string, n: nat) {
    && n < |script| && script[n].Act? && script[n].p == p
    && var s := Run(cfg, Init(stripe), script[..n]);
    && CanAct(s, p) && Stores(cfg, s.procs[p].pc, script[n].fault, u) && s.procs[p].pc.seen == Some(id)
  }

  /** A subscription counts as retired only if some handler asked Stripe about it, was told that it is cancelled, and
      later committed its own checkout to that user's account. */
  lemma {:induction false} RetiredWasCancelled(cfg: Config, stripe: Stripe, script: seq<Move>, u: Digest, id: string)
    returns (p: nat, k: nat, n: nat)
    requires Retired(u, id) in Run(cfg, Init(stripe), script).retired
    ensures k < n && SawCancelled(cfg, stripe, script, p, id, k) && StoredOver(cfg, stripe, script, p, u, id, n)
  {
    p, k, n := 0, 0, 0;
    if script != [] {
      hide Run, Effect, Resume, Start, SawCancelled;
      var front, m := script[..|script| - 1], script[|script| - 1];
      var s := Run(cfg, Init(stripe), front);
      LastStep(cfg, Init(stripe), script);
      if Retired(u, id) in s.retired {
        p, k, n := RetiredWasCancelled(cfg, stripe, front, u, id);
        assert front[..n] == script[..n];
      } else {
        p, n := m.p, |script| - 1;
        k := StoringSaw(cfg, stripe, front, p);
        SawInFront(cfg, stripe, front, p, id, k);
      }
      SawEarlier(cfg, stripe, script, p, id, k);
    } else {
      NobodyYet(cfg, stripe);
    }
  }

  lemma SawInFront(cfg: Config, stripe: Stripe, script: seq<Move>, p: nat, id: string, k: nat)
    requires SawCancelled(cfg, stripe, script, p, id, k)
    ensures k < |script|
  {
  }

  // ----- overlapping checkouts

  lemma RunOn(cfg: Config, s: System, script: seq<Move>, m: Move)
    ensures Run(cfg, s, script + [m]) == Step(cfg, Run(cfg, s, script), m)
  {
    assert (script + [m])[..|script|] == script;
  }

  /** Handled one at a time is needed: two checkouts that interleave on a fresh account both succeed, and the first
      subscription is neither current nor recorded anywhere. */
  lemma OverlapLosesOne(cfg: Config, stripe: Stripe, a: Event, b: Event)
    returns (script: seq<Move>)
    requires EventOk(a) && EventOk(b) && a.user == b.user && a.subscriptionId != b.subscriptionId
    ensures Billing.Smooth(script)
    ensures var s := Run(cfg, Init(stripe), script);
      && s.procs == [Proc(Checkout(a), Finished(Handled)), Proc(Checkout(b), Finished(Handled))]
      && CellOf(s.tables, Key(cfg, b.user)) == Some(b.subscriptionId)
      && !Accounted(cfg, s, Key(cfg, a.user), a.subscriptionId)
  {
    hide *;
    var stored := BothStored(cfg, stripe, a, b);
    var u, s := Key(cfg, a.user), Run(cfg, Init(stripe), stored);
    RunOn(cfg, Init(stripe), stored, Act(0, Works));
    RunOn(cfg, Init(stripe), stored + [Act(0, Works)], Act(1, Works));
    script := stored + [Act(0, Works)] + [Act(1, Works)];
    BothFinish(cfg, stripe, a, b, s);
    SmoothTwice(stored);
  }

  lemma SmoothTwice(script: seq<Move>)
    requires Billing.Smooth(script)
    ensures Billing.Smooth(script + [Act(0, Works)] + [Act(1, Works)])
  {
  }

  lemma BothFinish(cfg: Config, stripe: Stripe, a: Event, b: Event, s: System)
    requires EventOk(b) && a.user == b.user && a.subscriptionId != b.subscriptionId
    requires s == System(EMPTY.(accounts := map[Key(cfg, b.user) := CheckoutRow(b)]), stripe,
      [Proc(Checkout(a), EnsureCredit(a.user, ThenFinish)), Proc(Checkout(b), EnsureCredit(b.user, ThenFinish))], [], [], {})
    ensures var end := Step(cfg, Step(cfg, s, Act(0, Works)), Act(1, Works));
      && end.procs == [Proc(Checkout(a), Finished(Handled)), Proc(Checkout(b), Finished(Handled))]
      && CellOf(end.tables, Key(cfg, b.user)) == Some(b.subscriptionId)
      && !Accounted(cfg, end, Key(cfg, a.user), a.subscriptionId)
  {
    hide NextItem, Judge, IsCancelled, Grant, UnitRowOf, SumBetween, HasUnit, Spend, InvalidRowOf, Key;
    var u := Key(cfg, b.user);
    var t := s.tables.(credit := map[u := Grant(cfg)]);
    assert Step(cfg, s, Act(0, Works))
        == System(t, stripe, [Proc(Checkout(a), Finished(Handled)), Proc(Checkout(b), EnsureCredit(b.user, ThenFinish))], [], [], {});
  }

  lemma BothStored(cfg: Config, stripe: Stripe, a: Event, b: Event)
    returns (script: seq<Move>)
    requires EventOk(a) && EventOk(b) && a.user == b.user
    ensures Billing.Smooth(script)
    ensures Run(cfg, Init(stripe), script)
         == System(EMPTY.(accounts := map[Key(cfg, b.user) := CheckoutRow(b)]), stripe,
              [Proc(Checkout(a), EnsureCredit(a.user, ThenFinish)), Proc(Checkout(b), EnsureCredit(b.user, ThenFinish))], [], [], {})
  {
    hide *;
    var checked := BothChecked(cfg, stripe, a, b);
    RunOn(cfg, Init(stripe), checked, Act(0, Works));
    RunOn(cfg, Init(stripe), checked + [Act(0, Works)], Act(1, Works));
    script := checked + [Act(0, Works)] + [Act(1, Works)];
    BothStore(cfg, stripe, a, b, Run(cfg, Init(stripe), checked));
    SmoothTwice(checked);
  }

  lemma BothStore(cfg: Config, stripe: Stripe, a: Event, b: Event, s: System)
    requires EventOk(a) && EventOk(b) && a.user == b.user
    requires s == System(EMPTY, stripe, [Proc(Checkout(a), Store(a, None)), Proc(Checkout(b), Store(b, None))], [], [], {})
    ensures Step(cfg, Step(cfg, s, Act(0, Works)), Act(1, Works))
         == System(EMPTY.(accounts := map[Key(cfg, b.user) := CheckoutRow(b)]), stripe,
              [Proc(Checkout(a), EnsureCredit(a.user, ThenFinish)), Proc(Checkout(b), EnsureCredit(b.user, ThenFinish))], [], [], {})
  {
    hide NextItem, Judge, IsCancelled, Grant, UnitRowOf, SumBetween, HasUnit, Spend, InvalidRowOf, Key;
    var u := Key(cfg, a.user);
    var t := EMPTY.(accounts := map[u := CheckoutRow(a)]);
    assert Step(cfg, s, Act(0, Works))
        == System(t, stripe, [Proc(Checkout(a), EnsureCredit(a.user, ThenFinish)), Proc(Checkout(b), Store(b, None))], [], [], {});
    assert t.accounts[u := CheckoutRow(b)] == map[u := CheckoutRow(b)];
  }

  lemma BothChecked(cfg: Config, stripe: Stripe, a: Event, b: Event)
    returns (script: seq<Move>)
    requires EventOk(a) && EventOk(b)
    ensures Billing.Smooth(script)
    ensures Run(cfg, Init(stripe), script)
         == System(EMPTY, stripe, [Proc(Checkout(a), Store(a, None)), Proc(Checkout(b), Store(b, None))], [], [], {})
  {
    hide NextItem, Judge, IsCancelled, Grant, UnitRowOf, SumBetween, HasUnit, Spend, Balance, InvalidRowOf, CheckoutRow;
    var s1 := [Arrive(Checkout(a))];
    RunOn(cfg, Init(stripe), [], Arrive(Checkout(a)));
    assert [] + [Arrive(Checkout(a))] == s1;
    RunOn(cfg, Init(stripe), s1, Arrive(Checkout(b)));
    var s2 := s1 + [Arrive(Checkout(b))];
    assert Run(cfg, Init(stripe), s2)
        == System(EMPTY, stripe, [Proc(Checkout(a), CheckAccount(a)), Proc(Checkout(b), CheckAccount(b))], [], [], {});
    RunOn(cfg, Init(stripe), s2, Act(0, Works));
    var s3 := s2 + [Act(0, Works)];
    assert Run(cfg, Init(stripe), s3)
        == System(EMPTY, stripe, [Proc(Checkout(a), Store(a, None)), Proc(Checkout(b), CheckAccount(b))], [], [], {});
    RunOn(cfg, Init(stripe), s3, Act(1, Works));
    script := s3 + [Act(1, Works)];
  }

  // ----- a live subscription is never replaced

  /** Stripe never brings a cancelled subscription back, and its clock does not run backwards past a cancellation. */
  predicate CancelsStay(before: Stripe, after: Stripe) {
    forall id :: id in before.subscriptions && IsCancelled(before.subscriptions[id], before.now) ==>
      id in after.subscriptions && IsCancelled(after.subscriptions[id], after.now)
  }

  predicate KnownCancelled(stripe: Stripe, id: string) {
    id in stripe.subscriptions && IsCancelled(stripe.subscriptions[id], stripe.now)
  }

  ghost predicate Steady(cfg: Config, s: System, script: seq<Move>) {
    script == [] ||
    (Steady(cfg, s, script[..|script| - 1])
     && (script[|script| - 1].Drift? ==> CancelsStay(Run(cfg, s, script[..|script| - 1]).stripe, script[|script| - 1].stripe)))
  }

  /** Whoever is about to replace a subscription knows it to be cancelled. */
  ghost predicate SeesCancelled(s: System) {
    forall p :: 0 <= p < |s.procs| && s.procs[p].pc.Store? && s.procs[p].pc.seen.Some? ==>
      KnownCancelled(s.stripe, s.procs[p].pc.seen.value)
  }

  lemma SeenStep(cfg: Config, stripe: Stripe, fault: Fault, t: Tables, pc: Pc)
    requires !pc.Finished?
    ensures var next := Resume(cfg, stripe.now, pc, Effect(cfg, stripe, fault, t, pc).1);
      next.Store? && next.seen.Some? ==> KnownCancelled(stripe, next.seen.value)
  {
    hide NextItem, Judge, Key, Grant, UnitRowOf, SumBetween, HasUnit, Spend, InvalidRowOf;
    if InLoop(pc) {
      var reply := Effect(cfg, stripe, fault, t, pc).1;
      NextItemInLoop(pc.loop.rest, pc.loop.ensured, if pc.Insert? && reply.Number? then pc.loop.total + reply.n else pc.loop.total);
    }
  }

  lemma {:induction false} RunSeesCancelled(cfg: Config, stripe: Stripe, script: seq<Move>)
    requires Steady(cfg, Init(stripe), script)
    ensures SeesCancelled(Run(cfg, Init(stripe), script))
  {
    if script != [] {
      hide Effect, Resume, IsCancelled, NextItem;
      var m := script[|script| - 1];
      RunSeesCancelled(cfg, stripe, script[..|script| - 1]);
      var s := Run(cfg, Init(stripe), script[..|script| - 1]);
      if m.Act? && CanAct(s, m.p) {
        SeenStep(cfg, s.stripe, m.fault, s.tables, s.procs[m.p].pc);
      } else if m.Arrive? && m.req.AddUnits? {
        NextItemInLoop(Converted(m.req.items), {}, 0);
      }
    }
  }

  /** In such runs an account's subscription changes only while that subscription's Stripe record is cancelled. */
  lemma NeverReplacedAlive(cfg: Config, stripe: Stripe, script: seq<Move>, m: Move, u: Digest)
    requires Serial(cfg, Init(stripe), script) && Steady(cfg, Init(stripe), script)
    ensures !ReplacesAlive(cfg, Run(cfg, Init(stripe), script), m, u)
  {
    hide Run, Serial, Steady, KnownCancelled, ReplacesAlive;
    RunSeesCancelled(cfg, stripe, script);
    ReplacedAliveIff(cfg, stripe, script, m);
  }

  /** The move takes the subscription of u out of its account while its Stripe record is not cancelled. */
  ghost predicate ReplacesAlive(cfg: Config, s: System, m: Move, u: Digest) {
    var before, after := CellOf(s.tables, u), CellOf(Step(cfg, s, m).tables, u);
    before != after && before.Some? && !KnownCancelled(s.stripe, before.value)
  }

  /** A handler stores over a subscription that it read as cancelled and that Stripe has revived since. */
  predicate StoresOverRevived(s: System, m: Move) {
    m.Act? && CanAct(s, m.p) && !m.fault.FailsBefore?
    && var pc := s.procs[m.p].pc;
       pc.Store? && pc.seen.Some? && pc.seen.value != pc.event.subscriptionId && !KnownCancelled(s.stripe, pc.seen.value)
  }

  /** Exactly when a live subscription is replaced in a serial run, whatever Stripe does: when it was revived between
      the handler's request to Stripe and its store. */
  lemma ReplacedAliveIff(cfg: Config, stripe: Stripe, script: seq<Move>, m: Move)
    requires Serial(cfg, Init(stripe), script)
    ensures var s := Run(cfg, Init(stripe), script);
      (exists u :: ReplacesAlive(cfg, s, m, u)) <==> StoresOverRevived(s, m)
  {
    hide Run, Serial, Effect, Resume, IsCancelled, Matches;
    RunKeepsSerial(cfg, stripe, script);
    var s := Run(cfg, Init(stripe), script);
    if m.Act? && CanAct(s, m.p) {
      assert Watching(cfg, s, m.p);
      var pc := s.procs[m.p].pc;
      if StoresOverRevived(s, m) {
        CellStays(cfg, s, m.p, m.fault, Key(cfg, pc.event.user));
        assert ReplacesAlive(cfg, s, m, Key(cfg, pc.event.user));
      }
      forall u | ReplacesAlive(cfg, s, m, u)
        ensures StoresOverRevived(s, m)
      {
        CellStays(cfg, s, m.p, m.fault, u);
      }
    }
  }

  /** It can happen: when a handler is about to replace a subscription and Stripe revives that one first, the store
      goes ahead. */
  lemma RevivalIsOverwritten(cfg: Config, stripe: Stripe, script: seq<Move>, p: nat, revived: Stripe)
    requires Serial(cfg, Init(stripe), script)
    requires var s := Run(cfg, Init(stripe), script);
      && CanAct(s, p) && s.procs[p].pc.Store? && s.procs[p].pc.seen.Some?
      && s.procs[p].pc.seen.value != s.procs[p].pc.event.subscriptionId
      && !KnownCancelled(revived, s.procs[p].pc.seen.value)
    ensures Serial(cfg, Init(stripe), script + [Drift(revived)])
    ensures exists u :: ReplacesAlive(cfg, Run(cfg, Init(stripe), script + [Drift(revived)]), Act(p, Works), u)
  {
    hide Run, KnownCancelled, ReplacesAlive;
    assert (script + [Drift(revived)])[..|script|] == script;
    RunOn(cfg, Init(stripe), script, Drift(revived));
    ReplacedAliveIff(cfg, stripe, script + [Drift(revived)], Act(p, Works));
  }

  /** Stripe with rec as its record of id. */
  function WithRecord(stripe: Stripe, id: string, rec: Subscription): Stripe {
    stripe.(subscriptions := stripe.subscriptions[id := rec])
  }

  const CANCELLED := Subscription(Canceled, 0, 0, 0, None, 0)
  const REVIVED := Subscription(Active, 0, 0, 0, None, 0)

  /** The script is a serial run without failures that ends in s. */
  ghost predicate Leads(cfg: Config, stripe: Stripe, script: seq<Move>, s: System) {
    Serial(cfg, Init(stripe), script) && Billing.Smooth(script) && Run(cfg, Init(stripe), script) == s
  }

  lemma LeadsOn(cfg: Config, stripe: Stripe, script: seq<Move>, s: System, m: Move)
    requires Leads(cfg, stripe, script, s) && InTurn(cfg, s, m) && (m.Act? ==> m.fault.Works?)
    ensures Leads(cfg, stripe, script + [m], Step(cfg, s, m))
  {
    hide Step, InTurn;
    RunOn(cfg, Init(stripe), script, m);
    assert (script + [m])[..|script|] == script;
  }

  lemma FirstStores(cfg: Config, stripe: Stripe, a: Event)
    returns (script: seq<Move>)
    requires EventOk(a)
    ensures Leads(cfg, stripe, script, System(EMPTY, stripe, [Proc(Checkout(a), Store(a, None))], [], [], {}))
  {
    hide Run, Serial, NextItem, Judge, IsCancelled, Grant, UnitRowOf, SumBetween, HasUnit, Spend, InvalidRowOf, CheckoutRow, Key, Leads;
    LeadsNowhere(cfg, stripe);
    LeadsOn(cfg, stripe, [], Init(stripe), Arrive(Checkout(a)));
    script := [] + [Arrive(Checkout(a))];
    var checking := System(EMPTY, stripe, [Proc(Checkout(a), CheckAccount(a))], [], [], {});
    assert Step(cfg, Init(stripe), Arrive(Checkout(a))) == checking;
    LeadsOn(cfg, stripe, script, checking, Act(0, Works));
    script := script + [Act(0, Works)];
    assert Step(cfg, checking, Act(0, Works)) == System(EMPTY, stripe, [Proc(Checkout(a), Store(a, None))], [], [], {});
  }

  /** The checkout of a, alone on empty tables. */
  lemma FirstHandled(cfg: Config, stripe: Stripe, a: Event)
    returns (script: seq<Move>, s: System)
    requires EventOk(a)
    ensures Leads(cfg, stripe, script, s)
    ensures s.procs == [Proc(Checkout(a), Finished(Handled))] && s.stripe == stripe
    ensures s.tables.accounts == map[Key(cfg, a.user) := CheckoutRow(a)]
  {
    hide *;
    script := FirstStores(cfg, stripe, a);
    var storing := System(EMPTY, stripe, [Proc(Checkout(a), Store(a, None))], [], [], {});
    CallsAreInTurn(cfg, storing, 0);
    LeadsOn(cfg, stripe, script, storing, Act(0, Works));
    StoreOnEmpty(cfg, stripe, a);
    var ensuring := Step(cfg, storing, Act(0, Works));
    CallsAreInTurn(cfg, ensuring, 0);
    LeadsOn(cfg, stripe, script + [Act(0, Works)], ensuring, Act(0, Works));
    EnsureAfterStore(cfg, stripe, a);
    script := script + [Act(0, Works)] + [Act(0, Works)];
    s := Step(cfg, ensuring, Act(0, Works));
  }

  lemma CallsAreInTurn(cfg: Config, s: System, p: nat)
    ensures InTurn(cfg, s, Act(p, Works))
  {
  }

  lemma EnsureAfterStore(cfg: Config, stripe: Stripe, a: Event)
    ensures var stored := EMPTY.(accounts := map[Key(cfg, a.user) := CheckoutRow(a)]);
      var s := Step(cfg, System(stored, stripe, [Proc(Checkout(a), EnsureCredit(a.user, ThenFinish))], [], [], {}), Act(0, Works));
      && s.procs == [Proc(Checkout(a), Finished(Handled))] && s.stripe == stripe
      && s.tables.accounts == stored.accounts
  {
    hide Grant, Key, CheckoutRow;
  }

  lemma StoreOnEmpty(cfg: Config, stripe: Stripe, a: Event)
    requires EventOk(a)
    ensures Step(cfg, System(EMPTY, stripe, [Proc(Checkout(a), Store(a, None))], [], [], {}), Act(0, Works))
         == System(EMPTY.(accounts := map[Key(cfg, a.user) := CheckoutRow(a)]), stripe,
              [Proc(Checkout(a), EnsureCredit(a.user, ThenFinish))], [], [], {})
  {
    hide NextItem, Judge, IsCancelled, Grant, UnitRowOf, SumBetween, HasUnit, Spend, InvalidRowOf, Key;
  }

  lemma LeadsNowhere(cfg: Config, stripe: Stripe)
    ensures Leads(cfg, stripe, [], Init(stripe))
  {
  }

  /** A second checkout of the user, once the first one's subscription is cancelled, comes to its store. */
  lemma SecondSeesCancelled(cfg: Config, stripe: Stripe, a: Event, b: Event)
    returns (script: seq<Move>, s: System)
    requires EventOk(a) && EventOk(b) && a.user == b.user
    ensures Leads(cfg, stripe, script, s)
    ensures s.procs == [Proc(Checkout(a), Finished(Handled)), Proc(Checkout(b), Store(b, Some(a.subscriptionId)))]
  {
    hide Run, Serial, NextItem, Judge, Grant, UnitRowOf, SumBetween, HasUnit, Spend, InvalidRowOf, Key;
    var first, handled := FirstHandled(cfg, stripe, a);
    var drift := Drift(WithRecord(stripe, a.subscriptionId, CANCELLED));
    LeadsOn(cfg, stripe, first, handled, drift);
    var drifted := Step(cfg, handled, drift);
    LeadsOn(cfg, stripe, first + [drift], drifted, Arrive(Checkout(b)));
    var arrived := Step(cfg, drifted, Arrive(Checkout(b)));
    assert arrived.procs == [Proc(Checkout(a), Finished(Handled)), Proc(Checkout(b), CheckAccount(b))];
    LeadsOn(cfg, stripe, first + [drift] + [Arrive(Checkout(b))], arrived, Act(1, Works));
    var checked := Step(cfg, arrived, Act(1, Works));
    assert checked.procs == [Proc(Checkout(a), Finished(Handled)), Proc(Checkout(b), FetchPrevious(b, a.subscriptionId))];
    LeadsOn(cfg, stripe, first + [drift] + [Arrive(Checkout(b))] + [Act(1, Works)], checked, Act(1, Works));
    script := first + [drift] + [Arrive(Checkout(b))] + [Act(1, Works)] + [Act(1, Works)];
    s := Step(cfg, checked, Act(1, Works));
  }

  /** A live subscription can be replaced although the checkouts of its user are handled one at a time and no call fails:
      the first checkout is handled, its subscription is cancelled, the second checkout reads that, Stripe revives the
      subscription, and the second checkout's store overwrites it. */
  lemma RevivedIsReplaced(cfg: Config, stripe: Stripe, a: Event, b: Event)
    returns (script: seq<Move>)
    requires EventOk(a) && EventOk(b) && a.user == b.user && a.subscriptionId != b.subscriptionId
    ensures Serial(cfg, Init(stripe), script) && Billing.Smooth(script)
    ensures exists u :: ReplacesAlive(cfg, Run(cfg, Init(stripe), script), Act(1, Works), u)
  {
    hide Run, Serial, ReplacesAlive;
    var seen, s := SecondSeesCancelled(cfg, stripe, a, b);
    var revived := WithRecord(stripe, a.subscriptionId, REVIVED);
    RevivalIsOverwritten(cfg, stripe, seen, 1, revived);
    script := seen + [Drift(revived)];
  }
}
