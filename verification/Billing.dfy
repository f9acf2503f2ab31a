/**
 The books of the interleaved system: every inserted row is charged once, or still owed by exactly
 one handler, or lost to a failed call; and every credit is the clamped grant less what was charged.
 */
module Billing {
  import opened Prelude
  import opened Identity
  import opened Gateway
  import opened Tables
  import opened Requests
  import opened System

  /** The row whose charge a handler at pc is about to make. */
  function Owing(cfg: Config, pc: Pc): multiset<UnitRow> {
    if pc.Charge? then multiset{UnitRowOf(cfg, pc.loop.item)} else multiset{}
  }

  /** The rows that handlers have inserted and are about to charge. */
  function Owed(cfg: Config, procs: seq<Proc>): multiset<UnitRow> {
    if procs == [] then multiset{} else Owed(cfg, procs[..|procs| - 1]) + Owing(cfg, procs[|procs| - 1].pc)
  }

  /** Every inserted row is in exactly one book. */
  ghost predicate Books(cfg: Config, s: System) {
    multiset(s.tables.units) == multiset(s.charges) + multiset(s.lost) + Owed(cfg, s.procs)
  }

  ghost predicate Positive(units: seq<UnitRow>) {
    forall r :: r in units ==> r.amount > 0
  }

  ghost predicate Balances(cfg: Config, s: System) {
    forall u :: u in s.tables.credit ==> s.tables.credit[u] == Balance(Grant(cfg), SumFor(u, s.charges))
  }

  ghost predicate PointsOk(cfg: Config, s: System) {
    forall p :: 0 <= p < |s.procs| ==> PointOk(cfg, s.tables, s.procs[p].pc)
  }

  ghost predicate Inv(cfg: Config, s: System) {
    && Chained(s.tables)
    && Positive(s.tables.units)
    && PointsOk(cfg, s)
    && Books(cfg, s)
    && Balances(cfg, s)
  }

  // ----- the books

  lemma Exchange(a: multiset<UnitRow>, b: multiset<UnitRow>, p: multiset<UnitRow>, x: multiset<UnitRow>, rest: multiset<UnitRow>)
    requires a + p == b + x
    ensures (a + rest) + p == (b + rest) + x
  {
    assert (a + rest) + p == (a + p) + rest;
    assert (b + rest) + x == (b + x) + rest;
  }

  lemma OwedSnoc(cfg: Config, procs: seq<Proc>, x: Proc)
    ensures Owed(cfg, procs + [x]) == Owed(cfg, procs) + Owing(cfg, x.pc)
  {
    assert (procs + [x])[..|procs|] == procs;
  }

  lemma OwedUpdateLast(cfg: Config, procs: seq<Proc>, last: Proc, x: Proc)
    ensures Owed(cfg, procs + [x]) + Owing(cfg, last.pc) == Owed(cfg, procs + [last]) + Owing(cfg, x.pc)
  {
    OwedSnoc(cfg, procs, last);
    OwedSnoc(cfg, procs, x);
    var bag, a, b := Owed(cfg, procs), Owing(cfg, x.pc), Owing(cfg, last.pc);
    assert (bag + a) + b == (bag + b) + a;
  }

  lemma OwedUpdateFront(cfg: Config, before: seq<Proc>, after: seq<Proc>, last: Proc, was: Pc, now: Pc)
    requires Owed(cfg, after) + Owing(cfg, was) == Owed(cfg, before) + Owing(cfg, now)
    ensures Owed(cfg, after + [last]) + Owing(cfg, was) == Owed(cfg, before + [last]) + Owing(cfg, now)
  {
    OwedSnoc(cfg, before, last);
    OwedSnoc(cfg, after, last);
    Exchange(Owed(cfg, after), Owed(cfg, before), Owing(cfg, was), Owing(cfg, now), Owing(cfg, last.pc));
  }

  lemma {:induction false} OwedUpdate(cfg: Config, procs: seq<Proc>, p: nat, x: Proc)
    requires p < |procs|
    ensures Owed(cfg, procs[p := x]) + Owing(cfg, procs[p].pc) == Owed(cfg, procs) + Owing(cfg, x.pc)
  {
    var front, last := procs[..|procs| - 1], procs[|procs| - 1];
    assert procs == front + [last];
    if p == |procs| - 1 {
      assert procs[p := x] == front + [x];
      OwedUpdateLast(cfg, front, last, x);
    } else {
      assert procs[p := x] == front[p := x] + [last];
      OwedUpdate(cfg, front, p, x);
      OwedUpdateFront(cfg, front, front[p := x], last, procs[p].pc, x.pc);
    }
  }

  /** The rows a call appends to spending_unit. */
  function Appended(cfg: Config, stripe: Stripe, fault: Fault, t: Tables, pc: Pc): seq<UnitRow>
    requires !pc.Finished?
  {
    if pc.Insert? && !fault.FailsBefore? then Exec(t, InsertUnit(UnitRowOf(cfg, pc.loop.item))).0.units[|t.units|..] else []
  }

  /** One call moves rows between the books: a row that is new or was owed is now charged, lost or owed. */
  ghost predicate RowsMove(cfg: Config, stripe: Stripe, fault: Fault, t: Tables, pc: Pc)
    requires !pc.Finished?
  {
    var (u, reply) := Effect(cfg, stripe, fault, t, pc);
    && u.units == t.units + Appended(cfg, stripe, fault, t, pc)
    && multiset(Appended(cfg, stripe, fault, t, pc)) + Owing(cfg, pc)
       == multiset(Charged(cfg, pc, fault)) + multiset(Lost(cfg, t, pc, fault))
        + Owing(cfg, Resume(cfg, stripe.now, pc, reply))
  }

  lemma InsertAppends(cfg: Config, t: Tables, it: SpendingUnit)
    ensures var row := UnitRowOf(cfg, it);
      var (u, reply) := Exec(t, InsertUnit(row));
      var rows := u.units[|t.units|..];
      && u.units == t.units + rows
      && ((rows == [row] && reply == Number(1)) || (rows == [] && !(reply.Number? && reply.n > 0)))
  {
    hide HasUnit;
    var row := UnitRowOf(cfg, it);
    var u := Exec(t, InsertUnit(row)).0;
    assert u.units == t.units || u.units == t.units + [row];
    assert u.units[|t.units|..] == if u.units == t.units then [] else [row];
  }

  /** The insert as one equation: what it does to the tables, and what the handler sees. */
  lemma InsertCall(cfg: Config, stripe: Stripe, fault: Fault, t: Tables, pc: Pc)
    requires pc.Insert?
    ensures var (u, reply) := Exec(t, InsertUnit(UnitRowOf(cfg, pc.loop.item)));
      Effect(cfg, stripe, fault, t, pc)
      == match fault case Works => (u, reply) case FailsBefore => (t, Failure) case FailsAfter => (u, Failure)
  {
    hide Exec, UnitRowOf;
  }

  /** After the insert a charge is owed exactly when the reply counts a row. */
  lemma InsertOwes(cfg: Config, now: int, pc: Pc, reply: Reply)
    requires pc.Insert?
    ensures Owing(cfg, Resume(cfg, now, pc, reply))
         == if reply.Number? && reply.n > 0 then multiset{UnitRowOf(cfg, pc.loop.item)} else multiset{}
  {
    hide NextItem, UnitRowOf;
    if reply.Number? {
      NextItemOwes(cfg, pc.loop.rest, pc.loop.ensured, pc.loop.total + reply.n);
    }
  }

  lemma InsertMoves(cfg: Config, stripe: Stripe, fault: Fault, t: Tables, pc: Pc)
    requires pc.Insert?
    ensures RowsMove(cfg, stripe, fault, t, pc)
  {
    hide Exec, UnitRowOf, Effect, Resume;
    var row := UnitRowOf(cfg, pc.loop.item);
    InsertAppends(cfg, t, pc.loop.item);
    InsertCall(cfg, stripe, fault, t, pc);
    InsertOwes(cfg, stripe.now, pc, Effect(cfg, stripe, fault, t, pc).1);
    assert multiset([row]) == multiset{row};
  }

  lemma ChargeMoves(cfg: Config, stripe: Stripe, fault: Fault, t: Tables, pc: Pc)
    requires pc.Charge?
    requires fault.Works? ==> Effect(cfg, stripe, fault, t, pc).1.Acked?
    ensures RowsMove(cfg, stripe, fault, t, pc)
  {
    hide NextItem, UnitRowOf, Spend;
    NextItemOwes(cfg, pc.loop.rest, pc.loop.ensured, pc.loop.total);
  }

  lemma OtherOwes(cfg: Config, now: int, pc: Pc, reply: Reply)
    requires !pc.Finished? && !InLoop(pc)
    ensures !Resume(cfg, now, pc, reply).Charge?
  {
  }

  lemma OtherUnits(cfg: Config, stripe: Stripe, fault: Fault, t: Tables, pc: Pc)
    requires !pc.Finished? && !InLoop(pc)
    ensures Effect(cfg, stripe, fault, t, pc).0.units == t.units
  {
    hide HasUnit, Key, SumBetween, Spend, Merged, Grant, UnitRowOf, CheckoutRow, InvalidRowOf;
  }

  /** A call away from the ledger loop moves no rows. */
  lemma OtherMoves(cfg: Config, stripe: Stripe, fault: Fault, t: Tables, pc: Pc)
    requires !pc.Finished? && !InLoop(pc)
    ensures RowsMove(cfg, stripe, fault, t, pc)
  {
    hide Effect, Resume;
    OtherUnits(cfg, stripe, fault, t, pc);
    OtherOwes(cfg, stripe.now, pc, Effect(cfg, stripe, fault, t, pc).1);
  }

  lemma NextItemOwes(cfg: Config, items: seq<SpendingUnit>, ensured: set<Bytes>, total: int)
    ensures Owing(cfg, NextItem(items, ensured, total)) == multiset{}
  {
  }

  lemma CallBooks(cfg: Config, s: System, p: nat, fault: Fault)
    requires CanAct(s, p) && Books(cfg, s)
    requires RowsMove(cfg, s.stripe, fault, s.tables, s.procs[p].pc)
    ensures Books(cfg, Acted(cfg, s, p, fault))
  {
    var pc, next := s.procs[p].pc, Acted(cfg, s, p, fault);
    OwedUpdate(cfg, s.procs, p, next.procs[p]);
    Transfer(
      multiset(s.tables.units), multiset(Appended(cfg, s.stripe, fault, s.tables, pc)),
      multiset(s.charges), multiset(Charged(cfg, pc, fault)),
      multiset(s.lost), multiset(Lost(cfg, s.tables, pc, fault)),
      Owed(cfg, s.procs), Owed(cfg, next.procs), Owing(cfg, pc), Owing(cfg, next.procs[p].pc));
  }

  lemma Transfer(
      units: multiset<UnitRow>, appended: multiset<UnitRow>,
      charges: multiset<UnitRow>, charged: multiset<UnitRow>,
      losses: multiset<UnitRow>, lost: multiset<UnitRow>,
      owed: multiset<UnitRow>, owedAfter: multiset<UnitRow>, owing: multiset<UnitRow>, owingAfter: multiset<UnitRow>)
    requires units == charges + losses + owed
    requires appended + owing == charged + lost + owingAfter
    requires owedAfter + owing == owed + owingAfter
    ensures units + appended == (charges + charged) + (losses + lost) + owedAfter
  {
    forall r
      ensures (units + appended)[r] == ((charges + charged) + (losses + lost) + owedAfter)[r]
    {
      assert (appended + owing)[r] == (charged + lost + owingAfter)[r];
      assert (owedAfter + owing)[r] == (owed + owingAfter)[r];
    }
  }

  // ----- the balances

  lemma ChargesInserted(cfg: Config, s: System)
    requires Books(cfg, s) && Positive(s.tables.units)
    ensures forall r :: r in s.charges || r in s.lost || r in Owed(cfg, s.procs) ==> r in s.tables.units
    ensures Positive(s.charges) && Positive(s.lost)
  {
    forall r | r in s.charges || r in s.lost || r in Owed(cfg, s.procs)
      ensures r in s.tables.units
    {
      assert r in multiset(s.charges) || r in multiset(s.lost) || r in Owed(cfg, s.procs);
      assert r in multiset(s.tables.units);
    }
  }

  /** A charge finds its user's credit row and stays within int32, so it can only fail as a fault. */
  lemma ChargeFits(cfg: Config, s: System, p: nat)
    requires Inv(cfg, s) && CanAct(s, p) && s.procs[p].pc.Charge?
    ensures var loop := s.procs[p].pc.loop;
      var user, amount := Key(cfg, loop.item.userId), ToInt32(loop.item.amount);
      && user in s.tables.credit
      && amount == loop.item.amount > 0
      && SumFor(user, s.charges) >= 0
      && Exec(s.tables, ConsumeCredit(user, amount))
         == (s.tables.(credit := s.tables.credit[user := Balance(Grant(cfg), SumFor(user, s.charges) + amount)]), Acked)
  {
    var loop := s.procs[p].pc.loop;
    var user, amount := Key(cfg, loop.item.userId), ToInt32(loop.item.amount);
    assert PointOk(cfg, s.tables, s.procs[p].pc);
    assert UnitRowOf(cfg, loop.item).user == user;
    ChargesInserted(cfg, s);
    SumForPositive(user, s.charges);
    SpendBalance(Grant(cfg), SumFor(user, s.charges), amount);
  }

  /** Away from a charge, a call changes credits only by granting one to a user who had none. */
  lemma OnlyGrants(cfg: Config, stripe: Stripe, fault: Fault, t: Tables, pc: Pc)
    requires !pc.Finished? && !pc.Charge?
    ensures var u := Effect(cfg, stripe, fault, t, pc).0;
      forall x :: x in u.credit ==> u.credit[x] == if x in t.credit then t.credit[x] else Grant(cfg)
  {
    hide HasUnit, Key, SumBetween, Spend, Merged, Grant;
  }

  lemma InvBalances(cfg: Config, s: System)
    requires Inv(cfg, s)
    ensures Balances(cfg, s)
  {
  }

  lemma ChargeBalances(cfg: Config, s: System, p: nat, fault: Fault)
    requires Inv(cfg, s) && CanAct(s, p) && s.procs[p].pc.Charge?
    ensures Balances(cfg, Acted(cfg, s, p, fault))
  {
    hide Inv, Key;
    var pc, next := s.procs[p].pc, Acted(cfg, s, p, fault);
    ChargeFits(cfg, s, p);
    InvBalances(cfg, s);
    var row := UnitRowOf(cfg, pc.loop.item);
    if fault.FailsBefore? {
      assert next.charges == s.charges;
    } else {
      assert next.charges == s.charges + [row];
      forall u | u in next.tables.credit
        ensures next.tables.credit[u] == Balance(Grant(cfg), SumFor(u, next.charges))
      {
        SumForSnoc(u, s.charges, row);
      }
    }
  }

  lemma OtherBalances(cfg: Config, s: System, p: nat, fault: Fault)
    requires Inv(cfg, s) && CanAct(s, p) && !s.procs[p].pc.Charge?
    ensures Balances(cfg, Acted(cfg, s, p, fault))
  {
    var next := Acted(cfg, s, p, fault);
    ChargesInserted(cfg, s);
    OnlyGrants(cfg, s.stripe, fault, s.tables, s.procs[p].pc);
    assert next.charges == s.charges;
    forall u | u in next.tables.credit && u !in s.tables.credit
      ensures SumFor(u, s.charges) == 0
    {
      SumForPositive(u, s.charges);
    }
  }

  // ----- every move keeps the invariant

  lemma CallPoints(cfg: Config, s: System, p: nat, fault: Fault)
    requires Inv(cfg, s) && CanAct(s, p)
    ensures var next := Acted(cfg, s, p, fault);
      Chained(next.tables) && Grows(s.tables, next.tables) && PointsOk(cfg, next)
  {
    var next := Acted(cfg, s, p, fault);
    EffectKeeps(cfg, s.stripe, fault, s.tables, s.procs[p].pc);
    ResumeOk(cfg, s.stripe, fault, s.tables, s.procs[p].pc);
    forall q | 0 <= q < |next.procs| && q != p
      ensures PointOk(cfg, next.tables, next.procs[q].pc)
    {
      PointOkLasts(cfg, s.tables, next.tables, s.procs[q].pc);
    }
  }

  lemma CallMovesRows(cfg: Config, s: System, p: nat, fault: Fault)
    requires Inv(cfg, s) && CanAct(s, p)
    ensures RowsMove(cfg, s.stripe, fault, s.tables, s.procs[p].pc)
    ensures Positive(Appended(cfg, s.stripe, fault, s.tables, s.procs[p].pc))
  {
    var pc := s.procs[p].pc;
    assert PointOk(cfg, s.tables, pc);
    hide RowsMove, Effect, Chained, Books, Balances, LoopOk;
    if pc.Insert? {
      InsertMoves(cfg, s.stripe, fault, s.tables, pc);
      AppendedPositive(cfg, s.stripe, fault, s.tables, pc);
    } else if pc.Charge? {
      ChargeAcked(cfg, s, p);
      ChargeMoves(cfg, s.stripe, fault, s.tables, pc);
    } else {
      OtherMoves(cfg, s.stripe, fault, s.tables, pc);
    }
  }

  lemma ChargeAcked(cfg: Config, s: System, p: nat)
    requires Inv(cfg, s) && CanAct(s, p) && s.procs[p].pc.Charge?
    ensures Effect(cfg, s.stripe, Works, s.tables, s.procs[p].pc).1.Acked?
  {
    hide Inv;
    ChargeFits(cfg, s, p);
  }

  lemma AppendedPositive(cfg: Config, stripe: Stripe, fault: Fault, t: Tables, pc: Pc)
    requires pc.Insert? && PointOk(cfg, t, pc)
    ensures Positive(Appended(cfg, stripe, fault, t, pc))
  {
    hide HasUnit;
    var row := UnitRowOf(cfg, pc.loop.item);
    var u := Exec(t, InsertUnit(row)).0;
    assert u.units == t.units || u.units == t.units + [row];
  }

  lemma CallKeepsInv(cfg: Config, s: System, p: nat, fault: Fault)
    requires Inv(cfg, s) && CanAct(s, p)
    ensures Inv(cfg, Acted(cfg, s, p, fault))
  {
    CallPoints(cfg, s, p, fault);
    if s.procs[p].pc.Charge? {
      ChargeBalances(cfg, s, p, fault);
    } else {
      OtherBalances(cfg, s, p, fault);
    }
    CallMovesRows(cfg, s, p, fault);
    CallBooks(cfg, s, p, fault);
  }

  lemma StepKeepsInv(cfg: Config, s: System, m: Move)
    requires Inv(cfg, s)
    ensures Inv(cfg, Step(cfg, s, m))
    ensures Grows(s.tables, Step(cfg, s, m).tables) && s.charges <= Step(cfg, s, m).charges
  {
    match m
    case Arrive(req) =>
      StartOk(cfg, s.tables, req);
      OwedSnoc(cfg, s.procs, Proc(req, Start(req)));
    case Act(p, fault) =>
      if CanAct(s, p) {
        CallKeepsInv(cfg, s, p, fault);
        CallPoints(cfg, s, p, fault);
      }
    case Drift(_) =>
  }

  lemma {:induction false} RunKeepsInv(cfg: Config, s: System, script: seq<Move>)
    requires Inv(cfg, s)
    ensures Inv(cfg, Run(cfg, s, script))
    ensures Grows(s.tables, Run(cfg, s, script).tables) && s.charges <= Run(cfg, s, script).charges
  {
    if script != [] {
      RunKeepsInv(cfg, s, script[..|script| - 1]);
      StepKeepsInv(cfg, Run(cfg, s, script[..|script| - 1]), script[|script| - 1]);
    }
  }

  lemma InitInv(cfg: Config, stripe: Stripe)
    ensures Inv(cfg, Init(stripe))
  {
  }

  ghost predicate Reachable(cfg: Config, s: System) {
    exists stripe, script :: s == Run(cfg, Init(stripe), script)
  }

  lemma ReachableInv(cfg: Config, s: System)
    requires Reachable(cfg, s)
    ensures Inv(cfg, s)
  {
    var stripe, script :| s == Run(cfg, Init(stripe), script);
    RunKeepsInv(cfg, Init(stripe), script);
  }

  // ----- what this means in every reachable state

  lemma DistinctOnce(units: seq<UnitRow>, r: UnitRow)
    requires DistinctUnits(units)
    ensures multiset(units)[r] <= 1
  {
    if r in units {
      var k :| 0 <= k < |units| && units[k] == r;
      WithoutMultiset(units, k);
      assert r !in Without(units, k);
    }
  }

  lemma OnceDistinct(units: seq<UnitRow>, part: seq<UnitRow>)
    requires DistinctUnits(units) && multiset(part) <= multiset(units)
    ensures DistinctUnits(part)
  {
    forall i, j | 0 <= i < j < |part|
      ensures part[i].externalId != part[j].externalId
    {
      assert part[i] in multiset(units) && part[j] in multiset(units);
      WithoutMultiset(part, j);
      assert Without(part, j)[i] == part[i];
      assert part[i] in multiset(Without(part, j));
      DistinctOnce(units, part[j]);
    }
  }

  /** Exactly-once charging: under any interleaving and any failures, no external id is charged twice,
      none is charged that was not inserted, and none is charged that is owed or lost. */
  lemma ExactlyOnce(cfg: Config, s: System)
    requires Reachable(cfg, s)
    ensures DistinctUnits(s.tables.units) && DistinctUnits(s.charges)
    ensures forall r :: r in s.charges ==> r in s.tables.units && r !in s.lost && r !in Owed(cfg, s.procs)
    ensures forall r :: r in s.tables.units ==> r in s.charges || r in s.lost || r in Owed(cfg, s.procs)
    ensures Balances(cfg, s)
  {
    ReachableInv(cfg, s);
    OnceDistinct(s.tables.units, s.charges);
    forall r | r in s.charges
      ensures r in s.tables.units && r !in s.lost && r !in Owed(cfg, s.procs)
    {
      ChargesInserted(cfg, s);
      DistinctOnce(s.tables.units, r);
      assert r in multiset(s.charges);
      assert r !in multiset(s.lost) && r !in Owed(cfg, s.procs);
    }
    forall r | r in s.tables.units
      ensures r in s.charges || r in s.lost || r in Owed(cfg, s.procs)
    {
      assert r in multiset(s.tables.units);
    }
  }

  /** The rows owed, one after the other. */
  function OwedList(cfg: Config, procs: seq<Proc>): (owed: seq<UnitRow>)
    ensures multiset(owed) == Owed(cfg, procs)
  {
    if procs == [] then []
    else
      var last := procs[|procs| - 1];
      OwedList(cfg, procs[..|procs| - 1]) + if last.pc.Charge? then [UnitRowOf(cfg, last.pc.loop.item)] else []
  }

  lemma Conserved(cfg: Config, s: System, u: Digest)
    requires Books(cfg, s) && Positive(s.tables.units)
    ensures SumFor(u, s.tables.units)
         == SumFor(u, s.charges) + SumFor(u, OwedList(cfg, s.procs)) + SumFor(u, s.lost)
    ensures SumFor(u, s.charges) >= 0 && SumFor(u, OwedList(cfg, s.procs)) >= 0 && SumFor(u, s.lost) >= 0
  {
    ChargesInserted(cfg, s);
    var owed := OwedList(cfg, s.procs);
    forall r | r in owed
      ensures r.amount > 0
    {
      assert r in multiset(owed);
    }
    SumForPermutation(u, s.tables.units, s.charges + s.lost + owed);
    SumForConcat(u, s.charges + s.lost, owed);
    SumForConcat(u, s.charges, s.lost);
    SumForPositive(u, s.charges);
    SumForPositive(u, s.lost);
    SumForPositive(u, owed);
  }

  /** Conservation: what a user spent is what was charged, what is being charged and what was lost. */
  lemma Conservation(cfg: Config, s: System, u: Digest)
    requires Reachable(cfg, s)
    ensures SumFor(u, s.tables.units)
         == SumFor(u, s.charges) + SumFor(u, OwedList(cfg, s.procs)) + SumFor(u, s.lost)
    ensures SumFor(u, s.charges) >= 0 && SumFor(u, OwedList(cfg, s.procs)) >= 0 && SumFor(u, s.lost) >= 0
  {
    hide Reachable, OwedList, SumFor, Books, Positive, PointsOk, Chained, Balances;
    ReachableInv(cfg, s);
    Conserved(cfg, s, u);
  }

  /** The credit lies between what all the spending would leave and the grant. */
  lemma CreditBounds(cfg: Config, s: System, u: Digest)
    requires Reachable(cfg, s) && u in s.tables.credit
    ensures var credit, spent := s.tables.credit[u], SumFor(u, s.tables.units);
      && Max(0, Grant(cfg) - spent) <= Max(0, credit) <= Max(0, Grant(cfg))
      && (Grant(cfg) >= 0 ==> Max(0, Grant(cfg) - spent) <= credit <= Grant(cfg))
  {
    hide Reachable, OwedList, SumFor, Books, Positive, Grant, Balances, PointsOk, Chained;
    ReachableInv(cfg, s);
    CreditSplit(cfg, s, u);
  }

  lemma CreditSplit(cfg: Config, s: System, u: Digest)
    requires Balances(cfg, s) && Books(cfg, s) && Positive(s.tables.units) && u in s.tables.credit
    ensures var uncharged := SumFor(u, OwedList(cfg, s.procs)) + SumFor(u, s.lost);
      && uncharged >= 0
      && SumFor(u, s.tables.units) >= uncharged
      && s.tables.credit[u] == Balance(Grant(cfg), SumFor(u, s.tables.units) - uncharged)
  {
    hide OwedList, SumFor, Books, Positive, Grant;
    Conserved(cfg, s, u);
  }

  /** Once no charge is in flight, a credit is exactly what the spending leaves, except for charges that were lost. */
  lemma CreditAtRest(cfg: Config, s: System, u: Digest)
    requires Reachable(cfg, s) && u in s.tables.credit
    requires forall p :: 0 <= p < |s.procs| ==> !s.procs[p].pc.Charge?
    ensures s.tables.credit[u] == Balance(Grant(cfg), SumFor(u, s.tables.units) - SumFor(u, s.lost))
  {
    hide Reachable, OwedList, Books, Positive, Grant, Balances, PointsOk, Chained;
    ReachableInv(cfg, s);
    CreditSplit(cfg, s, u);
    NothingOwed(cfg, s.procs);
  }

  lemma {:induction false} NothingOwed(cfg: Config, procs: seq<Proc>)
    requires forall p :: 0 <= p < |procs| ==> !procs[p].pc.Charge?
    ensures OwedList(cfg, procs) == []
  {
    if procs != [] {
      NothingOwed(cfg, procs[..|procs| - 1]);
    }
  }

  // ----- without failures

  /**
   In a reachable state a call that works never surprises its handler: the spending insert meets no
   foreign-key violation, the charge finds its row, one retry of the credit upsert is enough, and an
   account read for the verdict finds a row that is not the no-account sentinel.
   */
  lemma NoSurprises(cfg: Config, s: System, p: nat)
    requires Inv(cfg, s) && CanAct(s, p)
    ensures var pc := s.procs[p].pc;
      var (u, reply) := Effect(cfg, s.stripe, Works, s.tables, pc);
      && (pc.Insert? ==> reply.Number?)
      && (pc.Charge? ==> reply.Acked? && Key(cfg, pc.loop.item.userId) in s.tables.credit)
      && (pc.EnsureCreditAgain? ==> reply.Number?)
      && (pc.RecordInvalid? ==> reply.Acked?)
      && (pc.ReadAccount? ==> reply.AccountRow? && reply.user != ACCOUNT_WITHOUT_SUBSCRIPTION)
      && Resume(cfg, s.stripe.now, pc, reply) != Finished(Failed(DatabaseError))
  {
    hide Books, Balances, Positive, HasUnit, NextItem, Key, Judge, SumBetween, Spend, Merged, IsCancelled, LoopOk;
    var pc := s.procs[p].pc;
    assert PointOk(cfg, s.tables, pc);
    if pc.Charge? {
      ChargeFits(cfg, s, p);
      NextItemAnswers(pc.loop.rest, pc.loop.ensured, pc.loop.total);
    } else if pc.Insert? {
      NextItemAnswers(pc.loop.rest, pc.loop.ensured, pc.loop.total);
    } else if pc.CountSpending? {
      var (_, reply) := Effect(cfg, s.stripe, Works, s.tables, pc);
      JudgeAnswers(cfg, pc.subscription, reply.n, pc.email);
    }
  }

  lemma NextItemAnswers(items: seq<SpendingUnit>, ensured: set<Bytes>, total: int)
    ensures NextItem(items, ensured, total) != Finished(Failed(DatabaseError))
  {
  }

  lemma JudgeAnswers(cfg: Config, sub: Subscription, spent: int, email: string)
    ensures Judge(cfg, sub, spent, email) != Failed(DatabaseError)
  {
  }

  predicate Smooth(script: seq<Move>) {
    forall m :: m in script && m.Act? ==> m.fault.Works?
  }

  predicate Unbroken(s: System) {
    s.lost == [] && forall p :: 0 <= p < |s.procs| ==> s.procs[p].pc != Finished(Failed(DatabaseError))
  }

  lemma SmoothStep(cfg: Config, s: System, m: Move)
    requires Inv(cfg, s) && Unbroken(s) && (m.Act? ==> m.fault.Works?)
    ensures Unbroken(Step(cfg, s, m))
  {
    if m.Act? && CanAct(s, m.p) {
      NoSurprises(cfg, s, m.p);
      assert Acted(cfg, s, m.p, Works).lost == [];
    }
  }

  /** While no call fails, no charge is lost and no request ends in a database error, however requests interleave. */
  lemma {:induction false} SmoothRun(cfg: Config, stripe: Stripe, script: seq<Move>)
    requires Smooth(script)
    ensures Unbroken(Run(cfg, Init(stripe), script))
  {
    if script != [] {
      var front := script[..|script| - 1];
      SmoothRun(cfg, stripe, front);
      RunKeepsInv(cfg, Init(stripe), front);
      SmoothStep(cfg, Run(cfg, Init(stripe), front), script[|script| - 1]);
    }
  }

  /** Every request accepted by the RPC passes every item check of the ledger loop, at every item. */
  lemma AcceptedItemsPass(cfg: Config, s: System, p: nat)
    requires Reachable(cfg, s) && p < |s.procs|
    ensures s.procs[p].pc != Finished(Failed(BadItem))
  {
    ReachableInv(cfg, s);
    assert PointOk(cfg, s.tables, s.procs[p].pc);
  }

  lemma BalanceOf(cfg: Config, s: System, u: Digest)
    requires Balances(cfg, s) && u in s.tables.credit
    ensures s.tables.credit[u] == Balance(Grant(cfg), SumFor(u, s.charges))
  {
  }

  lemma ChargesPositive(cfg: Config, s: System, more: seq<UnitRow>)
    requires Books(cfg, s) && Positive(s.tables.units) && (forall r :: r in more ==> r in s.charges)
    ensures forall r :: r in more ==> r.amount > 0
  {
    ChargesInserted(cfg, s);
  }

  /** Free credit is a ratchet: from any reachable state on, whatever happens, nobody's positive credit rises. */
  lemma CreditRatchet(cfg: Config, s: System, script: seq<Move>, u: Digest)
    requires Inv(cfg, s) && u in s.tables.credit
    ensures var later := Run(cfg, s, script).tables.credit;
      u in later && Max(0, later[u]) <= Max(0, s.tables.credit[u])
  {
    hide Run, Chained, PointsOk, Books, Positive, Grant, Balances;
    RunKeepsInv(cfg, s, script);
    var end := Run(cfg, s, script);
    BalanceOf(cfg, s, u);
    BalanceOf(cfg, end, u);
    var more := end.charges[|s.charges|..];
    assert end.charges == s.charges + more;
    ChargesPositive(cfg, end, s.charges);
    ChargesPositive(cfg, end, more);
    SumForConcat(u, s.charges, more);
    SumForPositive(u, s.charges);
    SumForPositive(u, more);
  }

  /**
   Referential chain: in every reachable state spending implies a credit row and a credit row implies
   an account, so no call that works surprises its handler. Only the first credit upsert can meet a
   foreign-key violation, and only for a user without an account.
   */
  lemma ReferentialChain(cfg: Config, s: System)
    requires Reachable(cfg, s)
    ensures forall r :: r in s.tables.units ==> r.user in s.tables.credit && r.user in s.tables.accounts
    ensures forall u :: u in s.tables.credit ==> u in s.tables.accounts
    ensures forall p :: 0 <= p < |s.procs| && CanAct(s, p) ==> Unsurprised(cfg, s, p)
  {
    hide Reachable, Books, Balances, Positive, Unsurprised, PointsOk;
    ReachableInv(cfg, s);
    forall p | 0 <= p < |s.procs| && CanAct(s, p)
      ensures Unsurprised(cfg, s, p)
    {
      CallUnsurprised(cfg, s, p);
    }
  }

  ghost predicate Unsurprised(cfg: Config, s: System, p: nat)
    requires CanAct(s, p)
  {
    var pc := s.procs[p].pc;
    var reply := Effect(cfg, s.stripe, Works, s.tables, pc).1;
    && (reply.FkViolation? ==> pc.EnsureCredit? && Key(cfg, pc.user) !in s.tables.accounts)
    && (pc.Charge? ==> Key(cfg, pc.loop.item.userId) in s.tables.credit)
    && (reply.NoRows? ==> pc.CheckAccount?)
    && (reply.Failure? ==> pc.FetchPrevious? || pc.FetchCurrent? || pc.FetchCustomer?)
  }

  lemma CallUnsurprised(cfg: Config, s: System, p: nat)
    requires Inv(cfg, s) && CanAct(s, p)
    ensures Unsurprised(cfg, s, p)
  {
    hide Books, Balances, Positive, HasUnit, NextItem, Key, Judge, SumBetween, Spend, Merged, IsCancelled, LoopOk;
    assert PointOk(cfg, s.tables, s.procs[p].pc);
    NoSurprises(cfg, s, p);
  }

  function Failures(script: seq<Move>): nat {
    if script == [] then 0
    else Failures(script[..|script| - 1]) + if script[|script| - 1].Act? && !script[|script| - 1].fault.Works? then 1 else 0
  }

  /** Charges are lost to failed calls only, and one call loses at most one. */
  lemma {:induction false} LossesNeedFailures(cfg: Config, stripe: Stripe, script: seq<Move>)
    ensures |Run(cfg, Init(stripe), script).lost| <= Failures(script)
  {
    if script != [] {
      hide Effect, Resume;
      var s, m := Run(cfg, Init(stripe), script[..|script| - 1]), script[|script| - 1];
      LossesNeedFailures(cfg, stripe, script[..|script| - 1]);
      if m.Act? && CanAct(s, m.p) {
        OneLoss(cfg, s.tables, s.procs[m.p].pc, m.fault);
      }
    }
  }

  lemma OneLoss(cfg: Config, t: Tables, pc: Pc, fault: Fault)
    ensures |Lost(cfg, t, pc, fault)| <= if fault.Works? then 0 else 1
  {
    hide Exec;
    if pc.Insert? {
      InsertAppends(cfg, t, pc.loop.item);
    }
  }
}
