/** What a plan change costs, in whole cents and milliseconds of what the caller gives: the cycle
    that is opened, the charge and the credit, and what an invoice asks for. */
module BillingCharges {
  import opened Proration
  import opened Calendar
  import opened BillingLedger
  import opened BillingRuns
  import opened Numbers
  import opened Wrappers

  /** The plans by name, with their monthly price, included units and unit price. */
  lemma PlanTable()
    ensures PLANS == [Plan(PlanId("free"), 0, 100, 0), Plan(PlanId("starter"), 1900, 10000, 1),
                      Plan(PlanId("growth"), 9900, 100000, 1)]
  {
  }

  /** A new account's first cycle begins at the anchor if one is given, else at the instant, and
      ends one billing month later: so says the answer, and so it is stored. */
  lemma FirstCycle(b: Books, a: Account, plan: Plan, at: int, anchor: Option<int>)
    requires BooksOk(b) && a !in b.subscriptions && plan in PLANS
    ensures var start := if anchor.Some? then anchor.value else at;
      var (b', r) := SetPlan(b, a, plan.id, at, anchor);
      && r.Changed? && r.cycleStart == start && r.cycleEnd == AddBillingMonth(start)
      && a in b'.subscriptions && b'.subscriptions[a].planId == plan.id
      && b'.subscriptions[a].cycleStart == start && b'.subscriptions[a].cycleEnd == AddBillingMonth(start)
  {
    hide AddBillingMonth, Share, FindPlan;
    FindPlanExact(plan.id);
    assert AccountOk(b, a);
    FreePlan();
    ActivationChargedInFull(b, a, plan.id, at, anchor);
  }

  /** How much of the cycle from `start` to `end` is left at `at`, which may lie outside of it. */
  function Left(start: int, end: int, at: int): int {
    if at <= start then end - start else if at >= end then 0 else end - at
  }

  lemma LeftMeasured(w: Window)
    requires w.cycleStart < w.cycleEnd
    ensures MeasureRemainingCycle(w).remainingMs == Left(w.cycleStart, w.cycleEnd, w.effectiveAt)
    ensures MeasureRemainingCycle(w).totalCycleMs == w.cycleEnd - w.cycleStart
  {
  }

  /** Rounded to whole cents, half a cent up, a price for the time that is left reaches `k`. */
  predicate Reaches(priceCents: nat, start: int, end: int, at: int, k: int) {
    2 * priceCents * Left(start, end, at) >= (2 * k - 1) * (end - start)
  }

  lemma ShareIsReached(priceCents: nat, w: Window, k: int)
    requires w.cycleStart < w.cycleEnd
    ensures Share(priceCents, w) >= k <==> Reaches(priceCents, w.cycleStart, w.cycleEnd, w.effectiveAt, k)
  {
    hide Share, MeasureRemainingCycle;
    LeftMeasured(w);
    ShareReaches(priceCents, w, k);
  }

  /** The charge of a first subscription, by its price, the cycle it opens and the instant. */
  lemma ActivationCharge(b: Books, a: Account, plan: Plan, at: int, anchor: Option<int>, k: int)
    requires BooksOk(b) && a !in b.subscriptions && plan in PLANS
    ensures var start := if anchor.Some? then anchor.value else at;
      var r := SetPlan(b, a, plan.id, at, anchor).1;
      && r.Changed? && r.quote.unusedCreditCents == 0 && r.quote.netAmountCents == r.quote.newPlanChargeCents
      && (r.quote.newPlanChargeCents >= k <==> Reaches(plan.monthlyPriceCents, start, AddBillingMonth(start), at, k))
  {
    hide AddBillingMonth, Share, FindPlan, Reaches;
    FindPlanExact(plan.id);
    assert AccountOk(b, a);
    FreePlan();
    ActivationChargedInFull(b, a, plan.id, at, anchor);
    var start := if anchor.Some? then anchor.value else at;
    AddBillingMonthLater(start);
    ShareIsReached(plan.monthlyPriceCents, Window(start, AddBillingMonth(start), at), k);
  }

  /** A change between two plans in a running cycle credits the old price and charges the new one
      for the time that is left of that very cycle at that very instant, records just that, and
      leaves the cycle as it is. */
  lemma ChangeCharge(b: Books, a: Account, from: Plan, to: Plan, at: int, anchor: Option<int>, k: int)
    requires BooksOk(b) && a in b.subscriptions && from in PLANS && to in PLANS && from.id != to.id
    requires b.subscriptions[a].planId == from.id
    ensures var (b', r) := SetPlan(b, a, to.id, at, anchor);
      var start, end := b.subscriptions[a].cycleStart, b.subscriptions[a].cycleEnd;
      r.Changed? ==>
        && (r.quote.unusedCreditCents >= k <==> Reaches(from.monthlyPriceCents, start, end, at, k))
        && (r.quote.newPlanChargeCents >= k <==> Reaches(to.monthlyPriceCents, start, end, at, k))
        && r.quote.netAmountCents == r.quote.newPlanChargeCents - r.quote.unusedCreditCents
        && a in b'.subscriptions && b'.subscriptions[a].planId == to.id
        && b'.subscriptions[a].cycleStart == start && b'.subscriptions[a].cycleEnd == end
        && TrailOf(b', a) == TrailOf(b, a) + [AuditEntry(
             from.id, to.id, r.quote.direction, Window(start, end, at),
             r.quote.unusedCreditCents, r.quote.newPlanChargeCents, r.quote.netAmountCents)]
  {
    hide AddBillingMonth, Share, FindPlan, Reaches, Connected, TrailOk, CreditOk;
    FindPlanExact(from.id);
    FindPlanExact(to.id);
    assert AccountOk(b, a);
    var sub := b.subscriptions[a];
    AddBillingMonthLater(sub.cycleStart);
    ShareIsReached(from.monthlyPriceCents, Window(sub.cycleStart, sub.cycleEnd, at), k);
    ShareIsReached(to.monthlyPriceCents, Window(sub.cycleStart, sub.cycleEnd, at), k);
  }

  /** A change is refused exactly when its credit would take the balance beyond the largest safe
      integer, and then nothing is changed. */
  lemma RefusedExactly(b: Books, a: Account, from: Plan, to: Plan, at: int, anchor: Option<int>)
    requires BooksOk(b) && a in b.subscriptions && from in PLANS && to in PLANS && from.id != to.id
    requires b.subscriptions[a].planId == from.id
    ensures var (b', r) := SetPlan(b, a, to.id, at, anchor);
      var w := Window(b.subscriptions[a].cycleStart, b.subscriptions[a].cycleEnd, at);
      var credit := Max(0, Share(from.monthlyPriceCents, w) - Share(to.monthlyPriceCents, w));
      && (r.BalanceRejected? <==> b.subscriptions[a].creditBalanceCents + credit > 9007199254740991)
      && (r.BalanceRejected? ==> b' == b)
      && (r.Changed? ==> r.creditBalanceCents == b.subscriptions[a].creditBalanceCents + credit)
  {
    hide AddBillingMonth, Share, FindPlan, Connected, TrailOk, CycleCredit;
    FindPlanExact(from.id);
    FindPlanExact(to.id);
    assert AccountOk(b, a);
  }

  /** A rollover that is due closes the cycle it says and opens the next where it ended. */
  lemma RolloverAnswer(b: Books, a: Account, at: int)
    requires BooksOk(b) && a in b.subscriptions
    ensures var (b', r) := Rollover(b, a, at); var sub := b.subscriptions[a];
      && (r.RolledOver? <==> at >= sub.cycleEnd)
      && (r.RolledOver? ==>
            && r.closedStart == sub.cycleStart && r.closedEnd == sub.cycleEnd
            && r.nextEnd == AddBillingMonth(sub.cycleEnd) && r.writtenOffCreditCents == sub.creditBalanceCents
            && b'.subscriptions[a].planId == sub.planId && b'.auditTrail == b.auditTrail)
      && (!r.RolledOver? ==> b' == b)
  {
    hide AddBillingMonth;
  }

  // ---------------------------------------------------------------- invoices

  /** One more record adds its quantity exactly when it falls into the period, ends included. */
  lemma {:induction false} RecordCounts(usage: seq<Usage>, u: Usage, start: int, end: int)
    ensures UnitsIn(usage + [u], start, end)
         == UnitsIn(usage, start, end) + if start <= u.recordedAt && u.recordedAt <= end then u.quantity else 0
    ensures UnitsIn([], start, end) == 0
  {
    if usage == [] {
      assert usage + [u] == [u] && [u][1..] == [];
    } else {
      assert (usage + [u])[1..] == usage[1..] + [u];
      RecordCounts(usage[1..], u, start, end);
    }
  }

  /** Without usage a plan costs its monthly price; one more unit costs nothing while it is
      included, and the unit price after that. */
  lemma UnitCosts(plan: Plan, units: nat)
    ensures ChargeCents(plan, 0) == plan.monthlyPriceCents
    ensures ChargeCents(plan, units + 1) - ChargeCents(plan, units)
         == if units < plan.includedUnits then 0 else plan.unitPriceCents
  {
    var over := units - plan.includedUnits;
    if over >= 0 {
      assert (over + 1) * plan.unitPriceCents == over * plan.unitPriceCents + plan.unitPriceCents;
    }
  }

  /** The lines of a preview: the plan, then the units beyond the included ones if there are any,
      then the credit if there is any, never more of it than is owed. */
  lemma PreviewLines(b: Books, a: Account, plan: Plan, units: nat, periodEnd: int)
    ensures var lines := InvoiceLines(b, a, plan, units, periodEnd);
      var over := units - plan.includedUnits;
      var owed := ChargeCents(plan, units);
      var credit := if ApplicableCredit(b, a, periodEnd) <= owed then ApplicableCredit(b, a, periodEnd) else owed;
      && |lines| >= 1 && lines[0] == InvoiceLine(1, plan.monthlyPriceCents, plan.monthlyPriceCents)
      && lines[1..] ==
           (if over > 0 then [InvoiceLine(over, plan.unitPriceCents, over * plan.unitPriceCents)] else [])
           + (if credit > 0 then [InvoiceLine(1, -credit, -credit)] else [])
  {
    hide ApplicableCredit, ChargeCents;
    ChargeNonNegative(plan, units);
  }

  /** Credit counts up to the end of the cycle it was issued in, that instant included. */
  lemma CreditCounts(b: Books, a: Account, periodEnd: int)
    requires BooksOk(b)
    ensures ApplicableCredit(b, a, periodEnd) ==
      if a in b.subscriptions && periodEnd <= b.subscriptions[a].cycleEnd
      then b.subscriptions[a].creditBalanceCents else 0
  {
    hide AddBillingMonth, Connected, TrailOk, CycleCredit, FindPlan;
    assert AccountOk(b, a);
  }
}
