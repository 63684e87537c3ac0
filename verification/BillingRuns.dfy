/** What holds over every run of plan changes and rollovers. */
module BillingRuns {
  import opened Proration
  import opened Calendar
  import opened BillingLedger
  import opened Numbers
  import opened Wrappers

  datatype Op =
    | Change(account: Account, planId: PlanId, at: int, anchor: Option<int>)
    | Roll(account: Account, at: int)

  function Do(b: Books, op: Op): Books {
    match op
    case Change(a, planId, at, anchor) => SetPlan(b, a, planId, at, anchor).0
    case Roll(a, at) => Rollover(b, a, at).0
  }

  /** Credit of account `a` that this step writes off. */
  function WrittenOff(b: Books, op: Op, a: Account): int {
    match op
    case Roll(x, at) =>
      var r := Rollover(b, x, at).1;
      if x == a && r.RolledOver? then r.writtenOffCreditCents else 0
    case _ => 0
  }

  function Run(b: Books, ops: seq<Op>): Books
    decreases |ops|
  {
    if ops == [] then b else Run(Do(b, ops[0]), ops[1..])
  }

  function RunWrittenOff(b: Books, ops: seq<Op>, a: Account): int
    decreases |ops|
  {
    if ops == [] then 0 else WrittenOff(b, ops[0], a) + RunWrittenOff(Do(b, ops[0]), ops[1..], a)
  }

  function Balance(b: Books, a: Account): int {
    if a in b.subscriptions then b.subscriptions[a].creditBalanceCents else 0
  }

  lemma DoKeepsBooks(b: Books, op: Op)
    requires BooksOk(b)
    ensures BooksOk(Do(b, op))
  {
    hide BooksOk, SetPlan, Rollover;
    match op
    case Change(a, planId, at, anchor) => SetPlanKeepsBooks(b, a, planId, at, anchor);
    case Roll(a, at) => RolloverKeepsBooks(b, a, at);
  }

  lemma {:induction false} RunKeepsBooks(b: Books, ops: seq<Op>)
    requires BooksOk(b)
    ensures BooksOk(Run(b, ops))
    decreases |ops|
  {
    hide BooksOk, Do;
    if ops != [] {
      DoKeepsBooks(b, ops[0]);
      RunKeepsBooks(Do(b, ops[0]), ops[1..]);
    }
  }

  /** Over every run: the plan map agrees with the subscription, the audit trail is a
      connected path from `free` to the current plan, and the credit balance is the sum of
      the net credits of the current cycle's entries. */
  lemma EveryRunKeepsBooks(ops: seq<Op>, a: Account)
    ensures var b := Run(EMPTY, ops);
      && BooksOk(b)
      && PlanOf(b, a) == (if a in b.subscriptions then b.subscriptions[a].planId else FREE)
      && (TrailOf(b, a) != [] ==>
            && TrailOf(b, a)[0].fromPlanId == FREE
            && TrailOf(b, a)[|TrailOf(b, a)| - 1].toPlanId == PlanOf(b, a))
      && (TrailOf(b, a) == [] <==> a !in b.subscriptions)
      && Connected(TrailOf(b, a))
      && (a in b.subscriptions ==> Balance(b, a) == CycleCredit(TrailOf(b, a), b.subscriptions[a].cycleStart))
  {
    hide Run, AddBillingMonth, CycleCredit, TrailOk, FindPlan;
    assert BooksOk(EMPTY);
    RunKeepsBooks(EMPTY, ops);
    assert AccountOk(Run(EMPTY, ops), a);
  }

  // ---------------------------------------------------------------- conservation

  lemma ChangeConserves(b: Books, x: Account, planId: PlanId, at: int, anchor: Option<int>, a: Account)
    requires BooksOk(b)
    ensures var b' := SetPlan(b, x, planId, at, anchor).0;
      Issued(TrailOf(b', a)) - Issued(TrailOf(b, a)) == Balance(b', a) - Balance(b, a)
  {
    hide AddBillingMonth, QuotePlanChange, FindPlan, Connected, TrailOk, CycleCredit;
    if x == a && FindPlan(planId).Some? && FindPlan(PlanOf(b, a)).Some? {
      assert AccountOk(b, a);
      EnsureSettles(b, a, at, anchor);
      var sub := EnsureSubscription(b, a, at, anchor);
      var c := ChangeOf(FindPlan(PlanOf(b, a)).value, FindPlan(planId).value, sub, at, a !in b.subscriptions);
      var q := QuotePlanChange(c);
      ProrationCredits(sub, TrailOf(b, a), planId, EntryOf(c, q), q);
      AppendEntry(TrailOf(b, a), EntryOf(c, q));
      if q.direction == Unchanged {
        UnchangedMovesNothing(c);
      }
    }
  }

  lemma StepConserves(b: Books, op: Op, a: Account)
    requires BooksOk(b)
    ensures Issued(TrailOf(Do(b, op), a)) - Issued(TrailOf(b, a))
         == Balance(Do(b, op), a) - Balance(b, a) + WrittenOff(b, op, a)
  {
    hide AddBillingMonth, BooksOk, SetPlan;
    match op
    case Change(x, planId, at, anchor) => ChangeConserves(b, x, planId, at, anchor, a);
    case Roll(x, at) =>
  }

  lemma {:induction false} RunConserves(b: Books, ops: seq<Op>, a: Account)
    requires BooksOk(b)
    ensures Issued(TrailOf(Run(b, ops), a)) - Issued(TrailOf(b, a))
         == Balance(Run(b, ops), a) - Balance(b, a) + RunWrittenOff(b, ops, a)
    decreases |ops|
  {
    hide BooksOk, Do, WrittenOff, Balance, Issued, TrailOf;
    if ops != [] {
      StepConserves(b, ops[0], a);
      DoKeepsBooks(b, ops[0]);
      RunConserves(Do(b, ops[0]), ops[1..], a);
    }
  }

  /** Total credit ever issued is the balance plus all credit written off at rollovers. */
  lemma CreditIsConserved(ops: seq<Op>, a: Account)
    ensures Issued(TrailOf(Run(EMPTY, ops), a)) == Balance(Run(EMPTY, ops), a) + RunWrittenOff(EMPTY, ops, a)
  {
    RunConserves(EMPTY, ops, a);
  }

  // ---------------------------------------------------------------- outcomes of setPlan

  /** In sound books `setPlan` fails only for a plan that does not exist or a balance beyond
      the safe integers, and a failure leaves the books as they were. */
  lemma SetPlanOutcomes(b: Books, a: Account, planId: PlanId, at: int, anchor: Option<int>)
    requires BooksOk(b)
    ensures var (b', r) := SetPlan(b, a, planId, at, anchor);
      && (r.UnknownPlan? <==> FindPlan(planId).None?)
      && (r.UnknownPlan? || r.BalanceRejected? ==> b' == b)
      && (r.BalanceRejected? ==> Balance(b, a) > 9007199254740991 - 9900)
      && (r.Changed? ==> PlanOf(b', a) == planId && r.creditBalanceCents == Balance(b', a) >= Balance(b, a))
  {
    hide AddBillingMonth, QuotePlanChange, Connected, TrailOk, CycleCredit;
    assert AccountOk(b, a);
    if FindPlan(planId).Some? {
      EnsureSettles(b, a, at, anchor);
      var sub := EnsureSubscription(b, a, at, anchor);
      var c := ChangeOf(FindPlan(PlanOf(b, a)).value, FindPlan(planId).value, sub, at, a !in b.subscriptions);
      NetFollowsDirection(c);
      var q := QuotePlanChange(c);
      ProrationCredits(sub, TrailOf(b, a), planId, EntryOf(c, q), q);
    }
  }

  /** Re-submitting the current plan is recorded nowhere and moves no money. */
  lemma ResubmissionIsIdempotent(b: Books, a: Account, at: int, anchor: Option<int>)
    requires BooksOk(b) && a in b.subscriptions
    ensures SetPlan(b, a, b.subscriptions[a].planId, at, anchor).0 == b
  {
    hide AddBillingMonth, Connected, TrailOk, CycleCredit, Share, FindPlan;
    assert AccountOk(b, a);
    var sub := b.subscriptions[a];
    assert sub.(planId := sub.planId) == sub;
    assert b.subscriptions[a := sub] == b.subscriptions;
    assert b.accountPlans[a := sub.planId] == b.accountPlans;
  }

  // ---------------------------------------------------------------- changes at one instant

  ghost function NetSum(trail: seq<AuditEntry>): int {
    if trail == [] then 0 else NetSum(trail[..|trail| - 1]) + trail[|trail| - 1].netAmountCents
  }

  function Price(id: PlanId): nat {
    if FindPlan(id).Some? then FindPlan(id).value.monthlyPriceCents else 0
  }

  /** Entries `i` to `j - 1` of a sound trail, made at one instant of one cycle, add up to a
      difference of two shares. */
  lemma {:induction false} NetsTelescope(trail: seq<AuditEntry>, cycleStart: int, i: nat, j: nat, w: Window)
    requires Connected(trail) && TrailOk(trail, cycleStart)
    requires i < j <= |trail|
    requires forall k :: i <= k < j ==> trail[k].window == w
    ensures NetSum(trail[i..j]) == Share(Price(trail[j - 1].toPlanId), w) - Share(Price(trail[i].fromPlanId), w)
    decreases j - i
  {
    hide Share, FindPlan;
    assert PricedRight(trail[j - 1]);
    assert trail[i..j][..j - i - 1] == trail[i..j - 1];
    if j - i > 1 {
      NetsTelescope(trail, cycleStart, i, j - 1, w);
      assert trail[j - 2].toPlanId == trail[j - 2 + 1].fromPlanId;
    } else {
      assert trail[i..j - 1] == [];
    }
  }

  /** What changing straight from the plan before entry `i` to the plan after entry `j - 1` is quoted. */
  function DirectChange(trail: seq<AuditEntry>, i: nat, j: nat, w: Window): PlanChange
    requires i < j <= |trail|
  {
    var from, to := trail[i].fromPlanId, trail[j - 1].toPlanId;
    PlanChange(from, to, Price(from), Price(to), w, false)
  }

  /** Changes made at one instant of one cycle, however many, cost what `quotePlanChange` asks
      for the direct change. */
  lemma TrailTelescopes(trail: seq<AuditEntry>, cycleStart: int, i: nat, j: nat, w: Window)
    requires Connected(trail) && TrailOk(trail, cycleStart)
    requires i < j <= |trail|
    requires forall k :: i <= k < j ==> trail[k].window == w
    ensures NetSum(trail[i..j]) == QuotePlanChange(DirectChange(trail, i, j, w)).netAmountCents
  {
    hide Share, FindPlan, Price, TrailOk, Connected;
    NetsTelescope(trail, cycleStart, i, j, w);
    NetIsShareDifference(DirectChange(trail, i, j, w));
  }

  // ---------------------------------------------------------------- what the plans are charged

  /** Between the service's own plans an upgrade is charged exactly while the time left is worth
      half a cent of the new plan: all but about 12 minutes of a 31-day cycle for the starter
      plan, all but about two for the growth plan. */
  lemma PlanUpgradeCharged(from: Plan, to: Plan, w: Window)
    requires from in PLANS && to in PLANS && from.monthlyPriceCents < to.monthlyPriceCents
    ensures var c := PlanChange(from.id, to.id, from.monthlyPriceCents, to.monthlyPriceCents, w, false);
      var m := MeasureRemainingCycle(w);
      && ResolveDirection(c) == Upgrade
      && (QuotePlanChange(c).netAmountCents > 0 <==> 0 < m.totalCycleMs <= 2 * to.monthlyPriceCents * m.remainingMs)
  {
    hide QuotePlanChange, MeasureRemainingCycle;
    assert from.id != to.id;
    SteepUpgradeCharged(PlanChange(from.id, to.id, from.monthlyPriceCents, to.monthlyPriceCents, w, false));
  }

  /** A first subscription is always accepted and credits nothing.  It charges the whole price
      exactly when the part of the cycle that is already gone is worth at most half a cent; so
      always without an anchor. */
  lemma ActivationChargedInFull(b: Books, a: Account, planId: PlanId, at: int, anchor: Option<int>)
    requires BooksOk(b) && a !in b.subscriptions && FindPlan(planId).Some?
    ensures var r := SetPlan(b, a, planId, at, anchor).1;
      var price := FindPlan(planId).value.monthlyPriceCents;
      && r.Changed? && r.quote.direction == Activation && r.quote.unusedCreditCents == 0
      && var m := MeasureRemainingCycle(Window(r.cycleStart, r.cycleEnd, at));
      && (r.quote.newPlanChargeCents == price <==> 2 * price * (m.totalCycleMs - m.remainingMs) <= m.totalCycleMs)
      && (anchor.None? ==> r.quote.newPlanChargeCents == price)
  {
    hide AddBillingMonth, MeasureRemainingCycle, Share, FindPlan;
    assert AccountOk(b, a);
    var sub := EnsureSubscription(b, a, at, anchor);
    AddBillingMonthLater(sub.cycleStart);
    var w := Window(sub.cycleStart, sub.cycleEnd, at);
    FreePlan();
    ShareBounds(0, 0, w);
    ShareBounds(Price(planId), Price(planId), w);
    FullShareExactly(Price(planId), w);
    if anchor.None? {
      NothingGone(w);
    }
  }

  lemma FreePlan()
    ensures FindPlan(FREE) == Some(PLANS[0]) && PLANS[0].monthlyPriceCents == 0
  {
  }

  lemma NothingGone(w: Window)
    requires w.cycleStart < w.cycleEnd && w.effectiveAt == w.cycleStart
    ensures MeasureRemainingCycle(w).remainingMs == MeasureRemainingCycle(w).totalCycleMs > 0
  {
  }

  // ---------------------------------------------------------------- repeated rollover

  function RollTimes(b: Books, a: Account, at: int, k: nat): Books {
    if k == 0 then b else Rollover(RollTimes(b, a, at, k - 1), a, at).0
  }

  /** After `k` effective rollovers the cycle is the `k`-th month after the original one:
      cycles share their boundaries, so they tile time. */
  lemma {:induction false} RolloverTiles(b: Books, a: Account, at: int, k: nat)
    requires BooksOk(b) && a in b.subscriptions
    requires k > 0 ==> Boundary(b.subscriptions[a].cycleStart, k) <= at
    ensures var b' := RollTimes(b, a, at, k); var start := b.subscriptions[a].cycleStart;
      && BooksOk(b') && a in b'.subscriptions
      && b'.subscriptions[a].cycleStart == Boundary(start, k)
      && b'.subscriptions[a].cycleEnd == Boundary(start, k + 1)
      && (k > 0 ==> Balance(b', a) == 0)
  {
    hide AddBillingMonth, Connected, TrailOk, CreditOk, FindPlan;
    var start := b.subscriptions[a].cycleStart;
    if k == 0 {
      assert AccountOk(b, a);
      assert Boundary(start, 1) == AddBillingMonth(Boundary(start, 0));
    } else {
      BoundaryAscends(start, k - 1);
      RolloverTiles(b, a, at, k - 1);
      RolloverKeepsBooks(RollTimes(b, a, at, k - 1), a, at);
    }
  }

  lemma BoundaryAscends(start: int, k: nat)
    ensures Boundary(start, k) + 28 * MS_PER_DAY <= Boundary(start, k + 1)
  {
    hide AddBillingMonth;
    AddBillingMonthLater(Boundary(start, k));
  }

  /** Only finitely many rollovers are due at `at`. */
  lemma {:induction false} DueExists(start: int, at: int, k: nat) returns (n: nat)
    requires k > 0 ==> Boundary(start, k) <= at
    ensures at < Boundary(start, n + 1)
    ensures n > 0 ==> Boundary(start, n) <= at
    decreases at - Boundary(start, k)
  {
    hide AddBillingMonth;
    BoundaryAscends(start, k);
    if at < Boundary(start, k + 1) {
      n := k;
    } else {
      n := DueExists(start, at, k + 1);
    }
  }

  /** Rolling over until nothing is due terminates after `n` rollovers, with `at` before the
      end of the cycle, and inside the cycle whenever the first cycle had begun by `at`. */
  lemma RolloverCatchesUp(b: Books, a: Account, at: int) returns (n: nat)
    requires BooksOk(b) && a in b.subscriptions
    ensures var b' := RollTimes(b, a, at, n);
      && BooksOk(b') && a in b'.subscriptions
      && at < b'.subscriptions[a].cycleEnd
      && Rollover(b', a, at) == (b', StillRunning)
      && (b.subscriptions[a].cycleStart <= at ==> b'.subscriptions[a].cycleStart <= at)
      && b'.subscriptions[a].cycleStart == Boundary(b.subscriptions[a].cycleStart, n)
  {
    hide AddBillingMonth, BooksOk, RollTimes;
    n := DueExists(b.subscriptions[a].cycleStart, at, 0);
    RolloverTiles(b, a, at, n);
  }

  // ---------------------------------------------------------------- invoices

  datatype Usage = Usage(quantity: int, recordedAt: int)

  datatype InvoiceLine = InvoiceLine(quantity: int, unitPriceCents: int, amountCents: int)

  /** Units recorded between the two instants. */
  function UnitsIn(usage: seq<Usage>, start: int, end: int): int {
    if usage == [] then 0
    else (if start <= usage[0].recordedAt <= end then usage[0].quantity else 0) + UnitsIn(usage[1..], start, end)
  }

  /** `applicableCreditCents(accountId, periodEnd)` */
  function ApplicableCredit(b: Books, a: Account, periodEnd: int): int {
    if a !in b.subscriptions || b.subscriptions[a].creditBalanceCents <= 0 then 0
    else
      var sub := b.subscriptions[a];
      if sub.creditCycleEnd.Some? && periodEnd > sub.creditCycleEnd.value then 0 else sub.creditBalanceCents
  }

  function ChargeCents(plan: Plan, units: int): int {
    plan.monthlyPriceCents + Max(0, units - plan.includedUnits) * plan.unitPriceCents
  }

  /** The line items of `createInvoicePreview`. */
  function InvoiceLines(b: Books, a: Account, plan: Plan, units: int, periodEnd: int): seq<InvoiceLine> {
    var overage := Max(0, units - plan.includedUnits);
    var base := [InvoiceLine(1, plan.monthlyPriceCents, plan.monthlyPriceCents)]
      + if overage > 0 then [InvoiceLine(overage, plan.unitPriceCents, overage * plan.unitPriceCents)] else [];
    var credit := Min(ApplicableCredit(b, a, periodEnd), Max(ChargeCents(plan, units), 0));
    if credit > 0 then base + [InvoiceLine(1, -credit, -credit)] else base
  }

  function Subtotal(lines: seq<InvoiceLine>): int {
    if lines == [] then 0 else Subtotal(lines[..|lines| - 1]) + lines[|lines| - 1].amountCents
  }

  lemma SubtotalAppend(lines: seq<InvoiceLine>, l: InvoiceLine)
    ensures Subtotal(lines + [l]) == Subtotal(lines) + l.amountCents
  {
    assert (lines + [l])[..|lines|] == lines;
  }

  lemma SubtotalOfLines(b: Books, a: Account, plan: Plan, units: int, periodEnd: int)
    ensures var credit := Min(ApplicableCredit(b, a, periodEnd), Max(ChargeCents(plan, units), 0));
      Subtotal(InvoiceLines(b, a, plan, units, periodEnd)) == ChargeCents(plan, units) - Max(credit, 0)
  {
    hide ApplicableCredit, Subtotal;
    var overage := Max(0, units - plan.includedUnits);
    var first := InvoiceLine(1, plan.monthlyPriceCents, plan.monthlyPriceCents);
    var second := InvoiceLine(overage, plan.unitPriceCents, overage * plan.unitPriceCents);
    var credit := Min(ApplicableCredit(b, a, periodEnd), Max(ChargeCents(plan, units), 0));
    NoLines();
    SubtotalAppend([], first);
    assert [] + [first] == [first];
    SubtotalAppend([first], second);
    SubtotalAppend([first], InvoiceLine(1, -credit, -credit));
    SubtotalAppend([first] + [second], InvoiceLine(1, -credit, -credit));
    assert overage == 0 ==> overage * plan.unitPriceCents == 0;
    assert [first] + [] == [first];
  }

  lemma NoLines()
    ensures Subtotal([]) == 0
  {
  }

  lemma ChargeNonNegative(plan: Plan, units: int)
    ensures ChargeCents(plan, units) >= 0
  {
  }

  /** Credit the account has earned that still counts at `periodEnd`: what the audit trail
      shows for the current cycle, and nothing once that cycle is over. */
  function EarnedCredit(b: Books, a: Account, periodEnd: int): int {
    if a in b.subscriptions && periodEnd <= b.subscriptions[a].cycleEnd
    then CycleCredit(TrailOf(b, a), b.subscriptions[a].cycleStart) else 0
  }

  /** The subtotal of `createInvoicePreview` for the account's plan and its recorded usage. */
  function PreviewSubtotal(b: Books, a: Account, usage: seq<Usage>, periodStart: int, periodEnd: int): Option<int> {
    match FindPlan(PlanOf(b, a))
    case None => None
    case Some(plan) =>
      Some(Subtotal(InvoiceLines(b, a, plan, UnitsIn(usage, periodStart, periodEnd), periodEnd)))
  }

  /** In every run there is an invoice preview, and it is the charge for the plan and the units
      used in the period, less the earned credit, and never below zero. */
  lemma PreviewExact(ops: seq<Op>, a: Account, usage: seq<Usage>, periodStart: int, periodEnd: int)
    ensures var b := Run(EMPTY, ops);
      && FindPlan(PlanOf(b, a)).Some?
      && var charge := ChargeCents(FindPlan(PlanOf(b, a)).value, UnitsIn(usage, periodStart, periodEnd));
      PreviewSubtotal(b, a, usage, periodStart, periodEnd)
        == Some(Max(0, charge - EarnedCredit(b, a, periodEnd)))
  {
    hide Run, ChargeCents, InvoiceLines, Subtotal, CycleCredit, Connected, TrailOk, FindPlan, AddBillingMonth, UnitsIn;
    var b := Run(EMPTY, ops);
    RunKeepsBooks(EMPTY, ops);
    assert AccountOk(b, a);
    FreePlan();
    var plan, units := FindPlan(PlanOf(b, a)).value, UnitsIn(usage, periodStart, periodEnd);
    SubtotalOfLines(b, a, plan, units, periodEnd);
    ChargeNonNegative(plan, units);
    assert ApplicableCredit(b, a, periodEnd) == EarnedCredit(b, a, periodEnd);
  }
}
