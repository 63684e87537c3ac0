/** The billing ledger of src/billing/billing.service.ts: plans, subscriptions, credit and
    the audit trail, as values, and what every run of plan changes and rollovers keeps. */
module BillingLedger {
  import opened Proration
  import opened Calendar
  import opened Wrappers

  datatype Account = Account(id: string)

  datatype Plan = Plan(id: PlanId, monthlyPriceCents: nat, includedUnits: nat, unitPriceCents: nat)

  const FREE := PlanId("free")
  const STARTER := PlanId("starter")
  const GROWTH := PlanId("growth")

  const PLANS := [Plan(FREE, 0, 100, 0), Plan(STARTER, 1900, 10000, 1), Plan(GROWTH, 9900, 100000, 1)]

  /** `PLANS.find((candidate) => candidate.id === planId)` */
  function FindPlan(id: PlanId): (p: Option<Plan>)
    ensures p.Some? ==> p.value.id == id
  {
    if id == FREE then Some(PLANS[0])
    else if id == STARTER then Some(PLANS[1])
    else if id == GROWTH then Some(PLANS[2])
    else None
  }

  /** Every plan is found by its id, and every other id is refused. */
  lemma FindPlanExact(id: PlanId)
    ensures forall p :: p in PLANS && p.id == id <==> FindPlan(id) == Some(p)
    ensures FindPlan(id).None? <==> forall p :: p in PLANS ==> p.id != id
  {
    assert "free"[0] == 'f' && "starter"[0] == 's' && "growth"[0] == 'g';
  }

  datatype Subscription = Subscription(
    planId: PlanId,
    cycleStart: int,
    cycleEnd: int,
    creditBalanceCents: int,
    creditCycleStart: Option<int>,
    creditCycleEnd: Option<int>)

  /** A plan change as the audit trail records it. */
  datatype AuditEntry = AuditEntry(
    fromPlanId: PlanId, toPlanId: PlanId,
    direction: Direction,
    window: Window,
    unusedCreditCents: int,
    newPlanChargeCents: int,
    netAmountCents: int)

  datatype Books = Books(
    accountPlans: map<Account, PlanId>,
    subscriptions: map<Account, Subscription>,
    auditTrail: map<Account, seq<AuditEntry>>)

  const EMPTY := Books(map[], map[], map[])

  /** `Number.MAX_SAFE_INTEGER` */
  const MAX_SAFE_INTEGER := 9007199254740991

  datatype SetPlanResult =
    | UnknownPlan
    | BalanceRejected
    | Changed(quote: Quote, cycleStart: int, cycleEnd: int, creditBalanceCents: int)

  datatype RolloverResult =
    | StillRunning
    | RolledOver(closedStart: int, closedEnd: int, nextEnd: int, writtenOffCreditCents: int)

  function PlanOf(b: Books, a: Account): PlanId {
    if a in b.accountPlans then b.accountPlans[a] else FREE
  }

  function TrailOf(b: Books, a: Account): seq<AuditEntry> {
    if a in b.auditTrail then b.auditTrail[a] else []
  }

  /** `ensureSubscription(accountId, at, cycleStart)` */
  function EnsureSubscription(b: Books, a: Account, at: int, anchor: Option<int>): Subscription {
    if a in b.subscriptions then b.subscriptions[a]
    else
      var start := if anchor.Some? then anchor.value else at;
      Subscription(PlanOf(b, a), start, AddBillingMonth(start), 0, None, None)
  }

  /** `applyProrationToSubscription(subscription, proration)` */
  function ApplyProration(sub: Subscription, q: Quote): Subscription {
    if q.netAmountCents >= 0 then sub
    else
      var credit := -q.netAmountCents;
      var issuedInCurrentCycle := sub.creditCycleStart == Some(sub.cycleStart);
      sub.(creditBalanceCents := if issuedInCurrentCycle then sub.creditBalanceCents + credit else credit,
           creditCycleStart := Some(sub.cycleStart),
           creditCycleEnd := Some(sub.cycleEnd))
  }

  /** `DomainInvariants.assertBalanceTransition` with `integral: true` */
  predicate BalanceAllowed(after: int) {
    0 <= after <= MAX_SAFE_INTEGER
  }

  function ChangeOf(from: Plan, to: Plan, sub: Subscription, at: int, isFirst: bool): PlanChange {
    PlanChange(from.id, to.id, from.monthlyPriceCents, to.monthlyPriceCents,
               Window(sub.cycleStart, sub.cycleEnd, at), isFirst)
  }

  function EntryOf(c: PlanChange, q: Quote): AuditEntry {
    AuditEntry(c.fromPlanId, c.toPlanId, q.direction, c.window,
               q.unusedCreditCents, q.newPlanChargeCents, q.netAmountCents)
  }

  /** The books after a settled change. */
  function Commit(b: Books, a: Account, next: Subscription, c: PlanChange, q: Quote): Books {
    Books(b.accountPlans[a := c.toPlanId],
          b.subscriptions[a := next],
          if q.direction == Unchanged then b.auditTrail
          else b.auditTrail[a := TrailOf(b, a) + [EntryOf(c, q)]])
  }

  /** `setPlan(accountId, planId, { at, cycleStart })` */
  function SetPlan(b: Books, a: Account, planId: PlanId, at: int, anchor: Option<int>): (Books, SetPlanResult) {
    match (FindPlan(planId), FindPlan(PlanOf(b, a)))
    case (Some(plan), Some(previous)) =>
      var sub := EnsureSubscription(b, a, at, anchor);
      var c := ChangeOf(previous, plan, sub, at, a !in b.subscriptions);
      var q := QuotePlanChange(c);
      var next := ApplyProration(sub.(planId := plan.id), q);
      if BalanceAllowed(next.creditBalanceCents) then
        (Commit(b, a, next, c, q), Changed(q, next.cycleStart, next.cycleEnd, next.creditBalanceCents))
      else (b, BalanceRejected)
    case _ => (b, UnknownPlan)
  }

  /** `rolloverBillingCycle(accountId, at)` */
  function Rollover(b: Books, a: Account, at: int): (Books, RolloverResult) {
    if a !in b.subscriptions || at < b.subscriptions[a].cycleEnd then (b, StillRunning)
    else
      var sub := b.subscriptions[a];
      var nextEnd := AddBillingMonth(sub.cycleEnd);
      (b.(subscriptions := b.subscriptions[a := Subscription(sub.planId, sub.cycleEnd, nextEnd, 0, None, None)]),
       RolledOver(sub.cycleStart, sub.cycleEnd, nextEnd, sub.creditBalanceCents))
  }

  // ---------------------------------------------------------------- the invariant

  function CreditOf(e: AuditEntry): nat {
    if e.netAmountCents < 0 then -e.netAmountCents else 0
  }

  /** Credit issued by the entries of the cycle that began at `cycleStart`. */
  function CycleCredit(trail: seq<AuditEntry>, cycleStart: int): nat {
    if trail == [] then 0
    else
      var last := trail[|trail| - 1];
      CycleCredit(trail[..|trail| - 1], cycleStart) + if last.window.cycleStart == cycleStart then CreditOf(last) else 0
  }

  /** Credit ever issued. */
  function Issued(trail: seq<AuditEntry>): nat {
    if trail == [] then 0 else Issued(trail[..|trail| - 1]) + CreditOf(trail[|trail| - 1])
  }

  /** Every change starts at the plan the one before ended at; the first starts at `free`. */
  ghost predicate Connected(trail: seq<AuditEntry>) {
    && (trail != [] ==> trail[0].fromPlanId == FREE)
    && (forall i :: 0 <= i && i + 1 < |trail| ==> trail[i].toPlanId == trail[i + 1].fromPlanId)
  }

  /** The entry credits the share of its old plan, charges that of its new one, and nets the two. */
  ghost predicate PricedRight(e: AuditEntry) {
    && FindPlan(e.fromPlanId).Some? && FindPlan(e.toPlanId).Some?
    && e.unusedCreditCents == Share(FindPlan(e.fromPlanId).value.monthlyPriceCents, e.window)
    && e.newPlanChargeCents == Share(FindPlan(e.toPlanId).value.monthlyPriceCents, e.window)
    && e.netAmountCents == e.newPlanChargeCents - e.unusedCreditCents
  }

  /** Only the first entry is an activation, and no entry is a mere re-submission. */
  ghost predicate DirectedRight(e: AuditEntry, first: bool) {
    && (e.direction == Activation <==> first)
    && e.direction != Unchanged
    && (!first ==> e.fromPlanId != e.toPlanId)
  }

  ghost predicate TrailOk(trail: seq<AuditEntry>, cycleStart: int) {
    forall i :: 0 <= i < |trail| ==>
      PricedRight(trail[i]) && DirectedRight(trail[i], i == 0) && trail[i].window.cycleStart <= cycleStart
  }

  ghost predicate CreditOk(sub: Subscription, trail: seq<AuditEntry>) {
    && BalanceAllowed(sub.creditBalanceCents)
    && sub.creditBalanceCents == CycleCredit(trail, sub.cycleStart)
    && (sub.creditCycleStart.None? ==> sub.creditBalanceCents == 0 && sub.creditCycleEnd.None?)
    && (sub.creditCycleStart.Some? ==>
          sub.creditCycleStart == Some(sub.cycleStart) && sub.creditCycleEnd == Some(sub.cycleEnd))
  }

  /** What holds of one account. */
  ghost predicate AccountOk(b: Books, a: Account) {
    if a !in b.subscriptions then a !in b.accountPlans && a !in b.auditTrail
    else
      var sub, trail := b.subscriptions[a], TrailOf(b, a);
      && a in b.accountPlans && b.accountPlans[a] == sub.planId
      && FindPlan(sub.planId).Some?
      && trail != [] && trail[|trail| - 1].toPlanId == sub.planId
      && Connected(trail)
      && TrailOk(trail, sub.cycleStart)
      && sub.cycleEnd == AddBillingMonth(sub.cycleStart)
      && CreditOk(sub, trail)
  }

  ghost predicate BooksOk(b: Books) {
    forall a :: AccountOk(b, a)
  }

  // ---------------------------------------------------------------- every operation keeps it

  lemma AppendEntry(trail: seq<AuditEntry>, e: AuditEntry)
    ensures Issued(trail + [e]) == Issued(trail) + CreditOf(e)
    ensures forall s ::
      CycleCredit(trail + [e], s) == CycleCredit(trail, s) + (if e.window.cycleStart == s then CreditOf(e) else 0)
  {
    assert (trail + [e])[..|trail + [e]| - 1] == trail;
  }

  /** Entries of earlier cycles issue nothing in a later one. */
  lemma {:induction false} NoCreditYet(trail: seq<AuditEntry>, cycleStart: int)
    requires forall i :: 0 <= i < |trail| ==> trail[i].window.cycleStart < cycleStart
    ensures CycleCredit(trail, cycleStart) == 0
  {
    if trail != [] {
      NoCreditYet(trail[..|trail| - 1], cycleStart);
    }
  }

  /** The subscription a change is settled against, and the trail so far. */
  ghost predicate Settling(b: Books, a: Account, sub: Subscription) {
    && FindPlan(PlanOf(b, a)).Some?
    && Connected(TrailOf(b, a))
    && TrailOk(TrailOf(b, a), sub.cycleStart)
    && sub.cycleEnd == AddBillingMonth(sub.cycleStart)
    && CreditOk(sub, TrailOf(b, a))
    && (TrailOf(b, a) == [] ==> PlanOf(b, a) == FREE && a !in b.subscriptions)
    && (TrailOf(b, a) != [] ==> TrailOf(b, a)[|TrailOf(b, a)| - 1].toPlanId == PlanOf(b, a))
  }

  lemma EnsureSettles(b: Books, a: Account, at: int, anchor: Option<int>)
    requires AccountOk(b, a)
    ensures Settling(b, a, EnsureSubscription(b, a, at, anchor))
  {
    hide AddBillingMonth, PricedRight, DirectedRight;
  }

  /** Credit that is banked: nothing that belongs to the live cycle is dropped. */
  lemma ProrationCredits(sub: Subscription, trail: seq<AuditEntry>, planId: PlanId, e: AuditEntry, q: Quote)
    requires CreditOk(sub, trail)
    requires e.netAmountCents == q.netAmountCents && e.window.cycleStart == sub.cycleStart
    ensures var next := ApplyProration(sub.(planId := planId), q);
      && next.creditBalanceCents == sub.creditBalanceCents + CreditOf(e)
      && (BalanceAllowed(next.creditBalanceCents) ==> CreditOk(next, trail + [e]))
      && next.cycleStart == sub.cycleStart && next.cycleEnd == sub.cycleEnd && next.planId == planId
  {
    AppendEntry(trail, e);
  }

  lemma TrailExtends(trail: seq<AuditEntry>, e: AuditEntry, cycleStart: int)
    requires Connected(trail) && TrailOk(trail, cycleStart)
    requires PricedRight(e) && DirectedRight(e, trail == []) && e.window.cycleStart == cycleStart
    requires trail == [] ==> e.fromPlanId == FREE
    requires trail != [] ==> trail[|trail| - 1].toPlanId == e.fromPlanId
    ensures Connected(trail + [e]) && TrailOk(trail + [e], cycleStart)
  {
    hide PricedRight, DirectedRight;
  }

  /** What a recorded change says. */
  lemma RecordedQuote(c: PlanChange)
    requires QuotePlanChange(c).direction != Unchanged
    ensures var q := QuotePlanChange(c);
      && q.unusedCreditCents == Share(c.fromPriceCents, c.window)
      && q.newPlanChargeCents == Share(c.toPriceCents, c.window)
      && q.netAmountCents == q.newPlanChargeCents - q.unusedCreditCents
      && (q.direction == Activation <==> c.isFirstSubscription)
      && (!c.isFirstSubscription ==> c.fromPlanId != c.toPlanId)
  {
    hide Share;
  }

  lemma UnchangedMovesNothing(c: PlanChange)
    requires QuotePlanChange(c).direction == Unchanged
    ensures QuotePlanChange(c).netAmountCents == 0 && c.fromPlanId == c.toPlanId && !c.isFirstSubscription
  {
  }

  /** A settled change leaves its account in order. */
  lemma CommitKeepsAccount(b: Books, a: Account, sub: Subscription, from: Plan, to: Plan, at: int)
    requires AccountOk(b, a) && Settling(b, a, sub)
    requires a in b.subscriptions ==> sub == b.subscriptions[a]
    requires FindPlan(PlanOf(b, a)) == Some(from) && FindPlan(to.id) == Some(to)
    ensures var c := ChangeOf(from, to, sub, at, a !in b.subscriptions);
      var q := QuotePlanChange(c);
      var next := ApplyProration(sub.(planId := to.id), q);
      BalanceAllowed(next.creditBalanceCents) ==> AccountOk(Commit(b, a, next, c, q), a)
  {
    hide QuotePlanChange, Share, CycleCredit, FindPlan, TrailOk, Connected, AddBillingMonth;
    var c := ChangeOf(from, to, sub, at, a !in b.subscriptions);
    var q := QuotePlanChange(c);
    var e := EntryOf(c, q);
    ProrationCredits(sub, TrailOf(b, a), to.id, e, q);
    if q.direction == Unchanged {
      UnchangedMovesNothing(c);
    } else {
      RecordedQuote(c);
      TrailExtends(TrailOf(b, a), e, sub.cycleStart);
    }
  }

  lemma SetPlanKeepsBooks(b: Books, a: Account, planId: PlanId, at: int, anchor: Option<int>)
    requires BooksOk(b)
    ensures BooksOk(SetPlan(b, a, planId, at, anchor).0)
  {
    hide AccountOk, QuotePlanChange, ApplyProration, EnsureSubscription, Settling, FindPlan;
    var b' := SetPlan(b, a, planId, at, anchor).0;
    if FindPlan(planId).Some? && FindPlan(PlanOf(b, a)).Some? {
      assert AccountOk(b, a);
      var sub := EnsureSubscription(b, a, at, anchor);
      EnsureSettles(b, a, at, anchor);
      EnsureExisting(b, a, at, anchor);
      CommitKeepsAccount(b, a, sub, FindPlan(PlanOf(b, a)).value, FindPlan(planId).value, at);
    }
    forall x ensures AccountOk(b', x) {
      assert AccountOk(b, x);
      if x != a {
        OtherAccount(b, b', x);
      }
    }
  }

  lemma EnsureExisting(b: Books, a: Account, at: int, anchor: Option<int>)
    ensures a in b.subscriptions ==> EnsureSubscription(b, a, at, anchor) == b.subscriptions[a]
  {
  }

  /** Accounts are isolated. */
  lemma OtherAccount(b: Books, b': Books, x: Account)
    requires AccountOk(b, x)
    requires x in b'.subscriptions <==> x in b.subscriptions
    requires x in b'.accountPlans <==> x in b.accountPlans
    requires x in b'.auditTrail <==> x in b.auditTrail
    requires x in b.subscriptions ==> b'.subscriptions[x] == b.subscriptions[x]
    requires x in b.accountPlans ==> b'.accountPlans[x] == b.accountPlans[x]
    requires x in b.auditTrail ==> b'.auditTrail[x] == b.auditTrail[x]
    ensures AccountOk(b', x)
  {
    hide AddBillingMonth;
  }

  lemma RolloverKeepsAccount(b: Books, a: Account, at: int)
    requires AccountOk(b, a)
    ensures AccountOk(Rollover(b, a, at).0, a)
  {
    hide AddBillingMonth, PricedRight, DirectedRight, CycleCredit, FindPlan, Connected;
    if a in b.subscriptions && b.subscriptions[a].cycleEnd <= at {
      AddBillingMonthLater(b.subscriptions[a].cycleStart);
      NoCreditYet(TrailOf(b, a), b.subscriptions[a].cycleEnd);
    }
  }

  lemma RolloverKeepsBooks(b: Books, a: Account, at: int)
    requires BooksOk(b)
    ensures BooksOk(Rollover(b, a, at).0)
  {
    hide AccountOk, AddBillingMonth;
    var b' := Rollover(b, a, at).0;
    forall x ensures AccountOk(b', x) {
      assert AccountOk(b, x);
      if x == a {
        RolloverKeepsAccount(b, a, at);
      } else {
        OtherAccount(b, b', x);
      }
    }
  }
}
