/** `BillingService` as an object: the maps it updates in place, proved to follow the
    ledger and to keep its invariant. */
module BillingService {
  import opened Proration
  import opened Calendar
  import Ledger = BillingLedger
  import opened BillingLedger
  import opened Wrappers

  class Service {
    var accountPlans: map<Account, PlanId>
    var subscriptions: map<Account, Subscription>
    var auditTrail: map<Account, seq<AuditEntry>>

    ghost function View(): Books
      reads this
    {
      Books(accountPlans, subscriptions, auditTrail)
    }

    ghost predicate Valid()
      reads this
    {
      BooksOk(View())
    }

    constructor ()
      ensures Valid() && View() == EMPTY
    {
      accountPlans, subscriptions, auditTrail := map[], map[], map[];
    }

    /** `setPlan`: everything is settled on a copy first, so a rejected balance leaves the
        account, and a first activation's subscription, exactly as they were. */
    method SetPlan(account: Account, planId: PlanId, at: int, anchor: Option<int>) returns (r: SetPlanResult)
      requires Valid()
      modifies this
      ensures Valid()
      ensures (View(), r) == Ledger.SetPlan(old(View()), account, planId, at, anchor)
    {
      hide BooksOk, QuotePlanChange, AddBillingMonth, FindPlan, EnsureSubscription, ApplyProration;
      SetPlanKeepsBooks(View(), account, planId, at, anchor);
      var plan := FindPlan(planId);
      var previous := FindPlan(if account in accountPlans then accountPlans[account] else FREE);
      if plan.None? || previous.None? {
        return UnknownPlan;
      }
      EnsureExisting(View(), account, at, anchor);
      var isFirst := account !in subscriptions;
      var subscription := EnsureSub(account, at, anchor);
      var change := ChangeOf(previous.value, plan.value, subscription, at, isFirst);
      var quote := QuotePlanChange(change);
      var next := ApplyProration(subscription.(planId := plan.value.id), quote);
      if !BalanceAllowed(next.creditBalanceCents) {
        if isFirst {
          subscriptions := subscriptions - {account};
        }
        assert subscriptions == old(subscriptions);
        return BalanceRejected;
      }
      subscriptions := subscriptions[account := next];
      accountPlans := accountPlans[account := plan.value.id];
      if quote.direction != Unchanged {
        RecordAuditEntry(account, change, quote);
      }
      assert subscriptions == old(subscriptions)[account := next];
      r := Changed(quote, next.cycleStart, next.cycleEnd, next.creditBalanceCents);
    }

    /** `ensureSubscription`: opens the first cycle of a new account. */
    method EnsureSub(account: Account, at: int, anchor: Option<int>) returns (subscription: Subscription)
      modifies this`subscriptions
      ensures subscription == EnsureSubscription(old(View()), account, at, anchor)
      ensures subscriptions == old(subscriptions)[account := subscription]
      ensures account in old(subscriptions) ==> subscription == old(subscriptions)[account]
      ensures account !in old(subscriptions) ==>
        && subscription.cycleStart == (if anchor.Some? then anchor.value else at)
        && subscription.cycleEnd == AddBillingMonth(subscription.cycleStart) && subscription.creditBalanceCents == 0
    {
      hide AddBillingMonth;
      if account in subscriptions {
        subscription := subscriptions[account];
        assert subscriptions == subscriptions[account := subscription];
        return;
      }
      var start := if anchor.Some? then anchor.value else at;
      var planId := if account in accountPlans then accountPlans[account] else FREE;
      subscription := Subscription(planId, start, AddBillingMonth(start), 0, None, None);
      subscriptions := subscriptions[account := subscription];
    }

    /** `recordAuditEntry`: the trail only ever grows at its end. */
    method RecordAuditEntry(account: Account, change: PlanChange, quote: Quote)
      modifies this`auditTrail
      ensures auditTrail == old(auditTrail)[account := TrailOf(old(View()), account) + [EntryOf(change, quote)]]
    {
      var entries := if account in auditTrail then auditTrail[account] else [];
      entries := entries + [EntryOf(change, quote)];
      auditTrail := auditTrail[account := entries];
    }

    /** `rolloverBillingCycle` */
    method RolloverBillingCycle(account: Account, at: int) returns (r: RolloverResult)
      requires Valid()
      modifies this
      ensures Valid()
      ensures (View(), r) == Rollover(old(View()), account, at)
    {
      hide BooksOk, AddBillingMonth;
      RolloverKeepsBooks(View(), account, at);
      if account !in subscriptions || at < subscriptions[account].cycleEnd {
        return StillRunning;
      }
      var subscription := subscriptions[account];
      var writtenOffCreditCents := subscription.creditBalanceCents;
      subscription := subscription.(creditBalanceCents := 0, creditCycleStart := None, creditCycleEnd := None);
      var closedStart, closedEnd := subscription.cycleStart, subscription.cycleEnd;
      subscription := subscription.(cycleStart := closedEnd);
      subscription := subscription.(cycleEnd := AddBillingMonth(subscription.cycleStart));
      subscriptions := subscriptions[account := subscription];
      r := RolledOver(closedStart, closedEnd, subscription.cycleEnd, writtenOffCreditCents);
    }
  }
}
