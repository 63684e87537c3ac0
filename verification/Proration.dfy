/** Proration of a plan change, src/billing/billing-proration.ts.

    Prices are whole cents, instants whole milliseconds, and the share of the cycle
    still ahead is an exact fraction in [0, 1].  `Math.round` rounds half up. */
module Proration {
  import opened Numbers

  datatype PlanId = PlanId(name: string)

  datatype Direction = Activation | Upgrade | Downgrade | Lateral | Unchanged

  datatype Window = Window(cycleStart: int, cycleEnd: int, effectiveAt: int)

  datatype Measurement = Measurement(totalCycleMs: int, remainingMs: int, remainingFraction: real)

  datatype LineKind = UnusedCredit | NewPlanCharge
  datatype LineItem = LineItem(kind: LineKind, planId: PlanId, amountCents: int)

  datatype PlanChange = PlanChange(
    fromPlanId: PlanId, toPlanId: PlanId,
    fromPriceCents: nat, toPriceCents: nat,
    window: Window,
    isFirstSubscription: bool)

  datatype Quote = Quote(
    direction: Direction,
    unusedCreditCents: int,
    newPlanChargeCents: int,
    netAmountCents: int,
    lineItems: seq<LineItem>)

  function MinReal(a: real, b: real): real { if a <= b then a else b }
  function MaxReal(a: real, b: real): real { if a >= b then a else b }

  /** `measureRemainingCycle(window)` */
  function MeasureRemainingCycle(w: Window): Measurement {
    var total := w.cycleEnd - w.cycleStart;
    if total <= 0 then Measurement(0, 0, 0.0)
    else
      var elapsed := w.effectiveAt - w.cycleStart;
      var remaining := Min(Max(w.cycleEnd - w.effectiveAt, 0), total);
      var fraction := (total - Min(Max(elapsed, 0), total)) as real / total as real;
      Measurement(total, remaining, MinReal(MaxReal(fraction, 0.0), 1.0))
  }

  /** `resolveProrationDirection(...)` */
  function ResolveDirection(c: PlanChange): Direction {
    if c.isFirstSubscription then Activation
    else if c.fromPlanId == c.toPlanId then Unchanged
    else if c.toPriceCents > c.fromPriceCents then Upgrade
    else if c.toPriceCents < c.fromPriceCents then Downgrade
    else Lateral
  }

  /** `Math.round(x)` */
  function Round(x: real): int { (x + 0.5).Floor }

  function Fraction(w: Window): real { MeasureRemainingCycle(w).remainingFraction }

  /** The unrounded share of a price. */
  function Exact(priceCents: nat, w: Window): real { priceCents as real * Fraction(w) }

  /** `Math.round(priceCents * remainingFraction)` */
  function Share(priceCents: nat, w: Window): int {
    Round(Exact(priceCents, w))
  }

  /** `quotePlanChange(input)` */
  function QuotePlanChange(c: PlanChange): Quote {
    var direction := ResolveDirection(c);
    var credit := if direction == Unchanged then 0 else Share(c.fromPriceCents, c.window);
    var charge := if direction == Unchanged then 0 else Share(c.toPriceCents, c.window);
    var creditLine := if credit != 0 then [LineItem(UnusedCredit, c.fromPlanId, -credit)] else [];
    var chargeLine := if charge != 0 then [LineItem(NewPlanCharge, c.toPlanId, charge)] else [];
    Quote(direction, credit, charge, charge - credit, creditLine + chargeLine)
  }

  // ---------------------------------------------------------------- the window

  /** The two clamped formulas agree: the fraction is the remaining time over the whole, it
      lies in [0, 1], is 1 exactly up to the start of the cycle and 0 exactly from its end
      on, and an empty cycle has nothing left. */
  lemma FractionExact(w: Window)
    ensures var m := MeasureRemainingCycle(w);
      && 0.0 <= m.remainingFraction <= 1.0
      && 0 <= m.remainingMs <= m.totalCycleMs
      && m.remainingFraction * m.totalCycleMs as real == m.remainingMs as real
      && (w.cycleStart < w.cycleEnd ==>
            && m.totalCycleMs == w.cycleEnd - w.cycleStart
            && (m.remainingFraction == 1.0 <==> w.effectiveAt <= w.cycleStart)
            && (m.remainingFraction == 0.0 <==> w.effectiveAt >= w.cycleEnd))
      && (w.cycleEnd <= w.cycleStart ==> m.remainingFraction == 0.0)
  {
    var total := w.cycleEnd - w.cycleStart;
    if total > 0 {
      var left := total - Min(Max(w.effectiveAt - w.cycleStart, 0), total);
      Ratio(left, total);
    }
  }

  lemma Ratio(left: int, total: int)
    requires 0 <= left <= total && 0 < total
    ensures var f := left as real / total as real;
      0.0 <= f <= 1.0 && f * total as real == left as real && (f == 1.0 <==> left == total) && (f == 0.0 <==> left == 0)
  {
    var f := left as real / total as real;
    assert f * total as real == left as real;
    assert (f - 1.0) * total as real == (left - total) as real;
  }

  // ---------------------------------------------------------------- rounding

  lemma RoundNear(x: real)
    ensures Round(x) as real - 0.5 <= x < Round(x) as real + 0.5
  {
  }

  lemma RoundMonotone(x: real, y: real)
    requires x <= y
    ensures Round(x) <= Round(y)
  {
  }

  lemma RoundWhole(n: int)
    ensures Round(n as real) == n
  {
  }

  lemma ProductOrdered(p: real, q: real, f: real)
    requires 0.0 <= p <= q && 0.0 <= f <= 1.0
    ensures 0.0 <= p * f <= q * f <= q
  {
    assert q * f - p * f == (q - p) * f;
    assert q - q * f == q * (1.0 - f);
  }

  lemma ExactOrdered(p: nat, q: nat, w: Window)
    requires p <= q
    ensures 0.0 <= Exact(p, w) <= Exact(q, w) <= q as real
  {
    hide MeasureRemainingCycle;
    FractionExact(w);
    ProductOrdered(p as real, q as real, Fraction(w));
  }

  /** A share lies between zero and the price and grows with the price. */
  lemma ShareBounds(p: nat, q: nat, w: Window)
    requires p <= q
    ensures 0 <= Share(p, w) <= Share(q, w) <= q
  {
    hide Exact, Round;
    ExactOrdered(p, q, w);
    RoundWhole(0);
    RoundWhole(q);
    RoundMonotone(0.0, Exact(p, w));
    RoundMonotone(Exact(p, w), Exact(q, w));
    RoundMonotone(Exact(q, w), q as real);
  }

  lemma ExactDifference(p: nat, q: nat, w: Window)
    ensures Exact(q, w) - Exact(p, w) == (q - p) as real * Fraction(w)
  {
    hide Fraction;
    var f := Fraction(w);
    assert (q - p) as real == q as real - p as real;
    assert (q as real - p as real) * f == q as real * f - p as real * f;
  }

  // ---------------------------------------------------------------- the quote

  ghost function Total(items: seq<LineItem>): int {
    if items == [] then 0 else items[0].amountCents + Total(items[1..])
  }

  /** The lines add up to the net, none is zero, and credits are the negative ones.  A credit is for
      the old plan and stands first, a charge for the new one. */
  lemma LineItemsSumToNet(c: PlanChange)
    ensures var q := QuotePlanChange(c);
      && Total(q.lineItems) == q.netAmountCents
      && |q.lineItems| <= 2
      && (forall i :: 0 <= i < |q.lineItems| ==>
            || q.lineItems[i] == LineItem(UnusedCredit, c.fromPlanId, -q.unusedCreditCents)
            || q.lineItems[i] == LineItem(NewPlanCharge, c.toPlanId, q.newPlanChargeCents))
      && (|q.lineItems| == 2 ==> q.lineItems[0].kind == UnusedCredit && q.lineItems[1].kind == NewPlanCharge)
      && (forall i :: 0 <= i < |q.lineItems| ==>
            && q.lineItems[i].amountCents != 0
            && (q.lineItems[i].kind == UnusedCredit <==> q.lineItems[i].amountCents < 0))
  {
    hide Share;
    var q := QuotePlanChange(c);
    ShareBounds(c.fromPriceCents, c.fromPriceCents, c.window);
    ShareBounds(c.toPriceCents, c.toPriceCents, c.window);
    if |q.lineItems| == 1 {
      assert q.lineItems[1..] == [];
    } else if |q.lineItems| == 2 {
      var tail := q.lineItems[1..];
      assert tail[0] == q.lineItems[1] && tail[1..] == [];
      assert Total(tail) == tail[0].amountCents;
    }
  }

  /** Credit and charge are bounded by the prices, and the sign of the net follows the
      direction: an upgrade never nets a credit, a downgrade never nets a charge. */
  lemma NetFollowsDirection(c: PlanChange)
    ensures var q := QuotePlanChange(c);
      && 0 <= q.unusedCreditCents <= c.fromPriceCents
      && 0 <= q.newPlanChargeCents <= c.toPriceCents
      && q.netAmountCents == q.newPlanChargeCents - q.unusedCreditCents
      && (q.direction == Upgrade ==> q.netAmountCents >= 0)
      && (q.direction == Downgrade ==> q.netAmountCents <= 0)
      && (q.direction == Lateral || q.direction == Unchanged ==> q.netAmountCents == 0)
  {
    hide Share;
    ShareBounds(c.fromPriceCents, c.fromPriceCents, c.window);
    ShareBounds(c.toPriceCents, c.toPriceCents, c.window);
    if c.fromPriceCents <= c.toPriceCents {
      ShareBounds(c.fromPriceCents, c.toPriceCents, c.window);
    } else {
      ShareBounds(c.toPriceCents, c.fromPriceCents, c.window);
    }
  }

  /** Unless nothing is charged, the net is less than one cent from the exact amount. */
  lemma NetWithinACent(c: PlanChange)
    requires ResolveDirection(c) != Unchanged
    ensures var exact := (c.toPriceCents - c.fromPriceCents) as real * Fraction(c.window);
      exact - 1.0 < QuotePlanChange(c).netAmountCents as real < exact + 1.0
  {
    hide Exact, Fraction, Round;
    ExactDifference(c.fromPriceCents, c.toPriceCents, c.window);
    RoundNear(Exact(c.fromPriceCents, c.window));
    RoundNear(Exact(c.toPriceCents, c.window));
  }

  /** In whole numbers: a share reaches `k` cents exactly when the time left is worth `k` cents
      less half a cent. */
  lemma ShareReaches(priceCents: nat, w: Window, k: int)
    requires w.cycleStart < w.cycleEnd
    ensures var m := MeasureRemainingCycle(w);
      Share(priceCents, w) >= k <==> 2 * priceCents * m.remainingMs >= (2 * k - 1) * m.totalCycleMs
  {
    hide MeasureRemainingCycle, Round;
    FractionExact(w);
    var m := MeasureRemainingCycle(w);
    RoundReaches(Exact(priceCents, w), k);
    HalfCents(priceCents, m.remainingFraction, m.remainingMs, m.totalCycleMs, k);
  }

  lemma RoundReaches(x: real, k: int)
    ensures Round(x) >= k <==> 2.0 * x >= (2 * k - 1) as real
  {
  }

  lemma HalfCents(p: nat, f: real, left: int, total: int, k: int)
    requires 0 < total && f * total as real == left as real
    ensures 2.0 * (p as real * f) >= (2 * k - 1) as real <==> 2 * p * left >= (2 * k - 1) * total
  {
    var x, n := 2.0 * (p as real * f), (2 * k - 1) as real;
    assert x * total as real == 2.0 * (p as real * (f * total as real)) == (2 * p * left) as real;
    assert n * total as real == ((2 * k - 1) * total) as real;
    ScaleOrder(x, n, total as real);
  }

  lemma ScaleOrder(x: real, y: real, z: real)
    requires z > 0.0
    ensures x >= y <==> x * z >= y * z
  {
    assert x * z - y * z == (x - y) * z;
  }

  /** `k` less half a cent lies above the exact share of the old price and not above that of
      the new one. */
  predicate HalfCentBetween(c: PlanChange, k: int) {
    var m := MeasureRemainingCycle(c.window);
    2 * c.fromPriceCents * m.remainingMs < (2 * k - 1) * m.totalCycleMs <= 2 * c.toPriceCents * m.remainingMs
  }

  /** A dearer plan is charged for exactly when a half cent lies between the two exact shares. */
  lemma UpgradeChargedExactly(c: PlanChange)
    requires ResolveDirection(c) == Upgrade
    ensures QuotePlanChange(c).netAmountCents > 0 <==> exists k :: HalfCentBetween(c, k)
    ensures (c.toPriceCents - c.fromPriceCents) as real * Fraction(c.window) >= 1.0 ==>
      QuotePlanChange(c).netAmountCents > 0
  {
    hide Share, MeasureRemainingCycle, Fraction;
    NetWithinACent(c);
    NetFollowsDirection(c);
    var w := c.window;
    if w.cycleStart < w.cycleEnd {
      var k := Share(c.toPriceCents, w);
      ShareReaches(c.toPriceCents, w, k);
      ShareReaches(c.fromPriceCents, w, k);
      forall k | HalfCentBetween(c, k) ensures Share(c.toPriceCents, w) > Share(c.fromPriceCents, w) {
        ShareReaches(c.toPriceCents, w, k);
        ShareReaches(c.fromPriceCents, w, k);
      }
      assert QuotePlanChange(c).netAmountCents > 0 ==> HalfCentBetween(c, k);
    } else {
      FractionExact(w);
      EmptyShare(c.fromPriceCents, w);
      EmptyShare(c.toPriceCents, w);
      EmptyMeasure(w);
    }
  }

  lemma EmptyMeasure(w: Window)
    requires w.cycleEnd <= w.cycleStart
    ensures MeasureRemainingCycle(w) == Measurement(0, 0, 0.0)
  {
  }

  lemma EmptyShare(priceCents: nat, w: Window)
    requires w.cycleEnd <= w.cycleStart
    ensures Share(priceCents, w) == 0
  {
    EmptyMeasure(w);
    RoundWhole(0);
  }

  /** An upgrade to at least three times the price is charged exactly while the time left is
      worth half a cent of the new plan. */
  lemma SteepUpgradeCharged(c: PlanChange)
    requires ResolveDirection(c) == Upgrade && c.toPriceCents >= 3 * c.fromPriceCents
    ensures var m := MeasureRemainingCycle(c.window);
      QuotePlanChange(c).netAmountCents > 0 <==> 0 < m.totalCycleMs <= 2 * c.toPriceCents * m.remainingMs
  {
    hide Share, MeasureRemainingCycle;
    var w, p, q := c.window, c.fromPriceCents, c.toPriceCents;
    var m := MeasureRemainingCycle(w);
    FractionExact(w);
    if w.cycleStart < w.cycleEnd {
      ShareReaches(q, w, 1);
      ShareReaches(p, w, 1);
      ShareBounds(p, q, w);
      if Share(p, w) >= 1 {
        var k := Share(p, w);
        ShareReaches(p, w, k + 1);
        ShareReaches(p, w, k);
        ShareReaches(q, w, k + 1);
        Threefold(p, q, m.remainingMs, m.totalCycleMs, k);
      }
    } else {
      EmptyMeasure(w);
      EmptyShare(p, w);
      EmptyShare(q, w);
    }
  }

  lemma Threefold(p: nat, q: nat, left: int, total: int, k: int)
    requires q >= 3 * p && k >= 1 && left >= 0 && total > 0
    requires 2 * p * left >= (2 * k - 1) * total
    ensures 2 * q * left >= (2 * (k + 1) - 1) * total
  {
    assert 2 * q * left >= 3 * (2 * p * left) by {
      assert 2 * q * left - 3 * (2 * p * left) == 2 * (q - 3 * p) * left;
    }
    assert 3 * ((2 * k - 1) * total) - (2 * k + 1) * total == 4 * (k - 1) * total;
  }

  /** A price is charged in full exactly when the time gone is worth at most half a cent of it. */
  lemma FullShareExactly(priceCents: nat, w: Window)
    requires w.cycleStart < w.cycleEnd
    ensures var m := MeasureRemainingCycle(w);
      Share(priceCents, w) == priceCents <==> 2 * priceCents * (m.totalCycleMs - m.remainingMs) <= m.totalCycleMs
  {
    hide Share, MeasureRemainingCycle;
    var m := MeasureRemainingCycle(w);
    ShareBounds(priceCents, priceCents, w);
    ShareReaches(priceCents, w, priceCents);
    assert 2 * priceCents * (m.totalCycleMs - m.remainingMs)
        == 2 * priceCents * m.totalCycleMs - 2 * priceCents * m.remainingMs;
    assert (2 * priceCents - 1) * m.totalCycleMs == 2 * priceCents * m.totalCycleMs - m.totalCycleMs;
  }

  /** An activation halfway into a cycle of 30 days that was anchored in the past is charged half. */
  lemma LateActivationIsProrated()
    ensures var c := PlanChange(PlanId("free"), PlanId("starter"), 0, 1900, Window(0, 2592000000, 1296000000), true);
      QuotePlanChange(c).direction == Activation && QuotePlanChange(c).netAmountCents == 950
  {
    var w := Window(0, 2592000000, 1296000000);
    assert Fraction(w) == 0.5;
    RoundWhole(950);
    RoundWhole(0);
    assert Share(1900, w) == 950 && Share(0, w) == 0;
  }

  /** An upgrade from 19 to 99 dollars in the last millisecond of a 31-day cycle moves no money. */
  lemma LastInstantUpgradeIsFree()
    ensures var end := 31 * 86400000;
      var c := PlanChange(PlanId("starter"), PlanId("growth"), 1900, 9900, Window(0, end, end - 1), false);
      QuotePlanChange(c).direction == Upgrade && QuotePlanChange(c).netAmountCents == 0
  {
    var end := 31 * 86400000;
    var w := Window(0, end, end - 1);
    var f := 1.0 / end as real;
    assert Fraction(w) == f;
    assert 9900.0 * f < 0.5 && 1900.0 * f < 0.5;
    assert Share(1900, w) == 0 && Share(9900, w) == 0;
    assert "starter" != "growth" by { assert "starter"[0] != "growth"[0]; }
  }

  /** A quote between plans whose equal ids mean equal prices is a difference of two shares. */
  lemma NetIsShareDifference(c: PlanChange)
    requires c.fromPlanId == c.toPlanId ==> c.fromPriceCents == c.toPriceCents
    ensures QuotePlanChange(c).netAmountCents == Share(c.toPriceCents, c.window) - Share(c.fromPriceCents, c.window)
  {
    hide Share;
  }
}
