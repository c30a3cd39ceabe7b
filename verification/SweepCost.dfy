/**
 What the fills of a DCA sweep cost at its limit price, which is 1.5 times the quoted price that the
 sweep books them at. A fill at the limit price is the worst an exchange may charge.
 */
module SweepCost {
  import opened DcaSweep

  /** What a quantity costs at the limit price, and what the sweep books for it. */
  function LimitCost(price: real, qty: real): real {
    qty * SweepPrice(price)
  }

  function Booked(price: real, qty: real): real {
    qty * price
  }

  lemma CostLaws(price: real, a: real, b: real)
    requires price > 0.0
    ensures a < b ==> LimitCost(price, a) < LimitCost(price, b)
    ensures LimitCost(price, a + b) == LimitCost(price, a) + LimitCost(price, b)
    ensures LimitCost(price, a) == 1.5 * Booked(price, a)
    ensures Booked(price, a + b) == Booked(price, a) + Booked(price, b)
    ensures LimitCost(price, 0.0) == 0.0 && LimitCost(price, 1.0) == SweepPrice(price) > 0.0
  {
    if a < b {
      Stretch(a, b, SweepPrice(price));
    }
    MulAddReal(a, b, SweepPrice(price));
    MulAddReal(a, b, price);
    TimesOneAndAHalf(a, price);
  }

  lemma Stretch(a: real, b: real, m: real)
    requires a < b && m > 0.0
    ensures a * m < b * m
  {
    assert (b - a) * m > 0.0;
  }

  /** What an amount buys at the limit price in whole units fits into it, and one unit more does not. */
  lemma UnitsFit(price: real, amount: real)
    requires price > 0.0
    ensures var q := OrderQty(price, amount);
            q == q.Floor as real && LimitCost(price, q) <= amount < LimitCost(price, q + 1.0)
  {
    var raw := amount / SweepPrice(price);
    var q := RoundQty(raw);
    assert LimitCost(price, raw) == amount;
    hide LimitCost;
    CostLaws(price, q, raw);
    CostLaws(price, raw, q + 1.0);
  }

  lemma UnitsBelow(price: real, a: int, b: int, amount: real)
    requires price > 0.0 && LimitCost(price, a as real) <= amount < LimitCost(price, b as real + 1.0)
    ensures a <= b
  {
    hide LimitCost, Booked, SweepPrice;
    if a > b + 1 {
      CostLaws(price, b as real + 1.0, a as real);
    }
  }

  /** The number of whole units is the only one that fits. */
  lemma UnitsAre(price: real, amount: real, n: int)
    requires price > 0.0 && LimitCost(price, n as real) <= amount < LimitCost(price, n as real + 1.0)
    ensures OrderQty(price, amount) == n as real
  {
    hide LimitCost, Booked, OrderQty, SweepPrice;
    var m := OrderQty(price, amount).Floor;
    UnitsFit(price, amount);
    UnitsBelow(price, m, n, amount);
    UnitsBelow(price, n, m, amount);
  }

  /** An amount buys something exactly when it is at least one unit's price. */
  lemma SomeUnit(price: real, amount: real)
    requires price > 0.0
    ensures amount >= SweepPrice(price) <==> OrderQty(price, amount) >= 1.0
    ensures OrderQty(price, amount) >= 1.0 <==> OrderQty(price, amount) > 0.0
  {
    hide LimitCost, Booked, OrderQty, SweepPrice;
    var q := OrderQty(price, amount);
    UnitsFit(price, amount);
    CostLaws(price, 1.0, q);
    CostLaws(price, q + 1.0, 1.0);
  }

  // ---------- Attempts ----------

  lemma ThreeAttempts(price: real, minNotional: real, budget: real, a: Reply, b: Reply, c: Reply)
    requires price > 0.0
    ensures var s1 := Attempt(price, minNotional, StartSweep(budget), a);
            var s2 := Attempt(price, minNotional, s1, b);
            Attempts(price, minNotional, StartSweep(budget), [a, b, c])
            == if s1.stopped then s1 else if s2.stopped then s2 else Attempt(price, minNotional, s2, c)
  {
    hide Attempt, Attempts;
    var s1 := Attempt(price, minNotional, StartSweep(budget), a);
    var s2 := Attempt(price, minNotional, s1, b);
    assert [a, b, c][1..] == [b, c] && [b, c][1..] == [c] && [c][1..] == [];
    NextAttempt(price, minNotional, StartSweep(budget), [a, b, c]);
    NextAttempt(price, minNotional, s1, [b, c]);
    NextAttempt(price, minNotional, s2, [c]);
    NextAttempt(price, minNotional, Attempt(price, minNotional, s2, c), []);
  }

  /** The attempt places an order. */
  predicate Orders(price: real, minNotional: real, s: Sweep)
    requires price > 0.0
  {
    s.remaining >= minNotional && OrderQty(price, s.remaining) > 0.0
  }

  /** What one attempt does to the quantities. */
  lemma AttemptFills(price: real, minNotional: real, s: Sweep, reply: Reply)
    requires price > 0.0
    ensures var after := Attempt(price, minNotional, s, reply);
            var filled := FilledQty(OrderQty(price, s.remaining), reply);
            if !Orders(price, minNotional, s) || reply.Refused? then
              && after.filledQty == s.filledQty && after.remaining == s.remaining
              && (!Orders(price, minNotional, s) ==> after.stopped)
            else
              && after.filledQty == s.filledQty + filled && after.remaining == s.remaining - Booked(price, filled)
              && (after.stopped <==> after.remaining < minNotional)
  {
  }

  // ---------- An exchange that fills every order ----------

  /** What the first order leaves when it is filled. */
  function Left(budget: real, price: real): real
    requires price > 0.0
  {
    budget - Booked(price, OrderQty(price, budget))
  }

  /**
   When every order is filled, the sweep costs at most its budget exactly when its second order is not placed:
   nothing was affordable at all, or what the first order leaves is below the minimum or buys no unit.
   */
  lemma FullFillsWithinIff(budget: real, price: real, minNotional: real)
    requires price > 0.0 && budget >= 0.0
    ensures LimitCost(price, Attempts(price, minNotional, StartSweep(budget), [Gone, Gone, Gone]).filledQty) <= budget <==>
            || budget < minNotional || OrderQty(price, budget) <= 0.0
            || Left(budget, price) < minNotional || OrderQty(price, Left(budget, price)) <= 0.0
  {
    hide OrderQty, Attempts, Attempt, SweepPrice, LimitCost, Booked;
    var s0 := StartSweep(budget);
    var s1 := Attempt(price, minNotional, s0, Gone);
    var s2 := Attempt(price, minNotional, s1, Gone);
    var first, end := OrderQty(price, budget), Attempts(price, minNotional, s0, [Gone, Gone, Gone]);
    ThreeAttempts(price, minNotional, budget, Gone, Gone, Gone);
    AttemptFills(price, minNotional, s0, Gone);
    AttemptFills(price, minNotional, s1, Gone);
    AttemptFills(price, minNotional, s2, Gone);
    UnitsFit(price, budget);
    SomeUnit(price, s1.remaining);
    CostLaws(price, first + 1.0, end.filledQty);
  }

  // ---------- Every honest exchange ----------

  /** The least amount that an attempt may be made with. */
  function Least(price: real, minNotional: real): real {
    if minNotional < SweepPrice(price) then SweepPrice(price) else minNotional
  }

  /**
   With k units affordable at the least amount t: the budget is at most k + 1 units, and so little above t
   that no partial fill on the way down to t pays.
   */
  predicate Affordable(budget: real, price: real, minNotional: real)
    requires price > 0.0
  {
    var t := Least(price, minNotional);
    var k := OrderQty(price, t);
    budget <= LimitCost(price, k + 1.0) && budget <= 3.0 * t - 2.0 * LimitCost(price, k)
  }

  /** Between the least amount and an affordable budget no amount buys too much. */
  lemma Enough(budget: real, price: real, minNotional: real, amount: real)
    requires price > 0.0 && Affordable(budget, price, minNotional) && Least(price, minNotional) <= amount <= budget
    ensures budget <= 3.0 * amount - 2.0 * LimitCost(price, OrderQty(price, amount))
  {
    hide OrderQty, SweepPrice, LimitCost, Booked;
    var t := Least(price, minNotional);
    var k, q := OrderQty(price, t), OrderQty(price, amount);
    UnitsFit(price, t);
    UnitsFit(price, amount);
    if amount < LimitCost(price, k + 1.0) {
      UnitsBelow(price, q.Floor, k.Floor, amount);
      CostLaws(price, q, k);
      assert q <= k;
    }
  }

  /** A sweep under way has booked what it filled, at no more than its budget at the limit price. */
  predicate OnTrack(budget: real, price: real, s: Sweep) {
    s.remaining + Booked(price, s.filledQty) == budget && s.filledQty >= 0.0 && LimitCost(price, s.filledQty) <= budget
  }

  lemma AttemptWithin(budget: real, price: real, minNotional: real, s: Sweep, reply: Reply)
    requires price > 0.0 && Affordable(budget, price, minNotional) && OnTrack(budget, price, s)
    requires reply.StillOpen? ==> 0.0 <= reply.filled <= OrderQty(price, s.remaining)
    ensures OnTrack(budget, price, Attempt(price, minNotional, s, reply))
  {
    hide OrderQty, SweepPrice, LimitCost, Booked, Attempt, Affordable;
    var q := OrderQty(price, s.remaining);
    var more := FilledQty(q, reply);
    AttemptFills(price, minNotional, s, reply);
    if Orders(price, minNotional, s) && !reply.Refused? {
      SomeUnit(price, s.remaining);
      CostLaws(price, 0.0, s.filledQty);
      CostLaws(price, s.filledQty, 0.0);
      Enough(budget, price, minNotional, s.remaining);
      CostLaws(price, s.filledQty, more);
      CostLaws(price, more, q);
    }
  }

  lemma {:induction false} AttemptsWithin(budget: real, price: real, minNotional: real, s: Sweep, replies: seq<Reply>)
    requires price > 0.0 && Affordable(budget, price, minNotional) && OnTrack(budget, price, s)
    requires Honest(price, minNotional, s, replies)
    ensures OnTrack(budget, price, Attempts(price, minNotional, s, replies))
    decreases |replies|
  {
    hide Affordable, Attempt, OnTrack, OrderQty;
    if replies != [] && !s.stopped {
      AttemptWithin(budget, price, minNotional, s, replies[0]);
      AttemptsWithin(budget, price, minNotional, Attempt(price, minNotional, s, replies[0]), replies[1..]);
    }
  }

  /** A fill of `part` units, then a full fill, then nothing. */
  function PartThenFull(part: real): seq<Reply> {
    [StillOpen(part), Gone, Refused(true)]
  }

  /** The quantity whose booking takes the budget down to the amount. */
  function PartTo(budget: real, price: real, amount: real): real
    requires price > 0.0
  {
    (budget - amount) / price
  }

  lemma PartFits(budget: real, price: real, amount: real)
    requires price > 0.0 && Left(budget, price) <= amount <= budget
    ensures 0.0 <= PartTo(budget, price, amount) <= OrderQty(price, budget)
    ensures Booked(price, PartTo(budget, price, amount)) == budget - amount
  {
    var q, part := OrderQty(price, budget), PartTo(budget, price, amount);
    hide OrderQty;
    assert Booked(price, part) == budget - amount;
    hide Booked, PartTo, LimitCost;
    CostLaws(price, part, 0.0);
    CostLaws(price, q, part);
    CostLaws(price, 0.0, q);
  }

  lemma PartThenFullCost(budget: real, price: real, minNotional: real, amount: real)
    requires price > 0.0 && Left(budget, price) <= amount <= budget && amount >= Least(price, minNotional)
    ensures var replies := PartThenFull(PartTo(budget, price, amount));
            && Honest(price, minNotional, StartSweep(budget), replies)
            && LimitCost(price, Attempts(price, minNotional, StartSweep(budget), replies).filledQty)
               == 1.5 * (budget - amount) + LimitCost(price, OrderQty(price, amount))
  {
    hide OrderQty, Attempts, Attempt, SweepPrice, LimitCost, Booked, Left, PartTo;
    var part, q := PartTo(budget, price, amount), OrderQty(price, amount);
    var s0 := StartSweep(budget);
    var s1 := Attempt(price, minNotional, s0, StillOpen(part));
    var s2 := Attempt(price, minNotional, s1, Gone);
    PartFits(budget, price, amount);
    SomeUnit(price, budget);
    SomeUnit(price, amount);
    ThreeAttempts(price, minNotional, budget, StillOpen(part), Gone, Refused(true));
    AttemptFills(price, minNotional, s0, StillOpen(part));
    AttemptFills(price, minNotional, s1, Gone);
    AttemptFills(price, minNotional, s2, Refused(true));
    CostLaws(price, part, q);
    var replies := PartThenFull(part);
    assert replies[1..] == [Gone, Refused(true)] && replies[1..][1..] == [Refused(true)];
    assert Honest(price, minNotional, s2, [Refused(true)]);
    assert Honest(price, minNotional, s1, replies[1..]);
  }

  /** The amount that a partial first fill leaves for the costliest second order. */
  function WorstAmount(budget: real, price: real, minNotional: real): real
    requires price > 0.0
  {
    var t := Least(price, minNotional);
    var above := LimitCost(price, OrderQty(price, t) + 1.0);
    if Left(budget, price) >= t then Left(budget, price) else if budget > above then above else t
  }

  lemma WorstPays(budget: real, price: real, minNotional: real)
    requires price > 0.0 && budget >= 0.0 && !Affordable(budget, price, minNotional)
    ensures var amount := WorstAmount(budget, price, minNotional);
            && Left(budget, price) <= amount <= budget && amount >= Least(price, minNotional)
            && 1.5 * (budget - amount) + LimitCost(price, OrderQty(price, amount)) > budget
  {
    var t := Least(price, minNotional);
    var k, first, left := OrderQty(price, t), OrderQty(price, budget), Left(budget, price);
    QtyBound(price, budget);
    UnitsFit(price, t);
    assert left == budget - Booked(price, first);
    hide OrderQty, SweepPrice, LimitCost, Booked, Left;
    CostLaws(price, 0.0, first);
    if left >= t {
      UnitsFit(price, budget);
      SomeUnit(price, left);
      CostLaws(price, 1.0, OrderQty(price, left));
      CostLaws(price, first, 1.0);
    } else if budget > LimitCost(price, k + 1.0) {
      CostLaws(price, k + 1.0, k + 1.0 + 1.0);
      UnitsAre(price, LimitCost(price, k + 1.0), k.Floor + 1);
    }
  }

  /**
   No honest exchange, whatever it fills of each order, can make the sweep cost more than its budget exactly
   when the budget is affordable, which is known before the first order. With a minimum of at most one unit that
   is a budget of at most one unit.
   */
  lemma EveryFillWithinIff(budget: real, price: real, minNotional: real)
    requires price > 0.0 && budget >= 0.0
    ensures (forall replies: seq<Reply> :: |replies| == MAX_SWEEP_ATTEMPTS && Honest(price, minNotional, StartSweep(budget), replies)
              ==> LimitCost(price, Attempts(price, minNotional, StartSweep(budget), replies).filledQty) <= budget)
            <==> Affordable(budget, price, minNotional)
    ensures minNotional <= SweepPrice(price) ==> (Affordable(budget, price, minNotional) <==> budget <= SweepPrice(price))
  {
    hide Attempts, Honest, LimitCost, Booked, Affordable, SweepPrice, WorstAmount, Left, PartTo, OrderQty;
    OneUnit(budget, price, minNotional);
    StartsOnTrack(budget, price);
    if Affordable(budget, price, minNotional) {
      forall replies: seq<Reply> | |replies| == MAX_SWEEP_ATTEMPTS && Honest(price, minNotional, StartSweep(budget), replies)
        ensures LimitCost(price, Attempts(price, minNotional, StartSweep(budget), replies).filledQty) <= budget
      {
        AttemptsWithin(budget, price, minNotional, StartSweep(budget), replies);
      }
    } else {
      var amount := WorstAmount(budget, price, minNotional);
      WorstPays(budget, price, minNotional);
      PartThenFullCost(budget, price, minNotional, amount);
      assert |PartThenFull(PartTo(budget, price, amount))| == MAX_SWEEP_ATTEMPTS;
    }
  }

  lemma StartsOnTrack(budget: real, price: real)
    requires budget >= 0.0
    ensures OnTrack(budget, price, StartSweep(budget))
  {
  }

  lemma OneUnit(budget: real, price: real, minNotional: real)
    requires price > 0.0
    ensures minNotional <= SweepPrice(price) ==> (Affordable(budget, price, minNotional) <==> budget <= SweepPrice(price))
  {
    hide OrderQty, SweepPrice, LimitCost, Booked;
    CostLaws(price, 1.0, 1.0 + 1.0);
    CostLaws(price, 1.0, 1.0);
    UnitsAre(price, SweepPrice(price), 1);
  }
}
