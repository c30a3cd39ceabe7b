/**
 One DCA purchase (executeDcaBuyAllIn in services/trade-api/src/strategies/dcaRunner.ts): a market
 order, one aggressive limit order, or a sweep of up to three of them. Prices and quantities are exact
 reals; what the exchange answers is an input.
 */
module DcaSweep {
  import opened Wrappers

  const MAX_SWEEP_ATTEMPTS: nat := 3

  /** The answer to a sweep order: refused, no longer listed as open, or still open with a reported fill. */
  datatype Reply = Refused(critical: bool) | Gone | StillOpen(filled: real)

  datatype Sweep = Sweep(remaining: real, filledQty: real, filledQuote: real, attempts: nat, stopped: bool)

  /** Quantities are rounded down to whole units. */
  function RoundQty(qty: real): real {
    qty.Floor as real
  }

  function SweepPrice(price: real): real {
    price * 1.5
  }

  /** The quantity the next attempt orders. */
  function OrderQty(price: real, remaining: real): real
    requires price > 0.0
  {
    RoundQty(remaining / SweepPrice(price))
  }

  function FilledQty(qty: real, reply: Reply): real {
    match reply case Refused(_) => 0.0 case Gone => qty case StillOpen(filled) => filled
  }

  /** One iteration of the sweep loop, with its ways out. */
  function Attempt(price: real, minNotional: real, s: Sweep, reply: Reply): Sweep
    requires price > 0.0
  {
    var started := s.(attempts := s.attempts + 1);
    var qty := OrderQty(price, s.remaining);
    if s.remaining < minNotional || qty <= 0.0 then started.(stopped := true)
    else if reply.Refused? then started.(stopped := reply.critical)
    else
      var filled := FilledQty(qty, reply);
      var left := s.remaining - filled * price;
      Sweep(left, s.filledQty + filled, s.filledQuote + filled * price, s.attempts + 1, left < minNotional)
  }

  function Attempts(price: real, minNotional: real, s: Sweep, replies: seq<Reply>): Sweep
    requires price > 0.0
    decreases |replies|
  {
    if replies == [] || s.stopped then s else Attempts(price, minNotional, Attempt(price, minNotional, s, replies[0]), replies[1..])
  }

  function StartSweep(budget: real): Sweep {
    Sweep(budget, 0.0, 0.0, 0, false)
  }

  /** Every reported fill lies between zero and the quantity ordered. */
  predicate Honest(price: real, minNotional: real, s: Sweep, replies: seq<Reply>)
    requires price > 0.0
    decreases |replies|
  {
    replies == [] || s.stopped ||
    (&& (replies[0].StillOpen? ==> 0.0 <= replies[0].filled <= OrderQty(price, s.remaining))
     && Honest(price, minNotional, Attempt(price, minNotional, s, replies[0]), replies[1..]))
  }

  /** The sweep loop. */
  method RunSweep(budget: real, price: real, minNotional: real, replies: seq<Reply>) returns (s: Sweep)
    requires price > 0.0 && |replies| == MAX_SWEEP_ATTEMPTS
    ensures s == Attempts(price, minNotional, StartSweep(budget), replies)
  {
    hide Attempt;
    var remaining, totalQty, totalQuote, attempts := budget, 0.0, 0.0, 0;
    s := StartSweep(budget);
    var i := 0;
    while i < MAX_SWEEP_ATTEMPTS
      invariant 0 <= i <= MAX_SWEEP_ATTEMPTS
      invariant s == Sweep(remaining, totalQty, totalQuote, attempts, false)
      invariant Attempts(price, minNotional, s, replies[i..]) == Attempts(price, minNotional, StartSweep(budget), replies)
    {
      ghost var before := s;
      attempts := attempts + 1;
      var qty := OrderQty(price, remaining);
      var stop := true;
      if remaining < minNotional || qty <= 0.0 {
      } else if replies[i].Refused? {
        stop := replies[i].critical;
      } else {
        var filled := if replies[i].Gone? then qty else replies[i].filled;
        totalQty := totalQty + filled;
        totalQuote := totalQuote + filled * price;
        remaining := remaining - filled * price;
        stop := remaining < minNotional;
      }
      s := Sweep(remaining, totalQty, totalQuote, attempts, stop);
      AttemptIs(price, minNotional, before, replies[i], s);
      assert replies[i..][1..] == replies[i + 1..];
      i := i + 1;
      if stop {
        return;
      }
    }
  }

  lemma AttemptIs(price: real, minNotional: real, s: Sweep, reply: Reply, after: Sweep)
    requires price > 0.0 && after.attempts == s.attempts + 1
    requires var qty := OrderQty(price, s.remaining);
             if s.remaining < minNotional || qty <= 0.0 then after == s.(attempts := s.attempts + 1, stopped := true)
             else if reply.Refused? then after == s.(attempts := s.attempts + 1, stopped := reply.critical)
             else
               var filled := if reply.Gone? then qty else reply.filled;
               && after.remaining == s.remaining - filled * price && after.filledQty == s.filledQty + filled
               && after.filledQuote == s.filledQuote + filled * price && after.stopped == (after.remaining < minNotional)
    ensures after == Attempt(price, minNotional, s, reply)
  {
  }

  /** remaining * 3^k never falls below the budget: an attempt uses up at most two thirds of what is left. */
  predicate Conserved(budget: real, price: real, s: Sweep, k: nat) {
    && s.remaining + s.filledQuote == budget
    && s.filledQuote == s.filledQty * price
    && 0.0 <= s.filledQuote
    && s.remaining >= Share(budget, k)
  }

  /** budget / 3^k */
  function Share(budget: real, k: nat): real {
    if k == 0 then budget else Share(budget, k - 1) / 3.0
  }

  lemma QtyBound(price: real, remaining: real)
    requires price > 0.0 && remaining >= 0.0
    ensures 0.0 <= OrderQty(price, remaining) && OrderQty(price, remaining) * price <= remaining * 2.0 / 3.0
  {
  }

  lemma MulAddReal(a: real, b: real, m: real)
    ensures (a + b) * m == a * m + b * m
  {
  }

  lemma CostBound(filled: real, qty: real, price: real, remaining: real)
    requires 0.0 <= filled <= qty && price > 0.0 && qty * price <= remaining * 2.0 / 3.0
    ensures 0.0 <= filled * price && remaining - filled * price >= remaining / 3.0
  {
  }

  lemma AttemptConserves(budget: real, price: real, minNotional: real, s: Sweep, reply: Reply, k: nat)
    requires price > 0.0 && budget >= 0.0 && Conserved(budget, price, s, k)
    requires reply.StillOpen? ==> 0.0 <= reply.filled <= OrderQty(price, s.remaining)
    ensures Conserved(budget, price, Attempt(price, minNotional, s, reply), k + 1)
  {
    ShareNonNegative(budget, k);
    QtyBound(price, s.remaining);
    hide OrderQty;
    var qty := OrderQty(price, s.remaining);
    var after := Attempt(price, minNotional, s, reply);
    if !(s.remaining < minNotional || qty <= 0.0 || reply.Refused?) {
      var filled := FilledQty(qty, reply);
      var cost := filled * price;
      CostBound(filled, qty, price, s.remaining);
      MulAddReal(s.filledQty, filled, price);
      assert after.remaining == s.remaining - cost;
    }
    assert Share(budget, k + 1) == Share(budget, k) / 3.0;
  }

  lemma {:induction false} ShareNonNegative(budget: real, k: nat)
    requires budget >= 0.0
    ensures Share(budget, k) >= 0.0 && Share(budget, k + 1) <= Share(budget, k)
  {
    if k > 0 {
      ShareNonNegative(budget, k - 1);
    }
  }

  /** After any attempts, what is left plus what was filled is the budget, and at least budget / 3^attempts is left. */
  lemma {:induction false} AttemptsConserve(budget: real, price: real, minNotional: real, s: Sweep, replies: seq<Reply>, k: nat)
    requires price > 0.0 && budget >= 0.0 && Conserved(budget, price, s, k) && Honest(price, minNotional, s, replies)
    ensures Conserved(budget, price, Attempts(price, minNotional, s, replies), k + |replies|)
    decreases |replies|
  {
    hide Attempt;
    if replies != [] {
      if s.stopped {
        Dwindle(budget, price, s, k, |replies|);
      } else {
        AttemptConserves(budget, price, minNotional, s, replies[0], k);
        AttemptsConserve(budget, price, minNotional, Attempt(price, minNotional, s, replies[0]), replies[1..], k + 1);
      }
    }
  }

  lemma {:induction false} Dwindle(budget: real, price: real, s: Sweep, k: nat, n: nat)
    requires budget >= 0.0 && Conserved(budget, price, s, k)
    ensures Conserved(budget, price, s, k + n)
  {
    if n > 0 {
      Dwindle(budget, price, s, k, n - 1);
      ShareNonNegative(budget, k + n - 1);
    }
  }

  /**
   The recorded spend of a sweep is at most 26/27 of the budget. At the limit price of 1.5 times the
   quoted price, however, the same fills may cost up to 13/9 of it.
   */
  lemma SweepBounds(budget: real, price: real, minNotional: real, replies: seq<Reply>)
    requires price > 0.0 && budget >= 0.0 && |replies| == MAX_SWEEP_ATTEMPTS && Honest(price, minNotional, StartSweep(budget), replies)
    ensures var s := Attempts(price, minNotional, StartSweep(budget), replies);
            && s.remaining + s.filledQuote == budget && s.filledQuote == s.filledQty * price
            && 0.0 <= s.filledQuote <= budget * 26.0 / 27.0
            && s.filledQty * SweepPrice(price) <= budget * 13.0 / 9.0
  {
    hide Attempts, Honest, Share;
    AttemptsConserve(budget, price, minNotional, StartSweep(budget), replies, 0) by {
      FullShare(budget);
    }
    FullShare(budget);
    var s := Attempts(price, minNotional, StartSweep(budget), replies);
    TimesOneAndAHalf(s.filledQty, price);
  }

  lemma FullShare(budget: real)
    ensures Share(budget, 0) == budget && Share(budget, 3) == budget / 27.0
  {
    assert Share(budget, 1) == Share(budget, 0) / 3.0;
    assert Share(budget, 2) == Share(budget, 1) / 3.0;
    assert Share(budget, 3) == Share(budget, 2) / 3.0;
  }

  lemma TimesOneAndAHalf(a: real, b: real)
    ensures a * SweepPrice(b) == (a * b) * 1.5
  {
  }

  /** Both bounds are reached: a budget of 27 at price 1 buys 18, 6 and 2 units. */
  lemma SweepBoundsTight()
    ensures Attempts(1.0, 1.0, StartSweep(27.0), [Gone, Gone, Gone]) == Sweep(1.0, 26.0, 26.0, 3, false)
    ensures 26.0 * SweepPrice(1.0) == 27.0 * 13.0 / 9.0
  {
    hide Attempts, Attempt;
    GoneAttempt(StartSweep(27.0), 18.0);
    GoneAttempt(Sweep(9.0, 18.0, 18.0, 1, false), 6.0);
    GoneAttempt(Sweep(3.0, 24.0, 24.0, 2, false), 2.0);
    NextAttempt(1.0, 1.0, StartSweep(27.0), [Gone, Gone, Gone]);
    NextAttempt(1.0, 1.0, Sweep(9.0, 18.0, 18.0, 1, false), [Gone, Gone]);
    NextAttempt(1.0, 1.0, Sweep(3.0, 24.0, 24.0, 2, false), [Gone]);
    NextAttempt(1.0, 1.0, Sweep(1.0, 26.0, 26.0, 3, false), []);
    assert [Gone, Gone, Gone][1..] == [Gone, Gone] && [Gone, Gone][1..] == [Gone] && [Gone][1..] == [];
  }

  lemma GoneAttempt(s: Sweep, qty: real)
    requires s.remaining == qty * 1.5 && qty >= 1.0 && qty == qty.Floor as real
    ensures Attempt(1.0, 1.0, s, Gone) == Sweep(s.remaining - qty, s.filledQty + qty, s.filledQuote + qty, s.attempts + 1, s.remaining - qty < 1.0)
  {
  }

  lemma NextAttempt(price: real, minNotional: real, s: Sweep, replies: seq<Reply>)
    requires price > 0.0
    ensures Attempts(price, minNotional, s, replies)
         == if replies == [] || s.stopped then s else Attempts(price, minNotional, Attempt(price, minNotional, s, replies[0]), replies[1..])
  {
  }

  // ---------- What a sweep buys ----------

  /** The whole units that an amount pays for at one and a half times the price. */
  function Units(price: real, left: real): real
    requires price > 0.0
  {
    (left / (price * 1.5)).Floor as real
  }

  /** What is left of the budget when so much has been bought. */
  function LeftAfter(price: real, budget: real, bought: real): real {
    budget - bought * price
  }

  /** The quantity that the first n replies filled, when an order stood behind each of them. */
  function Bought(price: real, budget: real, replies: seq<Reply>, n: nat): real
    requires price > 0.0 && n <= |replies|
  {
    if n == 0 then 0.0
    else
      var before := Bought(price, budget, replies, n - 1);
      before + match replies[n - 1]
               case Refused(_) => 0.0
               case Gone => Units(price, LeftAfter(price, budget, before))
               case StillOpen(filled) => filled
  }

  /** Order n + 1 goes out: enough of the budget is left for a whole unit, and order n was not refused for a critical reason. */
  predicate GoesOut(price: real, minNotional: real, budget: real, replies: seq<Reply>, n: nat)
    requires price > 0.0 && n <= |replies|
  {
    var left := LeftAfter(price, budget, Bought(price, budget, replies, n));
    && left >= minNotional && Units(price, left) >= 1.0
    && (n > 0 ==> replies[n - 1] != Refused(true))
  }

  /** The number of orders that go out. */
  function OrdersOut(price: real, minNotional: real, budget: real, replies: seq<Reply>, n: nat): (m: nat)
    requires price > 0.0 && n <= |replies|
    ensures n <= m <= |replies|
    ensures forall i :: n <= i < m ==> GoesOut(price, minNotional, budget, replies, i)
    ensures m < |replies| ==> !GoesOut(price, minNotional, budget, replies, m)
    decreases |replies| - n
  {
    if n < |replies| && GoesOut(price, minNotional, budget, replies, n) then OrdersOut(price, minNotional, budget, replies, n + 1) else n
  }

  /** The sweep as it stands after n orders. */
  predicate Stands(price: real, minNotional: real, budget: real, replies: seq<Reply>, s: Sweep, n: nat)
    requires price > 0.0 && n <= |replies|
  {
    && s.filledQty == Bought(price, budget, replies, n)
    && s.filledQuote == s.filledQty * price && s.remaining == budget - s.filledQty * price
    && (s.stopped ==> !GoesOut(price, minNotional, budget, replies, n))
    && (!s.stopped && n > 0 ==> replies[n - 1] != Refused(true))
  }

  lemma WholeUnit(price: real, left: real)
    requires price > 0.0
    ensures OrderQty(price, left) == Units(price, left)
    ensures OrderQty(price, left) > 0.0 <==> Units(price, left) >= 1.0
  {
  }

  /** What an order fills adds to the quantity and the quote, and comes off what is left. */
  lemma FillAdds(price: real, budget: real, s: Sweep, after: Sweep, filled: real)
    requires s.filledQuote == s.filledQty * price && s.remaining == budget - s.filledQty * price
    requires after.filledQty == s.filledQty + filled
    requires after.filledQuote == s.filledQuote + filled * price && after.remaining == s.remaining - filled * price
    ensures after.filledQuote == after.filledQty * price && after.remaining == budget - after.filledQty * price
  {
    MulAddReal(s.filledQty, filled, price);
  }

  lemma OrderStands(price: real, minNotional: real, budget: real, replies: seq<Reply>, s: Sweep, n: nat)
    requires price > 0.0 && n < |replies| && !s.stopped && Stands(price, minNotional, budget, replies, s, n)
    ensures var after := Attempt(price, minNotional, s, replies[n]);
            if GoesOut(price, minNotional, budget, replies, n) then Stands(price, minNotional, budget, replies, after, n + 1)
            else after == s.(attempts := s.attempts + 1, stopped := true)
  {
    hide OrderQty, Units, Bought;
    WholeUnit(price, s.remaining);
    assert s.remaining == LeftAfter(price, budget, Bought(price, budget, replies, n));
    if GoesOut(price, minNotional, budget, replies, n) {
      var filled := FilledQty(Units(price, s.remaining), replies[n]);
      NextBought(price, budget, replies, n, filled);
      if !replies[n].Refused? {
        FillAdds(price, budget, s, Attempt(price, minNotional, s, replies[n]), filled);
      }
    }
  }

  lemma NextBought(price: real, budget: real, replies: seq<Reply>, n: nat, filled: real)
    requires price > 0.0 && n < |replies|
    requires filled == FilledQty(Units(price, LeftAfter(price, budget, Bought(price, budget, replies, n))), replies[n])
    ensures Bought(price, budget, replies, n + 1) == Bought(price, budget, replies, n) + filled
  {
    hide Units;
  }

  lemma {:induction false} AttemptsStand(price: real, minNotional: real, budget: real, replies: seq<Reply>, s: Sweep, n: nat)
    requires price > 0.0 && n <= |replies| && Stands(price, minNotional, budget, replies, s, n)
    ensures var end := Attempts(price, minNotional, s, replies[n..]);
            end.filledQty == Bought(price, budget, replies, OrdersOut(price, minNotional, budget, replies, n))
            && end.filledQuote == end.filledQty * price
    decreases |replies| - n
  {
    hide Attempt, Bought, GoesOut;
    NextAttempt(price, minNotional, s, replies[n..]);
    if n < |replies| && !s.stopped {
      var after := Attempt(price, minNotional, s, replies[n]);
      OrderStands(price, minNotional, budget, replies, s, n);
      assert replies[n..][1..] == replies[n + 1..];
      if GoesOut(price, minNotional, budget, replies, n) {
        AttemptsStand(price, minNotional, budget, replies, after, n + 1);
      } else {
        NextAttempt(price, minNotional, after, replies[n + 1..]);
      }
    }
  }

  /**
   What a sweep buys, for all replies: its orders go out one after the other while enough is left for a whole unit
   and none was refused for a critical reason, and it records what these orders filled, at the quoted price.
   */
  lemma SweepBuys(price: real, minNotional: real, budget: real, replies: seq<Reply>)
    requires price > 0.0
    ensures var s := Attempts(price, minNotional, StartSweep(budget), replies);
            && s.filledQty == Bought(price, budget, replies, OrdersOut(price, minNotional, budget, replies, 0))
            && s.filledQuote == s.filledQty * price
  {
    hide Attempts;
    assert replies[0..] == replies;
    AttemptsStand(price, minNotional, budget, replies, StartSweep(budget), 0);
  }

  // ---------- A purchase ----------

  datatype Exchange = Dextrade | Nestex | Sweeping

  /** A recorded purchase: one order row and one fill row. */
  datatype Execution = Execution(price: real, qty: real, quote: real)

  /** What the budget and interval guards of the engine rely on. */
  predicate Sound(budget: real, e: Execution) {
    e.price > 0.0 && e.qty > 0.0 && e.quote == e.price * e.qty && 0.0 < e.quote <= budget
  }

  /** The exchange's part in a purchase. */
  datatype Market = Market(exchange: Exchange, price: Option<real>, minNotional: real, accepted: bool, replies: seq<Reply>)

  predicate HonestMarket(budget: real, m: Market) {
    m.exchange.Sweeping? && m.price.Some? && m.price.value > 0.0 ==> Honest(m.price.value, m.minNotional, StartSweep(budget), m.replies)
  }

  /** What a purchase records, if anything. */
  function Purchase(budget: real, m: Market): Option<Execution> {
    if m.price.None? || m.price.value <= 0.0 || budget < m.minNotional then None
    else
      var price := m.price.value;
      match m.exchange
      case Dextrade => if m.accepted then Some(Execution(price, budget / price, budget)) else None
      case Nestex =>
        if OrderQty(price, budget) > 0.0 && m.accepted then Some(Execution(price, budget / price, budget)) else None
      case Sweeping =>
        var s := Attempts(price, m.minNotional, StartSweep(budget), m.replies);
        if s.filledQuote > 0.0 then Some(Execution(price, s.filledQty, s.filledQuote)) else None
  }

  /** The reply means that something was bought. */
  predicate Fills(reply: Reply) {
    reply.Gone? || (reply.StillOpen? && reply.filled > 0.0)
  }

  lemma {:induction false} BoughtPositive(price: real, minNotional: real, budget: real, replies: seq<Reply>, n: nat)
    requires price > 0.0 && n <= |replies|
    requires forall i :: 0 <= i < n ==> GoesOut(price, minNotional, budget, replies, i) && (replies[i].StillOpen? ==> replies[i].filled >= 0.0)
    ensures Bought(price, budget, replies, n) >= 0.0
    ensures Bought(price, budget, replies, n) > 0.0 <==> exists i :: 0 <= i < n && Fills(replies[i])
  {
    hide Units, Bought, GoesOut;
    BoughtNone(price, budget, replies);
    if n > 0 {
      BoughtPositive(price, minNotional, budget, replies, n - 1);
      var filled := OrderFills(price, minNotional, budget, replies, n - 1);
      NextBought(price, budget, replies, n - 1, filled);
    }
  }

  lemma BoughtNone(price: real, budget: real, replies: seq<Reply>)
    requires price > 0.0
    ensures Bought(price, budget, replies, 0) == 0.0
  {
  }

  lemma OrderFills(price: real, minNotional: real, budget: real, replies: seq<Reply>, n: nat) returns (filled: real)
    requires price > 0.0 && n < |replies| && GoesOut(price, minNotional, budget, replies, n)
    requires replies[n].StillOpen? ==> replies[n].filled >= 0.0
    ensures filled == FilledQty(Units(price, LeftAfter(price, budget, Bought(price, budget, replies, n))), replies[n])
    ensures filled >= 0.0 && (filled > 0.0 <==> Fills(replies[n]))
  {
    hide Units, Bought, LeftAfter;
    filled := FilledQty(Units(price, LeftAfter(price, budget, Bought(price, budget, replies, n))), replies[n]);
  }

  /** On an honest exchange the orders that go out fill nothing below zero. */
  lemma {:induction false} HonestOut(price: real, minNotional: real, budget: real, replies: seq<Reply>, s: Sweep, n: nat)
    requires price > 0.0 && n <= |replies| && Stands(price, minNotional, budget, replies, s, n) && Honest(price, minNotional, s, replies[n..])
    ensures forall i :: n <= i < OrdersOut(price, minNotional, budget, replies, n) && replies[i].StillOpen? ==> replies[i].filled >= 0.0
    decreases |replies| - n
  {
    hide Attempt, Bought, GoesOut;
    if n < |replies| && GoesOut(price, minNotional, budget, replies, n) {
      OrderStands(price, minNotional, budget, replies, s, n);
      assert replies[n..][1..] == replies[n + 1..];
      HonestOut(price, minNotional, budget, replies, Attempt(price, minNotional, s, replies[n]), n + 1);
    }
  }

  /**
   What it takes to buy: the price is known, the budget reaches the minimum, and the order is accepted or, in a
   sweep, one of the orders that go out is filled.
   */
  predicate Buys(budget: real, m: Market) {
    && m.price.Some? && m.price.value > 0.0 && budget >= m.minNotional
    && match m.exchange
       case Dextrade => m.accepted
       case Nestex => m.accepted && Units(m.price.value, budget) >= 1.0
       case Sweeping => exists i :: 0 <= i < OrdersOut(m.price.value, m.minNotional, budget, m.replies, 0) && Fills(m.replies[i])
  }

  /** On every honest market a purchase is recorded exactly then, with the quantity that the budget or the filled orders bought. */
  lemma PurchasedIff(budget: real, m: Market)
    requires HonestMarket(budget, m)
    ensures Purchase(budget, m).Some? <==> Buys(budget, m)
    ensures Purchase(budget, m).Some? ==>
              var e := Purchase(budget, m).value;
              && m.price == Some(e.price)
              && if m.exchange.Sweeping? then e.qty == Bought(e.price, budget, m.replies, OrdersOut(e.price, m.minNotional, budget, m.replies, 0))
                 else e.qty == budget / e.price
  {
    hide Attempts, Units, Bought, GoesOut, OrderQty, Fills, Honest;
    if m.price.Some? && m.price.value > 0.0 {
      var price := m.price.value;
      WholeUnit(price, budget);
      if m.exchange.Sweeping? {
        SweepBuys(price, m.minNotional, budget, m.replies);
        BoughtNone(price, budget, m.replies);
        assert m.replies[0..] == m.replies;
        HonestOut(price, m.minNotional, budget, m.replies, StartSweep(budget), 0);
        BoughtPositive(price, m.minNotional, budget, m.replies, OrdersOut(price, m.minNotional, budget, m.replies, 0));
        SamePositive(Bought(price, budget, m.replies, OrdersOut(price, m.minNotional, budget, m.replies, 0)), price);
      }
    }
  }

  lemma SamePositive(a: real, b: real)
    requires a >= 0.0 && b > 0.0
    ensures a * b > 0.0 <==> a > 0.0
  {
  }

  /** On an honest market a purchase is worth its quote at the quoted price, and stays within the budget. */
  lemma PurchaseSound(budget: real, m: Market)
    requires budget > 0.0 && |m.replies| == MAX_SWEEP_ATTEMPTS && HonestMarket(budget, m)
    ensures Purchase(budget, m).Some? ==> Sound(budget, Purchase(budget, m).value)
  {
    hide Attempts, Honest;
    if m.exchange.Sweeping? && Purchase(budget, m).Some? {
      var price := m.price.value;
      SweepBounds(budget, price, m.minNotional, m.replies);
      PositiveFactor(Attempts(price, m.minNotional, StartSweep(budget), m.replies).filledQty, price);
    }
  }

  /** The purchase, with its ways out: at most one record, and for a market or limit order the whole budget. */
  method Buy(budget: real, m: Market) returns (r: Option<Execution>)
    requires |m.replies| == MAX_SWEEP_ATTEMPTS
    ensures r == Purchase(budget, m)
    ensures budget > 0.0 && r.Some? && HonestMarket(budget, m) ==> Sound(budget, r.value)
    ensures r.Some? ==> m.price == Some(r.value.price) && budget >= m.minNotional
    ensures r.Some? && !m.exchange.Sweeping? ==> m.accepted && r.value.quote == budget
    ensures r.Some? && m.exchange.Sweeping? ==>
              Attempts(r.value.price, m.minNotional, StartSweep(budget), m.replies).filledQuote == r.value.quote > 0.0
  {
    hide Attempts, Honest;
    if budget > 0.0 && HonestMarket(budget, m) {
      PurchaseSound(budget, m);
    }
    if m.price.None? || m.price.value <= 0.0 || budget < m.minNotional {
      return None;
    }
    var price := m.price.value;
    match m.exchange {
      case Dextrade =>
        if !m.accepted {
          return None;
        }
        return Some(Execution(price, budget / price, budget));
      case Nestex =>
        var qty := RoundQty(budget / SweepPrice(price));
        if qty <= 0.0 || !m.accepted {
          return None;
        }
        return Some(Execution(price, budget / price, budget));
      case Sweeping =>
        var s := RunSweep(budget, price, m.minNotional, m.replies);
        if s.filledQuote <= 0.0 {
          return None;
        }
        return Some(Execution(price, s.filledQty, s.filledQuote));
    }
  }

  lemma PositiveFactor(a: real, b: real)
    requires b > 0.0 && a * b > 0.0
    ensures a > 0.0
  {
  }
}
