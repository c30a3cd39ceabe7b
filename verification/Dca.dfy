/**
 The DCA engine (dcaRunner.tick in services/trade-api/src/strategies/dcaRunner.ts with the cap queries
 of services/trade-api/src/db.ts). A tick is a sequence of atomic steps split at its awaits; ticks of all
 configs interleave arbitrarily, together with a clock that never runs backwards and users who enable and
 disable configs. The parameters of a config are fixed, and no database write fails.
 */
module Dca {
  import opened Wrappers
  import opened Lists
  import DcaSweep

  const HOUR_MS := 3600000
  const DAY_MS := 86400000
  const MAX_ORDERS_PER_HOUR: nat := 20
  const DEFAULT_INTERVAL_SEC := 600

  datatype Params = Params(budget: real, intervalSec: int, maxTotalSpend: Option<real>, endsAt: Option<int>, quoteIsBnb: bool)

  function IntervalMs(p: Params): int {
    (if p.intervalSec == 0 then DEFAULT_INTERVAL_SEC else p.intervalSec) * 1000
  }

  function MaxDaily(p: Params): real {
    if p.quoteIsBnb then 0.15 else 50.0
  }

  /** A row of trade_strategy_config; last_run_at is 0 when the config never ran. */
  datatype Row = Row(isDca: bool, enabled: bool, lastRunAt: int, params: Params)

  /** A row of trade_strategy_order (always FILLED), with the tick time that its log entry records. */
  datatype Order = Order(config: nat, quote: real, createdAt: int, executedAt: int)

  /** A row of trade_strategy_fill. */
  datatype Fill = Fill(config: nat, price: real, qty: real)

  /**
   Where a tick stands: cancelling its open orders, buying since the limits were checked, about to store
   its run time, or about to give the lock back.
   */
  datatype Phase = Preparing | Buying(checkedAt: int) | Recorded | Ending

  datatype Tick = Tick(config: nat, now: int, phase: Phase)

  datatype State = State(
    rows: map<nat, Row>,
    locks: set<nat>,
    orders: seq<Order>,
    fills: seq<Fill>,
    ticks: map<nat, Tick>,
    clock: int)

  // ---------- The cap queries ----------

  function Own(orders: seq<Order>, config: nat): seq<Order> {
    Filter(orders, (o: Order) => o.config == config)
  }

  function OwnFills(fills: seq<Fill>, config: nat): seq<Fill> {
    Filter(fills, (f: Fill) => f.config == config)
  }

  function Spend(fills: seq<Fill>): real {
    if fills == [] then 0.0 else Spend(fills[..|fills| - 1]) + fills[|fills| - 1].price * fills[|fills| - 1].qty
  }

  function TotalSpend(s: State, config: nat): real {
    Spend(OwnFills(s.fills, config))
  }

  /** Quote of the orders created in [from, until). */
  function QuoteBetween(orders: seq<Order>, from: int, until: int): real {
    if orders == [] then 0.0
    else
      var last := orders[|orders| - 1];
      QuoteBetween(orders[..|orders| - 1], from, until) + if from <= last.createdAt < until then last.quote else 0.0
  }

  /** Number of orders created in [from, until). */
  function CountBetween(orders: seq<Order>, from: int, until: int): nat {
    if orders == [] then 0
    else
      var last := orders[|orders| - 1];
      CountBetween(orders[..|orders| - 1], from, until) + if from <= last.createdAt < until then 1 else 0
  }

  function StartOfDay(t: int): int {
    t / DAY_MS * DAY_MS
  }

  /** canPlaceOrder: the queries have no upper time limit, and nothing is created after now. */
  predicate CanPlaceOrder(s: State, config: nat, now: int)
    requires config in s.rows
  {
    var own := Own(s.orders, config);
    && CountBetween(own, now - HOUR_MS, s.clock + 1) < MAX_ORDERS_PER_HOUR
    && QuoteBetween(own, StartOfDay(now), s.clock + 1) + s.rows[config].params.budget <= MaxDaily(s.rows[config].params)
  }

  // ---------- Steps ----------

  datatype Step =
    | Begin(id: nat, config: nat, now: int, inBackoff: bool, hasKey: bool)
    | CheckLimits(id: nat, symbolKnown: bool)
    | Record(id: nat, market: Option<DcaSweep.Market>)
    | StoreRunTime(id: nat)
    | End(id: nat)
    | SetEnabled(config: nat, enabled: bool)
    | Advance(ms: nat)

  /** What the code before the first await decides, from the row as it was read. */
  datatype Decision = Disable | GiveUp | Proceed

  function BudgetCapReached(p: Params, spent: real): bool {
    p.maxTotalSpend.Some? && p.maxTotalSpend.value != 0.0 && spent + p.budget > p.maxTotalSpend.value
  }

  function Decide(row: Row, spent: real, now: int, hasKey: bool): Decision {
    var p := row.params;
    if p.endsAt.Some? && p.endsAt.value != 0 && now >= p.endsAt.value then Disable
    else if BudgetCapReached(p, spent) then Disable
    else if p.budget <= 0.0 || IntervalMs(p) <= 0 then GiveUp
    else if row.lastRunAt > 0 && now - row.lastRunAt < IntervalMs(p) then GiveUp
    else if hasKey then Proceed
    else GiveUp
  }

  /** The market that a purchase meets; there is none when a call to the exchange throws. */
  predicate Fair(budget: real, market: Option<DcaSweep.Market>) {
    market.Some? ==> |market.value.replies| == DcaSweep.MAX_SWEEP_ATTEMPTS && DcaSweep.HonestMarket(budget, market.value)
  }

  function Executed(budget: real, market: Option<DcaSweep.Market>): Option<DcaSweep.Execution> {
    if market.None? then None else DcaSweep.Purchase(budget, market.value)
  }

  predicate Enabled(s: State, step: Step) {
    match step
    case Begin(id, _, now, _, _) => id !in s.ticks && now > 0
    case CheckLimits(id, _) => id in s.ticks && s.ticks[id].phase.Preparing? && s.ticks[id].config in s.rows
    case Record(id, market) =>
      && id in s.ticks && s.ticks[id].phase.Buying? && s.ticks[id].config in s.rows
      && Fair(s.rows[s.ticks[id].config].params.budget, market)
    case StoreRunTime(id) => id in s.ticks && s.ticks[id].phase.Recorded? && s.ticks[id].config in s.rows
    case End(id) => id in s.ticks && s.ticks[id].phase.Ending?
    case SetEnabled(config, _) => config in s.rows
    case Advance(_) => true
  }

  /** `mutex` tells whether a tick respects a lock that is taken. */
  function After(mutex: bool, s: State, step: Step): State
    requires Enabled(s, step)
  {
    match step
    case Begin(id, config, now, inBackoff, hasKey) =>
      if config !in s.rows || !s.rows[config].isDca || !s.rows[config].enabled || (mutex && config in s.locks) then s
      else
        var row := s.rows[config];
        var locked := s.(locks := s.locks + {config});
        var decision := if inBackoff then GiveUp else Decide(row, TotalSpend(s, config), now, hasKey);
        var phase := if decision == Proceed then Preparing else Ending;
        locked.(rows := s.rows[config := row.(enabled := decision != Disable)], ticks := s.ticks[id := Tick(config, now, phase)])
    case CheckLimits(id, symbolKnown) =>
      var tick := s.ticks[id];
      var phase := if symbolKnown && CanPlaceOrder(s, tick.config, s.clock) then Buying(s.clock) else Ending;
      s.(ticks := s.ticks[id := tick.(phase := phase)])
    case Record(id, market) =>
      var tick := s.ticks[id];
      var execution := Executed(s.rows[tick.config].params.budget, market);
      if execution.None? then s.(ticks := s.ticks[id := tick.(phase := Ending)])
      else
        var e := execution.value;
        s.(orders := s.orders + [Order(tick.config, e.quote, s.clock, tick.now)],
           fills := s.fills + [Fill(tick.config, e.price, e.qty)],
           ticks := s.ticks[id := tick.(phase := Recorded)])
    case StoreRunTime(id) =>
      var tick := s.ticks[id];
      s.(rows := s.rows[tick.config := s.rows[tick.config].(lastRunAt := tick.now)],
         ticks := s.ticks[id := tick.(phase := Ending)])
    case End(id) => s.(locks := s.locks - {s.ticks[id].config}, ticks := s.ticks - {id})
    case SetEnabled(config, enabled) => s.(rows := s.rows[config := s.rows[config].(enabled := enabled)])
    case Advance(ms) => s.(clock := s.clock + ms)
  }

  // ---------- The caps ----------

  /** The recorded fills stay within the total budget, when one is set. */
  predicate WithinTotal(p: Params, spent: real) {
    p.maxTotalSpend.Some? && p.maxTotalSpend.value != 0.0 ==> spent == 0.0 || spent <= p.maxTotalSpend.value
  }

  predicate WithinDay(p: Params, orders: seq<Order>, t: int) {
    QuoteBetween(orders, StartOfDay(t), StartOfDay(t) + DAY_MS) <= MaxDaily(p)
  }

  predicate WithinHour(orders: seq<Order>, t: int) {
    CountBetween(orders, t - HOUR_MS, t + 1) <= MAX_ORDERS_PER_HOUR
  }

  /** Consecutive purchases are at least the interval apart in tick time. */
  predicate Paced(p: Params, orders: seq<Order>) {
    forall i :: 0 <= i < |orders| - 1 ==> orders[i + 1].executedAt - orders[i].executedAt >= IntervalMs(p)
  }

  /** Every cap, for the orders and the total spend of one config. */
  ghost predicate CapsHold(p: Params, own: seq<Order>, spent: real) {
    && WithinTotal(p, spent)
    && (forall t :: WithinDay(p, own, t))
    && (forall t :: WithinHour(own, t))
    && Paced(p, own)
  }

  ghost predicate Capped(s: State, config: nat)
    requires config in s.rows
  {
    CapsHold(s.rows[config].params, Own(s.orders, config), TotalSpend(s, config))
  }

  // ---------- The invariant ----------

  predicate Past(orders: seq<Order>, t: int) {
    forall i :: 0 <= i < |orders| ==> orders[i].createdAt <= t && orders[i].quote >= 0.0
  }

  /** The last purchase is the stored run time, unless a tick has still to store it. */
  predicate RunTimeKnown(row: Row, own: seq<Order>) {
    own != [] ==> row.lastRunAt == own[|own| - 1].executedAt > 0
  }

  /** What a tick may rely on in its phase. */
  predicate TickInv(row: Row, own: seq<Order>, spent: real, tick: Tick, clock: int) {
    var p := row.params;
    var cleared := !BudgetCapReached(p, spent) && p.budget > 0.0 && IntervalMs(p) > 0
                   && tick.now > 0 && (own != [] ==> tick.now - own[|own| - 1].executedAt >= IntervalMs(p));
    match tick.phase
    case Preparing => cleared && RunTimeKnown(row, own)
    case Buying(checkedAt) =>
      && cleared && RunTimeKnown(row, own) && checkedAt <= clock && Past(own, checkedAt)
      && CountBetween(own, checkedAt - HOUR_MS, checkedAt + 1) < MAX_ORDERS_PER_HOUR
      && QuoteBetween(own, StartOfDay(checkedAt), checkedAt + 1) + p.budget <= MaxDaily(p)
    case Recorded => own != [] && own[|own| - 1].executedAt == tick.now > 0
    case Ending => RunTimeKnown(row, own)
  }

  predicate OneTick(s: State, config: nat) {
    && (config in s.locks <==> exists id :: id in s.ticks && s.ticks[id].config == config)
    && (forall a, b :: a in s.ticks && b in s.ticks && s.ticks[a].config == config && s.ticks[b].config == config ==> a == b)
  }

  ghost predicate ConfigInv(s: State, config: nat)
    requires config in s.rows
  {
    var row, own, spent := s.rows[config], Own(s.orders, config), TotalSpend(s, config);
    && Capped(s, config) && Past(own, s.clock) && OneTick(s, config)
    && (config !in s.locks ==> RunTimeKnown(row, own))
    && (forall id :: id in s.ticks && s.ticks[id].config == config ==> TickInv(row, own, spent, s.ticks[id], s.clock))
  }

  ghost predicate Inv(s: State) {
    && (forall id :: id in s.ticks ==> s.ticks[id].config in s.rows)
    && (forall config :: config in s.rows ==> ConfigInv(s, config))
  }

  // ---------- Facts about the queries ----------

  lemma OwnAppend(orders: seq<Order>, o: Order, config: nat)
    ensures Own(orders + [o], config) == Own(orders, config) + if o.config == config then [o] else []
  {
    FilterAppend(orders, o, (o: Order) => o.config == config);
  }

  lemma OwnFillsAppend(fills: seq<Fill>, f: Fill, config: nat)
    ensures OwnFills(fills + [f], config) == OwnFills(fills, config) + if f.config == config then [f] else []
  {
    FilterAppend(fills, f, (f: Fill) => f.config == config);
  }

  lemma SpendAppend(fills: seq<Fill>, f: Fill)
    ensures Spend(fills + [f]) == Spend(fills) + f.price * f.qty
  {
    assert (fills + [f])[..|fills|] == fills;
  }

  lemma BetweenAppend(orders: seq<Order>, o: Order, from: int, until: int)
    ensures QuoteBetween(orders + [o], from, until) == QuoteBetween(orders, from, until) + if from <= o.createdAt < until then o.quote else 0.0
    ensures CountBetween(orders + [o], from, until) == CountBetween(orders, from, until) + if from <= o.createdAt < until then 1 else 0
  {
    assert (orders + [o])[..|orders|] == orders;
  }

  /** A window that starts later, over orders that all lie before its end, holds no more. */
  lemma {:induction false} BetweenShrinks(orders: seq<Order>, from: int, until: int, from': int, until': int, latest: int)
    requires Past(orders, latest) && from <= from' && latest < until
    ensures CountBetween(orders, from', until') <= CountBetween(orders, from, until)
    ensures 0.0 <= QuoteBetween(orders, from', until') <= QuoteBetween(orders, from, until)
    ensures latest < from' ==> QuoteBetween(orders, from', until') == 0.0
  {
    if orders != [] {
      BetweenShrinks(orders[..|orders| - 1], from, until, from', until', latest);
    }
  }

  // ---------- Recording ----------

  lemma DayKept(p: Params, own: seq<Order>, checkedAt: int, o: Order, t: int)
    requires WithinDay(p, own, t) && Past(own, checkedAt) && checkedAt <= o.createdAt && 0.0 <= o.quote <= p.budget
    requires QuoteBetween(own, StartOfDay(checkedAt), checkedAt + 1) + p.budget <= MaxDaily(p)
    ensures WithinDay(p, own + [o], t)
  {
    hide QuoteBetween, CountBetween;
    var start := StartOfDay(t);
    BetweenAppend(own, o, start, start + DAY_MS);
    if start <= o.createdAt < start + DAY_MS {
      assert start == StartOfDay(checkedAt) || checkedAt < start;
      BetweenShrinks(own, StartOfDay(checkedAt), checkedAt + 1, start, start + DAY_MS, checkedAt);
    }
  }

  lemma HourKept(own: seq<Order>, checkedAt: int, o: Order, t: int)
    requires WithinHour(own, t) && Past(own, checkedAt) && checkedAt <= o.createdAt
    requires CountBetween(own, checkedAt - HOUR_MS, checkedAt + 1) < MAX_ORDERS_PER_HOUR
    ensures WithinHour(own + [o], t)
  {
    hide QuoteBetween, CountBetween;
    BetweenAppend(own, o, t - HOUR_MS, t + 1);
    if t - HOUR_MS <= o.createdAt < t + 1 {
      BetweenShrinks(own, checkedAt - HOUR_MS, checkedAt + 1, t - HOUR_MS, t + 1, checkedAt);
    }
  }

  /** A purchase by a tick that passed all checks keeps every cap. */
  lemma PurchaseCapped(row: Row, own: seq<Order>, spent: real, tick: Tick, clock: int, e: DcaSweep.Execution)
    requires CapsHold(row.params, own, spent) && tick.phase.Buying? && TickInv(row, own, spent, tick, clock)
    requires DcaSweep.Sound(row.params.budget, e)
    ensures CapsHold(row.params, own + [Order(tick.config, e.quote, clock, tick.now)], spent + e.price * e.qty)
  {
    hide QuoteBetween, CountBetween, WithinDay, WithinHour;
    var o := Order(tick.config, e.quote, clock, tick.now);
    forall t
      ensures WithinDay(row.params, own + [o], t) && WithinHour(own + [o], t)
    {
      DayKept(row.params, own, tick.phase.checkedAt, o, t);
      HourKept(own, tick.phase.checkedAt, o, t);
    }
  }

  // ---------- Every step keeps the invariant ----------

  /** A step of another config leaves everything about this one as it was. */
  predicate SameFor(s: State, t: State, config: nat) {
    && config in s.rows && config in t.rows && t.rows[config].params == s.rows[config].params && t.rows[config].lastRunAt == s.rows[config].lastRunAt
    && Own(t.orders, config) == Own(s.orders, config) && OwnFills(t.fills, config) == OwnFills(s.fills, config)
    && (config in t.locks <==> config in s.locks)
    && (forall id :: id in s.ticks && s.ticks[id].config == config ==> id in t.ticks && t.ticks[id] == s.ticks[id])
    && (forall id :: id in t.ticks && t.ticks[id].config == config ==> id in s.ticks && t.ticks[id] == s.ticks[id])
    && s.clock <= t.clock
  }

  lemma SameKeeps(s: State, t: State, config: nat)
    requires config in s.rows && ConfigInv(s, config) && SameFor(s, t, config)
    ensures ConfigInv(t, config)
  {
    hide QuoteBetween, CountBetween, Own, OwnFills, Spend, CapsHold;
    assert Capped(t, config);
    assert OneTick(t, config);
    forall id | id in t.ticks && t.ticks[id].config == config
      ensures TickInv(t.rows[config], Own(t.orders, config), TotalSpend(t, config), t.ticks[id], t.clock)
    {
      assert TickInv(s.rows[config], Own(s.orders, config), TotalSpend(s, config), s.ticks[id], s.clock);
    }
  }

  /** The config a step is about, if any. */
  function Subject(s: State, step: Step): Option<nat> {
    match step
    case Begin(_, config, _, _, _) => Some(config)
    case SetEnabled(config, _) => Some(config)
    case Advance(_) => None
    case _ => if step.id in s.ticks then Some(s.ticks[step.id].config) else None
  }

  lemma OtherConfigs(s: State, step: Step, config: nat)
    requires Inv(s) && Enabled(s, step) && config in s.rows && Subject(s, step) != Some(config)
    ensures SameFor(s, After(true, s, step), config)
  {
    hide QuoteBetween, CountBetween, Spend, ConfigInv, Executed, Fair;
    if step.Record? && Executed(s.rows[s.ticks[step.id].config].params.budget, step.market).Some? {
      var e := Executed(s.rows[s.ticks[step.id].config].params.budget, step.market).value;
      OwnAppend(s.orders, Order(s.ticks[step.id].config, e.quote, s.clock, s.ticks[step.id].now), config);
      OwnFillsAppend(s.fills, Fill(s.ticks[step.id].config, e.price, e.qty), config);
    }
  }

  lemma TickOf(s: State, id: nat)
    requires Inv(s) && id in s.ticks
    ensures var config := s.ticks[id].config;
            && config in s.rows && config in s.locks && Capped(s, config) && Past(Own(s.orders, config), s.clock)
            && TickInv(s.rows[config], Own(s.orders, config), TotalSpend(s, config), s.ticks[id], s.clock)
            && forall other :: other in s.ticks && s.ticks[other].config == config ==> other == id
  {
    hide CapsHold, Own, OwnFills, Spend, Past, TickInv;
    assert ConfigInv(s, s.ticks[id].config);
  }

  lemma SoleTick(s: State, id: nat, config: nat)
    requires config in s.rows && config in s.locks && Capped(s, config) && Past(Own(s.orders, config), s.clock)
    requires id in s.ticks && s.ticks[id].config == config
    requires TickInv(s.rows[config], Own(s.orders, config), TotalSpend(s, config), s.ticks[id], s.clock)
    requires forall other :: other in s.ticks && s.ticks[other].config == config ==> other == id
    ensures ConfigInv(s, config)
  {
    hide CapsHold, Own, OwnFills, Spend, Past, TickInv;
  }

  lemma BeginKeeps(s: State, step: Step)
    requires Inv(s) && step.Begin? && Enabled(s, step) && step.config in s.rows
    ensures ConfigInv(After(true, s, step), step.config)
  {
    hide QuoteBetween, CountBetween, Own, OwnFills, Spend, CapsHold;
    var t, config := After(true, s, step), step.config;
    assert ConfigInv(s, config);
    if t != s {
      SoleTick(t, step.id, config);
    }
  }

  lemma CheckKeeps(s: State, step: Step)
    requires Inv(s) && step.CheckLimits? && Enabled(s, step)
    ensures ConfigInv(After(true, s, step), s.ticks[step.id].config)
  {
    hide QuoteBetween, CountBetween, Own, OwnFills, Spend, CapsHold, Inv, ConfigInv;
    TickOf(s, step.id);
    SoleTick(After(true, s, step), step.id, s.ticks[step.id].config);
  }

  lemma ExecutedSound(budget: real, market: Option<DcaSweep.Market>)
    requires budget > 0.0 && Fair(budget, market)
    ensures Executed(budget, market).Some? ==> DcaSweep.Sound(budget, Executed(budget, market).value)
  {
    if market.Some? {
      DcaSweep.PurchaseSound(budget, market.value);
    }
  }

  lemma RecordKeeps(s: State, step: Step)
    requires Inv(s) && step.Record? && Enabled(s, step)
    ensures ConfigInv(After(true, s, step), s.ticks[step.id].config)
  {
    hide QuoteBetween, CountBetween, Own, OwnFills, Spend, CapsHold, Inv, ConfigInv, Executed, Fair;
    TickOf(s, step.id);
    var tick := s.ticks[step.id];
    var config := tick.config;
    var execution := Executed(s.rows[config].params.budget, step.market);
    if execution.Some? {
      var e := execution.value;
      ExecutedSound(s.rows[config].params.budget, step.market);
      PurchaseCapped(s.rows[config], Own(s.orders, config), TotalSpend(s, config), tick, s.clock, e);
      OwnAppend(s.orders, Order(config, e.quote, s.clock, tick.now), config);
      OwnFillsAppend(s.fills, Fill(config, e.price, e.qty), config);
      SpendAppend(OwnFills(s.fills, config), Fill(config, e.price, e.qty));
    }
    SoleTick(After(true, s, step), step.id, config);
  }

  lemma StoreKeeps(s: State, step: Step)
    requires Inv(s) && step.StoreRunTime? && Enabled(s, step)
    ensures ConfigInv(After(true, s, step), s.ticks[step.id].config)
  {
    hide QuoteBetween, CountBetween, Own, OwnFills, Spend, CapsHold, Inv, ConfigInv;
    TickOf(s, step.id);
    SoleTick(After(true, s, step), step.id, s.ticks[step.id].config);
  }

  lemma EndKeeps(s: State, step: Step)
    requires Inv(s) && step.End? && Enabled(s, step)
    ensures ConfigInv(After(true, s, step), s.ticks[step.id].config)
  {
    hide QuoteBetween, CountBetween, Own, OwnFills, Spend, CapsHold, Inv, Past;
    TickOf(s, step.id);
  }

  lemma StepKeeps(s: State, step: Step)
    requires Inv(s) && Enabled(s, step)
    ensures Inv(After(true, s, step))
  {
    hide ConfigInv;
    var t := After(true, s, step);
    forall config | config in t.rows
      ensures ConfigInv(t, config)
    {
      assert config in s.rows && ConfigInv(s, config);
      if Subject(s, step) == Some(config) && !step.SetEnabled? {
        match step {
          case Begin(_, _, _, _, _) => BeginKeeps(s, step);
          case CheckLimits(_, _) => CheckKeeps(s, step);
          case Record(_, _) => RecordKeeps(s, step);
          case StoreRunTime(_) => StoreKeeps(s, step);
          case End(_) => EndKeeps(s, step);
          case _ =>
        }
      } else {
        if !step.SetEnabled? {
          OtherConfigs(s, step, config);
        }
        SameKeeps(s, t, config);
      }
    }
  }

  // ---------- Runs ----------

  predicate Interleaving(mutex: bool, s: State, steps: seq<Step>)
    decreases |steps|
  {
    steps == [] || (Enabled(s, steps[0]) && Interleaving(mutex, After(mutex, s, steps[0]), steps[1..]))
  }

  function Final(mutex: bool, s: State, steps: seq<Step>): State
    requires Interleaving(mutex, s, steps)
    decreases |steps|
  {
    if steps == [] then s else Final(mutex, After(mutex, s, steps[0]), steps[1..])
  }

  lemma Unrolls(mutex: bool, s: State, steps: seq<Step>)
    ensures Interleaving(mutex, s, steps) <==>
            steps == [] || (Enabled(s, steps[0]) && Interleaving(mutex, After(mutex, s, steps[0]), steps[1..]))
    ensures Interleaving(mutex, s, steps) ==>
              Final(mutex, s, steps) == if steps == [] then s else Final(mutex, After(mutex, s, steps[0]), steps[1..])
  {
    hide After, Enabled;
  }

  /** No purchase has been recorded and no tick is running; run times may be anything. */
  predicate Fresh(s: State) {
    s.orders == [] && s.fills == [] && s.ticks == map[] && s.locks == {}
  }

  lemma FreshInv(s: State)
    requires Fresh(s)
    ensures Inv(s)
  {
  }

  lemma {:induction false} RunKeeps(s: State, steps: seq<Step>)
    requires Inv(s) && Interleaving(true, s, steps)
    ensures Inv(Final(true, s, steps)) && Final(true, s, steps).rows.Keys == s.rows.Keys
    decreases |steps|
  {
    hide Inv;
    if steps != [] {
      StepKeeps(s, steps[0]);
      RowsKept(s, steps[0]);
      RunKeeps(After(true, s, steps[0]), steps[1..]);
    }
  }

  lemma RowsKept(s: State, step: Step)
    requires Enabled(s, step)
    ensures After(true, s, step).rows.Keys == s.rows.Keys
  {
  }

  /**
   Over every interleaving of ticks, for every config: recorded fills stay within maxTotalSpend, the quote
   recorded on any UTC day stays within the daily maximum, any trailing hour holds at most 20 orders, and
   consecutive purchases are at least the interval apart in tick time.
   */
  lemma EveryInterleaving(s: State, steps: seq<Step>, config: nat)
    requires Fresh(s) && Interleaving(true, s, steps) && config in s.rows
    ensures config in Final(true, s, steps).rows && Capped(Final(true, s, steps), config)
  {
    FreshInv(s);
    RunKeeps(s, steps);
    assert ConfigInv(Final(true, s, steps), config);
  }

  // ---------- When a tick buys ----------

  /** The steps lead from s to t, with the lock respected. */
  predicate LeadsTo(s: State, steps: seq<Step>, t: State) {
    Interleaving(true, s, steps) && Final(true, s, steps) == t
  }

  /** Some run from a start without purchases and ticks leads to s. */
  ghost predicate Reachable(s: State) {
    exists start, history :: Fresh(start) && LeadsTo(start, history, s)
  }

  lemma ReachableInv(s: State)
    requires Reachable(s)
    ensures Inv(s)
  {
    hide Interleaving, Final, Inv;
    var start, history :| Fresh(start) && LeadsTo(start, history, s);
    FreshInv(start);
    RunKeeps(start, history);
  }

  /** None of the steps belongs to this tick; users, other ticks and the clock may go on. */
  predicate Foreign(steps: seq<Step>, id: nat) {
    forall i :: 0 <= i < |steps| ==> steps[i].SetEnabled? || steps[i].Advance? || steps[i].id != id
  }

  /** A step of something else leaves a running tick's config as it is, but for whether it is enabled. */
  lemma ForeignStep(s: State, step: Step, id: nat)
    requires Inv(s) && Enabled(s, step) && id in s.ticks && Foreign([step], id)
    ensures SameFor(s, After(true, s, step), s.ticks[id].config) && id in After(true, s, step).ticks
  {
    hide QuoteBetween, CountBetween, Own, OwnFills, Spend, CapsHold, TickInv, CanPlaceOrder, Decide, Executed, Fair;
    var config := s.ticks[id].config;
    assert [step][0] == step;
    assert ConfigInv(s, config) && config in s.locks;
    if Subject(s, step) != Some(config) {
      OtherConfigs(s, step, config);
    }
  }

  /** Whatever else happens meanwhile, a tick finds its own phase, its config's parameters and its purchases unchanged. */
  lemma {:induction false} Undisturbed(s: State, steps: seq<Step>, t: State, id: nat)
    requires Inv(s) && id in s.ticks && Foreign(steps, id) && LeadsTo(s, steps, t)
    ensures Inv(t) && id in t.ticks && t.ticks[id] == s.ticks[id] && SameFor(s, t, s.ticks[id].config)
    decreases |steps|
  {
    hide After, Enabled, Inv, Own, OwnFills;
    if steps == [] {
      SameSelf(s, id);
    } else {
      var next := After(true, s, steps[0]);
      assert Foreign([steps[0]], id) && Foreign(steps[1..], id);
      ForeignStep(s, steps[0], id);
      StepKeeps(s, steps[0]);
      Undisturbed(next, steps[1..], t, id);
    }
  }

  lemma SameSelf(s: State, id: nat)
    requires Inv(s) && id in s.ticks
    ensures SameFor(s, s, s.ticks[id].config)
  {
  }

  /** The end time of the config, when one is set. */
  predicate Ended(p: Params, now: int) {
    p.endsAt.Some? && p.endsAt.value != 0 && p.endsAt.value <= now
  }

  /** Another purchase fits into the total budget, when one is set. */
  predicate Fits(p: Params, spent: real) {
    p.maxTotalSpend.Some? && p.maxTotalSpend.value != 0.0 ==> spent + p.budget <= p.maxTotalSpend.value
  }

  /** The config may buy: enabled, not at its end, with budget left for one more purchase, and an interval after the stored run time. */
  predicate Due(row: Row, spent: real, now: int) {
    var p := row.params;
    var intervalMs := if p.intervalSec == 0 then 600000 else p.intervalSec * 1000;
    && row.isDca && row.enabled && !Ended(p, now) && Fits(p, spent)
    && p.budget > 0.0 && intervalMs > 0 && (row.lastRunAt > 0 ==> row.lastRunAt + intervalMs <= now)
  }

  /** The hour before the clock holds fewer than 20 orders, and the UTC day has room for one more budget. */
  predicate HasRoom(s: State, config: nat)
    requires config in s.rows
  {
    var own, p := Own(s.orders, config), s.rows[config].params;
    && CountBetween(own, s.clock - 3600000, s.clock + 1) < 20
    && QuoteBetween(own, s.clock - s.clock % 86400000, s.clock + 1) + p.budget <= if p.quoteIsBnb then 0.15 else 50.0
  }

  /**
   A tick that begins is ready to check the limits, whatever happens meanwhile, exactly when its config is due and
   unlocked, no backoff runs and the key is there. The config is switched off exactly at its end or when the total
   budget has no room for one more purchase.
   */
  lemma BeginsIff(s: State, id: nat, config: nat, now: int, inBackoff: bool, hasKey: bool, meanwhile: seq<Step>, t: State)
    requires Reachable(s) && config in s.rows && Enabled(s, Begin(id, config, now, inBackoff, hasKey))
    requires Foreign(meanwhile, id) && LeadsTo(After(true, s, Begin(id, config, now, inBackoff, hasKey)), meanwhile, t)
    ensures Enabled(t, CheckLimits(id, true)) <==> config !in s.locks && !inBackoff && hasKey && Due(s.rows[config], TotalSpend(s, config), now)
    ensures Enabled(t, CheckLimits(id, true)) ==>
              t.ticks[id] == Tick(config, now, Preparing) && config in t.rows && t.rows[config].params == s.rows[config].params
              && Own(t.orders, config) == Own(s.orders, config)
    ensures var row := s.rows[config];
            s.rows[config].enabled && !After(true, s, Begin(id, config, now, inBackoff, hasKey)).rows[config].enabled <==>
            row.isDca && row.enabled && config !in s.locks && !inBackoff && (Ended(row.params, now) || !Fits(row.params, TotalSpend(s, config)))
  {
    hide Own, OwnFills, Spend, Inv, LeadsTo, Reachable;
    var begun := After(true, s, Begin(id, config, now, inBackoff, hasKey));
    ReachableInv(s);
    StepKeeps(s, Begin(id, config, now, inBackoff, hasKey));
    if id in begun.ticks {
      Undisturbed(begun, meanwhile, t, id);
    } else {
      NeverBegun(begun, meanwhile, t, id);
    }
  }

  lemma {:induction false} NeverBegun(s: State, steps: seq<Step>, t: State, id: nat)
    requires id !in s.ticks && Foreign(steps, id) && LeadsTo(s, steps, t)
    ensures id !in t.ticks
    decreases |steps|
  {
    hide Decide, CanPlaceOrder, Executed, Fair;
    if steps != [] {
      assert Foreign(steps[1..], id) && (steps[0].SetEnabled? || steps[0].Advance? || steps[0].id != id);
      NeverBegun(After(true, s, steps[0]), steps[1..], t, id);
    }
  }

  /** The check lets a tick go on to buy exactly when the symbol is known and the hour and the day have room. */
  lemma ChecksIff(s: State, id: nat, symbolKnown: bool, meanwhile: seq<Step>, t: State)
    requires Reachable(s) && Enabled(s, CheckLimits(id, symbolKnown))
    requires Foreign(meanwhile, id) && LeadsTo(After(true, s, CheckLimits(id, symbolKnown)), meanwhile, t)
    ensures Enabled(t, Record(id, None)) <==> symbolKnown && HasRoom(s, s.ticks[id].config)
    ensures id in t.ticks && t.ticks[id].config == s.ticks[id].config && t.ticks[id].now == s.ticks[id].now
    ensures Own(t.orders, s.ticks[id].config) == Own(s.orders, s.ticks[id].config)
  {
    hide Own, OwnFills, QuoteBetween, CountBetween, Inv, LeadsTo, Reachable;
    var checked := After(true, s, CheckLimits(id, symbolKnown));
    ReachableInv(s);
    StepKeeps(s, CheckLimits(id, symbolKnown));
    Undisturbed(checked, meanwhile, t, id);
    assert StartOfDay(s.clock) == s.clock - s.clock % 86400000;
  }

  /** A tick that may buy records one order and one fill exactly when the market sells, and otherwise nothing. */
  lemma RecordsIff(s: State, id: nat, market: Option<DcaSweep.Market>)
    requires Enabled(s, Record(id, market))
    ensures var config := s.ticks[id].config;
            var budget := s.rows[config].params.budget;
            var t := After(true, s, Record(id, market));
            if market.Some? && DcaSweep.Buys(budget, market.value) then
              exists e :: DcaSweep.Purchase(budget, market.value) == Some(e) && market.value.price == Some(e.price)
                && t.orders == s.orders + [Order(config, e.quote, s.clock, s.ticks[id].now)] && t.fills == s.fills + [Fill(config, e.price, e.qty)]
            else t.orders == s.orders && t.fills == s.fills
  {
    hide DcaSweep.Purchase, DcaSweep.Buys, DcaSweep.HonestMarket;
    if market.Some? {
      DcaSweep.PurchasedIff(s.rows[s.ticks[id].config].params.budget, market.value);
    }
  }

  /** Exactly one order and one fill of this config have been added, at this tick time. */
  ghost predicate BoughtOnce(s: State, t: State, config: nat, now: int) {
    exists o, f ::
      && t.orders == s.orders + [o] && t.fills == s.fills + [f]
      && o.config == f.config == config && o.createdAt == s.clock && o.executedAt == now
  }

  /**
   Progress, from every reachable state: a tick that begins, checks and records buys once exactly when its config is
   unlocked and due, the symbol and the key are there, no backoff runs, the hour and the day have room, and the market
   sells. It is turned away for no other reason.
   */
  lemma DueTickBuys(s: State, id: nat, config: nat, now: int, inBackoff: bool, hasKey: bool, symbolKnown: bool, market: Option<DcaSweep.Market>)
    requires Reachable(s) && config in s.rows && id !in s.ticks && now > 0 && Fair(s.rows[config].params.budget, market)
    ensures var steps := [Begin(id, config, now, inBackoff, hasKey), CheckLimits(id, symbolKnown), Record(id, market)];
            Interleaving(true, s, steps) && BoughtOnce(s, Final(true, s, steps), config, now) <==>
            && config !in s.locks && !inBackoff && hasKey && Due(s.rows[config], TotalSpend(s, config), now)
            && symbolKnown && HasRoom(s, config)
            && market.Some? && DcaSweep.Buys(s.rows[config].params.budget, market.value)
  {
    hide Own, OwnFills, Spend, CountBetween, QuoteBetween, Reachable, DcaSweep.HonestMarket, Executed, Due, HasRoom, BoughtOnce;
    var begin, check, record := Begin(id, config, now, inBackoff, hasKey), CheckLimits(id, symbolKnown), Record(id, market);
    var begun := After(true, s, begin);
    ThreeSteps(s, begin, check, record);
    StepReachable(s, begin);
    BeginsIff(s, id, config, now, inBackoff, hasKey, [], begun);
    if Enabled(begun, check) {
      var checked := After(true, begun, check);
      StepReachable(begun, check);
      ChecksIff(begun, id, symbolKnown, [], checked);
      SameRoom(s, begun, config);
      if Enabled(checked, record) {
        OneRecord(s, checked, id, market);
      }
    }
  }

  lemma OneRecord(s: State, checked: State, id: nat, market: Option<DcaSweep.Market>)
    requires Enabled(checked, Record(id, market))
    requires checked.orders == s.orders && checked.fills == s.fills && checked.clock == s.clock
    ensures var tick := checked.ticks[id];
            BoughtOnce(s, After(true, checked, Record(id, market)), tick.config, tick.now) <==>
            market.Some? && DcaSweep.Buys(checked.rows[tick.config].params.budget, market.value)
  {
    hide Executed, DcaSweep.Buys, Fair;
    RecordsIff(checked, id, market);
  }

  lemma ThreeSteps(s: State, a: Step, b: Step, c: Step)
    requires Enabled(s, a)
    ensures var t := After(true, s, a);
            Interleaving(true, s, [a, b, c]) <==> Enabled(t, b) && Enabled(After(true, t, b), c)
    ensures var t := After(true, s, a);
            Interleaving(true, s, [a, b, c]) ==> Final(true, s, [a, b, c]) == After(true, After(true, t, b), c)
  {
    hide After, Enabled, Interleaving, Final;
    assert [a, b, c][1..] == [b, c] && [b, c][1..] == [c] && [c][1..] == [];
    var t := After(true, s, a);
    Unrolls(true, s, [a, b, c]);
    Unrolls(true, t, [b, c]);
    if Enabled(t, b) {
      Unrolls(true, After(true, t, b), [c]);
      if Enabled(After(true, t, b), c) {
        Unrolls(true, After(true, After(true, t, b), c), []);
      }
    }
  }

  lemma StepReachable(s: State, step: Step)
    requires Reachable(s) && Enabled(s, step)
    ensures Reachable(After(true, s, step)) && LeadsTo(After(true, s, step), [], After(true, s, step))
  {
    hide After, Enabled;
    var start, history :| Fresh(start) && LeadsTo(start, history, s);
    OneMore(start, history, s, step);
  }

  lemma {:induction false} OneMore(start: State, history: seq<Step>, s: State, step: Step)
    requires LeadsTo(start, history, s) && Enabled(s, step)
    ensures LeadsTo(start, history + [step], After(true, s, step))
    decreases |history|
  {
    hide After, Enabled;
    if history != [] {
      OneMore(After(true, start, history[0]), history[1..], s, step);
      assert (history + [step])[0] == history[0] && (history + [step])[1..] == history[1..] + [step];
    } else {
      assert [] + [step] == [step] && [step][1..] == [];
      Unrolls(true, s, [step]);
      Unrolls(true, After(true, s, step), []);
    }
  }

  lemma SameRoom(s: State, t: State, config: nat)
    requires config in s.rows && config in t.rows && s.rows[config].params == t.rows[config].params
    requires Own(t.orders, config) == Own(s.orders, config) && s.clock == t.clock
    ensures HasRoom(s, config) <==> HasRoom(t, config)
  {
    hide Own, CountBetween, QuoteBetween;
  }

  /**
   A tick that has bought leaves its time as the stored run time and unlocks its config, whatever happens meanwhile:
   from then on the config is held back by no tick, and by the interval only until it has passed.
   */
  lemma TickEnds(s: State, id: nat, meanwhile: seq<Step>, t: State)
    requires Reachable(s) && Enabled(s, StoreRunTime(id))
    requires Foreign(meanwhile, id) && LeadsTo(After(true, s, StoreRunTime(id)), meanwhile, t)
    ensures var config, now := s.ticks[id].config, s.ticks[id].now;
            && Enabled(t, End(id)) && config in t.rows && t.rows[config].lastRunAt == now
            && config !in After(true, t, End(id)).locks && After(true, t, End(id)).rows == t.rows
            && Own(After(true, t, End(id)).orders, config) == Own(s.orders, config)
            && forall other :: other in After(true, t, End(id)).ticks ==> After(true, t, End(id)).ticks[other].config != config
  {
    hide Own, OwnFills, Spend, Inv, LeadsTo, Reachable;
    ReachableInv(s);
    StepKeeps(s, StoreRunTime(id));
    Undisturbed(After(true, s, StoreRunTime(id)), meanwhile, t, id);
    TickOf(t, id);
  }

  // ---------- Without the lock ----------

  const UNSAFE_PARAMS := Params(10.0, 600, Some(15.0), None, false)

  /** A market order for the whole budget of 10 at price 1. */
  const MARKET := DcaSweep.Market(DcaSweep.Dextrade, Some(1.0), 1.0, true, [DcaSweep.Gone, DcaSweep.Gone, DcaSweep.Gone])

  const TWO_TICKS: seq<Step> := [
    Begin(0, 7, 1, false, true), Begin(1, 7, 1, false, true), CheckLimits(0, true), CheckLimits(1, true),
    Record(0, Some(MARKET)), Record(1, Some(MARKET))]

  /** Config 7 with `n` purchases made and the given ticks under way. */
  function During(ticks: map<nat, Tick>, n: nat): State {
    State(map[7 := Row(true, true, 0, UNSAFE_PARAMS)], if ticks == map[] then {} else {7},
          Bought(n), Filled(n), ticks, 0)
  }

  function Bought(n: nat): seq<Order> {
    if n == 0 then [] else Bought(n - 1) + [Order(7, 10.0, 0, 1)]
  }

  function Filled(n: nat): seq<Fill> {
    if n == 0 then [] else Filled(n - 1) + [Fill(7, 1.0, 10.0)]
  }

  function Both(a: Phase, b: Phase): map<nat, Tick> {
    map[0 := Tick(7, 1, a), 1 := Tick(7, 1, b)]
  }

  predicate Leads(s: State, step: Step, t: State) {
    Enabled(s, step) && After(false, s, step) == t
  }

  lemma BothBegin()
    ensures Leads(During(map[], 0), TWO_TICKS[0], During(map[0 := Tick(7, 1, Preparing)], 0))
    ensures Leads(During(map[0 := Tick(7, 1, Preparing)], 0), TWO_TICKS[1], During(Both(Preparing, Preparing), 0))
  {
  }

  lemma BothCheck()
    ensures Leads(During(Both(Preparing, Preparing), 0), TWO_TICKS[2], During(Both(Buying(0), Preparing), 0))
    ensures Leads(During(Both(Buying(0), Preparing), 0), TWO_TICKS[3], During(Both(Buying(0), Buying(0)), 0))
  {
  }

  lemma MarketBuys()
    ensures Fair(10.0, Some(MARKET)) && Executed(10.0, Some(MARKET)) == Some(DcaSweep.Execution(1.0, 10.0, 10.0))
  {
  }

  lemma FirstBuys()
    ensures Leads(During(Both(Buying(0), Buying(0)), 0), TWO_TICKS[4], During(Both(Recorded, Buying(0)), 1))
  {
    MarketBuys();
    hide CanPlaceOrder, Decide, Fair, Executed;
    assert Both(Buying(0), Buying(0))[0 := Tick(7, 1, Recorded)] == Both(Recorded, Buying(0));
    assert Bought(1) == Bought(0) + [Order(7, 10.0, 0, 1)] && Filled(1) == Filled(0) + [Fill(7, 1.0, 10.0)];
  }

  lemma SecondBuys()
    ensures Leads(During(Both(Recorded, Buying(0)), 1), TWO_TICKS[5], During(Both(Recorded, Recorded), 2))
  {
    MarketBuys();
    hide CanPlaceOrder, Decide, Fair, Executed;
    assert Both(Recorded, Buying(0))[1 := Tick(7, 1, Recorded)] == Both(Recorded, Recorded);
    assert Bought(2) == Bought(1) + [Order(7, 10.0, 0, 1)] && Filled(2) == Filled(1) + [Fill(7, 1.0, 10.0)];
  }

  lemma SpentTwice()
    ensures TotalSpend(During(Both(Recorded, Recorded), 2), 7) == 20.0
  {
  }

  /**
   The lock is what makes it safe to check, wait and then insert: ticks that ignore it both find the budget
   unspent, and buy for 20 where 15 is the limit.
   */
  lemma UnsafeWithoutLock()
    ensures Fresh(During(map[], 0)) && Interleaving(false, During(map[], 0), TWO_TICKS)
    ensures TotalSpend(Final(false, During(map[], 0), TWO_TICKS), 7) == 20.0
    ensures 7 in Final(false, During(map[], 0), TWO_TICKS).rows && !Capped(Final(false, During(map[], 0), TWO_TICKS), 7)
  {
    hide Final, Interleaving, After, Enabled, TotalSpend;
    BothBegin();
    BothCheck();
    FirstBuys();
    SecondBuys();
    SpentTwice();
    Unrolls(false, During(map[], 0), TWO_TICKS);
    Unrolls(false, During(map[0 := Tick(7, 1, Preparing)], 0), TWO_TICKS[1..]);
    Unrolls(false, During(Both(Preparing, Preparing), 0), TWO_TICKS[2..]);
    Unrolls(false, During(Both(Buying(0), Preparing), 0), TWO_TICKS[3..]);
    Unrolls(false, During(Both(Buying(0), Buying(0)), 0), TWO_TICKS[4..]);
    Unrolls(false, During(Both(Recorded, Buying(0)), 1), TWO_TICKS[5..]);
    Unrolls(false, During(Both(Recorded, Recorded), 2), TWO_TICKS[6..]);
  }

  // ---------- The engine ----------

  class Engine {
    var tickLocks: set<nat>
    var rows: map<nat, Row>
    var orders: seq<Order>
    var fills: seq<Fill>
    var ticks: map<nat, Tick>
    var clock: int

    function View(): State
      reads this
    {
      State(rows, tickLocks, orders, fills, ticks, clock)
    }

    /** From the start of a tick to its first await. */
    method BeginTick(id: nat, configId: nat, now: int, inBackoff: bool, hasKey: bool)
      requires Enabled(View(), Begin(id, configId, now, inBackoff, hasKey))
      modifies this
      ensures View() == After(true, old(View()), Begin(id, configId, now, inBackoff, hasKey))
    {
      if configId !in rows || !rows[configId].isDca {
        return;
      }
      var config := rows[configId];
      if !config.enabled || configId in tickLocks {
        return;
      }
      tickLocks := tickLocks + {configId};
      var phase := Ending;
      if !inBackoff {
        var params := config.params;
        var spentTotal := Spend(OwnFills(fills, configId));
        if params.endsAt.Some? && params.endsAt.value != 0 && now >= params.endsAt.value {
          rows := rows[configId := config.(enabled := false)];
        } else if params.maxTotalSpend.Some? && params.maxTotalSpend.value != 0.0
                  && spentTotal + params.budget > params.maxTotalSpend.value {
          rows := rows[configId := config.(enabled := false)];
        } else if 0.0 < params.budget && 0 < IntervalMs(params) {
          if config.lastRunAt <= 0 || now - config.lastRunAt >= IntervalMs(params) {
            phase := if hasKey then Preparing else Ending;
          }
        }
      }
      ticks := ticks[id := Tick(configId, now, phase)];
      assert View().rows == After(true, old(View()), Begin(id, configId, now, inBackoff, hasKey)).rows;
    }

    /** From the end of the cleanup to the first await of the purchase. */
    method CheckRates(id: nat, symbolKnown: bool)
      requires Enabled(View(), CheckLimits(id, symbolKnown))
      modifies this`ticks
      ensures View() == After(true, old(View()), CheckLimits(id, symbolKnown))
    {
      var tick := ticks[id];
      var params := rows[tick.config].params;
      ticks := ticks[id := tick.(phase := Ending)];
      if symbolKnown {
        var own := Own(orders, tick.config);
        var ordersLastHour := CountBetween(own, clock - HOUR_MS, clock + 1);
        var quoteSpentToday := QuoteBetween(own, StartOfDay(clock), clock + 1);
        if ordersLastHour < MAX_ORDERS_PER_HOUR && quoteSpentToday + params.budget <= MaxDaily(params) {
          ticks := ticks[id := tick.(phase := Buying(clock))];
        }
      }
    }

    /** executeDcaBuyAllIn with recordDcaExecution; nothing is recorded when a call to the exchange throws. */
    method RecordExecution(id: nat, market: Option<DcaSweep.Market>)
      requires Enabled(View(), Record(id, market))
      modifies this`orders, this`fills, this`ticks
      ensures View() == After(true, old(View()), Record(id, market))
    {
      var tick := ticks[id];
      ticks := ticks[id := tick.(phase := Ending)];
      if market.Some? {
        var execution := DcaSweep.Buy(rows[tick.config].params.budget, market.value);
        if execution.Some? {
          var e := execution.value;
          orders := orders + [Order(tick.config, e.quote, clock, tick.now)];
          fills := fills + [Fill(tick.config, e.price, e.qty)];
          ticks := ticks[id := tick.(phase := Recorded)];
        }
      }
    }

    method UpdateLastRunAt(id: nat)
      requires Enabled(View(), StoreRunTime(id))
      modifies this`rows, this`ticks
      ensures View() == After(true, old(View()), StoreRunTime(id))
    {
      var tick := ticks[id];
      rows := rows[tick.config := rows[tick.config].(lastRunAt := tick.now)];
      ticks := ticks[id := tick.(phase := Ending)];
    }

    method EndTick(id: nat)
      requires Enabled(View(), End(id))
      modifies this`tickLocks, this`ticks
      ensures View() == After(true, old(View()), End(id))
    {
      tickLocks := tickLocks - {ticks[id].config};
      ticks := ticks - {id};
    }
  }
}
