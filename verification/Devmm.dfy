/**
 Cancelling the orders of the development market maker (cancelAllDevmmOrders in
 services/trade-api/src/routes/devmm.ts). The answers of the open-orders endpoint and the outcome of
 every cancel call are inputs; an order is cancelled at most once, so one outcome per id is enough.
 */
module Devmm {
  import opened Lists
  import opened Text

  const PREFIX := "PPW-DEVMM-"
  const SWEEP_ROUNDS: nat := 3

  datatype Venue = Dextrade | Nestex | Nonkyc
  datatype Scope = ManagedOnly | UnknownOnly | All
  datatype Outcome = Cancelled | AlreadyClosed | Failed

  /** An open order; the client order id is empty when there is none. */
  datatype OpenOrder = OpenOrder(id: string, clientOrderId: string)

  datatype Answer = Throws | Lists(orders: seq<OpenOrder>)

  datatype Tally = Tally(visibleBefore: nat, unknownVisible: nat, cancelled: nat, alreadyClosed: nat, failed: nat)

  datatype Report = Report(attempted: nat, tally: Tally)

  /** Trims, and drops a final fraction of zeros. */
  function NormalizeOrderId(value: string): string {
    var s := Trim(value);
    var stem := StripTrailingZeros(s);
    if |stem| < |s| && stem != [] && stem[|stem| - 1] == '.' then stem[..|stem| - 1] else s
  }

  /** However an id is padded, and with however many zeros a float format follows it, it normalises to itself. */
  lemma FloatSpelling(before: string, id: string, zeros: nat, after: string)
    requires Blank(before) && Blank(after) && id != [] && zeros > 0
    requires forall i :: 0 <= i < |id| ==> !IsSpace(id[i])
    ensures NormalizeOrderId(before + (id + "." + Zeros(zeros)) + after) == id
  {
    var s := id + "." + Zeros(zeros);
    assert s[|s| - 1] == '0';
    TrimPadding(before, s, after);
    StripZeros(id + ".", zeros);
  }

  /** s is the id with a fraction of n zeros. */
  predicate FloatOf(s: string, id: string, n: nat) {
    n > 0 && s == id + "." + Zeros(n)
  }

  lemma {:induction false} StripSplit(s: string)
    ensures |StripTrailingZeros(s)| <= |s| && s == StripTrailingZeros(s) + Zeros(|s| - |StripTrailingZeros(s)|)
  {
    if s != [] && s[|s| - 1] == '0' {
      var front := s[..|s| - 1];
      StripSplit(front);
      assert Zeros(|front| - |StripTrailingZeros(front)|) + ['0'] == Zeros(|s| - |StripTrailingZeros(s)|);
      assert s == front + ['0'];
    }
  }

  /** What normalising does to any text: it trims, and takes a fraction of zeros off where there is one; ids like 100 keep their zeros. */
  lemma OrderIdIs(value: string, id: string)
    ensures NormalizeOrderId(value) == id <==>
            (exists n :: FloatOf(Trim(value), id, n)) || (id == Trim(value) && forall other, n :: !FloatOf(Trim(value), other, n))
  {
    hide Trim;
    var s := Trim(value);
    var stem := StripTrailingZeros(s);
    StripSplit(s);
    forall other, n | FloatOf(s, other, n)
      ensures stem == other + "."
    {
      StripZeros(other + ".", n);
    }
    if |stem| < |s| && stem != [] && stem[|stem| - 1] == '.' {
      assert FloatOf(s, stem[..|stem| - 1], |s| - |stem|);
    }
  }

  /** The orders of a listing as the rest of the code sees them: ids normalised, orders without an id dropped. */
  function Visible(orders: seq<OpenOrder>): (r: seq<OpenOrder>)
    ensures forall o :: o in r ==> o.id != ""
  {
    if orders == [] then []
    else
      var o := OpenOrder(NormalizeOrderId(orders[0].id), Trim(orders[0].clientOrderId));
      (if o.id != "" then [o] else []) + Visible(orders[1..])
  }

  /** A listing shows an order exactly when it holds one with that id, normalised and not empty, and that client order id, trimmed. */
  lemma {:induction false} VisibleMember(orders: seq<OpenOrder>, o: OpenOrder)
    ensures o in Visible(orders) <==>
            o.id != "" && exists raw :: raw in orders && NormalizeOrderId(raw.id) == o.id && Trim(raw.clientOrderId) == o.clientOrderId
  {
    hide NormalizeOrderId, Trim;
    if orders != [] {
      VisibleMember(orders[1..], o);
      assert orders == [orders[0]] + orders[1..];
    }
  }

  function Tracked(trackedOrderIds: seq<string>, openBuy: string, openSell: string): set<string> {
    (set id | id in trackedOrderIds && NormalizeOrderId(id) != "" :: NormalizeOrderId(id))
    + (if openBuy == "" then {} else {NormalizeOrderId(openBuy)})
    + (if openSell == "" then {} else {NormalizeOrderId(openSell)})
  }

  predicate Prefixed(o: OpenOrder) {
    PREFIX <= o.clientOrderId
  }

  predicate Managed(tracked: set<string>, o: OpenOrder) {
    o.id in tracked || Prefixed(o)
  }

  /** Some order of this listing with this id is managed. */
  predicate ManagedIn(tracked: set<string>, orders: seq<OpenOrder>, id: string) {
    exists o :: o in orders && o.id == id && Managed(tracked, o)
  }

  predicate InScope(scope: Scope, tracked: set<string>, orders: seq<OpenOrder>, o: OpenOrder) {
    match scope
    case All => true
    case UnknownOnly => !ManagedIn(tracked, orders, o.id)
    case ManagedOnly => Managed(tracked, o)
  }

  function Select(scope: Scope, tracked: set<string>, orders: seq<OpenOrder>): set<string> {
    set o | o in orders && InScope(scope, tracked, orders, o) :: o.id
  }

  // ---------- The runs ----------

  /** The ids a cancel call went out for, how many listings were read, and whether one of them threw. */
  datatype Run = Run(touched: set<string>, read: nat, threw: bool)

  /** The extra rounds on NestEx: they end early when a listing brings nothing new. */
  function Sweeps(scope: Scope, tracked: set<string>, answers: seq<Answer>, k: nat, touched: set<string>): Run
    requires k <= |answers|
    decreases |answers| - k
  {
    if k == |answers| then Run(touched, k, false)
    else if answers[k].Throws? then Run(touched, k, true)
    else
      var found := Select(scope, tracked, Visible(answers[k].orders)) - touched;
      if found == {} then Run(touched, k + 1, false) else Sweeps(scope, tracked, answers, k + 1, touched + found)
  }

  function RunOf(venue: Venue, scope: Scope, tracked: set<string>, answers: seq<Answer>): Run
    requires answers != []
  {
    if answers[0].Throws? then Run({}, 0, true)
    else
      var first := Select(scope, tracked, Visible(answers[0].orders)) + (if scope.UnknownOnly? then {} else tracked - {""});
      if venue.Nestex? then Sweeps(scope, tracked, answers, 1, first) else Run(first, 1, false)
  }

  function CountOf(calls: seq<string>, reply: string -> Outcome, outcome: Outcome): nat {
    if calls == [] then 0
    else CountOf(calls[..|calls| - 1], reply, outcome) + if reply(calls[|calls| - 1]) == outcome then 1 else 0
  }

  lemma CountAppend(calls: seq<string>, id: string, reply: string -> Outcome)
    ensures forall outcome :: CountOf(calls + [id], reply, outcome) == CountOf(calls, reply, outcome) + if reply(id) == outcome then 1 else 0
  {
    assert (calls + [id])[..|calls|] == calls;
  }

  /** Every call is answered in exactly one way. */
  lemma {:induction false} CountsAddUp(calls: seq<string>, reply: string -> Outcome)
    ensures CountOf(calls, reply, Cancelled) + CountOf(calls, reply, AlreadyClosed) + CountOf(calls, reply, Failed) == |calls|
  {
    if calls != [] {
      CountsAddUp(calls[..|calls| - 1], reply);
    }
  }

  function ToSet(s: seq<string>): set<string> {
    set x | x in s
  }

  lemma ToSetAppend(s: seq<string>, x: string)
    ensures ToSet(s + [x]) == ToSet(s) + {x}
  {
  }

  lemma {:induction false} DistinctSize(s: seq<string>)
    requires NoDuplicates(s)
    ensures |ToSet(s)| == |s|
  {
    if s != [] {
      var front, x := s[..|s| - 1], s[|s| - 1];
      assert s == front + [x];
      ToSetAppend(front, x);
      DistinctSize(front);
      assert x !in front;
    }
  }

  function UnknownOrders(tracked: set<string>, orders: seq<OpenOrder>): seq<OpenOrder> {
    Filter(orders, (o: OpenOrder) => !ManagedIn(tracked, orders, o.id))
  }

  /** The visible counts are those of this listing. */
  predicate Shown(t: Tally, tracked: set<string>, orders: seq<OpenOrder>) {
    t.visibleBefore == |orders| && t.unknownVisible == |UnknownOrders(tracked, orders)|
  }

  predicate LastShown(t: Tally, tracked: set<string>, answers: seq<Answer>, run: Run) {
    0 < run.read <= |answers| ==> answers[run.read - 1].Lists? && Shown(t, tracked, Visible(answers[run.read - 1].orders))
  }

  // ---------- The code ----------

  method CollectTracked(trackedOrderIds: seq<string>, openBuy: string, openSell: string) returns (tracked: seq<string>)
    ensures NoDuplicates(tracked) && ToSet(tracked) == Tracked(trackedOrderIds, openBuy, openSell)
  {
    hide NormalizeOrderId;
    tracked := [];
    var i := 0;
    while i < |trackedOrderIds|
      invariant 0 <= i <= |trackedOrderIds| && NoDuplicates(tracked)
      invariant ToSet(tracked) == Tracked(trackedOrderIds[..i], "", "")
    {
      var normalized := NormalizeOrderId(trackedOrderIds[i]);
      ToSetAppend(tracked, normalized);
      TrackedAppend(trackedOrderIds[..i], trackedOrderIds[i]);
      assert trackedOrderIds[..i + 1] == trackedOrderIds[..i] + [trackedOrderIds[i]];
      if normalized != "" && normalized !in tracked {
        tracked := tracked + [normalized];
      }
      i := i + 1;
    }
    assert trackedOrderIds[..|trackedOrderIds|] == trackedOrderIds;
    if openBuy != "" && NormalizeOrderId(openBuy) !in tracked {
      ToSetAppend(tracked, NormalizeOrderId(openBuy));
      tracked := tracked + [NormalizeOrderId(openBuy)];
    }
    if openSell != "" && NormalizeOrderId(openSell) !in tracked {
      ToSetAppend(tracked, NormalizeOrderId(openSell));
      tracked := tracked + [NormalizeOrderId(openSell)];
    }
  }

  lemma TrackedAppend(ids: seq<string>, id: string)
    ensures Tracked(ids + [id], "", "") == Tracked(ids, "", "") + if NormalizeOrderId(id) == "" then {} else {NormalizeOrderId(id)}
  {
  }

  /** The tracked ids are the normalised ones of the list and of the two open orders. */
  lemma TrackedMember(trackedOrderIds: seq<string>, openBuy: string, openSell: string, id: string)
    requires id != ""
    ensures id in Tracked(trackedOrderIds, openBuy, openSell) <==>
            exists raw :: (raw in trackedOrderIds || raw == openBuy || raw == openSell) && NormalizeOrderId(raw) == id
  {
    assert NormalizeOrderId("") == "";
    hide NormalizeOrderId;
  }

  method SelectOrderIds(scope: Scope, tracked: set<string>, orders: seq<OpenOrder>) returns (ids: seq<string>, visible: nat, unknownVisible: nat)
    ensures ToSet(ids) == Select(scope, tracked, orders)
    ensures visible == |orders| && unknownVisible == |UnknownOrders(tracked, orders)|
  {
    var managed := Filter(orders, (o: OpenOrder) => Managed(tracked, o));
    var unknown := UnknownOrders(tracked, orders);
    visible, unknownVisible := |orders|, |unknown|;
    var chosen := match scope case All => orders case UnknownOnly => unknown case ManagedOnly => managed;
    ids := seq(|chosen|, i requires 0 <= i < |chosen| => chosen[i].id);
    forall o: OpenOrder
      ensures o in chosen <==> o in orders && InScope(scope, tracked, orders, o)
    {
      FilterMember(orders, (o: OpenOrder) => Managed(tracked, o), o);
      FilterMember(orders, (o: OpenOrder) => !ManagedIn(tracked, orders, o.id), o);
    }
    IdsOf(chosen, ids);
    assert ToSet(ids) == Select(scope, tracked, orders);
  }

  lemma IdsOf(orders: seq<OpenOrder>, ids: seq<string>)
    requires |ids| == |orders| && forall i :: 0 <= i < |ids| ==> ids[i] == orders[i].id
    ensures forall id :: id in ids <==> exists o :: o in orders && o.id == id
  {
  }

  /** The three counters agree with what the calls were answered. */
  predicate Counted(t: Tally, calls: seq<string>, reply: string -> Outcome) {
    && t.cancelled == CountOf(calls, reply, Cancelled)
    && t.alreadyClosed == CountOf(calls, reply, AlreadyClosed)
    && t.failed == CountOf(calls, reply, Failed)
  }

  /** The loop over the ids to cancel, with the guard of attemptCancel. */
  method AttemptEach(ids: seq<string>, attempted: seq<string>, tally: Tally, reply: string -> Outcome) returns (calls: seq<string>, t: Tally)
    requires NoDuplicates(attempted) && "" !in attempted && Counted(tally, attempted, reply)
    ensures NoDuplicates(calls) && "" !in calls && Counted(t, calls, reply)
    ensures ToSet(calls) == ToSet(attempted) + (ToSet(ids) - {""})
    ensures t.visibleBefore == tally.visibleBefore && t.unknownVisible == tally.unknownVisible
  {
    hide CountOf;
    calls, t := attempted, tally;
    var i := 0;
    while i < |ids|
      invariant 0 <= i <= |ids| && NoDuplicates(calls) && "" !in calls && Counted(t, calls, reply)
      invariant ToSet(calls) == ToSet(attempted) + (ToSet(ids[..i]) - {""})
      invariant t.visibleBefore == tally.visibleBefore && t.unknownVisible == tally.unknownVisible
    {
      var orderId := ids[i];
      assert ids[..i + 1] == ids[..i] + [orderId];
      ToSetAppend(ids[..i], orderId);
      i := i + 1;
      if orderId == "" || orderId in calls {
        continue;
      }
      ToSetAppend(calls, orderId);
      CountAppend(calls, orderId, reply);
      calls := calls + [orderId];
      match reply(orderId) {
        case Cancelled => t := t.(cancelled := t.cancelled + 1);
        case AlreadyClosed => t := t.(alreadyClosed := t.alreadyClosed + 1);
        case Failed => t := t.(failed := t.failed + 1);
      }
    }
    assert ids[..|ids|] == ids;
  }

  /** One extra round: it is the last one when the listing brings no new id. */
  method SweepRound(scope: Scope, tracked: set<string>, orders: seq<OpenOrder>, attempted: seq<string>, tally: Tally, reply: string -> Outcome)
    returns (done: bool, calls: seq<string>, t: Tally)
    requires (forall o :: o in orders ==> o.id != "") && NoDuplicates(attempted) && "" !in attempted && Counted(tally, attempted, reply)
    ensures NoDuplicates(calls) && "" !in calls && Counted(t, calls, reply) && Shown(t, tracked, orders)
    ensures done <==> Select(scope, tracked, orders) - ToSet(attempted) == {}
    ensures ToSet(calls) == ToSet(attempted) + (Select(scope, tracked, orders) - ToSet(attempted))
  {
    var selected, visibleBefore, unknownVisible := SelectOrderIds(scope, tracked, orders);
    calls, t := attempted, tally.(visibleBefore := visibleBefore, unknownVisible := unknownVisible);
    var newIds := Filter(selected, id => id != "" && id !in attempted);
    NewIds(selected, attempted, newIds);
    SelectNamed(scope, tracked, orders);
    done := |newIds| == 0;
    if !done {
      calls, t := AttemptEach(newIds, attempted, t, reply);
    }
  }

  lemma SelectNamed(scope: Scope, tracked: set<string>, orders: seq<OpenOrder>)
    requires forall o :: o in orders ==> o.id != ""
    ensures "" !in Select(scope, tracked, orders)
  {
  }

  lemma NewIds(selected: seq<string>, calls: seq<string>, newIds: seq<string>)
    requires newIds == Filter(selected, id => id != "" && id !in calls)
    ensures ToSet(newIds) == ToSet(selected) - ToSet(calls) - {""}
    ensures newIds == [] <==> ToSet(newIds) == {}
  {
    forall id
      ensures id in newIds <==> id in selected && id != "" && id !in calls
    {
      FilterMember(selected, id => id != "" && id !in calls, id);
    }
    if newIds != [] {
      assert newIds[0] in ToSet(newIds);
    }
  }

  /** The extra NestEx rounds. */
  method SweepRounds(scope: Scope, tracked: set<string>, answers: seq<Answer>, attempted: seq<string>, tally: Tally, reply: string -> Outcome)
    returns (run: Run, calls: seq<string>, t: Tally)
    requires |answers| == 1 + SWEEP_ROUNDS && answers[0].Lists? && Shown(tally, tracked, Visible(answers[0].orders))
    requires NoDuplicates(attempted) && "" !in attempted && Counted(tally, attempted, reply)
    ensures run == Sweeps(scope, tracked, answers, 1, ToSet(attempted)) && run.touched == ToSet(calls)
    ensures NoDuplicates(calls) && "" !in calls && Counted(t, calls, reply) && LastShown(t, tracked, answers, run)
  {
    hide Select, CountOf, Visible, Counted, NoDuplicates, ToSet, Shown;
    calls, t := attempted, tally;
    var round := 0;
    while round < SWEEP_ROUNDS
      invariant 0 <= round <= SWEEP_ROUNDS && NoDuplicates(calls) && "" !in calls && Counted(t, calls, reply)
      invariant answers[round].Lists? && Shown(t, tracked, Visible(answers[round].orders))
      invariant Sweeps(scope, tracked, answers, 1 + round, ToSet(calls)) == Sweeps(scope, tracked, answers, 1, ToSet(attempted))
    {
      var answer := answers[1 + round];
      round := round + 1;
      if answer.Throws? {
        return Run(ToSet(calls), round, true), calls, t;
      }
      var done;
      done, calls, t := SweepRound(scope, tracked, Visible(answer.orders), calls, t, reply);
      if done {
        return Run(ToSet(calls), round + 1, false), calls, t;
      }
    }
    run := Run(ToSet(calls), 1 + round, false);
  }

  /** Up to the end of the first loop over the ids. */
  method CancelListed(scope: Scope, trackedList: seq<string>, orders: seq<OpenOrder>, reply: string -> Outcome) returns (calls: seq<string>, t: Tally)
    requires forall o :: o in orders ==> o.id != ""
    ensures ToSet(calls) == Select(scope, ToSet(trackedList), orders) + if scope.UnknownOnly? then {} else ToSet(trackedList) - {""}
    ensures NoDuplicates(calls) && "" !in calls && Counted(t, calls, reply) && Shown(t, ToSet(trackedList), orders)
  {
    hide Select, UnknownOrders;
    var tracked := ToSet(trackedList);
    var selected, visibleBefore, unknownVisible := SelectOrderIds(scope, tracked, orders);
    var orderIds := Distinct(selected + if scope.UnknownOnly? then [] else trackedList);
    FirstIds(scope, tracked, orders, selected, trackedList, orderIds);
    calls, t := AttemptEach(orderIds, [], Tally(visibleBefore, unknownVisible, 0, 0, 0), reply);
  }

  method CancelRemote(venue: Venue, scope: Scope, trackedList: seq<string>, answers: seq<Answer>, reply: string -> Outcome)
    returns (calls: seq<string>, t: Tally, run: Run)
    requires |answers| == 1 + SWEEP_ROUNDS
    ensures run == RunOf(venue, scope, ToSet(trackedList), answers) && ToSet(calls) == run.touched
    ensures NoDuplicates(calls) && "" !in calls && Counted(t, calls, reply)
    ensures LastShown(t, ToSet(trackedList), answers, run)
  {
    hide Select, Visible, UnknownOrders, Sweeps;
    calls, t, run := [], Tally(0, 0, 0, 0, 0), Run({}, 0, true);
    if answers[0].Throws? {
      return;
    }
    calls, t := CancelListed(scope, trackedList, Visible(answers[0].orders), reply);
    run := Run(ToSet(calls), 1, false);
    if venue.Nestex? {
      run, calls, t := SweepRounds(scope, ToSet(trackedList), answers, calls, t, reply);
    }
  }

  /**
   For every venue, scope and behaviour of the exchange: no id is cancelled twice, the ids cancelled are
   those of the run, and the counters tell how the calls were answered. `attempted` is only set at the end,
   so a listing that throws leaves it at zero. The visible counts are those of the last listing read.
   */
  method CancelAllDevmmOrders(venue: Venue, scope: Scope, trackedOrderIds: seq<string>, openBuy: string, openSell: string,
                              answers: seq<Answer>, reply: string -> Outcome) returns (r: Report, calls: seq<string>)
    requires |answers| == 1 + SWEEP_ROUNDS
    ensures venue.Dextrade? ==> calls == [] && var n := |Tracked(trackedOrderIds, openBuy, openSell)|; r == Report(n, Tally(0, 0, n, 0, 0))
    ensures NoDuplicates(calls) && "" !in calls
    ensures !venue.Dextrade? ==>
              var tracked := Tracked(trackedOrderIds, openBuy, openSell);
              var run := RunOf(venue, scope, tracked, answers);
              && ToSet(calls) == run.touched && Counted(r.tally, calls, reply)
              && LastShown(r.tally, tracked, answers, run)
              && r.attempted == (if run.threw then 0 else |calls|)
              && (r.attempted == r.tally.cancelled + r.tally.alreadyClosed + r.tally.failed <==> !run.threw || calls == [])
  {
    hide Tracked, RunOf, LastShown, CountOf;
    var trackedList := CollectTracked(trackedOrderIds, openBuy, openSell);
    if venue.Dextrade? {
      DistinctSize(trackedList);
      return Report(|trackedList|, Tally(0, 0, |trackedList|, 0, 0)), [];
    }
    var t, run;
    calls, t, run := CancelRemote(venue, scope, trackedList, answers, reply);
    r := Report(if run.threw then 0 else |calls|, t);
    CountsAddUp(calls, reply);
  }

  lemma FirstIds(scope: Scope, tracked: set<string>, orders: seq<OpenOrder>, selected: seq<string>, trackedList: seq<string>, ids: seq<string>)
    requires (forall o :: o in orders ==> o.id != "") && ToSet(selected) == Select(scope, tracked, orders) && ToSet(trackedList) == tracked
    requires ids == Distinct(selected + if scope.UnknownOnly? then [] else trackedList)
    ensures ToSet(ids) - {""} == Select(scope, tracked, orders) + if scope.UnknownOnly? then {} else tracked - {""}
  {
  }

  // ---------- What a run touches ----------

  /** The ids that the first k listings select. */
  function SelectedIn(scope: Scope, tracked: set<string>, answers: seq<Answer>, k: nat): set<string>
    requires k <= |answers|
  {
    if k == 0 then {}
    else
      SelectedIn(scope, tracked, answers, k - 1)
      + if answers[k - 1].Lists? then Select(scope, tracked, Visible(answers[k - 1].orders)) else {}
  }

  lemma {:induction false} SelectedGrows(scope: Scope, tracked: set<string>, answers: seq<Answer>, k: nat, n: nat)
    ensures k <= n <= |answers| ==> SelectedIn(scope, tracked, answers, k) <= SelectedIn(scope, tracked, answers, n)
    decreases n
  {
    hide Select, Visible;
    if k < n <= |answers| {
      SelectedGrows(scope, tracked, answers, k, n - 1);
    }
  }

  lemma {:induction false} SweepsTouch(scope: Scope, tracked: set<string>, answers: seq<Answer>, k: nat, touched: set<string>)
    requires k <= |answers| && SelectedIn(scope, tracked, answers, k) <= touched
    ensures var run := Sweeps(scope, tracked, answers, k, touched);
            && k <= run.read <= |answers| && run.touched == touched + SelectedIn(scope, tracked, answers, run.read)
            && forall i :: k <= i < run.read ==> answers[i].Lists?
    decreases |answers| - k
  {
    hide Select, Visible;
    if k < |answers| && answers[k].Lists? {
      var found := Select(scope, tracked, Visible(answers[k].orders)) - touched;
      assert SelectedIn(scope, tracked, answers, k + 1)
          == SelectedIn(scope, tracked, answers, k) + Select(scope, tracked, Visible(answers[k].orders));
      if found != {} {
        SelectedGrows(scope, tracked, answers, k + 1, Sweeps(scope, tracked, answers, k + 1, touched + found).read);
        SweepsTouch(scope, tracked, answers, k + 1, touched + found);
      } else {
        assert touched + SelectedIn(scope, tracked, answers, k + 1) == touched;
      }
    }
  }

  /** A run touches what the listings it read selected, and the tracked ids unless it is after the unknown ones. */
  lemma TouchedExactly(venue: Venue, scope: Scope, tracked: set<string>, answers: seq<Answer>)
    requires answers != []
    ensures var run := RunOf(venue, scope, tracked, answers);
            && run.read <= |answers| && (forall i :: 0 <= i < run.read ==> answers[i].Lists?)
            && run.touched == SelectedIn(scope, tracked, answers, run.read) + if scope.UnknownOnly? || run.read == 0 then {} else tracked - {""}
  {
    hide Select, Visible, Sweeps;
    if answers[0].Lists? {
      assert SelectedIn(scope, tracked, answers, 0) == {};
      var first := Select(scope, tracked, Visible(answers[0].orders)) + (if scope.UnknownOnly? then {} else tracked - {""});
      assert SelectedIn(scope, tracked, answers, 1) == Select(scope, tracked, Visible(answers[0].orders));
      SweepsTouch(scope, tracked, answers, 1, first);
      SelectedGrows(scope, tracked, answers, 1, RunOf(venue, scope, tracked, answers).read);
    }
  }

  lemma {:induction false} SelectedMember(scope: Scope, tracked: set<string>, answers: seq<Answer>, k: nat, id: string)
    requires k <= |answers|
    ensures id in SelectedIn(scope, tracked, answers, k) <==>
            exists i :: 0 <= i < k && answers[i].Lists? && id in Select(scope, tracked, Visible(answers[i].orders))
  {
    hide Select, Visible;
    if k > 0 {
      SelectedMember(scope, tracked, answers, k - 1, id);
    }
  }

  /** Listing k selects an id that no earlier listing has selected and that was not cancelled as tracked. */
  predicate BringsNew(scope: Scope, tracked: set<string>, answers: seq<Answer>, k: nat)
    requires k < |answers|
  {
    && answers[k].Lists?
    && exists id :: id in Select(scope, tracked, Visible(answers[k].orders)) && id !in SelectedIn(scope, tracked, answers, k)
                    && (scope.UnknownOnly? || id !in tracked)
  }

  function FirstTouched(scope: Scope, tracked: set<string>): set<string> {
    if scope.UnknownOnly? then {} else tracked - {""}
  }

  lemma NewOnes(scope: Scope, tracked: set<string>, answers: seq<Answer>, k: nat, touched: set<string>)
    requires k < |answers| && answers[k].Lists? && touched == SelectedIn(scope, tracked, answers, k) + FirstTouched(scope, tracked)
    ensures Select(scope, tracked, Visible(answers[k].orders)) - touched == {} <==> !BringsNew(scope, tracked, answers, k)
    ensures SelectedIn(scope, tracked, answers, k + 1) + FirstTouched(scope, tracked)
         == touched + (Select(scope, tracked, Visible(answers[k].orders)) - touched)
  {
    var selected, before := Select(scope, tracked, Visible(answers[k].orders)), SelectedIn(scope, tracked, answers, k);
    SelectNamed(scope, tracked, Visible(answers[k].orders));
    assert SelectedIn(scope, tracked, answers, k + 1) == before + selected;
    hide Select, Visible, SelectedIn;
    NoneNew(scope, tracked, selected, before);
  }

  lemma NoneNew(scope: Scope, tracked: set<string>, selected: set<string>, before: set<string>)
    requires "" !in selected
    ensures selected - (before + FirstTouched(scope, tracked)) == {} <==>
            !exists id :: id in selected && id !in before && (scope.UnknownOnly? || id !in tracked)
  {
    var found := selected - (before + FirstTouched(scope, tracked));
    assert forall id :: id in found <==> id in selected && id !in before && (scope.UnknownOnly? || id !in tracked);
    if found != {} {
      var id :| id in found;
    }
  }

  /** Which listings the extra rounds read, counted from listing k on. */
  lemma {:induction false} SweepsRead(scope: Scope, tracked: set<string>, answers: seq<Answer>, k: nat, touched: set<string>, n: nat)
    requires k <= n && k <= |answers| && touched == SelectedIn(scope, tracked, answers, k) + FirstTouched(scope, tracked)
    ensures var run := Sweeps(scope, tracked, answers, k, touched);
            && k <= run.read
            && (n < run.read <==> n < |answers| && (forall j :: k <= j <= n ==> answers[j].Lists?)
                                  && forall j :: k <= j < n ==> BringsNew(scope, tracked, answers, j))
            && (run.threw && run.read == n <==>
                n < |answers| && answers[n].Throws? && forall j :: k <= j < n ==> BringsNew(scope, tracked, answers, j))
    decreases |answers| - k
  {
    hide Select, Visible, SelectedIn, FirstTouched;
    assert k < |answers| && answers[k].Throws? ==> !BringsNew(scope, tracked, answers, k);
    if k < |answers| && answers[k].Lists? {
      NewOnes(scope, tracked, answers, k, touched);
      var found := Select(scope, tracked, Visible(answers[k].orders)) - touched;
      if found != {} && k < n {
        SweepsRead(scope, tracked, answers, k + 1, touched + found, n);
      } else if found != {} {
        SweepsRead(scope, tracked, answers, k + 1, touched + found, k + 1);
      }
    }
  }

  /**
   How many listings a run reads. A listing is read exactly when no listing up to it throws and, from the third on,
   when NestEx is asked and each of the extra listings before it brought something new. A run fails exactly at a
   listing that it asks for and that throws.
   */
  lemma ReadsExactly(venue: Venue, scope: Scope, tracked: set<string>, answers: seq<Answer>, n: nat)
    requires answers != []
    ensures var run := RunOf(venue, scope, tracked, answers);
            && (n < run.read <==>
                && n < |answers| && (forall j :: 0 <= j <= n ==> answers[j].Lists?)
                && (n > 0 ==> venue.Nestex? && forall j :: 1 <= j < n ==> BringsNew(scope, tracked, answers, j)))
            && (run.threw && run.read == n <==>
                && n < |answers| && (forall j :: 0 <= j < n ==> answers[j].Lists?) && answers[n].Throws?
                && (n > 0 ==> venue.Nestex? && forall j :: 1 <= j < n ==> BringsNew(scope, tracked, answers, j)))
  {
    hide Select, Visible, Sweeps, BringsNew;
    if answers[0].Lists? {
      var first := Select(scope, tracked, Visible(answers[0].orders)) + FirstTouched(scope, tracked);
      assert SelectedIn(scope, tracked, answers, 0) == {};
      assert SelectedIn(scope, tracked, answers, 1) == Select(scope, tracked, Visible(answers[0].orders));
      SweepsRead(scope, tracked, answers, 1, first, if n == 0 then 1 else n);
      NewLists(scope, tracked, answers);
    }
  }

  lemma NewLists(scope: Scope, tracked: set<string>, answers: seq<Answer>)
    ensures forall j :: 0 <= j < |answers| && BringsNew(scope, tracked, answers, j) ==> answers[j].Lists?
  {
  }

  /** The listing shows an order with this id that carries the prefix. */
  predicate PrefixedIn(orders: seq<OpenOrder>, id: string) {
    exists o :: o in orders && o.id == id && Prefixed(o)
  }

  predicate ListedIn(orders: seq<OpenOrder>, id: string) {
    exists o :: o in orders && o.id == id
  }

  /** managed_only, over all rounds: exactly the tracked ids and the prefixed ones of the listings read. */
  lemma ManagedOnlyTouches(venue: Venue, tracked: set<string>, answers: seq<Answer>, id: string)
    requires answers != [] && id != ""
    ensures var run := RunOf(venue, ManagedOnly, tracked, answers);
            id in run.touched <==>
            && 0 < run.read <= |answers|
            && (id in tracked || exists i :: 0 <= i < run.read && answers[i].Lists? && PrefixedIn(Visible(answers[i].orders), id))
  {
    hide RunOf, SelectedIn, Visible;
    var run := RunOf(venue, ManagedOnly, tracked, answers);
    TouchedExactly(venue, ManagedOnly, tracked, answers);
    SelectedMember(ManagedOnly, tracked, answers, run.read, id);
    forall i | 0 <= i < run.read && id !in tracked
      ensures id in Select(ManagedOnly, tracked, Visible(answers[i].orders)) <==> PrefixedIn(Visible(answers[i].orders), id)
    {
    }
    if id in SelectedIn(ManagedOnly, tracked, answers, run.read) && id !in tracked {
      var i :| 0 <= i < run.read && answers[i].Lists? && id in Select(ManagedOnly, tracked, Visible(answers[i].orders));
      assert PrefixedIn(Visible(answers[i].orders), id);
    }
  }

  /** all, over all rounds: exactly the tracked ids and every id that a listing read shows. */
  lemma AllTouches(venue: Venue, tracked: set<string>, answers: seq<Answer>, id: string)
    requires answers != [] && id != ""
    ensures var run := RunOf(venue, All, tracked, answers);
            id in run.touched <==>
            && 0 < run.read <= |answers|
            && (id in tracked || exists i :: 0 <= i < run.read && answers[i].Lists? && ListedIn(Visible(answers[i].orders), id))
  {
    hide RunOf, SelectedIn, Visible;
    var run := RunOf(venue, All, tracked, answers);
    TouchedExactly(venue, All, tracked, answers);
    SelectedMember(All, tracked, answers, run.read, id);
    forall i | 0 <= i < run.read
      ensures id in Select(All, tracked, Visible(answers[i].orders)) <==> ListedIn(Visible(answers[i].orders), id)
    {
    }
  }

  /** unknown_only, over all rounds: the ids that some listing read shows, untracked and without the prefix. */
  lemma UnknownOnlyTouches(venue: Venue, tracked: set<string>, answers: seq<Answer>, id: string)
    requires answers != []
    ensures var run := RunOf(venue, UnknownOnly, tracked, answers);
            && run.read <= |answers|
            && (id in run.touched <==>
                && id !in tracked
                && exists i :: 0 <= i < run.read && answers[i].Lists?
                               && ListedIn(Visible(answers[i].orders), id) && !PrefixedIn(Visible(answers[i].orders), id))
  {
    hide RunOf, SelectedIn, Visible;
    var run := RunOf(venue, UnknownOnly, tracked, answers);
    TouchedExactly(venue, UnknownOnly, tracked, answers);
    SelectedMember(UnknownOnly, tracked, answers, run.read, id);
    forall i | 0 <= i < run.read
      ensures id in Select(UnknownOnly, tracked, Visible(answers[i].orders)) <==>
              id !in tracked && ListedIn(Visible(answers[i].orders), id) && !PrefixedIn(Visible(answers[i].orders), id)
    {
      SelectUnknown(tracked, Visible(answers[i].orders), id);
    }
  }

  lemma SelectUnknown(tracked: set<string>, orders: seq<OpenOrder>, id: string)
    ensures id in Select(UnknownOnly, tracked, orders) <==> id !in tracked && ListedIn(orders, id) && !PrefixedIn(orders, id)
  {
  }

  /** No untracked id stands with the prefix in one of the first k listings and without it in another. */
  ghost predicate Steady(tracked: set<string>, answers: seq<Answer>, k: nat)
    requires k <= |answers|
  {
    forall i, j, id ::
      0 <= i < k && 0 <= j < k && answers[i].Lists? && answers[j].Lists? && id !in tracked
      && ListedIn(Visible(answers[i].orders), id) && PrefixedIn(Visible(answers[j].orders), id)
      ==>
      PrefixedIn(Visible(answers[i].orders), id)
  }

  /**
   unknown_only never touches a tracked id. It leaves every id that any listing shows with the prefix alone
   exactly when no listing omits the prefix that another one shows.
   */
  lemma UnknownOnlySpares(venue: Venue, tracked: set<string>, answers: seq<Answer>)
    requires answers != []
    ensures var run := RunOf(venue, UnknownOnly, tracked, answers);
            && run.touched !! tracked && run.read <= |answers|
            && ((forall id, j :: id in run.touched && 0 <= j < run.read && answers[j].Lists? ==> !PrefixedIn(Visible(answers[j].orders), id))
                <==> Steady(tracked, answers, run.read))
  {
    hide RunOf, Visible, PrefixedIn, ListedIn;
    var run := RunOf(venue, UnknownOnly, tracked, answers);
    UnknownOnlyTouches(venue, tracked, answers, "");
    forall id
      ensures id in run.touched <==>
              && id !in tracked
              && exists i :: 0 <= i < run.read && answers[i].Lists?
                             && ListedIn(Visible(answers[i].orders), id) && !PrefixedIn(Visible(answers[i].orders), id)
    {
      UnknownOnlyTouches(venue, tracked, answers, id);
    }
  }

  /** A NestEx listing that omits the prefix, and the next one, which shows it. */
  const LATE_PREFIX: seq<Answer> := [
    Lists([OpenOrder("1", "")]), Lists([OpenOrder("1", "PPW-DEVMM-1")]), Lists([]), Lists([])]

  /** It happens: the order is cancelled as unknown before the second listing shows that it is managed. */
  lemma LatePrefixTouched()
    ensures var run := RunOf(Nestex, UnknownOnly, {}, LATE_PREFIX);
            run.touched == {"1"} && run.read == 2 && PrefixedIn(Visible(LATE_PREFIX[1].orders), "1")
  {
    hide Visible, Select, Prefixed, NoBlanks;
    PlainPrefixes();
    var first, second := OpenOrder("1", ""), OpenOrder("1", "PPW-DEVMM-1");
    PlainVisible("");
    PlainVisible("PPW-DEVMM-1");
    SelectOne(first);
    SelectOne(second);
    PrefixedOnes();
    assert second in [second];
  }

  lemma PrefixedOnes()
    ensures !Prefixed(OpenOrder("1", "")) && Prefixed(OpenOrder("1", "PPW-DEVMM-1"))
  {
  }

  lemma SelectOne(o: OpenOrder)
    ensures Select(UnknownOnly, {}, [o]) == if Prefixed(o) then {} else {o.id}
  {
    assert o in [o];
  }

  predicate NoBlanks(s: string) {
    forall i :: 0 <= i < |s| ==> !IsSpace(s[i])
  }

  lemma PlainVisible(clientOrderId: string)
    requires NoBlanks(clientOrderId)
    ensures Visible([OpenOrder("1", clientOrderId)]) == [OpenOrder("1", clientOrderId)]
  {
    PlainId();
    TrimNothing(clientOrderId);
    hide NormalizeOrderId, Trim, IsSpace, NoBlanks;
    assert [OpenOrder("1", clientOrderId)][1..] == [] && Visible([]) == [];
  }

  lemma PlainId()
    ensures NormalizeOrderId("1") == "1"
  {
    TrimNothing("1");
    hide Trim;
  }

  lemma PlainPrefixes()
    ensures NoBlanks("") && NoBlanks("PPW-DEVMM-1")
  {
  }

  /**
   The visible count that is reported as of before the run is the size of the first listing, unless a later
   listing of another size was read; only NestEx reads more than one.
   */
  lemma VisibleBeforeFirst(venue: Venue, scope: Scope, tracked: set<string>, answers: seq<Answer>, t: Tally)
    requires answers != [] && LastShown(t, tracked, answers, RunOf(venue, scope, tracked, answers))
    requires RunOf(venue, scope, tracked, answers).read > 0
    ensures var run := RunOf(venue, scope, tracked, answers);
            && 0 < run.read <= |answers| && answers[0].Lists? && answers[run.read - 1].Lists?
            && (t.visibleBefore == |Visible(answers[0].orders)| <==> |Visible(answers[run.read - 1].orders)| == |Visible(answers[0].orders)|)
            && (!venue.Nestex? ==> t.visibleBefore == |Visible(answers[0].orders)|)
  {
    TouchedExactly(venue, scope, tracked, answers);
  }

  /** It differs when NestEx no longer lists what was cancelled. */
  lemma VisibleBeforeOverwritten(t: Tally)
    requires LastShown(t, {}, [Lists([OpenOrder("1", "")]), Lists([])], RunOf(Nestex, All, {}, [Lists([OpenOrder("1", "")]), Lists([])]))
    ensures t.visibleBefore == 0 && |Visible([OpenOrder("1", "")])| == 1
  {
    PlainVisible("");
    hide IsSpace;
  }
}
