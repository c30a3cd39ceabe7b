/**
 Worker pools over a shared index and a result array: handleRawTxBatch in
 services/wallet-api/src/server.ts and fetchCoreUtxosWithLimit in apps/web/src/pages/Send.tsx.
 Code between awaits is one atomic step; the order of the workers' steps is arbitrary.
 */
module WorkerPool {
  import opened Wrappers
  import opened Text
  import opened Lists

  /** How a fetch ended: served from the cache, fetched upstream, or failed. */
  datatype Outcome = Hit(rawTx: string) | Fetched(rawTx: string) | Missing(code: string, error: string)

  datatype Item = Item(txid: string, outcome: Outcome)

  datatype Worker = Idle | Fetching(index: nat) | Finished | Threw

  datatype Step =
    | Claim(worker: nat)
    | Complete(worker: nat, outcome: Outcome)
    | Throw(worker: nat)

  /** `claims` lists the claimed indices in the order of claiming. */
  datatype Pool = Pool(
    next: nat,
    workers: seq<Worker>,
    results: seq<Option<Item>>,
    cacheHit: nat,
    cacheMiss: nat,
    claims: seq<nat>)

  function NoResults(n: nat): seq<Option<Item>> {
    seq(n, i => None)
  }

  function IdleWorkers(n: nat): seq<Worker> {
    seq(n, i => Idle)
  }

  function Start(txids: seq<string>, workerCount: nat): Pool {
    Pool(0, IdleWorkers(workerCount), NoResults(|txids|), 0, 0, [])
  }

  predicate Enabled(p: Pool, step: Step) {
    step.worker < |p.workers| &&
    match step
    case Claim(w) => p.workers[w].Idle?
    case Complete(w, _) => p.workers[w].Fetching? && p.workers[w].index < |p.results|
    case Throw(w) => p.workers[w].Fetching?
  }

  function After(txids: seq<string>, p: Pool, step: Step): Pool
    requires Enabled(p, step) && |p.results| == |txids|
  {
    match step
    case Claim(w) =>
      if p.next < |txids| then
        p.(next := p.next + 1, workers := p.workers[w := Fetching(p.next)], claims := p.claims + [p.next])
      else p.(workers := p.workers[w := Finished])
    case Complete(w, outcome) =>
      var index := p.workers[w].index;
      p.(workers := p.workers[w := Idle],
         results := p.results[index := Some(Item(txids[index], outcome))],
         cacheHit := p.cacheHit + if outcome.Hit? then 1 else 0,
         cacheMiss := p.cacheMiss + if outcome.Hit? then 0 else 1)
    case Throw(w) => p.(workers := p.workers[w := Threw])
  }

  function CountWhere(results: seq<Option<Item>>, p: Outcome -> bool): nat {
    if results == [] then 0
    else
      var last := results[|results| - 1];
      CountWhere(results[..|results| - 1], p) + if last.Some? && p(last.value.outcome) then 1 else 0
  }

  predicate IsHit(o: Outcome) {
    o.Hit?
  }

  predicate NotHit(o: Outcome) {
    !o.Hit?
  }

  predicate IsOk(o: Outcome) {
    !o.Missing?
  }

  predicate NotOk(o: Outcome) {
    o.Missing?
  }

  /** Some worker is at work on the slot. */
  predicate InFlight(p: Pool, i: nat) {
    exists w :: 0 <= w < |p.workers| && p.workers[w] == Fetching(i)
  }

  predicate AnyThrew(p: Pool) {
    exists w :: 0 <= w < |p.workers| && p.workers[w].Threw?
  }

  predicate Inv(txids: seq<string>, p: Pool) {
    && |p.results| == |txids| && p.next <= |txids|
    && p.claims == seq(p.next, i => i)
    && (forall w :: 0 <= w < |p.workers| && p.workers[w].Fetching? ==> p.workers[w].index < p.next)
    && (forall v, w :: 0 <= v < w < |p.workers| && p.workers[v].Fetching? ==> p.workers[v] != p.workers[w])
    && (forall w :: 0 <= w < |p.workers| && p.workers[w].Finished? ==> p.next == |txids|)
    && (forall i :: 0 <= i < |txids| && p.results[i].Some? ==> i < p.next && !InFlight(p, i) && p.results[i].value.txid == txids[i])
    && (forall i :: 0 <= i < p.next && p.results[i].None? && !AnyThrew(p) ==> InFlight(p, i))
    && p.cacheHit == CountWhere(p.results, IsHit) && p.cacheMiss == CountWhere(p.results, NotHit)
  }

  lemma {:induction false} CountFill(results: seq<Option<Item>>, i: nat, item: Item, p: Outcome -> bool)
    requires i < |results| && results[i].None?
    ensures CountWhere(results[i := Some(item)], p) == CountWhere(results, p) + if p(item.outcome) then 1 else 0
  {
    var last := |results| - 1;
    if i < last {
      CountFill(results[..last], i, item, p);
      assert results[i := Some(item)][..last] == results[..last][i := Some(item)];
    } else {
      assert results[i := Some(item)][..last] == results[..last];
    }
  }

  lemma {:induction false} CountNone(n: nat, p: Outcome -> bool)
    ensures CountWhere(NoResults(n), p) == 0
  {
    if n > 0 {
      CountNone(n - 1, p);
      assert NoResults(n)[..n - 1] == NoResults(n - 1);
    }
  }

  lemma StartInv(txids: seq<string>, workerCount: nat)
    ensures Inv(txids, Start(txids, workerCount))
  {
    CountNone(|txids|, IsHit);
    CountNone(|txids|, NotHit);
  }

  lemma ClaimInv(txids: seq<string>, p: Pool, w: nat)
    requires Inv(txids, p) && Enabled(p, Claim(w))
    ensures Inv(txids, After(txids, p, Claim(w)))
  {
    var q := After(txids, p, Claim(w));
    forall i | 0 <= i < q.next && q.results[i].None? && !AnyThrew(q)
      ensures InFlight(q, i)
    {
      if i < p.next {
        assert forall v :: 0 <= v < |p.workers| && p.workers[v].Threw? ==> q.workers[v].Threw?;
        var v :| 0 <= v < |p.workers| && p.workers[v] == Fetching(i);
        assert q.workers[v] == Fetching(i);
      } else {
        assert q.workers[w] == Fetching(i);
      }
    }
  }

  lemma CompleteInv(txids: seq<string>, p: Pool, w: nat, outcome: Outcome)
    requires Inv(txids, p) && Enabled(p, Complete(w, outcome))
    ensures Inv(txids, After(txids, p, Complete(w, outcome)))
  {
    hide CountWhere;
    var q := After(txids, p, Complete(w, outcome));
    var index := p.workers[w].index;
    assert InFlight(p, index);
    CountFill(p.results, index, Item(txids[index], outcome), IsHit);
    CountFill(p.results, index, Item(txids[index], outcome), NotHit);
    forall i | 0 <= i < q.next && q.results[i].None? && !AnyThrew(q)
      ensures InFlight(q, i)
    {
      assert forall v :: 0 <= v < |p.workers| && p.workers[v].Threw? ==> q.workers[v].Threw?;
      var v :| 0 <= v < |p.workers| && p.workers[v] == Fetching(i);
      assert q.workers[v] == Fetching(i);
    }
  }

  lemma StepInv(txids: seq<string>, p: Pool, step: Step)
    requires Inv(txids, p) && Enabled(p, step)
    ensures Inv(txids, After(txids, p, step))
  {
    match step {
      case Claim(w) => ClaimInv(txids, p, w);
      case Complete(w, outcome) => CompleteInv(txids, p, w, outcome);
      case Throw(w) => assert AnyThrew(After(txids, p, step)) by {
        assert After(txids, p, step).workers[w].Threw?;
      }
    }
  }

  // ---------- Runs ----------

  /** An interleaving: every step belongs to a worker that can take it. */
  predicate Interleaving(txids: seq<string>, p: Pool, steps: seq<Step>)
    requires |p.results| == |txids|
    decreases |steps|
  {
    steps == [] || (Enabled(p, steps[0]) && Interleaving(txids, After(txids, p, steps[0]), steps[1..]))
  }

  function End(txids: seq<string>, p: Pool, steps: seq<Step>): Pool
    requires |p.results| == |txids| && Interleaving(txids, p, steps)
    decreases |steps|
  {
    if steps == [] then p else End(txids, After(txids, p, steps[0]), steps[1..])
  }

  /** The work that is left: every step uses some of it up. */
  function Remaining(txids: seq<string>, p: Pool): int {
    3 * (|txids| - p.next) + Load(p.workers)
  }

  function Load(workers: seq<Worker>): nat {
    if workers == [] then 0
    else
      Load(workers[1..]) + match workers[0] case Idle => 1 case Fetching(_) => 2 case _ => 0
  }

  lemma {:induction false} LoadUpdate(workers: seq<Worker>, w: nat, worker: Worker)
    requires w < |workers|
    ensures Load(workers[w := worker]) - Load([worker]) == Load(workers) - Load([workers[w]])
  {
    if w > 0 {
      LoadUpdate(workers[1..], w - 1, worker);
      assert workers[w := worker][1..] == workers[1..][w - 1 := worker];
    } else {
      assert workers[w := worker][1..] == workers[1..];
    }
  }

  lemma {:induction false} RunInv(txids: seq<string>, p: Pool, steps: seq<Step>)
    requires Inv(txids, p) && Interleaving(txids, p, steps)
    ensures Inv(txids, End(txids, p, steps))
    ensures |End(txids, p, steps).workers| == |p.workers|
    ensures |steps| <= Remaining(txids, p) - Remaining(txids, End(txids, p, steps))
    decreases |steps|
  {
    hide Inv;
    InvSizes(txids, p);
    if steps != [] {
      var q := After(txids, p, steps[0]);
      StepInv(txids, p, steps[0]);
      LoadUpdate(p.workers, steps[0].worker, q.workers[steps[0].worker]);
      RunInv(txids, q, steps[1..]);
    }
  }

  lemma InvSizes(txids: seq<string>, p: Pool)
    requires Inv(txids, p)
    ensures |p.results| == |txids| && p.next <= |txids|
  {
  }

  lemma {:induction false} LoadOfStart(n: nat)
    ensures Load(IdleWorkers(n)) == n
  {
    if n > 0 {
      LoadOfStart(n - 1);
      assert IdleWorkers(n)[1..] == IdleWorkers(n - 1);
    }
  }

  lemma {:induction false} CountSplit(results: seq<Option<Item>>)
    requires forall i :: 0 <= i < |results| ==> results[i].Some?
    ensures CountWhere(results, IsHit) + CountWhere(results, NotHit) == |results|
    ensures CountWhere(results, IsOk) + CountWhere(results, NotOk) == |results|
  {
    if results != [] {
      CountSplit(results[..|results| - 1]);
    }
  }

  /** The outcomes with which workers completed the fetch of index i, in order. */
  function Completions(txids: seq<string>, p: Pool, steps: seq<Step>, i: nat): seq<Outcome>
    requires |p.results| == |txids| && Interleaving(txids, p, steps)
    decreases |steps|
  {
    if steps == [] then []
    else
      (if steps[0].Complete? && p.workers[steps[0].worker] == Fetching(i) then [steps[0].outcome] else [])
      + Completions(txids, After(txids, p, steps[0]), steps[1..], i)
  }

  /** What a step does to slot i: nothing, unless it completes the fetch of index i. */
  lemma StepSlot(txids: seq<string>, p: Pool, step: Step, i: nat)
    requires Inv(txids, p) && Enabled(p, step) && i < |txids|
    ensures |After(txids, p, step).results| == |txids|
    ensures if step.Complete? && p.workers[step.worker] == Fetching(i) then
              p.results[i].None? && After(txids, p, step).results[i] == Some(Item(txids[i], step.outcome))
            else After(txids, p, step).results[i] == p.results[i]
  {
    if step.Complete? && p.workers[step.worker] == Fetching(i) {
      assert InFlight(p, i);
    }
  }

  lemma {:induction false} SlotHoldsOutcome(txids: seq<string>, p: Pool, steps: seq<Step>, i: nat)
    requires Inv(txids, p) && Interleaving(txids, p, steps) && i < |txids|
    ensures |p.results| == |End(txids, p, steps).results| == |txids|
    ensures var completions := Completions(txids, p, steps, i);
            if p.results[i].Some? then completions == [] && End(txids, p, steps).results[i] == p.results[i]
            else |completions| <= 1 && End(txids, p, steps).results[i] == if completions == [] then None else Some(Item(txids[i], completions[0]))
    decreases |steps|
  {
    hide Inv, After, Enabled;
    InvSizes(txids, p);
    if steps != [] {
      StepInv(txids, p, steps[0]);
      StepSlot(txids, p, steps[0], i);
      SlotHoldsOutcome(txids, After(txids, p, steps[0]), steps[1..], i);
    }
  }

  /** How many fetches end with such an outcome. */
  function CountCompletions(steps: seq<Step>, p: Outcome -> bool): nat {
    if steps == [] then 0 else (if steps[0].Complete? && p(steps[0].outcome) then 1 else 0) + CountCompletions(steps[1..], p)
  }

  lemma StepCount(txids: seq<string>, p: Pool, step: Step, such: Outcome -> bool)
    requires Inv(txids, p) && Enabled(p, step)
    ensures CountWhere(After(txids, p, step).results, such) == CountWhere(p.results, such) + if step.Complete? && such(step.outcome) then 1 else 0
  {
    hide CountWhere;
    if step.Complete? {
      var index := p.workers[step.worker].index;
      assert InFlight(p, index);
      CountFill(p.results, index, Item(txids[index], step.outcome), such);
    }
  }

  lemma {:induction false} ResultsCounted(txids: seq<string>, p: Pool, steps: seq<Step>, such: Outcome -> bool)
    requires Inv(txids, p) && Interleaving(txids, p, steps)
    ensures |p.results| == |txids| && CountWhere(End(txids, p, steps).results, such) == CountWhere(p.results, such) + CountCompletions(steps, such)
    decreases |steps|
  {
    hide Inv, After, Enabled, CountWhere;
    InvSizes(txids, p);
    if steps != [] {
      StepInv(txids, p, steps[0]);
      StepCount(txids, p, steps[0], such);
      ResultsCounted(txids, After(txids, p, steps[0]), steps[1..], such);
    }
  }

  /**
   In every interleaving slot i is filled exactly when the worker that held index i has completed its fetch, which
   happens at most once, and then it holds the outcome of that fetch. The number of items with an outcome of any
   kind, and with it the counters of the answer, is the number of fetches that ended so.
   */
  lemma EverySlot(txids: seq<string>, workerCount: nat, steps: seq<Step>, i: nat, such: Outcome -> bool)
    requires Interleaving(txids, Start(txids, workerCount), steps) && i < |txids|
    ensures var p := End(txids, Start(txids, workerCount), steps);
            var completions := Completions(txids, Start(txids, workerCount), steps, i);
            && |p.results| == |txids| && |completions| <= 1
            && p.results[i] == (if completions == [] then None else Some(Item(txids[i], completions[0])))
            && CountWhere(p.results, such) == CountCompletions(steps, such)
            && p.cacheHit == CountCompletions(steps, IsHit) && p.cacheMiss == CountCompletions(steps, NotHit)
  {
    hide CountWhere, Interleaving, End, Completions, CountCompletions;
    var start := Start(txids, workerCount);
    StartInv(txids, workerCount);
    RunInv(txids, start, steps);
    SlotHoldsOutcome(txids, start, steps, i);
    CountNone(|txids|, such);
    CountNone(|txids|, IsHit);
    CountNone(|txids|, NotHit);
    ResultsCounted(txids, start, steps, such);
    ResultsCounted(txids, start, steps, IsHit);
    ResultsCounted(txids, start, steps, NotHit);
  }

  /**
   In every interleaving each index is claimed at most once, in order, and the run ends after at most
   3 * |txids| + workerCount steps. When every worker has finished, every index has been claimed, slot i
   holds an item for txid i with no holes, and the counters add up to the number of txids.
   */
  lemma EveryInterleaving(txids: seq<string>, workerCount: nat, steps: seq<Step>)
    requires Interleaving(txids, Start(txids, workerCount), steps)
    ensures var p := End(txids, Start(txids, workerCount), steps);
            && p.claims == seq(p.next, i => i) && p.next <= |txids| == |p.results|
            && |steps| <= 3 * |txids| + workerCount
            && (forall i :: 0 <= i < |p.results| && p.results[i].Some? ==> p.results[i].value.txid == txids[i])
    ensures var p := End(txids, Start(txids, workerCount), steps);
            (workerCount > 0 || txids == []) && (forall w :: 0 <= w < |p.workers| ==> p.workers[w].Finished?) ==>
              && p.next == |p.results| == |txids|
              && (forall i :: 0 <= i < |txids| ==> p.results[i].Some?)
              && CountWhere(p.results, IsOk) + CountWhere(p.results, NotOk) == |txids|
              && p.cacheHit + p.cacheMiss == |txids| && p.cacheHit == CountWhere(p.results, IsHit)
  {
    hide CountWhere, Interleaving, End;
    var start := Start(txids, workerCount);
    var p := End(txids, start, steps);
    StartInv(txids, workerCount);
    RunInv(txids, start, steps);
    LoadOfStart(workerCount);
    if (workerCount > 0 || txids == []) && (forall w :: 0 <= w < |p.workers| ==> p.workers[w].Finished?) {
      assert |p.workers| == workerCount;
      assert workerCount > 0 ==> p.workers[0].Finished?;
      forall i | 0 <= i < |txids|
        ensures p.results[i].Some?
      {
        assert !AnyThrew(p) && !InFlight(p, i);
      }
      CountSplit(p.results);
    }
  }

  /** Until every worker has finished or thrown, some worker can take a step. */
  lemma NeverStuck(txids: seq<string>, p: Pool, w: nat)
    requires Inv(txids, p) && w < |p.workers| && !p.workers[w].Finished? && !p.workers[w].Threw?
    ensures exists step :: Enabled(p, step)
  {
    if p.workers[w].Idle? {
      assert Enabled(p, Claim(w));
    } else {
      assert Enabled(p, Complete(w, Missing("", "")));
    }
  }

  // ---------- The pool of the batch handler ----------

  class BatchPool {
    const txids: seq<string>
    var nextIndex: nat
    var workers: seq<Worker>
    const results: array<Option<Item>>
    var cacheHit: nat
    var cacheMiss: nat
    ghost var claims: seq<nat>

    constructor (txids: seq<string>, concurrency: nat)
      ensures this.txids == txids && fresh(results)
      ensures View() == Start(txids, if concurrency < |txids| then concurrency else |txids|)
    {
      this.txids := txids;
      nextIndex, cacheHit, cacheMiss, claims := 0, 0, 0, [];
      var workerCount := if concurrency < |txids| then concurrency else |txids|;
      workers := IdleWorkers(workerCount);
      results := new Option<Item>[|txids|](i => None);
    }

    ghost function View(): Pool
      reads this, results
    {
      Pool(nextIndex, workers, results[..], cacheHit, cacheMiss, claims)
    }

    /** The loop head of a worker: take the next index or finish. */
    method TakeNext(w: nat)
      requires Enabled(View(), Claim(w)) && results.Length == |txids|
      modifies this
      ensures View() == After(txids, old(View()), Claim(w))
    {
      if nextIndex < |txids| {
        workers := workers[w := Fetching(nextIndex)];
        claims := claims + [nextIndex];
        nextIndex := nextIndex + 1;
      } else {
        workers := workers[w := Finished];
      }
    }

    /** The rest of the loop body, after the awaited fetch. */
    method Store(w: nat, outcome: Outcome)
      requires Enabled(View(), Complete(w, outcome)) && results.Length == |txids|
      modifies this, results
      ensures View() == After(txids, old(View()), Complete(w, outcome))
    {
      var index := workers[w].index;
      if outcome.Hit? {
        cacheHit := cacheHit + 1;
      } else {
        cacheMiss := cacheMiss + 1;
      }
      results[index] := Some(Item(txids[index], outcome));
      workers := workers[w := Idle];
    }
  }

  // ---------- The request of the batch handler ----------

  datatype JsonItem = JsonString(text: string) | JsonOther

  datatype BatchError = EmptyBatch | TooLarge | NotAString | InvalidTxid(text: string)

  function NormalizeTxid(text: string): string {
    Lower(Trim(text))
  }

  predicate IsHex(c: char) {
    IsDigit(c) || 'a' <= c <= 'f' || 'A' <= c <= 'F'
  }

  predicate IsValidTxid(text: string) {
    |text| == 64 && forall i :: 0 <= i < |text| ==> IsHex(text[i])
  }

  function BadItem(item: JsonItem): bool {
    item.JsonOther? || !IsValidTxid(NormalizeTxid(item.text))
  }

  function Txids(items: seq<JsonItem>): seq<string>
    requires forall i :: 0 <= i < |items| ==> items[i].JsonString?
  {
    seq(|items|, i requires 0 <= i < |items| => NormalizeTxid(items[i].text))
  }

  /** A transaction id: 64 hexadecimal digits in small letters. */
  predicate IsTxid(t: string) {
    |t| == 64 && forall i :: 0 <= i < |t| ==> IsDigit(t[i]) || 'a' <= t[i] <= 'f'
  }

  ghost predicate NamesTxid(text: string) {
    exists t :: IsTxid(t) && Spells(text, t)
  }

  lemma TxidIff(text: string)
    ensures IsValidTxid(NormalizeTxid(text)) ==> IsTxid(NormalizeTxid(text))
    ensures forall t :: IsTxid(t) ==> IsValidTxid(t) && (NormalizeTxid(text) == t <==> Spells(text, t))
  {
    hide Trim, Spells;
    forall t | IsTxid(t)
      ensures NormalizeTxid(text) == t <==> Spells(text, t)
    {
      LowerTrimIs(text, t);
    }
  }

  /**
   An item is accepted exactly when it spells a transaction id, in small or capital letters and with blanks around it
   or not. An accepted batch asks for the ids that its items spell, each once.
   */
  lemma BatchTxids(items: seq<JsonItem>)
    ensures forall i :: 0 <= i < |items| ==> (!BadItem(items[i]) <==> items[i].JsonString? && NamesTxid(items[i].text))
    ensures (forall i :: 0 <= i < |items| ==> !BadItem(items[i])) ==>
              forall t :: t in Distinct(Txids(items)) <==> IsTxid(t) && exists i :: 0 <= i < |items| && Spells(items[i].text, t)
  {
    hide Spells, NormalizeTxid, IsValidTxid, IsTxid;
    forall i | 0 <= i < |items| && items[i].JsonString?
      ensures !BadItem(items[i]) <==> NamesTxid(items[i].text)
      ensures forall t :: IsTxid(t) ==> (NormalizeTxid(items[i].text) == t <==> Spells(items[i].text, t))
      ensures !BadItem(items[i]) ==> IsTxid(NormalizeTxid(items[i].text))
    {
      TxidIff(items[i].text);
    }
    if forall i :: 0 <= i < |items| ==> !BadItem(items[i]) {
      forall t
        ensures t in Txids(items) <==> IsTxid(t) && exists i :: 0 <= i < |items| && Spells(items[i].text, t)
      {
        if t in Txids(items) {
          var i :| 0 <= i < |items| && Txids(items)[i] == t;
          assert NormalizeTxid(items[i].text) == t;
        }
        if i :| IsTxid(t) && 0 <= i < |items| && Spells(items[i].text, t) {
          assert Txids(items)[i] == t;
        }
      }
    }
  }

  /** Item i is the first one that is not accepted. */
  predicate FirstBad(items: seq<JsonItem>, i: nat) {
    i < |items| && BadItem(items[i]) && forall j :: 0 <= j < i ==> !BadItem(items[j])
  }

  lemma NoTxids()
    ensures Distinct(Txids([])) == []
  {
  }

  lemma TxidsPush(items: seq<JsonItem>, i: nat)
    requires i < |items| && forall j :: 0 <= j <= i ==> items[j].JsonString?
    ensures var before, txid := Distinct(Txids(items[..i])), NormalizeTxid(items[i].text);
            Distinct(Txids(items[..i + 1])) == if txid in before then before else before + [txid]
  {
    hide NormalizeTxid;
    assert Txids(items[..i + 1])[..i] == Txids(items[..i]);
  }

  /** The request loop: the first bad item decides the error; otherwise each txid is kept once, in order of first occurrence. */
  method ReadBatch(items: seq<JsonItem>, batchMax: nat) returns (r: Result<seq<string>, BatchError>)
    ensures items == [] ==> r == Err(EmptyBatch)
    ensures |items| > batchMax && items != [] ==> r == Err(TooLarge)
    ensures 0 < |items| <= batchMax && (exists i :: 0 <= i < |items| && BadItem(items[i])) ==>
              exists i: nat :: FirstBad(items, i) && r == Err(if items[i].JsonOther? then NotAString else InvalidTxid(items[i].text))
    ensures 0 < |items| <= batchMax && (forall i :: 0 <= i < |items| ==> !BadItem(items[i])) ==>
              r == Ok(Distinct(Txids(items))) && r.value != []
  {
    hide IsValidTxid, NormalizeTxid, Distinct;
    if |items| < 1 {
      return Err(EmptyBatch);
    }
    if |items| > batchMax {
      return Err(TooLarge);
    }
    var normalized: seq<string> := [];
    NoTxids();
    for i := 0 to |items|
      invariant forall j :: 0 <= j < i ==> !BadItem(items[j])
      invariant normalized == Distinct(Txids(items[..i]))
    {
      assert BadItem(items[i]) ==> FirstBad(items, i);
      if items[i].JsonOther? {
        return Err(NotAString);
      }
      var txid := NormalizeTxid(items[i].text);
      if !IsValidTxid(txid) {
        return Err(InvalidTxid(items[i].text));
      }
      TxidsPush(items, i);
      if txid !in normalized {
        normalized := normalized + [txid];
      }
    }
    assert items[..|items|] == items;
    assert Txids(items)[0] in normalized;
    return Ok(normalized);
  }
}
