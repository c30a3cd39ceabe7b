/**
 The stale-on-error balance cache (services/trade-api/src/lib/balanceHelper.ts). Calls for one cache key
 do not overlap in time; calls for different keys may. What an exchange answers is an input.
 */
module BalanceCache {
  import opened Wrappers
  import opened Lists

  /** BALANCE_TTL_MS and BALANCE_STALE_OK_MS. */
  datatype Limits = Limits(ttl: int, staleOk: int)

  datatype Assets = Assets(usdt: real, bnb: real, pepew: real)

  const NOTHING := Assets(0.0, 0.0, 0.0)

  datatype Snapshot = Snapshot(assets: Assets, ts: int)

  datatype Failure = Failure(code: string, msg: string)

  /** lastOkTs is 0 when there was no success. */
  datatype Entry = Entry(snapshot: Option<Snapshot>, lastOkTs: int, lastTryTs: int, failCount: nat, lastErr: Option<Failure>)

  datatype Fetch =
    | Live(assets: Assets)
    | Refused(error: Failure)
    | Unparsable(error: Failure)
    | Throws(error: Failure)
    | Unsupported(error: Failure)

  /** A call with its start time and the time at which it ends. */
  datatype Call = Call(key: string, start: int, end: int, useCache: bool, fetch: Fetch)

  datatype Answer = Answer(
    ok: bool,
    assets: Assets,
    stalenessMs: Option<int>,
    degraded: bool,
    failCount: Option<nat>,
    lastOkTs: int,
    error: Option<Failure>)

  /** What a call leaves in the cache and answers, and whether it went to the exchange. */
  datatype Served = Served(entry: Option<Entry>, answer: Answer, tried: bool)

  predicate IsHit(limits: Limits, e: Option<Entry>, c: Call) {
    c.useCache && e.Some? && e.value.snapshot.Some? && c.start - e.value.lastTryTs < limits.ttl
  }

  predicate CanUseCached(limits: Limits, e: Option<Entry>, start: int) {
    e.Some? && e.value.snapshot.Some? && e.value.lastOkTs != 0 && start - e.value.lastOkTs < limits.staleOk
  }

  function FailCount(e: Option<Entry>): nat {
    if e.Some? then e.value.failCount else 0
  }

  function MarkFailure(e: Option<Entry>, now: int, error: Failure): Served {
    var lastOkTs := if e.Some? then e.value.lastOkTs else 0;
    Served(Some(Entry(if e.Some? then e.value.snapshot else None, lastOkTs, now, FailCount(e) + 1, Some(error))),
           Answer(false, NOTHING, None, false, Some(FailCount(e) + 1), lastOkTs, Some(error)), true)
  }

  function Serve(limits: Limits, e: Option<Entry>, c: Call): Served {
    if IsHit(limits, e, c) then
      var snapshot := e.value.snapshot.value;
      Served(e, Answer(true, snapshot.assets, Some(c.start - snapshot.ts), false, None, 0, None), false)
    else if c.fetch.Live? then
      Served(Some(Entry(Some(Snapshot(c.fetch.assets, c.start)), c.start, c.start, 0, None)),
             Answer(true, c.fetch.assets, Some(0), false, Some(0), c.start, None), true)
    else if (c.fetch.Refused? || c.fetch.Unparsable?) && CanUseCached(limits, e, c.start) then
      var snapshot, lastOkTs, failures := e.value.snapshot.value, e.value.lastOkTs, e.value.failCount + 1;
      var error := Some(c.fetch.error);
      Served(Some(Entry(Some(snapshot), lastOkTs, c.start, failures, error)),
             Answer(true, snapshot.assets, Some(c.start - snapshot.ts), true, Some(failures), lastOkTs, error), true)
    else MarkFailure(e, c.end, c.fetch.error)
  }

  // ---------- Histories ----------

  /**
   A call that went to the exchange, the balances it got or the error it ended with, and whether it was answered
   with balances, fresh or old.
   */
  datatype Attempt = Attempt(start: int, end: int, cachedMode: bool, result: Option<Assets>, error: Option<Failure>, answered: bool)

  /** From when on the time to live counts: the start of an answered attempt, the end of a failed one. */
  function TriedAt(a: Attempt): int {
    if a.answered then a.start else a.end
  }

  function LastSuccess(h: seq<Attempt>): (r: Option<Attempt>)
    ensures r.Some? ==> r.value.result.Some?
  {
    if h == [] then None else if h[|h| - 1].result.Some? then Some(h[|h| - 1]) else LastSuccess(h[..|h| - 1])
  }

  function FailuresSince(h: seq<Attempt>): nat {
    if h == [] || h[|h| - 1].result.Some? then 0 else FailuresSince(h[..|h| - 1]) + 1
  }

  function AttemptOf(c: Call, answered: bool): Attempt {
    Attempt(c.start, c.end, c.useCache, if c.fetch.Live? then Some(c.fetch.assets) else None,
            if c.fetch.Live? then None else Some(c.fetch.error), answered)
  }

  datatype State = State(entry: Option<Entry>, history: seq<Attempt>)

  function Next(limits: Limits, s: State, c: Call): State {
    var served := Serve(limits, s.entry, c);
    State(served.entry, if served.tried then s.history + [AttemptOf(c, served.answer.ok)] else s.history)
  }

  function Run(limits: Limits, s: State, calls: seq<Call>): State
    decreases |calls|
  {
    if calls == [] then s else Run(limits, Next(limits, s, calls[0]), calls[1..])
  }

  /** Every call ends after it starts, and starts after the one before has ended. */
  predicate Sequential(calls: seq<Call>, after: int)
    decreases |calls|
  {
    calls == [] || (after <= calls[0].start <= calls[0].end && Sequential(calls[1..], calls[0].end))
  }

  /**
   The entry is what the history makes of it: the last success with its start time, the failures since then
   and the error of the last one, and the time of the last attempt.
   */
  predicate Describes(e: Option<Entry>, h: seq<Attempt>) {
    if h == [] then e.None?
    else
      && e.Some?
      && e.value.snapshot == (match LastSuccess(h) case None => None case Some(a) => Some(Snapshot(a.result.value, a.start)))
      && e.value.lastOkTs == (match LastSuccess(h) case None => 0 case Some(a) => a.start)
      && e.value.failCount == FailuresSince(h) && e.value.lastErr == h[|h| - 1].error
      && e.value.lastTryTs == TriedAt(h[|h| - 1])
  }

  /** Once there is a success, a call that may use the cache goes to the exchange only ttl after the previous attempt. */
  predicate Spaced(limits: Limits, h: seq<Attempt>) {
    forall i :: 0 <= i < |h| - 1 && h[i + 1].cachedMode && LastSuccess(h[..i + 1]).Some? ==> h[i + 1].start - TriedAt(h[i]) >= limits.ttl
  }

  predicate Inv(limits: Limits, s: State) {
    Describes(s.entry, s.history) && Spaced(limits, s.history)
  }

  lemma HistoryAppend(h: seq<Attempt>, a: Attempt)
    ensures LastSuccess(h + [a]) == if a.result.Some? then Some(a) else LastSuccess(h)
    ensures FailuresSince(h + [a]) == if a.result.Some? then 0 else FailuresSince(h) + 1
  {
    assert (h + [a])[..|h|] == h;
  }

  lemma DescribesKept(limits: Limits, s: State, c: Call)
    requires Describes(s.entry, s.history) && c.start <= c.end
    ensures Describes(Next(limits, s, c).entry, Next(limits, s, c).history)
  {
    hide LastSuccess, FailuresSince;
    EmptyHistory();
    HistoryAppend(s.history, AttemptOf(c, Serve(limits, s.entry, c).answer.ok));
  }

  lemma EmptyHistory()
    ensures LastSuccess([]) == None && FailuresSince([]) == 0
  {
  }

  lemma SpacedKept(limits: Limits, s: State, c: Call)
    requires Inv(limits, s)
    ensures Spaced(limits, Next(limits, s, c).history)
  {
    var h, h' := s.history, Next(limits, s, c).history;
    EmptyHistory();
    hide LastSuccess, FailuresSince;
    if h' != h {
      forall i | 0 <= i < |h'| - 1 && h'[i + 1].cachedMode && LastSuccess(h'[..i + 1]).Some?
        ensures h'[i + 1].start - TriedAt(h'[i]) >= limits.ttl
      {
        assert h'[..i + 1] == h[..i + 1];
        if i + 1 == |h| {
          assert h[..i + 1] == h;
        }
      }
    }
  }

  lemma NextKeeps(limits: Limits, s: State, c: Call)
    requires Inv(limits, s) && c.start <= c.end
    ensures Inv(limits, Next(limits, s, c))
  {
    DescribesKept(limits, s, c);
    SpacedKept(limits, s, c);
  }

  /** For all runs of calls on one key, whatever the exchange answers. */
  lemma {:induction false} RunKeeps(limits: Limits, s: State, calls: seq<Call>, after: int)
    requires Inv(limits, s) && Sequential(calls, after)
    ensures Inv(limits, Run(limits, s, calls))
    decreases |calls|
  {
    hide Inv, Next;
    if calls != [] {
      NextKeeps(limits, s, calls[0]);
      RunKeeps(limits, Next(limits, s, calls[0]), calls[1..], calls[0].end);
    }
  }

  lemma EveryRun(limits: Limits, calls: seq<Call>, after: int)
    requires Sequential(calls, after)
    ensures var s := Run(limits, State(None, []), calls);
            Describes(s.entry, s.history) && Spaced(limits, s.history)
  {
    RunKeeps(limits, State(None, []), calls, after);
  }

  // ---------- Answers ----------

  /**
   What a call that goes to the exchange answers. Fresh balances are passed on. When the exchange refuses or
   its answer cannot be read, the last success is served, marked as degraded, exactly if there is one younger
   than staleOk (and not from the epoch itself). Every other failure is answered as one.
   */
  lemma DegradedIff(limits: Limits, calls: seq<Call>, after: int, c: Call)
    requires Sequential(calls, after) && Serve(limits, Run(limits, State(None, []), calls).entry, c).tried
    ensures var s := Run(limits, State(None, []), calls);
            var last := LastSuccess(s.history);
            var answer := Serve(limits, s.entry, c).answer;
            var usable := last.Some? && last.value.start != 0 && c.start - last.value.start < limits.staleOk;
            var served := (c.fetch.Refused? || c.fetch.Unparsable?) && usable;
            if c.fetch.Live? then answer == Answer(true, c.fetch.assets, Some(0), false, Some(0), c.start, None)
            else
              && answer.ok == answer.degraded == served
              && answer.failCount == Some(FailuresSince(s.history) + 1) && answer.error == Some(c.fetch.error)
              && answer.lastOkTs == (if last.Some? then last.value.start else 0)
              && answer.assets == (if served then last.value.result.value else NOTHING)
              && answer.stalenessMs == (if served then Some(c.start - last.value.start) else None)
  {
    hide Run, LastSuccess, FailuresSince, Spaced;
    EveryRun(limits, calls, after);
    EmptyHistory();
  }

  /**
   A call is answered from the cache exactly when it may be, there has been a success, and the last attempt is less than
   the time to live ago. The answer is the last success, and the entry stays as it is.
   */
  lemma HitServesLastSuccess(limits: Limits, calls: seq<Call>, after: int, c: Call)
    requires Sequential(calls, after)
    ensures var s := Run(limits, State(None, []), calls);
            var ok := LastSuccess(s.history);
            var served := Serve(limits, s.entry, c);
            && (!served.tried <==> c.useCache && ok.Some? && s.history != [] && c.start - TriedAt(s.history[|s.history| - 1]) < limits.ttl)
            && (!served.tried ==>
                  && served.entry == s.entry && served.answer.ok && served.answer.assets == ok.value.result.value
                  && served.answer.stalenessMs == Some(c.start - ok.value.start))
  {
    EveryRun(limits, calls, after);
  }

  /** Every call from `now` on that hits this entry is answered with a snapshot younger than staleOk. */
  ghost predicate HitsFresh(limits: Limits, e: Entry, now: int) {
    forall c: Call {:trigger IsHit(limits, Some(e), c)} ::
      IsHit(limits, Some(e), c) && now <= c.start && c.start <= c.end ==> Serve(limits, Some(e), c).answer.stalenessMs.value < limits.staleOk
  }

  /** Hits of an entry stay younger than staleOk exactly when its last try is old enough for the ttl to end first. */
  lemma HitsFreshIff(limits: Limits, e: Entry)
    requires e.snapshot.Some? && e.snapshot.value.ts == e.lastOkTs && limits.ttl > 0
    ensures HitsFresh(limits, e, e.lastTryTs) <==> e.lastTryTs - e.lastOkTs <= limits.staleOk - limits.ttl
  {
    HitsFreshFrom(limits, e, e.lastTryTs);
  }

  lemma HitsFreshFrom(limits: Limits, e: Entry, now: int)
    requires e.snapshot.Some? && e.snapshot.value.ts == e.lastOkTs
    ensures HitsFresh(limits, e, now) <==> now >= e.lastTryTs + limits.ttl || e.lastTryTs - e.lastOkTs <= limits.staleOk - limits.ttl
  {
    var last := Call("", e.lastTryTs + limits.ttl - 1, e.lastTryTs + limits.ttl - 1, true, Live(NOTHING));
    if now < e.lastTryTs + limits.ttl {
      assert IsHit(limits, Some(e), last);
    }
  }

  /** The time at which the last call ends, or `after` when there is none. */
  function LastEnd(calls: seq<Call>, after: int): int {
    if calls == [] then after else calls[|calls| - 1].end
  }

  /**
   On every run, the next hits stay younger than staleOk exactly when none can come any more, or the last try
   followed the last success closely enough: at most staleOk - ttl later. Both times are in the entry.
   */
  lemma NextHitsFreshIff(limits: Limits, calls: seq<Call>, after: int)
    requires Sequential(calls, after)
    requires Run(limits, State(None, []), calls).entry.Some? && Run(limits, State(None, []), calls).entry.value.snapshot.Some?
    ensures var s := Run(limits, State(None, []), calls);
            var last, now := LastSuccess(s.history), LastEnd(calls, after);
            && last.Some?
            && (HitsFresh(limits, s.entry.value, now) <==>
                now >= s.entry.value.lastTryTs + limits.ttl || s.entry.value.lastTryTs - last.value.start <= limits.staleOk - limits.ttl)
  {
    EveryRun(limits, calls, after);
    hide Run, HitsFresh;
    HitsFreshFrom(limits, Run(limits, State(None, []), calls).entry.value, LastEnd(calls, after));
  }

  /**
   The condition does fail: right after a call that failed because the last success had become too old, a call
   that may use the cache answers with just that success, as if nothing were wrong.
   */
  lemma HitsOutliveTheLimit(limits: Limits, key: string, assets: Assets, error: Failure, age: int)
    requires limits.ttl > 0 && age >= limits.staleOk && age >= limits.ttl
    ensures var calls := [Call(key, 1, 1, true, Live(assets)), Call(key, 1 + age, 1 + age, true, Refused(error))];
            && Sequential(calls, 1)
            && var s := Run(limits, State(None, []), calls);
            && !Serve(limits, Run(limits, State(None, []), calls[..1]).entry, calls[1]).answer.ok
            && Serve(limits, s.entry, calls[1]).answer == Answer(true, assets, Some(age), false, None, 0, None)
  {
    var a, b := Call(key, 1, 1, true, Live(assets)), Call(key, 1 + age, 1 + age, true, Refused(error));
    assert [a, b][..1] == [a] && [a, b][1..] == [b] && [a][1..] == [] && [b][1..] == [];
    var s0 := State(None, []);
    var s1 := Next(limits, s0, a);
    assert Run(limits, s0, [a]) == Run(limits, s1, []) == s1;
    assert Run(limits, s0, [a, b]) == Run(limits, s1, [b]) == Run(limits, Next(limits, s1, b), []);
  }

  // ---------- The cache ----------

  function EntryOf(cache: map<string, Entry>, key: string): Option<Entry> {
    if key in cache then Some(cache[key]) else None
  }

  function CacheAfter(limits: Limits, cache: map<string, Entry>, c: Call): map<string, Entry> {
    var entry := Serve(limits, EntryOf(cache, c.key), c).entry;
    if entry.None? then cache else cache[c.key := entry.value]
  }

  function CacheRun(limits: Limits, cache: map<string, Entry>, calls: seq<Call>): map<string, Entry>
    decreases |calls|
  {
    if calls == [] then cache else CacheRun(limits, CacheAfter(limits, cache, calls[0]), calls[1..])
  }

  function CallsFor(calls: seq<Call>, key: string): seq<Call> {
    Filter(calls, (c: Call) => c.key == key)
  }

  /** The calls for other keys do not matter: an entry is what the calls for its own key make of it. */
  lemma {:induction false} KeysIndependent(limits: Limits, cache: map<string, Entry>, calls: seq<Call>, key: string, h: seq<Attempt>)
    ensures EntryOf(CacheRun(limits, cache, calls), key)
            == Run(limits, State(EntryOf(cache, key), h), CallsFor(calls, key)).entry
    decreases |calls|
  {
    hide Serve;
    if calls != [] {
      var c := calls[0];
      var next := CacheAfter(limits, cache, c);
      if c.key == key {
        var s := Next(limits, State(EntryOf(cache, key), h), c);
        NeverForgotten(limits, EntryOf(cache, key), c);
        assert EntryOf(next, key) == s.entry;
        KeysIndependent(limits, next, calls[1..], key, s.history);
        assert CallsFor(calls, key) == [c] + CallsFor(calls[1..], key);
        assert CallsFor(calls, key)[1..] == CallsFor(calls[1..], key);
      } else {
        assert CallsFor(calls, key) == CallsFor(calls[1..], key);
        assert EntryOf(next, key) == EntryOf(cache, key);
        KeysIndependent(limits, next, calls[1..], key, h);
      }
    }
  }

  lemma NeverForgotten(limits: Limits, e: Option<Entry>, c: Call)
    ensures Serve(limits, e, c).entry.Some?
  {
  }

  class Balances {
    const limits: Limits
    var balanceCache: map<string, Entry>

    constructor (limits: Limits)
      ensures this.limits == limits && balanceCache == map[]
    {
      this.limits, balanceCache := limits, map[];
    }

    method MarkFailed(key: string, now: int, error: Failure) returns (a: Answer)
      modifies this
      ensures var r := MarkFailure(old(EntryOf(balanceCache, key)), now, error);
              balanceCache == old(balanceCache)[key := r.entry.value] && a == r.answer
    {
      var cached := EntryOf(balanceCache, key);
      var failCount := FailCount(cached) + 1;
      var snapshot, lastOkTs := None, 0;
      if cached.Some? {
        snapshot, lastOkTs := cached.value.snapshot, cached.value.lastOkTs;
      }
      balanceCache := balanceCache[key := Entry(snapshot, lastOkTs, now, failCount, Some(error))];
      a := Answer(false, NOTHING, None, false, Some(failCount), lastOkTs, Some(error));
    }

    method GetNormalizedBalances(c: Call) returns (a: Answer)
      modifies this
      ensures balanceCache == CacheAfter(limits, old(balanceCache), c)
      ensures a == Serve(limits, old(EntryOf(balanceCache, c.key)), c).answer
    {
      if c.useCache {
        if c.key in balanceCache {
          var cached := balanceCache[c.key];
          if cached.snapshot.Some? && c.start - cached.lastTryTs < limits.ttl {
            assert balanceCache[c.key := cached] == balanceCache;
            return Answer(true, cached.snapshot.value.assets, Some(c.start - cached.snapshot.value.ts), false, None, 0, None);
          }
        }
      }
      var before := EntryOf(balanceCache, c.key);
      if c.fetch.Live? {
        balanceCache := balanceCache[c.key := Entry(Some(Snapshot(c.fetch.assets, c.start)), c.start, c.start, 0, None)];
        return Answer(true, c.fetch.assets, Some(0), false, Some(0), c.start, None);
      }
      var error := c.fetch.error;
      if c.fetch.Refused? || c.fetch.Unparsable? {
        if before.Some? && before.value.snapshot.Some? && before.value.lastOkTs != 0
           && c.start - before.value.lastOkTs < limits.staleOk {
          var snapshot := before.value.snapshot.value;
          var nextFailCount := before.value.failCount + 1;
          balanceCache := balanceCache[c.key := Entry(Some(snapshot), before.value.lastOkTs, c.start, nextFailCount, Some(error))];
          return Answer(true, snapshot.assets, Some(c.start - snapshot.ts), true, Some(nextFailCount), before.value.lastOkTs, Some(error));
        }
      }
      a := MarkFailed(c.key, c.end, error);
    }
  }
}
