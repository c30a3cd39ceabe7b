/**
 The per-key rate limiter of services/trade-api/src/exchanges/nestex.ts: a chain of promises lets one
 caller at a time wait out the backoff and the minimum interval before it stamps its call. Code between
 awaits is one atomic step with one clock reading; the clock never runs backwards and a sleep never
 ends early.
 */
module RateLimiter {
  import opened Wrappers
  import opened Arith

  datatype Config = Config(minInterval: int, backoffMs: int)

  /** minInterval is never configured below five seconds. */
  predicate ValidConfig(c: Config) {
    c.minInterval >= 5000
  }

  /**
   Where a caller stands: awaiting its predecessor, in the first sleep with the time its turn began,
   in the second sleep, or past its stamp.
   */
  datatype Phase = Queued | Backoff(began: int, wake: int) | Interval(wake: int) | Done(stamp: int)

  /** `deadline` is the backoff deadline that stood when the turn began. */
  datatype Caller = Caller(phase: Phase, deadline: int)

  /** The chain of one key, with its entries in lastCallAt and rateLimitUntil (0 when missing). */
  datatype Key = Key(callers: seq<Caller>, last: int, until: int)

  const NEW_KEY := Key([], 0, 0)

  datatype Step = Enter | Begin(i: nat) | Wake(i: nat) | Note(retryAfterMs: Option<int>)

  /** The promise that caller i awaits: its predecessor's promise, then its predecessor's release. */
  predicate Resolved(callers: seq<Caller>, i: nat)
    requires i <= |callers|
  {
    i == 0 || (Resolved(callers, i - 1) && callers[i - 1].phase.Done?)
  }

  predicate Enabled(k: Key, step: Step, clock: int) {
    match step
    case Enter => true
    case Begin(i) => i < |k.callers| && k.callers[i].phase.Queued? && Resolved(k.callers, i)
    case Wake(i) =>
      && i < |k.callers|
      && (k.callers[i].phase.Backoff? || k.callers[i].phase.Interval?)
      && k.callers[i].phase.wake <= clock
    case Note(_) => true
  }

  /** The part after the backoff: `began` is stale when the first sleep took place. */
  function CheckInterval(c: Config, k: Key, i: nat, began: int, deadline: int, clock: int): Key
    requires i < |k.callers|
  {
    var elapsed := began - k.last;
    if elapsed < c.minInterval then
      k.(callers := k.callers[i := Caller(Interval(clock + (c.minInterval - elapsed)), deadline)])
    else
      k.(callers := k.callers[i := Caller(Done(clock), deadline)], last := clock)
  }

  function After(c: Config, k: Key, step: Step, clock: int): Key
    requires Enabled(k, step, clock)
  {
    match step
    case Enter => k.(callers := k.callers + [Caller(Queued, 0)])
    case Begin(i) =>
      if k.until > clock then
        k.(callers := k.callers[i := Caller(Backoff(clock, clock + (k.until - clock)), k.until)])
      else CheckInterval(c, k, i, clock, k.until, clock)
    case Wake(i) =>
      var caller := k.callers[i];
      if caller.phase.Backoff? then CheckInterval(c, k, i, caller.phase.began, caller.deadline, clock)
      else k.(callers := k.callers[i := Caller(Done(clock), caller.deadline)], last := clock)
    case Note(retryAfterMs) =>
      var ms := if retryAfterMs.Some? && retryAfterMs.value > 0 then retryAfterMs.value else c.backoffMs;
      if clock + ms > k.until then k.(until := clock + ms) else k
  }

  // ---------- What every step keeps ----------

  /** Turns are taken one after the other, in the order of arrival. */
  predicate InTurn(callers: seq<Caller>) {
    forall i, j :: 0 <= i < j < |callers| && !callers[j].phase.Queued? ==> callers[i].phase.Done?
  }

  predicate CallerInv(c: Config, k: Key, caller: Caller, clock: int) {
    match caller.phase
    case Queued => true
    case Backoff(began, wake) => began <= clock && wake >= caller.deadline
    case Interval(wake) => wake >= caller.deadline && wake >= k.last + c.minInterval
    case Done(stamp) => caller.deadline <= stamp <= k.last <= clock
  }

  predicate Spaced(c: Config, callers: seq<Caller>) {
    forall i :: 0 <= i < |callers| - 1 && callers[i].phase.Done? && callers[i + 1].phase.Done?
             ==> callers[i + 1].phase.stamp >= callers[i].phase.stamp + c.minInterval
  }

  predicate Inv(c: Config, k: Key, clock: int) {
    && InTurn(k.callers)
    && (forall i :: 0 <= i < |k.callers| ==> CallerInv(c, k, k.callers[i], clock))
    && Spaced(c, k.callers)
  }

  lemma {:induction false} ResolvedMeans(callers: seq<Caller>, i: nat)
    requires i <= |callers|
    ensures Resolved(callers, i) <==> forall j :: 0 <= j < i ==> callers[j].phase.Done?
  {
    if i > 0 {
      ResolvedMeans(callers, i - 1);
    }
  }

  /** Taking the stamp of the caller whose turn it is. */
  lemma StampInv(c: Config, k: Key, i: nat, deadline: int, clock: int)
    requires Inv(c, k, clock) && i < |k.callers| && !k.callers[i].phase.Done?
    requires forall j :: 0 <= j < i ==> k.callers[j].phase.Done?
    requires clock >= deadline && clock >= k.last + c.minInterval && ValidConfig(c)
    ensures Inv(c, k.(callers := k.callers[i := Caller(Done(clock), deadline)], last := clock), clock)
  {
  }

  /** Sleeping towards a wake-up time that respects deadline and interval. */
  lemma SleepInv(c: Config, k: Key, i: nat, caller: Caller, clock: int)
    requires Inv(c, k, clock) && i < |k.callers| && !k.callers[i].phase.Done?
    requires forall j :: 0 <= j < i ==> k.callers[j].phase.Done?
    requires caller.phase.Backoff? || caller.phase.Interval?
    requires CallerInv(c, k, caller, clock)
    ensures Inv(c, k.(callers := k.callers[i := caller]), clock)
  {
  }

  lemma IntervalInv(c: Config, k: Key, i: nat, began: int, deadline: int, clock: int)
    requires Inv(c, k, clock) && i < |k.callers| && !k.callers[i].phase.Done? && ValidConfig(c)
    requires forall j :: 0 <= j < i ==> k.callers[j].phase.Done?
    requires began <= clock && deadline <= clock
    ensures Inv(c, CheckInterval(c, k, i, began, deadline, clock), clock)
  {
  }

  lemma StepInv(c: Config, k: Key, step: Step, clock: int)
    requires Inv(c, k, clock) && Enabled(k, step, clock) && ValidConfig(c)
    ensures Inv(c, After(c, k, step, clock), clock)
  {
    match step {
      case Enter =>
      case Note(_) =>
        forall i | 0 <= i < |k.callers|
          ensures CallerInv(c, After(c, k, step, clock), k.callers[i], clock)
        {
          assert CallerInv(c, k, k.callers[i], clock);
        }
      case Begin(i) =>
        ResolvedMeans(k.callers, i);
        if k.until > clock {
          SleepInv(c, k, i, Caller(Backoff(clock, clock + (k.until - clock)), k.until), clock);
        } else {
          IntervalInv(c, k, i, clock, k.until, clock);
        }
      case Wake(i) =>
        var caller := k.callers[i];
        assert CallerInv(c, k, caller, clock);
        assert forall j :: 0 <= j < i ==> k.callers[j].phase.Done?;
        if caller.phase.Backoff? {
          IntervalInv(c, k, i, caller.phase.began, caller.deadline, clock);
        } else {
          StampInv(c, k, i, caller.deadline, clock);
        }
    }
  }

  // ---------- Runs over all keys ----------

  datatype Event = On(key: string, step: Step) | Tick(ms: nat)

  datatype State = State(keys: map<string, Key>, clock: int)

  function KeyOf(s: State, key: string): Key {
    if key in s.keys then s.keys[key] else NEW_KEY
  }

  function Next(c: Config, s: State, e: Event): State
    requires e.On? ==> Enabled(KeyOf(s, e.key), e.step, s.clock)
  {
    match e
    case On(key, step) => s.(keys := s.keys[key := After(c, KeyOf(s, key), step, s.clock)])
    case Tick(ms) => s.(clock := s.clock + ms)
  }

  predicate Possible(c: Config, s: State, events: seq<Event>)
    decreases |events|
  {
    events == [] ||
    ((events[0].On? ==> Enabled(KeyOf(s, events[0].key), events[0].step, s.clock)) && Possible(c, Next(c, s, events[0]), events[1..]))
  }

  function End(c: Config, s: State, events: seq<Event>): State
    requires Possible(c, s, events)
    decreases |events|
  {
    if events == [] then s else End(c, Next(c, s, events[0]), events[1..])
  }

  predicate AllInv(c: Config, s: State) {
    forall key :: key in s.keys ==> Inv(c, s.keys[key], s.clock)
  }

  lemma NextInv(c: Config, s: State, e: Event)
    requires AllInv(c, s) && ValidConfig(c) && (e.On? ==> Enabled(KeyOf(s, e.key), e.step, s.clock))
    ensures AllInv(c, Next(c, s, e))
  {
    hide After;
    if e.On? {
      NewKeyInv(c, s.clock);
      StepInv(c, KeyOf(s, e.key), e.step, s.clock);
      hide Inv;
    } else {
      forall key | key in s.keys
        ensures Inv(c, s.keys[key], s.clock + e.ms)
      {
        forall i | 0 <= i < |s.keys[key].callers|
          ensures CallerInv(c, s.keys[key], s.keys[key].callers[i], s.clock + e.ms)
        {
          assert CallerInv(c, s.keys[key], s.keys[key].callers[i], s.clock);
        }
      }
    }
  }

  lemma NewKeyInv(c: Config, clock: int)
    ensures Inv(c, NEW_KEY, clock)
  {
  }

  lemma {:induction false} RunInv(c: Config, s: State, events: seq<Event>)
    requires AllInv(c, s) && ValidConfig(c) && Possible(c, s, events)
    ensures AllInv(c, End(c, s, events))
    decreases |events|
  {
    hide AllInv;
    if events != [] {
      NextInv(c, s, events[0]);
      RunInv(c, Next(c, s, events[0]), events[1..]);
    }
  }

  /** Stamps i and j of a key are at least j - i intervals apart. */
  lemma {:induction false} StampsApart(c: Config, k: Key, i: nat, j: nat)
    requires InTurn(k.callers) && Spaced(c, k.callers) && i <= j < |k.callers| && k.callers[j].phase.Done? && k.callers[i].phase.Done?
    ensures k.callers[j].phase.stamp >= k.callers[i].phase.stamp + (j - i) * c.minInterval
    decreases j
  {
    if i < j {
      assert k.callers[j - 1].phase.Done?;
      StampsApart(c, k, i, j - 1);
      MulAdd(j - 1 - i, 1, c.minInterval);
    }
  }

  /**
   On every run, per key: callers pass in order of arrival and one at a time, their stamps are at least
   the minimum interval apart, and no stamp precedes the backoff deadline that stood when the turn began,
   although the interval is computed from a time taken before the first sleep.
   */
  lemma EveryRun(c: Config, clock: int, events: seq<Event>, key: string, i: nat, j: nat)
    requires ValidConfig(c) && Possible(c, State(map[], clock), events)
    requires i < j < |KeyOf(End(c, State(map[], clock), events), key).callers|
    ensures var callers := KeyOf(End(c, State(map[], clock), events), key).callers;
            && (!callers[j].phase.Queued? ==> callers[i].phase.Done?)
            && (callers[j].phase.Done? ==>
                  && callers[i].phase.Done? && callers[j].phase.stamp >= callers[j].deadline
                  && callers[j].phase.stamp >= callers[i].phase.stamp + (j - i) * c.minInterval)
  {
    RunInv(c, State(map[], clock), events);
    var k := KeyOf(End(c, State(map[], clock), events), key);
    assert Inv(c, k, End(c, State(map[], clock), events).clock);
    if k.callers[j].phase.Done? {
      assert CallerInv(c, k, k.callers[j], End(c, State(map[], clock), events).clock);
      StampsApart(c, k, i, j);
    }
  }

  function NotedMs(c: Config, retryAfterMs: Option<int>): int {
    if retryAfterMs.Some? && retryAfterMs.value > 0 then retryAfterMs.value else c.backoffMs
  }

  /** The deadlines that the events note for a key. */
  function NotedDeadlines(c: Config, clock: int, events: seq<Event>, key: string): set<int>
    decreases |events|
  {
    if events == [] then {}
    else
      var e := events[0];
      if e.Tick? then NotedDeadlines(c, clock + e.ms, events[1..], key)
      else if e.key == key && e.step.Note? then {clock + NotedMs(c, e.step.retryAfterMs)} + NotedDeadlines(c, clock, events[1..], key)
      else NotedDeadlines(c, clock, events[1..], key)
  }

  /** On every run the deadline of a key is the latest one noted for it, or the one at the start. */
  lemma {:induction false} DeadlineIsLatest(c: Config, s: State, events: seq<Event>, key: string)
    requires Possible(c, s, events)
    ensures var noted := NotedDeadlines(c, s.clock, events, key) + {KeyOf(s, key).until};
            var until := KeyOf(End(c, s, events), key).until;
            until in noted && forall d :: d in noted ==> d <= until
    decreases |events|
  {
    hide Enabled, CheckInterval;
    if events != [] {
      DeadlineIsLatest(c, Next(c, s, events[0]), events[1..], key);
      NextDeadline(c, s, events[0], key);
    }
  }

  lemma NextDeadline(c: Config, s: State, e: Event, key: string)
    requires e.On? ==> Enabled(KeyOf(s, e.key), e.step, s.clock)
    ensures var until := KeyOf(Next(c, s, e), key).until;
            if e.On? && e.key == key && e.step.Note? then
              var d := s.clock + NotedMs(c, e.step.retryAfterMs);
              until == if d > KeyOf(s, key).until then d else KeyOf(s, key).until
            else until == KeyOf(s, key).until
  {
  }

  /** The caller's turn has not begun, or it goes by a deadline of at least `bound`. */
  predicate HeldBack(k: Key, i: nat, bound: int) {
    k.until >= bound && (i < |k.callers| && !k.callers[i].phase.Queued? ==> k.callers[i].deadline >= bound)
  }

  lemma {:induction false} HeldBackKept(c: Config, s: State, events: seq<Event>, key: string, i: nat, bound: int)
    requires HeldBack(KeyOf(s, key), i, bound) && Possible(c, s, events)
    ensures HeldBack(KeyOf(End(c, s, events), key), i, bound)
    decreases |events|
  {
    if events != [] {
      HeldBackKept(c, Next(c, s, events[0]), events[1..], key, i, bound);
    }
  }

  /** Once a backoff is noted, on every further run no caller whose turn has yet to begin stamps before it is over. */
  lemma NotedBackoffKept(c: Config, s: State, key: string, retryAfterMs: Option<int>, events: seq<Event>, i: nat)
    requires AllInv(c, s) && ValidConfig(c) && Possible(c, Next(c, s, On(key, Note(retryAfterMs))), events)
    requires i < |KeyOf(s, key).callers| ==> KeyOf(s, key).callers[i].phase.Queued?
    ensures var callers := KeyOf(End(c, Next(c, s, On(key, Note(retryAfterMs))), events), key).callers;
            i < |callers| && callers[i].phase.Done? ==> callers[i].phase.stamp >= s.clock + NotedMs(c, retryAfterMs)
  {
    var note := On(key, Note(retryAfterMs));
    var ms := NotedMs(c, retryAfterMs);
    var t := Next(c, s, note);
    NextInv(c, s, note);
    RunInv(c, t, events);
    HeldBackKept(c, t, events, key, i, s.clock + ms);
    var end := End(c, t, events);
    if i < |KeyOf(end, key).callers| {
      assert CallerInv(c, KeyOf(end, key), KeyOf(end, key).callers[i], end.clock);
    }
  }

  // ---------- A backoff that is noted while a caller sleeps ----------

  predicate Asleep(k: Key, i: nat) {
    i < |k.callers| && (k.callers[i].phase.Backoff? || k.callers[i].phase.Interval?)
  }

  /** When a sleeping caller can stamp at the earliest: after its sleep, and after the second one that may follow. */
  function Earliest(c: Config, k: Key, i: nat, clock: int): int
    requires Asleep(k, i)
  {
    var phase := k.callers[i].phase;
    var awake := if phase.wake > clock then phase.wake else clock;
    awake + if phase.Backoff? && phase.began - k.last < c.minInterval then c.minInterval - (phase.began - k.last) else 0
  }

  /** The caller has begun its turn and stamps no earlier than `bound`. */
  predicate StampsFrom(c: Config, k: Key, i: nat, bound: int, clock: int) {
    && i < |k.callers| && !k.callers[i].phase.Queued?
    && (k.callers[i].phase.Done? ==> k.callers[i].phase.stamp >= bound)
    && (Asleep(k, i) ==> Earliest(c, k, i, clock) >= bound)
  }

  lemma StepFrom(c: Config, k: Key, step: Step, i: nat, bound: int, clock: int)
    requires Inv(c, k, clock) && Enabled(k, step, clock) && StampsFrom(c, k, i, bound, clock)
    ensures StampsFrom(c, After(c, k, step, clock), i, bound, clock)
  {
    if step.Begin? {
      ResolvedMeans(k.callers, step.i);
    }
  }

  lemma {:induction false} RunFrom(c: Config, s: State, events: seq<Event>, key: string, i: nat, bound: int)
    requires AllInv(c, s) && ValidConfig(c) && Possible(c, s, events) && key in s.keys
    requires StampsFrom(c, s.keys[key], i, bound, s.clock)
    ensures key in End(c, s, events).keys && StampsFrom(c, End(c, s, events).keys[key], i, bound, End(c, s, events).clock)
    decreases |events|
  {
    hide Inv, StampsFrom, After, Enabled;
    if events != [] {
      var e := events[0];
      var next := Next(c, s, e);
      NextInv(c, s, e);
      if e.On? && e.key == key {
        StepFrom(c, s.keys[key], e.step, i, bound, s.clock);
      } else if e.Tick? {
        LaterFrom(c, s.keys[key], i, bound, s.clock, next.clock);
      } else {
        assert next.keys[key] == s.keys[key];
      }
      RunFrom(c, next, events[1..], key, i, bound);
    }
  }

  lemma LaterFrom(c: Config, k: Key, i: nat, bound: int, clock: int, later: int)
    requires StampsFrom(c, k, i, bound, clock) && clock <= later
    ensures StampsFrom(c, k, i, bound, later)
  {
  }

  /** The run in which a caller sleeps as short as it may. */
  function ShortestSleep(c: Config, k: Key, key: string, i: nat, clock: int): seq<Event>
    requires Asleep(k, i)
  {
    var phase := k.callers[i].phase;
    var wait := if phase.wake > clock then phase.wake - clock else 0;
    var more := if phase.Backoff? && phase.began - k.last < c.minInterval then c.minInterval - (phase.began - k.last) else 0;
    [Tick(wait), On(key, Wake(i))] + if more > 0 then [Tick(more), On(key, Wake(i))] else []
  }

  lemma ShortestStamp(c: Config, s: State, key: string, i: nat)
    requires key in s.keys && Asleep(s.keys[key], i)
    ensures var events := ShortestSleep(c, s.keys[key], key, i, s.clock);
            && Possible(c, s, events) && key in End(c, s, events).keys && i < |End(c, s, events).keys[key].callers|
            && End(c, s, events).keys[key].callers[i].phase == Done(Earliest(c, s.keys[key], i, s.clock))
  {
    var k := s.keys[key];
    var events := ShortestSleep(c, k, key, i, s.clock);
    var s1 := Next(c, s, events[0]);
    var s2 := Next(c, s1, events[1]);
    Unroll(c, s, events);
    Unroll(c, s1, events[1..]);
    Unroll(c, s2, events[2..]);
    assert events[1..][1..] == events[2..];
    if |events| == 4 {
      var s3 := Next(c, s2, events[2]);
      var s4 := Next(c, s3, events[3]);
      Unroll(c, s3, events[3..]);
      Unroll(c, s4, events[4..]);
      assert events[2..][1..] == events[3..] && events[3..][1..] == events[4..] == [];
    } else {
      assert events[2..] == [];
    }
  }

  lemma Unroll(c: Config, s: State, events: seq<Event>)
    ensures events == [] ==> Possible(c, s, events) && End(c, s, events) == s
    ensures events != [] && (events[0].On? ==> Enabled(KeyOf(s, events[0].key), events[0].step, s.clock))
            && Possible(c, Next(c, s, events[0]), events[1..]) ==>
              Possible(c, s, events) && End(c, s, events) == End(c, Next(c, s, events[0]), events[1..])
  {
  }

  /**
   A caller that sleeps when a backoff is noted does not look at it. Every run still respects the new deadline
   exactly when the caller could not stamp before it anyway.
   */
  lemma LateBackoffRespectedIff(c: Config, s: State, key: string, i: nat, retryAfterMs: Option<int>)
    requires AllInv(c, s) && ValidConfig(c) && key in s.keys && Asleep(s.keys[key], i)
    ensures var t := Next(c, s, On(key, Note(retryAfterMs)));
            var deadline := s.clock + NotedMs(c, retryAfterMs);
            (forall events: seq<Event> :: Possible(c, t, events) ==>
               var callers := KeyOf(End(c, t, events), key).callers;
               i < |callers| && callers[i].phase.Done? ==> callers[i].phase.stamp >= deadline)
            <==> Earliest(c, s.keys[key], i, s.clock) >= deadline
  {
    hide Inv;
    var note := On(key, Note(retryAfterMs));
    var t := Next(c, s, note);
    var deadline := s.clock + NotedMs(c, retryAfterMs);
    NextInv(c, s, note);
    ShortestStamp(c, t, key, i);
    if Earliest(c, s.keys[key], i, s.clock) >= deadline {
      forall events: seq<Event> | Possible(c, t, events)
        ensures var callers := KeyOf(End(c, t, events), key).callers;
                i < |callers| && callers[i].phase.Done? ==> callers[i].phase.stamp >= deadline
      {
        RunFrom(c, t, events, key, i, deadline);
      }
    }
  }

  // ---------- How long a turn takes ----------

  /** The end of the backoff or now, whichever is later, and what is missing of the interval since the last call. */
  function TurnEnd(c: Config, k: Key, clock: int): int {
    (if k.until > clock then k.until else clock) + (if clock < k.last + c.minInterval then k.last + c.minInterval - clock else 0)
  }

  lemma BegunFrom(c: Config, k: Key, i: nat, clock: int)
    requires Inv(c, k, clock) && ValidConfig(c) && Enabled(k, Begin(i), clock)
    ensures StampsFrom(c, After(c, k, Begin(i), clock), i, TurnEnd(c, k, clock), clock)
    ensures var t := After(c, k, Begin(i), clock);
            if t.callers[i].phase.Done? then t.callers[i].phase.stamp == TurnEnd(c, k, clock)
            else Asleep(t, i) && Earliest(c, t, i, clock) == TurnEnd(c, k, clock)
  {
  }

  /**
   A caller whose turn begins is held up as long as it must be and no longer: no run lets it stamp before its turn's
   end, and a run in which it is woken in time lets it stamp just then.
   */
  lemma TurnTakes(c: Config, s: State, key: string, i: nat) returns (quick: seq<Event>)
    requires AllInv(c, s) && ValidConfig(c) && key in s.keys && Enabled(s.keys[key], Begin(i), s.clock)
    ensures var t := Next(c, s, On(key, Begin(i)));
            var end := TurnEnd(c, s.keys[key], s.clock);
            && (forall events: seq<Event> :: Possible(c, t, events) ==>
                  var callers := KeyOf(End(c, t, events), key).callers;
                  i < |callers| && callers[i].phase.Done? ==> callers[i].phase.stamp >= end)
            && Possible(c, t, quick) && key in End(c, t, quick).keys && i < |End(c, t, quick).keys[key].callers|
            && End(c, t, quick).keys[key].callers[i].phase == Done(end)
  {
    hide Inv, After, Enabled, CheckInterval, Earliest, TurnEnd;
    var begin := On(key, Begin(i));
    var t := Next(c, s, begin);
    NextInv(c, s, begin);
    BegunFrom(c, s.keys[key], i, s.clock);
    forall events: seq<Event> | Possible(c, t, events)
      ensures var callers := KeyOf(End(c, t, events), key).callers;
              i < |callers| && callers[i].phase.Done? ==> callers[i].phase.stamp >= TurnEnd(c, s.keys[key], s.clock)
    {
      RunFrom(c, t, events, key, i, TurnEnd(c, s.keys[key], s.clock));
    }
    if t.keys[key].callers[i].phase.Done? {
      quick := [];
    } else {
      quick := ShortestSleep(c, t.keys[key], key, i, t.clock);
      ShortestStamp(c, t, key, i);
    }
  }

  lemma {:induction false} Longer(c: Config, s: State, events: seq<Event>, key: string)
    requires Possible(c, s, events)
    ensures |KeyOf(End(c, s, events), key).callers| >= |KeyOf(s, key).callers|
    decreases |events|
  {
    hide Enabled, Next;
    if events != [] {
      NextLonger(c, s, events[0], key);
      Longer(c, Next(c, s, events[0]), events[1..], key);
    }
  }

  lemma NextLonger(c: Config, s: State, e: Event, key: string)
    requires e.On? ==> Enabled(KeyOf(s, e.key), e.step, s.clock)
    ensures |KeyOf(Next(c, s, e), key).callers| >= |KeyOf(s, key).callers|
  {
  }

  lemma {:induction false} Appended(c: Config, s: State, first: seq<Event>, more: seq<Event>)
    requires Possible(c, s, first) && Possible(c, End(c, s, first), more)
    ensures Possible(c, s, first + more) && End(c, s, first + more) == End(c, End(c, s, first), more)
    decreases |first|
  {
    hide Enabled, Next;
    if first == [] {
      assert first + more == more;
    } else {
      Appended(c, Next(c, s, first[0]), first[1..], more);
      assert (first + more)[0] == first[0] && (first + more)[1..] == first[1..] + more;
    }
  }

  predicate Stamped(s: State, key: string, i: nat) {
    key in s.keys && i < |s.keys[key].callers| && s.keys[key].callers[i].phase.Done?
  }

  /** The chain never jams: from every state that keeps the invariant each caller in it can still get to its stamp. */
  lemma {:induction false} EveryCallerCanStamp(c: Config, s: State, key: string, i: nat) returns (events: seq<Event>)
    requires AllInv(c, s) && ValidConfig(c) && key in s.keys && i < |s.keys[key].callers|
    ensures Possible(c, s, events) && Stamped(End(c, s, events), key, i)
    decreases i
  {
    hide Inv, CallerInv, Spaced, After, Enabled, Earliest;
    events := [];
    if i > 0 {
      events := EveryCallerCanStamp(c, s, key, i - 1);
      Longer(c, s, events, key);
    }
    RunInv(c, s, events);
    var t := End(c, s, events);
    var last := StampNext(c, t, key, i);
    Appended(c, s, events, last);
    events := events + last;
  }

  lemma StampNext(c: Config, s: State, key: string, i: nat) returns (events: seq<Event>)
    requires AllInv(c, s) && ValidConfig(c) && key in s.keys && i < |s.keys[key].callers|
    requires i > 0 ==> s.keys[key].callers[i - 1].phase.Done?
    ensures Possible(c, s, events) && Stamped(End(c, s, events), key, i)
  {
    hide CallerInv, Spaced, After, Earliest;
    var phase := s.keys[key].callers[i].phase;
    if phase.Done? {
      events := [];
    } else if phase.Queued? {
      assert Inv(c, s.keys[key], s.clock);
      ResolvedMeans(s.keys[key].callers, i);
      events := TurnTakes(c, s, key, i);
      events := [On(key, Begin(i))] + events;
      Unroll(c, s, events);
    } else {
      events := ShortestSleep(c, s.keys[key], key, i, s.clock);
      ShortestStamp(c, s, key, i);
    }
  }

  // ---------- A run ----------

  /** Caller 0 calls at 10000 and is told to wait a minute at 10100; caller 1, asleep by then, calls at 15000. */
  const LATE_BACKOFF: seq<Event> := [
    On("k", Enter), On("k", Begin(0)), On("k", Enter), On("k", Begin(1)),
    Tick(100), On("k", Note(Some(60000))), Tick(4900), On("k", Wake(1))]

  const SHORTEST := Config(5000, 5000)

  /** The state after n steps of that run. */
  function LateState(n: nat): State {
    var waiting, first := Caller(Queued, 0), Caller(Done(10000), 0);
    var asleep, second := Caller(Interval(15000), 0), Caller(Done(15000), 0);
    if n == 0 then State(map[], 10000)
    else if n == 1 then State(map["k" := Key([waiting], 0, 0)], 10000)
    else if n == 2 then State(map["k" := Key([first], 10000, 0)], 10000)
    else if n == 3 then State(map["k" := Key([first, waiting], 10000, 0)], 10000)
    else if n == 4 then State(map["k" := Key([first, asleep], 10000, 0)], 10000)
    else if n == 5 then State(map["k" := Key([first, asleep], 10000, 0)], 10100)
    else if n == 6 then State(map["k" := Key([first, asleep], 10000, 70100)], 10100)
    else if n == 7 then State(map["k" := Key([first, asleep], 10000, 70100)], 15000)
    else State(map["k" := Key([first, second], 15000, 70100)], 15000)
  }

  predicate LateLeads(n: nat)
    requires n < |LATE_BACKOFF|
  {
    var s, e := LateState(n), LATE_BACKOFF[n];
    (e.On? ==> Enabled(KeyOf(s, e.key), e.step, s.clock)) && Next(SHORTEST, s, e) == LateState(n + 1)
  }

  lemma FirstCaller()
    ensures LateLeads(0) && LateLeads(1)
  {
    assert [] + [Caller(Queued, 0)] == [Caller(Queued, 0)] && [Caller(Queued, 0)][0 := Caller(Done(10000), 0)] == [Caller(Done(10000), 0)];
    assert Next(SHORTEST, LateState(0), LATE_BACKOFF[0]).keys == LateState(1).keys;
    assert Next(SHORTEST, LateState(1), LATE_BACKOFF[1]).keys == LateState(2).keys;
  }

  lemma SecondCaller()
    ensures LateLeads(2) && LateLeads(3)
  {
    var first, waiting, asleep := Caller(Done(10000), 0), Caller(Queued, 0), Caller(Interval(15000), 0);
    assert [first] + [waiting] == [first, waiting] && [first, waiting][1 := asleep] == [first, asleep];
    assert Next(SHORTEST, LateState(2), LATE_BACKOFF[2]).keys == LateState(3).keys;
    assert Next(SHORTEST, LateState(3), LATE_BACKOFF[3]).keys == LateState(4).keys;
  }

  lemma NotedWhileAsleep()
    ensures LateLeads(4) && LateLeads(5) && LateLeads(6)
  {
    assert Next(SHORTEST, LateState(5), LATE_BACKOFF[5]).keys == LateState(6).keys;
  }

  lemma StampsEarly()
    ensures LateLeads(7)
  {
    var first, asleep, second := Caller(Done(10000), 0), Caller(Interval(15000), 0), Caller(Done(15000), 0);
    assert [first, asleep][1 := second] == [first, second];
    assert Next(SHORTEST, LateState(7), LATE_BACKOFF[7]).keys == LateState(8).keys;
  }

  lemma {:induction false} LateRun(n: nat)
    requires n <= |LATE_BACKOFF|
    ensures Possible(SHORTEST, LateState(n), LATE_BACKOFF[n..])
    ensures End(SHORTEST, LateState(n), LATE_BACKOFF[n..]) == LateState(|LATE_BACKOFF|)
    decreases |LATE_BACKOFF| - n
  {
    hide Possible, End, LateState, Next, Enabled;
    FirstCaller();
    SecondCaller();
    NotedWhileAsleep();
    StampsEarly();
    Unroll(SHORTEST, LateState(n), LATE_BACKOFF[n..]);
    if n < |LATE_BACKOFF| {
      LateRun(n + 1);
      assert LATE_BACKOFF[n..][0] == LATE_BACKOFF[n] && LATE_BACKOFF[n..][1..] == LATE_BACKOFF[n + 1..];
    }
  }

  lemma LateBackoffIgnored()
    ensures Possible(SHORTEST, State(map[], 10000), LATE_BACKOFF)
    ensures var end := End(SHORTEST, State(map[], 10000), LATE_BACKOFF);
            "k" in end.keys && end.keys["k"] == Key([Caller(Done(10000), 0), Caller(Done(15000), 0)], 15000, 70100)
  {
    LateRun(0);
    assert LATE_BACKOFF[0..] == LATE_BACKOFF;
    hide Possible, End;
  }

  // ---------- The limiter's maps ----------

  class Limiter {
    const config: Config
    var chains: map<string, seq<Caller>>
    var lastCallAt: map<string, int>
    var rateLimitUntil: map<string, int>

    constructor (config: Config)
      ensures this.config == config && forall key :: View(key) == NEW_KEY
    {
      this.config := config;
      chains, lastCallAt, rateLimitUntil := map[], map[], map[];
    }

    function View(key: string): Key
      reads this
    {
      Key(if key in chains then chains[key] else [],
          if key in lastCallAt then lastCallAt[key] else 0,
          if key in rateLimitUntil then rateLimitUntil[key] else 0)
    }

    /** enforceRateLimit up to its first await: join the chain. */
    method Join(key: string) returns (i: nat)
      modifies this
      ensures i == |old(View(key)).callers| && View(key) == After(config, old(View(key)), Enter, 0)
      ensures forall other :: other != key ==> View(other) == old(View(other))
    {
      var previous := if key in chains then chains[key] else [];
      i := |previous|;
      chains := chains[key := previous + [Caller(Queued, 0)]];
    }

    /** The rest after `await previous`, up to the next sleep or the stamp. */
    method TakeTurn(key: string, i: nat, now: int)
      requires Enabled(View(key), Begin(i), now)
      modifies this
      ensures View(key) == After(config, old(View(key)), Begin(i), now)
      ensures forall other :: other != key ==> View(other) == old(View(other))
    {
      var backoffUntil := if key in rateLimitUntil then rateLimitUntil[key] else 0;
      if backoffUntil > now {
        var waitMs := backoffUntil - now;
        chains := chains[key := chains[key][i := Caller(Backoff(now, now + waitMs), backoffUntil)]];
      } else {
        AwaitInterval(key, i, now, backoffUntil, now);
      }
    }

    /** The check of the last call, with the `now` of the turn's beginning and the current time. */
    method AwaitInterval(key: string, i: nat, now: int, deadline: int, current: int)
      requires i < |View(key).callers|
      modifies this
      ensures View(key) == CheckInterval(config, old(View(key)), i, now, deadline, current)
      ensures forall other :: other != key ==> View(other) == old(View(other))
    {
      var last := if key in lastCallAt then lastCallAt[key] else 0;
      var elapsed := now - last;
      if elapsed < config.minInterval {
        var waitMs := config.minInterval - elapsed;
        chains := chains[key := chains[key][i := Caller(Interval(current + waitMs), deadline)]];
      } else {
        lastCallAt := lastCallAt[key := current];
        chains := chains[key := chains[key][i := Caller(Done(current), deadline)]];
      }
    }

    method WakeUp(key: string, i: nat, current: int)
      requires Enabled(View(key), Wake(i), current)
      modifies this
      ensures View(key) == After(config, old(View(key)), Wake(i), current)
      ensures forall other :: other != key ==> View(other) == old(View(other))
    {
      var caller := chains[key][i];
      if caller.phase.Backoff? {
        AwaitInterval(key, i, caller.phase.began, caller.deadline, current);
      } else {
        lastCallAt := lastCallAt[key := current];
        chains := chains[key := chains[key][i := Caller(Done(current), caller.deadline)]];
      }
    }

    method NoteRateLimit(key: string, retryAfterMs: Option<int>, now: int)
      modifies this
      ensures View(key) == After(config, old(View(key)), Note(retryAfterMs), now)
      ensures forall other :: other != key ==> View(other) == old(View(other))
    {
      var backoffMs := if retryAfterMs.Some? && retryAfterMs.value > 0 then retryAfterMs.value else config.backoffMs;
      var until := now + backoffMs;
      var current := if key in rateLimitUntil then rateLimitUntil[key] else 0;
      if until > current {
        rateLimitUntil := rateLimitUntil[key := until];
      }
    }
  }
}
