/**
 The two concurrency limits: the slot gate of services/wallet-api/src/server.ts and the RPC semaphore
 of pepew-api/pepew-api/src/rpc.ts. Code between awaits is one atomic step, so a run is a sequence of
 acquire and release steps; a caller is named by a number. Both are shown to refine one FIFO counting
 semaphore for every bracketed run, that is, when only holders release.
 */
module Semaphores {
  import opened Wrappers

  datatype Op = Acquire(id: nat) | Release(id: nat)

  /** What a step does for its caller, or for the caller it wakes up. */
  datatype Outcome = Granted | Waiting | Busy | Woken(id: nat) | Freed

  // ---------- The specification ----------

  datatype Fifo = Fifo(holders: set<nat>, queue: seq<nat>)

  /** A missing maximum stands for an unbounded queue. */
  function SpecStep(limit: nat, maxQueue: Option<nat>, s: Fifo, op: Op): (Fifo, Outcome) {
    match op
    case Acquire(id) =>
      if |s.holders| < limit then (s.(holders := s.holders + {id}), Granted)
      else if maxQueue.Some? && |s.queue| >= maxQueue.value then (s, Busy)
      else (s.(queue := s.queue + [id]), Waiting)
    case Release(id) =>
      if s.queue == [] then (s.(holders := s.holders - {id}), Freed)
      else (Fifo(s.holders - {id} + {s.queue[0]}, s.queue[1..]), Woken(s.queue[0]))
  }

  /** Callers are bracketed: a caller asks only when it neither holds nor waits, and only a holder releases. */
  predicate Allowed(s: Fifo, op: Op) {
    match op
    case Acquire(id) => id !in s.holders && id !in s.queue
    case Release(id) => id in s.holders
  }

  predicate Bracketed(limit: nat, maxQueue: Option<nat>, s: Fifo, ops: seq<Op>)
    decreases |ops|
  {
    ops == [] || (Allowed(s, ops[0]) && Bracketed(limit, maxQueue, SpecStep(limit, maxQueue, s, ops[0]).0, ops[1..]))
  }

  function SpecRun(limit: nat, maxQueue: Option<nat>, s: Fifo, ops: seq<Op>): (Fifo, seq<Outcome>)
    decreases |ops|
  {
    if ops == [] then (s, [])
    else
      var (s', out) := SpecStep(limit, maxQueue, s, ops[0]);
      var (end, outs) := SpecRun(limit, maxQueue, s', ops[1..]);
      (end, [out] + outs)
  }

  /** At most `limit` holders, nobody waits while a slot is free, and the queue stays within its maximum. */
  predicate Safe(limit: nat, maxQueue: Option<nat>, s: Fifo) {
    && |s.holders| <= limit
    && (s.queue != [] ==> |s.holders| == limit)
    && (maxQueue.Some? ==> |s.queue| <= maxQueue.value)
    && (forall i :: 0 <= i < |s.queue| ==> s.queue[i] !in s.holders)
    && (forall i, j :: 0 <= i < j < |s.queue| ==> s.queue[i] != s.queue[j])
  }

  lemma StepSafe(limit: nat, maxQueue: Option<nat>, s: Fifo, op: Op)
    requires Safe(limit, maxQueue, s) && Allowed(s, op)
    ensures Safe(limit, maxQueue, SpecStep(limit, maxQueue, s, op).0)
    ensures |SpecStep(limit, maxQueue, s, op).0.holders| ==
            |s.holders| + (if SpecStep(limit, maxQueue, s, op).1.Granted? then 1 else if SpecStep(limit, maxQueue, s, op).1.Freed? then -1 else 0)
    ensures op.Acquire? && s.queue != [] ==> !SpecStep(limit, maxQueue, s, op).1.Granted?
  {
  }

  /** Every bracketed run keeps the limits, from whichever safe state it starts. */
  lemma {:induction false} RunSafe(limit: nat, maxQueue: Option<nat>, s: Fifo, ops: seq<Op>)
    requires Safe(limit, maxQueue, s) && Bracketed(limit, maxQueue, s, ops)
    ensures Safe(limit, maxQueue, SpecRun(limit, maxQueue, s, ops).0)
    ensures |SpecRun(limit, maxQueue, s, ops).1| == |ops|
    decreases |ops|
  {
    if ops != [] {
      StepSafe(limit, maxQueue, s, ops[0]);
      RunSafe(limit, maxQueue, SpecStep(limit, maxQueue, s, ops[0]).0, ops[1..]);
    }
  }

  function Releases(ops: seq<Op>): nat {
    if ops == [] then 0 else (if ops[0].Release? then 1 else 0) + Releases(ops[1..])
  }

  /** First come, first served: the waiter at position k is woken during a run exactly when more than k releases happen. */
  lemma {:induction false} WaiterServed(limit: nat, maxQueue: Option<nat>, s: Fifo, ops: seq<Op>, k: nat)
    requires Safe(limit, maxQueue, s) && Bracketed(limit, maxQueue, s, ops) && k < |s.queue|
    ensures Woken(s.queue[k]) in SpecRun(limit, maxQueue, s, ops).1 <==> Releases(ops) > k
    decreases |ops|
  {
    if ops != [] {
      var (s', out) := SpecStep(limit, maxQueue, s, ops[0]);
      var outs := SpecRun(limit, maxQueue, s', ops[1..]).1;
      StepSafe(limit, maxQueue, s, ops[0]);
      assert SpecRun(limit, maxQueue, s, ops).1 == [out] + outs;
      if ops[0].Acquire? {
        assert s'.queue[k] == s.queue[k];
        WaiterServed(limit, maxQueue, s', ops[1..], k);
      } else if k > 0 {
        assert s'.queue[k - 1] == s.queue[k];
        WaiterServed(limit, maxQueue, s', ops[1..], k - 1);
      } else {
        assert out == Woken(s.queue[0]) && ([out] + outs)[0] == out;
      }
    }
  }

  /** How many callers were let in, at once or into the queue. */
  function Accepted(outs: seq<Outcome>): nat {
    if outs == [] then 0 else (if outs[0].Granted? || outs[0].Waiting? then 1 else 0) + Accepted(outs[1..])
  }

  /** The callers that hold or wait are those let in that have not released. */
  lemma {:induction false} PresentCount(limit: nat, maxQueue: Option<nat>, s: Fifo, ops: seq<Op>)
    requires Safe(limit, maxQueue, s) && Bracketed(limit, maxQueue, s, ops)
    ensures var (end, outs) := SpecRun(limit, maxQueue, s, ops);
            |end.holders| + |end.queue| == |s.holders| + |s.queue| + Accepted(outs) - Releases(ops)
    decreases |ops|
  {
    if ops != [] {
      var (s', out) := SpecStep(limit, maxQueue, s, ops[0]);
      var outs := SpecRun(limit, maxQueue, s', ops[1..]).1;
      StepSafe(limit, maxQueue, s, ops[0]);
      PresentCount(limit, maxQueue, s', ops[1..]);
      assert ([out] + outs)[1..] == outs;
    }
  }

  /** The outcome for a caller when n others hold or wait: a slot, a place in the queue, or a refusal. */
  function Expected(limit: nat, maxQueue: Option<nat>, n: int): Outcome {
    if n < limit then Granted else if maxQueue.Some? && n >= limit + maxQueue.value then Busy else Waiting
  }

  lemma SpecOutcome(limit: nat, maxQueue: Option<nat>, ops: seq<Op>, op: Op)
    requires Bracketed(limit, maxQueue, Fifo({}, []), ops) && Allowed(SpecRun(limit, maxQueue, Fifo({}, []), ops).0, op)
    ensures var (s, outs) := SpecRun(limit, maxQueue, Fifo({}, []), ops);
            var n := Accepted(outs) - Releases(ops);
            && Safe(limit, maxQueue, s)
            && (op.Acquire? ==> SpecStep(limit, maxQueue, s, op).1 == Expected(limit, maxQueue, n))
            && (op.Release? ==> (SpecStep(limit, maxQueue, s, op).1 == Freed <==> n <= limit))
  {
    hide SpecRun, Bracketed, Accepted, Releases;
    RunSafe(limit, maxQueue, Fifo({}, []), ops);
    PresentCount(limit, maxQueue, Fifo({}, []), ops);
  }

  // ---------- The slot gate ----------

  datatype Gate = Gate(active: int, queue: seq<nat>)

  function GateStep(limit: nat, maxQueue: nat, g: Gate, op: Op): (Gate, Outcome) {
    match op
    case Acquire(id) =>
      if g.active < limit then (g.(active := g.active + 1), Granted)
      else if |g.queue| >= maxQueue then (g, Busy)
      else (g.(queue := g.queue + [id]), Waiting)
    case Release(_) =>
      var freed := if g.active - 1 < 0 then 0 else g.active - 1;
      if g.queue == [] then (Gate(freed, []), Freed) else (Gate(freed + 1, g.queue[1..]), Woken(g.queue[0]))
  }

  class SlotGate {
    const limit: nat
    const maxQueue: nat
    var active: int
    var queue: seq<nat>

    constructor (limit: nat, maxQueue: nat)
      ensures this.limit == limit && this.maxQueue == maxQueue && View() == Gate(0, [])
    {
      this.limit, this.maxQueue := limit, maxQueue;
      active, queue := 0, [];
    }

    function View(): Gate
      reads this
    {
      Gate(active, queue)
    }

    /** A caller that is not turned away either holds a slot or has joined the queue. */
    method AcquireSlot(id: nat) returns (out: Outcome)
      modifies this
      ensures (View(), out) == GateStep(limit, maxQueue, old(View()), Acquire(id))
    {
      if active < limit {
        active := active + 1;
        return Granted;
      }
      if |queue| >= maxQueue {
        return Busy;
      }
      queue := queue + [id];
      return Waiting;
    }

    /** Gives the slot back; the first waiter, if any, takes it in the same step. */
    method ReleaseSlot(id: nat) returns (out: Outcome)
      modifies this
      ensures (View(), out) == GateStep(limit, maxQueue, old(View()), Release(id))
    {
      active := if active - 1 < 0 then 0 else active - 1;
      if queue == [] {
        return Freed;
      }
      var next := queue[0];
      queue := queue[1..];
      active := active + 1;
      return Woken(next);
    }
  }

  function GateRun(limit: nat, maxQueue: nat, g: Gate, ops: seq<Op>): (Gate, seq<Outcome>)
    decreases |ops|
  {
    if ops == [] then (g, [])
    else
      var (g', out) := GateStep(limit, maxQueue, g, ops[0]);
      var (end, outs) := GateRun(limit, maxQueue, g', ops[1..]);
      (end, [out] + outs)
  }

  lemma GateStepRefines(limit: nat, maxQueue: nat, s: Fifo, op: Op)
    requires Safe(limit, Some(maxQueue), s) && Allowed(s, op)
    ensures var (s', out) := SpecStep(limit, Some(maxQueue), s, op);
            GateStep(limit, maxQueue, Gate(|s.holders|, s.queue), op) == (Gate(|s'.holders|, s'.queue), out)
  {
  }

  /** The gate refines the specification with its queue maximum. */
  lemma {:induction false} GateRefines(limit: nat, maxQueue: nat, s: Fifo, ops: seq<Op>)
    requires Safe(limit, Some(maxQueue), s) && Bracketed(limit, Some(maxQueue), s, ops)
    ensures GateRun(limit, maxQueue, Gate(|s.holders|, s.queue), ops).1 == SpecRun(limit, Some(maxQueue), s, ops).1
    ensures GateRun(limit, maxQueue, Gate(|s.holders|, s.queue), ops).0
         == Gate(|SpecRun(limit, Some(maxQueue), s, ops).0.holders|, SpecRun(limit, Some(maxQueue), s, ops).0.queue)
    decreases |ops|
  {
    if ops != [] {
      hide GateStep, SpecStep, Safe, Allowed;
      StepSafe(limit, Some(maxQueue), s, ops[0]);
      GateStepRefines(limit, maxQueue, s, ops[0]);
      GateRefines(limit, maxQueue, SpecStep(limit, Some(maxQueue), s, ops[0]).0, ops[1..]);
    }
  }

  // ---------- The RPC semaphore ----------

  datatype Sem = Sem(count: int, tasks: seq<nat>)

  function SemStep(m: Sem, op: Op): (Sem, Outcome) {
    match op
    case Acquire(id) =>
      if m.count > 0 then (m.(count := m.count - 1), Granted) else (m.(tasks := m.tasks + [id]), Waiting)
    case Release(_) =>
      if m.tasks != [] then (m.(tasks := m.tasks[1..]), Woken(m.tasks[0])) else (m.(count := m.count + 1), Freed)
  }

  class Semaphore {
    var count: int
    var tasks: seq<nat>

    constructor (count: int)
      ensures View() == Sem(count, [])
    {
      this.count, tasks := count, [];
    }

    function View(): Sem
      reads this
    {
      Sem(count, tasks)
    }

    method AcquirePermit(id: nat) returns (out: Outcome)
      modifies this
      ensures (View(), out) == SemStep(old(View()), Acquire(id))
    {
      if count > 0 {
        count := count - 1;
        return Granted;
      }
      tasks := tasks + [id];
      return Waiting;
    }

    method ReleasePermit(id: nat) returns (out: Outcome)
      modifies this
      ensures (View(), out) == SemStep(old(View()), Release(id))
    {
      if |tasks| > 0 {
        var next := tasks[0];
        tasks := tasks[1..];
        return Woken(next);
      }
      count := count + 1;
      return Freed;
    }
  }

  function SemRun(m: Sem, ops: seq<Op>): (Sem, seq<Outcome>)
    decreases |ops|
  {
    if ops == [] then (m, [])
    else
      var (m', out) := SemStep(m, ops[0]);
      var (end, outs) := SemRun(m', ops[1..]);
      (end, [out] + outs)
  }

  lemma SemStepRefines(limit: nat, s: Fifo, op: Op)
    requires Safe(limit, None, s) && Allowed(s, op)
    ensures var (s', out) := SpecStep(limit, None, s, op);
            SemStep(Sem(limit - |s.holders|, s.queue), op) == (Sem(limit - |s'.holders|, s'.queue), out)
  {
  }

  /** The semaphore, which counts free permits, refines the same specification without a queue maximum. */
  lemma {:induction false} SemRefines(limit: nat, s: Fifo, ops: seq<Op>)
    requires Safe(limit, None, s) && Bracketed(limit, None, s, ops)
    ensures SemRun(Sem(limit - |s.holders|, s.queue), ops).1 == SpecRun(limit, None, s, ops).1
    ensures SemRun(Sem(limit - |s.holders|, s.queue), ops).0
         == Sem(limit - |SpecRun(limit, None, s, ops).0.holders|, SpecRun(limit, None, s, ops).0.queue)
    decreases |ops|
  {
    if ops != [] {
      hide SemStep, SpecStep, Safe, Allowed;
      StepSafe(limit, None, s, ops[0]);
      SemStepRefines(limit, s, ops[0]);
      SemRefines(limit, SpecStep(limit, None, s, ops[0]).0, ops[1..]);
    }
  }

  /** The two agree step by step on bracketed runs that the gate never turns away. */
  lemma GateIsSemaphore(limit: nat, maxQueue: nat, ops: seq<Op>)
    requires Bracketed(limit, Some(maxQueue), Fifo({}, []), ops)
    requires Busy !in GateRun(limit, maxQueue, Gate(0, []), ops).1
    ensures GateRun(limit, maxQueue, Gate(0, []), ops).1 == SemRun(Sem(limit, []), ops).1
    ensures |GateRun(limit, maxQueue, Gate(0, []), ops).0.queue| <= maxQueue
    ensures GateRun(limit, maxQueue, Gate(0, []), ops).0.active <= limit
    ensures SemRun(Sem(limit, []), ops).0.count >= 0
  {
    var s := Fifo({}, []);
    GateRefines(limit, maxQueue, s, ops);
    NeverBusyUnbounded(limit, maxQueue, s, ops);
    SemRefines(limit, s, ops);
    RunSafe(limit, Some(maxQueue), s, ops);
  }

  lemma {:induction false} NeverBusyUnbounded(limit: nat, maxQueue: nat, s: Fifo, ops: seq<Op>)
    requires Bracketed(limit, Some(maxQueue), s, ops)
    requires Busy !in SpecRun(limit, Some(maxQueue), s, ops).1
    ensures Bracketed(limit, None, s, ops) && SpecRun(limit, None, s, ops) == SpecRun(limit, Some(maxQueue), s, ops)
    decreases |ops|
  {
    if ops != [] {
      var (s', out) := SpecStep(limit, Some(maxQueue), s, ops[0]);
      var outs := SpecRun(limit, Some(maxQueue), s', ops[1..]).1;
      assert SpecRun(limit, Some(maxQueue), s, ops).1 == [out] + outs;
      assert out != Busy by {
        assert ([out] + outs)[0] == out;
      }
      assert Busy !in outs by {
        assert forall i :: 0 <= i < |outs| ==> outs[i] == ([out] + outs)[i + 1];
      }
      NeverBusyUnbounded(limit, maxQueue, s', ops[1..]);
    }
  }

  /**
   What the slot gate answers after any bracketed run, from the number n of callers let in that have not released:
   a slot exactly while n < limit, a refusal exactly when limit hold and maxQueue wait, and otherwise a place in the
   queue. A release wakes somebody exactly when more than limit are in.
   */
  lemma GateOutcome(limit: nat, maxQueue: nat, ops: seq<Op>, op: Op)
    requires Bracketed(limit, Some(maxQueue), Fifo({}, []), ops) && Allowed(SpecRun(limit, Some(maxQueue), Fifo({}, []), ops).0, op)
    ensures var (g, outs) := GateRun(limit, maxQueue, Gate(0, []), ops);
            var n := Accepted(outs) - Releases(ops);
            && (op.Acquire? ==> GateStep(limit, maxQueue, g, op).1 == if n < limit then Granted else if n < limit + maxQueue then Waiting else Busy)
            && (op.Release? ==> (GateStep(limit, maxQueue, g, op).1 == Freed <==> n <= limit))
  {
    hide GateRun, SpecRun, Bracketed, Accepted, Releases;
    SpecOutcome(limit, Some(maxQueue), ops, op);
    GateRefines(limit, maxQueue, Fifo({}, []), ops);
    GateStepRefines(limit, maxQueue, SpecRun(limit, Some(maxQueue), Fifo({}, []), ops).0, op);
  }

  /** What the RPC semaphore answers: the same, but nobody is refused. */
  lemma SemOutcome(limit: nat, ops: seq<Op>, op: Op)
    requires Bracketed(limit, None, Fifo({}, []), ops) && Allowed(SpecRun(limit, None, Fifo({}, []), ops).0, op)
    ensures var (m, outs) := SemRun(Sem(limit, []), ops);
            var n := Accepted(outs) - Releases(ops);
            && (op.Acquire? ==> SemStep(m, op).1 == if n < limit then Granted else Waiting)
            && (op.Release? ==> (SemStep(m, op).1 == Freed <==> n <= limit))
  {
    hide SemRun, SpecRun, Bracketed, Accepted, Releases;
    SpecOutcome(limit, None, ops, op);
    SemRefines(limit, Fifo({}, []), ops);
    SemStepRefines(limit, SpecRun(limit, None, Fifo({}, []), ops).0, op);
  }

  /**
   Without the bracket they differ: after a release the counts of the two still agree exactly when somebody
   held a slot. A stray release at rest leaves the gate as it was but adds a permit to the semaphore.
   */
  lemma StrayRelease(limit: nat, maxQueue: nat, active: nat, queue: seq<nat>, id: nat)
    ensures var (g, gateOut) := GateStep(limit, maxQueue, Gate(active, queue), Release(id));
            var (m, semOut) := SemStep(Sem(limit - active, queue), Release(id));
            gateOut == semOut && g.queue == m.tasks && (g.active == limit - m.count <==> active > 0)
  {
  }
}
