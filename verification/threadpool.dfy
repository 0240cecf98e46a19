/** `DataProcessingThreadPool<T, Size, QueueMaxSize>` as a sequential state
    machine: the queue of owned entries, the `running` flag, where each
    worker thread is in `innerExecutor`, and the log of items the executor
    has been called on. Each transition is one critical section (or one
    executor call) of the program; locks, condition-variable wake-ups and
    thread creation are not modelled. */
module ThreadPool {
  import opened Faults

  /** The soft queue bound of the template; `checkQueueLimits` never
      enforces it. */
  const QueueMaxSize: nat := 25

  /** A queue slot: a `std::unique_ptr<T>`, which may be null. */
  datatype Entry<T> = Null | Item(value: T)

  /** Where a worker thread is: about to test `running`, waiting on the
      condition variable, holding a dequeued entry it is about to hand to
      the executor, or returned from `innerExecutor`. */
  datatype Worker<T> = AtLoopHead | Waiting | Holding(entry: Entry<T>) | Exited

  datatype Pool<T> = Pool(queue: seq<Entry<T>>, running: bool, workers: seq<Worker<T>>, executed: seq<T>)

  /** The constructor: `Size` workers started, an empty queue, running. */
  function NewPool<T>(size: nat): (p: Pool<T>)
    ensures p.queue == [] && p.running && p.executed == []
    ensures |p.workers| == size && forall w | 0 <= w < size :: p.workers[w] == AtLoopHead
  {
    Pool([], true, seq(size, _ => AtLoopHead), [])
  }

  /** `checkQueueLimits`: returns at once; the loop that would drop entries
      beyond `QueueMaxSize` is unreachable. */
  function CheckQueueLimits<T>(queue: seq<Entry<T>>): (r: seq<Entry<T>>)
    ensures r == queue
  {
    queue
  }

  /** The three `process` overloads. The copy and move overloads enqueue an
      entry owning the value (`Item`); the pointer overload enqueues the
      pointer as given, which may be null. Exactly one entry is appended at
      the back, the earlier ones stay in order, and nothing else changes. */
  function Process<T>(p: Pool<T>, e: Entry<T>): (r: Pool<T>)
    ensures |r.queue| == |p.queue| + 1
    ensures r.queue[..|p.queue|] == p.queue && r.queue[|p.queue|] == e
    ensures r.running == p.running && r.workers == p.workers && r.executed == p.executed
  {
    p.(queue := CheckQueueLimits(p.queue + [e]))
  }

  /** `clear`: every pending entry is discarded; entries already held by a
      worker are not. */
  function Clear<T>(p: Pool<T>): (r: Pool<T>)
    ensures r.queue == []
    ensures r.running == p.running && r.workers == p.workers && r.executed == p.executed
  {
    p.(queue := [])
  }

  /** The destructor's critical section: the queue is emptied and
      `running` cleared. (It then wakes every worker and joins them.) */
  function Shutdown<T>(p: Pool<T>): (r: Pool<T>)
    ensures r.queue == [] && !r.running
    ensures r.workers == p.workers && r.executed == p.executed
  {
    p.(queue := [], running := false)
  }

  /** One step of worker `w` in `innerExecutor`, or `None` when it cannot
      move. At the loop head it tests `running`. Waiting, it can only move
      once the queue is non-empty (the wait predicate looks at nothing
      else), and then takes the front entry. Holding an entry, it calls the
      executor unless the entry is null, and goes back to the loop head. */
  function Step<T>(p: Pool<T>, w: nat): (r: Option<Pool<T>>)
    requires w < |p.workers|
    ensures r.Some? ==> |r.value.workers| == |p.workers| && r.value.running == p.running
    ensures r.Some? ==> forall j | 0 <= j < |p.workers| && j != w :: r.value.workers[j] == p.workers[j]
    ensures p.workers[w] == AtLoopHead ==>
              (r.Some? && r.value.queue == p.queue && r.value.executed == p.executed &&
               r.value.workers[w] == (if p.running then Waiting else Exited))
    ensures p.workers[w] == Waiting ==> (r.Some? <==> |p.queue| > 0)
    ensures p.workers[w] == Waiting && r.Some? ==>
              r.value.queue == p.queue[1..] && r.value.workers[w] == Holding(p.queue[0]) &&
              r.value.executed == p.executed
    ensures p.workers[w].Holding? ==>
              (r.Some? && r.value.queue == p.queue && r.value.workers[w] == AtLoopHead &&
               r.value.executed == p.executed + Held(p.workers[w]))
    ensures p.workers[w] == Exited ==> r.None?
  {
    match p.workers[w]
    case AtLoopHead =>
      Some(p.(workers := p.workers[w := if p.running then Waiting else Exited]))
    case Waiting =>
      if |p.queue| > 0 then
        Some(p.(queue := p.queue[1..], workers := p.workers[w := Holding(p.queue[0])]))
      else
        None
    case Holding(e) =>
      var executed := if e.Item? then p.executed + [e.value] else p.executed;
      Some(p.(workers := p.workers[w := AtLoopHead], executed := executed))
    case Exited =>
      None
  }

  // ---------------------------------------------------------------------
  // FIFO order.

  /** The values of the non-null entries, in order. */
  function Items<T>(q: seq<Entry<T>>): (r: seq<T>)
    ensures |r| <= |q|
  {
    if q == [] then []
    else (if q[0].Item? then [q[0].value] else []) + Items(q[1..])
  }

  lemma {:induction false} ItemsAppend<T>(a: seq<Entry<T>>, b: seq<Entry<T>>)
    ensures Items(a + b) == Items(a) + Items(b)
    decreases |a|
  {
    if a == [] {
      assert a + b == b;
    } else {
      var head := if a[0].Item? then [a[0].value] else [];
      assert (a + b)[0] == a[0];
      assert (a + b)[1..] == a[1..] + b;
      ItemsAppend(a[1..], b);
      assert Items(a + b) == head + (Items(a[1..]) + Items(b));
      assert head + (Items(a[1..]) + Items(b)) == (head + Items(a[1..])) + Items(b);
    }
  }

  /** The item a worker holds, if any. */
  function Held<T>(w: Worker<T>): seq<T> {
    if w.Holding? && w.entry.Item? then [w.entry.value] else []
  }

  /** For a single-worker pool, everything submitted and not cleared: what
      the executor has seen, then what the worker holds, then the queue. */
  function Pending<T>(p: Pool<T>): seq<T>
    requires |p.workers| == 1
  {
    p.executed + Held(p.workers[0]) + Items(p.queue)
  }

  /** A client action on a pool: a `process` call, a step of worker 0, or
      a `clear` call. */
  datatype Op<T> = Submit(e: Entry<T>) | Work | ClearQueue

  /** No action in the run is a `clear`. */
  predicate NeverCleared<T>(ops: seq<Op<T>>) {
    forall i | 0 <= i < |ops| :: !ops[i].ClearQueue?
  }

  /** One action; a blocked worker step changes nothing. */
  function Apply<T>(p: Pool<T>, op: Op<T>): (r: Pool<T>)
    requires |p.workers| == 1
    ensures |r.workers| == 1
  {
    match op
    case Submit(e) => Process(p, e)
    case Work => (match Step(p, 0) case Some(p') => p' case None => p)
    case ClearQueue => Clear(p)
  }

  /** Runs the actions in order. */
  function Run<T>(p: Pool<T>, ops: seq<Op<T>>): (r: Pool<T>)
    requires |p.workers| == 1
    ensures |r.workers| == 1
    decreases |ops|
  {
    if ops == [] then p else Run(Apply(p, ops[0]), ops[1..])
  }

  /** The values submitted by a sequence of actions, in order. */
  function Submitted<T>(ops: seq<Op<T>>): seq<T>
  {
    if ops == [] then []
    else (if ops[0].Submit? && ops[0].e.Item? then [ops[0].e.value] else []) + Submitted(ops[1..])
  }

  lemma SubmittedSplits<T>(ops: seq<Op<T>>)
    requires ops != []
    ensures Submitted(ops) == Submitted([ops[0]]) + Submitted(ops[1..])
  {
    assert [ops[0]][1..] == [];
  }

  /** A worker step moves an item from the queue to the worker, or from the
      worker to the executor, but never reorders or loses one. */
  lemma StepKeepsPending<T>(p: Pool<T>)
    requires |p.workers| == 1
    ensures Step(p, 0).Some? ==> Pending(Step(p, 0).value) == Pending(p)
  {
    var s := Step(p, 0);
    if s.Some? {
      match p.workers[0]
      case AtLoopHead =>
        assert Held(s.value.workers[0]) == [];
      case Waiting =>
        assert p.queue == [p.queue[0]] + p.queue[1..];
        ItemsAppend([p.queue[0]], p.queue[1..]);
      case Holding(e) =>
        assert (p.executed + Held(p.workers[0])) + Items(p.queue) == s.value.executed + [] + Items(s.value.queue);
      case Exited =>
    }
  }

  /** A `process` call or a worker step adds exactly what it submits to
      the pending items; a `clear` drops the queued ones and keeps the
      executed and held ones. */
  lemma ApplyExtendsPending<T>(p: Pool<T>, op: Op<T>)
    requires |p.workers| == 1
    ensures !op.ClearQueue? ==> Pending(Apply(p, op)) == Pending(p) + Submitted([op])
    ensures op.ClearQueue? ==> Pending(Apply(p, op)) == p.executed + Held(p.workers[0])
  {
    match op
    case Submit(e) =>
      var r := Process(p, e);
      assert r.queue == p.queue + [e];
      ItemsAppend(p.queue, [e]);
      assert Items([e]) == Submitted([op]);
      assert Pending(r) == (p.executed + Held(p.workers[0])) + (Items(p.queue) + Items([e]));
    case Work =>
      StepKeepsPending(p);
    case ClearQueue =>
      assert Items(Apply(p, op).queue) == [];
  }

  /** `a` is `b` with some elements deleted: an order-preserving
      subsequence. */
  ghost predicate Subsequence<T>(a: seq<T>, b: seq<T>)
    decreases |b|
  {
    if b == [] then a == []
    else Subsequence(a, b[1..]) || (a != [] && a[0] == b[0] && Subsequence(a[1..], b[1..]))
  }

  lemma {:induction false} EmptySubsequence<T>(b: seq<T>)
    ensures Subsequence([], b)
    decreases |b|
  {
    if b != [] {
      EmptySubsequence(b[1..]);
    }
  }

  lemma {:induction false} SubsequenceReflexive<T>(a: seq<T>)
    ensures Subsequence(a, a)
    decreases |a|
  {
    if a != [] {
      SubsequenceReflexive(a[1..]);
    }
  }

  /** Deleting from two sequences deletes from their concatenation. */
  lemma {:induction false} SubsequenceConcat<T>(a: seq<T>, b: seq<T>, c: seq<T>, d: seq<T>)
    requires Subsequence(a, b) && Subsequence(c, d)
    ensures Subsequence(a + c, b + d)
    decreases |b|
  {
    if b == [] {
      assert a + c == c && b + d == d;
    } else {
      assert (b + d)[1..] == b[1..] + d;
      if Subsequence(a, b[1..]) {
        SubsequenceConcat(a, b[1..], c, d);
      } else {
        assert (a + c)[1..] == a[1..] + c;
        SubsequenceConcat(a[1..], b[1..], c, d);
      }
    }
  }

  lemma {:induction false} SubsequenceTransitive<T>(a: seq<T>, b: seq<T>, c: seq<T>)
    requires Subsequence(a, b) && Subsequence(b, c)
    ensures Subsequence(a, c)
    decreases |c|
  {
    if c != [] {
      if Subsequence(b, c[1..]) {
        SubsequenceTransitive(a, b, c[1..]);
      } else if Subsequence(a, b[1..]) {
        SubsequenceTransitive(a, b[1..], c[1..]);
      } else {
        SubsequenceTransitive(a[1..], b[1..], c[1..]);
      }
    }
  }

  /** A subsequence of `b ++ r` is a subsequence of `c ++ r` when `b` is
      one of `c`. */
  lemma SubsequenceExtend<T>(a: seq<T>, b: seq<T>, c: seq<T>, r: seq<T>)
    requires Subsequence(a, b + r) && Subsequence(b, c)
    ensures Subsequence(a, c + r)
  {
    SubsequenceReflexive(r);
    SubsequenceConcat(b, c, r, r);
    SubsequenceTransitive(a, b + r, c + r);
  }

  /** Every prefix of a sequence is a subsequence of it. */
  lemma PrefixIsSubsequence<T>(a: seq<T>, c: seq<T>)
    ensures Subsequence(a, a + c)
  {
    SubsequenceReflexive(a);
    EmptySubsequence(c);
    SubsequenceConcat(a, a, [], c);
    assert a + [] == a;
  }

  /** With one worker and no `clear`, the executor sees the non-null
      submitted items in submission order: after any such run,
      executed ++ held ++ queued is exactly what was submitted, so the
      executed items are a prefix of the submitted ones. */
  lemma {:induction false} SingleWorkerIsFifo<T>(p: Pool<T>, ops: seq<Op<T>>)
    requires |p.workers| == 1
    ensures NeverCleared(ops) ==> Pending(Run(p, ops)) == Pending(p) + Submitted(ops)
    ensures NeverCleared(ops) ==> Run(p, ops).executed <= Pending(p) + Submitted(ops)
    decreases |ops|
  {
    if ops != [] && NeverCleared(ops) {
      var next := Apply(p, ops[0]);
      ApplyExtendsPending(p, ops[0]);
      assert NeverCleared(ops[1..]) by {
        assert forall i | 0 <= i < |ops| - 1 :: ops[1..][i] == ops[i + 1];
      }
      SingleWorkerIsFifo(next, ops[1..]);
      SubmittedSplits(ops);
    }
  }

  /** One action keeps the pending items in order: they are the old ones
      plus what it submits, with some of them (the queued ones, on a
      `clear`) deleted. */
  lemma ApplyKeepsOrder<T>(p: Pool<T>, op: Op<T>)
    requires |p.workers| == 1
    ensures Subsequence(Pending(Apply(p, op)), Pending(p) + Submitted([op]))
  {
    ApplyExtendsPending(p, op);
    var kept := Pending(Apply(p, op));
    if op.ClearQueue? {
      assert Pending(p) + Submitted([op]) == kept + Items(p.queue);
      PrefixIsSubsequence(kept, Items(p.queue));
    } else {
      SubsequenceReflexive(kept);
    }
  }

  /** With one worker, `clear` included, the pending items are always the
      submitted sequence with some items deleted, never reordered. */
  lemma {:induction false} SingleWorkerNeverReorders<T>(p: Pool<T>, ops: seq<Op<T>>)
    requires |p.workers| == 1
    ensures Subsequence(Pending(Run(p, ops)), Pending(p) + Submitted(ops))
    decreases |ops|
  {
    if ops == [] {
      SubsequenceReflexive(Pending(p));
      assert Pending(p) + Submitted(ops) == Pending(p);
    } else {
      var next := Apply(p, ops[0]);
      var first, rest := Submitted([ops[0]]), Submitted(ops[1..]);
      assert Run(p, ops) == Run(next, ops[1..]);
      SingleWorkerNeverReorders(next, ops[1..]);
      ApplyKeepsOrder(p, ops[0]);
      SubsequenceExtend(Pending(Run(next, ops[1..])), Pending(next), Pending(p) + first, rest);
      SubmittedSplits(ops);
      assert (Pending(p) + first) + rest == Pending(p) + Submitted(ops);
    }
  }

  /** Hence, `clear` included, the executor sees the items it runs in the
      order they were submitted. */
  lemma ExecutedInSubmissionOrder<T>(p: Pool<T>, ops: seq<Op<T>>)
    requires |p.workers| == 1
    ensures Subsequence(Run(p, ops).executed, Pending(p) + Submitted(ops))
  {
    var q := Run(p, ops);
    SingleWorkerNeverReorders(p, ops);
    assert Pending(q) == q.executed + (Held(q.workers[0]) + Items(q.queue));
    PrefixIsSubsequence(q.executed, Held(q.workers[0]) + Items(q.queue));
    SubsequenceTransitive(q.executed, Pending(q), Pending(p) + Submitted(ops));
  }

  /** Two workers can hand items to the executor out of order: the second
      worker dequeues the later item and finishes first. This is why every
      stage of the demodulator uses a single worker. */
  lemma TwoWorkersCanReorder(a: int, b: int)
    ensures var p0 := Process(Process(NewPool<int>(2), Item(a)), Item(b));
            var p1 := Step(p0, 0).value;   // worker 0 starts waiting
            var p2 := Step(p1, 1).value;   // worker 1 starts waiting
            var p3 := Step(p2, 0).value;   // worker 0 takes a
            var p4 := Step(p3, 1).value;   // worker 1 takes b
            var p5 := Step(p4, 1).value;   // worker 1 runs b
            var p6 := Step(p5, 0).value;   // worker 0 runs a
            p6.executed == [b, a]
  {
  }

  // ---------------------------------------------------------------------
  // The queue bound.

  /** Submitting a sequence of entries. */
  function ProcessAll<T>(p: Pool<T>, es: seq<Entry<T>>): Pool<T>
    decreases |es|
  {
    if es == [] then p else ProcessAll(Process(p, es[0]), es[1..])
  }

  /** Nothing bounds the queue: every submitted entry stays queued until a
      worker takes it, however many there are. */
  lemma {:induction false} QueueIsUnbounded<T>(p: Pool<T>, es: seq<Entry<T>>)
    ensures |ProcessAll(p, es).queue| == |p.queue| + |es|
    decreases |es|
  {
    if es != [] {
      QueueIsUnbounded(Process(p, es[0]), es[1..]);
    }
  }

  /** In particular, 26 submissions to a fresh pool leave more than
      `QueueMaxSize` entries queued. */
  lemma QueueExceedsSoftBound<T>(es: seq<Entry<T>>)
    requires |es| == QueueMaxSize + 1
    ensures |ProcessAll(NewPool<T>(1), es).queue| > QueueMaxSize
  {
    QueueIsUnbounded(NewPool<T>(1), es);
  }

  // ---------------------------------------------------------------------
  // Shutdown.

  /** Runs steps of the given workers in order; a blocked step changes
      nothing. */
  function RunSteps<T>(p: Pool<T>, ws: seq<nat>): (r: Pool<T>)
    requires forall i | 0 <= i < |ws| :: ws[i] < |p.workers|
    ensures |r.workers| == |p.workers|
    decreases |ws|
  {
    if ws == [] then p
    else
      var next := match Step(p, ws[0]) case Some(p') => p' case None => p;
      RunSteps(next, ws[1..])
  }

  /** As written, shutdown can hang: a worker already waiting when the
      destructor empties the queue and clears `running` is never able to
      move again, whatever the other workers do, because its wait predicate
      only asks for a non-empty queue and nothing refills it. `join` then
      waits for it forever. */
  lemma {:induction false} ShutdownLeavesParkedWorkerBlocked<T>(p: Pool<T>, w: nat, ws: seq<nat>)
    requires w < |p.workers| && p.workers[w] == Waiting
    requires forall i | 0 <= i < |ws| :: ws[i] < |p.workers|
    ensures var q := RunSteps(Shutdown(p), ws);
            q.workers[w] == Waiting && Step(q, w).None?
    decreases |ws|
  {
    if ws != [] {
      var s := Shutdown(p);
      var next := match Step(s, ws[0]) case Some(p') => p' case None => s;
      assert next.queue == [] && !next.running && next.workers[w] == Waiting;
      assert Shutdown(next) == next;
      ShutdownLeavesParkedWorkerBlocked(next, w, ws[1..]);
    }
  }

  /** The corrected worker step: the wait also ends once `running` is
      cleared, and a worker that wakes to an empty queue after shutdown
      leaves the loop instead of dequeuing. */
  function StepFixed<T>(p: Pool<T>, w: nat): (r: Option<Pool<T>>)
    requires w < |p.workers|
    ensures r.Some? ==> |r.value.workers| == |p.workers| && r.value.running == p.running
    ensures p.workers[w] == Waiting ==> (r.Some? <==> |p.queue| > 0 || !p.running)
    ensures p.workers[w] == Waiting && |p.queue| == 0 && !p.running ==>
              r == Some(p.(workers := p.workers[w := Exited]))
  {
    if p.workers[w] == Waiting && |p.queue| == 0 && !p.running then
      Some(p.(workers := p.workers[w := Exited]))
    else
      Step(p, w)
  }

  /** Runs corrected steps of the given workers in order; a blocked step
      changes nothing. */
  function RunStepsFixed<T>(p: Pool<T>, ws: seq<nat>): (r: Pool<T>)
    requires forall i | 0 <= i < |ws| :: ws[i] < |p.workers|
    ensures |r.workers| == |p.workers|
    decreases |ws|
  {
    if ws == [] then p
    else
      var next := match StepFixed(p, ws[0]) case Some(p') => p' case None => p;
      RunStepsFixed(next, ws[1..])
  }

  /** Once the queue is empty and `running` is cleared, no corrected step
      of any worker refills the queue or restarts the pool. */
  lemma {:induction false} StoppedStaysStopped<T>(p: Pool<T>, ws: seq<nat>)
    requires p.queue == [] && !p.running
    requires forall i | 0 <= i < |ws| :: ws[i] < |p.workers|
    ensures RunStepsFixed(p, ws).queue == [] && !RunStepsFixed(p, ws).running
    decreases |ws|
  {
    if ws != [] {
      var next := match StepFixed(p, ws[0]) case Some(p') => p' case None => p;
      assert next.queue == [] && !next.running;
      StoppedStaysStopped(next, ws[1..]);
    }
  }

  /** With the corrected wait, after shutdown and any interleaving of
      steps of any workers, each worker leaves `innerExecutor` within two
      more of its own steps, whatever state it was in, so every `join`
      returns once each worker is scheduled. */
  lemma ShutdownStopsEveryWorkerFixed<T>(p: Pool<T>, ws: seq<nat>, w: nat)
    requires w < |p.workers|
    requires forall i | 0 <= i < |ws| :: ws[i] < |p.workers|
    ensures RunStepsFixed(Shutdown(p), ws).queue == [] && !RunStepsFixed(Shutdown(p), ws).running
    ensures var s := RunStepsFixed(Shutdown(p), ws);
            s.workers[w] == Exited
            || StepFixed(s, w).value.workers[w] == Exited
            || StepFixed(StepFixed(s, w).value, w).value.workers[w] == Exited
  {
    StoppedStaysStopped(Shutdown(p), ws);
  }
}
