/** How Encode divides the threads of a pool among the queues, and the counting behind a queue's
    notion of "all producers have terminated". */
module QueueSetup {

  /** How many t < n satisfy f. */
  ghost function Count(n: nat, f: nat -> bool): nat {
    if n == 0 then 0 else Count(n - 1, f) + if f(n - 1) then 1 else 0
  }

  lemma {:induction false} CountMonotone(n: nat, f: nat -> bool, g: nat -> bool)
    requires forall t: nat :: t < n && f(t) ==> g(t)
    ensures Count(n, f) <= Count(n, g)
  {
    if n > 0 {
      CountMonotone(n - 1, f, g);
    }
  }

  /** A sub-count that reaches the whole count leaves nobody out. */
  lemma {:induction false} CountReached(n: nat, f: nat -> bool, g: nat -> bool, t: nat)
    requires forall t: nat :: t < n && f(t) ==> g(t)
    requires Count(n, f) == Count(n, g) && t < n && g(t)
    ensures f(t)
  {
    CountMonotone(n - 1, f, g);
    if t < n - 1 {
      CountReached(n - 1, f, g, t);
    }
  }

  lemma {:induction false} CountSame(n: nat, f: nat -> bool, g: nat -> bool)
    requires forall t: nat :: t < n ==> f(t) == g(t)
    ensures Count(n, f) == Count(n, g)
  {
    if n > 0 {
      CountSame(n - 1, f, g);
    }
  }

  lemma {:induction false} CountOneMore(n: nat, f: nat -> bool, g: nat -> bool, t: nat)
    requires t < n && !f(t) && g(t) && forall u: nat :: u < n && u != t ==> f(u) == g(u)
    ensures Count(n, g) == Count(n, f) + 1
  {
    if t == n - 1 {
      CountSame(n - 1, f, g);
    } else {
      CountOneMore(n - 1, f, g, t);
    }
  }

  // ---- the division -----------------------------------------------------------------------------

  /** The queue a thread works on: tid / MAX_THREADS_PER_QUEUE. */
  function QueueOf(t: nat, perQueue: nat): nat
    requires perQueue > 0
  {
    t / perQueue
  }

  function NumQueues(nthreads: nat, perQueue: nat): nat
    requires perQueue > 0
  {
    nthreads / perQueue + if nthreads % perQueue != 0 then 1 else 0
  }

  /** threads_per_queue, the producer count a queue is initialised with. */
  function ThreadsPerQueue(nthreads: nat, perQueue: nat, q: nat): nat
    requires perQueue > 0
  {
    if q + 1 < NumQueues(nthreads, perQueue) || nthreads % perQueue == 0 then perQueue else nthreads % perQueue
  }

  ghost function WorksOn(perQueue: nat, q: nat): nat -> bool
    requires perQueue > 0
  {
    (t: nat) => QueueOf(t, perQueue) == q
  }

  lemma DivisionBounds(t: nat, m: nat)
    requires m > 0
    ensures t / m * m <= t < t / m * m + m
  {
  }

  lemma QueueOfExactly(t: nat, m: nat, q: nat)
    requires m > 0
    ensures t / m == q <==> q * m <= t < q * m + m
  {
    DivisionBounds(t, m);
    var d := t / m;
    if d < q {
      assert (d + 1) * m <= q * m;
    } else if d > q {
      assert (q + 1) * m <= d * m;
    }
  }

  lemma {:induction false} CountWorkers(n: nat, m: nat, q: nat)
    requires m > 0
    ensures Count(n, WorksOn(m, q)) == if n <= q * m then 0 else if n <= q * m + m then n - q * m else m
  {
    if n > 0 {
      CountWorkers(n - 1, m, q);
      QueueOfExactly(n - 1, m, q);
    }
  }

  /** For every queue the number of threads that work on it is the producer count it was given. */
  lemma ProducerCountIsRight(nthreads: nat, perQueue: nat, q: nat)
    requires perQueue > 0 && q < NumQueues(nthreads, perQueue)
    ensures Count(nthreads, WorksOn(perQueue, q)) == ThreadsPerQueue(nthreads, perQueue, q) > 0
  {
    CountWorkers(nthreads, perQueue, q);
    var d := nthreads / perQueue;
    DivisionBounds(nthreads, perQueue);
    if q < d {
      NextMultiple(q, d, perQueue);
    } else {
      RemainderIs(nthreads, perQueue);
    }
  }

  lemma {:induction false} NextMultiple(q: nat, d: nat, m: nat)
    requires q < d
    ensures q * m + m <= d * m
  {
    if q < d - 1 {
      NextMultiple(q, d - 1, m);
    }
    assert d * m == (d - 1) * m + m;
  }

  lemma RemainderIs(n: nat, m: nat)
    requires m > 0
    ensures n - n / m * m == n % m
  {
  }

  /** Every thread works on one of the queues. */
  lemma QueueOfThread(nthreads: nat, perQueue: nat, t: nat)
    requires perQueue > 0 && t < nthreads
    ensures QueueOf(t, perQueue) < NumQueues(nthreads, perQueue)
  {
    var d, e := nthreads / perQueue, t / perQueue;
    DivisionBounds(nthreads, perQueue);
    DivisionBounds(t, perQueue);
    if e > d {
      assert (d + 1) * perQueue <= e * perQueue;
    }
  }

  /** A queue is shared by MAX_THREADS_PER_QUEUE threads with consecutive numbers, and there are as many
      queues as that takes. */
  lemma QueuesAreShared(nthreads: nat, perQueue: nat, t: nat, q: nat)
    requires perQueue > 0
    ensures QueueOf(t, perQueue) == q <==> q * perQueue <= t < q * perQueue + perQueue
    ensures nthreads <= NumQueues(nthreads, perQueue) * perQueue < nthreads + perQueue
  {
    QueueOfExactly(t, perQueue, q);
    var d, r := nthreads / perQueue, nthreads % perQueue;
    assert nthreads == d * perQueue + r;
    assert (d + 1) * perQueue == d * perQueue + perQueue;
  }
}
