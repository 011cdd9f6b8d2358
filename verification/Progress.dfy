/** The parallel encoder always has a next step as long as no reorder queue is full; where it can get
    stuck otherwise. */
module Progress {
  import opened Types
  import opened Chunking
  import opened Archive
  import opened ReorderSpec
  import opened Buffers
  import opened QueueSetup
  import opened Pipeline
  import opened Invariant
  import opened ControlProofs
  import opened FragmentProofs
  import opened WorkProofs
  import opened ReorderProofs
  import opened Runs
  import opened Completion

  // ---- somebody can always go on ----------------------------------------------------------------

  ghost predicate HasRoom(cfg: Config, b: Buffers, feed: Feed) {
    forall q: nat :: |At(b, Queue(feed, q))| < cfg.queueSize
  }

  lemma FragCanGoOn(cfg: Config, coarse: seq<Bytes>, plan: seq<seq<Bytes>>, s: State) returns (step: Step)
    requires Sane(cfg) && Holds(cfg, coarse, plan, s) && HasRoom(cfg, s.mem.buf, ToRefine) && !s.overrun
    requires s.frag.phase != Terminating(NQueues(cfg))
    ensures Enabled(cfg, s, step)
  {
    hide PrefixStable, Lossless, DataOk, Lineage, ControlOk;
    match s.frag.phase
    case Reading => step := FragReads;
    case Splitting => step := FragSplits;
    case FragPushing => step := FragPushes(1);
    case FragDraining => step := if At(s.mem.buf, FragSend) == [] then FragDrained else FragPushes(1);
    case Terminating(_) => step := FragTerminates;
  }

  /** The worker sleeps in queue_dequeue. */
  ghost predicate Waits(cfg: Config, s: State, pool: Pool, t: nat)
    requires cfg.perQueue > 0
  {
    && Idle(cfg, s, pool, t) && At(s.mem.buf, Queue(InFeed(pool), QueueFor(cfg, t))) == []
    && !Finished(cfg, s.ctl, InFeed(pool), QueueFor(cfg, t))
  }

  /** Room in the queues a worker of the pool feeds. */
  ghost predicate CanPassOn(cfg: Config, b: Buffers, pool: Pool) {
    HasRoom(cfg, b, OutFeed(pool)) && (pool == Deduplicate ==> HasRoom(cfg, b, ToReorder))
  }

  /** A worker that can pass on what it has goes on unless it has stopped or waits for input. */
  lemma WorkerCanGoOn(cfg: Config, s: State, pool: Pool, t: nat) returns (step: Step)
    requires Sane(cfg) && ControlOk(cfg, s) && CanPassOn(cfg, s.mem.buf, pool) && !s.overrun && !s.fault
    requires t < cfg.nthreads && PhaseOf(s.ctl, pool, t) != Stopped && !Waits(cfg, s, pool, t)
    ensures Enabled(cfg, s, step)
  {
    hide PrefixStable, Lossless;
    assert WorkerOk(cfg, s.mem.buf, s.ctl, pool, t);
    match PhaseOf(s.ctl, pool, t)
    case Running => step := RunningCanGoOn(cfg, s, pool, t);
    case Pushing(p) => step := Pushes(pool, t, p, 1);
    case Draining =>
      step := if At(s.mem.buf, Send(pool, t)) != [] then Pushes(pool, t, Send(pool, t), 1)
              else if pool == Deduplicate && At(s.mem.buf, SendDup(t)) != [] then Pushes(pool, t, SendDup(t), 1)
              else Stops(pool, t);
  }

  lemma RunningCanGoOn(cfg: Config, s: State, pool: Pool, t: nat) returns (step: Step)
    requires Sane(cfg) && !s.overrun && !s.fault && t < cfg.nthreads && PhaseOf(s.ctl, pool, t) == Running
    requires !Waits(cfg, s, pool, t)
    ensures Enabled(cfg, s, step)
  {
    hide PrefixStable, Lossless;
    if pool == Refine && At(s.mem.buf, Cutting(t)) != [] {
      step := Cuts(t);
    } else if At(s.mem.buf, Recv(pool, t)) != [] {
      step := match pool case Refine => Takes(t) case Deduplicate => Deduplicates(t) case Compress => Compresses(t);
    } else if At(s.mem.buf, Queue(InFeed(pool), QueueFor(cfg, t))) != [] {
      step := Fetches(pool, t, 1);
    } else {
      step := Exits(pool, t);
    }
  }

  /** When a whole pool has stopped, the queues it feeds count as terminated. */
  lemma StoppedMeansFinished(cfg: Config, s: State, pool: Pool, q: nat)
    requires cfg.perQueue > 0 && ControlOk(cfg, s) && q < NQueues(cfg)
    requires forall t: nat :: t < cfg.nthreads ==> PhaseOf(s.ctl, pool, t) == Stopped
    ensures Finished(cfg, s.ctl, OutFeed(pool), q)
  {
    ProducerCountIsRight(cfg.nthreads, cfg.perQueue, q);
    CountSame(cfg.nthreads, StoppedOn(s.ctl, pool, cfg.perQueue, q), WorksOn(cfg.perQueue, q));
  }

  ghost predicate AllStopped(cfg: Config, s: State, pool: Pool) {
    forall t: nat :: t < cfg.nthreads ==> PhaseOf(s.ctl, pool, t) == Stopped
  }

  ghost predicate AllFinished(cfg: Config, s: State, feed: Feed)
    requires cfg.perQueue > 0
  {
    forall q: nat :: q < NQueues(cfg) ==> Finished(cfg, s.ctl, feed, q)
  }

  /** Every thread of the pool has stopped or waits for input. */
  ghost predicate Rests(cfg: Config, s: State, pool: Pool)
    requires cfg.perQueue > 0
  {
    forall t: nat :: t < cfg.nthreads ==> PhaseOf(s.ctl, pool, t) == Stopped || Waits(cfg, s, pool, t)
  }

  /** A pool that rests has emptied its queues. */
  lemma RestingHasEmptied(cfg: Config, s: State, pool: Pool)
    requires Sane(cfg) && ControlOk(cfg, s) && Rests(cfg, s, pool)
    ensures HasRoom(cfg, s.mem.buf, InFeed(pool))
  {
    hide PrefixStable, Lossless;
    forall q: nat
      ensures |At(s.mem.buf, Queue(InFeed(pool), q))| < cfg.queueSize
    {
      assert At(s.mem.buf, Queue(InFeed(pool), q)) != [] ==> InRange(cfg, Queue(InFeed(pool), q));
      if q < NQueues(cfg) {
        var t := SomeReader(cfg, q);
        if PhaseOf(s.ctl, pool, t) == Stopped {
          StoppedIsDry(cfg, s, pool, t);
        }
      }
    }
  }

  /** A pool that can pass on either goes on or rests, with room in front of it. */
  lemma PoolCanGoOn(cfg: Config, s: State, pool: Pool) returns (step: Step)
    requires Sane(cfg) && ControlOk(cfg, s) && CanPassOn(cfg, s.mem.buf, pool) && !s.overrun && !s.fault
    ensures Enabled(cfg, s, step) || (Rests(cfg, s, pool) && HasRoom(cfg, s.mem.buf, InFeed(pool)))
  {
    hide PrefixStable, Lossless, ControlOk, Enabled, CanPassOn, Waits, HasRoom;
    step := FragReads;
    if t: nat :| t < cfg.nthreads && PhaseOf(s.ctl, pool, t) != Stopped && !Waits(cfg, s, pool, t) {
      step := WorkerCanGoOn(cfg, s, pool, t);
    } else {
      RestingHasEmptied(cfg, s, pool);
    }
  }

  /** A pool that rests although its input is finished has stopped, and its output is finished too. */
  lemma RestingStops(cfg: Config, s: State, pool: Pool)
    requires cfg.perQueue > 0 && ControlOk(cfg, s) && Rests(cfg, s, pool) && AllFinished(cfg, s, InFeed(pool))
    ensures AllStopped(cfg, s, pool) && AllFinished(cfg, s, OutFeed(pool))
  {
    hide ControlOk;
    forall t: nat | t < cfg.nthreads
      ensures PhaseOf(s.ctl, pool, t) == Stopped
    {
      QueueOfThread(cfg.nthreads, cfg.perQueue, t);
      assert Finished(cfg, s.ctl, InFeed(pool), QueueFor(cfg, t));
    }
    forall q: nat | q < NQueues(cfg)
      ensures Finished(cfg, s.ctl, OutFeed(pool), q)
    {
      StoppedMeansFinished(cfg, s, pool, q);
    }
  }

  /** The wait for an uncompressed original ends: such a chunk is still with Compress or in front of it. */
  lemma UncompressedIsUpstream(cfg: Config, coarse: seq<Bytes>, plan: seq<seq<Bytes>>, s: State)
    requires Sane(cfg) && Holds(cfg, coarse, plan, s) && At(s.mem.buf, Hand) != [] && Waiting(s, At(s.mem.buf, Hand)[0])
    ensures exists p :: KindOf(p).Owned? && At(s.mem.buf, p) != []
  {
    hide Unique, TableOk, RecordsOk, Sorted, Lineage, PrefixStable, Lossless, FragOk, ControlOk, Shapes;
    var c := At(s.mem.buf, Hand)[0];
    FirstOk(cfg, plan, s.mem, Hand);
    OwnerStandsFor(cfg, plan, s, c);
    IsEntryOk(cfg, plan, s.mem, DigestAt(cfg, plan, c));
    var o := Owner(s, c);
    var p :| o in At(s.mem.buf, p);
    UncompressedKind(cfg, plan, s.mem, p, o);
  }

  lemma UncompressedKind(cfg: Config, plan: seq<seq<Bytes>>, m: Memory, p: Place, o: SeqNo)
    requires PrefixStable(cfg.seg) && Shapes(cfg, plan, m) && o in At(m.buf, p)
    requires IsOwner(cfg, plan, m, o) && m.heap[o].state == StateUncompressed
    ensures KindOf(p).Owned?
  {
    assert ChunkOk(cfg, plan, m, KindOf(p), o);
  }

  lemma OwnedIsEmpty(cfg: Config, s: State, p: Place)
    requires cfg.perQueue > 0 && ControlOk(cfg, s) && AllStopped(cfg, s, Deduplicate) && AllStopped(cfg, s, Compress)
    requires KindOf(p).Owned?
    ensures At(s.mem.buf, p) == []
  {
    assert At(s.mem.buf, p) != [] ==> InRange(cfg, p);
    if InRange(cfg, p) {
      match p
      case Send(_, t) => StoppedIsDry(cfg, s, Deduplicate, t);
      case Recv(_, t) => StoppedIsDry(cfg, s, Compress, t);
      case Queue(_, q) =>
        var t := SomeReader(cfg, q);
        StoppedIsDry(cfg, s, Compress, t);
    }
  }

  lemma ReorderCanGoOn(cfg: Config, coarse: seq<Bytes>, plan: seq<seq<Bytes>>, s: State) returns (step: Step)
    requires Sane(cfg) && Holds(cfg, coarse, plan, s) && !s.overrun && !s.ro.exited
    requires AllStopped(cfg, s, Deduplicate) && AllStopped(cfg, s, Compress) && AllFinished(cfg, s, ToReorder)
    ensures Enabled(cfg, s, step)
  {
    hide PrefixStable, Lossless, DataOk, Lineage, FragOk, AllStopped;
    if At(s.mem.buf, Hand) != [] {
      if Waiting(s, At(s.mem.buf, Hand)[0]) {
        UncompressedIsUpstream(cfg, coarse, plan, s);
        var p :| KindOf(p).Owned? && At(s.mem.buf, p) != [];
        OwnedIsEmpty(cfg, s, p);
        assert false;
      }
      step := Writes;
    } else if At(s.mem.buf, ReorderRecv) != [] {
      step := Receives;
    } else {
      step := if At(s.mem.buf, Queue(ToReorder, s.ro.qid)) == [] then PollsEnded else Polls(1);
    }
  }

  lemma FragmentDoneFinishes(cfg: Config, s: State)
    requires cfg.perQueue > 0 && ControlOk(cfg, s) && s.frag.phase == Terminating(NQueues(cfg))
    ensures AllFinished(cfg, s, ToRefine)
  {
  }

  /** Progress: while no reorder queue is full, a state of a run that is not the end has a next step,
      whether the other queues are full or not. */
  lemma SomeoneCanGoOn(cfg: Config, input: Bytes, steps: seq<Step>) returns (step: Step)
    requires Sane(cfg) && IsRun(cfg, Initial(cfg, input), steps)
    requires var s := After(cfg, Initial(cfg, input), steps);
             !s.ro.exited && !s.overrun && HasRoom(cfg, s.mem.buf, ToReorder)
    ensures Enabled(cfg, After(cfg, Initial(cfg, input), steps), step)
  {
    hide PrefixStable, Lossless, Enabled, Apply, DataOk, Lineage, FragOk, ControlOk, TwoLevel, HasRoom,
         AllStopped, AllFinished, Rests;
    var coarse, plan := CoarseChunks(cfg.seg, cfg.jump, input), TwoLevel(cfg.seg, cfg.jump, input);
    var s := After(cfg, Initial(cfg, input), steps);
    RunKeepsInv(cfg, input, steps);
    step := PoolCanGoOn(cfg, s, Compress);
    if !Enabled(cfg, s, step) {
      step := PoolCanGoOn(cfg, s, Deduplicate);
      if !Enabled(cfg, s, step) {
        step := PoolCanGoOn(cfg, s, Refine);
        if !Enabled(cfg, s, step) {
          if s.frag.phase != Terminating(NQueues(cfg)) {
            step := FragCanGoOn(cfg, coarse, plan, s);
          } else {
            FragmentDoneFinishes(cfg, s);
            RestingStops(cfg, s, Refine);
            RestingStops(cfg, s, Deduplicate);
            RestingStops(cfg, s, Compress);
            step := ReorderCanGoOn(cfg, coarse, plan, s);
          }
        }
      }
    }
  }

  // ---- where it can get stuck -------------------------------------------------------------------

  /** Reorder waits for its original to be compressed. */
  ghost predicate WaitsForOriginal(s: State) {
    At(s.mem.buf, Hand) != [] && Waiting(s, At(s.mem.buf, Hand)[0])
  }

  /** Reorder asks a queue that is empty but not finished. */
  ghost predicate WaitsForQueue(cfg: Config, s: State)
    requires cfg.perQueue > 0
  {
    Asking(s) && At(s.mem.buf, Queue(ToReorder, s.ro.qid)) == [] && !Finished(cfg, s.ctl, ToReorder, s.ro.qid)
  }

  lemma ReorderWaits(cfg: Config, s: State)
    requires Sane(cfg) && !s.fault && !s.overrun && !s.ro.exited
    requires !Enabled(cfg, s, Writes) && !Enabled(cfg, s, Receives) && !Enabled(cfg, s, Polls(1))
    requires !Enabled(cfg, s, PollsEnded)
    ensures WaitsForOriginal(s) || WaitsForQueue(cfg, s)
  {
    hide PrefixStable, Lossless;
  }

  /** A run that can go no further has come to its end, has left the array of counts, or is stuck with
      a full reorder queue while Reorder waits: for an original that is still with Compress or in front
      of it, or for another queue that is empty. */
  lemma StuckMeans(cfg: Config, input: Bytes, steps: seq<Step>)
    requires Sane(cfg) && IsRun(cfg, Initial(cfg, input), steps)
    requires forall step :: !Enabled(cfg, After(cfg, Initial(cfg, input), steps), step)
    ensures var s := After(cfg, Initial(cfg, input), steps);
            || s.ro.exited || s.overrun
            || ((exists q: nat :: q < NQueues(cfg) && Full(cfg, s.mem.buf, Queue(ToReorder, q))
                             && (WaitsForOriginal(s) || (WaitsForQueue(cfg, s) && q != s.ro.qid)))
                && (WaitsForOriginal(s) ==> exists p :: KindOf(p).Owned? && At(s.mem.buf, p) != []))
  {
    hide PrefixStable, Lossless, Enabled, Apply, DataOk, Lineage, FragOk, TwoLevel, WaitsForOriginal;
    var coarse, plan := CoarseChunks(cfg.seg, cfg.jump, input), TwoLevel(cfg.seg, cfg.jump, input);
    var s := After(cfg, Initial(cfg, input), steps);
    RunKeepsInv(cfg, input, steps);
    if !s.ro.exited && !s.overrun {
      ReorderWaits(cfg, s);
      if HasRoom(cfg, s.mem.buf, ToReorder) {
        var step := SomeoneCanGoOn(cfg, input, steps);
        assert false;
      }
      var q: nat :| |At(s.mem.buf, Queue(ToReorder, q))| >= cfg.queueSize;
      assert InRange(cfg, Queue(ToReorder, q));
      OriginalIsUpstream(cfg, coarse, plan, s);
    }
  }

  lemma OriginalIsUpstream(cfg: Config, coarse: seq<Bytes>, plan: seq<seq<Bytes>>, s: State)
    requires Sane(cfg) && Holds(cfg, coarse, plan, s)
    ensures WaitsForOriginal(s) ==> exists p :: KindOf(p).Owned? && At(s.mem.buf, p) != []
  {
    hide Holds, PrefixStable, Lossless;
    if WaitsForOriginal(s) {
      UncompressedIsUpstream(cfg, coarse, plan, s);
    }
  }
}
