/** The invariant holds in every state that any interleaving of the threads can reach. */
module Runs {
  import opened Types
  import opened Chunking
  import opened Archive
  import opened ReorderSpec
  import opened Buffers
  import opened QueueSetup
  import opened Pipeline
  import opened Invariant
  import opened MoveProofs
  import opened FrontProofs
  import opened ControlProofs
  import opened FragmentProofs
  import opened WorkProofs
  import opened ReorderProofs

  // ---- the beginning ----------------------------------------------------------------------------

  lemma SomeQueue(cfg: Config)
    requires cfg.perQueue > 0 && cfg.nthreads > 0
    ensures NQueues(cfg) > 0
  {
    QueueOfThread(cfg.nthreads, cfg.perQueue, 0);
  }

  lemma {:induction false} CountNone(n: nat, f: nat -> bool)
    requires forall t: nat :: t < n ==> !f(t)
    ensures Count(n, f) == 0
  {
    if n > 0 {
      CountNone(n - 1, f);
    }
  }

  lemma InitialControl(cfg: Config, input: Bytes)
    requires Sane(cfg)
    ensures ControlOk(cfg, Initial(cfg, input))
  {
    hide PrefixStable, Lossless;
    var s := Initial(cfg, input);
    SomeQueue(cfg);
    forall pool, q: nat | q < NQueues(cfg)
      ensures EndedCount(s.ctl, Queue(OutFeed(pool), q)) == Count(cfg.nthreads, StoppedOn(s.ctl, pool, cfg.perQueue, q))
    {
      CountNone(cfg.nthreads, StoppedOn(s.ctl, pool, cfg.perQueue, q));
    }
  }

  lemma InitialData(cfg: Config, plan: seq<seq<Bytes>>, input: Bytes)
    requires Sane(cfg) && forall a :: 0 <= a < |plan| ==> plan[a] != []
    ensures DataOk(cfg, plan, Initial(cfg, input)) && Lineage(plan, 0, Initial(cfg, input).mem.buf)
  {
    hide PrefixStable, Lossless;
    var s := Initial(cfg, input);
    InitiallySorted(SizesOf(plan), cfg.anchors);
    assert StageOf(s) == Stage(SeqNo(0, 0), Zeros(cfg.anchors), {}, None, []);
  }

  lemma InitialHolds(cfg: Config, input: Bytes)
    requires Sane(cfg)
    ensures Inv(cfg, input, Initial(cfg, input))
  {
    hide DataOk, Lineage, ControlOk, PrefixStable, Lossless, Chunks, TwoLevel;
    var coarse, plan := CoarseChunks(cfg.seg, cfg.jump, input), TwoLevel(cfg.seg, cfg.jump, input);
    RefinesInput(cfg, input);
    InitialData(cfg, plan, input);
    InitialControl(cfg, input);
    SomeQueue(cfg);
    assert [] + input == input && coarse[0..] == coarse;
  }

  // ---- one step ---------------------------------------------------------------------------------

  lemma FragStepKeeps(cfg: Config, coarse: seq<Bytes>, plan: seq<seq<Bytes>>, s: State, step: Step)
    requires Sane(cfg) && Refines(cfg, coarse, plan) && Holds(cfg, coarse, plan, s) && Enabled(cfg, s, step)
    requires step.FragReads? || step.FragSplits? || step.FragPushes? || step.FragDrained? || step.FragTerminates?
    ensures Holds(cfg, coarse, plan, Apply(cfg, s, step))
  {
    hide Holds, PrefixStable, Lossless, Refines, FragRead, FragSplit, CanFragPush, FragPush, FragTerminate;
    match step
    case FragReads => FragReadKeeps(cfg, coarse, plan, s);
    case FragSplits => FragSplitKeeps(cfg, coarse, plan, s);
    case FragPushes(n) => FragPushKeeps(cfg, coarse, plan, s, n);
    case FragDrained => FragDrainedKeeps(cfg, coarse, plan, s);
    case FragTerminates => FragTerminateKeeps(cfg, coarse, plan, s);
  }

  lemma FragDrainedKeeps(cfg: Config, coarse: seq<Bytes>, plan: seq<seq<Bytes>>, s: State)
    requires Sane(cfg) && Holds(cfg, coarse, plan, s) && s.frag.phase == FragDraining && At(s.mem.buf, FragSend) == []
    ensures Holds(cfg, coarse, plan, s.(frag := s.frag.(phase := Terminating(0))))
  {
    hide DataOk, Lineage, ControlOk, PrefixStable, Lossless;
    Stays(cfg, coarse, plan, s, s.frag.(phase := Terminating(0)));
  }

  lemma WorkerStepKeeps(cfg: Config, coarse: seq<Bytes>, plan: seq<seq<Bytes>>, s: State, step: Step)
    requires Sane(cfg) && Holds(cfg, coarse, plan, s) && Enabled(cfg, s, step)
    requires step.Fetches? || step.Exits? || step.Takes? || step.Cuts? || step.Deduplicates? || step.Compresses?
             || step.Pushes? || step.Stops?
    ensures Holds(cfg, coarse, plan, Apply(cfg, s, step))
  {
    hide Holds, PrefixStable, Lossless, CanFetch, Fetch, CanExit, Exit, CanTake, TakeCoarse, CanCut, CutOne,
         CanWork, DedupOne, CompressOne, CanPush, Push, CanStop, Stop;
    match step
    case Fetches(pool, t, n) => FetchKeeps(cfg, coarse, plan, s, pool, t, n);
    case Exits(pool, t) => ExitKeeps(cfg, coarse, plan, s, pool, t);
    case Takes(t) => TakeKeeps(cfg, coarse, plan, s, t);
    case Cuts(t) => CutKeeps(cfg, coarse, plan, s, t);
    case Deduplicates(t) => DedupKeeps(cfg, coarse, plan, s, t);
    case Compresses(t) => CompressKeeps(cfg, coarse, plan, s, t);
    case Pushes(pool, t, p, n) => PushKeeps(cfg, coarse, plan, s, pool, t, p, n);
    case Stops(pool, t) => StopKeeps(cfg, coarse, plan, s, pool, t);
  }

  lemma ReorderStepKeeps(cfg: Config, coarse: seq<Bytes>, plan: seq<seq<Bytes>>, s: State, step: Step)
    requires Sane(cfg) && Holds(cfg, coarse, plan, s) && Enabled(cfg, s, step)
    requires step.Polls? || step.PollsEnded? || step.Receives? || step.Writes?
    ensures Holds(cfg, coarse, plan, Apply(cfg, s, step))
  {
    hide Holds, PrefixStable, Lossless, CanPoll, Poll, CanPollEnded, PollEnded, CanReceive, ReceiveOne,
         CanWrite, WriteOne;
    match step
    case Polls(n) => PollKeeps(cfg, coarse, plan, s, n);
    case PollsEnded => PollEndedKeeps(cfg, coarse, plan, s);
    case Receives => ReceiveKeeps(cfg, coarse, plan, s);
    case Writes => WriteKeeps(cfg, coarse, plan, s);
  }

  lemma StepKeeps(cfg: Config, coarse: seq<Bytes>, plan: seq<seq<Bytes>>, s: State, step: Step)
    requires Sane(cfg) && Refines(cfg, coarse, plan) && Holds(cfg, coarse, plan, s) && Enabled(cfg, s, step)
    ensures Holds(cfg, coarse, plan, Apply(cfg, s, step))
  {
    hide Holds, PrefixStable, Lossless, Refines, Enabled, Apply;
    match step
    case FragReads => FragStepKeeps(cfg, coarse, plan, s, step);
    case FragSplits => FragStepKeeps(cfg, coarse, plan, s, step);
    case FragPushes(_) => FragStepKeeps(cfg, coarse, plan, s, step);
    case FragDrained => FragStepKeeps(cfg, coarse, plan, s, step);
    case FragTerminates => FragStepKeeps(cfg, coarse, plan, s, step);
    case Polls(_) => ReorderStepKeeps(cfg, coarse, plan, s, step);
    case PollsEnded => ReorderStepKeeps(cfg, coarse, plan, s, step);
    case Receives => ReorderStepKeeps(cfg, coarse, plan, s, step);
    case Writes => ReorderStepKeeps(cfg, coarse, plan, s, step);
    case _ => WorkerStepKeeps(cfg, coarse, plan, s, step);
  }

  // ---- whole runs -------------------------------------------------------------------------------

  lemma {:induction false} RunKeepsHolds(cfg: Config, coarse: seq<Bytes>, plan: seq<seq<Bytes>>, s: State,
                                         steps: seq<Step>)
    requires Sane(cfg) && Refines(cfg, coarse, plan) && Holds(cfg, coarse, plan, s) && IsRun(cfg, s, steps)
    ensures Holds(cfg, coarse, plan, After(cfg, s, steps))
    decreases |steps|
  {
    hide Holds, PrefixStable, Lossless, Refines, Enabled, Apply;
    if steps != [] {
      StepKeeps(cfg, coarse, plan, s, steps[0]);
      RunKeepsHolds(cfg, coarse, plan, Apply(cfg, s, steps[0]), steps[1..]);
    }
  }

  /** Whatever the input and however the threads are scheduled: the invariant holds at all times. In
      particular no assertion fails, no freed buffer and no uninitialised lock is used. */
  lemma RunKeepsInv(cfg: Config, input: Bytes, steps: seq<Step>)
    requires Sane(cfg) && IsRun(cfg, Initial(cfg, input), steps)
    ensures Inv(cfg, input, After(cfg, Initial(cfg, input), steps))
    ensures !After(cfg, Initial(cfg, input), steps).fault
  {
    hide PrefixStable, Lossless, Refines, Enabled, Apply, Chunks, TwoLevel, DataOk, ControlOk, Lineage, FragOk;
    RefinesInput(cfg, input);
    InitialHolds(cfg, input);
    RunKeepsHolds(cfg, CoarseChunks(cfg.seg, cfg.jump, input), TwoLevel(cfg.seg, cfg.jump, input), Initial(cfg,
                  input), steps);
  }

  // ---- shutdown ---------------------------------------------------------------------------------

  /** No thread ever puts a chunk into a queue that counts as terminated. */
  lemma PushesAreInTime(cfg: Config, input: Bytes, steps: seq<Step>, step: Step)
    requires Sane(cfg) && IsRun(cfg, Initial(cfg, input), steps)
    requires (step.Pushes? || step.FragPushes?) && Enabled(cfg, After(cfg, Initial(cfg, input), steps), step)
    ensures var s := After(cfg, Initial(cfg, input), steps);
            var to := if step.Pushes? then Target(cfg, step.p) else Queue(ToRefine, s.frag.qid);
            to.Queue? && to.q < NQueues(cfg) && !Finished(cfg, s.ctl, to.feed, to.q)
  {
    hide PrefixStable, Lossless, Refines, Apply, Chunks, TwoLevel, DataOk, Lineage;
    RunKeepsInv(cfg, input, steps);
    var s := After(cfg, Initial(cfg, input), steps);
    match step
    case Pushes(pool, t, p, n) => TargetIsOpen(cfg, s, pool, t, p);
    case FragPushes(n) => assert EndedCount(s.ctl, Queue(ToRefine, s.frag.qid)) == 0;
  }

  // ---- taking turns -----------------------------------------------------------------------------

  /** How often Fragment passed something on, or how often Reorder asked a queue, successfully or not. */
  function Turns(steps: seq<Step>, byFragment: bool): nat {
    if steps == [] then 0
    else
      (if byFragment then (if steps[0].FragPushes? then 1 else 0)
       else if steps[0].Polls? || steps[0].PollsEnded? then 1 else 0) + Turns(steps[1..], byFragment)
  }

  lemma QueueStep(cfg: Config, s: State, step: Step)
    requires cfg.perQueue > 0 && Enabled(cfg, s, step)
    ensures var t := Apply(cfg, s, step);
            && t.frag.qid == (if step.FragPushes? then NextQueue(cfg, s.frag.qid) else s.frag.qid)
            && t.ro.qid == (if step.Polls? || step.PollsEnded? then NextQueue(cfg, s.ro.qid) else s.ro.qid)
  {
    hide NextQueue;
  }

  lemma NextOfModulo(k: nat, m: nat)
    requires m > 0
    ensures (k % m + 1) % m == (k + 1) % m
  {
    var r := k % m;
    assert k == k / m * m + r;
    if r + 1 < m {
      ModUnique(k + 1, m, k / m, r + 1);
      ModUnique(r + 1, m, 0, r + 1);
    } else {
      assert (k / m + 1) * m == k / m * m + m;
      ModUnique(k + 1, m, k / m + 1, 0);
      ModUnique(r + 1, m, 1, 0);
    }
  }

  lemma {:induction false} TurnsGoOn(cfg: Config, s: State, steps: seq<Step>, k: nat, l: nat)
    requires cfg.perQueue > 0 && NQueues(cfg) > 0 && IsRun(cfg, s, steps)
    requires s.frag.qid == k % NQueues(cfg) && s.ro.qid == l % NQueues(cfg)
    ensures After(cfg, s, steps).frag.qid == (k + Turns(steps, true)) % NQueues(cfg)
    ensures After(cfg, s, steps).ro.qid == (l + Turns(steps, false)) % NQueues(cfg)
    decreases |steps|
  {
    hide Enabled, Apply, NumQueues;
    if steps != [] {
      QueueStep(cfg, s, steps[0]);
      NextOfModulo(k, NQueues(cfg));
      NextOfModulo(l, NQueues(cfg));
      var k' := if steps[0].FragPushes? then k + 1 else k;
      var l' := if steps[0].Polls? || steps[0].PollsEnded? then l + 1 else l;
      TurnsGoOn(cfg, Apply(cfg, s, steps[0]), steps[1..], k', l');
    }
  }

  /** Fragment feeds the refine queues one after the other, and Reorder asks its queues one after the other:
      the k-th turn is that of queue k modulo the number of queues. */
  lemma QueuesTakeTurns(cfg: Config, input: Bytes, steps: seq<Step>)
    requires Sane(cfg) && IsRun(cfg, Initial(cfg, input), steps)
    ensures NQueues(cfg) > 0
    ensures After(cfg, Initial(cfg, input), steps).frag.qid == Turns(steps, true) % NQueues(cfg)
    ensures After(cfg, Initial(cfg, input), steps).ro.qid == Turns(steps, false) % NQueues(cfg)
  {
    hide PrefixStable, Lossless, Enabled, Apply;
    SomeQueue(cfg);
    TurnsGoOn(cfg, Initial(cfg, input), steps, 0, 0);
  }

  // ---- the end of chunks_per_anchor -------------------------------------------------------------

  lemma CountsOnlyGrow(cfg: Config, s: State, step: Step)
    requires cfg.perQueue > 0 && Enabled(cfg, s, step)
    ensures |Apply(cfg, s, step).ro.counts| >= |s.ro.counts|
    ensures Apply(cfg, s, step).overrun ==> step.Receives? && !InBounds(s.ro.counts, At(s.mem.buf, ReorderRecv)[0].l1)
  {
  }

  lemma {:induction false} RunStaysInBounds(cfg: Config, coarse: seq<Bytes>, plan: seq<seq<Bytes>>, s: State,
                                            steps: seq<Step>)
    requires Sane(cfg) && Refines(cfg, coarse, plan) && Holds(cfg, coarse, plan, s) && IsRun(cfg, s, steps)
    requires |plan| <= 2 * |s.ro.counts| && !s.overrun
    ensures !After(cfg, s, steps).overrun
    decreases |steps|
  {
    hide Holds, PrefixStable, Lossless, Refines, Apply;
    if steps != [] {
      StepKeeps(cfg, coarse, plan, s, steps[0]);
      CountsOnlyGrow(cfg, s, steps[0]);
      if steps[0].Receives? {
        HoldsParts(cfg, coarse, plan, s);
        FirstOk(cfg, plan, s.mem, ReorderRecv);
        InBoundsExactly(s.ro.counts, At(s.mem.buf, ReorderRecv)[0].l1);
      }
      RunStaysInBounds(cfg, coarse, plan, Apply(cfg, s, steps[0]), steps[1..]);
    }
  }

  /** With no more coarse chunks than twice the first capacity no schedule leaves the array. */
  lemma NeverOverrun(cfg: Config, input: Bytes, steps: seq<Step>)
    requires Sane(cfg) && IsRun(cfg, Initial(cfg, input), steps)
    requires |CoarseChunks(cfg.seg, cfg.jump, input)| <= 2 * cfg.anchors
    ensures !After(cfg, Initial(cfg, input), steps).overrun
  {
    hide PrefixStable, Lossless, Refines, Enabled, Apply, Chunks, DataOk, ControlOk, Lineage, FragOk;
    RefinesInput(cfg, input);
    InitialHolds(cfg, input);
    RunStaysInBounds(cfg, CoarseChunks(cfg.seg, cfg.jump, input), TwoLevel(cfg.seg, cfg.jump, input),
                     Initial(cfg, input), steps);
  }
}
