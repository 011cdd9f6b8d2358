/** Phases, termination counts and the shutdown protocol. */
module ControlProofs {
  import opened Types
  import opened Chunking
  import opened Archive
  import opened ReorderSpec
  import opened Buffers
  import opened QueueSetup
  import opened Pipeline
  import opened Invariant

  // ---- shutdown ---------------------------------------------------------------------------------

  /** A queue that counts as terminated has no producer left that has not stopped. */
  lemma FinishedMeansStopped(cfg: Config, f: Frag, ctl: Control, pool: Pool, t: nat)
    requires cfg.perQueue > 0 && EndedOk(cfg, f, ctl) && t < cfg.nthreads
    requires Finished(cfg, ctl, OutFeed(pool), QueueFor(cfg, t))
    ensures PhaseOf(ctl, pool, t) == Stopped
  {
    var q := QueueFor(cfg, t);
    QueueOfThread(cfg.nthreads, cfg.perQueue, t);
    ProducerCountIsRight(cfg.nthreads, cfg.perQueue, q);
    CountReached(cfg.nthreads, StoppedOn(ctl, pool, cfg.perQueue, q), WorksOn(cfg.perQueue, q), t);
  }

  /** No queue counts as terminated while a thread that may still put something into it runs. The
      reorder queues are fed by Deduplicate but terminated by Compress alone; they are safe because a
      Compress thread stops only after every Deduplicate thread of its queue has stopped, and that
      one stops only with both send buffers empty. */
  lemma TargetIsOpen(cfg: Config, s: State, pool: Pool, t: nat, p: Place)
    requires cfg.perQueue > 0 && ControlOk(cfg, s) && t < cfg.nthreads
    requires SendPlace(p, pool, t) && PhaseOf(s.ctl, pool, t) != Stopped
    ensures Target(cfg, p).Queue? && Target(cfg, p).q < NQueues(cfg)
    ensures !Finished(cfg, s.ctl, Target(cfg, p).feed, Target(cfg, p).q)
  {
    QueueOfThread(cfg.nthreads, cfg.perQueue, t);
    if Finished(cfg, s.ctl, Target(cfg, p).feed, Target(cfg, p).q) {
      if p == Send(pool, t) {
        FinishedMeansStopped(cfg, s.frag, s.ctl, pool, t);
      } else {
        FinishedMeansStopped(cfg, s.frag, s.ctl, Compress, t);
        assert WorkerOk(cfg, s.mem.buf, s.ctl, Compress, t);
        FinishedMeansStopped(cfg, s.frag, s.ctl, Deduplicate, t);
      }
    }
  }

  // ---- frames -----------------------------------------------------------------------------------

  /** The worker a buffer belongs to. */
  function WorkerOf(p: Place): Option<Worker> {
    match p
    case Recv(pool, t) => Some(Worker(pool, t))
    case Cutting(t) => Some(Worker(Refine, t))
    case Send(pool, t) => Some(Worker(pool, t))
    case SendDup(t) => Some(Worker(Deduplicate, t))
    case _ => None
  }

  /** Only buffers of `me`, or of nobody, differ. */
  ghost predicate OnlyMine(b: Buffers, b': Buffers, me: Option<Worker>) {
    forall p :: WorkerOf(p).Some? && WorkerOf(p) != me ==> At(b', p) == At(b, p)
  }

  ghost predicate PhasesKept(ctl: Control, ctl': Control, me: Option<Worker>) {
    forall pool, t :: Some(Worker(pool, t)) != me ==> PhaseOf(ctl', pool, t) == PhaseOf(ctl, pool, t)
  }

  /** What was finished and empty still is. */
  ghost predicate DryKept(cfg: Config, s: State, s': State)
    requires cfg.perQueue > 0
  {
    forall feed, q: nat :: q < NQueues(cfg) && Dry(cfg, s.mem.buf, s.ctl, feed, q)
           ==> Dry(cfg, s'.mem.buf, s'.ctl, feed, q)
  }

  lemma WorkerKept(cfg: Config, s: State, s': State, me: Option<Worker>, pool: Pool, t: nat)
    requires cfg.perQueue > 0 && t < cfg.nthreads && WorkerOk(cfg, s.mem.buf, s.ctl, pool, t)
    requires OnlyMine(s.mem.buf, s'.mem.buf, me) && PhasesKept(s.ctl, s'.ctl, me) && DryKept(cfg, s, s')
    requires Some(Worker(pool, t)) != me
    ensures WorkerOk(cfg, s'.mem.buf, s'.ctl, pool, t)
  {
    QueueOfThread(cfg.nthreads, cfg.perQueue, t);
    assert WorkerOf(Send(pool, t)) == WorkerOf(Recv(pool, t)) == Some(Worker(pool, t));
    assert pool == Refine ==> WorkerOf(Cutting(t)) == Some(Worker(pool, t));
    assert pool == Deduplicate ==> WorkerOf(SendDup(t)) == Some(Worker(pool, t));
  }

  lemma WorkersKept(cfg: Config, s: State, s': State, me: Option<Worker>)
    requires cfg.perQueue > 0 && ControlOk(cfg, s)
    requires OnlyMine(s.mem.buf, s'.mem.buf, me) && PhasesKept(s.ctl, s'.ctl, me) && DryKept(cfg, s, s')
    requires me.Some? && me.value.t < cfg.nthreads ==> WorkerOk(cfg, s'.mem.buf, s'.ctl, me.value.pool, me.value.t)
    ensures forall pool, t: nat :: t < cfg.nthreads ==> WorkerOk(cfg, s'.mem.buf, s'.ctl, pool, t)
  {
    forall pool, t: nat | t < cfg.nthreads
      ensures WorkerOk(cfg, s'.mem.buf, s'.ctl, pool, t)
    {
      if Some(Worker(pool, t)) != me {
        WorkerKept(cfg, s, s', me, pool, t);
      }
    }
  }

  /** Termination counts depend on who has stopped only. */
  lemma EndedKept(cfg: Config, s: State, s': State)
    requires cfg.perQueue > 0 && EndedOk(cfg, s.frag, s.ctl)
    requires s'.ctl.ended == s.ctl.ended
    requires (s'.frag.phase.Terminating? && s'.frag.phase.done > 0) || (s.frag.phase.Terminating?
             && s.frag.phase.done > 0)
             ==> s'.frag.phase == s.frag.phase
    requires forall pool, t :: PhaseOf(s'.ctl, pool, t) == Stopped <==> PhaseOf(s.ctl, pool, t) == Stopped
    ensures EndedOk(cfg, s'.frag, s'.ctl)
  {
    forall pool, q: nat | q < NQueues(cfg)
      ensures EndedCount(s'.ctl, Queue(OutFeed(pool), q))
              == Count(cfg.nthreads, StoppedOn(s'.ctl, pool, cfg.perQueue, q))
    {
      CountSame(cfg.nthreads, StoppedOn(s.ctl, pool, cfg.perQueue, q), StoppedOn(s'.ctl, pool, cfg.perQueue, q));
    }
  }

  lemma ReorderKept(cfg: Config, s: State, s': State)
    requires cfg.perQueue > 0 && ReorderOk(cfg, s) && DryKept(cfg, s, s')
    requires s'.ro == s.ro && At(s'.mem.buf, Hand) == At(s.mem.buf, Hand)
             && At(s'.mem.buf, ReorderRecv) == At(s.mem.buf, ReorderRecv)
    ensures ReorderOk(cfg, s')
  {
  }

  lemma RangeAfterMove(cfg: Config, b: Buffers, from: Place, lo: nat, hi: nat, to: Place)
    requires cfg.perQueue > 0 && lo <= hi <= |At(b, from)| && from != to
    requires (forall p :: At(b, p) != [] ==> InRange(cfg, p)) && InRange(cfg, to)
    ensures forall p :: At(Move(b, from, lo, hi, to), p) != [] ==> InRange(cfg, p)
  {
    var b' := Move(b, from, lo, hi, to);
    forall p | At(b', p) != []
      ensures InRange(cfg, p)
    {
      if p != from && p != to {
        assert At(b', p) == At(b, p);
      } else if p == from {
        assert At(b, from) != [];
      }
    }
  }

  /** A queue that is not finished may receive, any other place may change at will. */
  lemma DryAfterMove(cfg: Config, s: State, s': State, from: Place, lo: nat, hi: nat, to: Place)
    requires cfg.perQueue > 0 && lo <= hi <= |At(s.mem.buf, from)| && from != to
    requires s'.mem.buf == Move(s.mem.buf, from, lo, hi, to) && s'.ctl.ended == s.ctl.ended
    requires to.Queue? ==> !Finished(cfg, s.ctl, to.feed, to.q)
    ensures DryKept(cfg, s, s')
  {
    forall feed, q: nat | q < NQueues(cfg) && Dry(cfg, s.mem.buf, s.ctl, feed, q)
      ensures Dry(cfg, s'.mem.buf, s'.ctl, feed, q)
    {
      assert Queue(feed, q) != to;
      if Queue(feed, q) == from {
        assert At(s'.mem.buf, from) == [];
      } else {
        assert At(s'.mem.buf, Queue(feed, q)) == At(s.mem.buf, Queue(feed, q));
      }
    }
  }

  // ---- the steps that only move chunks or change phases -----------------------------------------

  lemma FragPushControl(cfg: Config, s: State, n: nat)
    requires cfg.perQueue > 0 && ControlOk(cfg, s) && CanFragPush(cfg, s, n) && s.frag.qid < NQueues(cfg)
    ensures ControlOk(cfg, FragPush(cfg, s, n))
  {
    var s' := FragPush(cfg, s, n);
    var to := Queue(ToRefine, s.frag.qid);
    RangeAfterMove(cfg, s.mem.buf, FragSend, 0, n, to);
    assert EndedCount(s.ctl, to) == 0;
    DryAfterMove(cfg, s, s', FragSend, 0, n, to);
    WorkersKept(cfg, s, s', None);
    EndedKept(cfg, s, s');
    ReorderKept(cfg, s, s');
  }

  lemma FetchControl(cfg: Config, s: State, pool: Pool, t: nat, n: nat)
    requires cfg.perQueue > 0 && ControlOk(cfg, s) && CanFetch(cfg, s, pool, t, n)
    ensures ControlOk(cfg, Fetch(cfg, s, pool, t, n))
  {
    var s' := Fetch(cfg, s, pool, t, n);
    var from := Queue(InFeed(pool), QueueFor(cfg, t));
    RangeAfterMove(cfg, s.mem.buf, from, 0, n, Recv(pool, t));
    DryAfterMove(cfg, s, s', from, 0, n, Recv(pool, t));
    assert WorkerOk(cfg, s.mem.buf, s.ctl, pool, t);
    WorkersKept(cfg, s, s', Some(Worker(pool, t)));
    EndedKept(cfg, s, s');
    ReorderKept(cfg, s, s');
  }

  lemma TakeControl(cfg: Config, s: State, t: nat)
    requires cfg.perQueue > 0 && ControlOk(cfg, s) && CanTake(cfg, s, t)
    ensures ControlOk(cfg, TakeCoarse(s, t))
  {
    var s' := TakeCoarse(s, t);
    RangeAfterMove(cfg, s.mem.buf, Recv(Refine, t), 0, 1, Cutting(t));
    DryAfterMove(cfg, s, s', Recv(Refine, t), 0, 1, Cutting(t));
    assert WorkerOk(cfg, s.mem.buf, s.ctl, Refine, t);
    WorkersKept(cfg, s, s', Some(Worker(Refine, t)));
    EndedKept(cfg, s, s');
    ReorderKept(cfg, s, s');
  }

  lemma ExitControl(cfg: Config, s: State, pool: Pool, t: nat)
    requires cfg.perQueue > 0 && ControlOk(cfg, s) && CanExit(cfg, s, pool, t)
    ensures ControlOk(cfg, Exit(s, pool, t))
  {
    var s' := Exit(s, pool, t);
    assert WorkerOk(cfg, s.mem.buf, s.ctl, pool, t);
    WorkersKept(cfg, s, s', Some(Worker(pool, t)));
    EndedKept(cfg, s, s');
    ReorderKept(cfg, s, s');
  }

  /** A buffer that is passed on, even in part, is not full any more. */
  lemma PushWorker(cfg: Config, s: State, pool: Pool, t: nat, p: Place, n: nat)
    requires cfg.perQueue > 0 && ControlOk(cfg, s) && CanPush(cfg, s, pool, t, p, n)
    requires DryKept(cfg, s, Push(cfg, s, pool, t, p, n))
    ensures WorkerOk(cfg, Push(cfg, s, pool, t, p, n).mem.buf, Push(cfg, s, pool, t, p, n).ctl, pool, t)
  {
    assert WorkerOk(cfg, s.mem.buf, s.ctl, pool, t);
    QueueOfThread(cfg.nthreads, cfg.perQueue, t);
    var s' := Push(cfg, s, pool, t, p, n);
    assert At(s'.mem.buf, p) == At(s.mem.buf, p)[n..];
  }

  lemma PushFrame(cfg: Config, s: State, pool: Pool, t: nat, p: Place, n: nat)
    requires cfg.perQueue > 0 && CanPush(cfg, s, pool, t, p, n)
    ensures var s' := Push(cfg, s, pool, t, p, n);
            && OnlyMine(s.mem.buf, s'.mem.buf, Some(Worker(pool, t)))
            && PhasesKept(s.ctl, s'.ctl, Some(Worker(pool, t)))
            && s'.ctl.ended == s.ctl.ended
            && (forall pool, t :: PhaseOf(s'.ctl, pool, t) == Stopped <==> PhaseOf(s.ctl, pool, t) == Stopped)
            && At(s'.mem.buf, Hand) == At(s.mem.buf, Hand) && At(s'.mem.buf, ReorderRecv) == At(s.mem.buf, ReorderRecv)
  {
  }

  lemma PushControl(cfg: Config, s: State, pool: Pool, t: nat, p: Place, n: nat)
    requires cfg.perQueue > 0 && ControlOk(cfg, s) && CanPush(cfg, s, pool, t, p, n)
    ensures ControlOk(cfg, Push(cfg, s, pool, t, p, n))
  {
    var s' := Push(cfg, s, pool, t, p, n);
    TargetIsOpen(cfg, s, pool, t, p);
    RangeAfterMove(cfg, s.mem.buf, p, 0, n, Target(cfg, p));
    DryAfterMove(cfg, s, s', p, 0, n, Target(cfg, p));
    PushWorker(cfg, s, pool, t, p, n);
    PushFrame(cfg, s, pool, t, p, n);
    WorkersKept(cfg, s, s', Some(Worker(pool, t)));
    EndedKept(cfg, s, s');
    ReorderKept(cfg, s, s');
  }

  // ---- termination ------------------------------------------------------------------------------

  lemma StopEnded(cfg: Config, s: State, pool: Pool, t: nat)
    requires cfg.perQueue > 0 && EndedOk(cfg, s.frag, s.ctl) && CanStop(cfg, s, pool, t)
    ensures EndedOk(cfg, s.frag, Stop(cfg, s, pool, t).ctl)
  {
    var ctl' := Stop(cfg, s, pool, t).ctl;
    forall pool', q: nat | q < NQueues(cfg)
      ensures EndedCount(ctl', Queue(OutFeed(pool'), q)) == Count(cfg.nthreads, StoppedOn(ctl', pool', cfg.perQueue, q))
    {
      var f, g := StoppedOn(s.ctl, pool', cfg.perQueue, q), StoppedOn(ctl', pool', cfg.perQueue, q);
      if pool' == pool && q == QueueFor(cfg, t) {
        CountOneMore(cfg.nthreads, f, g, t);
      } else {
        CountSame(cfg.nthreads, f, g);
      }
    }
  }

  lemma StopControl(cfg: Config, s: State, pool: Pool, t: nat)
    requires cfg.perQueue > 0 && ControlOk(cfg, s) && CanStop(cfg, s, pool, t)
    ensures ControlOk(cfg, Stop(cfg, s, pool, t))
  {
    var s' := Stop(cfg, s, pool, t);
    assert WorkerOk(cfg, s.mem.buf, s.ctl, pool, t);
    forall feed, q: nat | q < NQueues(cfg) && Dry(cfg, s.mem.buf, s.ctl, feed, q)
      ensures Dry(cfg, s'.mem.buf, s'.ctl, feed, q)
    {
      if feed == OutFeed(pool) && q == QueueFor(cfg, t) {
        FinishedMeansStopped(cfg, s.frag, s.ctl, pool, t);
      }
    }
    QueueOfThread(cfg.nthreads, cfg.perQueue, t);
    WorkersKept(cfg, s, s', Some(Worker(pool, t)));
    StopEnded(cfg, s, pool, t);
    ReorderKept(cfg, s, s');
  }

  lemma FragTerminateControl(cfg: Config, s: State)
    requires cfg.perQueue > 0 && ControlOk(cfg, s) && s.frag.phase.Terminating? && s.frag.phase.done < NQueues(cfg)
    ensures ControlOk(cfg, FragTerminate(s))
  {
    var s' := FragTerminate(s);
    assert EndedCount(s.ctl, Queue(ToRefine, s.frag.phase.done)) == 0;
    WorkersKept(cfg, s, s', None);
    forall pool, q: nat | q < NQueues(cfg)
      ensures EndedCount(s'.ctl, Queue(OutFeed(pool), q))
              == Count(cfg.nthreads, StoppedOn(s'.ctl, pool, cfg.perQueue, q))
    {
      CountSame(cfg.nthreads, StoppedOn(s.ctl, pool, cfg.perQueue, q), StoppedOn(s'.ctl, pool, cfg.perQueue, q));
    }
    ReorderKept(cfg, s, s');
  }

  /** Steps of Fragment that put at most something into its send buffer. */
  lemma FragControl(cfg: Config, s: State, s': State)
    requires cfg.perQueue > 0 && ControlOk(cfg, s) && s'.ctl == s.ctl && s'.ro == s.ro
    requires forall p :: p != FragSend ==> At(s'.mem.buf, p) == At(s.mem.buf, p)
    requires !s.frag.phase.Terminating? && (s'.frag.phase.Terminating? ==> s'.frag.phase.done == 0)
    ensures ControlOk(cfg, s')
  {
    WorkersKept(cfg, s, s', None);
    EndedKept(cfg, s, s');
    ReorderKept(cfg, s, s');
    forall p | At(s'.mem.buf, p) != []
      ensures InRange(cfg, p)
    {
      assert p != FragSend ==> At(s.mem.buf, p) != [];
    }
  }

  // ---- the workers' work ------------------------------------------------------------------------

  /** A worker takes one chunk to a send buffer with room in it, and passes the buffer on if it is
      full then. FragmentRefine may go on with a new chunk. */
  ghost predicate WorkStep(cfg: Config, s: State, s': State, pool: Pool, t: nat, from: Place, to: Place)
    requires cfg.perQueue > 0
  {
    && t < cfg.nthreads && PhaseOf(s.ctl, pool, t) == Running
    && (from == Recv(pool, t) || (from == Cutting(t) && pool == Refine)) && SendPlace(to, pool, t)
    && |At(s'.mem.buf, to)| == |At(s.mem.buf, to)| + 1
    && (forall p :: p != from && p != to ==> At(s'.mem.buf, p) == At(s.mem.buf, p))
    && s'.ctl == (if Full(cfg, s'.mem.buf, to) then SetPhase(s.ctl, pool, t, Pushing(to)) else s.ctl)
    && s'.frag == s.frag && s'.ro == s.ro
  }

  lemma WorkWorker(cfg: Config, s: State, s': State, pool: Pool, t: nat, from: Place, to: Place)
    requires cfg.perQueue > 0 && WorkerOk(cfg, s.mem.buf, s.ctl, pool, t)
    requires WorkStep(cfg, s, s', pool, t, from, to)
    ensures WorkerOk(cfg, s'.mem.buf, s'.ctl, pool, t)
  {
    assert !Full(cfg, s.mem.buf, to);
  }

  lemma WorkFrame(cfg: Config, s: State, s': State, pool: Pool, t: nat, from: Place, to: Place)
    requires cfg.perQueue > 0 && WorkStep(cfg, s, s', pool, t, from, to)
    ensures OnlyMine(s.mem.buf, s'.mem.buf, Some(Worker(pool, t)))
    ensures PhasesKept(s.ctl, s'.ctl, Some(Worker(pool, t))) && DryKept(cfg, s, s')
    ensures s'.ctl.ended == s.ctl.ended
    ensures forall pool, t :: PhaseOf(s'.ctl, pool, t) == Stopped <==> PhaseOf(s.ctl, pool, t) == Stopped
    ensures At(s'.mem.buf, Hand) == At(s.mem.buf, Hand) && At(s'.mem.buf, ReorderRecv) == At(s.mem.buf, ReorderRecv)
  {
  }

  lemma WorkControl(cfg: Config, s: State, s': State, pool: Pool, t: nat, from: Place, to: Place)
    requires cfg.perQueue > 0 && ControlOk(cfg, s) && WorkStep(cfg, s, s', pool, t, from, to)
    ensures ControlOk(cfg, s')
  {
    assert WorkerOk(cfg, s.mem.buf, s.ctl, pool, t);
    WorkFrame(cfg, s, s', pool, t, from, to);
    WorkWorker(cfg, s, s', pool, t, from, to);
    WorkersKept(cfg, s, s', Some(Worker(pool, t)));
    EndedKept(cfg, s, s');
    ReorderKept(cfg, s, s');
    forall p | At(s'.mem.buf, p) != []
      ensures InRange(cfg, p)
    {
      assert p != from && p != to ==> At(s.mem.buf, p) != [];
    }
  }

  // ---- Reorder ----------------------------------------------------------------------------------

  lemma NextQueueIs(cfg: Config, qid: nat)
    requires cfg.perQueue > 0 && qid < NQueues(cfg)
    ensures NextQueue(cfg, qid) == if qid + 1 == NQueues(cfg) then 0 else qid + 1
  {
    if qid + 1 < NQueues(cfg) {
      assert (qid + 1) % NQueues(cfg) == qid + 1;
    }
  }

  lemma PollControl(cfg: Config, s: State, n: nat)
    requires cfg.perQueue > 0 && ControlOk(cfg, s) && CanPoll(cfg, s, n)
    ensures ControlOk(cfg, Poll(cfg, s, n))
  {
    var s' := Poll(cfg, s, n);
    var from := Queue(ToReorder, s.ro.qid);
    RangeAfterMove(cfg, s.mem.buf, from, 0, n, ReorderRecv);
    DryAfterMove(cfg, s, s', from, 0, n, ReorderRecv);
    WorkersKept(cfg, s, s', None);
    EndedKept(cfg, s, s');
    NextQueueIs(cfg, s.ro.qid);
  }

  /** A round in which every queue was found finished covers all queues. */
  lemma PollEndedControl(cfg: Config, s: State)
    requires cfg.perQueue > 0 && ControlOk(cfg, s) && CanPollEnded(cfg, s)
    ensures ControlOk(cfg, PollEnded(cfg, s))
  {
    var s' := PollEnded(cfg, s);
    NextQueueIs(cfg, s.ro.qid);
    WorkersKept(cfg, s, s', None);
    forall q: nat | q < NQueues(cfg) && Behind(NQueues(cfg), s'.ro.qid, q) < s'.ro.tried
      ensures Dry(cfg, s'.mem.buf, s'.ctl, ToReorder, q)
    {
      if q != s.ro.qid {
        assert Behind(NQueues(cfg), s.ro.qid, q) < s.ro.tried;
        assert Dry(cfg, s.mem.buf, s.ctl, ToReorder, q);
      }
    }
  }

  /** Steps of Reorder on its own buffers. */
  lemma ReorderStepControl(cfg: Config, s: State, s': State)
    requires cfg.perQueue > 0 && ControlOk(cfg, s) && s'.ctl == s.ctl && s'.frag == s.frag
    requires s'.ro.qid == s.ro.qid && s'.ro.tried == s.ro.tried && s'.ro.exited == s.ro.exited && !s.ro.exited
    requires forall p :: p != ReorderRecv && p != Cache && p != Hand && p != Out
                    ==> At(s'.mem.buf, p) == At(s.mem.buf, p)
    requires |At(s'.mem.buf, Hand)| <= 1
    ensures ControlOk(cfg, s')
  {
    WorkersKept(cfg, s, s', None);
    EndedKept(cfg, s, s');
    forall p | At(s'.mem.buf, p) != []
      ensures InRange(cfg, p)
    {
      assert p != ReorderRecv && p != Cache && p != Hand && p != Out ==> At(s.mem.buf, p) != [];
    }
    forall q: nat | q < NQueues(cfg) && Behind(NQueues(cfg), s'.ro.qid, q) < s'.ro.tried
      ensures Dry(cfg, s'.mem.buf, s'.ctl, ToReorder, q)
    {
      assert Dry(cfg, s.mem.buf, s.ctl, ToReorder, q);
    }
  }
}
