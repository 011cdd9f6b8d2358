/** The life of a chunk object: it is compressed at most once, flushed at most once, its compressed
    data is released with the flush, and an object others refer to is never freed. */
module LifeCycle {
  import opened Types
  import opened Chunking
  import opened Archive
  import opened ReorderSpec
  import opened Buffers
  import opened QueueSetup
  import opened Pipeline
  import opened Invariant
  import opened MoveProofs
  import opened FrontProofs
  import opened FragmentProofs
  import opened WorkProofs
  import opened ReorderProofs
  import opened Runs

  /** What one step may do to one object. */
  ghost predicate Evolves(a: Pipeline.Chunk, b: Pipeline.Chunk, step: Step) {
    && (a.lockReady ==> b.lockReady)
    && ((b.state == a.state && b.packed == a.packed)
        || (step.Compresses? && a.lockReady && a.state == StateUncompressed && b.state == StateCompressed
            && a.packed.None? && b.packed.Some? && a.data.Some? && b.data.None?)
        || (step.Writes? && a.lockReady && a.state == StateCompressed && b.state == StateFlushed
            && a.packed.Some? && b.packed.None?))
  }

  /** An object lives on, or it is a duplicate that was just written; what was freed does not return. */
  ghost predicate LivesOn(m: Memory, m': Memory, step: Step, c: SeqNo) {
    if c in m.heap && c in m'.heap then Evolves(m.heap[c], m'.heap[c], step)
    else if c in m.heap then step.Writes? && m.heap[c].isDuplicate && c in At(m.buf, Hand)
    else c !in m'.heap
  }

  lemma FragmentLives(cfg: Config, coarse: seq<Bytes>, plan: seq<seq<Bytes>>, s: State, step: Step, c: SeqNo)
    requires Sane(cfg) && Refines(cfg, coarse, plan) && Holds(cfg, coarse, plan, s) && Enabled(cfg, s, step)
             && Made(s.mem.buf, c)
    requires step.FragReads? || step.FragSplits?
    ensures LivesOn(s.mem, Apply(cfg, s, step).mem, step, c)
  {
    hide PrefixStable, Lossless, DataOk, ControlOk, Refines;
    NotMadeYet(plan, Emitted(coarse, s.frag), s.mem.buf);
  }

  lemma CutLives(cfg: Config, coarse: seq<Bytes>, plan: seq<seq<Bytes>>, s: State, t: nat, c: SeqNo)
    requires Sane(cfg) && Holds(cfg, coarse, plan, s) && CanCut(cfg, s, t) && Made(s.mem.buf, c)
    ensures LivesOn(s.mem, CutOne(cfg, s, t).mem, Cuts(t), c)
  {
    hide PrefixStable, Lossless, DataOk, ControlOk, FragOk, Lineage, Made;
    NextIsNew(plan, Emitted(coarse, s.frag), s.mem.buf, t);
  }

  lemma EmitLives(cfg: Config, plan: seq<seq<Bytes>>, m: Memory, m': Memory, h: SeqNo, c: SeqNo)
    requires At(m.buf, Hand) != [] && h == At(m.buf, Hand)[0] && h in m.heap
    requires exists o :: StandsFor(cfg, plan, m, h, o) && IsPacked(cfg, plan, m, o) && m'.heap == Emit(m, h, o).heap
    ensures LivesOn(m, m', Writes, c)
  {
    hide Digested;
    var o :| StandsFor(cfg, plan, m, h, o) && IsPacked(cfg, plan, m, o) && m'.heap == Emit(m, h, o).heap;
  }

  lemma WriteLives(cfg: Config, coarse: seq<Bytes>, plan: seq<seq<Bytes>>, s: State, c: SeqNo)
    requires Sane(cfg) && Holds(cfg, coarse, plan, s) && CanWrite(s)
    ensures LivesOn(s.mem, WriteOne(s).mem, Writes, c)
  {
    hide Holds, PrefixStable, Lossless, WriteOne, Pull, CanWrite, ChunkOk, Made, StandsFor, IsPacked, LivesOn, Emit;
    HoldsParts(cfg, coarse, plan, s);
    WriteKeepsStage(cfg, coarse, plan, s);
    InHand(cfg, coarse, plan, s);
    WriteIs(cfg, plan, s);
    EmitLives(cfg, plan, s.mem, WriteOne(s).mem, At(s.mem.buf, Hand)[0], c);
  }

  /** Every step, in every state an interleaving can reach, treats every chunk made so far like this. */
  lemma StepLives(cfg: Config, coarse: seq<Bytes>, plan: seq<seq<Bytes>>, s: State, step: Step, c: SeqNo)
    requires Sane(cfg) && Refines(cfg, coarse, plan) && Holds(cfg, coarse, plan, s) && Enabled(cfg, s, step)
             && Made(s.mem.buf, c)
    ensures LivesOn(s.mem, Apply(cfg, s, step).mem, step, c)
  {
    hide Holds, PrefixStable, Lossless, Refines, FragRead, FragSplit, CutOne, CanCut, WriteOne, CanWrite, Made;
    match step
    case FragReads => FragmentLives(cfg, coarse, plan, s, step, c);
    case FragSplits => FragmentLives(cfg, coarse, plan, s, step, c);
    case Cuts(t) => CutLives(cfg, coarse, plan, s, t, c);
    case Writes => WriteLives(cfg, coarse, plan, s, c);
    case _ =>
  }

  lemma WriteTable(s: State)
    requires CanWrite(s)
    ensures WriteOne(s).mem.table == s.mem.table
  {
  }

  lemma WorkTable(cfg: Config, s: State, step: Step)
    requires cfg.perQueue > 0 && Enabled(cfg, s, step) && (step.Cuts? || step.Compresses? || step.Deduplicates?)
    ensures TableGrows(s.mem, Apply(cfg, s, step).mem)
  {
    hide Full, Move;
  }

  /** The object of a digest never changes. */
  lemma StepTable(cfg: Config, s: State, step: Step)
    requires cfg.perQueue > 0 && Enabled(cfg, s, step)
    ensures TableGrows(s.mem, Apply(cfg, s, step).mem)
  {
    hide WriteOne, CutOne, DedupOne, CompressOne, CanFragPush, CanFetch, CanExit, CanTake, CanCut, CanPush,
         CanStop, CanPoll, CanPollEnded, CanReceive, CanWrite;
    match step
    case Writes => WriteTable(s);
    case Cuts(_) => WorkTable(cfg, s, step);
    case Compresses(_) => WorkTable(cfg, s, step);
    case Deduplicates(_) => WorkTable(cfg, s, step);
    case _ =>
  }

  lemma RunLives(cfg: Config, input: Bytes, steps: seq<Step>, step: Step, c: SeqNo)
    requires Sane(cfg) && IsRun(cfg, Initial(cfg, input), steps)
    requires var s := After(cfg, Initial(cfg, input), steps); Enabled(cfg, s, step) && Made(s.mem.buf, c)
    ensures var s := After(cfg, Initial(cfg, input), steps); LivesOn(s.mem, Apply(cfg, s, step).mem, step, c)
  {
    hide PrefixStable, Lossless, Enabled, Apply, Holds, Refines, TwoLevel, Chunks, Made, LivesOn;
    RunKeepsInv(cfg, input, steps);
    RefinesInput(cfg, input);
    StepLives(cfg, CoarseChunks(cfg.seg, cfg.jump, input), TwoLevel(cfg.seg, cfg.jump, input),
              After(cfg, Initial(cfg, input), steps), step, c);
  }

  function Age(state: ChunkState): nat {
    match state
    case StateUncompressed => 0
    case StateCompressed => 1
    case StateFlushed => 2
  }

  /** A table entry stays what it is: alive, not a duplicate, with its lock, and its state only moves
      forward. */
  lemma {:induction false} EntryLives(cfg: Config, coarse: seq<Bytes>, plan: seq<seq<Bytes>>, s: State,
                                      steps: seq<Step>, d: Bytes)
    requires Sane(cfg) && Refines(cfg, coarse, plan) && Holds(cfg, coarse, plan, s) && IsRun(cfg, s, steps)
    requires d in s.mem.table
    ensures var m, m' := s.mem, After(cfg, s, steps).mem;
            && d in m'.table && m'.table[d] == m.table[d] && m.table[d] in m.heap && m.table[d] in m'.heap
            && !m'.heap[m.table[d]].isDuplicate && m'.heap[m.table[d]].lockReady
            && Age(m.heap[m.table[d]].state) <= Age(m'.heap[m.table[d]].state)
    decreases |steps|
  {
    hide Holds, PrefixStable, Lossless, Refines, Enabled, Apply, TableOk, Shapes, Lineage, ControlOk, Unique;
    HoldsParts(cfg, coarse, plan, s);
    IsEntryOk(cfg, plan, s.mem, d);
    if steps != [] {
      StepKeeps(cfg, coarse, plan, s, steps[0]);
      StepTable(cfg, s, steps[0]);
      StepLives(cfg, coarse, plan, s, steps[0], s.mem.table[d]);
      EntryLives(cfg, coarse, plan, Apply(cfg, s, steps[0]), steps[1..], d);
    }
  }

  /** Whatever refers to another chunk refers to the table's object for the same digest, which is alive,
      is no duplicate itself and has a lock. */
  lemma ReferencesAreAlive(cfg: Config, input: Bytes, steps: seq<Step>, p: Place, c: SeqNo)
    requires Sane(cfg) && IsRun(cfg, Initial(cfg, input), steps)
    requires var m := After(cfg, Initial(cfg, input), steps).mem;
             c in At(m.buf, p) && c in m.heap && !Unsplit(p) && !KindOf(p).Fresh? && m.heap[c].isDuplicate
    ensures var m := After(cfg, Initial(cfg, input), steps).mem;
            var o := m.heap[c].original;
            && o in m.heap && !m.heap[o].isDuplicate && m.heap[o].lockReady && m.heap[o].sha1 == m.heap[c].sha1
            && m.heap[c].sha1 in m.table && m.table[m.heap[c].sha1] == o && Made(m.buf, o)
  {
    hide PrefixStable, Lossless, Enabled, Apply, Holds, TwoLevel, Chunks, Made, Unique, Lineage, ControlOk;
    var plan, s := TwoLevel(cfg.seg, cfg.jump, input), After(cfg, Initial(cfg, input), steps);
    RunKeepsInv(cfg, input, steps);
    HoldsParts(cfg, CoarseChunks(cfg.seg, cfg.jump, input), plan, s);
    assert ChunkOk(cfg, plan, s.mem, KindOf(p), c);
    hide Shapes, TableOk;
    IsEntryOk(cfg, plan, s.mem, s.mem.heap[c].sha1);
  }

  // ---- no chunk is lost -------------------------------------------------------------------------

  lemma AppendKeepsMade(b: Buffers, p: Place, c: SeqNo, d: SeqNo)
    requires Made(b, d)
    ensures Made(Append(b, p, c), d)
  {
    var q :| d in At(b, q);
    assert d in At(Append(b, p, c), q);
  }

  lemma CutLosesNothing(cfg: Config, s: State, t: nat, c: SeqNo)
    requires Unique(s.mem.buf) && CanCut(cfg, s, t) && Made(s.mem.buf, c)
    ensures Made(CutOne(cfg, s, t).mem.buf, c)
  {
    hide Made, Unique, Full;
    var first := At(s.mem.buf, Cutting(t))[0];
    MoveKeepsMade(s.mem.buf, Cutting(t), 0, 1, Send(Refine, t), c);
    var b := Move(s.mem.buf, Cutting(t), 0, 1, Send(Refine, t));
    AppendKeepsMade(b, Cutting(t), SeqNo(first.l1, first.l2 + 1), c);
  }

  lemma DedupKeepsMade(cfg: Config, s: State, t: nat, c: SeqNo)
    requires Unique(s.mem.buf) && CanWork(cfg, s, Deduplicate, t)
    ensures Made(DedupOne(cfg, s, t).mem.buf, c) <==> Made(s.mem.buf, c)
  {
    hide Made, Unique, Full;
    MoveKeepsMade(s.mem.buf, Recv(Deduplicate, t), 0, 1, Send(Deduplicate, t), c);
    MoveKeepsMade(s.mem.buf, Recv(Deduplicate, t), 0, 1, SendDup(t), c);
  }

  lemma CompressKeepsMade(cfg: Config, s: State, t: nat, c: SeqNo)
    requires Unique(s.mem.buf) && CanWork(cfg, s, Compress, t)
    ensures Made(CompressOne(cfg, s, t).mem.buf, c) <==> Made(s.mem.buf, c)
  {
    hide Made, Unique, Full;
    MoveKeepsMade(s.mem.buf, Recv(Compress, t), 0, 1, Send(Compress, t), c);
  }

  lemma InsertLosesNothing(cfg: Config, s: State, step: Step, c: SeqNo)
    requires cfg.perQueue > 0 && Enabled(cfg, s, step) && (step.FragReads? || step.FragSplits?) && Made(s.mem.buf, c)
    ensures Made(Apply(cfg, s, step).mem.buf, c)
  {
    hide Made;
    AppendKeepsMade(s.mem.buf, FragSend, SeqNo(s.frag.l1, 0), c);
    AppendKeepsMade(s.mem.buf, FragSend, SeqNo(s.frag.anchorcount, 0), c);
  }

  lemma WriteKeepsMade(cfg: Config, s: State, c: SeqNo)
    requires Unique(s.mem.buf) && CanWrite(s)
    ensures Made(WriteOne(s).mem.buf, c) <==> Made(s.mem.buf, c)
  {
    hide Made, Unique;
    var b := Move(s.mem.buf, Hand, 0, 1, Out);
    MoveKeepsMade(s.mem.buf, Hand, 0, 1, Out, c);
    MoveKeepsUnique(s.mem.buf, Hand, 0, 1, Out);
    if WriteOne(s).mem.buf != s.mem.buf && WriteOne(s).mem.buf != b {
      var next := Advance(s.ro.counts, s.ro.next);
      assert next in Cached(b);
      var i := IndexOf(At(b, Cache), next);
      MoveKeepsMade(b, Cache, i, i + 1, Hand, c);
    }
  }

  lemma MovesKeepMade(cfg: Config, s: State, step: Step, c: SeqNo)
    requires Sane(cfg) && Unique(s.mem.buf) && Enabled(cfg, s, step)
    requires step.FragPushes? || step.Fetches? || step.Takes? || step.Pushes? || step.Polls? || step.Receives?
    ensures Made(Apply(cfg, s, step).mem.buf, c) <==> Made(s.mem.buf, c)
  {
    hide PrefixStable, Lossless, Made, Unique;
    match step
    case FragPushes(n) => MoveKeepsMade(s.mem.buf, FragSend, 0, n, Queue(ToRefine, s.frag.qid), c);
    case Fetches(pool, t, n) => MoveKeepsMade(s.mem.buf, Queue(InFeed(pool), QueueFor(cfg, t)), 0, n, Recv(pool, t), c);
    case Takes(t) => MoveKeepsMade(s.mem.buf, Recv(Refine, t), 0, 1, Cutting(t), c);
    case Pushes(pool, t, p, n) => MoveKeepsMade(s.mem.buf, p, 0, n, Target(cfg, p), c);
    case Polls(n) => MoveKeepsMade(s.mem.buf, Queue(ToReorder, s.ro.qid), 0, n, ReorderRecv, c);
    case Receives =>
      MoveKeepsMade(s.mem.buf, ReorderRecv, 0, 1, Hand, c);
      MoveKeepsMade(s.mem.buf, ReorderRecv, 0, 1, Cache, c);
  }

  lemma StepLosesNothing(cfg: Config, s: State, step: Step, c: SeqNo)
    requires Sane(cfg) && Unique(s.mem.buf) && Enabled(cfg, s, step) && Made(s.mem.buf, c)
    ensures Made(Apply(cfg, s, step).mem.buf, c)
  {
    hide PrefixStable, Lossless, Made, Unique, FragRead, FragSplit, CanFragPush, FragPush, CanFetch, Fetch,
         CanTake, TakeCoarse, CanCut, CutOne, CanWork, DedupOne, CompressOne, CanPush, Push, CanPoll, Poll,
         CanReceive, ReceiveOne, CanWrite, WriteOne;
    match step
    case FragReads => InsertLosesNothing(cfg, s, step, c);
    case FragSplits => InsertLosesNothing(cfg, s, step, c);
    case FragPushes(_) => MovesKeepMade(cfg, s, step, c);
    case Fetches(_, _, _) => MovesKeepMade(cfg, s, step, c);
    case Takes(_) => MovesKeepMade(cfg, s, step, c);
    case Pushes(_, _, _, _) => MovesKeepMade(cfg, s, step, c);
    case Polls(_) => MovesKeepMade(cfg, s, step, c);
    case Receives => MovesKeepMade(cfg, s, step, c);
    case Writes => WriteKeepsMade(cfg, s, c);
    case Cuts(t) => CutLosesNothing(cfg, s, t, c);
    case Deduplicates(t) => DedupKeepsMade(cfg, s, t, c);
    case Compresses(t) => CompressKeepsMade(cfg, s, t, c);
    case _ =>
  }

  lemma {:induction false} RunLosesNothing(cfg: Config, coarse: seq<Bytes>, plan: seq<seq<Bytes>>, s: State,
                                           steps: seq<Step>, c: SeqNo)
    requires Sane(cfg) && Refines(cfg, coarse, plan) && Holds(cfg, coarse, plan, s) && IsRun(cfg, s, steps)
    requires Made(s.mem.buf, c)
    ensures Made(After(cfg, s, steps).mem.buf, c)
    decreases |steps|
  {
    hide Holds, PrefixStable, Lossless, Refines, Enabled, Apply, Unique, Made;
    if steps != [] {
      HoldsParts(cfg, coarse, plan, s);
      StepKeeps(cfg, coarse, plan, s, steps[0]);
      StepLosesNothing(cfg, s, steps[0], c);
      RunLosesNothing(cfg, coarse, plan, Apply(cfg, s, steps[0]), steps[1..], c);
    }
  }

  /** A chunk that exists at some time of a run exists in exactly one place, once, at every later time. */
  lemma ChunkIsSomewhereOnce(cfg: Config, input: Bytes, steps: seq<Step>, more: seq<Step>, c: SeqNo)
    requires Sane(cfg) && IsRun(cfg, Initial(cfg, input), steps)
    requires IsRun(cfg, After(cfg, Initial(cfg, input), steps), more)
    requires Made(After(cfg, Initial(cfg, input), steps).mem.buf, c)
    ensures var b := After(cfg, After(cfg, Initial(cfg, input), steps), more).mem.buf;
            && (exists p, i :: 0 <= i < |At(b, p)| && At(b, p)[i] == c)
            && (forall p, i, q, j :: 0 <= i < |At(b, p)| && At(b, p)[i] == c && 0 <= j < |At(b, q)| && At(b, q)[j] == c
                                     ==> p == q && i == j)
  {
    hide PrefixStable, Lossless, Enabled, Apply, Holds, Refines, TwoLevel, Chunks, Made, Unique, NoRepeats;
    RunKeepsInv(cfg, input, steps);
    RefinesInput(cfg, input);
    var coarse, plan, s := CoarseChunks(cfg.seg, cfg.jump, input), TwoLevel(cfg.seg, cfg.jump, input), After(cfg,
                                        Initial(cfg, input), steps);
    RunLosesNothing(cfg, coarse, plan, s, more, c);
    RunKeepsHolds(cfg, coarse, plan, s, more);
    HoldsParts(cfg, coarse, plan, After(cfg, s, more));
    OnePlaceOnly(After(cfg, s, more).mem.buf, c);
  }

  lemma OnePlaceOnly(b: Buffers, c: SeqNo)
    requires Unique(b) && Made(b, c)
    ensures exists p, i :: 0 <= i < |At(b, p)| && At(b, p)[i] == c
    ensures forall p, i, q, j :: 0 <= i < |At(b, p)| && At(b, p)[i] == c && 0 <= j < |At(b, q)| && At(b, q)[j] == c
                                 ==> p == q && i == j
  {
    forall p, i, q, j | 0 <= i < |At(b, p)| && At(b, p)[i] == c && 0 <= j < |At(b, q)| && At(b, q)[j] == c
      ensures p == q && i == j
    {
      assert NoRepeats(At(b, p));
      assert c in At(b, p) && c in At(b, q);
    }
  }
}
