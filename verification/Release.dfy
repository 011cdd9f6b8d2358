/** What a complete run has done with the chunk objects: every table entry was compressed once, flushed
    once and gave up its data; every duplicate was freed. */
module Release {
  import opened Types
  import opened Chunking
  import opened Archive
  import opened ReorderSpec
  import opened Buffers
  import opened QueueSetup
  import opened Pipeline
  import opened Invariant
  import opened MoveProofs
  import opened ControlProofs
  import opened FrontProofs
  import opened FragmentProofs
  import opened WorkProofs
  import opened ReorderProofs
  import opened Runs
  import opened Completion
  import opened LifeCycle

  // ---- the end ----------------------------------------------------------------------------------

  /** An entry whose digest has been written is flushed and holds no data any more. */
  lemma WrittenIsReleased(cfg: Config, plan: seq<seq<Bytes>>, m: Memory, d: Bytes)
    requires PrefixStable(cfg.seg) && Shapes(cfg, plan, m) && d in m.table && EntryOk(cfg, plan, m, d)
    requires forall p :: p != Out ==> At(m.buf, p) == []
    ensures m.table[d] in m.heap
    ensures var o := m.heap[m.table[d]]; o.state == StateFlushed && o.packed.None? && o.data.None?
  {
    hide PrefixStable;
    var o := m.table[d];
    var p :| o in At(m.buf, p);
    assert ChunkOk(cfg, plan, m, KindOf(Out), o);
    assert DigestWritten(cfg, plan, At(m.buf, Out), d);
  }

  /** Of all pieces exactly the table entries still have an object. */
  lemma OthersAreFreed(cfg: Config, plan: seq<seq<Bytes>>, m: Memory, c: SeqNo)
    requires PrefixStable(cfg.seg) && Shapes(cfg, plan, m) && TableOk(cfg, plan, m) && c in At(m.buf, Out)
    ensures InPlan(plan, c) && DigestAt(cfg, plan, c) in m.table
    ensures c in m.heap <==> m.table[DigestAt(cfg, plan, c)] == c
  {
    hide PrefixStable, TableOk;
    assert ChunkOk(cfg, plan, m, KindOf(Out), c);
    IsEntryOk(cfg, plan, m, DigestAt(cfg, plan, c));
  }

  /** When Reorder has left its loop, every table entry is flushed and its data released, every piece has
      an entry for its digest, and every piece that is not itself an entry has been freed. */
  lemma ExitReleasesAll(cfg: Config, input: Bytes, steps: seq<Step>)
    requires Sane(cfg) && IsRun(cfg, Initial(cfg, input), steps)
    requires After(cfg, Initial(cfg, input), steps).ro.exited
    ensures var m, plan := After(cfg, Initial(cfg, input), steps).mem, TwoLevel(cfg.seg, cfg.jump, input);
            && (forall d :: d in m.table ==> m.table[d] in m.heap && m.heap[m.table[d]].state == StateFlushed
                                             && m.heap[m.table[d]].packed.None? && m.heap[m.table[d]].data.None?)
            && (forall c :: InPlan(plan, c) ==> DigestAt(cfg, plan, c) in m.table
                                                && (c in m.heap <==> m.table[DigestAt(cfg, plan, c)] == c))
  {
    hide PrefixStable, Lossless, Enabled, Apply, Holds, TwoLevel, Chunks, Shapes, TableOk, Unique, Lineage;
    var plan, m := TwoLevel(cfg.seg, cfg.jump, input), After(cfg, Initial(cfg, input), steps).mem;
    RunKeepsInv(cfg, input, steps);
    HoldsParts(cfg, CoarseChunks(cfg.seg, cfg.jump, input), plan, After(cfg, Initial(cfg, input), steps));
    ExitMeansComplete(cfg, input, steps);
    forall d | d in m.table
      ensures m.table[d] in m.heap && m.heap[m.table[d]].state == StateFlushed
      ensures m.heap[m.table[d]].packed.None? && m.heap[m.table[d]].data.None?
    {
      IsEntryOk(cfg, plan, m, d);
      WrittenIsReleased(cfg, plan, m, d);
    }
    forall c | InPlan(plan, c)
      ensures DigestAt(cfg, plan, c) in m.table && (c in m.heap <==> m.table[DigestAt(cfg, plan, c)] == c)
    {
      OrderAtIndex(SizesOf(plan), c);
      OthersAreFreed(cfg, plan, m, c);
    }
  }

  // ---- exactly once -----------------------------------------------------------------------------

  /** The step compresses chunk `c`. */
  predicate Compresses(s: State, step: Step, c: SeqNo) {
    step.Compresses? && At(s.mem.buf, Recv(Compress, step.t)) != [] && At(s.mem.buf, Recv(Compress, step.t))[0] == c
  }

  /** The step writes the compressed data of chunk `c`. */
  predicate Flushes(s: State, step: Step, c: SeqNo) {
    && step.Writes? && At(s.mem.buf, Hand) != [] && At(s.mem.buf, Hand)[0] in s.mem.heap
    && Owner(s, At(s.mem.buf, Hand)[0]) == c && c in s.mem.heap && s.mem.heap[c].state == StateCompressed
  }

  ghost function CountCompressions(cfg: Config, s: State, steps: seq<Step>, c: SeqNo): nat
    requires cfg.perQueue > 0 && IsRun(cfg, s, steps)
    decreases |steps|
  {
    if steps == [] then 0
    else (if Compresses(s, steps[0], c) then 1 else 0) + CountCompressions(cfg, Apply(cfg, s, steps[0]), steps[1..], c)
  }

  ghost function CountFlushes(cfg: Config, s: State, steps: seq<Step>, c: SeqNo): nat
    requires cfg.perQueue > 0 && IsRun(cfg, s, steps)
    decreases |steps|
  {
    if steps == [] then 0
    else (if Flushes(s, steps[0], c) then 1 else 0) + CountFlushes(cfg, Apply(cfg, s, steps[0]), steps[1..], c)
  }

  /** How far the object has come; 0 before it exists. */
  ghost function AgeOf(m: Memory, c: SeqNo): nat {
    if Made(m.buf, c) && c in m.heap then Age(m.heap[c].state) else 0
  }

  /** What one step does to the age of a chunk whose object is not freed. */
  ghost predicate Ages(s: State, s': State, step: Step, c: SeqNo) {
    && (Compresses(s, step, c) <==> AgeOf(s.mem, c) == 0 && AgeOf(s'.mem, c) > 0)
    && (Flushes(s, step, c) <==> AgeOf(s.mem, c) < 2 && AgeOf(s'.mem, c) == 2)
    && AgeOf(s'.mem, c) >= AgeOf(s.mem, c)
  }

  lemma CompressAges(cfg: Config, coarse: seq<Bytes>, plan: seq<seq<Bytes>>, s: State, t: nat, c: SeqNo)
    requires Sane(cfg) && Holds(cfg, coarse, plan, s) && CanWork(cfg, s, Compress, t)
    ensures Ages(s, CompressOne(cfg, s, t), Step.Compresses(t), c)
  {
    hide PrefixStable, Lossless, Holds, Made, Full, Unique, Shapes, TableOk, Lineage, ControlOk, CompressOne, WorkStep;
    var first := At(s.mem.buf, Recv(Compress, t))[0];
    HoldsParts(cfg, coarse, plan, s);
    FirstOk(cfg, plan, s.mem, Recv(Compress, t));
    RunningHasRoom(cfg, s, Compress, t, Send(Compress, t));
    CompressObject(cfg, plan, s, t);
    CompressKeepsMade(cfg, s, t, c);
    IsThere(s.mem.buf, Recv(Compress, t), first);
    hide ChunkOk;
  }

  /** Writing flushes the owner of the chunk in hand if it is not flushed yet, and nothing else. */
  lemma EmitAges(cfg: Config, plan: seq<seq<Bytes>>, m: Memory, h: SeqNo, o: SeqNo, c: SeqNo,
                 heap: map<SeqNo, Pipeline.Chunk>)
    requires At(m.buf, Hand) != [] && StandsFor(cfg, plan, m, h, o) && IsPacked(cfg, plan, m, o)
    requires heap == Emit(m, h, o).heap
    ensures c in heap <==> c in m.heap && !(c == h && m.heap[h].isDuplicate)
    ensures c in heap ==> heap[c].state == if c == o then StateFlushed else m.heap[c].state
    ensures o in m.heap && m.heap[o].state != StateUncompressed
  {
    hide Digested;
  }

  lemma WriteAges(cfg: Config, coarse: seq<Bytes>, plan: seq<seq<Bytes>>, s: State, c: SeqNo)
    requires Sane(cfg) && Holds(cfg, coarse, plan, s) && CanWrite(s)
    requires Made(s.mem.buf, c) && c in s.mem.heap ==> c in WriteOne(s).mem.heap
    ensures Ages(s, WriteOne(s), Writes, c)
  {
    hide PrefixStable, Lossless, Holds, Made, Unique, WriteOne, Pull, ChunkOk, IsPacked, Emit, Shapes, TableOk,
         Lineage, ControlOk;
    HoldsParts(cfg, coarse, plan, s);
    WriteKeepsStage(cfg, coarse, plan, s);
    InHand(cfg, coarse, plan, s);
    WriteIs(cfg, plan, s);
    WriteKeepsMade(cfg, s, c);
    var h := At(s.mem.buf, Hand)[0];
    IsThere(s.mem.buf, Hand, h);
    EmitAges(cfg, plan, s.mem, h, Owner(s, h), c, WriteOne(s).mem.heap);
    EntryIsMade(cfg, plan, s.mem, DigestAt(cfg, plan, h));
    hide StandsFor;
  }

  lemma EntryIsMade(cfg: Config, plan: seq<seq<Bytes>>, m: Memory, d: Bytes)
    requires TableOk(cfg, plan, m)
    ensures d in m.table ==> Made(m.buf, m.table[d])
  {
    assert d in m.table ==> EntryOk(cfg, plan, m, d);
  }

  /** An object that appears is uncompressed. */
  lemma NewIsYoung(cfg: Config, coarse: seq<Bytes>, plan: seq<seq<Bytes>>, s: State, step: Step, c: SeqNo)
    requires Sane(cfg) && Holds(cfg, coarse, plan, s) && Enabled(cfg, s, step) && !Made(s.mem.buf, c)
    requires step.FragReads? || step.FragSplits? || step.Cuts?
    requires Holds(cfg, coarse, plan, Apply(cfg, s, step))
    ensures AgeOf(Apply(cfg, s, step).mem, c) == 0
  {
    hide PrefixStable, Lossless, Holds, Unique, Shapes, TableOk, Lineage, ControlOk;
    var s' := Apply(cfg, s, step);
    HoldsParts(cfg, coarse, plan, s');
    if p :| c in At(s'.mem.buf, p) {
      assert c !in At(s.mem.buf, p);
      NewPlace(cfg, s, step, p, c);
      UnsplitIsYoung(cfg, plan, s'.mem, p, c);
    }
  }

  lemma NewPlace(cfg: Config, s: State, step: Step, p: Place, c: SeqNo)
    requires cfg.perQueue > 0 && Enabled(cfg, s, step) && !Made(s.mem.buf, c) && c in At(Apply(cfg, s, step).mem.buf, p)
    requires step.FragReads? || step.FragSplits? || step.Cuts?
    ensures Unsplit(p)
  {
    hide Full, CutOne;
    forall q
      ensures c !in At(s.mem.buf, q)
    {
    }
    hide Made;
    if step.Cuts? {
      CutBuffers(cfg, s, step.t);
      CutNewPlace(s.mem.buf, step.t, p, c);
    } else {
      FragBuffers(cfg, s, step);
      assert c !in At(s.mem.buf, p);
    }
  }

  lemma FragBuffers(cfg: Config, s: State, step: Step)
    requires cfg.perQueue > 0 && Enabled(cfg, s, step) && (step.FragReads? || step.FragSplits?)
    ensures var b, b' := s.mem.buf, Apply(cfg, s, step).mem.buf;
            b' == b || exists c :: b' == Append(b, FragSend, c)
  {
    hide Full;
    var l1 := if step.FragReads? && s.frag.buffer == [] then s.frag.anchorcount else s.frag.l1;
    var b' := Apply(cfg, s, step).mem.buf;
    assert b' != s.mem.buf ==> b' == Append(s.mem.buf, FragSend, SeqNo(l1, 0));
  }

  lemma CutBuffers(cfg: Config, s: State, t: nat)
    requires CanCut(cfg, s, t)
    ensures var b, b', c := s.mem.buf, CutOne(cfg, s, t).mem.buf, At(s.mem.buf, Cutting(t))[0];
            var moved := Move(b, Cutting(t), 0, 1, Send(Refine, t));
            b' == b || b' == moved || b' == Append(moved, Cutting(t), SeqNo(c.l1, c.l2 + 1))
  {
    hide Full;
  }

  lemma CutNewPlace(b: Buffers, t: nat, p: Place, c: SeqNo)
    requires At(b, Cutting(t)) != [] && forall q :: c !in At(b, q)
    ensures c !in At(Move(b, Cutting(t), 0, 1, Send(Refine, t)), p)
    ensures forall d :: p != Cutting(t) ==>
              c !in At(Append(Move(b, Cutting(t), 0, 1, Send(Refine, t)), Cutting(t), d), p)
  {
    var was := At(b, Cutting(t));
    assert was[0..1] == [was[0]] && was[0] in was;
    assert forall d :: d in was[..0] + was[1..] ==> d in was;
    assert c !in was && c !in At(b, Send(Refine, t)) && c !in At(b, p);
  }

  lemma UnsplitIsYoung(cfg: Config, plan: seq<seq<Bytes>>, m: Memory, p: Place, c: SeqNo)
    requires PrefixStable(cfg.seg) && Shapes(cfg, plan, m) && c in At(m.buf, p) && Unsplit(p)
    ensures c in m.heap && m.heap[c].state == StateUncompressed
  {
    hide PrefixStable, Chunks;
    assert ChunkOk(cfg, plan, m, KindOf(p), c);
  }

  lemma OthersAge(cfg: Config, coarse: seq<Bytes>, plan: seq<seq<Bytes>>, s: State, step: Step, c: SeqNo)
    requires Sane(cfg) && Refines(cfg, coarse, plan) && Holds(cfg, coarse, plan, s) && Enabled(cfg, s, step)
    requires !step.Compresses? && !step.Writes?
    ensures Ages(s, Apply(cfg, s, step), step, c)
  {
    hide PrefixStable, Lossless, Holds, Unique, Made, Refines, Enabled, Apply;
    var s' := Apply(cfg, s, step);
    HoldsParts(cfg, coarse, plan, s);
    StepKeeps(cfg, coarse, plan, s, step);
    if Made(s.mem.buf, c) {
      StepLives(cfg, coarse, plan, s, step, c);
      StepLosesNothing(cfg, s, step, c);
    } else if step.FragReads? || step.FragSplits? || step.Cuts? {
      NewIsYoung(cfg, coarse, plan, s, step, c);
    } else {
      NoneMade(cfg, s, step, c);
    }
  }

  lemma NoneMade(cfg: Config, s: State, step: Step, c: SeqNo)
    requires Sane(cfg) && Unique(s.mem.buf) && Enabled(cfg, s, step) && !Made(s.mem.buf, c)
    requires !step.Compresses? && !step.Writes? && !step.FragReads? && !step.FragSplits? && !step.Cuts?
    ensures !Made(Apply(cfg, s, step).mem.buf, c)
  {
    hide PrefixStable, Lossless, Made, Unique, CanFragPush, FragPush, CanFetch, Fetch, CanTake, TakeCoarse,
         CanWork, DedupOne, CanPush, Push, CanPoll, Poll, CanReceive, ReceiveOne;
    match step
    case FragPushes(_) => MovesKeepMade(cfg, s, step, c);
    case Fetches(_, _, _) => MovesKeepMade(cfg, s, step, c);
    case Takes(_) => MovesKeepMade(cfg, s, step, c);
    case Pushes(_, _, _, _) => MovesKeepMade(cfg, s, step, c);
    case Polls(_) => MovesKeepMade(cfg, s, step, c);
    case Receives => MovesKeepMade(cfg, s, step, c);
    case Deduplicates(t) => DedupKeepsMade(cfg, s, t, c);
    case _ =>
  }

  lemma StepAges(cfg: Config, coarse: seq<Bytes>, plan: seq<seq<Bytes>>, s: State, step: Step, c: SeqNo)
    requires Sane(cfg) && Refines(cfg, coarse, plan) && Holds(cfg, coarse, plan, s) && Enabled(cfg, s, step)
    requires Made(s.mem.buf, c) && c in s.mem.heap ==> c in Apply(cfg, s, step).mem.heap
    ensures Ages(s, Apply(cfg, s, step), step, c)
  {
    hide PrefixStable, Lossless, Holds, Refines, Made, CompressOne, CanWork, WriteOne, CanWrite, Ages;
    match step
    case Compresses(t) => CompressAges(cfg, coarse, plan, s, t, c);
    case Writes => WriteAges(cfg, coarse, plan, s, c);
    case _ => OthersAge(cfg, coarse, plan, s, step, c);
  }

  /** An object that was freed does not come back. */
  lemma {:induction false} FreedStaysFreed(cfg: Config, coarse: seq<Bytes>, plan: seq<seq<Bytes>>, s: State,
                                           steps: seq<Step>, c: SeqNo)
    requires Sane(cfg) && Refines(cfg, coarse, plan) && Holds(cfg, coarse, plan, s) && IsRun(cfg, s, steps)
    requires Made(s.mem.buf, c) && c !in s.mem.heap
    ensures c !in After(cfg, s, steps).mem.heap
    decreases |steps|
  {
    hide Holds, PrefixStable, Lossless, Refines, Enabled, Apply, Unique, Made;
    if steps != [] {
      HoldsParts(cfg, coarse, plan, s);
      StepKeeps(cfg, coarse, plan, s, steps[0]);
      StepLives(cfg, coarse, plan, s, steps[0], c);
      StepLosesNothing(cfg, s, steps[0], c);
      FreedStaysFreed(cfg, coarse, plan, Apply(cfg, s, steps[0]), steps[1..], c);
    }
  }

  /** Compressions and flushes of an object that is still there at the end, counted from any state on. */
  lemma {:induction false} CountsAreAges(cfg: Config, coarse: seq<Bytes>, plan: seq<seq<Bytes>>, s: State,
                                         steps: seq<Step>, c: SeqNo)
    requires Sane(cfg) && Refines(cfg, coarse, plan) && Holds(cfg, coarse, plan, s) && IsRun(cfg, s, steps)
    requires c in After(cfg, s, steps).mem.heap
    ensures var was, now := AgeOf(s.mem, c), AgeOf(After(cfg, s, steps).mem, c);
            && was <= now
            && CountCompressions(cfg, s, steps, c) == (if was == 0 && now > 0 then 1 else 0)
            && CountFlushes(cfg, s, steps, c) == (if was < 2 && now == 2 then 1 else 0)
    decreases |steps|
  {
    hide Holds, PrefixStable, Lossless, Refines, Enabled, Apply, AgeOf, Compresses, Flushes;
    if steps != [] {
      var t := Apply(cfg, s, steps[0]);
      StepKeeps(cfg, coarse, plan, s, steps[0]);
      if Made(s.mem.buf, c) && c !in t.mem.heap {
        HoldsParts(cfg, coarse, plan, s);
        StepLosesNothing(cfg, s, steps[0], c);
        FreedStaysFreed(cfg, coarse, plan, t, steps[1..], c);
        assert false;
      }
      StepAges(cfg, coarse, plan, s, steps[0], c);
      CountsAreAges(cfg, coarse, plan, t, steps[1..], c);
      AgeAtEnd(t.mem, c);
      AgeAtEnd(After(cfg, s, steps).mem, c);
    }
  }

  lemma AgeAtEnd(m: Memory, c: SeqNo)
    ensures AgeOf(m, c) <= 2
    ensures Made(m.buf, c) && c in m.heap && m.heap[c].state == StateFlushed ==> AgeOf(m, c) == 2
  {
  }

  /** In a complete run every table entry was compressed exactly once and flushed exactly once. */
  lemma ExactlyOnce(cfg: Config, input: Bytes, steps: seq<Step>, d: Bytes)
    requires Sane(cfg) && IsRun(cfg, Initial(cfg, input), steps)
    requires After(cfg, Initial(cfg, input), steps).ro.exited && d in After(cfg, Initial(cfg, input), steps).mem.table
    ensures var o := After(cfg, Initial(cfg, input), steps).mem.table[d];
            && CountCompressions(cfg, Initial(cfg, input), steps, o) == 1
            && CountFlushes(cfg, Initial(cfg, input), steps, o) == 1
  {
    hide PrefixStable, Lossless, Enabled, Apply, Holds, Refines, TwoLevel, Chunks, TableOk, CountCompressions,
         CountFlushes, AgeOf;
    var coarse, plan := CoarseChunks(cfg.seg, cfg.jump, input), TwoLevel(cfg.seg, cfg.jump, input);
    var s := After(cfg, Initial(cfg, input), steps);
    RunKeepsInv(cfg, input, steps);
    InitialHolds(cfg, input);
    RefinesInput(cfg, input);
    HoldsParts(cfg, coarse, plan, s);
    ExitReleasesAll(cfg, input, steps);
    EntryIsMade(cfg, plan, s.mem, d);
    CountsAreAges(cfg, coarse, plan, Initial(cfg, input), steps, s.mem.table[d]);
    AgeAtEnd(s.mem, s.mem.table[d]);
    YoungAtFirst(cfg, input, s.mem.table[d]);
  }

  lemma YoungAtFirst(cfg: Config, input: Bytes, c: SeqNo)
    ensures AgeOf(Initial(cfg, input).mem, c) == 0
  {
  }
}
