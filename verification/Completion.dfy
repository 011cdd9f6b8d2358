/** What the parallel encoder has written, at the end and at any time before, whatever the schedule. */
module Completion {
  import opened Types
  import opened Chunking
  import opened Archive
  import opened FileFormat
  import opened ReorderSpec
  import opened Buffers
  import opened QueueSetup
  import opened Pipeline
  import opened Invariant
  import opened ControlProofs
  import opened FragmentProofs
  import opened WorkProofs
  import opened ReorderProofs
  import opened Runs

  // ---- when Reorder has left its loop, everything else is empty ---------------------------------

  ghost predicate AllDry(cfg: Config, s: State, feed: Feed)
    requires cfg.perQueue > 0
  {
    forall q: nat :: q < NQueues(cfg) ==> Dry(cfg, s.mem.buf, s.ctl, feed, q)
  }

  /** Every queue has a thread that reads it. */
  lemma SomeReader(cfg: Config, q: nat) returns (t: nat)
    requires cfg.perQueue > 0 && q < NQueues(cfg)
    ensures t < cfg.nthreads && QueueFor(cfg, t) == q
  {
    t := q * cfg.perQueue;
    QueueOfExactly(t, cfg.perQueue, q);
    ProducerCountIsRight(cfg.nthreads, cfg.perQueue, q);
    CountWorkers(cfg.nthreads, cfg.perQueue, q);
  }

  /** The queues a pool feeds can only be finished when the queues it reads are. */
  lemma DryUpstream(cfg: Config, s: State, pool: Pool)
    requires cfg.perQueue > 0 && ControlOk(cfg, s) && AllDry(cfg, s, OutFeed(pool))
    ensures AllDry(cfg, s, InFeed(pool))
    ensures forall t: nat :: t < cfg.nthreads ==> PhaseOf(s.ctl, pool, t) == Stopped
  {
    hide Dry, WorkerOk, ReorderOk;
    forall t: nat | t < cfg.nthreads
      ensures PhaseOf(s.ctl, pool, t) == Stopped
    {
      ReaderStopped(cfg, s, pool, t);
    }
    forall q: nat | q < NQueues(cfg)
      ensures Dry(cfg, s.mem.buf, s.ctl, InFeed(pool), q)
    {
      var t := SomeReader(cfg, q);
      StoppedIsDry(cfg, s, pool, t);
    }
  }

  lemma ReaderStopped(cfg: Config, s: State, pool: Pool, t: nat)
    requires cfg.perQueue > 0 && ControlOk(cfg, s) && AllDry(cfg, s, OutFeed(pool)) && t < cfg.nthreads
    ensures PhaseOf(s.ctl, pool, t) == Stopped
  {
    QueueOfThread(cfg.nthreads, cfg.perQueue, t);
    assert Dry(cfg, s.mem.buf, s.ctl, OutFeed(pool), QueueFor(cfg, t));
    FinishedMeansStopped(cfg, s.frag, s.ctl, pool, t);
  }

  lemma StoppedIsDry(cfg: Config, s: State, pool: Pool, t: nat)
    requires cfg.perQueue > 0 && ControlOk(cfg, s) && t < cfg.nthreads && PhaseOf(s.ctl, pool, t) == Stopped
    ensures Dry(cfg, s.mem.buf, s.ctl, InFeed(pool), QueueFor(cfg, t))
    ensures At(s.mem.buf, Recv(pool, t)) == [] && At(s.mem.buf, Send(pool, t)) == []
    ensures pool == Refine ==> At(s.mem.buf, Cutting(t)) == []
    ensures pool == Deduplicate ==> At(s.mem.buf, SendDup(t)) == []
  {
    assert WorkerOk(cfg, s.mem.buf, s.ctl, pool, t);
  }

  /** All queues are dry and all threads have stopped once Reorder has gone round all its queues. */
  lemma ExitedIsDry(cfg: Config, s: State)
    requires cfg.perQueue > 0 && cfg.nthreads > 0 && ControlOk(cfg, s) && s.ro.exited
    ensures forall feed :: AllDry(cfg, s, feed)
    ensures forall pool, t: nat :: t < cfg.nthreads ==> PhaseOf(s.ctl, pool, t) == Stopped
  {
    forall q: nat | q < NQueues(cfg)
      ensures Dry(cfg, s.mem.buf, s.ctl, ToReorder, q)
    {
      assert Behind(NQueues(cfg), s.ro.qid, q) < s.ro.tried;
    }
    hide ControlOk, AllDry;
    DryUpstream(cfg, s, Compress);
    DryUpstream(cfg, s, Deduplicate);
    DryUpstream(cfg, s, Refine);
    forall pool, t: nat | t < cfg.nthreads
      ensures PhaseOf(s.ctl, pool, t) == Stopped
    {
      match pool
      case Refine =>
      case Deduplicate =>
      case Compress =>
    }
    forall feed
      ensures AllDry(cfg, s, feed)
    {
      match feed
      case ToRefine =>
      case ToDeduplicate =>
      case ToCompress =>
      case ToReorder =>
    }
  }

  lemma QueuesAreEmpty(cfg: Config, s: State, p: Place)
    requires cfg.perQueue > 0 && cfg.nthreads > 0 && ControlOk(cfg, s) && s.ro.exited && p.Queue?
    ensures At(s.mem.buf, p) == []
  {
    ExitedIsDry(cfg, s);
    assert AllDry(cfg, s, p.feed);
    assert p.q < NQueues(cfg) ==> Dry(cfg, s.mem.buf, s.ctl, p.feed, p.q);
    assert At(s.mem.buf, p) != [] ==> InRange(cfg, p);
  }

  lemma WorkersAreEmpty(cfg: Config, s: State, p: Place)
    requires cfg.perQueue > 0 && cfg.nthreads > 0 && ControlOk(cfg, s) && s.ro.exited && WorkerOf(p).Some?
    ensures At(s.mem.buf, p) == []
  {
    ExitedIsDry(cfg, s);
    if At(s.mem.buf, p) != [] {
      assert InRange(cfg, p);
      var w := WorkerOf(p).value;
      StoppedIsDry(cfg, s, w.pool, w.t);
    }
  }

  /** Fragment is done too. */
  lemma FragmentIsDone(cfg: Config, coarse: seq<Bytes>, plan: seq<seq<Bytes>>, s: State)
    requires Sane(cfg) && Holds(cfg, coarse, plan, s) && s.ro.exited
    ensures s.frag.phase == Terminating(NQueues(cfg)) && At(s.mem.buf, FragSend) == []
  {
    hide PrefixStable, Lossless, DataOk, Lineage;
    SomeQueue(cfg);
    ExitedIsDry(cfg, s);
    assert AllDry(cfg, s, ToRefine);
    var q := NQueues(cfg) - 1;
    assert Dry(cfg, s.mem.buf, s.ctl, ToRefine, q);
  }

  /** Nothing is left on the way. */
  lemma ExitedIsEmpty(cfg: Config, coarse: seq<Bytes>, plan: seq<seq<Bytes>>, s: State, p: Place)
    requires Sane(cfg) && Holds(cfg, coarse, plan, s) && s.ro.exited && p != Cache && p != Out
    ensures At(s.mem.buf, p) == []
  {
    hide PrefixStable, Lossless, DataOk, Lineage;
    match p
    case FragSend => FragmentIsDone(cfg, coarse, plan, s);
    case Queue(_, _) => QueuesAreEmpty(cfg, s, p);
    case ReorderRecv =>
    case Hand =>
    case _ => WorkersAreEmpty(cfg, s, p);
  }

  // ---- every chunk was received -----------------------------------------------------------------

  /** Without a chunk that is still to be split, all pieces of all rows sent have been made. */
  lemma {:induction false} AllMade(plan: seq<seq<Bytes>>, emitted: nat, b: Buffers, c: SeqNo)
    requires Lineage(plan, emitted, b) && InPlan(plan, c) && c.l1 < emitted
    requires forall p :: Unsplit(p) ==> At(b, p) == []
    ensures Made(b, c)
    decreases c.l2
  {
    hide Lineage, Made;
    if c.l2 == 0 {
      WasSent(plan, emitted, b, c.l1);
    } else {
      AllMade(plan, emitted, b, SeqNo(c.l1, c.l2 - 1));
      SuccessorMade(plan, emitted, b, SeqNo(c.l1, c.l2 - 1));
    }
  }

  lemma SuccessorMade(plan: seq<seq<Bytes>>, emitted: nat, b: Buffers, c: SeqNo)
    requires Lineage(plan, emitted, b) && Made(b, c) && InPlan(plan, SeqNo(c.l1, c.l2 + 1))
    requires forall p :: Unsplit(p) ==> At(b, p) == []
    ensures Made(b, SeqNo(c.l1, c.l2 + 1))
  {
    var p :| c in At(b, p);
    HasSuccessor(plan, emitted, b, p, c);
  }

  lemma AllArrived(cfg: Config, coarse: seq<Bytes>, plan: seq<seq<Bytes>>, s: State, c: SeqNo)
    requires Sane(cfg) && Refines(cfg, coarse, plan) && Holds(cfg, coarse, plan, s) && s.ro.exited && InPlan(plan, c)
    ensures Arrived(SizesOf(plan), StageOf(s), c)
  {
    hide PrefixStable, Lossless, Chunks, Sorted, Lineage, ControlOk, Shapes, TableOk, RecordsOk, Unique;
    FragmentIsDone(cfg, coarse, plan, s);
    forall p | Unsplit(p)
      ensures At(s.mem.buf, p) == []
    {
      ExitedIsEmpty(cfg, coarse, plan, s, p);
    }
    AllMade(plan, |coarse|, s.mem.buf, c);
    var p :| c in At(s.mem.buf, p);
    if p != Cache && p != Out {
      ExitedIsEmpty(cfg, coarse, plan, s, p);
    }
    WrittenIsBefore(SizesOf(plan), StageOf(s), c);
  }

  lemma NothingCached(b: Buffers)
    ensures Cached(b) == {} ==> At(b, Cache) == []
  {
    assert At(b, Cache) != [] ==> At(b, Cache)[0] in Cached(b);
  }

  /** Reorder leaves its loop only after all chunks have come and are written in order; the flush loop
      finds an empty tree, so its two mismatch exits cannot be taken. */
  lemma ExitedIsWritten(cfg: Config, coarse: seq<Bytes>, plan: seq<seq<Bytes>>, s: State)
    requires Sane(cfg) && Refines(cfg, coarse, plan) && Holds(cfg, coarse, plan, s) && s.ro.exited
    ensures At(s.mem.buf, Out) == Order(SizesOf(plan)) && At(s.mem.buf, Cache) == []
  {
    hide Holds, PrefixStable, Lossless, Refines, Sorted, Arrived;
    StageSorted(cfg, coarse, plan, s);
    ExitedIsEmpty(cfg, coarse, plan, s, Hand);
    forall c | Item(SizesOf(plan), c)
      ensures Arrived(SizesOf(plan), StageOf(s), c)
    {
      AllArrived(cfg, coarse, plan, s, c);
    }
    CompleteIsWritten(SizesOf(plan), StageOf(s));
    NothingCached(s.mem.buf);
  }

  /** Reorder equals sorting: a run that is complete has written every piece exactly once, in
      lexicographic order, and nothing is left anywhere. */
  lemma ExitMeansComplete(cfg: Config, input: Bytes, steps: seq<Step>)
    requires Sane(cfg) && IsRun(cfg, Initial(cfg, input), steps)
    requires After(cfg, Initial(cfg, input), steps).ro.exited
    ensures var b := After(cfg, Initial(cfg, input), steps).mem.buf;
            && At(b, Out) == Order(SizesOf(TwoLevel(cfg.seg, cfg.jump, input)))
            && forall p :: p != Out ==> At(b, p) == []
  {
    hide PrefixStable, Lossless, Enabled, Apply, Holds, Refines, TwoLevel;
    var coarse, plan := CoarseChunks(cfg.seg, cfg.jump, input), TwoLevel(cfg.seg, cfg.jump, input);
    var s := After(cfg, Initial(cfg, input), steps);
    RunKeepsInv(cfg, input, steps);
    RefinesInput(cfg, input);
    ExitedIsWritten(cfg, coarse, plan, s);
    forall p | p != Out
      ensures At(s.mem.buf, p) == []
    {
      if p != Cache {
        ExitedIsEmpty(cfg, coarse, plan, s, p);
      }
    }
  }

  // ---- the order of the pieces ------------------------------------------------------------------

  lemma {:induction false} FlattenAppend(plan: seq<seq<Bytes>>, row: seq<Bytes>)
    ensures Flatten(plan + [row]) == Flatten(plan) + row
  {
    if plan == [] {
      assert plan + [row] == [row];
      assert Flatten([row]) == row + Flatten([]);
    } else {
      assert (plan + [row])[1..] == plan[1..] + [row];
      FlattenAppend(plan[1..], row);
    }
  }

  lemma {:induction false} FlatUpTo(plan: seq<seq<Bytes>>, k: nat)
    requires k <= |plan|
    ensures var order, flat := OrderUpTo(SizesOf(plan), k), Flatten(plan[..k]);
            && |order| == |flat|
            && forall i :: 0 <= i < |order| ==> InPlan(plan, order[i]) && Content(plan, order[i]) == flat[i]
  {
    if k > 0 {
      FlatUpTo(plan, k - 1);
      assert plan[..k] == plan[..k - 1] + [plan[k - 1]];
      FlattenAppend(plan[..k - 1], plan[k - 1]);
    }
  }

  /** The i-th chunk of the order is the i-th piece of the input. */
  lemma FlatIs(plan: seq<seq<Bytes>>)
    ensures var order, flat := Order(SizesOf(plan)), Flatten(plan);
            && |order| == |flat|
            && forall i :: 0 <= i < |order| ==> InPlan(plan, order[i]) && Content(plan, order[i]) == flat[i]
  {
    FlatUpTo(plan, |plan|);
    assert plan[..|plan|] == plan;
  }

  // ---- the archive ------------------------------------------------------------------------------

  /** Record `i` against the list of all pieces: data exactly at the first occurrence of a digest, and
      then of a piece with this digest, no matter which thread won the race for the table. */
  ghost predicate RecordRight(codec: Codec, flat: seq<Bytes>, records: seq<Record>, i: nat)
    requires i < |records| <= |flat|
  {
    if FirstOccurrence(codec, flat, i)
    then exists j :: 0 <= j < |flat| && codec.digest(flat[j]) == codec.digest(flat[i])
                     && records[i] == Compressed(codec.compress(flat[j]))
    else records[i] == Fingerprint(codec.digest(flat[i]))
  }

  ghost predicate ArchiveRight(codec: Codec, flat: seq<Bytes>, records: seq<Record>) {
    |records| <= |flat| && forall i :: 0 <= i < |records| ==> RecordRight(codec, flat, records, i)
  }

  lemma WrittenBefore(cfg: Config, plan: seq<seq<Bytes>>, flat: seq<Bytes>, out: seq<SeqNo>, i: nat)
    requires i < |out| <= |flat|
    requires forall k :: 0 <= k < |out| ==> InPlan(plan, out[k]) && Content(plan, out[k]) == flat[k]
    ensures DigestWritten(cfg, plan, out[..i], DigestAt(cfg, plan, out[i])) <==> !FirstOccurrence(cfg.codec, flat, i)
  {
    if DigestWritten(cfg, plan, out[..i], DigestAt(cfg, plan, out[i])) {
      var c :| c in out[..i] && InPlan(plan, c) && DigestAt(cfg, plan, c) == DigestAt(cfg, plan, out[i]);
      var k :| 0 <= k < i && out[..i][k] == c;
      assert cfg.codec.digest(flat[k]) == cfg.codec.digest(flat[i]);
    }
    if !FirstOccurrence(cfg.codec, flat, i) {
      var k :| 0 <= k < i && cfg.codec.digest(flat[k]) == cfg.codec.digest(flat[i]);
      assert out[..i][k] == out[k];
      assert out[k] in out[..i];
    }
  }

  lemma OwnerIsPiece(cfg: Config, plan: seq<seq<Bytes>>, flat: seq<Bytes>, c: SeqNo) returns (j: nat)
    requires flat == Flatten(plan) && InPlan(plan, c)
    ensures j < |flat| && flat[j] == Content(plan, c)
  {
    j := Index(SizesOf(plan), c);
    OrderAtIndex(SizesOf(plan), c);
    FlatIs(plan);
  }

  /** In every state the records written so far are right. */
  lemma HoldsMeansArchiveRight(cfg: Config, coarse: seq<Bytes>, plan: seq<seq<Bytes>>, s: State)
    requires Sane(cfg) && Holds(cfg, coarse, plan, s)
    ensures ArchiveRight(cfg.codec, Flatten(plan), s.records)
  {
    hide Holds, PrefixStable, Lossless, RecordRight;
    var flat, out := Flatten(plan), At(s.mem.buf, Out);
    StageSorted(cfg, coarse, plan, s);
    HoldsParts(cfg, coarse, plan, s);
    FlatIs(plan);
    forall k | 0 <= k < |out|
      ensures InPlan(plan, out[k]) && Content(plan, out[k]) == flat[k]
    {
      assert out[k] == Order(SizesOf(plan))[k];
    }
    hide Sorted;
    forall i | 0 <= i < |s.records|
      ensures RecordRight(cfg.codec, flat, s.records, i)
    {
      assert RecordOk(cfg, plan, s.mem, s.records, i);
      RecordIsRight(cfg, plan, s.mem, s.records, flat, i);
    }
  }

  lemma RecordIsRight(cfg: Config, plan: seq<seq<Bytes>>, m: Memory, records: seq<Record>, flat: seq<Bytes>, i: nat)
    requires TableOk(cfg, plan, m) && flat == Flatten(plan) && i < |records| == |At(m.buf, Out)| <= |flat|
    requires RecordOk(cfg, plan, m, records, i)
    requires forall k :: 0 <= k < |records|
                    ==> InPlan(plan, At(m.buf, Out)[k]) && Content(plan, At(m.buf, Out)[k]) == flat[k]
    ensures RecordRight(cfg.codec, flat, records, i)
  {
    hide TableOk, DigestWritten, FirstOccurrence;
    var out := At(m.buf, Out);
    WrittenBefore(cfg, plan, flat, out, i);
    var d := DigestAt(cfg, plan, out[i]);
    IsEntryOk(cfg, plan, m, d);
    var j := OwnerIsPiece(cfg, plan, flat, m.table[d]);
  }

  /** At every moment of every run the archive is a prefix of right records. */
  lemma ArchiveIsRight(cfg: Config, input: Bytes, steps: seq<Step>)
    requires Sane(cfg) && IsRun(cfg, Initial(cfg, input), steps)
    ensures ArchiveRight(cfg.codec, Flatten(TwoLevel(cfg.seg, cfg.jump, input)),
                         After(cfg, Initial(cfg, input), steps).records)
  {
    hide PrefixStable, Lossless, Enabled, Apply, Holds, ArchiveRight;
    RunKeepsInv(cfg, input, steps);
    HoldsMeansArchiveRight(cfg, CoarseChunks(cfg.seg, cfg.jump, input), TwoLevel(cfg.seg, cfg.jump, input),
                           After(cfg, Initial(cfg, input), steps));
  }

  // ---- shape ------------------------------------------------------------------------------------

  lemma RightDigest(codec: Codec, flat: seq<Bytes>, records: seq<Record>, i: nat)
    requires Lossless(codec) && (forall k :: 0 <= k < |flat| ==> flat[k] != [])
    requires i < |records| <= |flat| && RecordRight(codec, flat, records, i)
    ensures DigestOf(codec, records[i]) == codec.digest(flat[i])
    ensures records[i].Compressed? <==> FirstOccurrence(codec, flat, i)
  {
    if FirstOccurrence(codec, flat, i) {
      var j :| 0 <= j < |flat| && codec.digest(flat[j]) == codec.digest(flat[i])
               && records[i] == Compressed(codec.compress(flat[j]));
      assert codec.inflate(codec.compress(flat[j])) == Some(flat[j]);
    }
  }

  lemma RightIsWellShaped(codec: Codec, flat: seq<Bytes>, records: seq<Record>)
    requires Lossless(codec) && (forall k :: 0 <= k < |flat| ==> flat[k] != []) && ArchiveRight(codec, flat, records)
    ensures WellShaped(codec, records)
  {
    hide Lossless, RecordRight;
    forall i | 0 <= i < |records|
      ensures DigestOf(codec, records[i]) == codec.digest(flat[i])
      ensures records[i].Compressed? <==> FirstOccurrence(codec, flat, i)
    {
      RightDigest(codec, flat, records, i);
    }
    forall j | 0 <= j < |records| && records[j].Fingerprint?
      ensures exists i :: 0 <= i < j && records[i].Compressed? && DigestOf(codec, records[i]) == records[j].sha1
    {
      var i := FirstBefore(codec, flat, j);
      assert i != j && records[i].Compressed?;
    }
  }

  /** Pieces are never empty. */
  lemma {:induction false} FlatNonEmpty(plan: seq<seq<Bytes>>)
    requires forall a, b :: 0 <= a < |plan| && 0 <= b < |plan[a]| ==> plan[a][b] != []
    ensures forall k :: 0 <= k < |Flatten(plan)| ==> Flatten(plan)[k] != []
  {
    if plan != [] {
      assert forall a, b :: 0 <= a < |plan[1..]| && 0 <= b < |plan[1..][a]| ==> plan[1..][a][b] == plan[a + 1][b];
      FlatNonEmpty(plan[1..]);
    }
  }

  lemma PiecesNonEmpty(seg: Segmenter, jump: nat, input: Bytes)
    requires PrefixStable(seg)
    ensures var flat := Flatten(TwoLevel(seg, jump, input)); forall k :: 0 <= k < |flat| ==> flat[k] != []
  {
    var coarse, plan := CoarseChunks(seg, jump, input), TwoLevel(seg, jump, input);
    forall a, b | 0 <= a < |plan| && 0 <= b < |plan[a]|
      ensures plan[a][b] != []
    {
      ChunksPartition(seg, coarse[a]);
    }
    FlatNonEmpty(plan);
  }

  /** Whenever the writing stops, the archive so far has one data record per digest, in front of all
      fingerprints with it; a decoder never misses the counterpart of a duplicate. */
  lemma ArchiveIsWellShaped(cfg: Config, input: Bytes, steps: seq<Step>)
    requires Sane(cfg) && IsRun(cfg, Initial(cfg, input), steps)
    ensures var records := After(cfg, Initial(cfg, input), steps).records;
            && WellShaped(cfg.codec, records)
            && (var decoded := DecodeRecords(cfg.codec, records, map[]);
                decoded.Failed? ==> decoded.error != NoCounterpart)
  {
    hide PrefixStable, Lossless, Enabled, Apply, ArchiveRight, WellShaped;
    var records := After(cfg, Initial(cfg, input), steps).records;
    ArchiveIsRight(cfg, input, steps);
    PiecesNonEmpty(cfg.seg, cfg.jump, input);
    RightIsWellShaped(cfg.codec, Flatten(TwoLevel(cfg.seg, cfg.jump, input)), records);
    NeverMissing(cfg.codec, records);
  }

  // ---- the whole archive ------------------------------------------------------------------------

  lemma RightWithoutCollision(codec: Codec, flat: seq<Bytes>, records: seq<Record>)
    requires ArchiveRight(codec, flat, records) && NoCollision(codec, flat)
    ensures records == RecordsOf(codec, flat)[..|records|]
  {
    forall i | 0 <= i < |records|
      ensures records[i] == RecordAt(codec, flat, i)
    {
      assert RecordRight(codec, flat, records, i);
    }
  }

  /** Schedule independence: at any time the records are the first ones an in-order writer produces
      for the same list of pieces, and at the end they are all of them. */
  lemma ScheduleIndependence(cfg: Config, input: Bytes, steps: seq<Step>)
    requires Sane(cfg) && IsRun(cfg, Initial(cfg, input), steps)
    requires NoCollision(cfg.codec, Flatten(TwoLevel(cfg.seg, cfg.jump, input)))
    ensures var s := After(cfg, Initial(cfg, input), steps);
            var serial := RecordsOf(cfg.codec, Flatten(TwoLevel(cfg.seg, cfg.jump, input)));
            && s.records <= serial
            && (s.ro.exited ==> s.records == serial)
  {
    hide PrefixStable, Lossless, Enabled, Apply, Holds, NoCollision, Refines, TwoLevel;
    var coarse, plan := CoarseChunks(cfg.seg, cfg.jump, input), TwoLevel(cfg.seg, cfg.jump, input);
    var s := After(cfg, Initial(cfg, input), steps);
    ArchiveIsRight(cfg, input, steps);
    RightWithoutCollision(cfg.codec, Flatten(plan), s.records);
    if s.ro.exited {
      RunKeepsInv(cfg, input, steps);
      RefinesInput(cfg, input);
      ExitedIsWritten(cfg, coarse, plan, s);
      StageSorted(cfg, coarse, plan, s);
      FlatIs(plan);
    }
  }

  /** The parallel round trip: for every input and every schedule that runs to completion, decoding
      what was written gives back the input, exactly when all stored lengths are positive C ints. */
  lemma ParallelRoundTrip(cfg: Config, input: Bytes, steps: seq<Step>)
    requires Sane(cfg) && IsRun(cfg, Initial(cfg, input), steps)
    requires NoCollision(cfg.codec, Flatten(TwoLevel(cfg.seg, cfg.jump, input)))
    requires After(cfg, Initial(cfg, input), steps).ro.exited
    ensures DecodeRecords(cfg.codec, After(cfg, Initial(cfg, input), steps).records, map[]) == Done(input)
            <==> FitsFrom(cfg.codec, Flatten(TwoLevel(cfg.seg, cfg.jump, input)), 0)
  {
    hide PrefixStable, Lossless, Enabled, Apply, NoCollision, TwoLevel, FitsFrom, DecodeRecords;
    ScheduleIndependence(cfg, input, steps);
    PiecesNonEmpty(cfg.seg, cfg.jump, input);
    DecodeUndoesRecords(cfg.codec, Flatten(TwoLevel(cfg.seg, cfg.jump, input)));
    TwoLevelConcat(cfg.seg, cfg.jump, input);
  }

  /** The same for the bytes of the archive file behind its header. */
  lemma ParallelFileRoundTrip(cfg: Config, tags: Tags, input: Bytes, steps: seq<Step>)
    requires Sane(cfg) && IsRun(cfg, Initial(cfg, input), steps) && tags.fingerprint != tags.compress
    requires NoCollision(cfg.codec, Flatten(TwoLevel(cfg.seg, cfg.jump, input)))
    requires var flat := Flatten(TwoLevel(cfg.seg, cfg.jump, input));
             forall i :: 0 <= i < |flat| ==> |cfg.codec.compress(flat[i])| < 0x1_0000_0000_0000_0000
    requires After(cfg, Initial(cfg, input), steps).ro.exited
    ensures var file := Serialize(tags, After(cfg, Initial(cfg, input), steps).records);
            DecodeFile(cfg.codec, tags, file, map[]) == Done(input)
            <==> FitsFrom(cfg.codec, Flatten(TwoLevel(cfg.seg, cfg.jump, input)), 0)
  {
    hide PrefixStable, Lossless, Enabled, Apply, NoCollision, TwoLevel, FitsFrom, DecodeFile, Serialize;
    ScheduleIndependence(cfg, input, steps);
    PiecesNonEmpty(cfg.seg, cfg.jump, input);
    FileRoundTrip(cfg.codec, tags, Flatten(TwoLevel(cfg.seg, cfg.jump, input)));
    TwoLevelConcat(cfg.seg, cfg.jump, input);
  }
}
