/** The steps of the Reorder thread keep the invariant. */
module ReorderProofs {
  import opened Types
  import opened Chunking
  import opened Archive
  import opened ReorderSpec
  import opened Buffers
  import opened QueueSetup
  import opened Pipeline
  import opened Invariant
  import opened MoveProofs
  import opened FrontProofs
  import opened ControlProofs
  import opened FragmentProofs
  import opened WorkProofs

  // ---- asking the queues ------------------------------------------------------------------------

  lemma PollKeeps(cfg: Config, coarse: seq<Bytes>, plan: seq<seq<Bytes>>, s: State, n: nat)
    requires Sane(cfg) && Holds(cfg, coarse, plan, s) && CanPoll(cfg, s, n)
    ensures Holds(cfg, coarse, plan, Poll(cfg, s, n))
  {
    hide DataOk, Lineage, ControlOk, PrefixStable, Lossless, FragOk;
    PollControl(cfg, s, n);
    MoveKeeps(cfg, coarse, plan, s, Poll(cfg, s, n), Queue(ToReorder, s.ro.qid), 0, n, ReorderRecv);
  }

  lemma PollEndedKeeps(cfg: Config, coarse: seq<Bytes>, plan: seq<seq<Bytes>>, s: State)
    requires Sane(cfg) && Holds(cfg, coarse, plan, s) && CanPollEnded(cfg, s)
    ensures Holds(cfg, coarse, plan, PollEnded(cfg, s))
  {
    hide DataOk, Lineage, ControlOk, PrefixStable, Lossless, FragOk;
    PollEndedControl(cfg, s);
    ControlKeeps(cfg, coarse, plan, s, PollEnded(cfg, s));
  }

  // ---- receiving --------------------------------------------------------------------------------

  /** The stage is where the chunks are. */
  lemma StageArrived(plan: seq<seq<Bytes>>, s: State, p: Place, c: SeqNo)
    requires Unique(s.mem.buf) && Sorted(SizesOf(plan), StageOf(s)) && c in At(s.mem.buf, p) && Apart(p)
    ensures !Arrived(SizesOf(plan), StageOf(s), c)
  {
    hide Sorted;
    WrittenIsBefore(SizesOf(plan), StageOf(s), c);
    if At(s.mem.buf, Hand) != [] {
      assert At(s.mem.buf, Hand)[0] in At(s.mem.buf, Hand);
    }
  }

  lemma ReceiveBuffers(b: Buffers, to: Place)
    requires Unique(b) && At(b, ReorderRecv) != [] && (to == Hand || to == Cache)
    ensures var c, b' := At(b, ReorderRecv)[0], Move(b, ReorderRecv, 0, 1, to);
            && At(b', Hand) == (if to == Hand then At(b, Hand) + [c] else At(b, Hand))
            && Cached(b') == (if to == Hand then Cached(b) else Cached(b) + {c})
            && At(b', Out) == At(b, Out)
  {
    hide Unique;
    MoveFirst(b, ReorderRecv, to);
  }

  lemma ReceiveStage(s: State)
    requires Unique(s.mem.buf) && CanReceive(s)
    requires var c := At(s.mem.buf, ReorderRecv)[0];
             && c in s.mem.heap && InBounds(s.ro.counts, c.l1)
             && (s.mem.heap[c].isLast ==> Grown(s.ro.counts, c.l1)[c.l1] == 0)
    ensures var c, s' := At(s.mem.buf, ReorderRecv)[0], ReceiveOne(s);
            var to := if c == s.ro.next then Hand else Cache;
            && StageOf(s') == Receive(StageOf(s), c, s.mem.heap[c].isLast)
            && s'.mem == s.mem.(buf := Move(s.mem.buf, ReorderRecv, 0, 1, to)) && |At(s'.mem.buf, Hand)| <= 1
            && s' == s.(mem := s'.mem, ro := s.ro.(counts := s'.ro.counts))
  {
    hide Unique, Grown, Noted;
    var c := At(s.mem.buf, ReorderRecv)[0];
    ReceiveBuffers(s.mem.buf, if c == s.ro.next then Hand else Cache);
  }

  /** A chunk that arrives for the first time keeps the order; a last piece finds its slot empty. Only
      the end of chunks_per_anchor can be missed. */
  lemma ReceiveKeeps(cfg: Config, coarse: seq<Bytes>, plan: seq<seq<Bytes>>, s: State)
    requires Sane(cfg) && Holds(cfg, coarse, plan, s) && CanReceive(s) && !s.overrun
    ensures ReceiveOne(s).overrun <==> !InBounds(s.ro.counts, At(s.mem.buf, ReorderRecv)[0].l1)
    ensures Holds(cfg, coarse, plan, ReceiveOne(s))
  {
    hide Unique, Shapes, TableOk, RecordsOk, Sorted, Lineage, ControlOk, PrefixStable, Lossless, FragOk;
    var c, s' := At(s.mem.buf, ReorderRecv)[0], ReceiveOne(s);
    FirstOk(cfg, plan, s.mem, ReorderRecv);
    StageArrived(plan, s, ReorderRecv, c);
    if InBounds(s.ro.counts, c.l1) {
      ReceiveKeepsSorted(SizesOf(plan), StageOf(s), c, s.mem.heap[c].isLast);
      ReceiveStage(s);
      hide ReceiveOne, Receive, Grown, InBounds;
      ReceiveMoves(cfg, coarse, plan, s, s', if c == s.ro.next then Hand else Cache);
    } else {
      SameStage(s, s');
      ReorderStepControl(cfg, s, s');
    }
  }

  lemma ReceiveMoves(cfg: Config, coarse: seq<Bytes>, plan: seq<seq<Bytes>>, s: State, s': State, to: Place)
    requires Sane(cfg) && Holds(cfg, coarse, plan, s) && CanReceive(s) && (to == Hand || to == Cache)
    requires s'.mem == s.mem.(buf := Move(s.mem.buf, ReorderRecv, 0, 1, to)) && |At(s'.mem.buf, Hand)| <= 1
    requires s' == s.(mem := s'.mem, ro := s.ro.(counts := s'.ro.counts)) && Sorted(SizesOf(plan), StageOf(s'))
    ensures Holds(cfg, coarse, plan, s')
  {
    hide Unique, Shapes, TableOk, RecordsOk, Sorted, Lineage, ControlOk, PrefixStable, Lossless, FragOk;
    MoveKeepsUnique(s.mem.buf, ReorderRecv, 0, 1, to);
    MoveKeepsShapes(cfg, plan, s.mem, ReorderRecv, 0, 1, to);
    MoveKeepsTable(cfg, plan, s.mem, ReorderRecv, 0, 1, to);
    MoveKeepsRecords(cfg, plan, s.mem, s.records, ReorderRecv, 0, 1, to);
    MoveKeepsLineage(plan, Emitted(coarse, s.frag), s.mem.buf, ReorderRecv, 0, 1, to);
    ReorderStepControl(cfg, s, s');
  }

  // ---- writing ----------------------------------------------------------------------------------

  /** A table entry that is not uncompressed any more is compressed or flushed, wherever it is. */
  lemma EntryIsPacked(cfg: Config, plan: seq<seq<Bytes>>, m: Memory, o: SeqNo)
    requires PrefixStable(cfg.seg) && Shapes(cfg, plan, m) && Made(m.buf, o)
    requires IsOwner(cfg, plan, m, o) && m.heap[o].state != StateUncompressed
    ensures IsPacked(cfg, plan, m, o)
  {
    var p :| o in At(m.buf, p);
    assert ChunkOk(cfg, plan, m, KindOf(p), o);
  }

  /** `o` is the object whose data stands for chunk `c`. */
  ghost predicate StandsFor(cfg: Config, plan: seq<seq<Bytes>>, m: Memory, c: SeqNo, o: SeqNo) {
    && c in m.heap && InPlan(plan, c) && DigestAt(cfg, plan, c) in m.table && m.table[DigestAt(cfg, plan, c)] == o
    && IsOwner(cfg, plan, m, o) && m.heap[o].sha1 == DigestAt(cfg, plan, c)
    && (m.heap[c].isDuplicate <==> c != o)
  }

  /** The owner of a chunk that Reorder holds is the table's object for its digest. */
  lemma OwnerStandsFor(cfg: Config, plan: seq<seq<Bytes>>, s: State, c: SeqNo)
    requires TableOk(cfg, plan, s.mem) && PrefixStable(cfg.seg) && ChunkOk(cfg, plan, s.mem, Late, c)
    ensures StandsFor(cfg, plan, s.mem, c, Owner(s, c))
  {
    hide PrefixStable, TableOk;
    IsEntryOk(cfg, plan, s.mem, DigestAt(cfg, plan, c));
  }

  ghost function Flush(chunk: Pipeline.Chunk): Pipeline.Chunk {
    chunk.(packed := None, state := StateFlushed)
  }

  /** The memory after the chunk in hand was written for `o` and, if it is a duplicate, released. */
  ghost function Emit(m: Memory, c: SeqNo, o: SeqNo): Memory
    requires At(m.buf, Hand) != [] && o in m.heap && c in m.heap
  {
    var heap := m.heap[o := Flush(m.heap[o])];
    m.(buf := Move(m.buf, Hand, 0, 1, Out), heap := if m.heap[c].isDuplicate then heap - {c} else heap)
  }

  lemma FlushedOk(cfg: Config, plan: seq<seq<Bytes>>, m: Memory, m': Memory, kind: Kind, o: SeqNo)
    requires PrefixStable(cfg.seg) && ChunkOk(cfg, plan, m, kind, o) && IsOwner(cfg, plan, m, o)
             && IsPacked(cfg, plan, m, o)
    requires m'.table == m.table && o in m'.heap && m'.heap[o] == Flush(m.heap[o])
    ensures ChunkOk(cfg, plan, m', kind, o) && IsOwner(cfg, plan, m', o) && IsPacked(cfg, plan, m', o)
  {
    hide PrefixStable, Chunks;
  }

  lemma EmitShapes(cfg: Config, plan: seq<seq<Bytes>>, m: Memory, c: SeqNo, o: SeqNo)
    requires PrefixStable(cfg.seg) && Unique(m.buf) && Shapes(cfg, plan, m)
    requires At(m.buf, Hand) != [] && c == At(m.buf, Hand)[0]
    requires StandsFor(cfg, plan, m, c, o) && IsPacked(cfg, plan, m, o)
    ensures Shapes(cfg, plan, Emit(m, c, o))
  {
    hide Unique, PrefixStable, Made, ChunkOk;
    var m' := Emit(m, c, o);
    MoveFirst(m.buf, Hand, Out);
    forall p, d | d in At(m'.buf, p)
      ensures ChunkOk(cfg, plan, m', KindOf(p), d)
    {
      if d == c {
        WrittenOk(cfg, plan, m, c, o);
      } else {
        assert ChunkOk(cfg, plan, m, KindOf(p), d);
        if d == o {
          FlushedOk(cfg, plan, m, m', KindOf(p), o);
        } else {
          ChunkKept(cfg, plan, m, m', KindOf(p), d);
        }
      }
    }
  }

  lemma WrittenOk(cfg: Config, plan: seq<seq<Bytes>>, m: Memory, c: SeqNo, o: SeqNo)
    requires PrefixStable(cfg.seg) && At(m.buf, Hand) != []
    requires StandsFor(cfg, plan, m, c, o) && IsPacked(cfg, plan, m, o)
    ensures ChunkOk(cfg, plan, Emit(m, c, o), Written, c)
  {
    hide PrefixStable;
  }

  /** Flushing the owner and writing a chunk with its digest go together. */
  lemma EmitTable(cfg: Config, plan: seq<seq<Bytes>>, m: Memory, c: SeqNo, o: SeqNo)
    requires Unique(m.buf) && TableOk(cfg, plan, m)
    requires At(m.buf, Hand) != [] && c == At(m.buf, Hand)[0]
    requires StandsFor(cfg, plan, m, c, o) && o in m.heap
    ensures TableOk(cfg, plan, Emit(m, c, o))
  {
    hide Unique, Made, EntryOk, IsOwner;
    var m' := Emit(m, c, o);
    MoveFirst(m.buf, Hand, Out);
    hide StandsFor;
    forall d | d in m'.table
      ensures EntryOk(cfg, plan, m', d)
    {
      assert EntryOk(cfg, plan, m, d);
      EmitEntry(cfg, plan, m, m', c, o, d);
    }
  }

  lemma EmitEntry(cfg: Config, plan: seq<seq<Bytes>>, m: Memory, m': Memory, c: SeqNo, o: SeqNo, d: Bytes)
    requires d in m.table && EntryOk(cfg, plan, m, d) && StandsFor(cfg, plan, m, c, o)
    requires At(m.buf, Hand) != [] && m' == Emit(m, c, o) && At(m'.buf, Out) == At(m.buf, Out) + [c]
    requires forall e :: Made(m'.buf, e) <==> Made(m.buf, e)
    ensures EntryOk(cfg, plan, m', d)
  {
    hide Made, DigestWritten;
    WrittenMore(cfg, plan, At(m.buf, Out), c, d);
  }

  lemma WrittenMore(cfg: Config, plan: seq<seq<Bytes>>, out: seq<SeqNo>, c: SeqNo, d: Bytes)
    requires InPlan(plan, c)
    ensures DigestWritten(cfg, plan, out + [c], d) <==> DigestWritten(cfg, plan, out, d) || DigestAt(cfg, plan, c) == d
  {
    assert c in out + [c];
    if DigestWritten(cfg, plan, out, d) {
      var e :| e in out && InPlan(plan, e) && DigestAt(cfg, plan, e) == d;
      assert e in out + [c];
    }
  }

  /** What write_chunk_to_file appends. */
  ghost function NewRecord(chunk: Pipeline.Chunk): Record
    requires chunk.state == StateCompressed ==> chunk.packed.Some?
  {
    if chunk.state == StateCompressed then Compressed(chunk.packed.value) else Fingerprint(chunk.sha1)
  }

  lemma EmitRecords(cfg: Config, plan: seq<seq<Bytes>>, m: Memory, records: seq<Record>, c: SeqNo, o: SeqNo)
    requires TableOk(cfg, plan, m) && RecordsOk(cfg, plan, m, records)
    requires At(m.buf, Hand) != [] && c == At(m.buf, Hand)[0]
    requires StandsFor(cfg, plan, m, c, o) && IsPacked(cfg, plan, m, o)
    ensures RecordsOk(cfg, plan, Emit(m, c, o), records + [NewRecord(m.heap[o])])
  {
    hide TableOk, DigestWritten, Made;
    var m', records', out := Emit(m, c, o), records + [NewRecord(m.heap[o])], At(m.buf, Out);
    IsEntryOk(cfg, plan, m, DigestAt(cfg, plan, c));
    assert At(m.buf, Hand)[0..1] == [c];
    assert At(m'.buf, Out) == out + [c];
    forall i | 0 <= i < |records'|
      ensures RecordOk(cfg, plan, m', records', i)
    {
      if i < |records| {
        assert RecordOk(cfg, plan, m, records, i);
        assert (out + [c])[..i] == out[..i];
      } else {
        assert (out + [c])[..i] == out;
      }
    }
  }

  /** The cached chunk that is expected now is taken in hand. */
  ghost function Pull(b: Buffers, next: SeqNo): Buffers {
    if IsMin(next, Cached(b))
    then Move(b, Cache, IndexOf(At(b, Cache), next), IndexOf(At(b, Cache), next) + 1, Hand) else b
  }

  lemma PullKeeps(cfg: Config, plan: seq<seq<Bytes>>, emitted: nat, m: Memory, records: seq<Record>, next: SeqNo)
    requires PrefixStable(cfg.seg) && Unique(m.buf) && Shapes(cfg, plan, m) && TableOk(cfg, plan, m)
    requires RecordsOk(cfg, plan, m, records) && Lineage(plan, emitted, m.buf)
    ensures var m' := m.(buf := Pull(m.buf, next));
            && Unique(m'.buf) && Shapes(cfg, plan, m') && TableOk(cfg, plan, m') && RecordsOk(cfg, plan, m', records)
            && Lineage(plan, emitted, m'.buf)
  {
    hide PrefixStable, Unique, Shapes, TableOk, RecordsOk, Lineage;
    if IsMin(next, Cached(m.buf)) {
      var i := IndexOf(At(m.buf, Cache), next);
      MoveKeepsUnique(m.buf, Cache, i, i + 1, Hand);
      MoveKeepsShapes(cfg, plan, m, Cache, i, i + 1, Hand);
      MoveKeepsTable(cfg, plan, m, Cache, i, i + 1, Hand);
      MoveKeepsRecords(cfg, plan, m, records, Cache, i, i + 1, Hand);
      MoveKeepsLineage(plan, emitted, m.buf, Cache, i, i + 1, Hand);
    }
  }

  lemma PullStage(b: Buffers, next: SeqNo)
    requires Unique(b)
    ensures At(Pull(b, next), Hand) == if IsMin(next, Cached(b)) then At(b, Hand) + [next] else At(b, Hand)
    ensures Cached(Pull(b, next)) == if IsMin(next, Cached(b)) then Cached(b) - {next} else Cached(b)
    ensures At(Pull(b, next), Out) == At(b, Out)
  {
    hide Unique;
    if IsMin(next, Cached(b)) {
      var i := IndexOf(At(b, Cache), next);
      assert At(b, Cache)[i..i + 1] == [next];
      MoveMembers(b, Cache, i, i + 1, Hand);
    }
  }

  lemma WriteStage(s: State)
    requires Unique(s.mem.buf) && CanWrite(s) && |At(s.mem.buf, Hand)| == 1 && s.ro.next.l1 < |s.ro.counts|
    requires !s.fault && !WriteOne(s).fault
    ensures StageOf(WriteOne(s)) == Write(StageOf(s))
    ensures |At(WriteOne(s).mem.buf, Hand)| <= 1
  {
    hide Unique;
    var c, s' := At(s.mem.buf, Hand)[0], WriteOne(s);
    var next := Advance(s.ro.counts, s.ro.next);
    var b := Move(s.mem.buf, Hand, 0, 1, Out);
    MoveFirst(s.mem.buf, Hand, Out);
    assert At(b, Hand) == [] && At(b, Cache) == At(s.mem.buf, Cache);
    assert Cached(b) == Cached(s.mem.buf) == StageOf(s).cache;
    assert s'.mem.buf == Pull(b, next);
    PullStage(b, next);
  }

  /** What WriteOne does when nothing is wrong. */
  lemma WriteIs(cfg: Config, plan: seq<seq<Bytes>>, s: State)
    requires CanWrite(s) && !s.fault && s.ro.next.l1 < |s.ro.counts|
    requires var c := At(s.mem.buf, Hand)[0];
             c in s.mem.heap && StandsFor(cfg, plan, s.mem, c, Owner(s, c)) && IsPacked(cfg, plan, s.mem, Owner(s, c))
    ensures var c, s' := At(s.mem.buf, Hand)[0], WriteOne(s);
            var m := Emit(s.mem, c, Owner(s, c));
            && !s'.fault && s'.mem == m.(buf := Pull(m.buf, s'.ro.next))
            && s'.records == s.records + [NewRecord(s.mem.heap[Owner(s, c)])]
            && s' == s.(mem := s'.mem, ro := s.ro.(next := s'.ro.next), records := s'.records)
  {
    hide IsMin;
  }

  /** The chunk in hand is alone there, is the one expected, and is right. */
  lemma InHand(cfg: Config, coarse: seq<Bytes>, plan: seq<seq<Bytes>>, s: State)
    requires Sane(cfg) && Holds(cfg, coarse, plan, s) && CanWrite(s)
    ensures var c := At(s.mem.buf, Hand)[0];
            && |At(s.mem.buf, Hand)| == 1 && StageOf(s).hand == Some(c) && !s.ro.exited
            && ChunkOk(cfg, plan, s.mem, Late, c) && c in s.mem.heap && Owner(s, c) in s.mem.heap
            && StandsFor(cfg, plan, s.mem, c, Owner(s, c)) && IsPacked(cfg, plan, s.mem, Owner(s, c))
  {
    hide Unique, Shapes, TableOk, RecordsOk, Sorted, Lineage, PrefixStable, Lossless, FragOk, Made;
    var c := At(s.mem.buf, Hand)[0];
    FirstOk(cfg, plan, s.mem, Hand);
    OwnerStandsFor(cfg, plan, s, c);
    IsEntryOk(cfg, plan, s.mem, DigestAt(cfg, plan, c));
    EntryIsPacked(cfg, plan, s.mem, Owner(s, c));
  }

  lemma WriteKeeps(cfg: Config, coarse: seq<Bytes>, plan: seq<seq<Bytes>>, s: State)
    requires Sane(cfg) && Holds(cfg, coarse, plan, s) && CanWrite(s)
    ensures Holds(cfg, coarse, plan, WriteOne(s))
  {
    hide Holds, Unique, Shapes, TableOk, RecordsOk, Sorted, Lineage, ControlOk, PrefixStable, Lossless, FragOk,
         Made, StandsFor, IsPacked, CanWrite;
    HoldsParts(cfg, coarse, plan, s);
    InHand(cfg, coarse, plan, s);
    var c := At(s.mem.buf, Hand)[0];
    WriteKeepsStage(cfg, coarse, plan, s);
    WriteKeepsChunks(cfg, coarse, plan, s);
    WriteControl(cfg, coarse, plan, s);
    HoldsAgain(cfg, coarse, plan, s, WriteOne(s));
  }

  /** The parts of the invariant put together again after a step of Reorder. */
  lemma HoldsAgain(cfg: Config, coarse: seq<Bytes>, plan: seq<seq<Bytes>>, s: State, s': State)
    requires Sane(cfg) && Holds(cfg, coarse, plan, s) && !s'.fault && s'.frag == s.frag
    requires At(s'.mem.buf, FragSend) == At(s.mem.buf, FragSend)
    requires Unique(s'.mem.buf) && Shapes(cfg, plan, s'.mem) && TableOk(cfg, plan, s'.mem)
    requires RecordsOk(cfg, plan, s'.mem, s'.records) && Sorted(SizesOf(plan), StageOf(s'))
    requires Lineage(plan, Emitted(coarse, s.frag), s'.mem.buf) && ControlOk(cfg, s')
    ensures Holds(cfg, coarse, plan, s')
  {
    hide Unique, Shapes, TableOk, RecordsOk, Sorted, Lineage, ControlOk, PrefixStable, Lossless, FragOk;
  }

  lemma StageSorted(cfg: Config, coarse: seq<Bytes>, plan: seq<seq<Bytes>>, s: State)
    requires Sane(cfg) && Holds(cfg, coarse, plan, s)
    ensures Sorted(SizesOf(plan), StageOf(s)) && RecordsOk(cfg, plan, s.mem, s.records)
  {
  }

  lemma WriteKeepsStage(cfg: Config, coarse: seq<Bytes>, plan: seq<seq<Bytes>>, s: State)
    requires Sane(cfg) && Holds(cfg, coarse, plan, s) && CanWrite(s)
    ensures !WriteOne(s).fault && s.ro.next.l1 < |s.ro.counts|
    ensures Sorted(SizesOf(plan), StageOf(WriteOne(s))) && |At(WriteOne(s).mem.buf, Hand)| <= 1
  {
    hide Holds, Unique, Sorted, PrefixStable, Lossless, Write, WriteOne, Made, StandsFor, IsPacked;
    HoldsParts(cfg, coarse, plan, s);
    StageSorted(cfg, coarse, plan, s);
    InHand(cfg, coarse, plan, s);
    WriteKeepsSorted(SizesOf(plan), StageOf(s));
    WriteIs(cfg, plan, s);
    WriteStage(s);
  }

  lemma WriteKeepsChunks(cfg: Config, coarse: seq<Bytes>, plan: seq<seq<Bytes>>, s: State)
    requires Sane(cfg) && Holds(cfg, coarse, plan, s) && CanWrite(s) && s.ro.next.l1 < |s.ro.counts|
    ensures var s' := WriteOne(s);
            && Unique(s'.mem.buf) && Shapes(cfg, plan, s'.mem) && TableOk(cfg, plan, s'.mem)
            && RecordsOk(cfg, plan, s'.mem, s'.records) && Lineage(plan, Emitted(coarse, s.frag), s'.mem.buf)
  {
    hide Holds, Unique, Shapes, TableOk, RecordsOk, Sorted, Lineage, PrefixStable, Lossless, Made, WriteOne,
         StandsFor, IsPacked, ControlOk, Pull, NewRecord;
    HoldsParts(cfg, coarse, plan, s);
    StageSorted(cfg, coarse, plan, s);
    InHand(cfg, coarse, plan, s);
    var c, s' := At(s.mem.buf, Hand)[0], WriteOne(s);
    var o := Owner(s, c);
    WriteIs(cfg, plan, s);
    EmitShapes(cfg, plan, s.mem, c, o);
    EmitTable(cfg, plan, s.mem, c, o);
    EmitRecords(cfg, plan, s.mem, s.records, c, o);
    MoveKeepsUnique(s.mem.buf, Hand, 0, 1, Out);
    MoveKeepsLineage(plan, Emitted(coarse, s.frag), s.mem.buf, Hand, 0, 1, Out);
    PullKeeps(cfg, plan, Emitted(coarse, s.frag), Emit(s.mem, c, o), s'.records, s'.ro.next);
  }

  lemma WriteControl(cfg: Config, coarse: seq<Bytes>, plan: seq<seq<Bytes>>, s: State)
    requires Sane(cfg) && Holds(cfg, coarse, plan, s) && CanWrite(s) && s.ro.next.l1 < |s.ro.counts|
    requires |At(WriteOne(s).mem.buf, Hand)| <= 1
    ensures ControlOk(cfg, WriteOne(s)) && WriteOne(s).frag == s.frag
    ensures At(WriteOne(s).mem.buf, FragSend) == At(s.mem.buf, FragSend)
  {
    hide Holds, Unique, ControlOk, PrefixStable, Lossless, Made, WriteOne, StandsFor, IsPacked, NewRecord;
    HoldsParts(cfg, coarse, plan, s);
    InHand(cfg, coarse, plan, s);
    WriteIs(cfg, plan, s);
    ReorderStepControl(cfg, s, WriteOne(s));
  }
}
