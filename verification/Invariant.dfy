/** What holds in every reachable state of the pipeline. */
module Invariant {
  import opened Types
  import opened Chunking
  import opened Archive
  import opened ReorderSpec
  import opened Buffers
  import opened QueueSetup
  import opened Pipeline

  // ---- the chunks of the input ------------------------------------------------------------------

  /** `plan[a][b]` is what chunk (a, b) will contain. */
  ghost function SizesOf(plan: seq<seq<Bytes>>): (sizes: seq<nat>)
    ensures |sizes| == |plan| && forall a :: 0 <= a < |plan| ==> sizes[a] == |plan[a]|
  {
    seq(|plan|, a requires 0 <= a < |plan| => |plan[a]|)
  }

  ghost predicate InPlan(plan: seq<seq<Bytes>>, c: SeqNo) {
    c.l1 < |plan| && c.l2 < |plan[c.l1]|
  }

  ghost function Content(plan: seq<seq<Bytes>>, c: SeqNo): Bytes
    requires InPlan(plan, c)
  {
    plan[c.l1][c.l2]
  }

  ghost predicate IsLast(plan: seq<seq<Bytes>>, c: SeqNo)
    requires InPlan(plan, c)
  {
    c.l2 + 1 == |plan[c.l1]|
  }

  ghost function DigestAt(cfg: Config, plan: seq<seq<Bytes>>, c: SeqNo): Bytes
    requires InPlan(plan, c)
  {
    cfg.codec.digest(Content(plan, c))
  }

  // ---- the chunk objects ------------------------------------------------------------------------

  /** What a chunk has been through when it is in a place. */
  datatype Kind = Whole | BeingCut | Fresh | Owned | Packed | Duplicate | Late | Written

  function KindOf(p: Place): Kind {
    match p
    case FragSend => Whole
    case Queue(ToRefine, _) => Whole
    case Recv(Refine, _) => Whole
    case Cutting(_) => BeingCut
    case Send(Refine, _) => Fresh
    case Queue(ToDeduplicate, _) => Fresh
    case Recv(Deduplicate, _) => Fresh
    case Send(Deduplicate, _) => Owned
    case Queue(ToCompress, _) => Owned
    case Recv(Compress, _) => Owned
    case Send(Compress, _) => Packed
    case SendDup(_) => Duplicate
    case Queue(ToReorder, _) => Late
    case ReorderRecv => Late
    case Cache => Late
    case Hand => Late
    case Out => Written
  }

  predicate Unsplit(p: Place) {
    KindOf(p).Whole? || KindOf(p).BeingCut?
  }

  /** Still to be split: the object holds the pieces from its own number on. */
  ghost predicate HoldsRest(cfg: Config, plan: seq<seq<Bytes>>, m: Memory, c: SeqNo)
    requires PrefixStable(cfg.seg)
  {
    && c in m.heap && InPlan(plan, c)
    && m.heap[c].data.Some? && m.heap[c].data.value != [] && m.heap[c].packed.None?
    && Chunks(cfg.seg, m.heap[c].data.value) == plan[c.l1][c.l2..]
    && m.heap[c].state == StateUncompressed && !m.heap[c].lockReady
  }

  ghost predicate HoldsPiece(plan: seq<seq<Bytes>>, m: Memory, c: SeqNo) {
    && c in m.heap && InPlan(plan, c)
    && m.heap[c].data == Some(Content(plan, c)) && m.heap[c].packed.None?
    && m.heap[c].isLast == IsLast(plan, c) && m.heap[c].state == StateUncompressed && !m.heap[c].lockReady
  }

  /** The chunk went through sub_Deduplicate. */
  ghost predicate Digested(cfg: Config, plan: seq<seq<Bytes>>, m: Memory, c: SeqNo) {
    && c in m.heap && InPlan(plan, c)
    && m.heap[c].isLast == IsLast(plan, c)
    && m.heap[c].sha1 == DigestAt(cfg, plan, c) && m.heap[c].sha1 in m.table
  }

  /** The table holds this very object, and its lock is initialised. */
  ghost predicate IsOwner(cfg: Config, plan: seq<seq<Bytes>>, m: Memory, c: SeqNo) {
    && Digested(cfg, plan, m, c)
    && !m.heap[c].isDuplicate && m.heap[c].lockReady && m.table[m.heap[c].sha1] == c
  }

  ghost predicate IsRaw(plan: seq<seq<Bytes>>, m: Memory, c: SeqNo) {
    && c in m.heap && InPlan(plan, c)
    && m.heap[c].state == StateUncompressed && m.heap[c].data == Some(Content(plan, c)) && m.heap[c].packed.None?
  }

  /** Compressed and not yet released, or released when it was flushed. */
  ghost predicate IsPacked(cfg: Config, plan: seq<seq<Bytes>>, m: Memory, c: SeqNo) {
    && c in m.heap && InPlan(plan, c) && m.heap[c].data.None?
    && ((m.heap[c].state == StateCompressed && m.heap[c].packed == Some(cfg.codec.compress(Content(plan, c))))
        || (m.heap[c].state == StateFlushed && m.heap[c].packed.None?))
  }

  /** The reference of a duplicate is the object in the table. */
  ghost predicate IsDuplicateOf(cfg: Config, plan: seq<seq<Bytes>>, m: Memory, c: SeqNo) {
    && Digested(cfg, plan, m, c)
    && m.heap[c].isDuplicate && m.heap[c].data.None? && m.heap[c].original == m.table[m.heap[c].sha1]
  }

  ghost predicate ChunkOk(cfg: Config, plan: seq<seq<Bytes>>, m: Memory, kind: Kind, c: SeqNo)
    requires PrefixStable(cfg.seg)
  {
    match kind
    case Whole => HoldsRest(cfg, plan, m, c) && c.l2 == 0
    case BeingCut => HoldsRest(cfg, plan, m, c)
    case Fresh => HoldsPiece(plan, m, c)
    case Owned => IsOwner(cfg, plan, m, c) && IsRaw(plan, m, c)
    case Packed => IsOwner(cfg, plan, m, c) && IsPacked(cfg, plan, m, c)
    case Duplicate => IsDuplicateOf(cfg, plan, m, c)
    case Late => (IsOwner(cfg, plan, m, c) && IsPacked(cfg, plan, m, c)) || IsDuplicateOf(cfg, plan, m, c)
    case Written =>
      && InPlan(plan, c) && DigestAt(cfg, plan, c) in m.table
      && (c in m.heap ==> IsOwner(cfg, plan, m, c) && IsPacked(cfg, plan, m, c))
  }

  ghost predicate Shapes(cfg: Config, plan: seq<seq<Bytes>>, m: Memory)
    requires PrefixStable(cfg.seg)
  {
    forall p, c :: c in At(m.buf, p) ==> ChunkOk(cfg, plan, m, KindOf(p), c)
  }

  // ---- table and archive ------------------------------------------------------------------------

  /** A chunk with this digest has been written. */
  ghost predicate DigestWritten(cfg: Config, plan: seq<seq<Bytes>>, out: seq<SeqNo>, d: Bytes) {
    exists c :: c in out && InPlan(plan, c) && DigestAt(cfg, plan, c) == d
  }

  /** Every entry is an object that is alive and was made for this digest, and it is flushed exactly
      when a chunk with its digest has been written. */
  ghost predicate EntryOk(cfg: Config, plan: seq<seq<Bytes>>, m: Memory, d: Bytes)
    requires d in m.table
  {
    var o := m.table[d];
    && IsOwner(cfg, plan, m, o) && DigestAt(cfg, plan, o) == d
    && Made(m.buf, o)
    && (m.heap[o].state == StateFlushed <==> DigestWritten(cfg, plan, At(m.buf, Out), d))
  }

  ghost predicate TableOk(cfg: Config, plan: seq<seq<Bytes>>, m: Memory) {
    forall d :: d in m.table ==> EntryOk(cfg, plan, m, d)
  }

  /** The record at place `i` of the output: data for the first chunk with its digest in the order of
      the output, whoever owns the table entry; a digest for all others. */
  ghost predicate RecordOk(cfg: Config, plan: seq<seq<Bytes>>, m: Memory, records: seq<Record>, i: nat)
    requires i < |records| == |At(m.buf, Out)|
  {
    var out := At(m.buf, Out);
    && InPlan(plan, out[i]) && DigestAt(cfg, plan, out[i]) in m.table
    && InPlan(plan, m.table[DigestAt(cfg, plan, out[i])])
    && records[i] == if DigestWritten(cfg, plan, out[..i], DigestAt(cfg, plan, out[i]))
                     then Fingerprint(DigestAt(cfg, plan, out[i]))
                     else Compressed(cfg.codec.compress(Content(plan, m.table[DigestAt(cfg, plan, out[i])])))
  }

  ghost predicate RecordsOk(cfg: Config, plan: seq<seq<Bytes>>, m: Memory, records: seq<Record>) {
    |records| == |At(m.buf, Out)| && forall i :: 0 <= i < |records| ==> RecordOk(cfg, plan, m, records, i)
  }

  // ---- which chunks exist -----------------------------------------------------------------------

  /** The chunks made so far are, for each coarse chunk emitted, its pieces up to the one that is
      still to be split. */
  ghost predicate Lineage(plan: seq<seq<Bytes>>, emitted: nat, b: Buffers) {
    && emitted <= |plan|
    && (forall c :: Made(b, c) ==> c.l1 < emitted && InPlan(plan, c))
    && (forall a: nat :: a < emitted ==> Made(b, SeqNo(a, 0)))
    && (forall p, c :: c in At(b, p) && !Unsplit(p) && c.l1 < |plan| && c.l2 + 1 < |plan[c.l1]|
               ==> Made(b, SeqNo(c.l1, c.l2 + 1)))
    && (forall p, c, l2: nat :: c in At(b, p) && Unsplit(p) && Made(b, SeqNo(c.l1, l2)) ==> l2 <= c.l2)
  }

  predicate Live(f: Frag) {
    f.phase == Reading || f.phase == Splitting || f.phase == FragPushing
  }

  /** How many coarse chunks Fragment has sent. */
  ghost function Emitted(coarse: seq<Bytes>, f: Frag): nat {
    if Live(f) then f.l1 else |coarse|
  }

  /** The coarse chunks still to come are those of the buffer and the unread bytes. */
  ghost predicate FragOk(cfg: Config, coarse: seq<Bytes>, f: Frag, fill: nat)
    requires cfg.perQueue > 0 && PrefixStable(cfg.seg)
  {
    CoarseCutIsPrefixStable(cfg.seg, cfg.jump);
    var cut := CoarseCut(cfg.seg, cfg.jump);
    && f.qid < NQueues(cfg) && fill <= cfg.anchorInsert
    && (Live(f) ==>
          && f.l1 <= |coarse| && Chunks(cut, f.buffer + f.unread) == coarse[f.l1..]
          && (f.buffer != [] ==> f.anchorcount == f.l1 + 1)
          && (f.buffer == [] ==> f.phase == Reading && f.l1 == f.anchorcount == 0)
          && (f.phase == Reading && f.buffer != [] ==> cut(f.buffer) == |f.buffer|)
          && (if f.phase == FragPushing then 0 < fill else fill < cfg.anchorInsert))
    && (f.phase.Terminating? ==> fill == 0 && f.phase.done <= NQueues(cfg))
  }

  // ---- control ----------------------------------------------------------------------------------

  ghost predicate InRange(cfg: Config, p: Place)
    requires cfg.perQueue > 0
  {
    match p
    case Queue(_, q) => q < NQueues(cfg)
    case Recv(_, t) => t < cfg.nthreads
    case Cutting(t) => t < cfg.nthreads
    case Send(_, t) => t < cfg.nthreads
    case SendDup(t) => t < cfg.nthreads
    case _ => true
  }

  /** The queue is finished and nothing is left in it. */
  ghost predicate Dry(cfg: Config, b: Buffers, ctl: Control, feed: Feed, q: nat)
    requires cfg.perQueue > 0
  {
    At(b, Queue(feed, q)) == [] && Finished(cfg, ctl, feed, q)
  }

  /** A send buffer never overflows, and it is full only between an insertion and the next push. */
  ghost predicate SendOk(cfg: Config, b: Buffers, phase: Phase, p: Place) {
    && |At(b, p)| <= Room(cfg, p)
    && (phase.Running? || (phase.Pushing? && phase.from != p) ==> !Full(cfg, b, p))
    && (phase == Pushing(p) ==> At(b, p) != [])
    && (phase.Stopped? ==> At(b, p) == [])
  }

  ghost predicate WorkerOk(cfg: Config, b: Buffers, ctl: Control, pool: Pool, t: nat)
    requires cfg.perQueue > 0
  {
    var phase := PhaseOf(ctl, pool, t);
    && SendOk(cfg, b, phase, Send(pool, t))
    && (pool == Deduplicate ==> SendOk(cfg, b, phase, SendDup(t)))
    && (phase.Pushing? ==> SendPlace(phase.from, pool, t))
    && (phase.Draining? || phase.Stopped? ==>
          && At(b, Recv(pool, t)) == [] && (pool == Refine ==> At(b, Cutting(t)) == [])
          && Dry(cfg, b, ctl, InFeed(pool), QueueFor(cfg, t)))
  }

  ghost function StoppedOn(ctl: Control, pool: Pool, perQueue: nat, q: nat): nat -> bool
    requires perQueue > 0
  {
    (t: nat) => QueueOf(t, perQueue) == q && PhaseOf(ctl, pool, t) == Stopped
  }

  /** The termination counts of the queues are right. */
  ghost predicate EndedOk(cfg: Config, f: Frag, ctl: Control)
    requires cfg.perQueue > 0
  {
    && (forall q: nat :: q < NQueues(cfg) ==>
          EndedCount(ctl, Queue(ToRefine, q)) == if f.phase.Terminating? && q < f.phase.done then 1 else 0)
    && (forall pool, q: nat :: q < NQueues(cfg) ==>
          EndedCount(ctl, Queue(OutFeed(pool), q)) == Count(cfg.nthreads, StoppedOn(ctl, pool, cfg.perQueue, q)))
  }

  /** How many queues ago Reorder asked queue `q`. */
  function Behind(n: nat, qid: nat, q: nat): int {
    if q < qid then qid - 1 - q else qid + n - 1 - q
  }

  ghost predicate ReorderOk(cfg: Config, s: State)
    requires cfg.perQueue > 0
  {
    && s.ro.qid < NQueues(cfg) && s.ro.tried <= NQueues(cfg)
    && |At(s.mem.buf, Hand)| <= 1
    && (forall q: nat :: q < NQueues(cfg) && Behind(NQueues(cfg), s.ro.qid, q) < s.ro.tried
                         ==> Dry(cfg, s.mem.buf, s.ctl, ToReorder, q))
    && (s.ro.exited <==> s.ro.tried == NQueues(cfg))
    && (s.ro.exited ==> At(s.mem.buf, ReorderRecv) == [] && At(s.mem.buf, Hand) == [])
  }

  ghost predicate ControlOk(cfg: Config, s: State)
    requires cfg.perQueue > 0
  {
    && (forall p :: At(s.mem.buf, p) != [] ==> InRange(cfg, p))
    && (forall pool, t: nat :: t < cfg.nthreads ==> WorkerOk(cfg, s.mem.buf, s.ctl, pool, t))
    && EndedOk(cfg, s.frag, s.ctl)
    && ReorderOk(cfg, s)
  }

  ghost predicate DataOk(cfg: Config, plan: seq<seq<Bytes>>, s: State)
    requires PrefixStable(cfg.seg)
  {
    && Unique(s.mem.buf)
    && Shapes(cfg, plan, s.mem)
    && TableOk(cfg, plan, s.mem)
    && RecordsOk(cfg, plan, s.mem, s.records)
    && Sorted(SizesOf(plan), StageOf(s))
  }

  /** The invariant, for given coarse chunks and pieces. */
  ghost predicate Holds(cfg: Config, coarse: seq<Bytes>, plan: seq<seq<Bytes>>, s: State)
    requires Sane(cfg)
  {
    && !s.fault
    && DataOk(cfg, plan, s)
    && Lineage(plan, Emitted(coarse, s.frag), s.mem.buf)
    && FragOk(cfg, coarse, s.frag, |At(s.mem.buf, FragSend)|)
    && ControlOk(cfg, s)
  }

  ghost predicate Inv(cfg: Config, input: Bytes, s: State)
    requires Sane(cfg)
  {
    Holds(cfg, CoarseChunks(cfg.seg, cfg.jump, input), TwoLevel(cfg.seg, cfg.jump, input), s)
  }
}
