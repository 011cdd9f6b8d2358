/** The parallel encoder as a state machine: one Fragment thread, three pools of workers and one
    Reorder thread, all running between queues. A step is what one thread does between two points
    where another one can be scheduled; every interleaving of the threads is a list of steps. */
module Pipeline {
  import opened Types
  import opened Chunking
  import opened Archive
  import opened ReorderSpec
  import opened Buffers
  import opened QueueSetup

  /** The compile-time and command-line constants. `anchors` is the first size of chunks_per_anchor. */
  datatype Config = Config(
    codec: Codec, seg: Segmenter, jump: nat, maxbuf: nat,
    nthreads: nat, perQueue: nat, queueSize: nat, anchors: nat,
    anchorInsert: nat, maxFetch: nat, chunkInsert: nat, chunkFetch: nat, itemInsert: nat, itemFetch: nat)

  ghost predicate Sane(cfg: Config) {
    && PrefixStable(cfg.seg) && Lossless(cfg.codec)
    && cfg.maxbuf > 0 && cfg.nthreads > 0 && cfg.perQueue > 0 && cfg.queueSize > 0 && cfg.anchors > 0
    && cfg.anchorInsert > 0 && cfg.maxFetch > 0 && cfg.chunkInsert > 0 && cfg.chunkFetch > 0
    && cfg.itemInsert > 0 && cfg.itemFetch > 0
  }

  function NQueues(cfg: Config): nat
    requires cfg.perQueue > 0
  {
    NumQueues(cfg.nthreads, cfg.perQueue)
  }

  function QueueFor(cfg: Config, t: nat): nat
    requires cfg.perQueue > 0
  {
    QueueOf(t, cfg.perQueue)
  }

  /** (qid+1) % nqueues */
  function NextQueue(cfg: Config, qid: nat): nat
    requires cfg.perQueue > 0
  {
    if NQueues(cfg) == 0 then 0 else (qid + 1) % NQueues(cfg)
  }

  /** How many chunks a ring buffer or a queue can hold. */
  function Room(cfg: Config, p: Place): nat {
    match p
    case FragSend => cfg.anchorInsert
    case Queue(_, _) => cfg.queueSize
    case Recv(Refine, _) => cfg.maxFetch
    case Recv(Deduplicate, _) => cfg.chunkFetch
    case Recv(Compress, _) => cfg.itemFetch
    case Send(Refine, _) => cfg.chunkInsert
    case Send(_, _) => cfg.itemInsert
    case SendDup(_) => cfg.itemInsert
    case ReorderRecv => cfg.itemFetch
    case _ => 1
  }

  predicate Full(cfg: Config, b: Buffers, p: Place) {
    |At(b, p)| >= Room(cfg, p)
  }

  function InFeed(pool: Pool): Feed {
    match pool
    case Refine => ToRefine
    case Deduplicate => ToDeduplicate
    case Compress => ToCompress
  }

  /** The queue array a worker terminates when it is done. */
  function OutFeed(pool: Pool): Feed {
    match pool
    case Refine => ToDeduplicate
    case Deduplicate => ToCompress
    case Compress => ToReorder
  }

  /** Where a send buffer is emptied to. */
  function Target(cfg: Config, p: Place): Place
    requires cfg.perQueue > 0
  {
    match p
    case Send(pool, t) => Queue(OutFeed(pool), QueueFor(cfg, t))
    case SendDup(t) => Queue(ToReorder, QueueFor(cfg, t))
    case _ => p
  }

  // ---- the state --------------------------------------------------------------------------------

  datatype ChunkState = StateUncompressed | StateCompressed | StateFlushed

  /** A chunk object. Buffers that were freed are None; `original` is compressed_data_ref. */
  datatype Chunk = Chunk(data: Option<Bytes>, packed: Option<Bytes>, isLast: bool, isDuplicate: bool,
                         original: SeqNo, sha1: Bytes, state: ChunkState, lockReady: bool)

  function NewChunk(data: Bytes): Chunk {
    Chunk(Some(data), None, false, false, SeqNo(0, 0), [], StateUncompressed, false)
  }

  datatype FragPhase = Reading | Splitting | FragPushing | FragDraining | Terminating(done: nat)

  /** Fragment: the buffer under construction has level-1 number `l1`. */
  datatype Frag = Frag(phase: FragPhase, l1: nat, buffer: Bytes, unread: Bytes, anchorcount: nat, qid: nat)

  /** A worker with a full send buffer does nothing before it has passed some of it on. */
  datatype Phase = Running | Pushing(from: Place) | Draining | Stopped

  datatype Worker = Worker(pool: Pool, t: nat)

  /** Chunk objects carry their sequence number as their address; a coarse chunk is the object that
      becomes its first piece. `table` is the hash table. */
  datatype Memory = Memory(buf: Buffers, heap: map<SeqNo, Chunk>, table: map<Bytes, SeqNo>)

  datatype Control = Control(phases: map<Worker, Phase>, ended: map<Place, nat>)

  /** Reorder: `tried` queues in a row were found finished. */
  datatype Reorderer = Reorderer(next: SeqNo, counts: seq<nat>, qid: nat, tried: nat, exited: bool)

  /** `fault` is a failed assertion or the use of a freed buffer or an uninitialised lock; `overrun` is
      an access behind the end of chunks_per_anchor. After either nothing is said any more. */
  datatype State = State(frag: Frag, mem: Memory, ctl: Control, ro: Reorderer, records: seq<Record>,
                         overrun: bool, fault: bool)

  function PhaseOf(ctl: Control, pool: Pool, t: nat): Phase {
    if Worker(pool, t) in ctl.phases then ctl.phases[Worker(pool, t)] else Running
  }

  function SetPhase(ctl: Control, pool: Pool, t: nat, phase: Phase): Control {
    ctl.(phases := ctl.phases[Worker(pool, t) := phase])
  }

  function EndedCount(ctl: Control, q: Place): nat {
    if q in ctl.ended then ctl.ended[q] else 0
  }

  /** The producer count given to queue_init. */
  function Producers(cfg: Config, feed: Feed, q: nat): nat
    requires cfg.perQueue > 0
  {
    if feed == ToRefine then 1 else ThreadsPerQueue(cfg.nthreads, cfg.perQueue, q)
  }

  /** queue_dequeue gives up on an empty queue exactly when all its producers have terminated. */
  predicate Finished(cfg: Config, ctl: Control, feed: Feed, q: nat)
    requires cfg.perQueue > 0
  {
    EndedCount(ctl, Queue(feed, q)) == Producers(cfg, feed, q)
  }

  function EndOne(ctl: Control, q: Place): Control {
    ctl.(ended := ctl.ended[q := EndedCount(ctl, q) + 1])
  }

  ghost function Initial(cfg: Config, input: Bytes): State {
    State(Frag(Reading, 0, [], input, 0, 0), Memory(map[], map[], map[]), Control(map[], map[]),
          Reorderer(SeqNo(0, 0), Zeros(cfg.anchors), 0, 0, false), [], false, false)
  }

  function Faulty(s: State): State {
    s.(fault := true)
  }

  // ---- Fragment ---------------------------------------------------------------------------------

  /** Puts a new chunk object into a buffer. */
  function Insert(cfg: Config, s: State, p: Place, c: SeqNo, data: Bytes): State {
    if Full(cfg, s.mem.buf, p) then Faulty(s)
    else s.(mem := s.mem.(buf := Append(s.mem.buf, p, c), heap := s.mem.heap[c := NewChunk(data)]))
  }

  function FragRead(cfg: Config, s: State): State {
    var f := s.frag;
    var m := Min(cfg.maxbuf, |f.unread|);
    var g := Frag(Reading, if f.buffer != [] then f.l1 else f.anchorcount, f.buffer + f.unread[..m], f.unread[m..],
                  if f.buffer != [] then f.anchorcount else f.anchorcount + 1, f.qid);
    if g.buffer == [] then s.(frag := g.(phase := FragDraining))
    else if m == 0 then
      Insert(cfg, s.(frag := g.(phase := FragDraining, buffer := [])), FragSend, SeqNo(g.l1, 0), g.buffer)
    else s.(frag := g.(phase := Splitting))
  }

  function FragSplit(cfg: Config, s: State): State {
    var f := s.frag;
    var cut := CoarseCut(cfg.seg, cfg.jump)(f.buffer);
    if cut < |f.buffer| then
      var t := Insert(cfg, s, FragSend, SeqNo(f.l1, 0), f.buffer[..cut]);
      t.(frag := Frag(if Full(cfg, t.mem.buf, FragSend) then FragPushing else Splitting,
                      f.anchorcount, f.buffer[cut..], f.unread, f.anchorcount + 1, f.qid))
    else s.(frag := f.(phase := Reading))
  }

  predicate CanFragPush(cfg: Config, s: State, n: nat) {
    && (s.frag.phase == FragPushing || s.frag.phase == FragDraining)
    && 1 <= n <= |At(s.mem.buf, FragSend)|
    && |At(s.mem.buf, Queue(ToRefine, s.frag.qid))| + n <= cfg.queueSize
  }

  function FragPush(cfg: Config, s: State, n: nat): State
    requires cfg.perQueue > 0 && CanFragPush(cfg, s, n)
  {
    s.(mem := s.mem.(buf := Move(s.mem.buf, FragSend, 0, n, Queue(ToRefine, s.frag.qid))),
       frag := s.frag.(phase := if s.frag.phase == FragPushing then Splitting else FragDraining,
                       qid := NextQueue(cfg, s.frag.qid)))
  }

  function FragTerminate(s: State): State
    requires s.frag.phase.Terminating?
  {
    s.(ctl := EndOne(s.ctl, Queue(ToRefine, s.frag.phase.done)),
       frag := s.frag.(phase := Terminating(s.frag.phase.done + 1)))
  }

  // ---- the workers ------------------------------------------------------------------------------

  /** The worker has nothing at hand and asks its queue. */
  predicate Idle(cfg: Config, s: State, pool: Pool, t: nat) {
    && t < cfg.nthreads && PhaseOf(s.ctl, pool, t) == Running && At(s.mem.buf, Recv(pool, t)) == []
    && (pool == Refine ==> At(s.mem.buf, Cutting(t)) == [])
  }

  predicate CanFetch(cfg: Config, s: State, pool: Pool, t: nat, n: nat)
    requires cfg.perQueue > 0
  {
    && Idle(cfg, s, pool, t)
    && 1 <= n <= |At(s.mem.buf, Queue(InFeed(pool), QueueFor(cfg, t)))| && n <= Room(cfg, Recv(pool, t))
  }

  function Fetch(cfg: Config, s: State, pool: Pool, t: nat, n: nat): State
    requires cfg.perQueue > 0 && CanFetch(cfg, s, pool, t, n)
  {
    s.(mem := s.mem.(buf := Move(s.mem.buf, Queue(InFeed(pool), QueueFor(cfg, t)), 0, n, Recv(pool, t))))
  }

  predicate CanExit(cfg: Config, s: State, pool: Pool, t: nat)
    requires cfg.perQueue > 0
  {
    && Idle(cfg, s, pool, t) && At(s.mem.buf, Queue(InFeed(pool), QueueFor(cfg, t))) == []
    && Finished(cfg, s.ctl, InFeed(pool), QueueFor(cfg, t))
  }

  function Exit(s: State, pool: Pool, t: nat): State {
    s.(ctl := SetPhase(s.ctl, pool, t, Draining))
  }

  predicate CanTake(cfg: Config, s: State, t: nat) {
    && t < cfg.nthreads && PhaseOf(s.ctl, Refine, t) == Running
    && At(s.mem.buf, Recv(Refine, t)) != [] && At(s.mem.buf, Cutting(t)) == []
  }

  function TakeCoarse(s: State, t: nat): State
    requires At(s.mem.buf, Recv(Refine, t)) != []
  {
    s.(mem := s.mem.(buf := Move(s.mem.buf, Recv(Refine, t), 0, 1, Cutting(t))))
  }

  /** After an insertion the buffer is passed on if it is full now. */
  function Inserted(cfg: Config, s: State, pool: Pool, t: nat, p: Place): State {
    if Full(cfg, s.mem.buf, p) then s.(ctl := SetPhase(s.ctl, pool, t, Pushing(p))) else s
  }

  predicate CanCut(cfg: Config, s: State, t: nat) {
    t < cfg.nthreads && PhaseOf(s.ctl, Refine, t) == Running && At(s.mem.buf, Cutting(t)) != []
  }

  /** One turn of the split loop of FragmentRefine. */
  function CutOne(cfg: Config, s: State, t: nat): State
    requires CanCut(cfg, s, t)
  {
    var c := At(s.mem.buf, Cutting(t))[0];
    if c !in s.mem.heap || s.mem.heap[c].data.None? || Full(cfg, s.mem.buf, Send(Refine, t)) then Faulty(s)
    else
      var data := s.mem.heap[c].data.value;
      var offset := cfg.seg(data);
      var buf := Move(s.mem.buf, Cutting(t), 0, 1, Send(Refine, t));
      if offset < |data| then
        var temp := SeqNo(c.l1, c.l2 + 1);
        var heap := s.mem.heap[c := s.mem.heap[c].(data := Some(data[..offset]), isLast := false)]
                    [temp := NewChunk(data[offset..]).(state := s.mem.heap[c].state)];
        Inserted(cfg, s.(mem := s.mem.(buf := Append(buf, Cutting(t), temp), heap := heap)), Refine, t, Send(Refine, t))
      else
        var heap := s.mem.heap[c := s.mem.heap[c].(isLast := true)];
        Inserted(cfg, s.(mem := s.mem.(buf := buf, heap := heap)), Refine, t, Send(Refine, t))
  }

  predicate CanWork(cfg: Config, s: State, pool: Pool, t: nat) {
    t < cfg.nthreads && PhaseOf(s.ctl, pool, t) == Running && At(s.mem.buf, Recv(pool, t)) != []
  }

  /** sub_Deduplicate on the next chunk, and its way into one of the two send buffers. */
  function DedupOne(cfg: Config, s: State, t: nat): State
    requires CanWork(cfg, s, Deduplicate, t)
  {
    var c := At(s.mem.buf, Recv(Deduplicate, t))[0];
    if c !in s.mem.heap || s.mem.heap[c].data.None? then Faulty(s)
    else
      var chunk := s.mem.heap[c].(sha1 := cfg.codec.digest(s.mem.heap[c].data.value));
      var found := chunk.sha1 in s.mem.table;
      var to := if found then SendDup(t) else Send(Deduplicate, t);
      if Full(cfg, s.mem.buf, to) then Faulty(s)
      else
        var chunk' := if found then chunk.(isDuplicate := true, original := s.mem.table[chunk.sha1], data := None)
                      else chunk.(isDuplicate := false, lockReady := true);
        var table := if found then s.mem.table else s.mem.table[chunk.sha1 := c];
        var buf := Move(s.mem.buf, Recv(Deduplicate, t), 0, 1, to);
        Inserted(cfg, s.(mem := Memory(buf, s.mem.heap[c := chunk'], table)), Deduplicate, t, to)
  }

  /** sub_Compress, with its assertion on the chunk's state. */
  function CompressOne(cfg: Config, s: State, t: nat): State
    requires CanWork(cfg, s, Compress, t)
  {
    var c := At(s.mem.buf, Recv(Compress, t))[0];
    if c !in s.mem.heap || !s.mem.heap[c].lockReady || s.mem.heap[c].state != StateUncompressed
       || s.mem.heap[c].data.None? || s.mem.heap[c].packed.Some? || Full(cfg, s.mem.buf, Send(Compress, t))
    then Faulty(s)
    else
      var chunk := s.mem.heap[c].(packed := Some(cfg.codec.compress(s.mem.heap[c].data.value)), data := None,
                                  state := StateCompressed);
      var buf := Move(s.mem.buf, Recv(Compress, t), 0, 1, Send(Compress, t));
      Inserted(cfg, s.(mem := s.mem.(buf := buf, heap := s.mem.heap[c := chunk])), Compress, t, Send(Compress, t))
  }

  predicate SendPlace(p: Place, pool: Pool, t: nat) {
    p == Send(pool, t) || (p == SendDup(t) && pool == Deduplicate)
  }

  /** A full buffer is passed on; at the end both are emptied, the one for compression first. */
  predicate CanPush(cfg: Config, s: State, pool: Pool, t: nat, p: Place, n: nat)
    requires cfg.perQueue > 0
  {
    && t < cfg.nthreads && SendPlace(p, pool, t)
    && (PhaseOf(s.ctl, pool, t) == Pushing(p)
        || (PhaseOf(s.ctl, pool, t) == Draining && (p.SendDup? ==> At(s.mem.buf, Send(pool, t)) == [])))
    && 1 <= n <= |At(s.mem.buf, p)| && |At(s.mem.buf, Target(cfg, p))| + n <= cfg.queueSize
  }

  function Push(cfg: Config, s: State, pool: Pool, t: nat, p: Place, n: nat): State
    requires cfg.perQueue > 0 && CanPush(cfg, s, pool, t, p, n)
  {
    s.(mem := s.mem.(buf := Move(s.mem.buf, p, 0, n, Target(cfg, p))),
       ctl := if PhaseOf(s.ctl, pool, t) == Draining then s.ctl else SetPhase(s.ctl, pool, t, Running))
  }

  predicate CanStop(cfg: Config, s: State, pool: Pool, t: nat) {
    && t < cfg.nthreads && PhaseOf(s.ctl, pool, t) == Draining
    && At(s.mem.buf, Send(pool, t)) == [] && (pool == Deduplicate ==> At(s.mem.buf, SendDup(t)) == [])
  }

  function Stop(cfg: Config, s: State, pool: Pool, t: nat): State
    requires cfg.perQueue > 0
  {
    s.(ctl := EndOne(SetPhase(s.ctl, pool, t, Stopped), Queue(OutFeed(pool), QueueFor(cfg, t))))
  }

  // ---- Reorder ----------------------------------------------------------------------------------

  predicate Asking(s: State) {
    !s.ro.exited && At(s.mem.buf, ReorderRecv) == [] && At(s.mem.buf, Hand) == []
  }

  predicate CanPoll(cfg: Config, s: State, n: nat) {
    Asking(s) && 1 <= n <= |At(s.mem.buf, Queue(ToReorder, s.ro.qid))| && n <= cfg.itemFetch
  }

  function Poll(cfg: Config, s: State, n: nat): State
    requires cfg.perQueue > 0 && CanPoll(cfg, s, n)
  {
    s.(mem := s.mem.(buf := Move(s.mem.buf, Queue(ToReorder, s.ro.qid), 0, n, ReorderRecv)),
       ro := s.ro.(qid := NextQueue(cfg, s.ro.qid), tried := 0))
  }

  predicate CanPollEnded(cfg: Config, s: State)
    requires cfg.perQueue > 0
  {
    Asking(s) && At(s.mem.buf, Queue(ToReorder, s.ro.qid)) == [] && Finished(cfg, s.ctl, ToReorder, s.ro.qid)
  }

  /** A finished queue is passed over; the loop ends when all of them were in one round. */
  function PollEnded(cfg: Config, s: State): State
    requires cfg.perQueue > 0
  {
    s.(ro := s.ro.(qid := NextQueue(cfg, s.ro.qid), tried := s.ro.tried + 1,
                   exited := s.ro.tried + 1 == NQueues(cfg)))
  }

  ghost function Cached(b: Buffers): set<SeqNo> {
    set c | c in At(b, Cache)
  }

  /** The reorder stage inside the state. */
  ghost function StageOf(s: State): Stage {
    var hand := At(s.mem.buf, Hand);
    Stage(s.ro.next, s.ro.counts, Cached(s.mem.buf), if hand == [] then None else Some(hand[0]),
          At(s.mem.buf, Out))
  }

  predicate CanReceive(s: State) {
    !s.ro.exited && At(s.mem.buf, Hand) == [] && At(s.mem.buf, ReorderRecv) != []
  }

  /** The next chunk out of the receive buffer: kept for later or taken in hand. */
  function ReceiveOne(s: State): State
    requires CanReceive(s)
  {
    var c := At(s.mem.buf, ReorderRecv)[0];
    if c !in s.mem.heap then Faulty(s)
    else if !InBounds(s.ro.counts, c.l1) then s.(overrun := true)
    else
      var grown := Grown(s.ro.counts, c.l1);
      if s.mem.heap[c].isLast && grown[c.l1] != 0 then Faulty(s)
      else
        s.(ro := s.ro.(counts := Noted(grown, c, s.mem.heap[c].isLast)),
           mem := s.mem.(buf := Move(s.mem.buf, ReorderRecv, 0, 1, if c == s.ro.next then Hand else Cache)))
  }

  /** The object whose compressed data stands for the chunk. */
  function Owner(s: State, c: SeqNo): SeqNo
    requires c in s.mem.heap
  {
    if s.mem.heap[c].isDuplicate then s.mem.heap[c].original else c
  }

  /** write_chunk_to_file waits while the original is uncompressed. */
  predicate Waiting(s: State, c: SeqNo) {
    c in s.mem.heap && Owner(s, c) in s.mem.heap && s.mem.heap[Owner(s, c)].state == StateUncompressed
  }

  predicate CanWrite(s: State) {
    At(s.mem.buf, Hand) != [] && !Waiting(s, At(s.mem.buf, Hand)[0])
  }

  function IndexOf(q: seq<SeqNo>, c: SeqNo): (i: nat)
    requires c in q
    ensures i < |q| && q[i] == c
  {
    if q[0] == c then 0 else 1 + IndexOf(q[1..], c)
  }

  /** write_chunk_to_file, the release of a duplicate, and the step to the next sequence number. */
  ghost function WriteOne(s: State): State
    requires CanWrite(s)
  {
    var c := At(s.mem.buf, Hand)[0];
    if c !in s.mem.heap || Owner(s, c) !in s.mem.heap || !s.mem.heap[Owner(s, c)].lockReady
       || s.ro.next.l1 >= |s.ro.counts|
    then Faulty(s)
    else
      var o := Owner(s, c);
      var chunk := s.mem.heap[o];
      if chunk.state == StateCompressed && chunk.packed.None? then Faulty(s)
      else
        var record := if chunk.state == StateCompressed then Compressed(chunk.packed.value)
                      else Fingerprint(chunk.sha1);
        var heap := s.mem.heap[o := chunk.(packed := None, state := StateFlushed)];
        var heap' := if s.mem.heap[c].isDuplicate then heap - {c} else heap;
        var next := Advance(s.ro.counts, s.ro.next);
        var buf := Move(s.mem.buf, Hand, 0, 1, Out);
        var cached := At(buf, Cache);
        var buf' := if IsMin(next, Cached(buf))
                    then Move(buf, Cache, IndexOf(cached, next), IndexOf(cached, next) + 1, Hand) else buf;
        s.(mem := s.mem.(buf := buf', heap := heap'), ro := s.ro.(next := next), records := s.records + [record])
  }

  // ---- steps and runs ---------------------------------------------------------------------------

  datatype Step =
    | FragReads | FragSplits | FragPushes(n: nat) | FragDrained | FragTerminates
    | Fetches(pool: Pool, t: nat, n: nat) | Exits(pool: Pool, t: nat)
    | Takes(t: nat) | Cuts(t: nat) | Deduplicates(t: nat) | Compresses(t: nat)
    | Pushes(pool: Pool, t: nat, p: Place, n: nat) | Stops(pool: Pool, t: nat)
    | Polls(n: nat) | PollsEnded | Receives | Writes

  ghost predicate Enabled(cfg: Config, s: State, step: Step)
    requires cfg.perQueue > 0
  {
    && !s.fault && !s.overrun
    && match step
       case FragReads => s.frag.phase == Reading
       case FragSplits => s.frag.phase == Splitting
       case FragPushes(n) => CanFragPush(cfg, s, n)
       case FragDrained => s.frag.phase == FragDraining && At(s.mem.buf, FragSend) == []
       case FragTerminates => s.frag.phase.Terminating? && s.frag.phase.done < NQueues(cfg)
       case Fetches(pool, t, n) => CanFetch(cfg, s, pool, t, n)
       case Exits(pool, t) => CanExit(cfg, s, pool, t)
       case Takes(t) => CanTake(cfg, s, t)
       case Cuts(t) => CanCut(cfg, s, t)
       case Deduplicates(t) => CanWork(cfg, s, Deduplicate, t)
       case Compresses(t) => CanWork(cfg, s, Compress, t)
       case Pushes(pool, t, p, n) => CanPush(cfg, s, pool, t, p, n)
       case Stops(pool, t) => CanStop(cfg, s, pool, t)
       case Polls(n) => CanPoll(cfg, s, n)
       case PollsEnded => CanPollEnded(cfg, s)
       case Receives => CanReceive(s)
       case Writes => CanWrite(s)
  }

  ghost function Apply(cfg: Config, s: State, step: Step): State
    requires cfg.perQueue > 0 && Enabled(cfg, s, step)
  {
    match step
    case FragReads => FragRead(cfg, s)
    case FragSplits => FragSplit(cfg, s)
    case FragPushes(n) => FragPush(cfg, s, n)
    case FragDrained => s.(frag := s.frag.(phase := Terminating(0)))
    case FragTerminates => FragTerminate(s)
    case Fetches(pool, t, n) => Fetch(cfg, s, pool, t, n)
    case Exits(pool, t) => Exit(s, pool, t)
    case Takes(t) => TakeCoarse(s, t)
    case Cuts(t) => CutOne(cfg, s, t)
    case Deduplicates(t) => DedupOne(cfg, s, t)
    case Compresses(t) => CompressOne(cfg, s, t)
    case Pushes(pool, t, p, n) => Push(cfg, s, pool, t, p, n)
    case Stops(pool, t) => Stop(cfg, s, pool, t)
    case Polls(n) => Poll(cfg, s, n)
    case PollsEnded => PollEnded(cfg, s)
    case Receives => ReceiveOne(s)
    case Writes => WriteOne(s)
  }

  /** The steps can be taken one after the other. */
  ghost predicate IsRun(cfg: Config, s: State, steps: seq<Step>)
    requires cfg.perQueue > 0
    decreases |steps|
  {
    steps == [] || (Enabled(cfg, s, steps[0]) && IsRun(cfg, Apply(cfg, s, steps[0]), steps[1..]))
  }

  ghost function After(cfg: Config, s: State, steps: seq<Step>): State
    requires cfg.perQueue > 0 && IsRun(cfg, s, steps)
    decreases |steps|
  {
    if steps == [] then s else After(cfg, Apply(cfg, s, steps[0]), steps[1..])
  }
}
