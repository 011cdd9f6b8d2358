/** How many chunks can be on the way at once, and what that means for the array of counts. */
module Capacity {
  import opened Types
  import opened Chunking
  import opened Archive
  import opened ReorderSpec
  import opened Buffers
  import opened QueueSetup
  import opened Pipeline
  import opened Invariant
  import opened FragmentProofs
  import opened WorkProofs
  import opened ReorderProofs
  import opened Runs

  // ---- no buffer and no queue overflows ---------------------------------------------------------

  /** In front of the cache of Reorder. */
  predicate Upstream(p: Place) {
    p != Cache && p != Hand && p != Out
  }

  ghost predicate RoomOk(cfg: Config, b: Buffers) {
    forall p :: Upstream(p) ==> |At(b, p)| <= Room(cfg, p)
  }

  lemma MoveKeepsRoom(cfg: Config, b: Buffers, from: Place, lo: nat, hi: nat, to: Place)
    requires RoomOk(cfg, b) && lo <= hi <= |At(b, from)| && from != to
    requires Upstream(to) ==> |At(b, to)| + (hi - lo) <= Room(cfg, to)
    ensures RoomOk(cfg, Move(b, from, lo, hi, to))
  {
    var b' := Move(b, from, lo, hi, to);
    forall p | Upstream(p)
      ensures |At(b', p)| <= Room(cfg, p)
    {
      assert |At(b, p)| <= Room(cfg, p);
    }
  }

  lemma AppendKeepsRoom(cfg: Config, b: Buffers, p: Place, c: SeqNo)
    requires RoomOk(cfg, b) && |At(b, p)| < Room(cfg, p)
    ensures RoomOk(cfg, Append(b, p, c))
  {
    forall q | Upstream(q)
      ensures |At(Append(b, p, c), q)| <= Room(cfg, q)
    {
      assert |At(b, q)| <= Room(cfg, q);
    }
  }

  lemma InsertKeepsRoom(cfg: Config, s: State, step: Step)
    requires cfg.perQueue > 0 && Enabled(cfg, s, step) && RoomOk(cfg, s.mem.buf)
    requires step.FragReads? || step.FragSplits?
    ensures RoomOk(cfg, Apply(cfg, s, step).mem.buf)
  {
    hide RoomOk;
    if !Full(cfg, s.mem.buf, FragSend) {
      AppendKeepsRoom(cfg, s.mem.buf, FragSend, SeqNo(s.frag.l1, 0));
      AppendKeepsRoom(cfg, s.mem.buf, FragSend, SeqNo(s.frag.anchorcount, 0));
    }
  }

  lemma CutKeepsRoom(cfg: Config, s: State, t: nat)
    requires CanCut(cfg, s, t) && RoomOk(cfg, s.mem.buf)
    ensures RoomOk(cfg, CutOne(cfg, s, t).mem.buf)
  {
    var b := Move(s.mem.buf, Cutting(t), 0, 1, Send(Refine, t));
    var c := At(s.mem.buf, Cutting(t))[0];
    assert |At(s.mem.buf, Cutting(t))| <= Room(cfg, Cutting(t));
    hide RoomOk;
    if !Full(cfg, s.mem.buf, Send(Refine, t)) {
      MoveKeepsRoom(cfg, s.mem.buf, Cutting(t), 0, 1, Send(Refine, t));
      AppendKeepsRoom(cfg, b, Cutting(t), SeqNo(c.l1, c.l2 + 1));
    }
  }

  lemma DedupKeepsRoom(cfg: Config, s: State, t: nat)
    requires CanWork(cfg, s, Deduplicate, t) && RoomOk(cfg, s.mem.buf)
    ensures RoomOk(cfg, DedupOne(cfg, s, t).mem.buf)
  {
    hide RoomOk;
    if !Full(cfg, s.mem.buf, SendDup(t)) {
      MoveKeepsRoom(cfg, s.mem.buf, Recv(Deduplicate, t), 0, 1, SendDup(t));
    }
    if !Full(cfg, s.mem.buf, Send(Deduplicate, t)) {
      MoveKeepsRoom(cfg, s.mem.buf, Recv(Deduplicate, t), 0, 1, Send(Deduplicate, t));
    }
  }

  lemma CompressKeepsRoom(cfg: Config, s: State, t: nat)
    requires CanWork(cfg, s, Compress, t) && RoomOk(cfg, s.mem.buf)
    ensures RoomOk(cfg, CompressOne(cfg, s, t).mem.buf)
  {
    hide RoomOk;
    if !Full(cfg, s.mem.buf, Send(Compress, t)) {
      MoveKeepsRoom(cfg, s.mem.buf, Recv(Compress, t), 0, 1, Send(Compress, t));
    }
  }

  lemma WriteKeepsRoom(cfg: Config, s: State)
    requires CanWrite(s) && RoomOk(cfg, s.mem.buf)
    ensures RoomOk(cfg, WriteOne(s).mem.buf)
  {
    hide RoomOk;
    var b := Move(s.mem.buf, Hand, 0, 1, Out);
    MoveKeepsRoom(cfg, s.mem.buf, Hand, 0, 1, Out);
    if WriteOne(s).mem.buf != s.mem.buf && WriteOne(s).mem.buf != b {
      var next := Advance(s.ro.counts, s.ro.next);
      assert next in Cached(b);
      var i := IndexOf(At(b, Cache), next);
      MoveKeepsRoom(cfg, b, Cache, i, i + 1, Hand);
    }
  }

  lemma MovesKeepRoom(cfg: Config, s: State, step: Step)
    requires cfg.perQueue > 0 && Enabled(cfg, s, step) && RoomOk(cfg, s.mem.buf)
    requires step.FragPushes? || step.Fetches? || step.Takes? || step.Pushes? || step.Polls? || step.Receives?
    ensures RoomOk(cfg, Apply(cfg, s, step).mem.buf)
  {
    hide RoomOk;
    match step
    case FragPushes(n) => MoveKeepsRoom(cfg, s.mem.buf, FragSend, 0, n, Queue(ToRefine, s.frag.qid));
    case Fetches(pool, t, n) => MoveKeepsRoom(cfg, s.mem.buf, Queue(InFeed(pool), QueueFor(cfg, t)), 0, n,
                                              Recv(pool, t));
    case Takes(t) => MoveKeepsRoom(cfg, s.mem.buf, Recv(Refine, t), 0, 1, Cutting(t));
    case Pushes(pool, t, p, n) => MoveKeepsRoom(cfg, s.mem.buf, p, 0, n, Target(cfg, p));
    case Polls(n) => MoveKeepsRoom(cfg, s.mem.buf, Queue(ToReorder, s.ro.qid), 0, n, ReorderRecv);
    case Receives =>
      MoveKeepsRoom(cfg, s.mem.buf, ReorderRecv, 0, 1, Hand);
      MoveKeepsRoom(cfg, s.mem.buf, ReorderRecv, 0, 1, Cache);
  }

  /** Every step leaves every ring buffer and every queue within its size. */
  lemma StepKeepsRoom(cfg: Config, s: State, step: Step)
    requires cfg.perQueue > 0 && Enabled(cfg, s, step) && RoomOk(cfg, s.mem.buf)
    ensures RoomOk(cfg, Apply(cfg, s, step).mem.buf)
  {
    hide RoomOk, FragRead, FragSplit, CanFragPush, FragPush, CanFetch, Fetch, CanTake, TakeCoarse, CanCut,
         CutOne, CanWork, DedupOne, CompressOne, CanPush, Push, CanPoll, Poll, CanReceive, ReceiveOne, CanWrite,
         WriteOne;
    match step
    case FragReads => InsertKeepsRoom(cfg, s, step);
    case FragSplits => InsertKeepsRoom(cfg, s, step);
    case FragPushes(_) => MovesKeepRoom(cfg, s, step);
    case Fetches(_, _, _) => MovesKeepRoom(cfg, s, step);
    case Takes(_) => MovesKeepRoom(cfg, s, step);
    case Pushes(_, _, _, _) => MovesKeepRoom(cfg, s, step);
    case Polls(_) => MovesKeepRoom(cfg, s, step);
    case Receives => MovesKeepRoom(cfg, s, step);
    case Cuts(t) => CutKeepsRoom(cfg, s, t);
    case Deduplicates(t) => DedupKeepsRoom(cfg, s, t);
    case Compresses(t) => CompressKeepsRoom(cfg, s, t);
    case Writes => WriteKeepsRoom(cfg, s);
    case _ =>
  }

  // ---- counting the chunks on the way -----------------------------------------------------------

  function FourQueues(q: nat): seq<Place> {
    [Queue(ToRefine, q), Queue(ToDeduplicate, q), Queue(ToCompress, q), Queue(ToReorder, q)]
  }

  function QueuePlaces(n: nat): seq<Place> {
    if n == 0 then [] else QueuePlaces(n - 1) + FourQueues(n - 1)
  }

  /** The buffers of the three threads with number `t`. */
  function ThreadPlaces(t: nat): seq<Place> {
    [Recv(Refine, t), Cutting(t), Send(Refine, t)]
    + ([Recv(Deduplicate, t), Send(Deduplicate, t), SendDup(t)] + [Recv(Compress, t), Send(Compress, t)])
  }

  function PerThread(cfg: Config): nat {
    cfg.maxFetch + 1 + cfg.chunkInsert + cfg.chunkFetch + 3 * cfg.itemInsert + cfg.itemFetch
  }

  function WorkerPlaces(n: nat): seq<Place> {
    if n == 0 then [] else WorkerPlaces(n - 1) + ThreadPlaces(n - 1)
  }

  /** All places in front of the cache. */
  function UpstreamPlaces(cfg: Config): seq<Place>
    requires cfg.perQueue > 0
  {
    [FragSend, ReorderRecv] + (QueuePlaces(NQueues(cfg)) + WorkerPlaces(cfg.nthreads))
  }

  /** How many chunks they can hold together. */
  function UpstreamRoom(cfg: Config): nat
    requires cfg.perQueue > 0
  {
    cfg.anchorInsert + cfg.itemFetch + NQueues(cfg) * (4 * cfg.queueSize) + cfg.nthreads * PerThread(cfg)
  }

  function RoomOf(cfg: Config, places: seq<Place>): nat {
    if places == [] then 0 else Room(cfg, places[0]) + RoomOf(cfg, places[1..])
  }

  function Contents(b: Buffers, places: seq<Place>): seq<SeqNo> {
    if places == [] then [] else At(b, places[0]) + Contents(b, places[1..])
  }

  lemma {:induction false} RoomOfSum(cfg: Config, a: seq<Place>, b: seq<Place>)
    ensures RoomOf(cfg, a + b) == RoomOf(cfg, a) + RoomOf(cfg, b)
  {
    if a == [] {
      assert a + b == b;
    } else {
      assert (a + b)[1..] == a[1..] + b;
      RoomOfSum(cfg, a[1..], b);
    }
  }

  lemma RoomOfFew(cfg: Config, a: Place, b: Place, c: Place)
    ensures RoomOf(cfg, [a, b]) == Room(cfg, a) + Room(cfg, b)
    ensures RoomOf(cfg, [a, b, c]) == Room(cfg, a) + Room(cfg, b) + Room(cfg, c)
  {
    assert [b][1..] == [] && [c][1..] == [];
    assert RoomOf(cfg, [b]) == Room(cfg, b) && RoomOf(cfg, [c]) == Room(cfg, c);
    assert [a, b][1..] == [b] && [b, c][1..] == [c] && [a, b, c][1..] == [b, c];
    assert RoomOf(cfg, [b, c]) == Room(cfg, b) + Room(cfg, c);
  }

  lemma FourQueuesRoom(cfg: Config, q: nat)
    ensures RoomOf(cfg, FourQueues(q)) == 4 * cfg.queueSize
  {
    var two := [Queue(ToCompress, q), Queue(ToReorder, q)];
    RoomOfFew(cfg, Queue(ToRefine, q), Queue(ToDeduplicate, q), FragSend);
    RoomOfFew(cfg, Queue(ToCompress, q), Queue(ToReorder, q), FragSend);
    RoomOfSum(cfg, [Queue(ToRefine, q), Queue(ToDeduplicate, q)], two);
    assert FourQueues(q) == [Queue(ToRefine, q), Queue(ToDeduplicate, q)] + two;
  }

  lemma OneMoreTime(n: nat, k: nat)
    requires n > 0
    ensures (n - 1) * k + k == n * k
  {
  }

  lemma {:induction false} QueuesRoom(cfg: Config, n: nat)
    ensures RoomOf(cfg, QueuePlaces(n)) == n * (4 * cfg.queueSize)
  {
    if n > 0 {
      QueuesRoom(cfg, n - 1);
      FourQueuesRoom(cfg, n - 1);
      RoomOfSum(cfg, QueuePlaces(n - 1), FourQueues(n - 1));
      OneMoreTime(n, 4 * cfg.queueSize);
    }
  }

  lemma ThreadRoom(cfg: Config, t: nat)
    ensures RoomOf(cfg, ThreadPlaces(t)) == PerThread(cfg)
  {
    var dedup := [Recv(Deduplicate, t), Send(Deduplicate, t), SendDup(t)];
    var compress := [Recv(Compress, t), Send(Compress, t)];
    RoomOfFew(cfg, Recv(Refine, t), Cutting(t), Send(Refine, t));
    RoomOfFew(cfg, Recv(Deduplicate, t), Send(Deduplicate, t), SendDup(t));
    RoomOfFew(cfg, Recv(Compress, t), Send(Compress, t), FragSend);
    RoomOfSum(cfg, dedup, compress);
    RoomOfSum(cfg, [Recv(Refine, t), Cutting(t), Send(Refine, t)], dedup + compress);
  }

  lemma {:induction false} WorkersRoom(cfg: Config, n: nat)
    ensures RoomOf(cfg, WorkerPlaces(n)) == n * PerThread(cfg)
  {
    hide PerThread;
    if n > 0 {
      WorkersRoom(cfg, n - 1);
      ThreadRoom(cfg, n - 1);
      RoomOfSum(cfg, WorkerPlaces(n - 1), ThreadPlaces(n - 1));
      OneMoreTime(n, PerThread(cfg));
    }
  }

  lemma CapacityIsRoom(cfg: Config)
    requires cfg.perQueue > 0
    ensures RoomOf(cfg, UpstreamPlaces(cfg)) == UpstreamRoom(cfg)
  {
    QueuesRoom(cfg, NQueues(cfg));
    WorkersRoom(cfg, cfg.nthreads);
    RoomOfSum(cfg, QueuePlaces(NQueues(cfg)), WorkerPlaces(cfg.nthreads));
    RoomOfSum(cfg, [FragSend, ReorderRecv], QueuePlaces(NQueues(cfg)) + WorkerPlaces(cfg.nthreads));
    RoomOfFew(cfg, FragSend, ReorderRecv, FragSend);
  }

  lemma {:induction false} ContentsFit(cfg: Config, b: Buffers, places: seq<Place>)
    requires RoomOk(cfg, b) && forall i :: 0 <= i < |places| ==> Upstream(places[i])
    ensures |Contents(b, places)| <= RoomOf(cfg, places)
  {
    if places != [] {
      ContentsFit(cfg, b, places[1..]);
      assert |At(b, places[0])| <= Room(cfg, places[0]);
    }
  }

  lemma {:induction false} ContentsHave(b: Buffers, places: seq<Place>, p: Place, c: SeqNo)
    requires p in places && c in At(b, p)
    ensures c in Contents(b, places)
  {
    if places[0] != p {
      ContentsHave(b, places[1..], p, c);
    }
  }

  lemma {:induction false} QueueIsListed(n: nat, p: Place)
    requires p.Queue? && p.q < n
    ensures p in QueuePlaces(n)
  {
    if p.q < n - 1 {
      QueueIsListed(n - 1, p);
    } else {
      var i := match p.feed case ToRefine => 0 case ToDeduplicate => 1 case ToCompress => 2 case ToReorder => 3;
      assert FourQueues(n - 1)[i] == p;
    }
  }

  /** The thread a private buffer belongs to. */
  function ThreadOf(p: Place): Option<nat> {
    match p
    case Recv(_, t) => Some(t)
    case Cutting(t) => Some(t)
    case Send(_, t) => Some(t)
    case SendDup(t) => Some(t)
    case _ => None
  }

  lemma OwnIsListed(t: nat, p: Place)
    requires ThreadOf(p) == Some(t)
    ensures p in ThreadPlaces(t)
  {
    var i := match p
      case Recv(Refine, _) => 0
      case Cutting(_) => 1
      case Send(Refine, _) => 2
      case Recv(Deduplicate, _) => 3
      case Send(Deduplicate, _) => 4
      case SendDup(_) => 5
      case Recv(Compress, _) => 6
      case _ => 7;
    assert ThreadPlaces(t)[i] == p;
  }

  lemma {:induction false} WorkerIsListed(n: nat, p: Place)
    requires ThreadOf(p).Some? && ThreadOf(p).value < n
    ensures p in WorkerPlaces(n)
  {
    if ThreadOf(p).value < n - 1 {
      WorkerIsListed(n - 1, p);
    } else {
      OwnIsListed(n - 1, p);
    }
  }

  lemma UpstreamIsListed(cfg: Config, p: Place)
    requires cfg.perQueue > 0 && Upstream(p) && InRange(cfg, p)
    ensures p in UpstreamPlaces(cfg)
  {
    if p.Queue? {
      QueueIsListed(NQueues(cfg), p);
    } else if ThreadOf(p).Some? {
      WorkerIsListed(cfg.nthreads, p);
    } else {
      assert p == UpstreamPlaces(cfg)[0] || p == UpstreamPlaces(cfg)[1];
    }
  }

  lemma {:induction false} AllUpstream(n: nat)
    ensures forall i :: 0 <= i < |QueuePlaces(n)| ==> Upstream(QueuePlaces(n)[i])
    ensures forall i :: 0 <= i < |WorkerPlaces(n)| ==> Upstream(WorkerPlaces(n)[i])
  {
    if n > 0 {
      AllUpstream(n - 1);
    }
  }

  lemma {:induction false} FewMembers(s: seq<SeqNo>)
    ensures |set c | c in s| <= |s|
  {
    if s != [] {
      assert (set c | c in s) == {s[0]} + set c | c in s[1..];
      FewMembers(s[1..]);
    }
  }

  /** Different chunks in front of the cache are no more than its capacity. */
  lemma FewUpstream(cfg: Config, b: Buffers, chunks: set<SeqNo>)
    requires cfg.perQueue > 0 && RoomOk(cfg, b)
    requires forall c :: c in chunks ==> exists p :: Upstream(p) && InRange(cfg, p) && c in At(b, p)
    ensures |chunks| <= UpstreamRoom(cfg)
  {
    var places := UpstreamPlaces(cfg);
    AllUpstream(NQueues(cfg));
    AllUpstream(cfg.nthreads);
    ContentsFit(cfg, b, places);
    CapacityIsRoom(cfg);
    var all := set c | c in Contents(b, places);
    forall c | c in chunks
      ensures c in all
    {
      var p :| Upstream(p) && InRange(cfg, p) && c in At(b, p);
      UpstreamIsListed(cfg, p);
      ContentsHave(b, places, p, c);
    }
    FewMembers(Contents(b, places));
    Subset(chunks, all);
  }

  lemma Subset(a: set<SeqNo>, b: set<SeqNo>)
    requires a <= b
    ensures |a| <= |b|
  {
    assert b == a + (b - a);
  }

  // ---- the array of counts ----------------------------------------------------------------------

  /** The first pieces of `n` rows. */
  function FirstPieces(lo: nat, n: nat): set<SeqNo> {
    if n == 0 then {} else FirstPieces(lo, n - 1) + {SeqNo(lo + n - 1, 0)}
  }

  lemma {:induction false} FirstPiecesAre(lo: nat, n: nat)
    ensures |FirstPieces(lo, n)| == n
    ensures forall c :: c in FirstPieces(lo, n) <==> lo <= c.l1 < lo + n && c.l2 == 0
  {
    if n > 0 {
      FirstPiecesAre(lo, n - 1);
    }
  }

  /** A row that was sent and whose first piece has not been received has it on the way. */
  lemma StillUpstream(cfg: Config, coarse: seq<Bytes>, plan: seq<seq<Bytes>>, s: State, c: SeqNo)
    requires Sane(cfg) && Holds(cfg, coarse, plan, s) && Made(s.mem.buf, c) && |s.ro.counts| <= c.l1
    ensures exists p :: Upstream(p) && InRange(cfg, p) && c in At(s.mem.buf, p)
  {
    hide Holds, PrefixStable, Lossless, Shapes, TableOk, Unique, Lineage, Sorted, Arrived;
    HoldsParts(cfg, coarse, plan, s);
    StageSorted(cfg, coarse, plan, s);
    var p :| c in At(s.mem.buf, p);
    assert InRange(cfg, p);
    if !Upstream(p) {
      IsThere(s.mem.buf, p, c);
      WasPlanned(plan, Emitted(coarse, s.frag), s.mem.buf, c);
      BehindIsArrived(plan, s, p, c);
      ArrivedIsInside(SizesOf(plan), StageOf(s), c);
    }
  }

  lemma BehindIsArrived(plan: seq<seq<Bytes>>, s: State, p: Place, c: SeqNo)
    requires Sorted(SizesOf(plan), StageOf(s)) && |At(s.mem.buf, Hand)| <= 1 && InPlan(plan, c)
    requires c in At(s.mem.buf, p) && !Upstream(p)
    ensures Arrived(SizesOf(plan), StageOf(s), c)
  {
    hide Sorted;
    WrittenIsBefore(SizesOf(plan), StageOf(s), c);
  }

  lemma ArrivedIsInside(sizes: seq<nat>, s: Stage, c: SeqNo)
    requires Sorted(sizes, s) && Arrived(sizes, s, c)
    ensures c.l1 < |s.counts|
  {
  }

  /** With more places in the array than chunks can be on the way, the chunk that Reorder receives is
      always inside the doubled array. */
  lemma CapacityKeepsInBounds(cfg: Config, coarse: seq<Bytes>, plan: seq<seq<Bytes>>, s: State)
    requires Sane(cfg) && Holds(cfg, coarse, plan, s) && RoomOk(cfg, s.mem.buf) && CanReceive(s)
    requires UpstreamRoom(cfg) <= |s.ro.counts|
    ensures InBounds(s.ro.counts, At(s.mem.buf, ReorderRecv)[0].l1)
  {
    hide Holds, PrefixStable, Lossless, Shapes, TableOk, Unique, Lineage, ControlOk, RoomOk, UpstreamRoom, Made,
         InRange;
    var c, n := At(s.mem.buf, ReorderRecv)[0], |s.ro.counts|;
    InBoundsExactly(s.ro.counts, c.l1);
    if c.l1 >= 2 * n {
      HoldsParts(cfg, coarse, plan, s);
      IsThere(s.mem.buf, ReorderRecv, c);
      WasPlanned(plan, Emitted(coarse, s.frag), s.mem.buf, c);
      var rows := FirstPieces(n, n + 1);
      FirstPiecesAre(n, n + 1);
      forall d | d in rows
        ensures exists p :: Upstream(p) && InRange(cfg, p) && d in At(s.mem.buf, p)
      {
        WasSent(plan, Emitted(coarse, s.frag), s.mem.buf, d.l1);
        assert d == SeqNo(d.l1, 0);
        StillUpstream(cfg, coarse, plan, s, d);
      }
      FewUpstream(cfg, s.mem.buf, rows);
    }
  }

  lemma {:induction false} RunStaysInCapacity(cfg: Config, coarse: seq<Bytes>, plan: seq<seq<Bytes>>, s: State,
                                              steps: seq<Step>)
    requires Sane(cfg) && Refines(cfg, coarse, plan) && Holds(cfg, coarse, plan, s) && IsRun(cfg, s, steps)
    requires RoomOk(cfg, s.mem.buf) && UpstreamRoom(cfg) <= |s.ro.counts| && !s.overrun
    ensures !After(cfg, s, steps).overrun
    decreases |steps|
  {
    hide Holds, PrefixStable, Lossless, Refines, Apply, RoomOk, UpstreamRoom;
    if steps != [] {
      StepKeeps(cfg, coarse, plan, s, steps[0]);
      StepKeepsRoom(cfg, s, steps[0]);
      CountsOnlyGrow(cfg, s, steps[0]);
      if steps[0].Receives? {
        CapacityKeepsInBounds(cfg, coarse, plan, s);
      }
      RunStaysInCapacity(cfg, coarse, plan, Apply(cfg, s, steps[0]), steps[1..]);
    }
  }

  /** If everything in front of the cache holds no more chunks than the array has places at first, no
      input of any size and no schedule leaves the array: a condition on the configuration alone. */
  lemma NeverOverrunByCapacity(cfg: Config, input: Bytes, steps: seq<Step>)
    requires Sane(cfg) && IsRun(cfg, Initial(cfg, input), steps)
    requires UpstreamRoom(cfg) <= cfg.anchors
    ensures !After(cfg, Initial(cfg, input), steps).overrun
  {
    hide PrefixStable, Lossless, Refines, Enabled, Apply, Chunks, DataOk, ControlOk, Lineage, FragOk, UpstreamRoom;
    RefinesInput(cfg, input);
    InitialHolds(cfg, input);
    RunStaysInCapacity(cfg, CoarseChunks(cfg.seg, cfg.jump, input), TwoLevel(cfg.seg, cfg.jump, input),
                       Initial(cfg, input), steps);
  }
}
