/** Every run of the parallel encoder ends: each step lowers a number that is fixed by the input and
    the configuration when the run begins. */
module Termination {
  import opened Types
  import opened Chunking
  import opened Archive
  import opened ReorderSpec
  import opened Buffers
  import opened QueueSetup
  import opened Pipeline
  import opened Invariant
  import opened MoveProofs
  import opened FrontProofs
  import opened ControlProofs
  import opened FragmentProofs
  import opened WorkProofs
  import opened ReorderProofs
  import opened Runs
  import opened Completion
  import opened Progress
  import opened Capacity

  // ---- how far a chunk still has to go ----------------------------------------------------------

  const UNMADE := 16

  function Rank(p: Place): nat {
    match p
    case FragSend => 15
    case Queue(ToRefine, _) => 14
    case Recv(Refine, _) => 13
    case Cutting(_) => 12
    case Send(Refine, _) => 11
    case Queue(ToDeduplicate, _) => 10
    case Recv(Deduplicate, _) => 9
    case Send(Deduplicate, _) => 8
    case Queue(ToCompress, _) => 7
    case Recv(Compress, _) => 6
    case Send(Compress, _) => 5
    case SendDup(_) => 5
    case Queue(ToReorder, _) => 4
    case ReorderRecv => 3
    case Cache => 2
    case Hand => 1
    case Out => 0
  }

  ghost function RankOf(b: Buffers, c: SeqNo): (r: nat)
    ensures r <= UNMADE
  {
    if p :| c in At(b, p) then Rank(p) else UNMADE
  }

  lemma RankIs(b: Buffers, p: Place, c: SeqNo)
    requires Unique(b) && c in At(b, p)
    ensures RankOf(b, c) == Rank(p)
  {
  }

  lemma RankUnmade(b: Buffers, c: SeqNo)
    requires !Made(b, c)
    ensures RankOf(b, c) == UNMADE
  {
  }

  ghost function TotalRank(b: Buffers, order: seq<SeqNo>): nat {
    if order == [] then 0 else RankOf(b, order[0]) + TotalRank(b, order[1..])
  }

  lemma {:induction false} TotalAtMost(b: Buffers, order: seq<SeqNo>)
    ensures TotalRank(b, order) <= UNMADE * |order|
  {
    if order != [] {
      TotalAtMost(b, order[1..]);
    }
  }

  ghost predicate NoneRises(b: Buffers, b': Buffers) {
    forall c :: RankOf(b', c) <= RankOf(b, c)
  }

  lemma {:induction false} TotalFalls(b: Buffers, b': Buffers, order: seq<SeqNo>, k: nat)
    requires NoneRises(b, b')
    ensures TotalRank(b', order) <= TotalRank(b, order)
    ensures k < |order| && RankOf(b', order[k]) < RankOf(b, order[k]) ==> TotalRank(b', order) < TotalRank(b, order)
  {
    if order != [] {
      TotalFalls(b, b', order[1..], if k > 0 then k - 1 else |order|);
    }
  }

  /** One of the plan's chunks comes closer to the end and none goes back. */
  ghost predicate Falls(plan: seq<seq<Bytes>>, b: Buffers, b': Buffers) {
    TotalRank(b', Order(SizesOf(plan))) < TotalRank(b, Order(SizesOf(plan)))
  }

  lemma ChunkFalls(plan: seq<seq<Bytes>>, b: Buffers, b': Buffers, c: SeqNo)
    requires NoneRises(b, b') && InPlan(plan, c) && RankOf(b', c) < RankOf(b, c)
    ensures Falls(plan, b, b')
  {
    OrderAtIndex(SizesOf(plan), c);
    TotalFalls(b, b', Order(SizesOf(plan)), Index(SizesOf(plan), c));
  }

  lemma MoveFalls(plan: seq<seq<Bytes>>, b: Buffers, from: Place, lo: nat, hi: nat, to: Place)
    requires Unique(b) && lo < hi <= |At(b, from)| && from != to && Rank(to) < Rank(from)
    requires InPlan(plan, At(b, from)[lo])
    ensures Falls(plan, b, Move(b, from, lo, hi, to)) && Unique(Move(b, from, lo, hi, to))
  {
    hide Unique, Rank, RankOf, Falls;
    var b', c := Move(b, from, lo, hi, to), At(b, from)[lo];
    MoveMembers(b, from, lo, hi, to);
    MoveKeepsUnique(b, from, lo, hi, to);
    forall d
      ensures RankOf(b', d) <= RankOf(b, d)
    {
      MovedRank(b, from, lo, hi, to, d);
    }
    assert At(b, from)[lo..hi][0] == c;
    RankIs(b, from, c);
    RankIs(b', to, c);
    ChunkFalls(plan, b, b', c);
  }

  lemma MovedRank(b: Buffers, from: Place, lo: nat, hi: nat, to: Place, d: SeqNo)
    requires Unique(b) && lo < hi <= |At(b, from)| && from != to && Rank(to) < Rank(from)
    ensures RankOf(Move(b, from, lo, hi, to), d) <= RankOf(b, d)
  {
    hide Unique, Rank, RankOf;
    var b' := Move(b, from, lo, hi, to);
    MoveMembers(b, from, lo, hi, to);
    MoveKeepsUnique(b, from, lo, hi, to);
    if Made(b, d) {
      var p :| d in At(b, p);
      RankIs(b, p, d);
      if d in At(b', p) {
        RankIs(b', p, d);
      } else {
        RankIs(b', to, d);
      }
    } else {
      RankUnmade(b, d);
    }
  }

  lemma AppendFalls(plan: seq<seq<Bytes>>, b: Buffers, p: Place, c: SeqNo)
    requires Unique(b) && !Made(b, c) && InPlan(plan, c)
    ensures Falls(plan, b, Append(b, p, c)) && Unique(Append(b, p, c))
  {
    hide Unique, RankOf, Falls, Made;
    var b' := Append(b, p, c);
    AppendKeepsUnique(b, p, c);
    forall d
      ensures RankOf(b', d) <= RankOf(b, d)
    {
      AppendedRank(b, p, c, d);
    }
    RankUnmade(b, c);
    RankIs(b', p, c);
    ChunkFalls(plan, b, b', c);
  }

  lemma AppendedRank(b: Buffers, p: Place, c: SeqNo, d: SeqNo)
    requires Unique(b) && !Made(b, c)
    ensures RankOf(Append(b, p, c), d) <= RankOf(b, d)
  {
    hide Unique, RankOf;
    AppendKeepsUnique(b, p, c);
    if Made(b, d) {
      var q :| d in At(b, q);
      RankIs(b, q, d);
      RankIs(Append(b, p, c), q, d);
    } else {
      RankUnmade(b, d);
    }
  }

  // ---- how much the threads still have to do ----------------------------------------------------

  function PhaseRank(phase: Phase): nat {
    match phase
    case Running => 2
    case Pushing(_) => 2
    case Draining => 1
    case Stopped => 0
  }

  function PoolRank(ctl: Control, pool: Pool, n: nat): nat {
    if n == 0 then 0 else PoolRank(ctl, pool, n - 1) + PhaseRank(PhaseOf(ctl, pool, n - 1))
  }

  function PoolsRank(cfg: Config, ctl: Control): nat {
    PoolRank(ctl, Refine, cfg.nthreads) + PoolRank(ctl, Deduplicate, cfg.nthreads) + PoolRank(ctl, Compress,
             cfg.nthreads)
  }

  lemma {:induction false} PoolAtMost(ctl: Control, pool: Pool, n: nat)
    ensures PoolRank(ctl, pool, n) <= 2 * n
  {
    if n > 0 {
      PoolAtMost(ctl, pool, n - 1);
    }
  }

  /** Setting one phase lowers the rank of its pool by what it lowers the rank of the phase. */
  lemma {:induction false} PoolAfter(ctl: Control, pool: Pool, t: nat, phase: Phase, other: Pool, n: nat)
    ensures PoolRank(SetPhase(ctl, pool, t, phase), other, n) + (if other == pool
            && t < n then PhaseRank(PhaseOf(ctl, pool, t)) else 0)
            == PoolRank(ctl, other, n) + (if other == pool && t < n then PhaseRank(phase) else 0)
  {
    if n > 0 {
      PoolAfter(ctl, pool, t, phase, other, n - 1);
    }
  }

  lemma PoolsAfter(cfg: Config, ctl: Control, pool: Pool, t: nat, phase: Phase)
    requires t < cfg.nthreads
    ensures PoolsRank(cfg, SetPhase(ctl, pool, t, phase)) + PhaseRank(PhaseOf(ctl, pool, t))
            == PoolsRank(cfg, ctl) + PhaseRank(phase)
  {
    PoolAfter(ctl, pool, t, phase, Refine, cfg.nthreads);
    PoolAfter(ctl, pool, t, phase, Deduplicate, cfg.nthreads);
    PoolAfter(ctl, pool, t, phase, Compress, cfg.nthreads);
  }

  lemma {:induction false} PoolIgnoresEnds(ctl: Control, ended: map<Place, nat>, pool: Pool, n: nat)
    ensures PoolRank(ctl.(ended := ended), pool, n) == PoolRank(ctl, pool, n)
  {
    if n > 0 {
      PoolIgnoresEnds(ctl, ended, pool, n - 1);
    }
  }

  lemma PoolsIgnoreEnds(cfg: Config, ctl: Control, q: Place)
    ensures PoolsRank(cfg, EndOne(ctl, q)) == PoolsRank(cfg, ctl)
  {
    PoolIgnoresEnds(ctl, EndOne(ctl, q).ended, Refine, cfg.nthreads);
    PoolIgnoresEnds(ctl, EndOne(ctl, q).ended, Deduplicate, cfg.nthreads);
    PoolIgnoresEnds(ctl, EndOne(ctl, q).ended, Compress, cfg.nthreads);
  }

  /** Unread bytes, and what is left to do once they are read. */
  function FragRank(nq: nat, f: Frag): nat {
    2 * |f.unread| +
    match f.phase
    case Reading => nq + 2
    case Splitting => nq + 3
    case FragPushing => nq + 3
    case FragDraining => nq + 1
    case Terminating(done) => if done <= nq then nq - done else 0
  }

  // ---- the measure ------------------------------------------------------------------------------

  ghost function Work(cfg: Config, plan: seq<seq<Bytes>>, s: State): nat
    requires cfg.perQueue > 0
  {
    TotalRank(s.mem.buf, Order(SizesOf(plan))) + PoolsRank(cfg, s.ctl) + FragRank(NQueues(cfg), s.frag)
  }

  ghost function Measure(cfg: Config, plan: seq<seq<Bytes>>, s: State): int
    requires cfg.perQueue > 0
  {
    Work(cfg, plan, s) * (NQueues(cfg) + 1) + (NQueues(cfg) - s.ro.tried) + if s.overrun then 0 else 1
  }

  /** A step that does work may start the round of Reorder anew. */
  lemma WorkDominates(nq: nat, w: nat, w': nat, tried: nat, tried': nat)
    requires w' < w && tried <= nq
    ensures w' * (nq + 1) + (nq - tried') < w * (nq + 1) + (nq - tried)
  {
    NextMultiple(w', w, nq + 1);
  }

  lemma PlannedAt(cfg: Config, coarse: seq<Bytes>, plan: seq<seq<Bytes>>, s: State, p: Place, i: nat)
    requires Sane(cfg) && Holds(cfg, coarse, plan, s) && i < |At(s.mem.buf, p)|
    ensures InPlan(plan, At(s.mem.buf, p)[i]) && Unique(s.mem.buf)
  {
    hide Shapes, TableOk, RecordsOk, Sorted, PrefixStable, Lossless, FragOk, ControlOk, Lineage;
    IsThere(s.mem.buf, p, At(s.mem.buf, p)[i]);
    WasPlanned(plan, Emitted(coarse, s.frag), s.mem.buf, At(s.mem.buf, p)[i]);
  }

  lemma InsertFalls(cfg: Config, coarse: seq<Bytes>, plan: seq<seq<Bytes>>, s: State, s': State)
    requires Sane(cfg) && Holds(cfg, coarse, plan, s) && Holds(cfg, coarse, plan, s') && Live(s.frag)
    requires s'.mem.buf == Append(s.mem.buf, FragSend, SeqNo(s.frag.l1, 0))
    ensures Falls(plan, s.mem.buf, s'.mem.buf)
  {
    hide PrefixStable, Lossless, DataOk, Lineage, ControlOk, FragOk, Falls;
    NotMadeYet(plan, s.frag.l1, s.mem.buf);
    PlannedAt(cfg, coarse, plan, s', FragSend, |At(s.mem.buf, FragSend)|);
    HoldsParts(cfg, coarse, plan, s);
    AppendFalls(plan, s.mem.buf, FragSend, SeqNo(s.frag.l1, 0));
  }

  lemma FragReadWorks(cfg: Config, coarse: seq<Bytes>, plan: seq<seq<Bytes>>, s: State)
    requires Sane(cfg) && Refines(cfg, coarse, plan) && Holds(cfg, coarse, plan, s) && s.frag.phase == Reading
    ensures Work(cfg, plan, FragRead(cfg, s)) < Work(cfg, plan, s)
  {
    hide PrefixStable, Lossless, DataOk, Lineage, ControlOk, FragOk, TotalRank, PoolsRank, Refines;
    var s' := FragRead(cfg, s);
    FragReadKeeps(cfg, coarse, plan, s);
    if s.frag.unread == [] && s.frag.buffer != [] {
      InsertFalls(cfg, coarse, plan, s, s');
    }
  }

  lemma FragSplitWorks(cfg: Config, coarse: seq<Bytes>, plan: seq<seq<Bytes>>, s: State)
    requires Sane(cfg) && Refines(cfg, coarse, plan) && Holds(cfg, coarse, plan, s) && s.frag.phase == Splitting
    ensures Work(cfg, plan, FragSplit(cfg, s)) < Work(cfg, plan, s)
  {
    hide PrefixStable, Lossless, DataOk, Lineage, ControlOk, FragOk, TotalRank, PoolsRank, Refines;
    var s' := FragSplit(cfg, s);
    FragSplitKeeps(cfg, coarse, plan, s);
    if CoarseCut(cfg.seg, cfg.jump)(s.frag.buffer) < |s.frag.buffer| {
      InsertFalls(cfg, coarse, plan, s, s');
    }
  }

  lemma FragPushWorks(cfg: Config, coarse: seq<Bytes>, plan: seq<seq<Bytes>>, s: State, n: nat)
    requires Sane(cfg) && Holds(cfg, coarse, plan, s) && CanFragPush(cfg, s, n)
    ensures Work(cfg, plan, FragPush(cfg, s, n)) < Work(cfg, plan, s)
  {
    hide PrefixStable, Lossless, DataOk, Lineage, ControlOk, FragOk, TotalRank, PoolsRank;
    PlannedAt(cfg, coarse, plan, s, FragSend, 0);
    MoveFalls(plan, s.mem.buf, FragSend, 0, n, Queue(ToRefine, s.frag.qid));
  }

  /** A chunk moves on and the thread goes on working. */
  lemma PassedOn(cfg: Config, coarse: seq<Bytes>, plan: seq<seq<Bytes>>, s: State, s': State, from: Place, lo: nat,
                 hi: nat, to: Place)
    requires Sane(cfg) && Holds(cfg, coarse, plan, s)
    requires lo < hi <= |At(s.mem.buf, from)| && from != to && Rank(to) < Rank(from)
    requires s'.mem.buf == Move(s.mem.buf, from, lo, hi, to) && s'.frag == s.frag
    requires PoolsRank(cfg, s'.ctl) <= PoolsRank(cfg, s.ctl)
    ensures Work(cfg, plan, s') < Work(cfg, plan, s)
  {
    hide Holds, PrefixStable, Lossless, TotalRank, PoolsRank, FragRank;
    PlannedAt(cfg, coarse, plan, s, from, lo);
    MoveFalls(plan, s.mem.buf, from, lo, hi, to);
  }

  lemma PushWorks(cfg: Config, coarse: seq<Bytes>, plan: seq<seq<Bytes>>, s: State, pool: Pool, t: nat, p: Place,
                  n: nat)
    requires Sane(cfg) && Holds(cfg, coarse, plan, s) && CanPush(cfg, s, pool, t, p, n)
    ensures Work(cfg, plan, Push(cfg, s, pool, t, p, n)) < Work(cfg, plan, s)
  {
    hide Holds, PrefixStable, Lossless, TotalRank, PoolsRank, FragRank, Work;
    PoolsAfter(cfg, s.ctl, pool, t, Running);
    PassedOn(cfg, coarse, plan, s, Push(cfg, s, pool, t, p, n), p, 0, n, Target(cfg, p));
  }

  lemma DedupWorks(cfg: Config, coarse: seq<Bytes>, plan: seq<seq<Bytes>>, s: State, t: nat)
    requires Sane(cfg) && Holds(cfg, coarse, plan, s) && CanWork(cfg, s, Deduplicate, t)
    ensures Work(cfg, plan, DedupOne(cfg, s, t)) < Work(cfg, plan, s)
  {
    hide PrefixStable, Lossless, TotalRank, PoolsRank, FragRank, Work, Full, DataOk, Lineage, FragOk, ControlOk;
    DedupKeeps(cfg, coarse, plan, s, t);
    var c := At(s.mem.buf, Recv(Deduplicate, t))[0];
    var to := if cfg.codec.digest(s.mem.heap[c].data.value) in s.mem.table then SendDup(t) else Send(Deduplicate, t);
    hide Holds;
    PoolsAfter(cfg, s.ctl, Deduplicate, t, Pushing(to));
    PassedOn(cfg, coarse, plan, s, DedupOne(cfg, s, t), Recv(Deduplicate, t), 0, 1, to);
  }

  lemma CompressWorks(cfg: Config, coarse: seq<Bytes>, plan: seq<seq<Bytes>>, s: State, t: nat)
    requires Sane(cfg) && Holds(cfg, coarse, plan, s) && CanWork(cfg, s, Compress, t)
    ensures Work(cfg, plan, CompressOne(cfg, s, t)) < Work(cfg, plan, s)
  {
    hide PrefixStable, Lossless, TotalRank, PoolsRank, FragRank, Work, Full, DataOk, Lineage, FragOk, ControlOk;
    CompressKeeps(cfg, coarse, plan, s, t);
    hide Holds;
    PoolsAfter(cfg, s.ctl, Compress, t, Pushing(Send(Compress, t)));
    PassedOn(cfg, coarse, plan, s, CompressOne(cfg, s, t), Recv(Compress, t), 0, 1, Send(Compress, t));
  }

  lemma CutWorks(cfg: Config, coarse: seq<Bytes>, plan: seq<seq<Bytes>>, s: State, t: nat)
    requires Sane(cfg) && Holds(cfg, coarse, plan, s) && CanCut(cfg, s, t)
    ensures Work(cfg, plan, CutOne(cfg, s, t)) < Work(cfg, plan, s)
  {
    hide PrefixStable, Lossless, TotalRank, PoolsRank, FragRank, Full, DataOk, Lineage, FragOk, ControlOk,
         Falls, Unique;
    CutKeeps(cfg, coarse, plan, s, t);
    PoolsAfter(cfg, s.ctl, Refine, t, Pushing(Send(Refine, t)));
    hide Holds;
    CutFalls(cfg, coarse, plan, s, CutOne(cfg, s, t), t);
  }

  lemma CutFalls(cfg: Config, coarse: seq<Bytes>, plan: seq<seq<Bytes>>, s: State, s': State, t: nat)
    requires Sane(cfg) && Holds(cfg, coarse, plan, s) && Holds(cfg, coarse, plan, s') && CanCut(cfg, s, t)
    requires var c, b := At(s.mem.buf, Cutting(t))[0], Move(s.mem.buf, Cutting(t), 0, 1, Send(Refine, t));
             s'.mem.buf == b || s'.mem.buf == Append(b, Cutting(t), SeqNo(c.l1, c.l2 + 1))
    ensures TotalRank(s'.mem.buf, Order(SizesOf(plan))) < TotalRank(s.mem.buf, Order(SizesOf(plan)))
  {
    hide Holds, PrefixStable, Lossless, TotalRank, Lineage, Falls, Unique, Made;
    var b := Move(s.mem.buf, Cutting(t), 0, 1, Send(Refine, t));
    PlannedAt(cfg, coarse, plan, s, Cutting(t), 0);
    MoveFalls(plan, s.mem.buf, Cutting(t), 0, 1, Send(Refine, t));
    if s'.mem.buf != b {
      var temp := SeqNo(At(s.mem.buf, Cutting(t))[0].l1, At(s.mem.buf, Cutting(t))[0].l2 + 1);
      HoldsParts(cfg, coarse, plan, s);
      NextIsNew(plan, Emitted(coarse, s.frag), s.mem.buf, t);
      MoveKeepsMade(s.mem.buf, Cutting(t), 0, 1, Send(Refine, t), temp);
      PlannedAt(cfg, coarse, plan, s', Cutting(t), |At(b, Cutting(t))|);
      AppendFalls(plan, b, Cutting(t), temp);
    }
    FallsTwice(plan, s.mem.buf, b, s'.mem.buf);
  }

  lemma FallsTwice(plan: seq<seq<Bytes>>, a: Buffers, b: Buffers, c: Buffers)
    requires Falls(plan, a, b) && (c == b || Falls(plan, b, c))
    ensures TotalRank(c, Order(SizesOf(plan))) < TotalRank(a, Order(SizesOf(plan)))
  {
  }

  lemma MoveWorks(cfg: Config, coarse: seq<Bytes>, plan: seq<seq<Bytes>>, s: State, step: Step)
    requires Sane(cfg) && Holds(cfg, coarse, plan, s) && Enabled(cfg, s, step)
    requires step.Fetches? || step.Takes? || step.Polls?
    ensures Work(cfg, plan, Apply(cfg, s, step)) < Work(cfg, plan, s)
  {
    hide Holds, PrefixStable, Lossless, TotalRank, PoolsRank, FragRank, Work;
    var s' := Apply(cfg, s, step);
    match step
    case Fetches(pool, t, n) =>
      PassedOn(cfg, coarse, plan, s, s', Queue(InFeed(pool), QueueFor(cfg, t)), 0, n, Recv(pool, t));
    case Takes(t) => PassedOn(cfg, coarse, plan, s, s', Recv(Refine, t), 0, 1, Cutting(t));
    case Polls(n) => PassedOn(cfg, coarse, plan, s, s', Queue(ToReorder, s.ro.qid), 0, n, ReorderRecv);
  }

  lemma PhaseWorks(cfg: Config, plan: seq<seq<Bytes>>, s: State, step: Step)
    requires Sane(cfg) && Enabled(cfg, s, step) && (step.Exits? || step.Stops?)
    ensures Work(cfg, plan, Apply(cfg, s, step)) < Work(cfg, plan, s)
  {
    hide PrefixStable, Lossless, TotalRank, PoolsRank, FragRank;
    match step
    case Exits(pool, t) => PoolsAfter(cfg, s.ctl, pool, t, Draining);
    case Stops(pool, t) =>
      PoolsAfter(cfg, s.ctl, pool, t, Stopped);
      PoolsIgnoreEnds(cfg, SetPhase(s.ctl, pool, t, Stopped), Queue(OutFeed(pool), QueueFor(cfg, t)));
  }

  lemma ReceiveWorks(cfg: Config, coarse: seq<Bytes>, plan: seq<seq<Bytes>>, s: State)
    requires Sane(cfg) && Holds(cfg, coarse, plan, s) && CanReceive(s) && !s.overrun && !ReceiveOne(s).overrun
    ensures Work(cfg, plan, ReceiveOne(s)) < Work(cfg, plan, s)
  {
    hide PrefixStable, Lossless, TotalRank, PoolsRank, FragRank, Work, DataOk, Lineage, FragOk, ControlOk;
    ReceiveKeeps(cfg, coarse, plan, s);
    hide Holds;
    var to := if At(s.mem.buf, ReorderRecv)[0] == s.ro.next then Hand else Cache;
    PassedOn(cfg, coarse, plan, s, ReceiveOne(s), ReorderRecv, 0, 1, to);
  }

  lemma PullFalls(cfg: Config, coarse: seq<Bytes>, plan: seq<seq<Bytes>>, s: State, b: Buffers, next: SeqNo)
    requires Sane(cfg) && Holds(cfg, coarse, plan, s) && Unique(b) && At(b, Cache) == At(s.mem.buf, Cache)
    ensures Pull(b, next) == b || Falls(plan, b, Pull(b, next))
  {
    hide Holds, PrefixStable, Lossless, Unique, Falls;
    if IsMin(next, Cached(b)) {
      var i := IndexOf(At(b, Cache), next);
      PlannedAt(cfg, coarse, plan, s, Cache, i);
      MoveFalls(plan, b, Cache, i, i + 1, Hand);
    }
  }

  lemma WriteWorks(cfg: Config, coarse: seq<Bytes>, plan: seq<seq<Bytes>>, s: State)
    requires Sane(cfg) && Holds(cfg, coarse, plan, s) && CanWrite(s)
    ensures Work(cfg, plan, WriteOne(s)) < Work(cfg, plan, s)
  {
    hide Holds, PrefixStable, Lossless, TotalRank, PoolsRank, FragRank, Unique, Falls, Made, StandsFor,
         IsPacked, ChunkOk, Pull, WriteOne;
    HoldsParts(cfg, coarse, plan, s);
    WriteKeepsStage(cfg, coarse, plan, s);
    InHand(cfg, coarse, plan, s);
    WriteIs(cfg, plan, s);
    var b := Move(s.mem.buf, Hand, 0, 1, Out);
    PlannedAt(cfg, coarse, plan, s, Hand, 0);
    MoveFalls(plan, s.mem.buf, Hand, 0, 1, Out);
    PullFalls(cfg, coarse, plan, s, b, WriteOne(s).ro.next);
    FallsTwice(plan, s.mem.buf, b, WriteOne(s).mem.buf);
  }

  /** Every step but two does work. */
  lemma StepWorks(cfg: Config, coarse: seq<Bytes>, plan: seq<seq<Bytes>>, s: State, step: Step)
    requires Sane(cfg) && Refines(cfg, coarse, plan) && Holds(cfg, coarse, plan, s) && Enabled(cfg, s, step)
    requires !step.PollsEnded? && !(step.Receives? && Apply(cfg, s, step).overrun)
    ensures Work(cfg, plan, Apply(cfg, s, step)) < Work(cfg, plan, s)
  {
    hide Holds, PrefixStable, Lossless, Refines, Work, FragRead, FragSplit, CanFragPush, FragPush, CanCut,
         CutOne, CanWork, DedupOne, CompressOne, CanPush, Push, CanReceive, ReceiveOne, CanWrite, WriteOne;
    match step
    case FragReads => FragReadWorks(cfg, coarse, plan, s);
    case FragSplits => FragSplitWorks(cfg, coarse, plan, s);
    case FragPushes(n) => FragPushWorks(cfg, coarse, plan, s, n);
    case FragDrained => FragEndWorks(cfg, plan, s, step);
    case FragTerminates => FragEndWorks(cfg, plan, s, step);
    case Fetches(_, _, _) => MoveWorks(cfg, coarse, plan, s, step);
    case Takes(_) => MoveWorks(cfg, coarse, plan, s, step);
    case Polls(_) => MoveWorks(cfg, coarse, plan, s, step);
    case Exits(_, _) => PhaseWorks(cfg, plan, s, step);
    case Stops(_, _) => PhaseWorks(cfg, plan, s, step);
    case Cuts(t) => CutWorks(cfg, coarse, plan, s, t);
    case Deduplicates(t) => DedupWorks(cfg, coarse, plan, s, t);
    case Compresses(t) => CompressWorks(cfg, coarse, plan, s, t);
    case Pushes(pool, t, p, n) => PushWorks(cfg, coarse, plan, s, pool, t, p, n);
    case Receives => ReceiveWorks(cfg, coarse, plan, s);
    case Writes => WriteWorks(cfg, coarse, plan, s);
  }

  lemma FragEndWorks(cfg: Config, plan: seq<seq<Bytes>>, s: State, step: Step)
    requires Sane(cfg) && Enabled(cfg, s, step) && (step.FragDrained? || step.FragTerminates?)
    ensures Work(cfg, plan, Apply(cfg, s, step)) < Work(cfg, plan, s)
  {
    hide PrefixStable, Lossless, TotalRank, PoolsRank;
    if step.FragTerminates? {
      PoolsIgnoreEnds(cfg, s.ctl, Queue(ToRefine, s.frag.phase.done));
    }
  }

  lemma RoundIsBounded(cfg: Config, coarse: seq<Bytes>, plan: seq<seq<Bytes>>, s: State)
    requires Sane(cfg) && Holds(cfg, coarse, plan, s)
    ensures s.ro.tried <= NQueues(cfg) && Measure(cfg, plan, s) >= 0
  {
    hide DataOk, Lineage, PrefixStable, Lossless, FragOk, Work;
  }

  /** Each step lowers the measure. */
  lemma StepLowersMeasure(cfg: Config, coarse: seq<Bytes>, plan: seq<seq<Bytes>>, s: State, step: Step)
    requires Sane(cfg) && Refines(cfg, coarse, plan) && Holds(cfg, coarse, plan, s) && Enabled(cfg, s, step)
    ensures 0 <= Measure(cfg, plan, Apply(cfg, s, step)) < Measure(cfg, plan, s)
  {
    hide Holds, PrefixStable, Lossless, Refines, Work, Apply, Enabled;
    var s' := Apply(cfg, s, step);
    StepKeeps(cfg, coarse, plan, s, step);
    RoundIsBounded(cfg, coarse, plan, s);
    RoundIsBounded(cfg, coarse, plan, s');
    if step.PollsEnded? || (step.Receives? && s'.overrun) {
      IdleStep(cfg, plan, s, step);
    } else {
      StepWorks(cfg, coarse, plan, s, step);
      WorkDominates(NQueues(cfg), Work(cfg, plan, s), Work(cfg, plan, s'), s.ro.tried, s'.ro.tried);
      NotOverrun(cfg, s, step);
    }
  }

  lemma NotOverrun(cfg: Config, s: State, step: Step)
    requires cfg.perQueue > 0 && Enabled(cfg, s, step)
    ensures !s.overrun && (Apply(cfg, s, step).overrun ==> step.Receives?)
  {
  }

  lemma IdleStep(cfg: Config, plan: seq<seq<Bytes>>, s: State, step: Step)
    requires cfg.perQueue > 0 && Enabled(cfg, s, step)
    requires step.PollsEnded? || (step.Receives? && Apply(cfg, s, step).overrun)
    ensures Measure(cfg, plan, Apply(cfg, s, step)) < Measure(cfg, plan, s)
  {
    hide TotalRank, PoolsRank, FragRank;
    assert Work(cfg, plan, Apply(cfg, s, step)) == Work(cfg, plan, s);
  }

  lemma {:induction false} RunLowersMeasure(cfg: Config, coarse: seq<Bytes>, plan: seq<seq<Bytes>>, s: State,
                                            steps: seq<Step>)
    requires Sane(cfg) && Refines(cfg, coarse, plan) && Holds(cfg, coarse, plan, s) && IsRun(cfg, s, steps)
    ensures |steps| <= Measure(cfg, plan, s)
    decreases |steps|
  {
    hide Holds, PrefixStable, Lossless, Refines, Measure, Apply, Enabled;
    if steps == [] {
      RoundIsBounded(cfg, coarse, plan, s);
    } else {
      StepKeeps(cfg, coarse, plan, s, steps[0]);
      StepLowersMeasure(cfg, coarse, plan, s, steps[0]);
      RunLowersMeasure(cfg, coarse, plan, Apply(cfg, s, steps[0]), steps[1..]);
    }
  }

  /** No run is longer than this, whatever the schedule. */
  ghost function Bound(cfg: Config, input: Bytes): int
    requires Sane(cfg)
  {
    (UNMADE * |Flatten(TwoLevel(cfg.seg, cfg.jump, input))| + 6 * cfg.nthreads + 2 * |input| + NQueues(cfg) + 2)
    * (NQueues(cfg) + 1) + NQueues(cfg) + 1
  }

  lemma InitialMeasure(cfg: Config, input: Bytes)
    requires Sane(cfg)
    ensures Measure(cfg, TwoLevel(cfg.seg, cfg.jump, input), Initial(cfg, input)) <= Bound(cfg, input)
  {
    hide PrefixStable, Lossless, TwoLevel, TotalRank;
    var plan, s := TwoLevel(cfg.seg, cfg.jump, input), Initial(cfg, input);
    TotalAtMost(s.mem.buf, Order(SizesOf(plan)));
    FlatIs(plan);
    PoolAtMost(s.ctl, Refine, cfg.nthreads);
    PoolAtMost(s.ctl, Deduplicate, cfg.nthreads);
    PoolAtMost(s.ctl, Compress, cfg.nthreads);
    var most := UNMADE * |Flatten(plan)| + 6 * cfg.nthreads + 2 * |input| + NQueues(cfg) + 2;
    assert Work(cfg, plan, s) <= most;
    if Work(cfg, plan, s) < most {
      NextMultiple(Work(cfg, plan, s), most, NQueues(cfg) + 1);
    }
  }

  /** The parallel encoder terminates: the number of steps is bounded by the input and the number of
      threads, for every interleaving and whether queues fill or not. */
  lemma RunIsBounded(cfg: Config, input: Bytes, steps: seq<Step>)
    requires Sane(cfg) && IsRun(cfg, Initial(cfg, input), steps)
    ensures |steps| <= Bound(cfg, input)
  {
    hide PrefixStable, Lossless, Enabled, Apply, Holds, Refines, TwoLevel, Measure, Bound, Initial;
    RefinesInput(cfg, input);
    InitialHolds(cfg, input);
    RunLowersMeasure(cfg, CoarseChunks(cfg.seg, cfg.jump, input), TwoLevel(cfg.seg, cfg.jump, input), Initial(cfg,
                     input), steps);
    InitialMeasure(cfg, input);
  }

  // ---- queues that are never full ---------------------------------------------------------------

  lemma NoRepeatsIsShort(s: seq<SeqNo>, all: set<SeqNo>)
    requires NoRepeats(s) && forall c :: c in s ==> c in all
    ensures |s| <= |all|
  {
    if s != [] {
      forall c | c in s[1..]
        ensures c in all - {s[0]}
      {
        var i :| 0 <= i < |s| - 1 && s[1..][i] == c;
        assert s[i + 1] == c;
      }
      NoRepeatsIsShort(s[1..], all - {s[0]});
    }
  }

  /** No place ever holds more chunks than the input has pieces. */
  lemma PlaceIsSmall(cfg: Config, coarse: seq<Bytes>, plan: seq<seq<Bytes>>, s: State, p: Place)
    requires Sane(cfg) && Holds(cfg, coarse, plan, s)
    ensures |At(s.mem.buf, p)| <= |Flatten(plan)|
  {
    hide Shapes, TableOk, RecordsOk, Sorted, PrefixStable, Lossless, FragOk, ControlOk, Lineage, NoRepeats;
    var order := Order(SizesOf(plan));
    forall c | c in At(s.mem.buf, p)
      ensures c in order
    {
      var i :| 0 <= i < |At(s.mem.buf, p)| && At(s.mem.buf, p)[i] == c;
      PlannedAt(cfg, coarse, plan, s, p, i);
      OrderAtIndex(SizesOf(plan), c);
    }
    NoRepeatsIsShort(At(s.mem.buf, p), set c | c in order);
    FewMembers(order);
    FlatIs(plan);
  }

  /** With queues that have room for one chunk more than the input has pieces, and an array of counts
      that is large enough for the input or for the configuration, every schedule that is taken as far
      as it goes completes. */
  lemma MaximalRunsComplete(cfg: Config, input: Bytes, steps: seq<Step>)
    requires Sane(cfg) && IsRun(cfg, Initial(cfg, input), steps)
    requires |Flatten(TwoLevel(cfg.seg, cfg.jump, input))| < cfg.queueSize
    requires |CoarseChunks(cfg.seg, cfg.jump, input)| <= 2 * cfg.anchors || UpstreamRoom(cfg) <= cfg.anchors
    requires forall step :: !Enabled(cfg, After(cfg, Initial(cfg, input), steps), step)
    ensures After(cfg, Initial(cfg, input), steps).ro.exited
  {
    hide PrefixStable, Lossless, Enabled, Apply, Holds, TwoLevel, Chunks, UpstreamRoom, Full;
    var s := After(cfg, Initial(cfg, input), steps);
    RunKeepsInv(cfg, input, steps);
    if |CoarseChunks(cfg.seg, cfg.jump, input)| <= 2 * cfg.anchors {
      NeverOverrun(cfg, input, steps);
    } else {
      NeverOverrunByCapacity(cfg, input, steps);
    }
    forall q: nat
      ensures |At(s.mem.buf, Queue(ToReorder, q))| < cfg.queueSize
    {
      PlaceIsSmall(cfg, CoarseChunks(cfg.seg, cfg.jump, input), TwoLevel(cfg.seg, cfg.jump, input), s,
                   Queue(ToReorder, q));
    }
    if !s.ro.exited {
      var step := SomeoneCanGoOn(cfg, input, steps);
      assert false;
    }
  }
}
