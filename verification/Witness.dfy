/** Following single chunks through the state machine: what is needed to write down a particular run. In
    the runs below every buffer and every queue holds one chunk. */
module Witness {
  import opened Types
  import opened Chunking
  import opened Archive
  import opened ReorderSpec
  import opened Buffers
  import opened QueueSetup
  import opened Pipeline
  import opened Invariant
  import opened ControlProofs
  import opened FragmentProofs
  import opened WorkProofs
  import opened ReorderProofs
  import opened Runs

  // ---- reachable states -------------------------------------------------------------------------

  ghost predicate Reaches(cfg: Config, input: Bytes, s: State)
    requires cfg.perQueue > 0
  {
    exists steps :: IsRun(cfg, Initial(cfg, input), steps) && After(cfg, Initial(cfg, input), steps) == s
  }

  lemma {:induction false} OneStepMore(cfg: Config, s: State, steps: seq<Step>, step: Step)
    requires cfg.perQueue > 0 && IsRun(cfg, s, steps) && Enabled(cfg, After(cfg, s, steps), step)
    ensures IsRun(cfg, s, steps + [step])
    ensures After(cfg, s, steps + [step]) == Apply(cfg, After(cfg, s, steps), step)
    decreases |steps|
  {
    hide Enabled, Apply;
    if steps == [] {
      assert steps + [step] == [step] && [step][1..] == [];
    } else {
      assert (steps + [step])[1..] == steps[1..] + [step];
      OneStepMore(cfg, Apply(cfg, s, steps[0]), steps[1..], step);
    }
  }

  lemma ReachesNext(cfg: Config, input: Bytes, s: State, step: Step)
    requires cfg.perQueue > 0 && Reaches(cfg, input, s) && Enabled(cfg, s, step)
    ensures Reaches(cfg, input, Apply(cfg, s, step))
  {
    hide Enabled, Apply;
    var steps :| IsRun(cfg, Initial(cfg, input), steps) && After(cfg, Initial(cfg, input), steps) == s;
    OneStepMore(cfg, Initial(cfg, input), steps, step);
  }

  lemma ReachableIsFine(cfg: Config, input: Bytes, s: State)
    requires Sane(cfg) && Reaches(cfg, input, s)
    ensures Inv(cfg, input, s) && !s.fault
  {
    hide Inv, PrefixStable, Lossless, Enabled, Apply;
    var steps :| IsRun(cfg, Initial(cfg, input), steps) && After(cfg, Initial(cfg, input), steps) == s;
    RunKeepsInv(cfg, input, steps);
  }

  /** No step of a reachable state leads into a fault. */
  lemma NextIsFine(cfg: Config, input: Bytes, s: State, step: Step)
    requires Sane(cfg) && Reaches(cfg, input, s) && Enabled(cfg, s, step)
    ensures Reaches(cfg, input, Apply(cfg, s, step)) && !Apply(cfg, s, step).fault
  {
    hide Inv, PrefixStable, Lossless, Enabled, Apply, Reaches;
    ReachesNext(cfg, input, s, step);
    ReachableIsFine(cfg, input, Apply(cfg, s, step));
  }

  // ---- where four chunks are --------------------------------------------------------------------

  datatype Ids = Ids(a: SeqNo, b: SeqNo, c: SeqNo, d: SeqNo) {
    predicate Distinct() {
      a != b && a != c && a != d && b != c && b != d && c != d
    }

    function Get(i: nat): SeqNo {
      if i == 0 then a else if i == 1 then b else if i == 2 then c else d
    }
  }

  /** The places of the four chunks; None before a chunk exists. */
  datatype Spots = Spots(a: Option<Place>, b: Option<Place>, c: Option<Place>, d: Option<Place>) {
    function Get(i: nat): Option<Place> {
      if i == 0 then a else if i == 1 then b else if i == 2 then c else d
    }

    function Set(i: nat, p: Place): Spots {
      if i == 0 then this.(a := Some(p)) else if i == 1 then this.(b := Some(p))
      else if i == 2 then this.(c := Some(p)) else this.(d := Some(p))
    }

    predicate Free(p: Place) {
      a != Some(p) && b != Some(p) && c != Some(p) && d != Some(p)
    }
  }

  /** The phases of two threads in each pool. */
  datatype Phases = Phases(r0: Phase, r1: Phase, d0: Phase, d1: Phase, c0: Phase, c1: Phase) {
    function Get(pool: Pool, t: nat): Phase {
      match pool
      case Refine => if t == 0 then r0 else if t == 1 then r1 else Running
      case Deduplicate => if t == 0 then d0 else if t == 1 then d1 else Running
      case Compress => if t == 0 then c0 else if t == 1 then c1 else Running
    }

    function Set(pool: Pool, t: nat, phase: Phase): Phases {
      match pool
      case Refine => if t == 0 then this.(r0 := phase) else this.(r1 := phase)
      case Deduplicate => if t == 0 then this.(d0 := phase) else this.(d1 := phase)
      case Compress => if t == 0 then this.(c0 := phase) else this.(c1 := phase)
    }
  }

  predicate Lies(b: Buffers, p: Option<Place>, c: SeqNo) {
    p.Some? ==> At(b, p.value) == [c]
  }

  /** The chunks are where `spots` says, and there are no others. */
  ghost predicate Lie(b: Buffers, ids: Ids, spots: Spots) {
    && ids.Distinct()
    && Lies(b, spots.a, ids.a) && Lies(b, spots.b, ids.b) && Lies(b, spots.c, ids.c) && Lies(b, spots.d, ids.d)
    && forall p :: spots.Free(p) ==> At(b, p) == []
  }

  ghost predicate PhasesAre(ctl: Control, ph: Phases) {
    forall pool, t: nat :: PhaseOf(ctl, pool, t) == ph.Get(pool, t)
  }

  /** Everything holds one chunk, and every thread has its own queue. */
  predicate OneEach(cfg: Config) {
    && cfg.perQueue == cfg.queueSize == cfg.anchorInsert == cfg.maxFetch == cfg.chunkInsert == cfg.chunkFetch == 1
    && cfg.itemInsert == cfg.itemFetch == 1 && 1 <= cfg.nthreads <= 2
  }

  ghost predicate Shows(cfg: Config, input: Bytes, s: State, ids: Ids, spots: Spots, ph: Phases) {
    && Sane(cfg) && OneEach(cfg) && Reaches(cfg, input, s) && !s.fault && !s.overrun && !s.ro.exited
    && Lie(s.mem.buf, ids, spots) && PhasesAre(s.ctl, ph)
  }

  lemma PhaseSet(ctl: Control, ph: Phases, pool: Pool, t: nat, phase: Phase)
    requires PhasesAre(ctl, ph) && t < 2
    ensures PhaseOf(ctl, pool, t) == ph.Get(pool, t) && PhasesAre(SetPhase(ctl, pool, t, phase), ph.Set(pool, t, phase))
  {
    forall pool', u: nat
      ensures PhaseOf(SetPhase(ctl, pool, t, phase), pool', u) == ph.Set(pool, t, phase).Get(pool', u)
    {
      assert PhaseOf(ctl, pool', u) == ph.Get(pool', u);
    }
  }

  lemma FreeIsEmpty(b: Buffers, ids: Ids, spots: Spots, p: Place)
    requires Lie(b, ids, spots) && spots.Free(p)
    ensures At(b, p) == []
  {
  }

  lemma MoveLies(b: Buffers, ids: Ids, spots: Spots, i: nat, from: Place, to: Place)
    requires Lie(b, ids, spots) && i < 4 && spots.Get(i) == Some(from) && spots.Free(to) && from != to
    ensures At(b, from) == [ids.Get(i)] && At(b, to) == [] && At(Move(b, from, 0, 1, to), to) == [ids.Get(i)]
    ensures Lie(Move(b, from, 0, 1, to), ids, spots.Set(i, to))
  {
    assert [ids.Get(i)][..0] + [ids.Get(i)][1..] == [] && [] + [ids.Get(i)][0..1] == [ids.Get(i)];
    forall p | spots.Set(i, to).Free(p)
      ensures At(Move(b, from, 0, 1, to), p) == []
    {
      if p != from {
        assert spots.Free(p);
      }
    }
  }

  lemma AppendLies(b: Buffers, ids: Ids, spots: Spots, i: nat, p: Place)
    requires Lie(b, ids, spots) && i < 4 && spots.Get(i) == None && spots.Free(p)
    ensures At(b, p) == [] && Lie(Append(b, p, ids.Get(i)), ids, spots.Set(i, p))
  {
    forall q | spots.Set(i, p).Free(q)
      ensures At(Append(b, p, ids.Get(i)), q) == []
    {
      assert spots.Free(q);
    }
  }

  lemma Threads(cfg: Config)
    requires OneEach(cfg)
    ensures NQueues(cfg) == cfg.nthreads && forall t: nat :: QueueFor(cfg, t) == t
  {
    assert forall t: nat :: t / 1 == t && t % 1 == 0;
  }

  /** Nothing but places and phases has changed. */
  ghost predicate Same(s: State, s': State) {
    s'.frag == s.frag && s'.ro == s.ro && s'.mem.heap == s.mem.heap && s'.mem.table == s.mem.table
  }

  lemma Fetched(cfg: Config, input: Bytes, s: State, ids: Ids, spots: Spots, ph: Phases, pool: Pool, t: nat, i: nat)
      returns (s': State)
    requires Shows(cfg, input, s, ids, spots, ph) && t < cfg.nthreads && i < 4 && ph.Get(pool, t) == Running
    requires spots.Get(i) == Some(Queue(InFeed(pool), t)) && spots.Free(Recv(pool, t))
    requires pool == Refine ==> spots.Free(Cutting(t))
    ensures Shows(cfg, input, s', ids, spots.Set(i, Recv(pool, t)), ph) && Same(s, s')
  {
    hide PrefixStable, Lossless, Reaches, Lie, PhasesAre, Move, Append;
    PhaseSet(s.ctl, ph, pool, t, Running);
    if pool == Refine {
      FreeIsEmpty(s.mem.buf, ids, spots, Cutting(t));
    }
    Threads(cfg);
    MoveLies(s.mem.buf, ids, spots, i, Queue(InFeed(pool), t), Recv(pool, t));
    s' := Fetch(cfg, s, pool, t, 1);
    NextIsFine(cfg, input, s, Fetches(pool, t, 1));
  }

  lemma Taken(cfg: Config, input: Bytes, s: State, ids: Ids, spots: Spots, ph: Phases, t: nat, i: nat)
    returns (s': State)
    requires Shows(cfg, input, s, ids, spots, ph) && t < cfg.nthreads && i < 4 && ph.Get(Refine, t) == Running
    requires spots.Get(i) == Some(Recv(Refine, t)) && spots.Free(Cutting(t))
    ensures Shows(cfg, input, s', ids, spots.Set(i, Cutting(t)), ph) && Same(s, s')
  {
    hide PrefixStable, Lossless, Reaches, Lie, PhasesAre, Move, Append;
    PhaseSet(s.ctl, ph, Refine, t, Running);
    MoveLies(s.mem.buf, ids, spots, i, Recv(Refine, t), Cutting(t));
    s' := TakeCoarse(s, t);
    NextIsFine(cfg, input, s, Takes(t));
  }

  lemma Pushed(cfg: Config, input: Bytes, s: State, ids: Ids, spots: Spots, ph: Phases, pool: Pool, t: nat, p: Place,
               i: nat)
      returns (s': State)
    requires Shows(cfg, input, s, ids, spots, ph) && t < cfg.nthreads && i < 4
    requires SendPlace(p, pool, t) && ph.Get(pool, t) == Pushing(p)
    requires spots.Get(i) == Some(p) && spots.Free(Target(cfg, p))
    ensures Shows(cfg, input, s', ids, spots.Set(i, Target(cfg, p)), ph.Set(pool, t, Running)) && Same(s, s')
  {
    hide PrefixStable, Lossless, Reaches, Lie, PhasesAre, Move, Append;
    PhaseSet(s.ctl, ph, pool, t, Running);
    Threads(cfg);
    MoveLies(s.mem.buf, ids, spots, i, p, Target(cfg, p));
    s' := Push(cfg, s, pool, t, p, 1);
    NextIsFine(cfg, input, s, Pushes(pool, t, p, 1));
  }

  /** The last or only piece of a coarse chunk. */
  lemma CutRest(cfg: Config, input: Bytes, s: State, ids: Ids, spots: Spots, ph: Phases, t: nat, i: nat, data: Bytes)
      returns (s': State)
    requires Shows(cfg, input, s, ids, spots, ph) && t < cfg.nthreads && i < 4 && ph.Get(Refine, t) == Running
    requires spots.Get(i) == Some(Cutting(t)) && spots.Free(Send(Refine, t))
    requires HasData(s, ids.Get(i), data) && cfg.seg(data) >= |data|
    ensures Shows(cfg, input, s', ids, spots.Set(i, Send(Refine, t)), ph.Set(Refine, t, Pushing(Send(Refine, t))))
    ensures s'.frag == s.frag && s'.ro == s.ro && s'.mem.table == s.mem.table
    ensures HasData(s', ids.Get(i), data) && OthersSame(s, s', ids.Get(i))
  {
    hide PrefixStable, Lossless, Reaches, Lie, PhasesAre, Move, Append;
    PhaseSet(s.ctl, ph, Refine, t, Pushing(Send(Refine, t)));
    MoveLies(s.mem.buf, ids, spots, i, Cutting(t), Send(Refine, t));
    s' := CutOne(cfg, s, t);
    NextIsFine(cfg, input, s, Cuts(t));
  }

  ghost predicate HasData(s: State, c: SeqNo, data: Bytes) {
    c in s.mem.heap && s.mem.heap[c].data == Some(data)
  }

  /** Only the object of `c` may differ. */
  ghost predicate OthersSame(s: State, s': State, c: SeqNo) {
    forall e :: e != c && e in s.mem.heap ==> e in s'.mem.heap && s'.mem.heap[e] == s.mem.heap[e]
  }

  /** A piece is cut off; `j` is the chunk that is left. */
  lemma CutUp(cfg: Config, input: Bytes, s: State, ids: Ids, spots: Spots, ph: Phases, t: nat, i: nat, j: nat,
              data: Bytes)
      returns (s': State)
    requires Shows(cfg, input, s, ids, spots, ph) && t < cfg.nthreads && i < 4 && j < 4 && ph.Get(Refine, t) == Running
    requires spots.Get(i) == Some(Cutting(t)) && spots.Get(j) == None && spots.Free(Send(Refine, t))
    requires ids.Get(j) == SeqNo(ids.Get(i).l1, ids.Get(i).l2 + 1)
    requires HasData(s, ids.Get(i), data) && cfg.seg(data) < |data|
    ensures Shows(cfg, input, s', ids, spots.Set(i, Send(Refine, t)).Set(j, Cutting(t)),
                  ph.Set(Refine, t, Pushing(Send(Refine, t))))
    ensures s'.frag == s.frag && s'.ro == s.ro && s'.mem.table == s.mem.table
    ensures HasData(s', ids.Get(i), data[..cfg.seg(data)]) && HasData(s', ids.Get(j), data[cfg.seg(data)..])
    ensures forall e :: e != ids.Get(i) && e != ids.Get(j) && e in s.mem.heap ==>
                e in s'.mem.heap && s'.mem.heap[e] == s.mem.heap[e]
  {
    hide PrefixStable, Lossless, Reaches, Lie, PhasesAre, Move, Append;
    PhaseSet(s.ctl, ph, Refine, t, Pushing(Send(Refine, t)));
    MoveLies(s.mem.buf, ids, spots, i, Cutting(t), Send(Refine, t));
    var sp := spots.Set(i, Send(Refine, t));
    var b := Move(s.mem.buf, Cutting(t), 0, 1, Send(Refine, t));
    assert i != j && sp.Get(j) == None && sp.Free(Cutting(t)) by {
      StillFree(s.mem.buf, ids, spots, i, Cutting(t), Send(Refine, t));
    }
    AppendLies(b, ids, sp, j, Cutting(t));
    LastKept(b, Cutting(t), ids.Get(j), Send(Refine, t));
    s' := CutOne(cfg, s, t);
    NextIsFine(cfg, input, s, Cuts(t));
  }

  lemma LastKept(b: Buffers, p: Place, c: SeqNo, q: Place)
    requires p != q
    ensures At(Append(b, p, c), q) == At(b, q)
  {
  }

  /** A place is free when its chunk has gone. */
  lemma StillFree(b: Buffers, ids: Ids, spots: Spots, i: nat, from: Place, to: Place)
    requires Lie(b, ids, spots) && i < 4 && spots.Get(i) == Some(from) && from != to
    ensures spots.Set(i, to).Free(from)
  {
  }

  lemma DedupedNew(cfg: Config, input: Bytes, s: State, ids: Ids, spots: Spots, ph: Phases, t: nat, i: nat, data: Bytes)
      returns (s': State)
    requires Shows(cfg, input, s, ids, spots, ph) && t < cfg.nthreads && i < 4 && ph.Get(Deduplicate, t) == Running
    requires spots.Get(i) == Some(Recv(Deduplicate, t)) && spots.Free(Send(Deduplicate, t))
    requires HasData(s, ids.Get(i), data) && cfg.codec.digest(data) !in s.mem.table
    ensures Shows(cfg, input, s', ids, spots.Set(i, Send(Deduplicate, t)),
                  ph.Set(Deduplicate, t, Pushing(Send(Deduplicate, t))))
    ensures s'.frag == s.frag && s'.ro == s.ro && s'.mem.table == s.mem.table[cfg.codec.digest(data) := ids.Get(i)]
    ensures OthersSame(s, s', ids.Get(i))
  {
    hide PrefixStable, Lossless, Reaches, Lie, PhasesAre, Move, Append;
    PhaseSet(s.ctl, ph, Deduplicate, t, Pushing(Send(Deduplicate, t)));
    MoveLies(s.mem.buf, ids, spots, i, Recv(Deduplicate, t), Send(Deduplicate, t));
    s' := DedupOne(cfg, s, t);
    NextIsFine(cfg, input, s, Deduplicates(t));
  }

  lemma DedupedAgain(cfg: Config, input: Bytes, s: State, ids: Ids, spots: Spots, ph: Phases, t: nat, i: nat,
                     data: Bytes)
      returns (s': State)
    requires Shows(cfg, input, s, ids, spots, ph) && t < cfg.nthreads && i < 4 && ph.Get(Deduplicate, t) == Running
    requires spots.Get(i) == Some(Recv(Deduplicate, t)) && spots.Free(SendDup(t))
    requires HasData(s, ids.Get(i), data) && cfg.codec.digest(data) in s.mem.table
    ensures Shows(cfg, input, s', ids, spots.Set(i, SendDup(t)), ph.Set(Deduplicate, t, Pushing(SendDup(t))))
    ensures s'.frag == s.frag && s'.ro == s.ro && s'.mem.table == s.mem.table && OthersSame(s, s', ids.Get(i))
    ensures ids.Get(i) in s'.mem.heap && s'.mem.heap[ids.Get(i)].isDuplicate
    ensures s'.mem.heap[ids.Get(i)].original == s.mem.table[cfg.codec.digest(data)]
  {
    hide PrefixStable, Lossless, Reaches, Lie, PhasesAre, Move, Append;
    PhaseSet(s.ctl, ph, Deduplicate, t, Pushing(SendDup(t)));
    MoveLies(s.mem.buf, ids, spots, i, Recv(Deduplicate, t), SendDup(t));
    s' := DedupOne(cfg, s, t);
    NextIsFine(cfg, input, s, Deduplicates(t));
  }

  lemma CompressedOne(cfg: Config, input: Bytes, s: State, ids: Ids, spots: Spots, ph: Phases, t: nat, i: nat)
      returns (s': State)
    requires Shows(cfg, input, s, ids, spots, ph) && t < cfg.nthreads && i < 4 && ph.Get(Compress, t) == Running
    requires spots.Get(i) == Some(Recv(Compress, t)) && spots.Free(Send(Compress, t))
    ensures Shows(cfg, input, s', ids, spots.Set(i, Send(Compress, t)), ph.Set(Compress, t, Pushing(Send(Compress, t))))
    ensures s'.frag == s.frag && s'.ro == s.ro && s'.mem.table == s.mem.table && OthersSame(s, s', ids.Get(i))
  {
    hide PrefixStable, Lossless, Reaches, Lie, PhasesAre, Move, Append;
    PhaseSet(s.ctl, ph, Compress, t, Pushing(Send(Compress, t)));
    MoveLies(s.mem.buf, ids, spots, i, Recv(Compress, t), Send(Compress, t));
    s' := CompressOne(cfg, s, t);
    NextIsFine(cfg, input, s, Step.Compresses(t));
  }

  lemma Polled(cfg: Config, input: Bytes, s: State, ids: Ids, spots: Spots, ph: Phases, i: nat) returns (s': State)
    requires Shows(cfg, input, s, ids, spots, ph) && i < 4 && s.ro.qid < cfg.nthreads
    requires spots.Get(i) == Some(Queue(ToReorder, s.ro.qid)) && spots.Free(ReorderRecv) && spots.Free(Hand)
    ensures Shows(cfg, input, s', ids, spots.Set(i, ReorderRecv), ph)
    ensures s'.frag == s.frag && s'.mem.heap == s.mem.heap && s'.mem.table == s.mem.table
    ensures s'.ro == s.ro.(qid := NextQueue(cfg, s.ro.qid), tried := 0)
  {
    hide PrefixStable, Lossless, Reaches, Lie, PhasesAre, Move, Append;
    FreeIsEmpty(s.mem.buf, ids, spots, Hand);
    MoveLies(s.mem.buf, ids, spots, i, Queue(ToReorder, s.ro.qid), ReorderRecv);
    s' := Poll(cfg, s, 1);
    NextIsFine(cfg, input, s, Polls(1));
  }

  // ---- Fragment ---------------------------------------------------------------------------------

  /** Reading into an empty buffer. */
  lemma FirstRead(cfg: Config, input: Bytes) returns (s': State)
    requires Sane(cfg) && OneEach(cfg) && input != [] && |input| <= cfg.maxbuf
    ensures forall ids: Ids :: ids.Distinct() ==>
              Shows(cfg, input, s', ids, Spots(None, None, None, None),
                    Phases(Running, Running, Running, Running, Running, Running))
    ensures s'.frag == Frag(Splitting, 0, input, [], 1, 0) && s'.mem.table == map[]
    ensures s'.ro == Reorderer(SeqNo(0, 0), Zeros(cfg.anchors), 0, 0, false)
  {
    hide PrefixStable, Lossless, Reaches;
    var s := Initial(cfg, input);
    InitiallyReached(cfg, input);
    s' := FragRead(cfg, s);
    NextIsFine(cfg, input, s, FragReads);
    assert [] + input[..|input|] == input && input[|input|..] == [];
  }

  lemma InitiallyReached(cfg: Config, input: Bytes)
    requires cfg.perQueue > 0
    ensures Reaches(cfg, input, Initial(cfg, input))
  {
    assert IsRun(cfg, Initial(cfg, input), []);
  }

  /** A cut inside the buffer sends a coarse chunk. */
  lemma SplitOff(cfg: Config, input: Bytes, s: State, ids: Ids, spots: Spots, ph: Phases, i: nat) returns (s': State)
    requires Shows(cfg, input, s, ids, spots, ph) && i < 4 && s.frag.phase == Splitting
    requires CoarseCut(cfg.seg, cfg.jump)(s.frag.buffer) < |s.frag.buffer|
    requires spots.Get(i) == None && spots.Free(FragSend) && ids.Get(i) == SeqNo(s.frag.l1, 0)
    ensures Shows(cfg, input, s', ids, spots.Set(i, FragSend), ph)
    ensures var cut := CoarseCut(cfg.seg, cfg.jump)(s.frag.buffer);
            && s'.frag == Frag(FragPushing, s.frag.anchorcount, s.frag.buffer[cut..], s.frag.unread,
                               s.frag.anchorcount + 1, s.frag.qid)
            && HasData(s', ids.Get(i), s.frag.buffer[..cut])
    ensures s'.ro == s.ro && s'.mem.table == s.mem.table && OthersSame(s, s', ids.Get(i))
  {
    hide PrefixStable, Lossless, Reaches;
    AppendLies(s.mem.buf, ids, spots, i, FragSend);
    s' := FragSplit(cfg, s);
    NextIsFine(cfg, input, s, FragSplits);
  }

  /** No cut in what is left and nothing to read: the rest is sent. */
  lemma SendRest(cfg: Config, input: Bytes, s: State, ids: Ids, spots: Spots, ph: Phases, i: nat) returns (s': State)
    requires Shows(cfg, input, s, ids, spots, ph) && i < 4 && s.frag.phase == Splitting
    requires s.frag.buffer != [] && s.frag.unread == []
    requires CoarseCut(cfg.seg, cfg.jump)(s.frag.buffer) >= |s.frag.buffer|
    requires spots.Get(i) == None && spots.Free(FragSend) && ids.Get(i) == SeqNo(s.frag.l1, 0)
    ensures Shows(cfg, input, s', ids, spots.Set(i, FragSend), ph)
    ensures s'.frag == Frag(FragDraining, s.frag.l1, [], [], s.frag.anchorcount, s.frag.qid)
    ensures HasData(s', ids.Get(i), s.frag.buffer)
    ensures s'.ro == s.ro && s'.mem.table == s.mem.table && OthersSame(s, s', ids.Get(i))
  {
    hide PrefixStable, Lossless, Reaches;
    AppendLies(s.mem.buf, ids, spots, i, FragSend);
    var s1 := FragSplit(cfg, s);
    NextIsFine(cfg, input, s, FragSplits);
    s' := FragRead(cfg, s1);
    NextIsFine(cfg, input, s1, FragReads);
    assert s.frag.buffer + [] == s.frag.buffer;
    assert s1.frag.unread[..0] == [] && s1.frag.unread[0..] == [];
  }

  lemma FragPushed(cfg: Config, input: Bytes, s: State, ids: Ids, spots: Spots, ph: Phases, i: nat) returns (s': State)
    requires Shows(cfg, input, s, ids, spots, ph) && i < 4
    requires s.frag.phase == FragPushing || s.frag.phase == FragDraining
    requires spots.Get(i) == Some(FragSend) && spots.Free(Queue(ToRefine, s.frag.qid))
    ensures Shows(cfg, input, s', ids, spots.Set(i, Queue(ToRefine, s.frag.qid)), ph)
    ensures s'.frag == s.frag.(phase := if s.frag.phase == FragPushing then Splitting else FragDraining,
                               qid := NextQueue(cfg, s.frag.qid))
    ensures s'.ro == s.ro && s'.mem.heap == s.mem.heap && s'.mem.table == s.mem.table
  {
    hide PrefixStable, Lossless, Reaches;
    MoveLies(s.mem.buf, ids, spots, i, FragSend, Queue(ToRefine, s.frag.qid));
    s' := FragPush(cfg, s, 1);
    NextIsFine(cfg, input, s, FragPushes(1));
  }

  // ---- the end of a thread ----------------------------------------------------------------------

  /** Fragment has nothing left to send: it terminates both its queues. */
  lemma FragClosed(cfg: Config, input: Bytes, s: State, ids: Ids, spots: Spots, ph: Phases) returns (s': State)
    requires Shows(cfg, input, s, ids, spots, ph) && cfg.nthreads == 2
    requires s.frag.phase == FragDraining && spots.Free(FragSend)
    ensures Shows(cfg, input, s', ids, spots, ph) && s'.frag.phase == Terminating(2)
    ensures s'.ro == s.ro && s'.mem == s.mem
  {
    hide PrefixStable, Lossless, Reaches, Lie;
    Threads(cfg);
    FreeIsEmpty(s.mem.buf, ids, spots, FragSend);
    var s1 := s.(frag := s.frag.(phase := Terminating(0)));
    NextIsFine(cfg, input, s, FragDrained);
    var s2 := FragTerminate(s1);
    NextIsFine(cfg, input, s1, FragTerminates);
    s' := FragTerminate(s2);
    NextIsFine(cfg, input, s2, FragTerminates);
    assert PhasesAre(s.ctl, ph) && s'.ctl.phases == s.ctl.phases;
  }

  /** With a queue for each thread a queue is finished when the thread that feeds it has stopped. */
  lemma FinishedWhenStopped(cfg: Config, f: Frag, ctl: Control, pool: Pool, t: nat)
    requires OneEach(cfg) && EndedOk(cfg, f, ctl) && t < cfg.nthreads && PhaseOf(ctl, pool, t) == Stopped
    ensures Finished(cfg, ctl, OutFeed(pool), t)
  {
    Threads(cfg);
    ProducerCountIsRight(cfg.nthreads, cfg.perQueue, t);
    var stopped := StoppedOn(ctl, pool, cfg.perQueue, t);
    CountSame(cfg.nthreads, stopped, WorksOn(cfg.perQueue, t));
  }

  /** The thread finds its queue finished, has nothing to pass on and stops. */
  lemma Closed(cfg: Config, input: Bytes, s: State, ids: Ids, spots: Spots, ph: Phases, pool: Pool, t: nat)
      returns (s': State)
    requires Shows(cfg, input, s, ids, spots, ph) && t < cfg.nthreads && ph.Get(pool, t) == Running
    requires spots.Free(Recv(pool, t)) && spots.Free(Queue(InFeed(pool), t)) && spots.Free(Send(pool, t))
    requires (pool == Refine ==> spots.Free(Cutting(t))) && (pool == Deduplicate ==> spots.Free(SendDup(t)))
    requires Finished(cfg, s.ctl, InFeed(pool), t)
    ensures Shows(cfg, input, s', ids, spots, ph.Set(pool, t, Stopped)) && Same(s, s')
  {
    hide PrefixStable, Lossless, Reaches, Lie, PhasesAre, Finished;
    Threads(cfg);
    FreeIsEmpty(s.mem.buf, ids, spots, Recv(pool, t));
    FreeIsEmpty(s.mem.buf, ids, spots, Queue(InFeed(pool), t));
    FreeIsEmpty(s.mem.buf, ids, spots, Send(pool, t));
    if pool == Refine {
      FreeIsEmpty(s.mem.buf, ids, spots, Cutting(t));
    }
    if pool == Deduplicate {
      FreeIsEmpty(s.mem.buf, ids, spots, SendDup(t));
    }
    PhaseSet(s.ctl, ph, pool, t, Draining);
    var s1 := Exit(s, pool, t);
    NextIsFine(cfg, input, s, Exits(pool, t));
    PhaseSet(s1.ctl, ph.Set(pool, t, Draining), pool, t, Stopped);
    s' := Stop(cfg, s1, pool, t);
    NextIsFine(cfg, input, s1, Stops(pool, t));
    EndKeepsPhases(SetPhase(s1.ctl, pool, t, Stopped), Queue(OutFeed(pool), QueueFor(cfg, t)),
                   ph.Set(pool, t, Stopped));
    SetTwice(ph, pool, t);
  }

  lemma SetTwice(ph: Phases, pool: Pool, t: nat)
    ensures ph.Set(pool, t, Draining).Set(pool, t, Stopped) == ph.Set(pool, t, Stopped)
  {
  }

  lemma EndKeepsPhases(ctl: Control, q: Place, ph: Phases)
    requires PhasesAre(ctl, ph)
    ensures PhasesAre(EndOne(ctl, q), ph)
  {
    forall pool, t: nat
      ensures PhaseOf(EndOne(ctl, q), pool, t) == ph.Get(pool, t)
    {
      assert PhaseOf(ctl, pool, t) == ph.Get(pool, t);
    }
  }

  /** The chunk expected next comes. */
  lemma Received(cfg: Config, input: Bytes, s: State, ids: Ids, spots: Spots, ph: Phases, i: nat) returns (s': State)
    requires Shows(cfg, input, s, ids, spots, ph) && i < 4
    requires spots.Get(i) == Some(ReorderRecv) && spots.Free(Hand) && ids.Get(i) == s.ro.next
    requires ids.Get(i) in s.mem.heap
    requires InBounds(s.ro.counts, s.ro.next.l1)
    ensures Shows(cfg, input, s', ids, spots.Set(i, Hand), ph)
    ensures s'.frag == s.frag && s'.mem.heap == s.mem.heap && s'.mem.table == s.mem.table
  {
    hide PrefixStable, Lossless, Reaches, Lie, PhasesAre, Move, InBounds, Grown, Noted;
    MoveLies(s.mem.buf, ids, spots, i, ReorderRecv, Hand);
    s' := ReceiveOne(s);
    NextIsFine(cfg, input, s, Receives);
  }

  /** A chunk on its way to Compress is uncompressed. */
  lemma OwnedIsUncompressed(cfg: Config, input: Bytes, s: State, p: Place, c: SeqNo)
    requires Sane(cfg) && Reaches(cfg, input, s) && c in At(s.mem.buf, p) && KindOf(p).Owned?
    ensures c in s.mem.heap && s.mem.heap[c].state == StateUncompressed
  {
    hide PrefixStable, Lossless, Reaches, Holds, Chunks, TwoLevel, CoarseChunks, TableOk, Unique, Lineage, ControlOk;
    ReachableIsFine(cfg, input, s);
    var plan := TwoLevel(cfg.seg, cfg.jump, input);
    HoldsParts(cfg, CoarseChunks(cfg.seg, cfg.jump, input), plan, s);
    assert ChunkOk(cfg, plan, s.mem, KindOf(p), c);
  }
}
