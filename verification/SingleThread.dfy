/** With one thread per pool the parallel encoder never gets stuck, however small its queues are: chunks
    are deduplicated in the order of the input, so an original always comes before its duplicates. */
module SingleThread {
  import opened Types
  import opened Chunking
  import opened Archive
  import opened ReorderSpec
  import opened Buffers
  import opened QueueSetup
  import opened Pipeline
  import opened Invariant
  import opened MoveProofs
  import opened FrontProofs
  import opened FragmentProofs
  import opened WorkProofs
  import opened ReorderProofs
  import opened Runs
  import opened Progress
  import opened Capacity
  import opened Completion

  // ---- the line in front of Deduplicate ---------------------------------------------------------

  /** The places a chunk passes before Deduplicate, the first to be served in front. */
  function LinePlaces(): seq<Place> {
    [Recv(Deduplicate, 0), Queue(ToDeduplicate, 0), Send(Refine, 0), Cutting(0), Recv(Refine, 0), Queue(ToRefine, 0),
     FragSend]
  }

  ghost predicate Distinct(places: seq<Place>) {
    forall i, j :: 0 <= i < j < |places| ==> places[i] != places[j]
  }

  lemma {:induction false} SameContents(b: Buffers, b': Buffers, places: seq<Place>)
    requires forall i :: 0 <= i < |places| ==> At(b', places[i]) == At(b, places[i])
    ensures Contents(b', places) == Contents(b, places)
  {
    if places != [] {
      SameContents(b, b', places[1..]);
    }
  }

  /** A chunk that moves to the end of the place in front of it keeps its rank in the line. */
  lemma {:induction false} ShiftKeeps(b: Buffers, places: seq<Place>, k: nat, n: nat)
    requires Distinct(places) && k + 1 < |places| && n <= |At(b, places[k + 1])|
    ensures Contents(Move(b, places[k + 1], 0, n, places[k]), places) == Contents(b, places)
  {
    hide Move, At;
    var b', from, to := Move(b, places[k + 1], 0, n, places[k]), places[k + 1], places[k];
    PrefixMoves(b, from, n, to);
    if k == 0 {
      var rest := places[1..][1..];
      assert forall i :: 0 <= i < |rest| ==> rest[i] == places[i + 2];
      SameContents(b, b', rest);
      Regroup(At(b, to), At(b, from), n, Contents(b, rest));
    } else {
      ShiftKeeps(b, places[1..], k - 1, n);
    }
  }

  lemma PrefixMoves(b: Buffers, from: Place, n: nat, to: Place)
    requires from != to && n <= |At(b, from)|
    ensures var b' := Move(b, from, 0, n, to);
            && At(b', from) == At(b, from)[n..] && At(b', to) == At(b, to) + At(b, from)[..n]
            && forall p :: p != from && p != to ==> At(b', p) == At(b, p)
  {
    assert At(b, from)[..0] + At(b, from)[n..] == At(b, from)[n..] && At(b, from)[0..n] == At(b, from)[..n];
  }

  lemma Regroup(to: seq<SeqNo>, from: seq<SeqNo>, n: nat, rest: seq<SeqNo>)
    requires n <= |from|
    ensures (to + from[..n]) + (from[n..] + rest) == to + (from + rest)
  {
    assert from[..n] + from[n..] == from;
  }

  /** A chunk that comes to an empty place in the line. */
  lemma {:induction false} EnterLine(b: Buffers, places: seq<Place>, k: nat, c: SeqNo)
    requires Distinct(places) && k < |places| && At(b, places[k]) == []
    ensures var front, back := Contents(b, places[..k]), Contents(b, places[k + 1..]);
            Contents(b, places) == front + back && Contents(Append(b, places[k], c), places) == front + [c] + back
  {
    var b', p := Append(b, places[k], c), places[0];
    if k == 0 {
      SameContents(b, b', places[1..]);
      assert places[..0] == [];
    } else {
      EnterLine(b, places[1..], k - 1, c);
      assert places[1..][..k - 1] == places[..k][1..] && places[1..][k - 1 + 1..] == places[k + 1..];
      var front, back := Contents(b, places[..k][1..]), Contents(b, places[k + 1..]);
      assert At(b, p) + (front + [c] + back) == At(b, p) + front + [c] + back;
      assert At(b, p) + (front + back) == At(b, p) + front + back;
    }
  }

  lemma {:induction false} JoinLast(b: Buffers, places: seq<Place>, c: SeqNo)
    requires Distinct(places) && places != []
    ensures Contents(Append(b, places[|places| - 1], c), places) == Contents(b, places) + [c]
  {
    var last := places[|places| - 1];
    if |places| == 1 {
      assert places[1..] == [];
      assert Contents(b, places) == At(b, last) + [];
    } else {
      JoinLast(b, places[1..], c);
      assert At(b, places[0]) + (Contents(b, places[1..]) + [c]) == At(b, places[0]) + Contents(b, places[1..]) + [c];
    }
  }

  lemma TailStays(b: Buffers, b': Buffers, places: seq<Place>, to: Place)
    requires Distinct(places) && places != [] && to !in places
    requires forall p :: p != places[0] && p != to ==> At(b', p) == At(b, p)
    ensures Contents(b', places[1..]) == Contents(b, places[1..])
  {
    hide At;
    forall i | 0 <= i < |places[1..]|
      ensures At(b', places[1..][i]) == At(b, places[1..][i])
    {
      assert places[1..][i] == places[i + 1] && places[i + 1] != places[0] && places[i + 1] in places;
    }
    SameContents(b, b', places[1..]);
  }

  lemma ServeFirst(b: Buffers, places: seq<Place>, to: Place)
    requires Distinct(places) && places != [] && to !in places && At(b, places[0]) != []
    ensures Contents(b, places) != [] && Contents(b, places)[0] == At(b, places[0])[0]
    ensures Contents(Move(b, places[0], 0, 1, to), places) == Contents(b, places)[1..]
  {
    hide Move, At, Distinct;
    var b', first, rest := Move(b, places[0], 0, 1, to), At(b, places[0]), Contents(b, places[1..]);
    PrefixMoves(b, places[0], 1, to);
    TailStays(b, b', places, to);
    assert (first + rest)[1..] == first[1..] + rest;
  }

  lemma {:induction false} InLine(b: Buffers, places: seq<Place>, c: SeqNo) returns (p: Place)
    requires c in Contents(b, places)
    ensures p in places && c in At(b, p)
  {
    if c in At(b, places[0]) {
      p := places[0];
    } else {
      p := InLine(b, places[1..], c);
    }
  }

  // ---- everything in order ----------------------------------------------------------------------

  ghost function Line(b: Buffers): seq<SeqNo> {
    Contents(b, LinePlaces())
  }

  ghost predicate Ascends(line: seq<SeqNo>) {
    forall i, j :: 0 <= i < j < |line| ==> Before(line[i], line[j])
  }

  /** The line is sorted, whatever is in the table comes before it, and a duplicate after its original. */
  ghost predicate InTurn(m: Memory) {
    && Ascends(Line(m.buf))
    && (forall d, c :: d in m.table && c in Line(m.buf) ==> Before(m.table[d], c))
    && (forall c :: c in m.heap && m.heap[c].isDuplicate ==> Before(m.heap[c].original, c))
  }

  lemma OneQueue(cfg: Config)
    requires cfg.perQueue > 0 && cfg.nthreads == 1
    ensures NQueues(cfg) == 1 && QueueFor(cfg, 0) == 0
  {
    if cfg.perQueue > 1 {
      assert 1 / cfg.perQueue == 0 && 1 % cfg.perQueue == 1;
    }
    assert 0 / cfg.perQueue == 0;
  }

  lemma LineIsDistinct()
    ensures Distinct(LinePlaces())
  {
  }

  /** No duplicate is made and no original changed. */
  ghost predicate SameDuplicates(m: Memory, m': Memory) {
    forall c :: c in m'.heap && m'.heap[c].isDuplicate ==>
                  c in m.heap && m.heap[c].isDuplicate && m'.heap[c].original == m.heap[c].original
  }

  lemma SameLineInTurn(m: Memory, m': Memory)
    requires InTurn(m) && Line(m'.buf) == Line(m.buf) && m'.table == m.table && SameDuplicates(m, m')
    ensures InTurn(m')
  {
  }

  /** A new coarse chunk joins at the end: its number is higher than all there are. */
  lemma NewcomerInTurn(cfg: Config, coarse: seq<Bytes>, plan: seq<seq<Bytes>>, s: State, m': Memory)
    requires Sane(cfg) && Holds(cfg, coarse, plan, s) && InTurn(s.mem) && Live(s.frag)
    requires m'.buf == Append(s.mem.buf, FragSend, SeqNo(s.frag.l1, 0)) && m'.table == s.mem.table
    requires SameDuplicates(s.mem, m')
    ensures InTurn(m')
  {
    hide Holds, PrefixStable, Lossless, Shapes, TableOk, Unique, Lineage, ControlOk, Contents, Made, IsOwner;
    var c := SeqNo(s.frag.l1, 0);
    HoldsParts(cfg, coarse, plan, s);
    LineIsDistinct();
    JoinLast(s.mem.buf, LinePlaces(), c);
    assert LinePlaces()[6] == FragSend;
    forall d | d in Line(s.mem.buf)
      ensures Before(d, c)
    {
      var p := InLine(s.mem.buf, LinePlaces(), d);
      IsThere(s.mem.buf, p, d);
      WasPlanned(plan, Emitted(coarse, s.frag), s.mem.buf, d);
    }
    forall d | d in s.mem.table
      ensures Before(s.mem.table[d], c)
    {
      IsEntryOk(cfg, plan, s.mem, d);
      WasPlanned(plan, Emitted(coarse, s.frag), s.mem.buf, s.mem.table[d]);
    }
  }

  /** Deduplicate serves the line: an original it finds comes before the chunk, and a new one before the
      rest. */
  lemma ServedInTurn(m: Memory, m': Memory, to: Place, d: Bytes)
    requires InTurn(m) && At(m.buf, Recv(Deduplicate, 0)) != [] && to !in LinePlaces()
    requires m'.buf == Move(m.buf, Recv(Deduplicate, 0), 0, 1, to)
    requires var c := At(m.buf, Recv(Deduplicate, 0))[0];
             && (if d in m.table then m'.table == m.table else m'.table == m.table[d := c])
             && c in m'.heap && (m'.heap[c].isDuplicate ==> d in m.table && m'.heap[c].original == m.table[d])
             && (forall e :: e != c && e in m'.heap ==> e in m.heap && m'.heap[e] == m.heap[e])
    ensures InTurn(m')
  {
    hide Contents;
    LineIsDistinct();
    ServeFirst(m.buf, LinePlaces(), to);
    assert Line(m'.buf) == Line(m.buf)[1..];
    forall e | e in Line(m'.buf)
      ensures e in Line(m.buf) && Before(Line(m.buf)[0], e)
    {
      var i :| 0 <= i < |Line(m'.buf)| && Line(m'.buf)[i] == e;
      assert Line(m.buf)[i + 1] == e;
    }
    assert Line(m.buf)[0] in Line(m.buf);
    forall e, f | e in m'.table && f in Line(m'.buf)
      ensures Before(m'.table[e], f)
    {
      assert e in m.table ==> m'.table[e] == m.table[e];
    }
    assert Ascends(Line(m'.buf));
  }

  /** The rest of a coarse chunk stays in front of the coarse chunks behind it. */
  lemma CutInTurn(cfg: Config, coarse: seq<Bytes>, plan: seq<seq<Bytes>>, s: State, m': Memory)
    requires Sane(cfg) && Holds(cfg, coarse, plan, s) && InTurn(s.mem) && |At(s.mem.buf, Cutting(0))| == 1
    requires var c := At(s.mem.buf, Cutting(0))[0];
             m'.buf == Append(Move(s.mem.buf, Cutting(0), 0, 1, Send(Refine, 0)), Cutting(0), SeqNo(c.l1, c.l2 + 1))
    requires m'.table == s.mem.table && SameDuplicates(s.mem, m')
    ensures InTurn(m')
  {
    hide Holds, PrefixStable, Lossless, Shapes, TableOk, Unique, Lineage, ControlOk, Contents, Made;
    var c, b := At(s.mem.buf, Cutting(0))[0], Move(s.mem.buf, Cutting(0), 0, 1, Send(Refine, 0));
    var temp, places := SeqNo(c.l1, c.l2 + 1), LinePlaces();
    HoldsParts(cfg, coarse, plan, s);
    LineIsDistinct();
    ShiftKeeps(s.mem.buf, places, 2, 1);
    EnterLine(b, places, 3, temp);
    var front, back := Contents(b, places[..3]), Contents(b, places[4..]);
    assert c in At(b, Send(Refine, 0)) && places[..3][2] == Send(Refine, 0);
    ContentsHave(b, places[..3], Send(Refine, 0), c);
    assert At(s.mem.buf, Cutting(0))[0] in At(s.mem.buf, Cutting(0));
    forall d | d in back
      ensures d.l1 != c.l1
    {
      BehindCutting(cfg, coarse, plan, s, d);
    }
    EndsWith(b, places[..3], c);
    TempFits(front, back, c, temp);
    TurnAfterCut(s.mem, m', front, back, c, temp);
  }

  lemma {:induction false} EndsWith(b: Buffers, places: seq<Place>, c: SeqNo)
    requires places != [] && At(b, places[|places| - 1]) != []
    requires var last := At(b, places[|places| - 1]); last[|last| - 1] == c
    ensures var all := Contents(b, places); all != [] && all[|all| - 1] == c
  {
    if |places| == 1 {
      assert places[1..] == [];
      assert Contents(b, places) == At(b, places[0]) + [];
    } else {
      EndsWith(b, places[1..], c);
    }
  }

  lemma TempFits(front: seq<SeqNo>, back: seq<SeqNo>, c: SeqNo, temp: SeqNo)
    requires Ascends(front + back) && front != [] && front[|front| - 1] == c && temp == SeqNo(c.l1, c.l2 + 1)
    requires forall d :: d in back ==> d.l1 != c.l1
    ensures Ascends(front + [temp] + back)
  {
    var was, now, n := front + back, front + [temp] + back, |front|;
    assert was[n - 1] == c;
    forall i, j | 0 <= i < j < |now|
      ensures Before(now[i], now[j])
    {
      assert i != n ==> now[i] == was[if i < n then i else i - 1];
      assert j != n ==> now[j] == was[if j < n then j else j - 1];
      if i == n {
        assert was[j - 1] in back && Before(was[n - 1], was[j - 1]);
      } else if j == n {
        assert i == n - 1 || Before(was[i], was[n - 1]);
      }
    }
  }

  lemma TurnAfterCut(m: Memory, m': Memory, front: seq<SeqNo>, back: seq<SeqNo>, c: SeqNo, temp: SeqNo)
    requires InTurn(m) && Line(m.buf) == front + back && c in front && temp == SeqNo(c.l1, c.l2 + 1)
    requires Line(m'.buf) == front + [temp] + back && Ascends(Line(m'.buf))
    requires m'.table == m.table && SameDuplicates(m, m')
    ensures InTurn(m')
  {
    forall d, e | d in m'.table && e in Line(m'.buf)
      ensures Before(m'.table[d], e)
    {
      if e == temp {
        assert c in Line(m.buf);
        assert Before(m.table[d], c);
      } else {
        assert e in Line(m.buf);
      }
    }
  }

  lemma BehindCutting(cfg: Config, coarse: seq<Bytes>, plan: seq<seq<Bytes>>, s: State, d: SeqNo)
    requires Sane(cfg) && Holds(cfg, coarse, plan, s) && At(s.mem.buf, Cutting(0)) != []
    requires d in Contents(Move(s.mem.buf, Cutting(0), 0, 1, Send(Refine, 0)), LinePlaces()[4..])
    ensures d.l1 != At(s.mem.buf, Cutting(0))[0].l1
  {
    hide Holds, PrefixStable, Lossless, Shapes, TableOk, Lineage, ControlOk, Contents, Made;
    var c := At(s.mem.buf, Cutting(0))[0];
    HoldsParts(cfg, coarse, plan, s);
    var p := InLine(Move(s.mem.buf, Cutting(0), 0, 1, Send(Refine, 0)), LinePlaces()[4..], d);
    assert p == Recv(Refine, 0) || p == Queue(ToRefine, 0) || p == FragSend;
    assert c in At(s.mem.buf, Cutting(0)) && d in At(s.mem.buf, p);
    OtherRow(plan, Emitted(coarse, s.frag), s.mem.buf, 0, p, c, d);
  }

  // ---- every step keeps it ----------------------------------------------------------------------

  /** Places a chunk comes to after Deduplicate has seen it. */
  predicate Behind(p: Place) {
    var kind := KindOf(p);
    !kind.Whole? && !kind.BeingCut? && !kind.Fresh?
  }

  lemma LineIsNotBehind(i: nat)
    requires i < |LinePlaces()|
    ensures !Behind(LinePlaces()[i])
  {
  }

  lemma OffLine(b: Buffers, from: Place, lo: nat, hi: nat, to: Place)
    requires lo <= hi <= |At(b, from)| && from != to && Behind(from) && Behind(to)
    ensures Line(Move(b, from, lo, hi, to)) == Line(b)
  {
    hide Behind, LinePlaces;
    forall i | 0 <= i < |LinePlaces()|
      ensures At(Move(b, from, lo, hi, to), LinePlaces()[i]) == At(b, LinePlaces()[i])
    {
      LineIsNotBehind(i);
    }
    SameContents(b, Move(b, from, lo, hi, to), LinePlaces());
  }

  /** A move from one place in the line to the one before it. */
  lemma StepInLine(s: State, s': State, k: nat, n: nat)
    requires InTurn(s.mem) && k + 1 < |LinePlaces()| && n <= |At(s.mem.buf, LinePlaces()[k + 1])|
    requires s'.mem.buf == Move(s.mem.buf, LinePlaces()[k + 1], 0, n, LinePlaces()[k])
    requires s'.mem.table == s.mem.table && SameDuplicates(s.mem, s'.mem)
    ensures InTurn(s'.mem)
  {
    hide InTurn, Move, Contents;
    LineIsDistinct();
    ShiftKeeps(s.mem.buf, LinePlaces(), k, n);
    SameLineInTurn(s.mem, s'.mem);
  }

  lemma InsertsInTurn(cfg: Config, coarse: seq<Bytes>, plan: seq<seq<Bytes>>, s: State, step: Step)
    requires Sane(cfg) && Refines(cfg, coarse, plan) && Holds(cfg, coarse, plan, s) && Enabled(cfg, s, step)
    requires InTurn(s.mem)
    requires step.FragReads? || step.FragSplits?
    ensures InTurn(Apply(cfg, s, step).mem)
  {
    hide PrefixStable, Lossless, DataOk, Lineage, ControlOk, FragOk, Refines, InTurn;
    var s' := Apply(cfg, s, step);
    StepKeeps(cfg, coarse, plan, s, step);
    if s'.mem.buf != s.mem.buf {
      NewcomerInTurn(cfg, coarse, plan, s, s'.mem);
    }
  }

  lemma CutsInTurn(cfg: Config, coarse: seq<Bytes>, plan: seq<seq<Bytes>>, s: State)
    requires Sane(cfg) && Holds(cfg, coarse, plan, s) && RoomOk(cfg, s.mem.buf) && CanCut(cfg, s, 0) && InTurn(s.mem)
    ensures InTurn(CutOne(cfg, s, 0).mem)
  {
    hide PrefixStable, Lossless, DataOk, Lineage, ControlOk, FragOk, InTurn, Full, Move, Contents, Append;
    var s', c := CutOne(cfg, s, 0), At(s.mem.buf, Cutting(0))[0];
    assert |At(s.mem.buf, Cutting(0))| <= Room(cfg, Cutting(0));
    CutKeeps(cfg, coarse, plan, s, 0);
    if cfg.seg(s.mem.heap[c].data.value) < |s.mem.heap[c].data.value| {
      CutInTurn(cfg, coarse, plan, s, s'.mem);
    } else {
      StepInLine(s, s', 2, 1);
    }
  }

  lemma DedupInTurn(cfg: Config, coarse: seq<Bytes>, plan: seq<seq<Bytes>>, s: State)
    requires Sane(cfg) && Holds(cfg, coarse, plan, s) && CanWork(cfg, s, Deduplicate, 0) && InTurn(s.mem)
    ensures InTurn(DedupOne(cfg, s, 0).mem)
  {
    hide PrefixStable, Lossless, DataOk, Lineage, ControlOk, FragOk, InTurn, Full, Move, Contents;
    var c := At(s.mem.buf, Recv(Deduplicate, 0))[0];
    DedupKeeps(cfg, coarse, plan, s, 0);
    var d := cfg.codec.digest(s.mem.heap[c].data.value);
    ServedInTurn(s.mem, DedupOne(cfg, s, 0).mem, if d in s.mem.table then SendDup(0) else Send(Deduplicate, 0), d);
  }

  /** Moves behind Deduplicate do not touch the line. */
  lemma OffLineMove(m: Memory, m': Memory, from: Place, lo: nat, hi: nat, to: Place)
    requires InTurn(m) && lo <= hi <= |At(m.buf, from)| && from != to && Behind(from) && Behind(to)
    requires m'.buf == Move(m.buf, from, lo, hi, to) && m'.table == m.table && SameDuplicates(m, m')
    ensures InTurn(m')
  {
    hide InTurn, Line, Move, Behind;
    OffLine(m.buf, from, lo, hi, to);
    SameLineInTurn(m, m');
  }

  lemma WriteInTurn(s: State)
    requires CanWrite(s) && InTurn(s.mem)
    ensures InTurn(WriteOne(s).mem)
  {
    hide InTurn, IsMin, Line;
    WriteOffLine(s);
    SameLineInTurn(s.mem, WriteOne(s).mem);
  }

  lemma WriteOffLine(s: State)
    requires CanWrite(s)
    ensures Line(WriteOne(s).mem.buf) == Line(s.mem.buf)
  {
    hide Line;
    var b := Move(s.mem.buf, Hand, 0, 1, Out);
    OffLine(s.mem.buf, Hand, 0, 1, Out);
    if WriteOne(s).mem.buf != s.mem.buf && WriteOne(s).mem.buf != b {
      var next := Advance(s.ro.counts, s.ro.next);
      assert next in Cached(b);
      var i := IndexOf(At(b, Cache), next);
      OffLine(b, Cache, i, i + 1, Hand);
    }
  }

  lemma BehindInTurn(cfg: Config, s: State, step: Step)
    requires cfg.perQueue > 0 && Enabled(cfg, s, step) && InTurn(s.mem)
    requires step.Polls? || (step.Fetches? && step.pool == Compress) || (step.Pushes? && step.pool != Refine)
    ensures InTurn(Apply(cfg, s, step).mem)
  {
    hide InTurn, Full, Move;
    var s' := Apply(cfg, s, step);
    match step
    case Polls(n) => OffLineMove(s.mem, s'.mem, Queue(ToReorder, s.ro.qid), 0, n, ReorderRecv);
    case Fetches(pool, t, n) => OffLineMove(s.mem, s'.mem, Queue(ToCompress, QueueFor(cfg, t)), 0, n, Recv(pool, t));
    case Pushes(_, _, p, n) => OffLineMove(s.mem, s'.mem, p, 0, n, Target(cfg, p));
  }

  lemma ReceiveInTurn(s: State)
    requires CanReceive(s) && InTurn(s.mem)
    ensures InTurn(ReceiveOne(s).mem)
  {
    hide InTurn, Move, InBounds, Grown, Noted;
    if ReceiveOne(s).mem != s.mem {
      var to := if At(s.mem.buf, ReorderRecv)[0] == s.ro.next then Hand else Cache;
      OffLineMove(s.mem, ReceiveOne(s).mem, ReorderRecv, 0, 1, to);
    }
  }

  lemma CompressInTurn(cfg: Config, s: State, t: nat)
    requires CanWork(cfg, s, Compress, t) && InTurn(s.mem)
    ensures InTurn(CompressOne(cfg, s, t).mem)
  {
    hide InTurn, Full, Move;
    var s' := CompressOne(cfg, s, t);
    if s'.mem != s.mem {
      OffLineMove(s.mem, s'.mem, Recv(Compress, t), 0, 1, Send(Compress, t));
    }
  }

  lemma MovesInTurn(cfg: Config, s: State, step: Step)
    requires Sane(cfg) && cfg.nthreads == 1 && s.frag.qid < NQueues(cfg) && Enabled(cfg, s, step) && InTurn(s.mem)
    requires step.FragPushes? || step.Takes?
             || (step.Fetches? && step.pool != Compress) || (step.Pushes? && step.pool == Refine)
    ensures InTurn(Apply(cfg, s, step).mem)
  {
    hide PrefixStable, Lossless, InTurn, Full, Contents, Move;
    OneQueue(cfg);
    var s' := Apply(cfg, s, step);
    match step
    case FragPushes(n) => StepInLine(s, s', 5, n);
    case Takes(_) => StepInLine(s, s', 3, 1);
    case Fetches(pool, _, n) => StepInLine(s, s', if pool == Refine then 4 else 0, n);
    case Pushes(_, _, _, n) => StepInLine(s, s', 1, n);
  }

  lemma StepInTurn(cfg: Config, coarse: seq<Bytes>, plan: seq<seq<Bytes>>, s: State, step: Step)
    requires Sane(cfg) && cfg.nthreads == 1 && Refines(cfg, coarse, plan) && Holds(cfg, coarse, plan, s)
    requires RoomOk(cfg, s.mem.buf) && Enabled(cfg, s, step) && InTurn(s.mem)
    ensures InTurn(Apply(cfg, s, step).mem)
  {
    hide PrefixStable, Lossless, Refines, DataOk, Lineage, ControlOk, RoomOk, InTurn, Full, FragRead, FragSplit,
         FragPush, CanFetch, Fetch, CanTake, TakeCoarse, CutOne, DedupOne, CompressOne, CanPush, Push, CanPoll,
         Poll, CanReceive, ReceiveOne, CanWrite, WriteOne;
    match step
    case FragReads => InsertsInTurn(cfg, coarse, plan, s, step);
    case FragSplits => InsertsInTurn(cfg, coarse, plan, s, step);
    case Cuts(_) => CutsInTurn(cfg, coarse, plan, s);
    case Deduplicates(_) => DedupInTurn(cfg, coarse, plan, s);
    case FragPushes(_) => MovesInTurn(cfg, s, step);
    case Takes(_) => MovesInTurn(cfg, s, step);
    case Fetches(pool, _, _) =>
      if pool == Compress { BehindInTurn(cfg, s, step); } else { MovesInTurn(cfg, s, step); }
    case Pushes(pool, _, _, _) =>
      if pool != Refine { BehindInTurn(cfg, s, step); } else { MovesInTurn(cfg, s, step); }
    case Compresses(t) => CompressInTurn(cfg, s, t);
    case Polls(_) => BehindInTurn(cfg, s, step);
    case Receives => ReceiveInTurn(s);
    case Writes => WriteInTurn(s);
    case _ =>
  }

  lemma {:induction false} RunInTurn(cfg: Config, coarse: seq<Bytes>, plan: seq<seq<Bytes>>, s: State, steps: seq<Step>)
    requires Sane(cfg) && cfg.nthreads == 1 && Refines(cfg, coarse, plan) && Holds(cfg, coarse, plan, s)
    requires RoomOk(cfg, s.mem.buf) && IsRun(cfg, s, steps) && InTurn(s.mem)
    ensures InTurn(After(cfg, s, steps).mem)
    decreases |steps|
  {
    hide Holds, PrefixStable, Lossless, Refines, Enabled, Apply, RoomOk, InTurn;
    if steps != [] {
      StepKeeps(cfg, coarse, plan, s, steps[0]);
      StepKeepsRoom(cfg, s, steps[0]);
      StepInTurn(cfg, coarse, plan, s, steps[0]);
      RunInTurn(cfg, coarse, plan, Apply(cfg, s, steps[0]), steps[1..]);
    }
  }

  // ---- no waiting -------------------------------------------------------------------------------

  /** The chunk Reorder is about to write has a compressed original: it was written before. */
  lemma NeverWaitsForOriginal(cfg: Config, coarse: seq<Bytes>, plan: seq<seq<Bytes>>, s: State)
    requires Sane(cfg) && Holds(cfg, coarse, plan, s) && InTurn(s.mem)
    ensures !WaitsForOriginal(s)
  {
    hide Holds, PrefixStable, Lossless, Shapes, TableOk, Unique, Lineage, ControlOk, Line, Sorted;
    if At(s.mem.buf, Hand) != [] {
      var c := At(s.mem.buf, Hand)[0];
      HoldsParts(cfg, coarse, plan, s);
      StageSorted(cfg, coarse, plan, s);
      FirstOk(cfg, plan, s.mem, Hand);
      OwnerStandsFor(cfg, plan, s, c);
      HandIsNext(SizesOf(plan), StageOf(s));
      var o := Owner(s, c);
      if o != c {
        WrittenIsBefore(SizesOf(plan), StageOf(s), o);
        WrittenIsPacked(cfg, plan, s.mem, o);
      }
    }
  }

  lemma HandIsNext(sizes: seq<nat>, s: Stage)
    requires Sorted(sizes, s)
    ensures s.hand.Some? ==> s.hand.value == s.next
  {
  }

  lemma WrittenIsPacked(cfg: Config, plan: seq<seq<Bytes>>, m: Memory, o: SeqNo)
    requires PrefixStable(cfg.seg) && Shapes(cfg, plan, m) && o in At(m.buf, Out)
    ensures o in m.heap ==> m.heap[o].state != StateUncompressed
  {
    assert ChunkOk(cfg, plan, m, KindOf(Out), o);
  }

  lemma InitiallyInTurn(cfg: Config, input: Bytes)
    ensures InTurn(Initial(cfg, input).mem) && RoomOk(cfg, Initial(cfg, input).mem.buf)
  {
    var b := Initial(cfg, input).mem.buf;
    NothingInLine(b, LinePlaces());
  }

  lemma {:induction false} NothingInLine(b: Buffers, places: seq<Place>)
    requires b == map[]
    ensures Contents(b, places) == []
  {
    if places != [] {
      NothingInLine(b, places[1..]);
    }
  }

  /** With one thread per pool a run that can go no further is complete, or has left the array of counts,
      whatever the sizes of the queues and buffers. */
  lemma SingleThreadIsNeverStuck(cfg: Config, input: Bytes, steps: seq<Step>)
    requires Sane(cfg) && cfg.nthreads == 1 && IsRun(cfg, Initial(cfg, input), steps)
    requires forall step :: !Enabled(cfg, After(cfg, Initial(cfg, input), steps), step)
    ensures After(cfg, Initial(cfg, input), steps).ro.exited || After(cfg, Initial(cfg, input), steps).overrun
  {
    hide PrefixStable, Lossless, Enabled, Apply, Holds, Refines, TwoLevel, Chunks, InTurn, RoomOk,
         WaitsForOriginal, Full;
    var coarse, plan := CoarseChunks(cfg.seg, cfg.jump, input), TwoLevel(cfg.seg, cfg.jump, input);
    var s := After(cfg, Initial(cfg, input), steps);
    RefinesInput(cfg, input);
    InitialHolds(cfg, input);
    InitiallyInTurn(cfg, input);
    RunKeepsInv(cfg, input, steps);
    RunInTurn(cfg, coarse, plan, Initial(cfg, input), steps);
    NeverWaitsForOriginal(cfg, coarse, plan, s);
    StuckMeans(cfg, input, steps);
    OneQueue(cfg);
    QidInRange(cfg, coarse, plan, s);
  }

  lemma QidInRange(cfg: Config, coarse: seq<Bytes>, plan: seq<seq<Bytes>>, s: State)
    requires Sane(cfg) && Holds(cfg, coarse, plan, s)
    ensures s.ro.qid < NQueues(cfg)
  {
    hide DataOk, Lineage, FragOk, PrefixStable, Lossless;
  }
}
