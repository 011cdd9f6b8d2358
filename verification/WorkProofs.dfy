/** The steps of the three pools of workers keep the invariant. */
module WorkProofs {
  import opened Types
  import opened Chunking
  import opened Archive
  import opened ReorderSpec
  import opened Buffers
  import opened QueueSetup
  import opened Pipeline
  import opened Invariant
  import opened MoveProofs
  import opened FrontProofs
  import opened ControlProofs
  import opened FragmentProofs

  // ---- one chunk moves --------------------------------------------------------------------------

  /** Only the first chunk of `from` changes its place. */
  ghost predicate FirstMoved(b: Buffers, b': Buffers, from: Place, to: Place)
    requires At(b, from) != []
  {
    var c := At(b, from)[0];
    && (forall p :: c in At(b', p) <==> p == to)
    && (forall p, d :: d != c ==> (d in At(b', p) <==> d in At(b, p)))
    && (forall d :: Made(b', d) <==> Made(b, d))
    && At(b', to) == At(b, to) + [c]
    && (forall p :: p != from && p != to ==> At(b', p) == At(b, p))
  }

  lemma MoveFirst(b: Buffers, from: Place, to: Place)
    requires Unique(b) && from != to && At(b, from) != []
    ensures Unique(Move(b, from, 0, 1, to)) && FirstMoved(b, Move(b, from, 0, 1, to), from, to)
  {
    var c, b' := At(b, from)[0], Move(b, from, 0, 1, to);
    MoveMembers(b, from, 0, 1, to);
    MoveKeepsUnique(b, from, 0, 1, to);
    assert At(b, from)[0..1] == [c];
    assert At(b', to) == At(b, to) + [c];
    forall p
      ensures c in At(b', p) <==> p == to
    {
      IsHere(b', to, c, p);
    }
    hide Unique, Made, Move;
  }

  lemma FirstMovedAt(b: Buffers, b': Buffers, from: Place, to: Place, p: Place, d: SeqNo)
    requires At(b, from) != [] && FirstMoved(b, b', from, to)
    ensures d in At(b', p) <==> if d == At(b, from)[0] then p == to else d in At(b, p)
    ensures Made(b', d) <==> Made(b, d)
  {
  }

  lemma IsHere(b: Buffers, here: Place, c: SeqNo, p: Place)
    requires Unique(b) && c in At(b, here)
    ensures c in At(b, p) <==> p == here
  {
  }

  /** Everything but the chunks in `changed` stays where and what it was. */
  ghost predicate OthersStay(m: Memory, m': Memory, changed: set<SeqNo>) {
    && TableGrows(m, m')
    && (forall d :: d !in changed ==> SameObject(m, m', d))
    && (forall p, d :: d !in changed && d in At(m'.buf, p) ==> d in At(m.buf, p))
  }

  lemma ShapesAfter(cfg: Config, plan: seq<seq<Bytes>>, m: Memory, m': Memory, changed: set<SeqNo>)
    requires PrefixStable(cfg.seg) && Shapes(cfg, plan, m) && OthersStay(m, m', changed)
    requires forall p, d :: d in changed && d in At(m'.buf, p) ==> ChunkOk(cfg, plan, m', KindOf(p), d)
    ensures Shapes(cfg, plan, m')
  {
    forall p, d | d in At(m'.buf, p)
      ensures ChunkOk(cfg, plan, m', KindOf(p), d)
    {
      if d !in changed {
        assert d in At(m.buf, p);
        ChunkKept(cfg, plan, m, m', KindOf(p), d);
      }
    }
  }

  lemma TableAfter(cfg: Config, plan: seq<seq<Bytes>>, m: Memory, m': Memory, changed: set<SeqNo>)
    requires TableOk(cfg, plan, m) && OthersStay(m, m', changed)
    requires At(m'.buf, Out) == At(m.buf, Out) && forall d :: Made(m.buf, d) ==> Made(m'.buf, d)
    requires forall d :: d in m'.table && (d !in m.table || m.table[d] in changed) ==> EntryOk(cfg, plan, m', d)
    ensures TableOk(cfg, plan, m')
  {
    forall d | d in m'.table
      ensures EntryOk(cfg, plan, m', d)
    {
      if d in m.table && m.table[d] !in changed {
        assert EntryOk(cfg, plan, m, d);
        EntryKept(cfg, plan, m, m', d);
      }
    }
  }

  // ---- FragmentRefine ---------------------------------------------------------------------------

  /** What the split loop finds in a chunk that holds the rest of its row. */
  lemma CutFinds(cfg: Config, plan: seq<seq<Bytes>>, m: Memory, c: SeqNo)
    requires PrefixStable(cfg.seg) && HoldsRest(cfg, plan, m, c)
    ensures var data, row := m.heap[c].data.value, plan[c.l1];
            var offset := cfg.seg(data);
            && 1 <= offset <= |data|
            && (offset < |data| ==>
                  && data[offset..] != [] && row[c.l2] == data[..offset]
                  && c.l2 + 1 < |row| && Chunks(cfg.seg, data[offset..]) == row[c.l2 + 1..])
            && (offset == |data| ==> row[c.l2] == data && c.l2 + 1 == |row|)
  {
    var data, row := m.heap[c].data.value, plan[c.l1];
    var offset := cfg.seg(data);
    assert CutInRange(cfg.seg, data);
    assert row[c.l2..][0] == row[c.l2] && row[c.l2..][1..] == row[c.l2 + 1..];
    if offset < |data| {
      assert data + [] == data && data[offset..] + [] == data[offset..];
      FirstChunk(cfg.seg, data, []);
      ChunksPartition(cfg.seg, data[offset..]);
    } else {
      LastChunk(cfg.seg, data);
    }
  }

  /** The chunk after the one being cut does not exist yet. */
  lemma NextIsNew(plan: seq<seq<Bytes>>, emitted: nat, b: Buffers, t: nat)
    requires Lineage(plan, emitted, b) && At(b, Cutting(t)) != []
    ensures !Made(b, SeqNo(At(b, Cutting(t))[0].l1, At(b, Cutting(t))[0].l2 + 1))
  {
    var c := At(b, Cutting(t))[0];
    assert c in At(b, Cutting(t)) && Unsplit(Cutting(t));
  }

  /** A new chunk is never a table entry. */
  lemma UnmadeIsNoEntry(cfg: Config, plan: seq<seq<Bytes>>, m: Memory, c: SeqNo)
    requires TableOk(cfg, plan, m) && !Made(m.buf, c)
    ensures forall d :: d in m.table ==> m.table[d] != c
  {
    forall d | d in m.table
      ensures m.table[d] != c
    {
      assert EntryOk(cfg, plan, m, d);
    }
  }

  /** The memory after a cut inside the chunk. */
  ghost function CutInside(cfg: Config, m: Memory, t: nat): Memory
    requires PrefixStable(cfg.seg) && At(m.buf, Cutting(t)) != []
    requires var c := At(m.buf, Cutting(t))[0];
             c in m.heap && m.heap[c].data.Some? && cfg.seg(m.heap[c].data.value) <= |m.heap[c].data.value|
  {
    var c := At(m.buf, Cutting(t))[0];
    var data := m.heap[c].data.value;
    var temp := SeqNo(c.l1, c.l2 + 1);
    m.(buf := Append(Move(m.buf, Cutting(t), 0, 1, Send(Refine, t)), Cutting(t), temp),
       heap := m.heap[c := m.heap[c].(data := Some(data[..cfg.seg(data)]), isLast := false)]
               [temp := NewChunk(data[cfg.seg(data)..]).(state := m.heap[c].state)])
  }

  lemma CutInsideBuffers(b: Buffers, t: nat)
    requires Unique(b) && At(b, Cutting(t)) != []
             && !Made(b, SeqNo(At(b, Cutting(t))[0].l1, At(b, Cutting(t))[0].l2 + 1))
    ensures var c := At(b, Cutting(t))[0];
            var temp := SeqNo(c.l1, c.l2 + 1);
            var b' := Append(Move(b, Cutting(t), 0, 1, Send(Refine, t)), Cutting(t), temp);
            && Unique(b')
            && (forall p :: c in At(b', p) <==> p == Send(Refine, t))
            && (forall p :: temp in At(b', p) <==> p == Cutting(t))
            && (forall p, d :: d != c && d != temp ==> (d in At(b', p) <==> d in At(b, p)))
            && (forall d :: Made(b', d) <==> Made(b, d) || d == temp)
            && (forall p :: p != Cutting(t) && p != Send(Refine, t) ==> At(b', p) == At(b, p))
            && At(b', Send(Refine, t)) == At(b, Send(Refine, t)) + [c]
  {
    hide Unique, Made, FirstMoved;
    var c := At(b, Cutting(t))[0];
    var temp := SeqNo(c.l1, c.l2 + 1);
    var b1 := Move(b, Cutting(t), 0, 1, Send(Refine, t));
    var b' := Append(b1, Cutting(t), temp);
    MoveFirst(b, Cutting(t), Send(Refine, t));
    FirstMovedAt(b, b1, Cutting(t), Send(Refine, t), Cutting(t), temp);
    forall p, d
      ensures d in At(b', p) <==> if d == c then p == Send(Refine, t) else if d == temp then p == Cutting(t)
                                  else d in At(b, p)
    {
      FirstMovedAt(b, b1, Cutting(t), Send(Refine, t), p, d);
      UnmadeAppended(b1, Cutting(t), temp, p, d);
    }
    forall d
      ensures Made(b', d) <==> Made(b, d) || d == temp
    {
      FirstMovedAt(b, b1, Cutting(t), Send(Refine, t), Cutting(t), d);
      UnmadeAppended(b1, Cutting(t), temp, Cutting(t), d);
    }
    AppendUnique(b1, Cutting(t), temp);
    assert At(b, Cutting(t))[0..1] == [c];
  }

  lemma UnmadeAppended(b: Buffers, p: Place, c: SeqNo, q: Place, d: SeqNo)
    requires Unique(b) && !Made(b, c)
    ensures d in At(Append(b, p, c), q) <==> if d == c then q == p else d in At(b, q)
    ensures Made(Append(b, p, c), d) <==> Made(b, d) || d == c
  {
    hide Unique;
    AppendKeepsUnique(b, p, c);
  }

  lemma AppendUnique(b: Buffers, p: Place, c: SeqNo)
    requires Unique(b) && !Made(b, c)
    ensures Unique(Append(b, p, c))
  {
    AppendKeepsUnique(b, p, c);
  }

  lemma CutInsideObjects(cfg: Config, plan: seq<seq<Bytes>>, m: Memory, t: nat)
    requires PrefixStable(cfg.seg) && At(m.buf, Cutting(t)) != []
    requires var c := At(m.buf, Cutting(t))[0];
             HoldsRest(cfg, plan, m, c) && cfg.seg(m.heap[c].data.value) < |m.heap[c].data.value|
    ensures var c := At(m.buf, Cutting(t))[0];
            && HoldsPiece(plan, CutInside(cfg, m, t), c)
            && HoldsRest(cfg, plan, CutInside(cfg, m, t), SeqNo(c.l1, c.l2 + 1))
  {
    CutFinds(cfg, plan, m, At(m.buf, Cutting(t))[0]);
  }

  lemma CutInsideOthers(cfg: Config, m: Memory, t: nat)
    requires PrefixStable(cfg.seg) && Unique(m.buf) && At(m.buf, Cutting(t)) != []
    requires var c := At(m.buf, Cutting(t))[0];
             c in m.heap && m.heap[c].data.Some? && cfg.seg(m.heap[c].data.value) <= |m.heap[c].data.value|
             && !Made(m.buf, SeqNo(c.l1, c.l2 + 1))
    ensures var c := At(m.buf, Cutting(t))[0]; OthersStay(m, CutInside(cfg, m, t), {c, SeqNo(c.l1, c.l2 + 1)})
  {
    hide Unique, PrefixStable;
    CutInsideBuffers(m.buf, t);
  }

  /** The chunk being cut, with something left behind the cut. */
  ghost predicate CutsInside(cfg: Config, plan: seq<seq<Bytes>>, m: Memory, t: nat)
    requires PrefixStable(cfg.seg)
  {
    At(m.buf, Cutting(t)) != []
    && (var c := At(m.buf, Cutting(t))[0];
        HoldsRest(cfg, plan, m, c) && cfg.seg(m.heap[c].data.value) < |m.heap[c].data.value|
        && !Made(m.buf, SeqNo(c.l1, c.l2 + 1)))
  }

  lemma CutInsideShapes(cfg: Config, plan: seq<seq<Bytes>>, m: Memory, t: nat)
    requires PrefixStable(cfg.seg) && Unique(m.buf) && Shapes(cfg, plan, m) && CutsInside(cfg, plan, m, t)
    ensures Shapes(cfg, plan, CutInside(cfg, m, t))
  {
    hide Unique, Shapes, PrefixStable, OthersStay, HoldsPiece, Made;
    var c := At(m.buf, Cutting(t))[0];
    CutInsideOthers(cfg, m, t);
    forall p, d | d in {c, SeqNo(c.l1, c.l2 + 1)} && d in At(CutInside(cfg, m, t).buf, p)
      ensures ChunkOk(cfg, plan, CutInside(cfg, m, t), KindOf(p), d)
    {
      CutInsideChunk(cfg, plan, m, t, p, d);
    }
    ShapesAfter(cfg, plan, m, CutInside(cfg, m, t), {c, SeqNo(c.l1, c.l2 + 1)});
  }

  lemma CutInsideChunk(cfg: Config, plan: seq<seq<Bytes>>, m: Memory, t: nat, p: Place, d: SeqNo)
    requires PrefixStable(cfg.seg) && Unique(m.buf) && CutsInside(cfg, plan, m, t)
    requires d == At(m.buf, Cutting(t))[0] || d == SeqNo(At(m.buf, Cutting(t))[0].l1, At(m.buf, Cutting(t))[0].l2 + 1)
    requires d in At(CutInside(cfg, m, t).buf, p)
    ensures ChunkOk(cfg, plan, CutInside(cfg, m, t), KindOf(p), d)
  {
    hide Unique, PrefixStable, Made;
    CutInsideBuffers(m.buf, t);
    CutInsideObjects(cfg, plan, m, t);
    hide HoldsPiece, HoldsRest;
    assert p == if d == At(m.buf, Cutting(t))[0] then Send(Refine, t) else Cutting(t);
  }

  lemma CutInsideTable(cfg: Config, plan: seq<seq<Bytes>>, m: Memory, t: nat)
    requires PrefixStable(cfg.seg) && Unique(m.buf) && TableOk(cfg, plan, m) && CutsInside(cfg, plan, m, t)
    ensures TableOk(cfg, plan, CutInside(cfg, m, t))
  {
    hide Unique, TableOk, PrefixStable, OthersStay, EntryOk, Made;
    var c := At(m.buf, Cutting(t))[0];
    CutInsideBuffers(m.buf, t);
    CutInsideOthers(cfg, m, t);
    UnlockedIsNoEntry(cfg, plan, m, c);
    UnmadeIsNoEntry(cfg, plan, m, SeqNo(c.l1, c.l2 + 1));
    TableAfter(cfg, plan, m, CutInside(cfg, m, t), {c, SeqNo(c.l1, c.l2 + 1)});
  }

  /** The buffers after a cut inside: the piece has gone on, the rest is a new chunk. */
  ghost predicate Split(b: Buffers, b': Buffers, t: nat, c: SeqNo, temp: SeqNo) {
    && (forall p :: c in At(b', p) <==> p == Send(Refine, t))
    && (forall p :: temp in At(b', p) <==> p == Cutting(t))
    && (forall p, d :: d != c && d != temp ==> (d in At(b', p) <==> d in At(b, p)))
    && (forall d :: Made(b', d) <==> Made(b, d) || d == temp)
  }

  lemma CutInsideLineage(plan: seq<seq<Bytes>>, emitted: nat, b: Buffers, t: nat)
    requires Unique(b) && Lineage(plan, emitted, b) && At(b, Cutting(t)) != []
    requires var c := At(b, Cutting(t))[0]; InPlan(plan, SeqNo(c.l1, c.l2 + 1))
    ensures var temp := SeqNo(At(b, Cutting(t))[0].l1, At(b, Cutting(t))[0].l2 + 1);
            Lineage(plan, emitted, Append(Move(b, Cutting(t), 0, 1, Send(Refine, t)), Cutting(t), temp))
  {
    hide Unique, Lineage, Made;
    var c := At(b, Cutting(t))[0];
    var temp := SeqNo(c.l1, c.l2 + 1);
    var b' := Append(Move(b, Cutting(t), 0, 1, Send(Refine, t)), Cutting(t), temp);
    NextIsNew(plan, emitted, b, t);
    CutInsideBuffers(b, t);
    SplitKeepsLineage(plan, emitted, b, b', t, c, temp);
  }

  lemma SplitKeepsLineage(plan: seq<seq<Bytes>>, emitted: nat, b: Buffers, b': Buffers, t: nat, c: SeqNo, temp: SeqNo)
    requires Unique(b) && Lineage(plan, emitted, b) && c in At(b, Cutting(t))
    requires temp == SeqNo(c.l1, c.l2 + 1) && InPlan(plan, temp) && Split(b, b', t, c, temp)
    ensures Lineage(plan, emitted, b')
  {
    hide Unique, Lineage, Made, Split;
    forall d | Made(b', d)
      ensures d.l1 < emitted && InPlan(plan, d)
    {
      SplitPlanned(plan, emitted, b, b', t, c, temp, d);
    }
    forall a: nat | a < emitted
      ensures Made(b', SeqNo(a, 0))
    {
      WasSent(plan, emitted, b, a);
      StillMade(b, b', t, c, temp, SeqNo(a, 0));
    }
    forall p, d | d in At(b', p) && !Unsplit(p) && d.l1 < |plan| && d.l2 + 1 < |plan[d.l1]|
      ensures Made(b', SeqNo(d.l1, d.l2 + 1))
    {
      SplitSuccessor(plan, emitted, b, b', t, c, temp, p, d);
    }
    forall p, d, l2: nat | d in At(b', p) && Unsplit(p) && Made(b', SeqNo(d.l1, l2))
      ensures l2 <= d.l2
    {
      SplitNewest(plan, emitted, b, b', t, c, temp, p, d, l2);
    }
    IsThere(b, Cutting(t), c);
    WasPlanned(plan, emitted, b, c);
    LineageIs(plan, emitted, b');
  }

  lemma StillMade(b: Buffers, b': Buffers, t: nat, c: SeqNo, temp: SeqNo, d: SeqNo)
    requires Split(b, b', t, c, temp)
    ensures Made(b', d) <==> Made(b, d) || d == temp
  {
  }

  lemma SplitPlanned(plan: seq<seq<Bytes>>, emitted: nat, b: Buffers, b': Buffers, t: nat, c: SeqNo, temp: SeqNo,
                     d: SeqNo)
    requires Lineage(plan, emitted, b) && c in At(b, Cutting(t)) && InPlan(plan, temp) && temp.l1 == c.l1
    requires Split(b, b', t, c, temp) && Made(b', d)
    ensures d.l1 < emitted && InPlan(plan, d)
  {
    hide Lineage, Made, Split;
    StillMade(b, b', t, c, temp, d);
    IsThere(b, Cutting(t), c);
    WasPlanned(plan, emitted, b, if d == temp then c else d);
  }

  lemma SplitSuccessor(plan: seq<seq<Bytes>>, emitted: nat, b: Buffers, b': Buffers, t: nat, c: SeqNo, temp: SeqNo,
                       p: Place, d: SeqNo)
    requires Lineage(plan, emitted, b) && temp == SeqNo(c.l1, c.l2 + 1) && Split(b, b', t, c, temp)
    requires d in At(b', p) && !Unsplit(p) && InPlan(plan, SeqNo(d.l1, d.l2 + 1))
    ensures Made(b', SeqNo(d.l1, d.l2 + 1))
  {
    hide Lineage, Made;
    assert d != temp;
    if d != c {
      HasSuccessor(plan, emitted, b, p, d);
    }
  }

  lemma SplitNewest(plan: seq<seq<Bytes>>, emitted: nat, b: Buffers, b': Buffers, t: nat, c: SeqNo, temp: SeqNo,
                    p: Place, d: SeqNo, l2: nat)
    requires Unique(b) && Lineage(plan, emitted, b) && c in At(b, Cutting(t))
    requires temp == SeqNo(c.l1, c.l2 + 1) && Split(b, b', t, c, temp)
    requires d in At(b', p) && Unsplit(p) && Made(b', SeqNo(d.l1, l2))
    ensures l2 <= d.l2
  {
    hide Unique, Lineage, Made;
    assert d != c;
    if d == temp {
      if SeqNo(d.l1, l2) != temp {
        IsNewest(plan, emitted, b, Cutting(t), c, l2);
      }
    } else {
      OtherRow(plan, emitted, b, t, p, c, d);
      IsNewest(plan, emitted, b, p, d, l2);
    }
  }

  lemma IsThere(b: Buffers, p: Place, c: SeqNo)
    requires c in At(b, p)
    ensures Made(b, c)
  {
  }

  lemma WasPlanned(plan: seq<seq<Bytes>>, emitted: nat, b: Buffers, c: SeqNo)
    requires Lineage(plan, emitted, b) && Made(b, c)
    ensures c.l1 < emitted <= |plan| && InPlan(plan, c)
  {
  }

  lemma WasSent(plan: seq<seq<Bytes>>, emitted: nat, b: Buffers, a: nat)
    requires Lineage(plan, emitted, b) && a < emitted
    ensures Made(b, SeqNo(a, 0)) && emitted <= |plan|
  {
  }

  lemma HasSuccessor(plan: seq<seq<Bytes>>, emitted: nat, b: Buffers, p: Place, c: SeqNo)
    requires Lineage(plan, emitted, b) && c in At(b, p) && !Unsplit(p) && InPlan(plan, SeqNo(c.l1, c.l2 + 1))
    ensures Made(b, SeqNo(c.l1, c.l2 + 1))
  {
  }

  lemma IsNewest(plan: seq<seq<Bytes>>, emitted: nat, b: Buffers, p: Place, c: SeqNo, l2: nat)
    requires Lineage(plan, emitted, b) && c in At(b, p) && Unsplit(p) && Made(b, SeqNo(c.l1, l2))
    ensures l2 <= c.l2
  {
  }

  lemma LineageIs(plan: seq<seq<Bytes>>, emitted: nat, b: Buffers)
    requires emitted <= |plan|
    requires forall c :: Made(b, c) ==> c.l1 < emitted && InPlan(plan, c)
    requires forall a: nat :: a < emitted ==> Made(b, SeqNo(a, 0))
    requires forall p, c :: c in At(b, p) && !Unsplit(p) && c.l1 < |plan| && c.l2 + 1 < |plan[c.l1]|
                    ==> Made(b, SeqNo(c.l1, c.l2 + 1))
    requires forall p, c, l2: nat :: c in At(b, p) && Unsplit(p) && Made(b, SeqNo(c.l1, l2)) ==> l2 <= c.l2
    ensures Lineage(plan, emitted, b)
  {
  }

  /** Another unsplit chunk belongs to another row. */
  lemma OtherRow(plan: seq<seq<Bytes>>, emitted: nat, b: Buffers, t: nat, p: Place, c: SeqNo, d: SeqNo)
    requires Lineage(plan, emitted, b) && c in At(b, Cutting(t))
    requires d in At(b, p) && Unsplit(p) && d != c
    ensures d.l1 != c.l1
  {
    hide Unique, Lineage, Made;
    assert c == SeqNo(c.l1, c.l2) && d == SeqNo(d.l1, d.l2);
    IsThere(b, Cutting(t), c);
    IsThere(b, p, d);
    if d.l1 == c.l1 {
      IsNewest(plan, emitted, b, Cutting(t), c, d.l2);
      IsNewest(plan, emitted, b, p, d, c.l2);
    }
  }

  /** The last piece of a row has no successor to wait for. */
  lemma SettleKeepsLineage(plan: seq<seq<Bytes>>, emitted: nat, b: Buffers, from: Place, to: Place)
    requires Unique(b) && Lineage(plan, emitted, b) && from != to && At(b, from) != [] && Unsplit(from) && !Unsplit(to)
    requires InPlan(plan, At(b, from)[0]) && IsLast(plan, At(b, from)[0])
    ensures Lineage(plan, emitted, Move(b, from, 0, 1, to))
  {
    hide Unique, Lineage, Made;
    var c, b' := At(b, from)[0], Move(b, from, 0, 1, to);
    MoveFirst(b, from, to);
    forall d | Made(b', d)
      ensures d.l1 < emitted && InPlan(plan, d)
    {
      WasPlanned(plan, emitted, b, d);
    }
    forall a: nat | a < emitted
      ensures Made(b', SeqNo(a, 0))
    {
      WasSent(plan, emitted, b, a);
    }
    forall p, d | d in At(b', p) && !Unsplit(p) && d.l1 < |plan| && d.l2 + 1 < |plan[d.l1]|
      ensures Made(b', SeqNo(d.l1, d.l2 + 1))
    {
      if d != c {
        HasSuccessor(plan, emitted, b, p, d);
      }
    }
    forall p, d, l2: nat | d in At(b', p) && Unsplit(p) && Made(b', SeqNo(d.l1, l2))
      ensures l2 <= d.l2
    {
      IsNewest(plan, emitted, b, p, d, l2);
    }
    IsThere(b, from, c);
    WasPlanned(plan, emitted, b, c);
    LineageIs(plan, emitted, b');
  }

  // ---- one chunk is worked on -------------------------------------------------------------------

  lemma WorkKeeps(cfg: Config, coarse: seq<Bytes>, plan: seq<seq<Bytes>>, s: State, s': State,
                  pool: Pool, t: nat, from: Place, to: Place)
    requires Sane(cfg) && Holds(cfg, coarse, plan, s) && WorkStep(cfg, s, s', pool, t, from, to)
    requires !s'.fault && s'.records == s.records && TableGrows(s.mem, s'.mem)
    requires Unique(s'.mem.buf) && Shapes(cfg, plan, s'.mem) && TableOk(cfg, plan, s'.mem)
    requires Lineage(plan, Emitted(coarse, s.frag), s'.mem.buf)
    ensures Holds(cfg, coarse, plan, s')
  {
    hide Unique, Shapes, TableOk, RecordsOk, Sorted, Lineage, ControlOk, PrefixStable, Lossless, TableGrows;
    RecordsKept(cfg, plan, s.mem, s'.mem, s.records);
    SameStage(s, s');
    WorkControl(cfg, s, s', pool, t, from, to);
  }

  /** The first chunk of `from` goes to `to`, with its object changed. */
  ghost predicate Worked(m: Memory, m': Memory, from: Place, to: Place) {
    && from != to && At(m.buf, from) != [] && m'.buf == Move(m.buf, from, 0, 1, to)
    && At(m.buf, from)[0] in m.heap && At(m.buf, from)[0] in m'.heap
    && m'.heap == m.heap[At(m.buf, from)[0] := m'.heap[At(m.buf, from)[0]]]
    && TableGrows(m, m')
  }

  lemma WorkedOthers(m: Memory, m': Memory, from: Place, to: Place)
    requires Unique(m.buf) && Worked(m, m', from, to)
    ensures OthersStay(m, m', {At(m.buf, from)[0]}) && Unique(m'.buf)
    ensures forall d :: Made(m.buf, d) <==> Made(m'.buf, d)
    ensures forall p :: At(m.buf, from)[0] in At(m'.buf, p) <==> p == to
  {
    hide Unique, Made;
    MoveFirst(m.buf, from, to);
  }

  lemma WorkedShapes(cfg: Config, plan: seq<seq<Bytes>>, m: Memory, m': Memory, from: Place, to: Place)
    requires PrefixStable(cfg.seg) && Unique(m.buf) && Shapes(cfg, plan, m) && Worked(m, m', from, to)
    requires ChunkOk(cfg, plan, m', KindOf(to), At(m.buf, from)[0])
    ensures Shapes(cfg, plan, m') && Unique(m'.buf)
  {
    hide Unique, Shapes, PrefixStable, OthersStay, Made, ChunkOk;
    WorkedOthers(m, m', from, to);
    ShapesAfter(cfg, plan, m, m', {At(m.buf, from)[0]});
  }

  lemma WorkedTable(cfg: Config, plan: seq<seq<Bytes>>, m: Memory, m': Memory, from: Place, to: Place)
    requires Unique(m.buf) && TableOk(cfg, plan, m) && Worked(m, m', from, to) && from != Out && to != Out
    requires forall d :: d in m'.table && (d !in m.table || m.table[d] == At(m.buf, from)[0])
                    ==> EntryOk(cfg, plan, m', d)
    ensures TableOk(cfg, plan, m')
  {
    hide Unique, TableOk, OthersStay, Made, EntryOk, TableGrows;
    WorkedOthers(m, m', from, to);
    TableAfter(cfg, plan, m, m', {At(m.buf, from)[0]});
  }

  /** What is in the first place of a buffer is right. */
  lemma FirstOk(cfg: Config, plan: seq<seq<Bytes>>, m: Memory, p: Place)
    requires PrefixStable(cfg.seg) && Shapes(cfg, plan, m) && At(m.buf, p) != []
    ensures ChunkOk(cfg, plan, m, KindOf(p), At(m.buf, p)[0])
  {
    assert At(m.buf, p)[0] in At(m.buf, p);
  }

  lemma RunningHasRoom(cfg: Config, s: State, pool: Pool, t: nat, p: Place)
    requires cfg.perQueue > 0 && ControlOk(cfg, s) && t < cfg.nthreads && PhaseOf(s.ctl, pool, t) == Running
             && SendPlace(p, pool, t)
    ensures !Full(cfg, s.mem.buf, p)
  {
    assert WorkerOk(cfg, s.mem.buf, s.ctl, pool, t);
  }

  lemma HoldsParts(cfg: Config, coarse: seq<Bytes>, plan: seq<seq<Bytes>>, s: State)
    requires Sane(cfg) && Holds(cfg, coarse, plan, s)
    ensures !s.fault && Unique(s.mem.buf) && Shapes(cfg, plan, s.mem) && TableOk(cfg, plan, s.mem) && ControlOk(cfg, s)
    ensures Lineage(plan, Emitted(coarse, s.frag), s.mem.buf)
  {
  }

  // ---- FragmentRefine ---------------------------------------------------------------------------

  lemma CutStep(cfg: Config, plan: seq<seq<Bytes>>, s: State, t: nat)
    requires Sane(cfg) && CanCut(cfg, s, t) && !s.fault && !Full(cfg, s.mem.buf, Send(Refine, t))
    requires HoldsRest(cfg, plan, s.mem, At(s.mem.buf, Cutting(t))[0])
    ensures var s' := CutOne(cfg, s, t);
            && !s'.fault && s'.records == s.records
            && WorkStep(cfg, s, s', Refine, t, Cutting(t), Send(Refine, t))
  {
    hide PrefixStable, Lossless, Chunks;
  }

  lemma CutLastObject(cfg: Config, plan: seq<seq<Bytes>>, s: State, t: nat)
    requires Sane(cfg) && CanCut(cfg, s, t) && !Full(cfg, s.mem.buf, Send(Refine, t))
    requires HoldsRest(cfg, plan, s.mem, At(s.mem.buf, Cutting(t))[0])
    requires var data := s.mem.heap[At(s.mem.buf, Cutting(t))[0]].data.value; cfg.seg(data) == |data|
    ensures var c, m' := At(s.mem.buf, Cutting(t))[0], CutOne(cfg, s, t).mem;
            && Worked(s.mem, m', Cutting(t), Send(Refine, t)) && m'.table == s.mem.table
            && ChunkOk(cfg, plan, m', Fresh, c) && IsLast(plan, c)
  {
    hide PrefixStable, Lossless, Chunks;
    CutFinds(cfg, plan, s.mem, At(s.mem.buf, Cutting(t))[0]);
  }

  lemma CutLastKeeps(cfg: Config, coarse: seq<Bytes>, plan: seq<seq<Bytes>>, s: State, t: nat)
    requires Sane(cfg) && Holds(cfg, coarse, plan, s) && CanCut(cfg, s, t)
    requires HoldsRest(cfg, plan, s.mem, At(s.mem.buf, Cutting(t))[0])
    requires var data := s.mem.heap[At(s.mem.buf, Cutting(t))[0]].data.value; cfg.seg(data) == |data|
    ensures Holds(cfg, coarse, plan, CutOne(cfg, s, t))
  {
    hide Holds, Unique, Shapes, TableOk, Lineage, ControlOk, PrefixStable, Lossless, Made;
    HoldsParts(cfg, coarse, plan, s);
    var c, s' := At(s.mem.buf, Cutting(t))[0], CutOne(cfg, s, t);
    RunningHasRoom(cfg, s, Refine, t, Send(Refine, t));
    UnlockedIsNoEntry(cfg, plan, s.mem, c);
    CutStep(cfg, plan, s, t);
    CutLastObject(cfg, plan, s, t);
    hide CutOne, WorkStep, HoldsRest;
    WorkedShapes(cfg, plan, s.mem, s'.mem, Cutting(t), Send(Refine, t));
    WorkedTable(cfg, plan, s.mem, s'.mem, Cutting(t), Send(Refine, t));
    SettleKeepsLineage(plan, Emitted(coarse, s.frag), s.mem.buf, Cutting(t), Send(Refine, t));
    WorkKeeps(cfg, coarse, plan, s, s', Refine, t, Cutting(t), Send(Refine, t));
  }

  lemma CutInsideStep(cfg: Config, plan: seq<seq<Bytes>>, s: State, t: nat)
    requires Sane(cfg) && CanCut(cfg, s, t) && !s.fault && !Full(cfg, s.mem.buf, Send(Refine, t))
    requires Unique(s.mem.buf) && CutsInside(cfg, plan, s.mem, t)
    ensures CutOne(cfg, s, t).mem == CutInside(cfg, s.mem, t) && TableGrows(s.mem, CutInside(cfg, s.mem, t))
    ensures Unique(CutInside(cfg, s.mem, t).buf)
    ensures var c := At(s.mem.buf, Cutting(t))[0];
            && InPlan(plan, SeqNo(c.l1, c.l2 + 1)) && HoldsRest(cfg, plan, s.mem, c)
            && CutInside(cfg, s.mem, t).buf == Append(Move(s.mem.buf, Cutting(t), 0, 1, Send(Refine, t)),
                                                      Cutting(t), SeqNo(c.l1, c.l2 + 1))
  {
    hide Unique, PrefixStable, Lossless, Made;
    CutFinds(cfg, plan, s.mem, At(s.mem.buf, Cutting(t))[0]);
    assert Unique(CutInside(cfg, s.mem, t).buf) by {
      CutInsideBuffers(s.mem.buf, t);
    }
  }

  lemma CutInsideKeeps(cfg: Config, coarse: seq<Bytes>, plan: seq<seq<Bytes>>, s: State, t: nat)
    requires Sane(cfg) && Holds(cfg, coarse, plan, s) && CanCut(cfg, s, t) && CutsInside(cfg, plan, s.mem, t)
    ensures Holds(cfg, coarse, plan, CutOne(cfg, s, t))
  {
    hide Holds, Unique, Shapes, TableOk, Lineage, ControlOk, PrefixStable, Lossless, Made, CutOne, CutsInside,
         CutInside, Full, WorkStep;
    HoldsParts(cfg, coarse, plan, s);
    RunningHasRoom(cfg, s, Refine, t, Send(Refine, t));
    CutInsideStep(cfg, plan, s, t);
    CutStep(cfg, plan, s, t);
    hide HoldsRest;
    CutInsideShapes(cfg, plan, s.mem, t);
    CutInsideTable(cfg, plan, s.mem, t);
    CutInsideLineage(plan, Emitted(coarse, s.frag), s.mem.buf, t);
    WorkKeeps(cfg, coarse, plan, s, CutOne(cfg, s, t), Refine, t, Cutting(t), Send(Refine, t));
  }

  lemma CutKeeps(cfg: Config, coarse: seq<Bytes>, plan: seq<seq<Bytes>>, s: State, t: nat)
    requires Sane(cfg) && Holds(cfg, coarse, plan, s) && CanCut(cfg, s, t)
    ensures Holds(cfg, coarse, plan, CutOne(cfg, s, t))
  {
    hide Holds, Unique, Shapes, TableOk, Lineage, ControlOk, PrefixStable, Lossless, Made;
    HoldsParts(cfg, coarse, plan, s);
    FirstOk(cfg, plan, s.mem, Cutting(t));
    CutFinds(cfg, plan, s.mem, At(s.mem.buf, Cutting(t))[0]);
    var data := s.mem.heap[At(s.mem.buf, Cutting(t))[0]].data.value;
    if cfg.seg(data) < |data| {
      NextIsNew(plan, Emitted(coarse, s.frag), s.mem.buf, t);
      CutInsideKeeps(cfg, coarse, plan, s, t);
    } else {
      CutLastKeeps(cfg, coarse, plan, s, t);
    }
  }

  // ---- Deduplicate ------------------------------------------------------------------------------

  /** A digest the table does not know has not been written. */
  lemma UnknownIsUnwritten(cfg: Config, plan: seq<seq<Bytes>>, m: Memory, d: Bytes)
    requires PrefixStable(cfg.seg) && Shapes(cfg, plan, m) && d !in m.table
    ensures !DigestWritten(cfg, plan, At(m.buf, Out), d)
  {
    forall c | c in At(m.buf, Out)
      ensures InPlan(plan, c) && DigestAt(cfg, plan, c) != d
    {
      assert ChunkOk(cfg, plan, m, KindOf(Out), c);
    }
  }

  /** What sub_Deduplicate does to the object. */
  ghost predicate DedupDone(cfg: Config, m: Memory, m': Memory, t: nat, to: Place, c: SeqNo, d: Bytes) {
    && Worked(m, m', Recv(Deduplicate, t), to)
    && m'.table == (if d in m.table then m.table else m.table[d := c])
    && c in m.heap && c in m'.heap
    && m'.heap[c] == if d in m.table
                     then m.heap[c].(sha1 := d, isDuplicate := true, original := m.table[d], data := None)
                     else m.heap[c].(sha1 := d, isDuplicate := false, lockReady := true)
  }

  lemma DedupDoes(cfg: Config, plan: seq<seq<Bytes>>, s: State, t: nat)
    requires CanWork(cfg, s, Deduplicate, t) && !DedupOne(cfg, s, t).fault && !s.fault
    requires HoldsPiece(plan, s.mem, At(s.mem.buf, Recv(Deduplicate, t))[0])
    ensures var c := At(s.mem.buf, Recv(Deduplicate, t))[0];
            var d := DigestAt(cfg, plan, c);
            DedupDone(cfg, s.mem, DedupOne(cfg, s, t).mem, t,
                      if d in s.mem.table then SendDup(t) else Send(Deduplicate, t), c, d)
  {
    hide Full;
  }

  lemma DedupChunk(cfg: Config, plan: seq<seq<Bytes>>, m: Memory, m': Memory, t: nat, to: Place, c: SeqNo)
    requires PrefixStable(cfg.seg) && HoldsPiece(plan, m, c) && c in m'.heap
    requires DedupDone(cfg, m, m', t, to, c, DigestAt(cfg, plan, c))
    requires to == if DigestAt(cfg, plan, c) in m.table then SendDup(t) else Send(Deduplicate, t)
    ensures ChunkOk(cfg, plan, m', KindOf(to), c)
  {
    hide PrefixStable, Worked;
  }

  /** Both branches of sub_Deduplicate leave the chunk and the table as they should be. */
  lemma DedupObject(cfg: Config, plan: seq<seq<Bytes>>, s: State, t: nat)
    requires Sane(cfg) && CanWork(cfg, s, Deduplicate, t) && !DedupOne(cfg, s, t).fault && !s.fault
    requires HoldsPiece(plan, s.mem, At(s.mem.buf, Recv(Deduplicate, t))[0])
    ensures var c, m' := At(s.mem.buf, Recv(Deduplicate, t))[0], DedupOne(cfg, s, t).mem;
            var to := if DigestAt(cfg, plan, c) in s.mem.table then SendDup(t) else Send(Deduplicate, t);
            && Worked(s.mem, m', Recv(Deduplicate, t), to) && ChunkOk(cfg, plan, m', KindOf(to), c)
            && m'.table == if DigestAt(cfg, plan, c) in s.mem.table then s.mem.table
                           else s.mem.table[DigestAt(cfg, plan, c) := c]
  {
    hide PrefixStable, Lossless, DedupOne, ChunkOk;
    var c := At(s.mem.buf, Recv(Deduplicate, t))[0];
    DedupDoes(cfg, plan, s, t);
    DedupChunk(cfg, plan, s.mem, DedupOne(cfg, s, t).mem, t,
               if DigestAt(cfg, plan, c) in s.mem.table then SendDup(t) else Send(Deduplicate, t), c);
  }

  lemma DedupStep(cfg: Config, s: State, t: nat, to: Place)
    requires cfg.perQueue > 0 && CanWork(cfg, s, Deduplicate, t) && !s.fault
    requires var c := At(s.mem.buf, Recv(Deduplicate, t))[0];
             && c in s.mem.heap && s.mem.heap[c].data.Some?
             && to == if cfg.codec.digest(s.mem.heap[c].data.value) in s.mem.table then SendDup(t)
                      else Send(Deduplicate, t)
    requires !Full(cfg, s.mem.buf, to)
    ensures var s' := DedupOne(cfg, s, t);
            !s'.fault && s'.records == s.records && WorkStep(cfg, s, s', Deduplicate, t, Recv(Deduplicate, t), to)
  {
  }

  lemma DedupTable(cfg: Config, plan: seq<seq<Bytes>>, m: Memory, m': Memory, from: Place, to: Place)
    requires PrefixStable(cfg.seg) && Unique(m.buf) && Shapes(cfg, plan, m) && TableOk(cfg, plan, m)
    requires Worked(m, m', from, to) && from != Out && to != Out
    requires !m.heap[At(m.buf, from)[0]].lockReady && InPlan(plan, At(m.buf, from)[0])
    requires var d := DigestAt(cfg, plan, At(m.buf, from)[0]);
             m'.table == m.table || (d !in m.table && m'.table == m.table[d := At(m.buf, from)[0]]
                                     && ChunkOk(cfg, plan, m', Owned, At(m.buf, from)[0]))
    ensures TableOk(cfg, plan, m')
  {
    hide Unique, Shapes, TableOk, PrefixStable;
    var c := At(m.buf, from)[0];
    UnlockedIsNoEntry(cfg, plan, m, c);
    WorkedOthers(m, m', from, to);
    forall d | d in m'.table && (d !in m.table || m.table[d] == c)
      ensures EntryOk(cfg, plan, m', d)
    {
      assert c in At(m'.buf, to);
      UnknownIsUnwritten(cfg, plan, m, d);
    }
    WorkedTable(cfg, plan, m, m', from, to);
  }

  lemma DedupKeeps(cfg: Config, coarse: seq<Bytes>, plan: seq<seq<Bytes>>, s: State, t: nat)
    requires Sane(cfg) && Holds(cfg, coarse, plan, s) && CanWork(cfg, s, Deduplicate, t)
    ensures Holds(cfg, coarse, plan, DedupOne(cfg, s, t))
  {
    hide Holds, Unique, Shapes, TableOk, Lineage, ControlOk, PrefixStable, Lossless, Made;
    HoldsParts(cfg, coarse, plan, s);
    var from, s' := Recv(Deduplicate, t), DedupOne(cfg, s, t);
    var c := At(s.mem.buf, from)[0];
    FirstOk(cfg, plan, s.mem, from);
    RunningHasRoom(cfg, s, Deduplicate, t, Send(Deduplicate, t));
    RunningHasRoom(cfg, s, Deduplicate, t, SendDup(t));
    var to := if DigestAt(cfg, plan, c) in s.mem.table then SendDup(t) else Send(Deduplicate, t);
    DedupStep(cfg, s, t, to);
    DedupObject(cfg, plan, s, t);
    assert !s.mem.heap[c].lockReady && InPlan(plan, c);
    hide DedupOne, WorkStep, Full, ChunkOk, HoldsPiece;
    DedupTable(cfg, plan, s.mem, s'.mem, from, to);
    WorkedShapes(cfg, plan, s.mem, s'.mem, from, to);
    MoveKeepsLineage(plan, Emitted(coarse, s.frag), s.mem.buf, from, 0, 1, to);
    WorkKeeps(cfg, coarse, plan, s, s', Deduplicate, t, from, to);
  }

  // ---- Compress ---------------------------------------------------------------------------------

  lemma CompressObject(cfg: Config, plan: seq<seq<Bytes>>, s: State, t: nat)
    requires Sane(cfg) && CanWork(cfg, s, Compress, t) && !s.fault && !Full(cfg, s.mem.buf, Send(Compress, t))
    requires ChunkOk(cfg, plan, s.mem, Owned, At(s.mem.buf, Recv(Compress, t))[0])
    ensures var c, s' := At(s.mem.buf, Recv(Compress, t))[0], CompressOne(cfg, s, t);
            && !s'.fault && s'.records == s.records
            && WorkStep(cfg, s, s', Compress, t, Recv(Compress, t), Send(Compress, t))
            && Worked(s.mem, s'.mem, Recv(Compress, t), Send(Compress, t)) && s'.mem.table == s.mem.table
            && IsOwner(cfg, plan, s'.mem, c) && IsPacked(cfg, plan, s'.mem, c)
               && s'.mem.heap[c].state == StateCompressed
  {
    hide PrefixStable, Lossless;
  }

  /** The entry of a chunk that was uncompressed and now is compressed. */
  lemma CompressEntry(cfg: Config, plan: seq<seq<Bytes>>, m: Memory, m': Memory, d: Bytes)
    requires d in m.table && EntryOk(cfg, plan, m, d) && m.heap[m.table[d]].state == StateUncompressed
    requires m'.table == m.table && At(m'.buf, Out) == At(m.buf, Out) && Made(m'.buf, m.table[d])
    requires IsOwner(cfg, plan, m', m.table[d]) && m'.heap[m.table[d]].state == StateCompressed
    ensures EntryOk(cfg, plan, m', d)
  {
  }

  lemma IsEntryOk(cfg: Config, plan: seq<seq<Bytes>>, m: Memory, d: Bytes)
    requires TableOk(cfg, plan, m) && d in m.table
    ensures EntryOk(cfg, plan, m, d)
  {
  }

  lemma CompressTable(cfg: Config, plan: seq<seq<Bytes>>, m: Memory, m': Memory, from: Place, to: Place)
    requires Unique(m.buf) && TableOk(cfg, plan, m) && Worked(m, m', from, to) && from != Out && to != Out
    requires var c := At(m.buf, from)[0];
             m'.table == m.table && m.heap[c].state == StateUncompressed
             && IsOwner(cfg, plan, m', c) && m'.heap[c].state == StateCompressed
    ensures TableOk(cfg, plan, m')
  {
    hide Unique, TableOk, EntryOk, Made, IsOwner, TableGrows;
    var c := At(m.buf, from)[0];
    WorkedOthers(m, m', from, to);
    forall d | d in m'.table && (d !in m.table || m.table[d] == c)
      ensures EntryOk(cfg, plan, m', d)
    {
      IsEntryOk(cfg, plan, m, d);
      IsThere(m'.buf, to, c);
      CompressEntry(cfg, plan, m, m', d);
    }
    WorkedTable(cfg, plan, m, m', from, to);
  }

  lemma CompressKeeps(cfg: Config, coarse: seq<Bytes>, plan: seq<seq<Bytes>>, s: State, t: nat)
    requires Sane(cfg) && Holds(cfg, coarse, plan, s) && CanWork(cfg, s, Compress, t)
    ensures Holds(cfg, coarse, plan, CompressOne(cfg, s, t))
  {
    hide Holds, Unique, Shapes, TableOk, Lineage, ControlOk, PrefixStable, Lossless, Made;
    HoldsParts(cfg, coarse, plan, s);
    var from, to, s' := Recv(Compress, t), Send(Compress, t), CompressOne(cfg, s, t);
    FirstOk(cfg, plan, s.mem, from);
    RunningHasRoom(cfg, s, Compress, t, to);
    CompressObject(cfg, plan, s, t);
    hide CompressOne, WorkStep;
    CompressTable(cfg, plan, s.mem, s'.mem, from, to);
    WorkedShapes(cfg, plan, s.mem, s'.mem, from, to);
    MoveKeepsLineage(plan, Emitted(coarse, s.frag), s.mem.buf, from, 0, 1, to);
    hide ChunkOk, IsOwner, IsPacked;
    WorkKeeps(cfg, coarse, plan, s, s', Compress, t, from, to);
  }

  // ---- moves ------------------------------------------------------------------------------------

  /** A step that only moves chunks between places where they are equally right. */
  lemma MoveKeeps(cfg: Config, coarse: seq<Bytes>, plan: seq<seq<Bytes>>, s: State, s': State,
                  from: Place, lo: nat, hi: nat, to: Place)
    requires Sane(cfg) && Holds(cfg, coarse, plan, s) && ControlOk(cfg, s') && !s'.fault
    requires lo <= hi <= |At(s.mem.buf, from)| && from != to && Fits(KindOf(from), KindOf(to)) && Apart(from)
             && Apart(to)
    requires from != FragSend && to != FragSend
    requires s'.mem == s.mem.(buf := Move(s.mem.buf, from, lo, hi, to)) && s'.records == s.records && s'.frag == s.frag
    requires s'.ro.next == s.ro.next && s'.ro.counts == s.ro.counts
    ensures Holds(cfg, coarse, plan, s')
  {
    hide Unique, Shapes, TableOk, RecordsOk, Sorted, Lineage, ControlOk, PrefixStable, Lossless;
    MoveKeepsData(cfg, plan, s, s', from, lo, hi, to);
    MoveKeepsLineage(plan, Emitted(coarse, s.frag), s.mem.buf, from, lo, hi, to);
  }

  /** A step that changes neither buffers nor chunks. */
  lemma ControlKeeps(cfg: Config, coarse: seq<Bytes>, plan: seq<seq<Bytes>>, s: State, s': State)
    requires Sane(cfg) && Holds(cfg, coarse, plan, s) && ControlOk(cfg, s') && !s'.fault
    requires s'.mem == s.mem && s'.records == s.records && s'.frag == s.frag
    requires s'.ro.next == s.ro.next && s'.ro.counts == s.ro.counts
    ensures Holds(cfg, coarse, plan, s')
  {
    hide Unique, Shapes, TableOk, RecordsOk, Sorted, Lineage, ControlOk, PrefixStable, Lossless;
    SameStage(s, s');
  }

  lemma FetchKeeps(cfg: Config, coarse: seq<Bytes>, plan: seq<seq<Bytes>>, s: State, pool: Pool, t: nat, n: nat)
    requires Sane(cfg) && Holds(cfg, coarse, plan, s) && CanFetch(cfg, s, pool, t, n)
    ensures Holds(cfg, coarse, plan, Fetch(cfg, s, pool, t, n))
  {
    hide DataOk, Lineage, ControlOk, PrefixStable, Lossless, FragOk;
    FetchControl(cfg, s, pool, t, n);
    MoveKeeps(cfg, coarse, plan, s, Fetch(cfg, s, pool, t, n), Queue(InFeed(pool), QueueFor(cfg, t)), 0, n, Recv(pool,
              t));
  }

  lemma TakeKeeps(cfg: Config, coarse: seq<Bytes>, plan: seq<seq<Bytes>>, s: State, t: nat)
    requires Sane(cfg) && Holds(cfg, coarse, plan, s) && CanTake(cfg, s, t)
    ensures Holds(cfg, coarse, plan, TakeCoarse(s, t))
  {
    hide DataOk, Lineage, ControlOk, PrefixStable, Lossless, FragOk;
    TakeControl(cfg, s, t);
    MoveKeeps(cfg, coarse, plan, s, TakeCoarse(s, t), Recv(Refine, t), 0, 1, Cutting(t));
  }

  lemma ExitKeeps(cfg: Config, coarse: seq<Bytes>, plan: seq<seq<Bytes>>, s: State, pool: Pool, t: nat)
    requires Sane(cfg) && Holds(cfg, coarse, plan, s) && CanExit(cfg, s, pool, t)
    ensures Holds(cfg, coarse, plan, Exit(s, pool, t))
  {
    hide DataOk, Lineage, ControlOk, PrefixStable, Lossless, FragOk;
    ExitControl(cfg, s, pool, t);
    ControlKeeps(cfg, coarse, plan, s, Exit(s, pool, t));
  }

  lemma PushKeeps(cfg: Config, coarse: seq<Bytes>, plan: seq<seq<Bytes>>, s: State, pool: Pool, t: nat, p: Place,
                  n: nat)
    requires Sane(cfg) && Holds(cfg, coarse, plan, s) && CanPush(cfg, s, pool, t, p, n)
    ensures Holds(cfg, coarse, plan, Push(cfg, s, pool, t, p, n))
  {
    hide DataOk, Lineage, ControlOk, PrefixStable, Lossless, FragOk;
    PushControl(cfg, s, pool, t, p, n);
    MoveKeeps(cfg, coarse, plan, s, Push(cfg, s, pool, t, p, n), p, 0, n, Target(cfg, p));
  }

  lemma StopKeeps(cfg: Config, coarse: seq<Bytes>, plan: seq<seq<Bytes>>, s: State, pool: Pool, t: nat)
    requires Sane(cfg) && Holds(cfg, coarse, plan, s) && CanStop(cfg, s, pool, t)
    ensures Holds(cfg, coarse, plan, Stop(cfg, s, pool, t))
  {
    hide DataOk, Lineage, ControlOk, PrefixStable, Lossless, FragOk;
    StopControl(cfg, s, pool, t);
    ControlKeeps(cfg, coarse, plan, s, Stop(cfg, s, pool, t));
  }
}
