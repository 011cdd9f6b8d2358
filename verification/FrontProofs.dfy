/** Fragment and FragmentRefine: where chunk objects come from. */
module FrontProofs {
  import opened Types
  import opened Chunking
  import opened Archive
  import opened ReorderSpec
  import opened Buffers
  import opened QueueSetup
  import opened Pipeline
  import opened Invariant
  import opened MoveProofs

  /** Nothing about a chunk changes when its object stays the same and the table only grows. */
  ghost predicate SameObject(m: Memory, m': Memory, c: SeqNo) {
    && (c in m.heap <==> c in m'.heap) && (c in m.heap ==> m'.heap[c] == m.heap[c])
  }

  ghost predicate TableGrows(m: Memory, m': Memory) {
    forall d :: d in m.table ==> d in m'.table && m'.table[d] == m.table[d]
  }

  lemma ChunkKept(cfg: Config, plan: seq<seq<Bytes>>, m: Memory, m': Memory, kind: Kind, c: SeqNo)
    requires PrefixStable(cfg.seg) && ChunkOk(cfg, plan, m, kind, c)
    requires SameObject(m, m', c) && TableGrows(m, m')
    ensures ChunkOk(cfg, plan, m', kind, c)
  {
  }

  lemma EntryKept(cfg: Config, plan: seq<seq<Bytes>>, m: Memory, m': Memory, d: Bytes)
    requires d in m.table && EntryOk(cfg, plan, m, d)
    requires SameObject(m, m', m.table[d]) && TableGrows(m, m')
    requires At(m'.buf, Out) == At(m.buf, Out) && Made(m'.buf, m.table[d])
    ensures EntryOk(cfg, plan, m', d)
  {
  }

  lemma RecordsKept(cfg: Config, plan: seq<seq<Bytes>>, m: Memory, m': Memory, records: seq<Record>)
    requires RecordsOk(cfg, plan, m, records)
    requires TableGrows(m, m') && At(m'.buf, Out) == At(m.buf, Out)
    ensures RecordsOk(cfg, plan, m', records)
  {
    forall i | 0 <= i < |records|
      ensures RecordOk(cfg, plan, m', records, i)
    {
      assert RecordOk(cfg, plan, m, records, i);
    }
  }

  /** An object that has not been deduplicated is not in the table. */
  lemma UnlockedIsNoEntry(cfg: Config, plan: seq<seq<Bytes>>, m: Memory, c: SeqNo)
    requires TableOk(cfg, plan, m) && c in m.heap && !m.heap[c].lockReady
    ensures forall d :: d in m.table ==> m.table[d] != c
  {
    forall d | d in m.table
      ensures m.table[d] != c
    {
      assert EntryOk(cfg, plan, m, d);
    }
  }

  // ---- Fragment ---------------------------------------------------------------------------------

  /** A new coarse chunk: nobody has its number yet, and it holds all pieces of its row. */
  lemma InsertKeepsData(cfg: Config, plan: seq<seq<Bytes>>, s: State, c: SeqNo, data: Bytes)
    requires PrefixStable(cfg.seg) && DataOk(cfg, plan, s) && !Made(s.mem.buf, c)
    requires c.l2 == 0 && InPlan(plan, c) && data != [] && Chunks(cfg.seg, data) == plan[c.l1]
    requires !Full(cfg, s.mem.buf, FragSend)
    ensures DataOk(cfg, plan, Insert(cfg, s, FragSend, c, data))
  {
    var s' := Insert(cfg, s, FragSend, c, data);
    AppendKeepsUnique(s.mem.buf, FragSend, c);
    InsertKeepsShapes(cfg, plan, s.mem, s'.mem, c, data);
    InsertKeepsTable(cfg, plan, s.mem, s'.mem, c, data);
    RecordsKept(cfg, plan, s.mem, s'.mem, s.records);
    SameStage(s, s');
  }

  lemma InsertKeepsShapes(cfg: Config, plan: seq<seq<Bytes>>, m: Memory, m': Memory, c: SeqNo, data: Bytes)
    requires PrefixStable(cfg.seg) && Unique(m.buf) && Shapes(cfg, plan, m) && !Made(m.buf, c)
    requires c.l2 == 0 && InPlan(plan, c) && data != [] && Chunks(cfg.seg, data) == plan[c.l1]
    requires m' == m.(buf := Append(m.buf, FragSend, c), heap := m.heap[c := NewChunk(data)])
    ensures Shapes(cfg, plan, m')
  {
    AppendKeepsUnique(m.buf, FragSend, c);
    forall p, d | d in At(m'.buf, p)
      ensures ChunkOk(cfg, plan, m', KindOf(p), d)
    {
      if d == c {
        assert p == FragSend;
        assert plan[c.l1][0..] == plan[c.l1];
      } else {
        assert d in At(m.buf, p);
        ChunkKept(cfg, plan, m, m', KindOf(p), d);
      }
    }
  }

  lemma InsertKeepsTable(cfg: Config, plan: seq<seq<Bytes>>, m: Memory, m': Memory, c: SeqNo, data: Bytes)
    requires Unique(m.buf) && TableOk(cfg, plan, m) && !Made(m.buf, c)
    requires m' == m.(buf := Append(m.buf, FragSend, c), heap := m.heap[c := NewChunk(data)])
    ensures TableOk(cfg, plan, m')
  {
    AppendKeepsUnique(m.buf, FragSend, c);
    forall d | d in m'.table
      ensures EntryOk(cfg, plan, m', d)
    {
      assert EntryOk(cfg, plan, m, d);
      EntryKept(cfg, plan, m, m', d);
    }
  }

  lemma NotMadeYet(plan: seq<seq<Bytes>>, emitted: nat, b: Buffers)
    requires Lineage(plan, emitted, b)
    ensures !Made(b, SeqNo(emitted, 0))
  {
  }

  lemma SameStage(s: State, s': State)
    requires At(s'.mem.buf, Cache) == At(s.mem.buf, Cache) && At(s'.mem.buf, Hand) == At(s.mem.buf, Hand)
    requires At(s'.mem.buf, Out) == At(s.mem.buf, Out) && s'.ro.next == s.ro.next && s'.ro.counts == s.ro.counts
    ensures StageOf(s') == StageOf(s)
  {
  }

  lemma InsertKeepsLineage(plan: seq<seq<Bytes>>, emitted: nat, b: Buffers)
    requires Unique(b) && Lineage(plan, emitted, b) && emitted < |plan| && plan[emitted] != []
    ensures Lineage(plan, emitted + 1, Append(b, FragSend, SeqNo(emitted, 0)))
  {
    var c, b' := SeqNo(emitted, 0), Append(b, FragSend, SeqNo(emitted, 0));
    NotMadeYet(plan, emitted, b);
    AppendKeepsUnique(b, FragSend, c);
    forall p, d, l2: nat | d in At(b', p) && Unsplit(p) && Made(b', SeqNo(d.l1, l2))
      ensures l2 <= d.l2
    {
      if d != c {
        assert d in At(b, p);
        assert Made(b, d);
        assert Made(b, SeqNo(d.l1, l2));
      }
    }
    forall p, d | d in At(b', p) && !Unsplit(p) && d.l1 < |plan| && d.l2 + 1 < |plan[d.l1]|
      ensures Made(b', SeqNo(d.l1, d.l2 + 1))
    {
      assert d in At(b, p);
      assert Made(b, SeqNo(d.l1, d.l2 + 1));
    }
  }
}
