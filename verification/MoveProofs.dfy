/** Passing chunks on unchanged: from a send buffer to a queue, from a queue to a receive buffer. */
module MoveProofs {
  import opened Types
  import opened Chunking
  import opened Archive
  import opened ReorderSpec
  import opened Buffers
  import opened QueueSetup
  import opened Pipeline
  import opened Invariant

  /** A chunk that is right in one place is right in the other. */
  predicate Fits(from: Kind, to: Kind) {
    from == to || (from == Whole && to == BeingCut) || (from == Packed && to == Late) || (from == Duplicate
       && to == Late)
  }

  lemma FittingOk(cfg: Config, plan: seq<seq<Bytes>>, m: Memory, b': Buffers, from: Kind, to: Kind, c: SeqNo)
    requires PrefixStable(cfg.seg) && ChunkOk(cfg, plan, m, from, c) && Fits(from, to)
    ensures ChunkOk(cfg, plan, m.(buf := b'), to, c)
  {
    hide PrefixStable;
  }

  lemma MoveKeepsShapes(cfg: Config, plan: seq<seq<Bytes>>, m: Memory, from: Place, lo: nat, hi: nat, to: Place)
    requires PrefixStable(cfg.seg) && Unique(m.buf) && Shapes(cfg, plan, m)
    requires lo <= hi <= |At(m.buf, from)| && from != to && Fits(KindOf(from), KindOf(to))
    ensures Shapes(cfg, plan, m.(buf := Move(m.buf, from, lo, hi, to)))
  {
    hide PrefixStable, Unique, ChunkOk, Fits, KindOf;
    var b' := Move(m.buf, from, lo, hi, to);
    MoveMembers(m.buf, from, lo, hi, to);
    forall p, c | c in At(b', p)
      ensures ChunkOk(cfg, plan, m.(buf := b'), KindOf(p), c)
    {
      if p == to && c !in At(m.buf, to) {
        assert c in At(m.buf, from);
        FittingOk(cfg, plan, m, b', KindOf(from), KindOf(to), c);
      } else {
        assert c in At(m.buf, p);
        SameKind(KindOf(p));
        FittingOk(cfg, plan, m, b', KindOf(p), KindOf(p), c);
      }
    }
  }

  lemma SameKind(kind: Kind)
    ensures Fits(kind, kind)
  {
  }

  lemma MoveKeepsTable(cfg: Config, plan: seq<seq<Bytes>>, m: Memory, from: Place, lo: nat, hi: nat, to: Place)
    requires Unique(m.buf) && TableOk(cfg, plan, m)
    requires lo <= hi <= |At(m.buf, from)| && from != to && from != Out && to != Out
    ensures TableOk(cfg, plan, m.(buf := Move(m.buf, from, lo, hi, to)))
  {
    var m' := m.(buf := Move(m.buf, from, lo, hi, to));
    forall d | d in m'.table
      ensures EntryOk(cfg, plan, m', d)
    {
      assert EntryOk(cfg, plan, m, d);
      MoveKeepsEntry(cfg, plan, m, from, lo, hi, to, d);
    }
  }

  lemma MoveKeepsEntry(cfg: Config, plan: seq<seq<Bytes>>, m: Memory, from: Place, lo: nat, hi: nat, to: Place,
                       d: Bytes)
    requires Unique(m.buf) && d in m.table && EntryOk(cfg, plan, m, d)
    requires lo <= hi <= |At(m.buf, from)| && from != to && from != Out && to != Out
    ensures EntryOk(cfg, plan, m.(buf := Move(m.buf, from, lo, hi, to)), d)
  {
    MoveKeepsMade(m.buf, from, lo, hi, to, m.table[d]);
    SameEntry(cfg, plan, m, m.(buf := Move(m.buf, from, lo, hi, to)), d);
  }

  lemma MoveKeepsMade(b: Buffers, from: Place, lo: nat, hi: nat, to: Place, c: SeqNo)
    requires Unique(b) && lo <= hi <= |At(b, from)| && from != to
    ensures Made(b, c) <==> Made(Move(b, from, lo, hi, to), c)
  {
    MoveKeepsUnique(b, from, lo, hi, to);
  }

  lemma SameEntry(cfg: Config, plan: seq<seq<Bytes>>, m: Memory, m': Memory, d: Bytes)
    requires d in m.table && m'.heap == m.heap && m'.table == m.table && At(m'.buf, Out) == At(m.buf, Out)
    requires EntryOk(cfg, plan, m, d) && Made(m'.buf, m.table[d])
    ensures EntryOk(cfg, plan, m', d)
  {
  }

  lemma MoveKeepsRecords(cfg: Config, plan: seq<seq<Bytes>>, m: Memory, records: seq<Record>,
                         from: Place, lo: nat, hi: nat, to: Place)
    requires RecordsOk(cfg, plan, m, records)
    requires lo <= hi <= |At(m.buf, from)| && from != to && from != Out && to != Out
    ensures RecordsOk(cfg, plan, m.(buf := Move(m.buf, from, lo, hi, to)), records)
  {
    var m' := m.(buf := Move(m.buf, from, lo, hi, to));
    forall i | 0 <= i < |records|
      ensures RecordOk(cfg, plan, m', records, i)
    {
      assert RecordOk(cfg, plan, m, records, i);
    }
  }

  lemma MoveKeepsLineage(plan: seq<seq<Bytes>>, emitted: nat, b: Buffers, from: Place, lo: nat, hi: nat, to: Place)
    requires Unique(b) && Lineage(plan, emitted, b)
    requires lo <= hi <= |At(b, from)| && from != to && Unsplit(from) == Unsplit(to)
    ensures Lineage(plan, emitted, Move(b, from, lo, hi, to))
  {
    var b' := Move(b, from, lo, hi, to);
    MoveKeepsUnique(b, from, lo, hi, to);
    forall p, c | c in At(b', p)
      ensures exists q :: c in At(b, q) && Unsplit(q) == Unsplit(p)
    {
      CameFrom(b, from, lo, hi, to, p, c);
    }
    forall p, c | c in At(b', p) && !Unsplit(p) && c.l1 < |plan| && c.l2 + 1 < |plan[c.l1]|
      ensures Made(b', SeqNo(c.l1, c.l2 + 1))
    {
      var q :| c in At(b, q) && Unsplit(q) == Unsplit(p);
      assert Made(b, SeqNo(c.l1, c.l2 + 1));
    }
    forall p, c, l2: nat | c in At(b', p) && Unsplit(p) && Made(b', SeqNo(c.l1, l2))
      ensures l2 <= c.l2
    {
      var q :| c in At(b, q) && Unsplit(q) == Unsplit(p);
      assert Made(b, SeqNo(c.l1, l2));
    }
  }

  lemma CameFrom(b: Buffers, from: Place, lo: nat, hi: nat, to: Place, p: Place, c: SeqNo)
    requires Unique(b) && lo <= hi <= |At(b, from)| && from != to && Unsplit(from) == Unsplit(to)
    requires c in At(Move(b, from, lo, hi, to), p)
    ensures exists q :: c in At(b, q) && Unsplit(q) == Unsplit(p)
  {
    MoveMembers(b, from, lo, hi, to);
    if p == to && c !in At(b, to) {
      assert c in At(b, from);
    } else {
      assert c in At(b, p);
    }
  }

  predicate Apart(p: Place) {
    p != Cache && p != Hand && p != Out
  }

  /** A move away from the reorder stage keeps everything that is said about chunks and records. */
  lemma MoveKeepsData(cfg: Config, plan: seq<seq<Bytes>>, s: State, s': State, from: Place, lo: nat, hi: nat, to: Place)
    requires PrefixStable(cfg.seg) && DataOk(cfg, plan, s)
    requires lo <= hi <= |At(s.mem.buf, from)| && from != to && Fits(KindOf(from), KindOf(to)) && Apart(from)
             && Apart(to)
    requires s'.mem == s.mem.(buf := Move(s.mem.buf, from, lo, hi, to)) && s'.records == s.records
    requires s'.ro.next == s.ro.next && s'.ro.counts == s.ro.counts
    ensures DataOk(cfg, plan, s')
  {
    MoveKeepsUnique(s.mem.buf, from, lo, hi, to);
    MoveKeepsShapes(cfg, plan, s.mem, from, lo, hi, to);
    MoveKeepsTable(cfg, plan, s.mem, from, lo, hi, to);
    MoveKeepsRecords(cfg, plan, s.mem, s.records, from, lo, hi, to);
    assert StageOf(s') == StageOf(s);
  }
}
