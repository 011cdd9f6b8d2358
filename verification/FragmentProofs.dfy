/** The steps of the Fragment thread keep the invariant. */
module FragmentProofs {
  import opened Types
  import opened Chunking
  import opened Archive
  import opened ReorderSpec
  import opened Buffers
  import opened QueueSetup
  import opened Pipeline
  import opened Invariant
  import opened MoveProofs
  import opened FrontProofs
  import opened ControlProofs

  /** Every coarse chunk of the plan is cut again from its beginning. */
  ghost predicate Refines(cfg: Config, coarse: seq<Bytes>, plan: seq<seq<Bytes>>)
    requires PrefixStable(cfg.seg)
  {
    && |plan| == |coarse|
    && (forall a :: 0 <= a < |coarse| ==> coarse[a] != [] && plan[a] == Chunks(cfg.seg, coarse[a]))
    && (forall a :: 0 <= a < |coarse| ==> plan[a] != [])
  }

  lemma RefinesInput(cfg: Config, input: Bytes)
    requires PrefixStable(cfg.seg)
    ensures Refines(cfg, CoarseChunks(cfg.seg, cfg.jump, input), TwoLevel(cfg.seg, cfg.jump, input))
  {
    CoarseCutIsPrefixStable(cfg.seg, cfg.jump);
    ChunksPartition(CoarseCut(cfg.seg, cfg.jump), input);
    var coarse := CoarseChunks(cfg.seg, cfg.jump, input);
    forall a | 0 <= a < |coarse|
      ensures Chunks(cfg.seg, coarse[a]) != []
    {
      ChunksPartition(cfg.seg, coarse[a]);
    }
  }

  /** Sending the coarse chunk that is next. */
  lemma Sends(cfg: Config, coarse: seq<Bytes>, plan: seq<seq<Bytes>>, s: State, data: Bytes, frag: Frag)
    requires Sane(cfg) && Refines(cfg, coarse, plan)
    requires Holds(cfg, coarse, plan, s) && Live(s.frag) && !Full(cfg, s.mem.buf, FragSend)
    requires s.frag.l1 < |coarse| && coarse[s.frag.l1] == data
    requires Emitted(coarse, frag) == s.frag.l1 + 1
    requires FragOk(cfg, coarse, frag, |At(s.mem.buf, FragSend)| + 1) && !frag.phase.Terminating?
    ensures Holds(cfg, coarse, plan, Insert(cfg, s, FragSend, SeqNo(s.frag.l1, 0), data).(frag := frag))
  {
    hide Unique, Shapes, TableOk, RecordsOk, Sorted, Lineage, ControlOk, PrefixStable, Lossless;
    var c := SeqNo(s.frag.l1, 0);
    var s' := Insert(cfg, s, FragSend, c, data).(frag := frag);
    NotMadeYet(plan, s.frag.l1, s.mem.buf);
    InsertKeepsData(cfg, plan, s, c, data);
    InsertKeepsLineage(plan, s.frag.l1, s.mem.buf);
    assert StageOf(s') == StageOf(Insert(cfg, s, FragSend, c, data));
    FragControl(cfg, s, s');
  }

  /** A change of Fragment's own state that emits nothing. */
  lemma Stays(cfg: Config, coarse: seq<Bytes>, plan: seq<seq<Bytes>>, s: State, frag: Frag)
    requires Sane(cfg) && Holds(cfg, coarse, plan, s) && !s.frag.phase.Terminating?
    requires Emitted(coarse, frag) == Emitted(coarse, s.frag)
    requires FragOk(cfg, coarse, frag, |At(s.mem.buf, FragSend)|)
    requires frag.phase.Terminating? ==> frag.phase.done == 0
    ensures Holds(cfg, coarse, plan, s.(frag := frag))
  {
    hide Unique, Shapes, TableOk, RecordsOk, Sorted, Lineage, ControlOk, PrefixStable, Lossless;
    var s' := s.(frag := frag);
    assert StageOf(s') == StageOf(s);
    FragControl(cfg, s, s');
  }

  lemma NoChunks(seg: Segmenter)
    requires PrefixStable(seg)
    ensures Chunks(seg, []) == []
  {
  }

  lemma OneLeft(coarse: seq<Bytes>, l1: nat, data: Bytes)
    requires l1 <= |coarse| && coarse[l1..] == [data]
    ensures l1 + 1 == |coarse| && coarse[l1] == data
  {
    assert coarse[l1..][0] == coarse[l1];
  }

  lemma FirstOfRest(coarse: seq<Bytes>, l1: nat, data: Bytes, rest: seq<Bytes>)
    requires l1 <= |coarse| && coarse[l1..] == [data] + rest
    ensures l1 < |coarse| && coarse[l1] == data && coarse[l1 + 1..] == rest
  {
    assert coarse[l1..][0] == coarse[l1] && coarse[l1..][1..] == coarse[l1 + 1..];
  }

  lemma FragReadKeeps(cfg: Config, coarse: seq<Bytes>, plan: seq<seq<Bytes>>, s: State)
    requires Sane(cfg) && Refines(cfg, coarse, plan) && Holds(cfg, coarse, plan, s) && s.frag.phase == Reading
    ensures Holds(cfg, coarse, plan, FragRead(cfg, s))
  {
    hide Unique, Shapes, TableOk, RecordsOk, Sorted, Lineage, ControlOk, PrefixStable, Lossless, Refines, Chunks;
    CoarseCutIsPrefixStable(cfg.seg, cfg.jump);
    var cut := CoarseCut(cfg.seg, cfg.jump);
    var f, m := s.frag, Min(cfg.maxbuf, |s.frag.unread|);
    var buffer, unread := f.buffer + f.unread[..m], f.unread[m..];
    assert f.buffer + f.unread == buffer + unread;
    var s' := FragRead(cfg, s);
    if buffer == [] {
      assert buffer + unread == [];
      NoChunks(cut);
      Stays(cfg, coarse, plan, s, s'.frag);
    } else if m == 0 {
      assert f.buffer + f.unread == f.buffer && buffer == f.buffer;
      LastChunk(cut, f.buffer);
      OneLeft(coarse, f.l1, f.buffer);
      Sends(cfg, coarse, plan, s, f.buffer, s'.frag);
    } else {
      Stays(cfg, coarse, plan, s, s'.frag);
    }
  }

  lemma FragSplitKeeps(cfg: Config, coarse: seq<Bytes>, plan: seq<seq<Bytes>>, s: State)
    requires Sane(cfg) && Refines(cfg, coarse, plan) && Holds(cfg, coarse, plan, s) && s.frag.phase == Splitting
    ensures Holds(cfg, coarse, plan, FragSplit(cfg, s))
  {
    hide Unique, Shapes, TableOk, RecordsOk, Sorted, Lineage, ControlOk, PrefixStable, Lossless;
    CoarseCutIsPrefixStable(cfg.seg, cfg.jump);
    var cut := CoarseCut(cfg.seg, cfg.jump);
    var f := s.frag;
    assert CutInRange(cut, f.buffer);
    var offset := cut(f.buffer);
    var s' := FragSplit(cfg, s);
    if offset < |f.buffer| {
      FirstChunk(cut, f.buffer, f.unread);
      FirstOfRest(coarse, f.l1, f.buffer[..offset], Chunks(cut, f.buffer[offset..] + f.unread));
      Sends(cfg, coarse, plan, s, f.buffer[..offset], s'.frag);
    } else {
      Stays(cfg, coarse, plan, s, s'.frag);
    }
  }

  lemma FragPushKeeps(cfg: Config, coarse: seq<Bytes>, plan: seq<seq<Bytes>>, s: State, n: nat)
    requires Sane(cfg) && Holds(cfg, coarse, plan, s) && CanFragPush(cfg, s, n)
    ensures Holds(cfg, coarse, plan, FragPush(cfg, s, n))
  {
    hide Unique, Shapes, TableOk, RecordsOk, Sorted, Lineage, ControlOk, PrefixStable, Lossless;
    var s' := FragPush(cfg, s, n);
    var to := Queue(ToRefine, s.frag.qid);
    MoveKeepsData(cfg, plan, s, s', FragSend, 0, n, to);
    MoveKeepsLineage(plan, Emitted(coarse, s.frag), s.mem.buf, FragSend, 0, n, to);
    FragPushControl(cfg, s, n);
    NextQueueIs(cfg, s.frag.qid);
  }

  lemma FragTerminateKeeps(cfg: Config, coarse: seq<Bytes>, plan: seq<seq<Bytes>>, s: State)
    requires Sane(cfg) && Holds(cfg, coarse, plan, s)
    requires s.frag.phase.Terminating? && s.frag.phase.done < NQueues(cfg)
    ensures Holds(cfg, coarse, plan, FragTerminate(s))
  {
    hide Unique, Shapes, TableOk, RecordsOk, Sorted, Lineage, ControlOk, PrefixStable, Lossless;
    assert StageOf(FragTerminate(s)) == StageOf(s);
    FragTerminateControl(cfg, s);
  }
}
