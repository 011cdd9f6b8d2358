/** Two runs of the parallel encoder that do not end well: one leaves the array of counts, one gets
    stuck with full queues. */
module WitnessRuns {
  import opened Types
  import opened Chunking
  import opened Archive
  import opened ReorderSpec
  import opened Buffers
  import opened QueueSetup
  import opened Pipeline
  import opened Invariant
  import opened ControlProofs
  import opened FragmentProofs
  import opened WorkProofs
  import opened ReorderProofs
  import opened Runs
  import opened Progress
  import opened Witness

  // ---- a configuration --------------------------------------------------------------------------

  /** Pieces of one byte, but of three bytes behind a 0. */
  function ByteOrThree(): Segmenter {
    (s: Bytes) => if s == [] then 0 else Min(if s[0] == 0 then 3 else 1, |s|)
  }

  /** A digest that tells short pieces apart. */
  function Padded(): Bytes -> Bytes {
    (s: Bytes) => seq(SHA1_LEN, i requires 0 <= i < SHA1_LEN => if i < |s| then s[i] else 0)
  }

  function Small(nthreads: nat, jump: nat): Config {
    Config(PlainCodec(Padded(), None), ByteOrThree(), jump, 8, nthreads, 1, 1, 1, 1, 1, 1, 1, 1, 1)
  }

  lemma SmallIsSane(nthreads: nat, jump: nat)
    requires 1 <= nthreads <= 2
    ensures Sane(Small(nthreads, jump)) && OneEach(Small(nthreads, jump))
  {
    PlainCodecIsLossless(Padded(), None);
    var seg := ByteOrThree();
    forall s: Bytes, t: Bytes
      ensures CutIsStable(seg, s, t)
    {
      if s != [] && s <= t {
        assert t[0] == s[0];
      }
    }
  }

  const RUN := Phases(Running, Running, Running, Running, Running, Running)

  // ---- leaving the array ------------------------------------------------------------------------

  /** Three coarse chunks, the last one a duplicate of the first. */
  const THREE: Bytes := [1, 2, 1]
  const ROWS := Ids(SeqNo(0, 0), SeqNo(1, 0), SeqNo(2, 0), SeqNo(9, 0))

  lemma CutsOfThree()
    ensures var cut := CoarseCut(ByteOrThree(), 0);
            && cut([1, 2, 1]) == 1 && cut([2, 1]) == 1 && cut([1]) == 1
    ensures ByteOrThree()([1]) == 1 && ByteOrThree()([2]) == 1
  {
    assert [1, 2, 1][0..] == [1, 2, 1] && [2, 1][0..] == [2, 1] && [1][0..] == [1];
  }

  lemma DigestsOfThree()
    ensures Padded()([1]) != Padded()([2])
  {
    assert Padded()([1])[0] == 1 && Padded()([2])[0] == 2;
  }

  /** The first chunk reaches Compress. */
  lemma FirstRow() returns (s: State)
    ensures Shows(Small(1, 0), THREE, s, ROWS, Spots(Some(Recv(Compress, 0)), None, None, None), RUN)
    ensures s.frag == Frag(Splitting, 1, [2, 1], [], 2, 0) && s.mem.table == map[Padded()([1]) := SeqNo(0, 0)]
    ensures s.ro == Reorderer(SeqNo(0, 0), Zeros(1), 0, 0, false)
  {
    hide Shows, ByteOrThree, Padded, CoarseCut, Sane;
    var cfg := Small(1, 0);
    SmallIsSane(1, 0);
    CutsOfThree();
    Threads(cfg);
    s := FirstRead(cfg, THREE);
    s := SplitOff(cfg, THREE, s, ROWS, Spots(None, None, None, None), RUN, 0);
    assert THREE[..1] == [1] && THREE[1..] == [2, 1];
    s := FragPushed(cfg, THREE, s, ROWS, Spots(Some(FragSend), None, None, None), RUN, 0);
    s := Refined(cfg, THREE, s, ROWS, Spots(Some(Queue(ToRefine, 0)), None, None, None), RUN, 0, 0, [1]);
    s := Stored(cfg, THREE, s, ROWS, Spots(Some(Recv(Deduplicate, 0)), None, None, None), RUN, 0, 0, [1]);
    s := Fetched(cfg, THREE, s, ROWS, Spots(Some(Queue(ToCompress, 0)), None, None, None), RUN, Compress, 0, 0);
  }

  /** A coarse chunk of one piece goes from its queue to Deduplicate. */
  lemma Refined(cfg: Config, input: Bytes, s: State, ids: Ids, spots: Spots, ph: Phases, t: nat, i: nat, data: Bytes)
      returns (s': State)
    requires Shows(cfg, input, s, ids, spots, ph) && t < cfg.nthreads && i < 4
    requires ph.Get(Refine, t) == Running && ph.Get(Deduplicate, t) == Running
    requires spots.Get(i) == Some(Queue(ToRefine, t)) && spots.Free(Recv(Refine, t)) && spots.Free(Cutting(t))
    requires spots.Free(Send(Refine, t)) && spots.Free(Queue(ToDeduplicate, t)) && spots.Free(Recv(Deduplicate, t))
    requires HasData(s, ids.Get(i), data) && cfg.seg(data) >= |data|
    ensures Shows(cfg, input, s', ids, spots.Set(i, Recv(Deduplicate, t)), ph)
    ensures s'.frag == s.frag && s'.ro == s.ro && s'.mem.table == s.mem.table
    ensures HasData(s', ids.Get(i), data) && OthersSame(s, s', ids.Get(i))
  {
    ShowsOne(cfg, input, s, ids, spots, ph, t);
    hide Shows;
    var s1 := Fetched(cfg, input, s, ids, spots, ph, Refine, t, i);
    var s2 := Taken(cfg, input, s1, ids, spots.Set(i, Recv(Refine, t)), ph, t, i);
    var s3 := CutRest(cfg, input, s2, ids, spots.Set(i, Cutting(t)), ph, t, i, data);
    var pushing := ph.Set(Refine, t, Pushing(Send(Refine, t)));
    var s4 := Pushed(cfg, input, s3, ids, spots.Set(i, Send(Refine, t)), pushing, Refine, t, Send(Refine, t), i);
    s' := Fetched(cfg, input, s4, ids, spots.Set(i, Queue(ToDeduplicate, t)), ph, Deduplicate, t, i);
  }

  lemma ShowsOne(cfg: Config, input: Bytes, s: State, ids: Ids, spots: Spots, ph: Phases, t: nat)
    requires Shows(cfg, input, s, ids, spots, ph) && t < cfg.nthreads
    ensures t < 2 && QueueFor(cfg, t) == t && cfg.perQueue > 0
  {
    Threads(cfg);
  }

  /** A new piece goes from Deduplicate to the queue of Compress. */
  lemma Stored(cfg: Config, input: Bytes, s: State, ids: Ids, spots: Spots, ph: Phases, t: nat, i: nat, data: Bytes)
      returns (s': State)
    requires Shows(cfg, input, s, ids, spots, ph) && t < cfg.nthreads && i < 4 && ph.Get(Deduplicate, t) == Running
    requires spots.Get(i) == Some(Recv(Deduplicate, t)) && spots.Free(Send(Deduplicate, t))
    requires spots.Free(Queue(ToCompress, t))
    requires HasData(s, ids.Get(i), data) && cfg.codec.digest(data) !in s.mem.table
    ensures Shows(cfg, input, s', ids, spots.Set(i, Queue(ToCompress, t)), ph)
    ensures s'.frag == s.frag && s'.ro == s.ro && s'.mem.table == s.mem.table[cfg.codec.digest(data) := ids.Get(i)]
    ensures OthersSame(s, s', ids.Get(i))
  {
    ShowsOne(cfg, input, s, ids, spots, ph, t);
    hide Shows;
    var s1 := DedupedNew(cfg, input, s, ids, spots, ph, t, i, data);
    var pushing := ph.Set(Deduplicate, t, Pushing(Send(Deduplicate, t)));
    s' := Pushed(cfg, input, s1, ids, spots.Set(i, Send(Deduplicate, t)), pushing, Deduplicate, t,
                 Send(Deduplicate, t), i);
  }

  /** A known piece goes from Deduplicate to the queue of Reorder. */
  lemma Passed(cfg: Config, input: Bytes, s: State, ids: Ids, spots: Spots, ph: Phases, t: nat, i: nat, data: Bytes)
      returns (s': State)
    requires Shows(cfg, input, s, ids, spots, ph) && t < cfg.nthreads && i < 4 && ph.Get(Deduplicate, t) == Running
    requires spots.Get(i) == Some(Recv(Deduplicate, t)) && spots.Free(SendDup(t)) && spots.Free(Queue(ToReorder, t))
    requires HasData(s, ids.Get(i), data) && cfg.codec.digest(data) in s.mem.table
    ensures Shows(cfg, input, s', ids, spots.Set(i, Queue(ToReorder, t)), ph)
    ensures s'.frag == s.frag && s'.ro == s.ro && s'.mem.table == s.mem.table && OthersSame(s, s', ids.Get(i))
    ensures ids.Get(i) in s'.mem.heap && s'.mem.heap[ids.Get(i)].isDuplicate
    ensures s'.mem.heap[ids.Get(i)].original == s.mem.table[cfg.codec.digest(data)]
  {
    ShowsOne(cfg, input, s, ids, spots, ph, t);
    hide Shows;
    var s1 := DedupedAgain(cfg, input, s, ids, spots, ph, t, i, data);
    var pushing := ph.Set(Deduplicate, t, Pushing(SendDup(t)));
    s' := Pushed(cfg, input, s1, ids, spots.Set(i, SendDup(t)), pushing, Deduplicate, t, SendDup(t), i);
  }

  /** The second chunk waits behind it. */
  lemma SecondRow() returns (s: State)
    ensures Shows(Small(1, 0), THREE, s, ROWS,
                  Spots(Some(Recv(Compress, 0)), Some(Queue(ToCompress, 0)), None, None), RUN)
    ensures s.frag == Frag(Splitting, 2, [1], [], 3, 0) && Padded()([1]) in s.mem.table
    ensures s.ro == Reorderer(SeqNo(0, 0), Zeros(1), 0, 0, false)
  {
    hide Shows, ByteOrThree, Padded, CoarseCut, Sane;
    var cfg := Small(1, 0);
    CutsOfThree();
    DigestsOfThree();
    s := FirstRow();
    SmallIsSane(1, 0);
    Threads(cfg);
    s := SplitOff(cfg, THREE, s, ROWS, Spots(Some(Recv(Compress, 0)), None, None, None), RUN, 1);
    assert [2, 1][..1] == [2] && [2, 1][1..] == [1];
    s := FragPushed(cfg, THREE, s, ROWS, Spots(Some(Recv(Compress, 0)), Some(FragSend), None, None), RUN, 1);
    s := Refined(cfg, THREE, s, ROWS, Spots(Some(Recv(Compress, 0)), Some(Queue(ToRefine, 0)), None, None), RUN,
                 0, 1, [2]);
    s := Stored(cfg, THREE, s, ROWS, Spots(Some(Recv(Compress, 0)), Some(Recv(Deduplicate, 0)), None, None), RUN,
                0, 1, [2]);
  }

  /** The third one is a duplicate, overtakes both and reaches Reorder first. */
  lemma ThirdRow() returns (s: State)
    ensures Shows(Small(1, 0), THREE, s, ROWS,
                  Spots(Some(Recv(Compress, 0)), Some(Queue(ToCompress, 0)), Some(ReorderRecv), None), RUN)
    ensures s.ro.counts == Zeros(1)
  {
    hide Shows, ByteOrThree, Padded, CoarseCut, Sane;
    var cfg := Small(1, 0);
    CutsOfThree();
    s := SecondRow();
    SmallIsSane(1, 0);
    Threads(cfg);
    var sp := Spots(Some(Recv(Compress, 0)), Some(Queue(ToCompress, 0)), None, None);
    s := SendRest(cfg, THREE, s, ROWS, sp, RUN, 2);
    s := FragPushed(cfg, THREE, s, ROWS, sp.(c := Some(FragSend)), RUN, 2);
    s := Refined(cfg, THREE, s, ROWS, sp.(c := Some(Queue(ToRefine, 0))), RUN, 0, 2, [1]);
    s := Passed(cfg, THREE, s, ROWS, sp.(c := Some(Recv(Deduplicate, 0))), RUN, 0, 2, [1]);
    s := Polled(cfg, THREE, s, ROWS, sp.(c := Some(Queue(ToReorder, 0))), RUN, 2);
  }

  /** A run that leaves the array of counts: three coarse chunks, one place at first, one thread per pool
      and room for one chunk everywhere. */
  lemma OverrunHappens()
    ensures Sane(Small(1, 0))
    ensures exists steps :: IsRun(Small(1, 0), Initial(Small(1, 0), THREE), steps)
                            && After(Small(1, 0), Initial(Small(1, 0), THREE), steps).overrun
  {
    hide PrefixStable, Lossless, Enabled, Apply, ReceiveOne;
    var cfg := Small(1, 0);
    SmallIsSane(1, 0);
    var s := ThirdRow();
    ReceivingOverruns(cfg, THREE, s);
    var steps :| IsRun(cfg, Initial(cfg, THREE), steps) && After(cfg, Initial(cfg, THREE), steps) == ReceiveOne(s);
  }

  lemma ReceivingOverruns(cfg: Config, input: Bytes, s: State)
    requires Shows(cfg, input, s, ROWS,
                   Spots(Some(Recv(Compress, 0)), Some(Queue(ToCompress, 0)), Some(ReorderRecv), None), RUN)
    requires s.ro.counts == Zeros(1)
    ensures CanReceive(s) && Reaches(cfg, input, ReceiveOne(s)) && ReceiveOne(s).overrun
  {
    hide PrefixStable, Lossless, Reaches;
    FreeIsEmpty(s.mem.buf, ROWS, Spots(Some(Recv(Compress, 0)), Some(Queue(ToCompress, 0)), Some(ReorderRecv), None),
                Hand);
    NextIsFine(cfg, input, s, Receives);
  }

  // ---- getting stuck ----------------------------------------------------------------------------

  /** A coarse chunk of one piece, and one of three pieces whose last one is the same again. */
  const EIGHT: Bytes := [0, 0, 1, 2, 3, 0, 0, 1]
  const PIECES := Ids(SeqNo(0, 0), SeqNo(1, 0), SeqNo(1, 1), SeqNo(1, 2))

  lemma CutsOfEight()
    ensures var cut := CoarseCut(ByteOrThree(), 2); cut(EIGHT) == 3 && cut([2, 3, 0, 0, 1]) == 5
    ensures var seg := ByteOrThree(); seg([0, 0, 1]) == 3 && seg([2, 3, 0, 0, 1]) == 1 && seg([3, 0, 0, 1]) == 1
  {
    assert EIGHT[2..] == [1, 2, 3, 0, 0, 1] && [2, 3, 0, 0, 1][2..] == [0, 0, 1];
  }

  lemma DigestsOfEight()
    ensures var d := Padded(); d([2]) != d([3]) && d([2]) != d([0, 0, 1]) && d([3]) != d([0, 0, 1])
  {
    var d := Padded();
    assert d([2])[0] == 2 && d([3])[0] == 3 && d([0, 0, 1])[0] == 0;
  }

  /** Both coarse chunks are in their queues and Fragment is done. */
  lemma BothSent() returns (s: State)
    ensures Shows(Small(2, 2), EIGHT, s, PIECES,
                  Spots(Some(Queue(ToRefine, 0)), Some(Queue(ToRefine, 1)), None, None), RUN)
    ensures s.frag.phase == Terminating(2) && s.mem.table == map[]
    ensures s.ro == Reorderer(SeqNo(0, 0), Zeros(1), 0, 0, false)
    ensures HasData(s, PIECES.a, [0, 0, 1]) && HasData(s, PIECES.b, [2, 3, 0, 0, 1])
  {
    hide Shows, ByteOrThree, Padded, CoarseCut, Sane;
    var cfg := Small(2, 2);
    SmallIsSane(2, 2);
    CutsOfEight();
    Threads(cfg);
    s := FirstRead(cfg, EIGHT);
    s := SplitOff(cfg, EIGHT, s, PIECES, Spots(None, None, None, None), RUN, 0);
    assert EIGHT[..3] == [0, 0, 1] && EIGHT[3..] == [2, 3, 0, 0, 1];
    s := FragPushed(cfg, EIGHT, s, PIECES, Spots(Some(FragSend), None, None, None), RUN, 0);
    s := SendRest(cfg, EIGHT, s, PIECES, Spots(Some(Queue(ToRefine, 0)), None, None, None), RUN, 1);
    s := FragPushed(cfg, EIGHT, s, PIECES, Spots(Some(Queue(ToRefine, 0)), Some(FragSend), None, None), RUN, 1);
    s := FragClosed(cfg, EIGHT, s, PIECES, Spots(Some(Queue(ToRefine, 0)), Some(Queue(ToRefine, 1)), None, None), RUN);
  }

  /** A piece is cut off and goes on to Deduplicate; `j` is the rest. */
  lemma CutAndSent(cfg: Config, input: Bytes, s: State, ids: Ids, spots: Spots, ph: Phases, t: nat, i: nat, j: nat,
                   data: Bytes)
      returns (s': State)
    requires Shows(cfg, input, s, ids, spots, ph) && t < cfg.nthreads && i < 4 && j < 4
    requires ph.Get(Refine, t) == Running && ph.Get(Deduplicate, t) == Running
    requires spots.Get(i) == Some(Cutting(t)) && spots.Get(j) == None && spots.Free(Send(Refine, t))
    requires spots.Free(Queue(ToDeduplicate, t)) && spots.Free(Recv(Deduplicate, t))
    requires ids.Get(j) == SeqNo(ids.Get(i).l1, ids.Get(i).l2 + 1)
    requires HasData(s, ids.Get(i), data) && cfg.seg(data) < |data|
    ensures Shows(cfg, input, s', ids, spots.Set(i, Recv(Deduplicate, t)).Set(j, Cutting(t)), ph)
    ensures s'.frag == s.frag && s'.ro == s.ro && s'.mem.table == s.mem.table
    ensures HasData(s', ids.Get(i), data[..cfg.seg(data)]) && HasData(s', ids.Get(j), data[cfg.seg(data)..])
    ensures forall e :: e != ids.Get(i) && e != ids.Get(j) && e in s.mem.heap ==>
                e in s'.mem.heap && s'.mem.heap[e] == s.mem.heap[e]
  {
    ShowsOne(cfg, input, s, ids, spots, ph, t);
    hide Shows;
    var s1 := CutUp(cfg, input, s, ids, spots, ph, t, i, j, data);
    var pushing := ph.Set(Refine, t, Pushing(Send(Refine, t)));
    var sp := spots.Set(i, Send(Refine, t)).Set(j, Cutting(t));
    var s2 := Pushed(cfg, input, s1, ids, sp, pushing, Refine, t, Send(Refine, t), i);
    s' := Fetched(cfg, input, s2, ids, sp.Set(i, Queue(ToDeduplicate, t)), ph, Deduplicate, t, i);
  }

  /** A piece goes from the queue of Compress into its send buffer, which is full then. */
  lemma Packed(cfg: Config, input: Bytes, s: State, ids: Ids, spots: Spots, ph: Phases, t: nat, i: nat)
    returns (s': State)
    requires Shows(cfg, input, s, ids, spots, ph) && t < cfg.nthreads && i < 4 && ph.Get(Compress, t) == Running
    requires spots.Get(i) == Some(Queue(ToCompress, t)) && spots.Free(Recv(Compress, t))
    requires spots.Free(Send(Compress, t))
    ensures Shows(cfg, input, s', ids, spots.Set(i, Send(Compress, t)), ph.Set(Compress, t, Pushing(Send(Compress, t))))
    ensures s'.frag == s.frag && s'.ro == s.ro && s'.mem.table == s.mem.table && OthersSame(s, s', ids.Get(i))
  {
    ShowsOne(cfg, input, s, ids, spots, ph, t);
    hide Shows;
    var s1 := Fetched(cfg, input, s, ids, spots, ph, Compress, t, i);
    s' := CompressedOne(cfg, input, s1, ids, spots.Set(i, Recv(Compress, t)), ph, t, i);
  }

  /** The first piece of the second coarse chunk fills its reorder queue. */
  lemma QueueFilled() returns (s: State)
    ensures Shows(Small(2, 2), EIGHT, s, PIECES,
                  Spots(Some(Queue(ToRefine, 0)), Some(Queue(ToReorder, 1)), Some(Cutting(1)), None), RUN)
    ensures s.frag.phase == Terminating(2) && s.ro == Reorderer(SeqNo(0, 0), Zeros(1), 0, 0, false)
    ensures s.mem.table == map[Padded()([2]) := PIECES.b]
    ensures HasData(s, PIECES.a, [0, 0, 1]) && HasData(s, PIECES.c, [3, 0, 0, 1])
  {
    hide Shows, ByteOrThree, Padded, CoarseCut, Sane;
    var cfg := Small(2, 2);
    CutsOfEight();
    s := BothSent();
    SmallIsSane(2, 2);
    Threads(cfg);
    var q := Some(Queue(ToRefine, 0));
    s := Fetched(cfg, EIGHT, s, PIECES, Spots(q, Some(Queue(ToRefine, 1)), None, None), RUN, Refine, 1, 1);
    s := Taken(cfg, EIGHT, s, PIECES, Spots(q, Some(Recv(Refine, 1)), None, None), RUN, 1, 1);
    s := CutAndSent(cfg, EIGHT, s, PIECES, Spots(q, Some(Cutting(1)), None, None), RUN, 1, 1, 2, [2, 3, 0, 0, 1]);
    assert [2, 3, 0, 0, 1][..1] == [2] && [2, 3, 0, 0, 1][1..] == [3, 0, 0, 1];
    s := Stored(cfg, EIGHT, s, PIECES, Spots(q, Some(Recv(Deduplicate, 1)), Some(Cutting(1)), None), RUN, 1, 1, [2]);
    s := Packed(cfg, EIGHT, s, PIECES, Spots(q, Some(Queue(ToCompress, 1)), Some(Cutting(1)), None), RUN, 1, 1);
    s := Pushed(cfg, EIGHT, s, PIECES, Spots(q, Some(Send(Compress, 1)), Some(Cutting(1)), None),
                RUN.Set(Compress, 1, Pushing(Send(Compress, 1))), Compress, 1, Send(Compress, 1), 1);
  }

  const BLOCKED := RUN.Set(Compress, 1, Pushing(Send(Compress, 1)))

  /** The second piece blocks the Compress thread. */
  lemma ThreadBlocked() returns (s: State)
    ensures Shows(Small(2, 2), EIGHT, s, PIECES,
                  Spots(Some(Queue(ToRefine, 0)), Some(Queue(ToReorder, 1)), Some(Send(Compress, 1)),
                        Some(Cutting(1))), BLOCKED)
    ensures s.frag.phase == Terminating(2) && s.ro == Reorderer(SeqNo(0, 0), Zeros(1), 0, 0, false)
    ensures Padded()([0, 0, 1]) !in s.mem.table
    ensures HasData(s, PIECES.a, [0, 0, 1]) && HasData(s, PIECES.d, [0, 0, 1])
  {
    hide Shows, ByteOrThree, Padded, CoarseCut, Sane;
    var cfg := Small(2, 2);
    CutsOfEight();
    DigestsOfEight();
    s := QueueFilled();
    SmallIsSane(2, 2);
    Threads(cfg);
    var sp := Spots(Some(Queue(ToRefine, 0)), Some(Queue(ToReorder, 1)), Some(Cutting(1)), None);
    s := CutAndSent(cfg, EIGHT, s, PIECES, sp, RUN, 1, 2, 3, [3, 0, 0, 1]);
    assert [3, 0, 0, 1][..1] == [3] && [3, 0, 0, 1][1..] == [0, 0, 1];
    sp := sp.(c := Some(Recv(Deduplicate, 1)), d := Some(Cutting(1)));
    s := Stored(cfg, EIGHT, s, PIECES, sp, RUN, 1, 2, [3]);
    sp := sp.(c := Some(Queue(ToCompress, 1)));
    s := Packed(cfg, EIGHT, s, PIECES, sp, RUN, 1, 2);
  }

  /** The third piece is stored and waits behind it. */
  lemma ThirdBehind() returns (s: State)
    ensures Shows(Small(2, 2), EIGHT, s, PIECES,
                  Spots(Some(Queue(ToRefine, 0)), Some(Queue(ToReorder, 1)), Some(Send(Compress, 1)),
                        Some(Queue(ToCompress, 1))),
                  BLOCKED)
    ensures s.frag.phase == Terminating(2) && s.ro == Reorderer(SeqNo(0, 0), Zeros(1), 0, 0, false)
    ensures Padded()([0, 0, 1]) in s.mem.table && s.mem.table[Padded()([0, 0, 1])] == PIECES.d
    ensures HasData(s, PIECES.a, [0, 0, 1])
  {
    hide Shows, ByteOrThree, Padded, CoarseCut, Sane;
    var cfg := Small(2, 2);
    CutsOfEight();
    s := ThreadBlocked();
    SmallIsSane(2, 2);
    Threads(cfg);
    var sp := Spots(Some(Queue(ToRefine, 0)), Some(Queue(ToReorder, 1)), Some(Send(Compress, 1)), Some(Cutting(1)));
    s := CutRest(cfg, EIGHT, s, PIECES, sp, BLOCKED, 1, 3, [0, 0, 1]);
    sp := sp.(d := Some(Send(Refine, 1)));
    s := Pushed(cfg, EIGHT, s, PIECES, sp, BLOCKED.Set(Refine, 1, Pushing(Send(Refine, 1))), Refine, 1,
                Send(Refine, 1), 3);
    sp := sp.(d := Some(Queue(ToDeduplicate, 1)));
    s := Fetched(cfg, EIGHT, s, PIECES, sp, BLOCKED, Deduplicate, 1, 3);
    sp := sp.(d := Some(Recv(Deduplicate, 1)));
    s := Stored(cfg, EIGHT, s, PIECES, sp, BLOCKED, 1, 3, [0, 0, 1]);
  }

  const END := Spots(Some(Hand), Some(Queue(ToReorder, 1)), Some(Send(Compress, 1)), Some(Queue(ToCompress, 1)))

  /** The chunk in hand is the duplicate of that third piece. */
  ghost predicate HoldsDuplicate(s: State) {
    PIECES.a in s.mem.heap && s.mem.heap[PIECES.a].isDuplicate && s.mem.heap[PIECES.a].original == PIECES.d
  }

  /** The first coarse chunk is a duplicate of the piece that is stuck; Reorder takes it in hand. */
  lemma HandWaits() returns (s: State)
    ensures Shows(Small(2, 2), EIGHT, s, PIECES, END, BLOCKED)
    ensures s.frag.phase == Terminating(2) && HoldsDuplicate(s)
  {
    hide Shows, ByteOrThree, Padded, CoarseCut, Sane;
    var cfg := Small(2, 2);
    CutsOfEight();
    s := ThirdBehind();
    SmallIsSane(2, 2);
    Threads(cfg);
    s := Refined(cfg, EIGHT, s, PIECES, END.(a := Some(Queue(ToRefine, 0))), BLOCKED, 0, 0, [0, 0, 1]);
    s := Passed(cfg, EIGHT, s, PIECES, END.(a := Some(Recv(Deduplicate, 0))), BLOCKED, 0, 0, [0, 0, 1]);
    s := Polled(cfg, EIGHT, s, PIECES, END.(a := Some(Queue(ToReorder, 0))), BLOCKED, 0);
    s := Received(cfg, EIGHT, s, PIECES, END.(a := Some(ReorderRecv)), BLOCKED, 0);
  }

  /** All other threads stop. */
  const STUCK := Phases(Stopped, Stopped, Stopped, Stopped, Stopped, Pushing(Send(Compress, 1)))

  lemma OthersStop() returns (s: State)
    ensures Shows(Small(2, 2), EIGHT, s, PIECES, END, STUCK)
    ensures s.frag.phase == Terminating(2) && HoldsDuplicate(s)
  {
    hide Shows, Sane;
    s := HandWaits();
    var ph := BLOCKED;
    s := PoolCloses(s, ph, Refine);
    ph := ph.(r0 := Stopped, r1 := Stopped);
    s := PoolCloses(s, ph, Deduplicate);
    ph := ph.(d0 := Stopped, d1 := Stopped);
    InputFinished(s, ph, Compress, 0);
    s := Closed(Small(2, 2), EIGHT, s, PIECES, END, ph, Compress, 0);
  }

  lemma InputFinished(s: State, ph: Phases, pool: Pool, t: nat)
    requires Shows(Small(2, 2), EIGHT, s, PIECES, END, ph) && s.frag.phase == Terminating(2) && t < 2
    requires pool == Deduplicate ==> ph.Get(Refine, t) == Stopped
    requires pool == Compress ==> ph.Get(Deduplicate, t) == Stopped
    ensures Finished(Small(2, 2), s.ctl, InFeed(pool), t)
  {
    hide PrefixStable, Lossless, Reaches, Lie, DataOk, Lineage, FragOk;
    var cfg := Small(2, 2);
    ReachableIsFine(cfg, EIGHT, s);
    Threads(cfg);
    match pool
    case Refine =>
    case Deduplicate => FinishedWhenStopped(cfg, s.frag, s.ctl, Refine, t);
    case Compress => FinishedWhenStopped(cfg, s.frag, s.ctl, Deduplicate, t);
  }

  lemma PoolCloses(s: State, ph: Phases, pool: Pool) returns (s': State)
    requires Shows(Small(2, 2), EIGHT, s, PIECES, END, ph) && s.frag.phase == Terminating(2) && HoldsDuplicate(s)
    requires pool != Compress && ph.Get(pool, 0) == Running && ph.Get(pool, 1) == Running
    requires pool == Deduplicate ==> ph.r0 == Stopped && ph.r1 == Stopped
    ensures Shows(Small(2, 2), EIGHT, s', PIECES, END, ph.Set(pool, 0, Stopped).Set(pool, 1, Stopped))
    ensures s'.frag.phase == Terminating(2) && HoldsDuplicate(s')
  {
    hide Shows, Sane, Finished;
    InputFinished(s, ph, pool, 0);
    var s1 := Closed(Small(2, 2), EIGHT, s, PIECES, END, ph, pool, 0);
    InputFinished(s1, ph.Set(pool, 0, Stopped), pool, 1);
    s' := Closed(Small(2, 2), EIGHT, s1, PIECES, END, ph.Set(pool, 0, Stopped), pool, 1);
  }

  /** Nobody can go on. */
  lemma NothingEnabled(s: State, step: Step)
    requires Shows(Small(2, 2), EIGHT, s, PIECES, END, STUCK)
    requires s.frag.phase == Terminating(2) && HoldsDuplicate(s)
    ensures !Enabled(Small(2, 2), s, step)
  {
    hide PrefixStable, Lossless, Reaches;
    var cfg := Small(2, 2);
    Threads(cfg);
    HandIsWaiting(s);
    match step
    case Pushes(pool, t, p, n) => assert PhaseOf(s.ctl, pool, t) == STUCK.Get(pool, t);
    case Fetches(pool, t, _) => assert PhaseOf(s.ctl, pool, t) == STUCK.Get(pool, t);
    case Exits(pool, t) => assert PhaseOf(s.ctl, pool, t) == STUCK.Get(pool, t);
    case Takes(t) => assert PhaseOf(s.ctl, Refine, t) == STUCK.Get(Refine, t);
    case Cuts(t) => assert PhaseOf(s.ctl, Refine, t) == STUCK.Get(Refine, t);
    case Deduplicates(t) => assert PhaseOf(s.ctl, Deduplicate, t) == STUCK.Get(Deduplicate, t);
    case Compresses(t) => assert PhaseOf(s.ctl, Compress, t) == STUCK.Get(Compress, t);
    case Stops(pool, t) => assert PhaseOf(s.ctl, pool, t) == STUCK.Get(pool, t);
    case _ =>
  }

  lemma HandIsWaiting(s: State)
    requires Shows(Small(2, 2), EIGHT, s, PIECES, END, STUCK) && HoldsDuplicate(s)
    ensures At(s.mem.buf, Hand) == [PIECES.a] && Waiting(s, PIECES.a)
  {
    hide PrefixStable, Lossless, Reaches, ByteOrThree, Padded;
    OwnedIsUncompressed(Small(2, 2), EIGHT, s, Queue(ToCompress, 1), PIECES.d);
  }

  /** A run that gets stuck: two threads per pool, room for one chunk everywhere. Reorder waits for an
      original behind a Compress thread that waits for room in a reorder queue. */
  lemma StuckHappens()
    ensures Sane(Small(2, 2))
    ensures exists steps :: IsRun(Small(2, 2), Initial(Small(2, 2), EIGHT), steps)
                            && (var s := After(Small(2, 2), Initial(Small(2, 2), EIGHT), steps);
                                (forall step :: !Enabled(Small(2, 2), s, step)) && !s.ro.exited && !s.overrun)
  {
    hide PrefixStable, Lossless, Enabled, Apply, Lie, PhasesAre, Initial;
    var cfg := Small(2, 2);
    SmallIsSane(2, 2);
    var s := OthersStop();
    forall step
      ensures !Enabled(cfg, s, step)
    {
      NothingEnabled(s, step);
    }
    var steps :| IsRun(cfg, Initial(cfg, EIGHT), steps) && After(cfg, Initial(cfg, EIGHT), steps) == s;
  }
}
