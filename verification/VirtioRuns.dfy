/** Whole runs of MMIO writes: what the queue addresses are, how negotiation goes. */
module VirtioRuns {
  import opened Types
  import opened VirtioMmio

  datatype Access = Access(val: Long, offset: nat, size: int)

  predicate WellFormed(r: Regs) {
    |r.queues| == QUEUE_NUM
  }

  function Step(r: Regs, a: Access): (t: Regs)
    requires WellFormed(r)
    ensures WellFormed(t) && t.avail == r.avail
  {
    hide Written;
    Written(r, a.val, a.offset, a.size).0
  }

  /** The registers after a list of writes. A write that gets stuck changes nothing, so nothing below
      depends on whether the list could go on behind it. */
  function After(r: Regs, run: seq<Access>): (t: Regs)
    requires WellFormed(r)
    ensures WellFormed(t) && t.avail == r.avail
  {
    if run == [] then r else Step(After(r, run[..|run| - 1]), run[|run| - 1])
  }

  /** None of the writes gets stuck. */
  predicate Proceeds(r: Regs, run: seq<Access>)
    requires WellFormed(r)
  {
    run == []
    || (Proceeds(r, run[..|run| - 1])
        && (var a := run[|run| - 1]; !Written(After(r, run[..|run| - 1]), a.val, a.offset, a.size).1.Stuck?))
  }

  // ---- queue addresses --------------------------------------------------------------------------

  lemma SetQueueIs(r: Regs, q: nat, put: Queue)
    requires WellFormed(r) && q < QUEUE_NUM
    ensures SetQueue(r, put).queues[q] == if QueueIndex(r.queueSelect) == q then put else r.queues[q]
    ensures QueueIndex(r.queueSelect) == q ==> GetQueue(r) == r.queues[q]
  {
    hide QueueIndex;
  }

  /** The registers that belong to no queue. */
  predicate OfDevice(offset: nat) {
    offset in {0x70, 0x14, 0x24, 0x20, 0x30, 0x50}
  }

  lemma NoQueueRegister(q: Queue, val: Long, offset: nat)
    requires OfDevice(offset)
    ensures QueueWritten(q, val, offset).None?
  {
    hide WithLow, WithHigh;
  }

  lemma DeviceKeepsQueues(r: Regs, val: Long, offset: nat, size: int)
    requires WellFormed(r) && (OfDevice(offset) || size != 4)
    ensures Written(r, val, offset, size).0.queues == r.queues
  {
    hide Low, QueueIndex, StatusWritten, FeaturesWritten, AtQueue;
  }

  lemma ElsewhereIsQueue(r: Regs, val: Long, offset: nat)
    requires WellFormed(r) && !OfDevice(offset)
    ensures Written(r, val, offset, 4) == AtQueue(r, val, offset)
  {
    hide Low, QueueIndex, StatusWritten, FeaturesWritten, AtQueue;
  }

  /** What a write does to a queue: something only if the queue is the selected one and the offset one
      of the queue registers. */
  lemma QueueStep(r: Regs, a: Access, q: nat)
    requires WellFormed(r) && q < QUEUE_NUM
    ensures var w := QueueWritten(r.queues[q], a.val, a.offset);
            Step(r, a).queues[q] == if QueueIndex(r.queueSelect) == q && a.size == 4
               && w.Some? then w.value else r.queues[q]
  {
    hide Low, QueueIndex, QueueWritten, SetQueue, GetQueue, Written, OfDevice;
    if a.size != 4 || OfDevice(a.offset) {
      DeviceKeepsQueues(r, a.val, a.offset, a.size);
      if a.size == 4 {
        NoQueueRegister(r.queues[q], a.val, a.offset);
      }
    } else {
      ElsewhereIsQueue(r, a.val, a.offset);
      var w := QueueWritten(GetQueue(r), a.val, a.offset);
      SetQueueIs(r, q, if w.Some? then w.value else NO_QUEUE);
    }
  }

  /** A write reaches the selected queue only, and none when no such queue exists. */
  lemma OnlySelectedChanges(r: Regs, a: Access, q: nat)
    requires WellFormed(r) && q < QUEUE_NUM && QueueIndex(r.queueSelect) != q
    ensures Step(r, a).queues[q] == r.queues[q]
  {
    hide Step, QueueIndex, QueueWritten;
    QueueStep(r, a, q);
  }

  /** The queue selected last. */
  function Selected(r: Regs, run: seq<Access>): Word {
    if run == [] then r.queueSelect
    else
      var a := run[|run| - 1];
      if a.size == 4 && a.offset == 0x30 then Low(a.val) else Selected(r, run[..|run| - 1])
  }

  /** The three addresses of a queue and the registers of their halves. */
  datatype Area = Desc | Avail | Used

  function LowRegister(area: Area): nat {
    match area case Desc => 0x80 case Avail => 0x90 case Used => 0xa0
  }

  function Address(q: Queue, area: Area): Long {
    match area case Desc => q.descTable case Avail => q.availRing case Used => q.usedRing
  }

  /** The value written last to a register while queue `q` was selected. */
  function Latest(r: Regs, run: seq<Access>, q: nat, register: nat): Option<Long> {
    if run == [] then None
    else
      var before, a := run[..|run| - 1], run[|run| - 1];
      if a.size == 4 && a.offset == register && QueueIndex(Selected(r, before)) == q then Some(a.val)
      else Latest(r, before, q, register)
  }

  /** Its lower word, or the word that was there before the run. */
  function LatestWord(latest: Option<Long>, first: Word): Word {
    if latest.Some? then Low(latest.value) else first
  }

  lemma SelectStep(r: Regs, a: Access)
    requires WellFormed(r)
    ensures Step(r, a).queueSelect == if a.size == 4 && a.offset == 0x30 then Low(a.val) else r.queueSelect
  {
    hide Low, StatusWritten, FeaturesWritten, AtQueue;
  }

  lemma {:induction false} SelectedIs(r: Regs, run: seq<Access>)
    requires WellFormed(r)
    ensures After(r, run).queueSelect == Selected(r, run)
  {
    hide Step, Low;
    if run != [] {
      SelectedIs(r, run[..|run| - 1]);
      SelectStep(After(r, run[..|run| - 1]), run[|run| - 1]);
    }
  }

  lemma AddressWritten(q: Queue, val: Long, offset: nat, area: Area)
    ensures var w, was := QueueWritten(q, val, offset), Address(q, area);
            Address(if w.Some? then w.value else q, area) ==
              if offset == LowRegister(area) then WithLow(was, val)
              else if offset == LowRegister(area) + 4 then WithHigh(was, val)
              else was
  {
    hide WithLow, WithHigh;
  }

  /** What one write does to one address of the selected queue. */
  lemma AddressStep(r: Regs, a: Access, q: nat, area: Area)
    requires WellFormed(r) && q < QUEUE_NUM && QueueIndex(r.queueSelect) == q
    ensures var was := Address(r.queues[q], area);
            Address(Step(r, a).queues[q], area) ==
              if a.size == 4 && a.offset == LowRegister(area) then Join(Spilled(High(was), High(a.val)), Low(a.val))
              else if a.size == 4 && a.offset == LowRegister(area) + 4 then Join(Low(a.val), Low(was))
              else was
  {
    hide Step, WithLow, WithHigh, Low, High, Join, QueueIndex, QueueWritten, Address, Spilled;
    var was := Address(r.queues[q], area);
    QueueStep(r, a, q);
    AddressWritten(r.queues[q], a.val, a.offset, area);
    LowWriteIs(was, a.val);
    WithHighAlways(was, a.val);
  }

  /** The upper half after a write to the lower one: the value's upper bits are added to it. */
  function Spilled(hi: Word, upper: Word): Word {
    hi | upper
  }

  lemma LowWriteIs(was: Long, val: Long)
    ensures WithLow(was, val) == Join(Spilled(High(was), High(val)), Low(val))
  {
    hide WithLow, Join, High, Low;
    WithLowSpills(was, val);
    JoinSplits(WithLow(was, val));
  }

  lemma NoSpill(hi: Word)
    ensures Spilled(hi, 0) == hi
  {
  }

  /** The upper half of an address after a run: what was written last to its register while the queue
      was selected, and the upper bits of all values written to the lower register since. */
  function Upper(r: Regs, run: seq<Access>, q: nat, area: Area, first: Word): Word {
    if run == [] then first
    else
      var before, a := run[..|run| - 1], run[|run| - 1];
      if a.size != 4 || QueueIndex(Selected(r, before)) != q then Upper(r, before, q, area, first)
      else if a.offset == LowRegister(area) + 4 then Low(a.val)
      else if a.offset == LowRegister(area) then Spilled(Upper(r, before, q, area, first), High(a.val))
      else Upper(r, before, q, area, first)
  }

  /** After any run of writes each address consists of that upper half and of the word written last to
      the lower register, in whatever order halves and queues were interleaved. */
  lemma {:induction false} AddressAfter(r: Regs, run: seq<Access>, q: nat, area: Area)
    requires WellFormed(r) && q < QUEUE_NUM
    ensures var first := Address(r.queues[q], area);
            var lo := LatestWord(Latest(r, run, q, LowRegister(area)), Low(first));
            Address(After(r, run).queues[q], area) == Join(Upper(r, run, q, area, High(first)), lo)
  {
    hide Step, Low, High, Join, QueueIndex, Address, Spilled;
    var first := Address(r.queues[q], area);
    if run == [] {
      JoinSplits(first);
    } else {
      var before, a := run[..|run| - 1], run[|run| - 1];
      AddressAfter(r, before, q, area);
      SelectedIs(r, before);
      var lo := LatestWord(Latest(r, before, q, LowRegister(area)), Low(first));
      JoinInverts(Upper(r, before, q, area, High(first)), lo);
      if QueueIndex(Selected(r, before)) == q {
        AddressStep(After(r, before), a, q, area);
      } else {
        OnlySelectedChanges(After(r, before), a, q);
      }
    }
  }

  lemma {:induction false} UpperIsLatest(r: Regs, run: seq<Access>, q: nat, area: Area, first: Word)
    requires forall k :: 0 <= k < |run| && run[k].offset == LowRegister(area) ==> High(run[k].val) == 0
    ensures Upper(r, run, q, area, first) == LatestWord(Latest(r, run, q, LowRegister(area) + 4), first)
  {
    hide Low, High, QueueIndex, Spilled;
    if run != [] {
      UpperIsLatest(r, run[..|run| - 1], q, area, first);
      NoSpill(Upper(r, run[..|run| - 1], q, area, first));
    }
  }

  /** If the values written to the lower register have 32 bits, an address is hi * 2^32 + lo of the words
      written last while its queue was selected. */
  lemma AddressIsLatest(r: Regs, run: seq<Access>, q: nat, area: Area)
    requires WellFormed(r) && q < QUEUE_NUM
    requires forall k :: 0 <= k < |run| && run[k].offset == LowRegister(area) ==> High(run[k].val) == 0
    ensures var first := Address(r.queues[q], area);
            var hi := LatestWord(Latest(r, run, q, LowRegister(area) + 4), High(first));
            var lo := LatestWord(Latest(r, run, q, LowRegister(area)), Low(first));
            Address(After(r, run).queues[q], area) == Join(hi, lo)
  {
    hide Step, Low, High, Join, QueueIndex, Address, After, Upper, Latest;
    AddressAfter(r, run, q, area);
    UpperIsLatest(r, run, q, area, High(Address(r.queues[q], area)));
  }

  lemma SizeAndReadyWritten(q: Queue, val: Long, offset: nat)
    ensures var w := QueueWritten(q, val, offset);
            var t := if w.Some? then w.value else q;
            && t.size == (if offset == 0x38 then HalfWord(val) else q.size)
            && t.ready == (if offset == 0x44 then val != 0 else q.ready)
            && t.maxSize == q.maxSize
  {
    hide WithLow, WithHigh;
  }

  function HalfWord(v: Long): bv16 {
    (v & 0xFFFF) as bv16
  }

  /** Size and readiness of a queue come from the values written last while it was selected: the lower
      16 bits of one, whether the other was 0. The maximal size never changes. */
  lemma {:induction false} SizeAndReadyAreLatest(r: Regs, run: seq<Access>, q: nat)
    requires WellFormed(r) && q < QUEUE_NUM
    ensures var was, now := r.queues[q], After(r, run).queues[q];
            && now.size == (match Latest(r, run, q, 0x38) case Some(v) => HalfWord(v) case None => was.size)
            && now.ready == (match Latest(r, run, q, 0x44) case Some(v) => v != 0 case None => was.ready)
            && now.maxSize == was.maxSize
  {
    hide Step, Low, HalfWord, QueueIndex, QueueWritten;
    if run != [] {
      var before, a := run[..|run| - 1], run[|run| - 1];
      SizeAndReadyAreLatest(r, before, q);
      SelectedIs(r, before);
      QueueStep(After(r, before), a, q);
      SizeAndReadyWritten(After(r, before).queues[q], a.val, a.offset);
    }
  }

  // ---- feature negotiation ----------------------------------------------------------------------

  /** Every bit of `a` is in `b`. */
  predicate Within(a: Long, b: Long) {
    a & !b == 0
  }

  lemma AckedIsWithin(was: Long, offered: Long, avail: Long)
    ensures Within(was, avail) ==> Within(Acked(was, offered, avail), avail)
  {
  }

  lemma AckedAdds(was: Long, offered: Long, avail: Long)
    ensures Within(was, Acked(was, offered, avail))
  {
  }

  lemma WithinTrans(a: Long, b: Long, c: Long)
    ensures Within(a, a) && (Within(a, b) && Within(b, c) ==> Within(a, c))
  {
  }

  /** What one write does to the acknowledged features. */
  lemma AckedStep(r: Regs, a: Access)
    requires WellFormed(r)
    ensures Step(r, a).acked == if a.size == 4 && a.offset == 0x20 && MayNegotiate(r.status)
                                then Acked(r.acked, Offered(r.ackedSelect, Low(a.val)), r.avail) else r.acked
  {
    hide AtQueue, Low, Accepted, MayNegotiate, Acked, Offered;
  }

  /** Acknowledged features are available ones, and none is ever lost. */
  lemma {:induction false} AckedGrows(r: Regs, run: seq<Access>)
    requires WellFormed(r) && Within(r.acked, r.avail)
    ensures Within(After(r, run).acked, r.avail) && Within(r.acked, After(r, run).acked)
  {
    hide Step, Low, Within, Acked, Offered, MayNegotiate, QueueIndex;
    if run == [] {
      WithinTrans(r.acked, r.acked, r.acked);
    } else {
      var before, a := run[..|run| - 1], run[|run| - 1];
      var s := After(r, before);
      AckedGrows(r, before);
      AckedStep(s, a);
      AckedIsWithin(s.acked, Offered(s.ackedSelect, Low(a.val)), s.avail);
      AckedAdds(s.acked, Offered(s.ackedSelect, Low(a.val)), s.avail);
      WithinTrans(r.acked, s.acked, Step(s, a).acked);
    }
  }

  /** One half of the acknowledged features after features were offered for it. */
  function Taken(acked: Word, features: Word, avail: Word): Word {
    acked | (features & avail)
  }

  lemma AckedHalves(was: Long, features: Word, avail: Long, select: Word)
    ensures var now := Acked(was, Offered(select, features), avail);
            && Low(now) == (if select == 0 then Taken(Low(was), features, Low(avail)) else Low(was))
            && High(now) == (if select == 1 then Taken(High(was), features, High(avail)) else High(was))
  {
  }

  /** Features can be acknowledged with DRIVER set, FEATURES_OK and FAILED clear. */
  lemma NegotiatesExactly(status: Word)
    ensures MayNegotiate(status) <==> status & 2 != 0 && status & 8 == 0 && status & 128 == 0
  {
  }

  /** Nothing else changes. */
  lemma AcksOnly(r: Regs, val: Long)
    requires WellFormed(r)
    ensures Step(r, Access(val, 0x20, 4))
            == if MayNegotiate(r.status)
               then r.(acked := Acked(r.acked, Offered(r.ackedSelect, Low(val)), r.avail)) else r
    ensures Step(r, Access(val, 0x20, 4)) == r.(acked := Step(r, Access(val, 0x20, 4)).acked)
  {
    hide AtQueue, QueueIndex, Low, Acked, Offered, MayNegotiate;
  }

  /** A write to the register of features adds those of the offered word that are available, to the half
      that is selected, if the status allows it; the other half stays. */
  lemma AcksSelectedHalf(r: Regs, val: Long)
    requires WellFormed(r)
    ensures var now, may := Step(r, Access(val, 0x20, 4)), MayNegotiate(r.status);
            && Low(now.acked) == (if may && r.ackedSelect == 0 then Taken(Low(r.acked), Low(val), Low(r.avail))
                                  else Low(r.acked))
            && High(now.acked) == (if may && r.ackedSelect == 1 then Taken(High(r.acked), Low(val), High(r.avail))
                                   else High(r.acked))
  {
    hide Step, AtQueue, QueueIndex, Low, High, Acked, Offered, MayNegotiate, Taken;
    AcksOnly(r, val);
    AckedHalves(r.acked, Low(val), r.avail, r.ackedSelect);
  }

  /** The half of the features selected last for writing. */
  function AckSelected(r: Regs, run: seq<Access>): Word {
    if run == [] then r.ackedSelect
    else
      var a := run[|run| - 1];
      if a.size == 4 && a.offset == 0x24 then Low(a.val) else AckSelected(r, run[..|run| - 1])
  }

  lemma AckSelectStep(r: Regs, a: Access)
    requires WellFormed(r)
    ensures Step(r, a).ackedSelect == if a.size == 4 && a.offset == 0x24 then Low(a.val) else r.ackedSelect
  {
    hide Low, StatusWritten, FeaturesWritten, AtQueue;
  }

  lemma {:induction false} AckSelectedIs(r: Regs, run: seq<Access>)
    requires WellFormed(r)
    ensures After(r, run).ackedSelect == AckSelected(r, run)
  {
    hide Step, Low;
    if run != [] {
      AckSelectedIs(r, run[..|run| - 1]);
      AckSelectStep(After(r, run[..|run| - 1]), run[|run| - 1]);
    }
  }

  /** All features a run offers for one half while it was selected and the status allowed it. */
  function Offers(r: Regs, run: seq<Access>, half: Word): Word
    requires WellFormed(r)
  {
    if run == [] then 0
    else
      var before, a := run[..|run| - 1], run[|run| - 1];
      if a.size == 4 && a.offset == 0x20 && AckSelected(r, before) == half && MayNegotiate(After(r, before).status)
      then Both(Offers(r, before, half), Low(a.val))
      else Offers(r, before, half)
  }

  function Both(a: Word, b: Word): Word {
    a | b
  }

  lemma TakenTwice(acked: Word, a: Word, b: Word, avail: Word)
    ensures Taken(Taken(acked, a, avail), b, avail) == Taken(acked, Both(a, b), avail)
    ensures Taken(acked, 0, avail) == acked
  {
    OrSpreads(acked, a, b, avail);
  }

  /** After any run the acknowledged features are the old ones and, half by half, those that were offered
      for the half and are available. */
  lemma {:induction false} AckedAfter(r: Regs, run: seq<Access>)
    requires WellFormed(r)
    ensures var acked := After(r, run).acked;
            && Low(acked) == Taken(Low(r.acked), Offers(r, run, 0), Low(r.avail))
            && High(acked) == Taken(High(r.acked), Offers(r, run, 1), High(r.avail))
  {
    hide Step, Low, High, Acked, Offered, MayNegotiate, QueueIndex, Both, Taken;
    if run == [] {
      TakenTwice(Low(r.acked), 0, 0, Low(r.avail));
      TakenTwice(High(r.acked), 0, 0, High(r.avail));
    } else {
      var before, a := run[..|run| - 1], run[|run| - 1];
      var s := After(r, before);
      AckedAfter(r, before);
      AckSelectedIs(r, before);
      AckedStep(s, a);
      AckedHalves(s.acked, Low(a.val), s.avail, s.ackedSelect);
      TakenTwice(Low(r.acked), Offers(r, before, 0), Low(a.val), Low(r.avail));
      TakenTwice(High(r.acked), Offers(r, before, 1), Low(a.val), High(r.avail));
    }
  }

  // ---- device status ----------------------------------------------------------------------------

  /** What one write does to the device status; 0 leaves it as it is. */
  lemma StatusStep(r: Regs, a: Access)
    requires WellFormed(r)
    ensures Step(r, a).status == if a.size == 4 && a.offset == 0x70 && Low(a.val) != 0 && Accepted(r.status, Low(a.val))
                                 then Low(a.val) else r.status
  {
    hide AtQueue, Low, Accepted, MayNegotiate, Acked, Offered;
  }

  lemma AcceptedFrom(was: Word, status: Word)
    requires Accepted(was, status)
    ensures Has(status, S_DRIVER_OK) ==> was == 11
    ensures status == 11 ==> was == 3
    ensures status == 3 ==> was == 1
    ensures status == 1 ==> was == 0
  {
  }

  /** A status that can only be entered from `was` was entered from there. */
  lemma {:induction false} CameFrom(r: Regs, run: seq<Access>, status: Word, was: Word) returns (k: nat)
    requires WellFormed(r) && After(r, run).status == status && r.status != status
    requires forall s :: Accepted(s, status) ==> s == was
    ensures k < |run| && After(r, run[..k]).status == was
  {
    hide Step, Accepted, Low;
    var before, a := run[..|run| - 1], run[|run| - 1];
    if After(r, before).status == status {
      k := CameFrom(r, before, status, was);
      assert before[..k] == run[..k];
    } else {
      StatusStep(After(r, before), a);
      k := |run| - 1;
    }
  }

  /** DRIVER_OK is on only in runs that passed through ACKNOWLEDGE, then ACKNOWLEDGE and DRIVER, then
      these and FEATURES_OK. */
  lemma DriverOkPassedThrough(r: Regs, run: seq<Access>) returns (i: nat, j: nat, k: nat)
    requires WellFormed(r) && r.status == 0 && Has(After(r, run).status, S_DRIVER_OK)
    ensures i < j < k < |run|
    ensures After(r, run[..i]).status == S_ACKNOWLEDGE
    ensures After(r, run[..j]).status == S_ACKNOWLEDGE | S_DRIVER
    ensures After(r, run[..k]).status == S_ACKNOWLEDGE | S_DRIVER | S_FEATURES_OK
  {
    hide Step, Accepted, Has, Low, After;
    forall s, t | Accepted(s, t)
      ensures Has(t, S_DRIVER_OK) ==> s == 11
      ensures t == 11 ==> s == 3
      ensures t == 3 ==> s == 1
    {
      AcceptedFrom(s, t);
    }
    ZeroHasNone();
    k := CameFrom(r, run, After(r, run).status, 11);
    j := CameFrom(r, run[..k], 11, 3);
    assert run[..k][..j] == run[..j];
    i := CameFrom(r, run[..j], 3, 1);
    assert run[..j][..i] == run[..i];
  }

  lemma ZeroHasNone()
    ensures !Has(0, S_DRIVER_OK)
  {
  }

  function SetStatus(status: Long): Access {
    Access(status, 0x70, 4)
  }

  lemma StatusIsSet(r: Regs, status: Long)
    requires WellFormed(r) && Accepted(r.status, Low(status)) && Low(status) != 0
    ensures Step(r, SetStatus(status)) == r.(status := Low(status))
    ensures !Written(r, status, 0x70, 4).1.Stuck?
  {
    hide AtQueue, Low, Accepted, MayNegotiate, Acked, Offered;
  }

  lemma HandshakeIsAccepted()
    ensures Low(1) == 1 && Low(3) == 3 && Low(11) == 11 && Low(15) == 15
    ensures Accepted(0, 1) && Accepted(1, 3) && Accepted(3, 11) && Accepted(11, 15)
  {
  }

  /** A driver that sets ACKNOWLEDGE, DRIVER, FEATURES_OK and DRIVER_OK one after the other gets through. */
  lemma Handshake(r: Regs)
    requires WellFormed(r) && r.status == 0
    ensures var run := [SetStatus(1), SetStatus(3), SetStatus(11), SetStatus(15)];
            Proceeds(r, run) && After(r, run) == r.(status := 15)
  {
    hide Step, Written, Accepted, Low, After, Proceeds;
    HandshakeIsAccepted();
    Begins(r);
    StatusIsSet(r, 1);
    AfterOneMore(r, [], SetStatus(1), [SetStatus(1)]);
    StatusIsSet(r.(status := 1), 3);
    AfterOneMore(r, [SetStatus(1)], SetStatus(3), [SetStatus(1), SetStatus(3)]);
    StatusIsSet(r.(status := 3), 11);
    AfterOneMore(r, [SetStatus(1), SetStatus(3)], SetStatus(11), [SetStatus(1), SetStatus(3), SetStatus(11)]);
    StatusIsSet(r.(status := 11), 15);
    AfterOneMore(r, [SetStatus(1), SetStatus(3), SetStatus(11)], SetStatus(15),
                 [SetStatus(1), SetStatus(3), SetStatus(11), SetStatus(15)]);
  }

  /** Writing 0 is not a reset. */
  lemma ZeroIsIgnored(r: Regs, a: Access)
    requires WellFormed(r) && a.size == 4 && a.offset == 0x70 && Low(a.val) == 0
    ensures Step(r, a) == r && !Written(r, a.val, a.offset, a.size).1.Stuck?
  {
  }

  // ---- when the features are settled ------------------------------------------------------------

  predicate WritesStatus(a: Access) {
    a.size == 4 && a.offset == 0x70
  }

  lemma SettledStatus(was: Word, status: Word)
    ensures Has(was, S_FEATURES_OK) ==> !MayNegotiate(was)
    ensures Has(was, S_FEATURES_OK) && Accepted(was, status) ==> was == 11
  {
  }

  /** If no write of the status clears FEATURES_OK, the acknowledged features stay as they are once
      that bit is set. */
  lemma {:induction false} FrozenUnlessCleared(r: Regs, run: seq<Access>)
    requires WellFormed(r) && Has(r.status, S_FEATURES_OK)
    requires forall k :: 0 <= k < |run| && WritesStatus(run[k])
                    ==> Low(run[k].val) == 0 || Has(Low(run[k].val), S_FEATURES_OK)
    ensures After(r, run).acked == r.acked && Has(After(r, run).status, S_FEATURES_OK)
  {
    hide Step, Low, Has, Accepted, MayNegotiate;
    if run != [] {
      var before, a := run[..|run| - 1], run[|run| - 1];
      var s := After(r, before);
      FrozenUnlessCleared(r, before);
      AckedStep(s, a);
      StatusStep(s, a);
      SettledStatus(s.status, Low(a.val));
    }
  }

  /** From any other status with FEATURES_OK than the one in which only DRIVER_OK is missing, no write
      of the status is accepted. */
  lemma {:induction false} FrozenElsewhere(r: Regs, run: seq<Access>)
    requires WellFormed(r) && Has(r.status, S_FEATURES_OK) && r.status != 11
    ensures After(r, run).acked == r.acked && After(r, run).status == r.status
  {
    hide Step, Low, Has, Accepted, MayNegotiate;
    if run != [] {
      var before, a := run[..|run| - 1], run[|run| - 1];
      FrozenElsewhere(r, before);
      AckedStep(After(r, before), a);
      StatusStep(After(r, before), a);
      SettledStatus(r.status, Low(a.val));
    }
  }

  /** Some run of the driver changes the acknowledged features. */
  ghost predicate CanThaw(r: Regs)
    requires WellFormed(r)
  {
    exists run :: Proceeds(r, run) && After(r, run).acked != r.acked
  }

  lemma AfterOneMore(r: Regs, run: seq<Access>, a: Access, longer: seq<Access>)
    requires WellFormed(r) && longer == run + [a]
    ensures After(r, longer) == Step(After(r, run), a)
    ensures Proceeds(r, longer) <==> Proceeds(r, run) && !Written(After(r, run), a.val, a.offset, a.size).1.Stuck?
  {
    hide Written, Step;
    assert longer[..|run|] == run;
  }

  const DRIVER_OK_ONLY := Access(7, 0x70, 4)
  const SELECT_LOW := Access(0, 0x24, 4)
  const SELECT_HIGH := Access(1, 0x24, 4)
  const ALL_FEATURES := Access(0xFFFF_FFFF, 0x20, 4)

  /** Status 7, written when the status is 11, sets DRIVER_OK and takes FEATURES_OK back. */
  lemma ClearedByDriverOk(r: Regs)
    requires WellFormed(r) && r.status == 11
    ensures Step(r, DRIVER_OK_ONLY) == r.(status := 7) && !Written(r, 7, 0x70, 4).1.Stuck?
    ensures MayNegotiate(7)
  {
  }

  lemma SelectsHalf(r: Regs)
    requires WellFormed(r)
    ensures Step(r, SELECT_LOW) == r.(ackedSelect := 0) && !Written(r, 0, 0x24, 4).1.Stuck?
    ensures Step(r, SELECT_HIGH) == r.(ackedSelect := 1) && !Written(r, 1, 0x24, 4).1.Stuck?
  {
  }

  lemma AcksAll(r: Regs)
    requires WellFormed(r) && MayNegotiate(r.status)
    ensures Step(r, ALL_FEATURES) == r.(acked := Acked(r.acked, Offered(r.ackedSelect, 0xFFFF_FFFF), r.avail))
    ensures !Written(r, 0xFFFF_FFFF, 0x20, 4).1.Stuck?
  {
    hide MayNegotiate, Acked, Offered;
  }

  lemma BothHalves(was: Long, avail: Long)
    requires Within(was, avail)
    ensures Acked(Acked(was, Offered(0, 0xFFFF_FFFF), avail), Offered(1, 0xFFFF_FFFF), avail) == avail
  {
  }

  lemma ThawingRun(r: Regs)
    requires WellFormed(r) && Within(r.acked, r.avail) && r.status == 11
    ensures var run := [DRIVER_OK_ONLY, SELECT_LOW, ALL_FEATURES, SELECT_HIGH, ALL_FEATURES];
            Proceeds(r, run) && After(r, run).acked == r.avail
  {
    hide Step, Written, Within, Acked, Offered, MayNegotiate, After, Proceeds;
    var s1 := r.(status := 7);
    ClearedByDriverOk(r);
    Begins(r);
    AfterOneMore(r, [], DRIVER_OK_ONLY, [DRIVER_OK_ONLY]);
    var s2 := s1.(ackedSelect := 0);
    SelectsHalf(s1);
    AfterOneMore(r, [DRIVER_OK_ONLY], SELECT_LOW, [DRIVER_OK_ONLY, SELECT_LOW]);
    var s3 := s2.(acked := Acked(s2.acked, Offered(0, 0xFFFF_FFFF), r.avail));
    AcksAll(s2);
    AfterOneMore(r, [DRIVER_OK_ONLY, SELECT_LOW], ALL_FEATURES, [DRIVER_OK_ONLY, SELECT_LOW, ALL_FEATURES]);
    SelectsHalf(s3);
    AfterOneMore(r, [DRIVER_OK_ONLY, SELECT_LOW, ALL_FEATURES], SELECT_HIGH, [DRIVER_OK_ONLY, SELECT_LOW,
                 ALL_FEATURES, SELECT_HIGH]);
    AcksAll(s3.(ackedSelect := 1));
    AfterOneMore(r, [DRIVER_OK_ONLY, SELECT_LOW, ALL_FEATURES, SELECT_HIGH], ALL_FEATURES,
                 [DRIVER_OK_ONLY, SELECT_LOW, ALL_FEATURES, SELECT_HIGH, ALL_FEATURES]);
    BothHalves(r.acked, r.avail);
  }

  lemma Begins(r: Regs)
    requires WellFormed(r)
    ensures After(r, []) == r && Proceeds(r, [])
  {
  }

  lemma WithinBoth(a: Long, b: Long)
    requires Within(a, b) && Within(b, a)
    ensures a == b
  {
  }

  /** FEATURES_OK does not always settle the features: the driver can still change them exactly when
      the status is 11, where writing 6 or 7 clears the bit, and a feature is left to acknowledge. */
  lemma ThawsExactly(r: Regs)
    requires WellFormed(r) && Within(r.acked, r.avail) && Has(r.status, S_FEATURES_OK)
    ensures CanThaw(r) <==> r.status == 11 && r.acked != r.avail
  {
    hide Within, Has, After, Proceeds;
    if r.status == 11 && r.acked != r.avail {
      ThawingRun(r);
    }
    if CanThaw(r) {
      var run :| Proceeds(r, run) && After(r, run).acked != r.acked;
      if r.status != 11 {
        FrozenElsewhere(r, run);
      } else if r.acked == r.avail {
        AckedGrows(r, run);
        WithinBoth(r.acked, After(r, run).acked);
      }
    }
  }

  // ---- reading ----------------------------------------------------------------------------------

  /** The two words of the offered features, read one after the other, are all of them; there are no
      others. */
  lemma FeaturesAreReadable(r: Regs, select: Long)
    requires WellFormed(r)
    ensures var lo, hi := Step(r, Access(0, 0x14, 4)), Step(r, Access(1, 0x14, 4));
            && ReadValue(lo, 0x10, 4).Some? && ReadValue(hi, 0x10, 4).Some?
            && Join(ReadValue(hi, 0x10, 4).value, ReadValue(lo, 0x10, 4).value) == r.avail
    ensures Low(select) > 1 ==> ReadValue(Step(r, Access(select, 0x14, 4)), 0x10, 4) == Some(0)
  {
    hide Join, High, AtQueue, QueueIndex;
    JoinSplits(r.avail);
  }

  lemma ReadsQueue(r: Regs)
    requires WellFormed(r)
    ensures ReadValue(r, 0x34, 4) == Some(Widened(GetQueue(r).maxSize))
    ensures ReadValue(r, 0x44, 4) == Some(if GetQueue(r).ready then 1 else 0)
  {
    hide GetQueue, Low, High, Widened;
  }

  lemma GetQueueIs(r: Regs)
    requires WellFormed(r)
    ensures var q := QueueIndex(r.queueSelect);
            GetQueue(r) == if q < QUEUE_NUM then r.queues[q] else NO_QUEUE
  {
    hide QueueIndex;
  }

  lemma WidenedZero()
    ensures Widened(0) == 0
  {
  }

  /** What the driver reads back of the queue it selected last: the maximal size it began with, and whether
      the value written last to the ready register was 0; of a queue that does not exist, zeros. */
  lemma QueueReadsBack(r: Regs, run: seq<Access>)
    requires WellFormed(r)
    ensures var s, q := After(r, run), QueueIndex(Selected(r, run));
            var size, ready := ReadValue(s, 0x34, 4), ReadValue(s, 0x44, 4);
            if q == QUEUE_NUM then size == Some(0) && ready == Some(0)
            else
              var isReady := match Latest(r, run, q, 0x44) case Some(v) => v != 0 case None => r.queues[q].ready;
              size == Some(Widened(r.queues[q].maxSize)) && ready == Some(if isReady then 1 else 0)
  {
    hide After, Latest, Selected, QueueIndex, HalfWord, ReadValue, GetQueue, Widened;
    var s, q := After(r, run), QueueIndex(Selected(r, run));
    SelectedIs(r, run);
    ReadsQueue(s);
    GetQueueIs(s);
    if q < QUEUE_NUM {
      SizeAndReadyAreLatest(r, run, q);
    } else {
      WidenedZero();
    }
  }

  /** A status that is accepted after a run is read back: the lower word of the value written. */
  lemma StatusReadsBack(r: Regs, run: seq<Access>, val: Long)
    requires WellFormed(r)
    ensures var was, now := After(r, run), After(r, run + [Access(val, 0x70, 4)]);
            var accepted := Low(val) != 0 && Accepted(was.status, Low(val));
            ReadValue(now, 0x70, 4) == if accepted then Some(Low(val)) else ReadValue(was, 0x70, 4)
  {
    hide After, Accepted, AtQueue, QueueIndex, Low, High, Step;
    AfterOneMore(r, run, Access(val, 0x70, 4), run + [Access(val, 0x70, 4)]);
    StatusStep(After(r, run), Access(val, 0x70, 4));
  }

  /** The guest leaves the run loop after a write to the ready register exactly when the lower word is
      not 0; the queue is ready when any bit of the value is set. */
  lemma ReadyLeavesTheLoop(r: Regs, val: Long)
    requires WellFormed(r) && QueueIndex(r.queueSelect) < QUEUE_NUM
    ensures var w := Written(r, val, 0x44, 4);
            && w.1.Answer? && (w.1.r != 0 <==> Low(val) != 0)
            && w.0.queues[QueueIndex(r.queueSelect)].ready == (val != 0)
  {
    hide Low;
  }
}
