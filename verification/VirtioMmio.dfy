/** The virtio-mmio register file of a container (VIRTIO 1.1, section 4.2.2), as the guest's MMIO
    calls read and write it. */
module VirtioMmio {
  import opened Types

  type Word = bv32
  type Long = bv64

  const S_ACKNOWLEDGE: Word := 1
  const S_DRIVER: Word := 2
  const S_DRIVER_OK: Word := 4
  const S_FEATURES_OK: Word := 8
  const S_FAILED: Word := 128

  const QUEUE_NUM := 2
  const QUEUE_SIZE: bv16 := 256

  datatype Queue = Queue(maxSize: bv16, size: bv16, ready: bool, descTable: Long, availRing: Long, usedRing: Long)

  /** The value of the register file. */
  datatype Regs = Regs(status: Word, featuresSelect: Word, avail: Long, ackedSelect: Word, acked: Long,
                       queueSelect: Word, queues: seq<Queue>)

  /** `while (1);` is Stuck. Answer carries the handler's result, and the queue that was kicked
      or QUEUE_NUM. */
  datatype Outcome = Answer(r: Word, kicked: nat) | Stuck

  /** The conversion from unsigned long to unsigned int. */
  function Low(v: Long): Word {
    (v & 0xFFFF_FFFF) as Word
  }

  function High(v: Long): Word {
    (v >> 32) as Word
  }

  /** The conversion from u16 to unsigned int. */
  function Widened(v: bv16): Word {
    v as Word
  }

  /** hi * 2^32 + lo */
  function Join(hi: Word, lo: Word): Long {
    ((hi as Long) << 32) + (lo as Long)
  }

  lemma JoinSplits(v: Long)
    ensures Join(High(v), Low(v)) == v
  {
  }

  lemma JoinInverts(hi: Word, lo: Word)
    ensures High(Join(hi, lo)) == hi && Low(Join(hi, lo)) == lo
  {
  }

  /** hi | val with the upper half of the old address: the low half is replaced, but upper bits of
      the value spill over. */
  function WithLow(was: Long, val: Long): Long {
    ((was >> 32) << 32) | val
  }

  /** (val << 32) | lo */
  function WithHigh(was: Long, val: Long): Long {
    (val << 32) | ((was << 32) >> 32)
  }

  /** The upper half after a write of a low half. */
  lemma WithLowSpills(was: Long, val: Long)
    ensures High(WithLow(was, val)) == (High(was) | High(val)) && Low(WithLow(was, val)) == Low(val)
  {
  }

  lemma OrAbsorbs(a: Word, b: Word)
    ensures (a | b) == a <==> (b & !a) == 0
  {
  }

  lemma OrSpreads(was: Word, a: Word, b: Word, mask: Word)
    ensures (was | (a & mask)) | (b & mask) == was | ((a | b) & mask)
    ensures was | (0 & mask) == was
  {
    hide *;
  }

  /** Writing a low half does what it should exactly when the value has no upper bits that the upper
      half of the address does not have already. */
  lemma WithLowExactly(was: Long, val: Long)
    ensures WithLow(was, val) == Join(High(was), Low(val)) <==> (High(val) & !High(was)) == 0
  {
    hide WithLow, Join, High, Low;
    WithLowSpills(was, val);
    JoinSplits(WithLow(was, val));
    JoinInverts(High(was), Low(val));
    OrAbsorbs(High(was), High(val));
  }

  /** Writing a high half always does. */
  lemma WithHighAlways(was: Long, val: Long)
    ensures WithHigh(was, val) == Join(Low(val), Low(was))
  {
  }

  // ---- the handlers as functions of the registers -----------------------------------------------

  /** The index of a queue in the array; QUEUE_NUM when there is none. */
  function QueueIndex(select: Word): (i: nat)
    ensures i <= QUEUE_NUM
  {
    if select == 0 then 0 else if select == 1 then 1 else QUEUE_NUM
  }

  /** virtio_queue_set: nothing happens for a queue that does not exist. */
  function SetQueue(r: Regs, q: Queue): (t: Regs)
    requires |r.queues| == QUEUE_NUM
    ensures |t.queues| == QUEUE_NUM && t == r.(queues := t.queues)
  {
    if QueueIndex(r.queueSelect) < QUEUE_NUM then r.(queues := r.queues[QueueIndex(r.queueSelect) := q]) else r
  }

  const NO_QUEUE := Queue(0, 0, false, 0, 0, 0)

  /** virtio_queue_get: all attributes of a queue that does not exist read as 0. */
  function GetQueue(r: Regs): Queue
    requires |r.queues| == QUEUE_NUM
  {
    if QueueIndex(r.queueSelect) < QUEUE_NUM then r.queues[QueueIndex(r.queueSelect)] else NO_QUEUE
  }

  predicate Has(status: Word, bit: Word) {
    status & bit != 0
  }

  /** The bits that are newly set. */
  function Diff(was: Word, status: Word): Word {
    !was & status
  }

  /** The four transitions of the device status that are accepted. */
  predicate Accepted(was: Word, status: Word) {
    var diff := Diff(was, status);
    || (diff == S_ACKNOWLEDGE && was == 0)
    || (diff == S_DRIVER && was == S_ACKNOWLEDGE)
    || (diff == S_FEATURES_OK && was == S_ACKNOWLEDGE | S_DRIVER)
    || (diff == S_DRIVER_OK && was == S_ACKNOWLEDGE | S_DRIVER | S_FEATURES_OK)
  }

  /** The second result is Stuck. */
  function StatusWritten(r: Regs, status: Word): (w: (Regs, bool))
    ensures w.0 == r.(status := w.0.status)
  {
    if status == 0 then (r, false)
    else if Accepted(r.status, status) then (r.(status := status), false)
    else (r, true)
  }

  lemma NewBits(status: Word)
    ensures Diff(0, status) == 1 <==> status == 1
    ensures Diff(1, status) == 2 <==> status == 2 || status == 3
    ensures Diff(3, status) == 8 <==> 8 <= status < 12
    ensures Diff(11, status) == 4 <==> 4 <= status < 8 || 12 <= status < 16
  {
  }

  /** They are 0 to 1; 1 to 3, or to 2; 3 to 11, or to 8, 9 and 10; 11 to 15, or to any other status below
      16 with DRIVER_OK. */
  lemma AcceptedExactly(was: Word, status: Word)
    ensures Accepted(was, status)
            <==> || (was == 0 && status == 1)
                 || (was == 1 && (status == 2 || status == 3))
                 || (was == 3 && 8 <= status < 12)
                 || (was == 11 && (4 <= status < 8 || 12 <= status < 16))
  {
    hide Diff;
    NewBits(status);
    assert S_ACKNOWLEDGE | S_DRIVER == 3 && S_ACKNOWLEDGE | S_DRIVER | S_FEATURES_OK == 11;
  }

  predicate MayNegotiate(status: Word) {
    Has(status, S_DRIVER) && !Has(status, S_FEATURES_OK) && !Has(status, S_FAILED)
  }

  function Offered(select: Word, features: Word): Long {
    if select == 0 then features as Long else if select == 1 then (features as Long) << 32 else 0
  }

  /** Only features that are available are taken, and none is given back. */
  function Acked(was: Long, offered: Long, avail: Long): Long {
    was | (offered & avail)
  }

  function FeaturesWritten(r: Regs, features: Word): (t: Regs)
    ensures t == r.(acked := t.acked)
  {
    if MayNegotiate(r.status) then r.(acked := Acked(r.acked, Offered(r.ackedSelect, features), r.avail)) else r
  }

  /** A write to one of the registers of the selected queue; None if the offset is not one of them. */
  function QueueWritten(q: Queue, val: Long, offset: nat): Option<Queue> {
    if offset == 0x38 then Some(q.(size := (val & 0xFFFF) as bv16))
    else if offset == 0x80 then Some(q.(descTable := WithLow(q.descTable, val)))
    else if offset == 0x84 then Some(q.(descTable := WithHigh(q.descTable, val)))
    else if offset == 0x90 then Some(q.(availRing := WithLow(q.availRing, val)))
    else if offset == 0x94 then Some(q.(availRing := WithHigh(q.availRing, val)))
    else if offset == 0xa0 then Some(q.(usedRing := WithLow(q.usedRing, val)))
    else if offset == 0xa4 then Some(q.(usedRing := WithHigh(q.usedRing, val)))
    else if offset == 0x44 then Some(q.(ready := val != 0))
    else None
  }

  /** A write to a queue register; the answer is not 0 only for the ready register. */
  function AtQueue(r: Regs, val: Long, offset: nat): (w: (Regs, Outcome))
    requires |r.queues| == QUEUE_NUM
    ensures |w.0.queues| == QUEUE_NUM && w.0 == r.(queues := w.0.queues)
  {
    hide QueueWritten, SetQueue, GetQueue, Low;
    match QueueWritten(GetQueue(r), val, offset)
    case Some(q) => (SetQueue(r, q), Answer(if offset == 0x44 then Low(val) else 0, QUEUE_NUM))
    case None => (r, Stuck)
  }

  /** handle_rkcall_mmio_write */
  function Written(r: Regs, val: Long, offset: nat, size: int): (w: (Regs, Outcome))
    requires |r.queues| == QUEUE_NUM
    ensures |w.0.queues| == QUEUE_NUM && w.0.avail == r.avail
  {
    hide StatusWritten, FeaturesWritten, AtQueue, QueueIndex, Low;
    if size != 4 then (r, Stuck)
    else if offset == 0x70 then
      var w := StatusWritten(r, Low(val));
      (w.0, if w.1 then Stuck else Answer(0, QUEUE_NUM))
    else if offset == 0x14 then (r.(featuresSelect := Low(val)), Answer(0, QUEUE_NUM))
    else if offset == 0x24 then (r.(ackedSelect := Low(val)), Answer(0, QUEUE_NUM))
    else if offset == 0x20 then (FeaturesWritten(r, Low(val)), Answer(0, QUEUE_NUM))
    else if offset == 0x30 then (r.(queueSelect := Low(val)), Answer(0, QUEUE_NUM))
    else if offset == 0x50 then (r, Answer(0, QueueIndex(Low(val))))
    else AtQueue(r, val, offset)
  }

  /** The registers a guest can write. */
  predicate Writable(offset: nat) {
    offset in {0x70, 0x14, 0x24, 0x20, 0x30, 0x50, 0x38, 0x44, 0x80, 0x84, 0x90, 0x94, 0xa0, 0xa4}
  }

  lemma QueueOffsets(q: Queue, val: Long, offset: nat)
    ensures QueueWritten(q, val, offset).Some? <==> offset in {0x38, 0x44, 0x80, 0x84, 0x90, 0x94, 0xa0, 0xa4}
  {
    hide WithLow, WithHigh;
  }

  /** When a write gets stuck, which write kicks a queue, and which ones answer 0. */
  lemma WriteAnswers(r: Regs, val: Long, offset: nat, size: int)
    requires |r.queues| == QUEUE_NUM
    ensures var w := Written(r, val, offset, size);
            && (w.1.Stuck? <==> size != 4 || !Writable(offset)
                                || (offset == 0x70 && Low(val) != 0 && !Accepted(r.status, Low(val))))
            && (w.1.Stuck? || offset == 0x50 ==> w.0 == r)
            && (w.1.Answer? ==>
                  && (w.1.kicked == 0 <==> offset == 0x50 && Low(val) == 0)
                  && (w.1.kicked == 1 <==> offset == 0x50 && Low(val) == 1)
                  && w.1.kicked <= 2
                  && w.1.r == if offset == 0x44 then Low(val) else 0)
  {
    hide Low, Accepted, QueueWritten, SetQueue, GetQueue, FeaturesWritten;
    QueueOffsets(GetQueue(r), val, offset);
  }

  /** handle_rkcall_mmio_read; None is Stuck. */
  function ReadValue(r: Regs, offset: nat, size: int): Option<Word>
    requires |r.queues| == QUEUE_NUM
  {
    if size != 4 then None
    else if offset == 0x0 then Some(0x74726976)
    else if offset == 0x4 then Some(0x2)
    else if offset == 0x8 then Some(0x1)
    else if offset == 0xc then Some(0x1af4)
    else if offset == 0x70 then Some(r.status)
    else if offset == 0x10 then
      Some(if r.featuresSelect == 0 then Low(r.avail) else if r.featuresSelect == 1 then High(r.avail) else 0)
    else if offset == 0x44 then Some(if GetQueue(r).ready then 1 else 0)
    else if offset == 0x34 then Some(Widened(GetQueue(r).maxSize))
    else None
  }

  /** Reading gets stuck exactly outside of eight registers; four of them identify a network device
      (VIRTIO 1.1, section 4.2.2). */
  lemma ReadAnswers(r: Regs, offset: nat, size: int)
    requires |r.queues| == QUEUE_NUM
    ensures ReadValue(r, offset, size).None?
            <==> size != 4 || offset !in {0x0, 0x4, 0x8, 0xc, 0x10, 0x34, 0x44, 0x70}
    ensures ReadValue(r, 0x0, 4) == Some(0x74726976) && ReadValue(r, 0x4, 4) == Some(2)
    ensures ReadValue(r, 0x8, 4) == Some(1) && ReadValue(r, 0xc, 4) == Some(0x1af4)
  {
    hide Low, High, GetQueue, Widened;
  }

  // ---- the object -------------------------------------------------------------------------------

  /** Feature bits 15, 24, 27, 28, 29, 32 and 33 (VIRTIO 1.1, sections 5.1.3 and 6). */
  const AVAIL_FEATURES: Long := 0x3_3900_8000

  lemma OfferedBits(k: bv64)
    requires k < 64
    ensures (AVAIL_FEATURES >> k) & 1 == 1
            <==> k == 15 || k == 24 || k == 27 || k == 28 || k == 29 || k == 32 || k == 33
  {
  }

  class VirtioNet {
    var deviceStatus: Word
    var featuresSelect: Word
    var availFeatures: Long
    var ackedFeaturesSelect: Word
    var ackedFeatures: Long
    var queueSelect: Word
    const queues: array<Queue>

    ghost predicate Valid() {
      queues.Length == QUEUE_NUM
    }

    ghost function Value(): (r: Regs)
      requires Valid()
      reads this, queues
      ensures |r.queues| == QUEUE_NUM
    {
      Regs(deviceStatus, featuresSelect, availFeatures, ackedFeaturesSelect, ackedFeatures, queueSelect, queues[..])
    }

    /** init_virtio_net; the selector of acknowledged features and the sizes and addresses of the queues
        keep what was in the memory before. */
    constructor (staleSelect: Word, staleQueue: Queue)
      ensures Valid() && fresh(queues)
      ensures var q := staleQueue.(maxSize := QUEUE_SIZE, ready := false);
              Value() == Regs(0, 0, AVAIL_FEATURES, staleSelect, 0, 0, [q, q])
    {
      deviceStatus, featuresSelect, availFeatures := 0, 0, AVAIL_FEATURES;
      ackedFeaturesSelect, ackedFeatures, queueSelect := staleSelect, 0, 0;
      queues := new Queue[QUEUE_NUM](_ => staleQueue.(maxSize := QUEUE_SIZE, ready := false));
    }

    method WriteDeviceStatus(status: Word) returns (stuck: bool)
      requires Valid()
      modifies this`deviceStatus
      ensures (Value(), stuck) == StatusWritten(old(Value()), status)
    {
      hide Diff;
      var was := deviceStatus;
      var diff := Diff(was, status);
      stuck := false;
      if status == 0 {
      } else if diff == S_ACKNOWLEDGE && was == 0 {
        deviceStatus := status;
      } else if diff == S_DRIVER && was == S_ACKNOWLEDGE {
        deviceStatus := status;
      } else if diff == S_FEATURES_OK && was == S_ACKNOWLEDGE | S_DRIVER {
        deviceStatus := status;
      } else if diff == S_DRIVER_OK && was == S_ACKNOWLEDGE | S_DRIVER | S_FEATURES_OK {
        deviceStatus := status;
      } else {
        stuck := true;
      }
    }

    method WriteAckedFeatures(features: Word)
      requires Valid()
      modifies this`ackedFeatures
      ensures Value() == FeaturesWritten(old(Value()), features)
    {
      hide Has, Acked;
      if !Has(deviceStatus, S_DRIVER) {
        return;
      }
      if Has(deviceStatus, S_FEATURES_OK) {
        return;
      }
      if Has(deviceStatus, S_FAILED) {
        return;
      }
      var offered: Long;
      if ackedFeaturesSelect == 0 {
        offered := features as Long;
      } else if ackedFeaturesSelect == 1 {
        offered := (features as Long) << 32;
      } else {
        offered := 0;
      }
      ackedFeatures := Acked(ackedFeatures, offered, availFeatures);
    }

    /** virtio_queue_get */
    method QueueGet() returns (q: Queue)
      requires Valid()
      ensures q == GetQueue(Value())
    {
      if QueueIndex(queueSelect) < QUEUE_NUM {
        q := queues[QueueIndex(queueSelect)];
      } else {
        q := NO_QUEUE;
      }
    }

    /** virtio_queue_set */
    method QueueSet(q: Queue)
      requires Valid()
      modifies queues
      ensures Value() == SetQueue(old(Value()), q)
    {
      if QueueIndex(queueSelect) < QUEUE_NUM {
        queues[QueueIndex(queueSelect)] := q;
      }
    }

    method Write(val: Long, offset: nat, size: int) returns (outcome: Outcome)
      requires Valid()
      modifies this, queues
      ensures (Value(), outcome) == Written(old(Value()), val, offset, size)
    {
      hide WithLow, WithHigh;
      outcome := Answer(0, QUEUE_NUM);
      if size != 4 {
        return Stuck;
      }
      if offset == 0x70 {
        var stuck := WriteDeviceStatus(Low(val));
        if stuck {
          outcome := Stuck;
        }
      } else if offset == 0x14 {
        featuresSelect := Low(val);
      } else if offset == 0x24 {
        ackedFeaturesSelect := Low(val);
      } else if offset == 0x20 {
        WriteAckedFeatures(Low(val));
      } else if offset == 0x30 {
        queueSelect := Low(val);
      } else if offset == 0x50 {
        outcome := Answer(0, QueueIndex(Low(val)));
      } else {
        outcome := WriteQueue(val, offset);
      }
    }

    /** The registers of the selected queue. */
    method WriteQueue(val: Long, offset: nat) returns (outcome: Outcome)
      requires Valid()
      modifies queues
      ensures (Value(), outcome) == AtQueue(old(Value()), val, offset)
    {
      hide WithLow, WithHigh, Low, GetQueue, SetQueue;
      outcome := Answer(0, QUEUE_NUM);
      var q := QueueGet();
      if offset == 0x38 {
        q := q.(size := (val & 0xFFFF) as bv16);
      } else if offset == 0x80 {
        q := q.(descTable := WithLow(q.descTable, val));
      } else if offset == 0x84 {
        q := q.(descTable := WithHigh(q.descTable, val));
      } else if offset == 0x90 {
        q := q.(availRing := WithLow(q.availRing, val));
      } else if offset == 0x94 {
        q := q.(availRing := WithHigh(q.availRing, val));
      } else if offset == 0xa0 {
        q := q.(usedRing := WithLow(q.usedRing, val));
      } else if offset == 0xa4 {
        q := q.(usedRing := WithHigh(q.usedRing, val));
      } else if offset == 0x44 {
        q := q.(ready := val != 0);
        outcome := Answer(Low(val), QUEUE_NUM);
      } else {
        return Stuck;
      }
      QueueSet(q);
    }

    method ReadAvailFeatures() returns (word: Word)
      requires Valid()
      ensures Some(word) == ReadValue(Value(), 0x10, 4)
    {
      if featuresSelect == 0 {
        word := Low(availFeatures);
      } else if featuresSelect == 1 {
        word := High(availFeatures);
      } else {
        word := 0;
      }
    }

    method Read(offset: nat, size: int) returns (word: Option<Word>)
      requires Valid()
      ensures word == ReadValue(Value(), offset, size)
    {
      if offset == 0x0 && size == 4 {
        word := Some(0x74726976);
      } else if offset == 0x4 && size == 4 {
        word := Some(0x2);
      } else if offset == 0x8 && size == 4 {
        word := Some(0x1);
      } else if offset == 0xc && size == 4 {
        word := Some(0x1af4);
      } else if offset == 0x70 && size == 4 {
        word := Some(deviceStatus);
      } else if offset == 0x10 && size == 4 {
        var features := ReadAvailFeatures();
        word := Some(features);
      } else if offset == 0x44 && size == 4 {
        var q := QueueGet();
        word := Some(if q.ready then 1 else 0);
      } else if offset == 0x34 && size == 4 {
        var q := QueueGet();
        word := Some(Widened(q.maxSize));
      } else {
        word := None;
      }
    }
  }
}
