/** The encoder's statistics as functions of the chunk list. */
module Statistics {
  import opened Types
  import opened Archive
  import opened FileFormat

  /** 2 to the CHUNK_GRANULARITY_POW, which is 7 */
  const CHUNK_GRANULARITY := 128
  const CHUNK_MAX_NUM := 256

  /** CHUNK_SIZE_TO_SLOT: sizes in steps of 128 bytes, everything too big in the last slot. */
  function Slot(size: nat): (slot: nat)
    ensures slot < CHUNK_MAX_NUM
  {
    if size / CHUNK_GRANULARITY >= CHUNK_MAX_NUM then CHUNK_MAX_NUM - 1 else size / CHUNK_GRANULARITY
  }

  /** A slot takes the sizes from 128 times its number on, below the next one; the last one all others. */
  lemma SlotExactly(size: nat, slot: nat)
    requires slot < 256
    ensures Slot(size) == slot <==> 128 * slot <= size && (slot < 255 ==> size < 128 * slot + 128)
  {
  }

  /** How many chunks fall into a slot. */
  function InSlot(chunks: seq<Bytes>, slot: nat): nat {
    if chunks == [] then 0
    else InSlot(chunks[..|chunks| - 1], slot) + if Slot(|chunks[|chunks| - 1]|) == slot then 1 else 0
  }

  ghost function Histogram(chunks: seq<Bytes>): (h: seq<nat>)
    ensures |h| == CHUNK_MAX_NUM
  {
    seq(CHUNK_MAX_NUM, slot requires 0 <= slot < CHUNK_MAX_NUM => InSlot(chunks, slot))
  }

  /** The total of `size` over the first occurrences. */
  ghost function FirstTotal(codec: Codec, chunks: seq<Bytes>, size: Bytes -> nat): nat {
    if chunks == [] then 0
    else
      var k := |chunks| - 1;
      FirstTotal(codec, chunks[..k], size) + if FirstOccurrence(codec, chunks, k) then size(chunks[k]) else 0
  }

  function Length(s: Bytes): nat {
    |s|
  }

  function One(s: Bytes): nat {
    1
  }

  ghost function Repetitions(codec: Codec, chunks: seq<Bytes>): nat {
    if chunks == [] then 0
    else
      var k := |chunks| - 1;
      Repetitions(codec, chunks[..k]) + if FirstOccurrence(codec, chunks, k) then 0 else 1
  }

  function CompressedLength(codec: Codec): Bytes -> nat {
    (s: Bytes) => |codec.compress(s)|
  }

  /** stats_t, without the sizes of the two files. */
  datatype Stats = Stats(nChunks: seq<nat>, nDuplicates: nat, totalDedup: nat, totalCompressed: nat)

  ghost function StatsOf(codec: Codec, chunks: seq<Bytes>): Stats {
    Stats(Histogram(chunks), Repetitions(codec, chunks), FirstTotal(codec, chunks, Length),
          FirstTotal(codec, chunks, CompressedLength(codec)))
  }

  function Sum(values: seq<nat>): nat {
    if values == [] then 0 else Sum(values[..|values| - 1]) + values[|values| - 1]
  }

  // ---- accounting -------------------------------------------------------------------------------

  lemma {:induction false} SumZero(values: seq<nat>)
    requires forall i :: 0 <= i < |values| ==> values[i] == 0
    ensures Sum(values) == 0
  {
    if values != [] {
      SumZero(values[..|values| - 1]);
    }
  }

  lemma {:induction false} SumBump(values: seq<nat>, i: nat)
    requires i < |values|
    ensures Sum(values[i := values[i] + 1]) == Sum(values) + 1
  {
    var n := |values| - 1;
    if i < n {
      assert values[i := values[i] + 1][..n] == values[..n][i := values[..n][i] + 1];
      SumBump(values[..n], i);
    } else {
      assert values[i := values[i] + 1][..n] == values[..n];
    }
  }

  /** Every chunk is counted in exactly one slot. */
  lemma {:induction false} HistogramTotal(chunks: seq<Bytes>)
    ensures Sum(Histogram(chunks)) == |chunks|
  {
    if chunks == [] {
      SumZero(Histogram(chunks));
    } else {
      var k := |chunks| - 1;
      var slot := Slot(|chunks[k]|);
      HistogramTotal(chunks[..k]);
      HistogramNext(chunks[..k], chunks[k]);
      assert chunks[..k] + [chunks[k]] == chunks;
      SumBump(Histogram(chunks[..k]), slot);
    }
  }

  lemma HistogramNext(chunks: seq<Bytes>, chunk: Bytes)
    ensures var h := Histogram(chunks); var slot := Slot(|chunk|);
            Histogram(chunks + [chunk]) == h[slot := h[slot] + 1]
  {
    assert (chunks + [chunk])[..|chunks|] == chunks;
  }

  lemma {:induction false} FirstsAndRepetitions(codec: Codec, chunks: seq<Bytes>)
    ensures FirstTotal(codec, chunks, One) + Repetitions(codec, chunks) == |chunks|
  {
    if chunks != [] {
      FirstsAndRepetitions(codec, chunks[..|chunks| - 1]);
    }
  }

  /** The bytes of the repetitions. */
  ghost function RepeatedTotal(codec: Codec, chunks: seq<Bytes>): nat {
    if chunks == [] then 0
    else
      var k := |chunks| - 1;
      RepeatedTotal(codec, chunks[..k]) + if FirstOccurrence(codec, chunks, k) then 0 else |chunks[k]|
  }

  lemma {:induction false} FirstBytesAndRepeatedBytes(codec: Codec, chunks: seq<Bytes>)
    ensures FirstTotal(codec, chunks, Length) + RepeatedTotal(codec, chunks) == |Concat(chunks)|
  {
    if chunks != [] {
      var k := |chunks| - 1;
      FirstBytesAndRepeatedBytes(codec, chunks[..k]);
      ConcatAppend(chunks[..k], [chunks[k]]);
      assert chunks[..k] + [chunks[k]] == chunks;
      assert Concat([chunks[k]]) == chunks[k] + Concat([]);
    }
  }

  lemma {:induction false} SerializeAppend(tags: Tags, records: seq<Record>, r: Record)
    ensures Serialize(tags, records + [r]) == Serialize(tags, records) + SerializeRecord(tags, r)
  {
    if records == [] {
      assert records + [r] == [r] && [r][1..] == [];
      assert Serialize(tags, [r]) == SerializeRecord(tags, r) + Serialize(tags, []);
    } else {
      assert (records + [r])[1..] == records[1..] + [r];
      SerializeAppend(tags, records[1..], r);
    }
  }

  /** The size of the archive behind its header: nine bytes of frame per record, the compressed
      data of the first occurrences and one digest per repetition. */
  lemma {:induction false} ArchiveLength(codec: Codec, tags: Tags, chunks: seq<Bytes>)
    requires Lossless(codec)
    ensures |Serialize(tags, RecordsOf(codec, chunks))|
            == 9 * |chunks| + FirstTotal(codec, chunks, CompressedLength(codec)) + SHA1_LEN * Repetitions(codec, chunks)
  {
    if chunks != [] {
      var k := |chunks| - 1;
      ArchiveLength(codec, tags, chunks[..k]);
      RecordsOfPrefix(codec, chunks, k);
      assert chunks[..k + 1] == chunks;
      SerializeAppend(tags, RecordsOf(codec, chunks[..k]), RecordAt(codec, chunks, k));
    }
  }

  function DataRecords(records: seq<Record>): nat {
    if records == [] then 0
    else DataRecords(records[..|records| - 1]) + if records[|records| - 1].Compressed? then 1 else 0
  }

  lemma {:induction false} DataRecordsAreFirsts(codec: Codec, chunks: seq<Bytes>)
    ensures DataRecords(RecordsOf(codec, chunks)) == FirstTotal(codec, chunks, One)
  {
    if chunks != [] {
      var k := |chunks| - 1;
      DataRecordsAreFirsts(codec, chunks[..k]);
      RecordsOfPrefix(codec, chunks, k);
      assert chunks[..k + 1] == chunks;
      assert RecordsOf(codec, chunks)[..k] == RecordsOf(codec, chunks[..k]);
    }
  }

  /** The books balance: every chunk is in one slot of the histogram and is either a duplicate or a
      data record, every byte of the input is in total_dedup or repeats, and the counters give the length
      of the archive behind its header. */
  lemma Accounting(codec: Codec, tags: Tags, chunks: seq<Bytes>)
    requires Lossless(codec)
    ensures var s, records := StatsOf(codec, chunks), RecordsOf(codec, chunks);
            && Sum(s.nChunks) == s.nDuplicates + DataRecords(records)
            && s.totalDedup + RepeatedTotal(codec, chunks) == |Concat(chunks)|
            && |Serialize(tags, records)| == 9 * Sum(s.nChunks) + s.totalCompressed + SHA1_LEN * s.nDuplicates
  {
    HistogramTotal(chunks);
    FirstsAndRepetitions(codec, chunks);
    FirstBytesAndRepeatedBytes(codec, chunks);
    DataRecordsAreFirsts(codec, chunks);
    ArchiveLength(codec, tags, chunks);
  }
}
