/** The serial encoder: one loop that reads, cuts, deduplicates, compresses and writes. */
module SerialEncoder {
  import opened Types
  import opened Chunking
  import opened Archive
  import opened Source
  import opened Statistics

  class Chunk {
    var isDuplicate: bool
    var sha1: Bytes
    var uncompressed: Bytes
    var compressed: Bytes
    var original: Chunk?   // compressed_data_ref

    constructor (uncompressed: Bytes)
      ensures this.uncompressed == uncompressed
    {
      this.uncompressed := uncompressed;
      isDuplicate, sha1, compressed, original := false, [], [], null;
    }
  }

  /** The statistics after one more chunk. */
  function Counted(codec: Codec, stats: Stats, c: Bytes, isDuplicate: bool): Stats
    requires |stats.nChunks| == CHUNK_MAX_NUM
  {
    var s := stats.(nChunks := stats.nChunks[Slot(|c|) := stats.nChunks[Slot(|c|)] + 1]);
    if isDuplicate then s.(nDuplicates := s.nDuplicates + 1)
    else s.(totalDedup := s.totalDedup + |c|, totalCompressed := s.totalCompressed + |codec.compress(c)|)
  }

  /** What one more chunk changes in everything that the chunk list determines. */
  lemma OneMore(codec: Codec, done: seq<Bytes>, c: Bytes)
    ensures var d, next := codec.digest(c), done + [c];
            var isDuplicate := d in DigestSet(codec, done);
            && DigestSet(codec, next) == DigestSet(codec, done) + {d}
            && RecordsOf(codec, next)
               == RecordsOf(codec, done) + [if isDuplicate then Fingerprint(d) else Compressed(codec.compress(c))]
            && StatsOf(codec, next) == Counted(codec, StatsOf(codec, done), c, isDuplicate)
  {
    var next, k := done + [c], |done|;
    assert next[..k] == done && next[..k + 1] == next && next[k] == c;
    RecordsOfPrefix(codec, next, k);
    HistogramNext(done, c);
    assert DigestSet(codec, next) == DigestSet(codec, done) + {codec.digest(c)} by {
      forall j | 0 <= j < k
        ensures codec.digest(done[j]) in DigestSet(codec, next)
      {
        assert next[j] == done[j];
      }
      assert codec.digest(next[k]) in DigestSet(codec, next);
    }
    assert FirstOccurrence(codec, next, k) <==> codec.digest(c) !in DigestSet(codec, done) by {
      assert forall j :: 0 <= j < k ==> next[j] == done[j];
    }
  }

  class Encoder {
    const codec: Codec
    var cache: map<Bytes, Chunk>
    var records: seq<Record>      // the output file behind its header
    var stats: Stats
    ghost var done: seq<Bytes>    // the chunks processed so far

    constructor (codec: Codec)
      ensures this.codec == codec && Valid() && done == []
    {
      this.codec := codec;
      cache, records, done := map[], [], [];
      stats := Stats(seq(CHUNK_MAX_NUM, _ => 0), 0, 0, 0);
    }

    /** Archive and statistics are what the chunks processed so far determine, and the cache knows
        exactly their digests. */
    ghost predicate Valid()
      reads this
    {
      && cache.Keys == DigestSet(codec, done)
      && records == RecordsOf(codec, done)
      && stats == StatsOf(codec, done)
    }

    /** sub_Deduplicate: a chunk with a new digest enters the cache, another one loses its data. */
    method SubDeduplicate(chunk: Chunk) returns (isDuplicate: bool)
      modifies this`cache, chunk
      ensures chunk.sha1 == codec.digest(old(chunk.uncompressed))
      ensures chunk.isDuplicate == isDuplicate == (chunk.sha1 in old(cache))
      ensures isDuplicate ==> cache == old(cache) && chunk.original == cache[chunk.sha1] && chunk.uncompressed == []
      ensures !isDuplicate ==> cache == old(cache)[chunk.sha1 := chunk] && chunk.uncompressed == old(chunk.uncompressed)
    {
      chunk.sha1 := codec.digest(chunk.uncompressed);
      isDuplicate := chunk.sha1 in cache;
      chunk.isDuplicate := isDuplicate;
      if !isDuplicate {
        cache := cache[chunk.sha1 := chunk];
      } else {
        chunk.original := cache[chunk.sha1];
        chunk.uncompressed := [];
      }
    }

    method SubCompress(chunk: Chunk)
      modifies chunk`compressed, chunk`uncompressed
      ensures chunk.compressed == codec.compress(old(chunk.uncompressed)) && chunk.uncompressed == []
    {
      chunk.compressed := codec.compress(chunk.uncompressed);
      chunk.uncompressed := [];
    }

    /** write_chunk_to_file, serial form: relies on the chunks coming in order. */
    method WriteChunk(chunk: Chunk)
      modifies this`records, chunk`compressed
      ensures chunk.isDuplicate ==> records == old(records) + [Fingerprint(chunk.sha1)]
      ensures !chunk.isDuplicate ==> records == old(records) + [Compressed(old(chunk.compressed))]
    {
      if !chunk.isDuplicate {
        records := records + [Compressed(chunk.compressed)];
        chunk.compressed := [];
      } else {
        records := records + [Fingerprint(chunk.sha1)];
      }
    }

    /** What the loop does with each chunk, in the middle of the input and at its end. */
    method ArchiveChunk(chunk: Chunk)
      requires Valid()
      modifies this, chunk
      ensures Valid() && done == old(done) + [old(chunk.uncompressed)]
    {
      ghost var c := chunk.uncompressed;
      OneMore(codec, done, c);
      CountSize(|chunk.uncompressed|);
      var isDuplicate := SubDeduplicate(chunk);
      if isDuplicate {
        stats := stats.(nDuplicates := stats.nDuplicates + 1);
      } else {
        stats := stats.(totalDedup := stats.totalDedup + |chunk.uncompressed|);
      }
      if !isDuplicate {
        SubCompress(chunk);
        stats := stats.(totalCompressed := stats.totalCompressed + |chunk.compressed|);
      }
      WriteChunk(chunk);
      done := done + [c];
    }

    method CountSize(size: nat)
      requires |stats.nChunks| == CHUNK_MAX_NUM
      modifies this`stats
      ensures stats == old(stats).(nChunks := old(stats.nChunks)[Slot(size) := old(stats.nChunks)[Slot(size)] + 1])
    {
      stats := stats.(nChunks := stats.nChunks[Slot(size) := stats.nChunks[Slot(size)] + 1]);
    }

    /** The split loop: every cut inside the buffer ends a chunk, and what has no cut is handed back. */
    method SplitBuffer(seg: Segmenter, buffer: Bytes, ghost unread: Bytes, ghost all: seq<Bytes>) returns (rest: Chunk)
      requires PrefixStable(seg) && Valid() && buffer != []
      requires Remaining(seg, done, buffer + unread, all)
      modifies this
      ensures Valid() && fresh(rest)
      ensures rest.uncompressed != [] && seg(rest.uncompressed) == |rest.uncompressed|
      ensures Remaining(seg, done, rest.uncompressed + unread, all)
    {
      rest := new Chunk(buffer);
      var split := true;
      while split
        invariant Valid() && fresh(rest) && rest.uncompressed != []
        invariant !split ==> seg(rest.uncompressed) == |rest.uncompressed|
        invariant Remaining(seg, done, rest.uncompressed + unread, all)
        decreases split, |rest.uncompressed|
      {
        var chunk := rest;
        assert CutInRange(seg, chunk.uncompressed);
        var offset := seg(chunk.uncompressed);
        split := false;
        if offset < |chunk.uncompressed| {
          CutOff(seg, done, chunk.uncompressed, unread, all);
          rest := new Chunk(chunk.uncompressed[offset..]);
          chunk.uncompressed := chunk.uncompressed[..offset];
          ArchiveChunk(chunk);
          split := true;
        }
      }
    }

    /** SerialIntegratedPipeline: whatever the buffer size and the sizes of the partial reads, the
        chunks processed are those of the whole-input chunker. */
    method Run(input: Input, seg: Segmenter, maxbuf: nat)
      requires PrefixStable(seg) && maxbuf > 0
      requires Valid() && done == [] && input.Valid() && input.seek == 0
      modifies this, input
      ensures Valid() && input.Valid() && done == Chunks(seg, input.data)
    {
      ghost var all := Chunks(seg, input.data);
      var temp: Chunk? := null;
      var running := true;
      assert [] + input.Unread() == input.data;
      while running
        invariant Valid() && input.Valid()
        invariant temp != null ==> fresh(temp) && temp.uncompressed != []
        invariant temp != null ==> seg(temp.uncompressed) == |temp.uncompressed|
        invariant running
                  ==> Remaining(seg, done, (if temp == null then [] else temp.uncompressed) + input.Unread(), all)
        invariant !running ==> Remaining(seg, done, [], all)
        decreases running, |input.data| - input.seek
      {
        ghost var unread := input.Unread();
        var left := if temp == null then [] else temp.uncompressed;
        var got := input.Fill(maxbuf);
        assert left + unread == (left + got) + input.Unread();
        if |left| + |got| == 0 {
          assert left + unread == [];
          running := false;
        } else if got == [] {
          assert left + unread == left;
          LastChunk(seg, left);
          var chunk := new Chunk(left);
          ArchiveChunk(chunk);
          running := false;
        } else {
          temp := SplitBuffer(seg, left + got, input.Unread(), all);
        }
      }
    }
  }

  /** A serial run compresses losslessly: its archive decodes to the input exactly when the stored
      chunks fit into the decoder's buffer and their lengths stay positive as ints. */
  lemma SerialRoundTrip(codec: Codec, seg: Segmenter, input: Bytes)
    requires Lossless(codec) && PrefixStable(seg) && NoCollision(codec, Chunks(seg, input))
    ensures DecodeRecords(codec, RecordsOf(codec, Chunks(seg, input)), map[]) == Done(input)
            <==> FitsFrom(codec, Chunks(seg, input), 0)
  {
    ChunksPartition(seg, input);
    DecodeUndoesRecords(codec, Chunks(seg, input));
  }

  /** A segmenter that finds no cut: the input is one chunk. */
  function NeverCuts(): Segmenter {
    (s: Bytes) => |s|
  }

  /** An input without a cut that is longer than the decoder's buffer is archived and cannot be
      decoded, although its lengths are harmless as ints. */
  lemma UncutInputIsLost(codec: Codec, input: Bytes)
    requires Lossless(codec) && input != [] && !codec.Within(input)
    requires ToInt(|input|) > 0 && ToInt(|codec.compress(input)|) > 0
    ensures PrefixStable(NeverCuts()) && Chunks(NeverCuts(), input) == [input]
    ensures DecodeRecords(codec, RecordsOf(codec, Chunks(NeverCuts(), input)), map[]) == Failed(UncompressFailed, [])
  {
    LastChunk(NeverCuts(), input);
    TooLongForTheBuffer(codec, input);
  }

  /** Such an input: five bytes, copied, and a buffer of four. A buffer of five takes them. */
  lemma FiveBytesInFour()
    ensures var small, large := PlainCodec(_ => seq(SHA1_LEN, _ => 0), Some(4)),
                                PlainCodec(_ => seq(SHA1_LEN, _ => 0), Some(5));
            var input: Bytes := [1, 2, 3, 4, 5];
            && Lossless(small) && Lossless(large) && PrefixStable(NeverCuts())
            && DecodeRecords(small, RecordsOf(small, Chunks(NeverCuts(), input)), map[]) == Failed(UncompressFailed, [])
            && DecodeRecords(large, RecordsOf(large, Chunks(NeverCuts(), input)), map[]) == Done(input)
  {
    var digest: Bytes -> Bytes := _ => seq(SHA1_LEN, _ => 0);
    var input: Bytes := [1, 2, 3, 4, 5];
    PlainCodecIsLossless(digest, Some(4));
    PlainCodecIsLossless(digest, Some(5));
    UncutInputIsLost(PlainCodec(digest, Some(4)), input);
    LastChunk(NeverCuts(), input);
    SerialRoundTrip(PlainCodec(digest, Some(5)), NeverCuts(), input);
  }
}
