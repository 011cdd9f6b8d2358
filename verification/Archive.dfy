/** The records of an archive, what a serial writer puts into them and what a decoder makes of them. */
module Archive {
  import opened Types

  /** Bytes of a SHA-1 sum (FIPS 180-4, section 6.1). */
  const SHA1_LEN := 20

  /** SHA-1 and the compression library are not part of this model: three functions under the contract
      below. `inflate` is the inverse of compression; the decoder gives it a buffer of `bound` bytes
      (UNCOMPRESS_BOUND, for gzip and bzip2) or of the right size (None, for COMPRESS_NONE). */
  datatype Codec = Codec(digest: Bytes -> Bytes, compress: Bytes -> Bytes, inflate: Bytes -> Option<Bytes>,
                         bound: Option<nat>)
  {
    /** The data fits into the decoder's buffer. */
    predicate Within(s: Bytes) {
      bound.Some? ==> |s| <= bound.value
    }

    /** Decompression into that buffer. */
    function Decompress(data: Bytes): Option<Bytes> {
      match inflate(data)
      case None => None
      case Some(s) => if Within(s) then Some(s) else None
    }
  }

  /** Digests have the SHA-1 length; inflating undoes compression, which never yields nothing. */
  ghost predicate Lossless(codec: Codec) {
    && (forall s: Bytes :: |codec.digest(s)| == SHA1_LEN)
    && (forall s: Bytes :: s != [] ==> codec.compress(s) != [] && codec.inflate(codec.compress(s)) == Some(s))
  }

  /** Different chunks of this input have different digests. */
  ghost predicate NoCollision(codec: Codec, chunks: seq<Bytes>) {
    forall i, j :: 0 <= i < |chunks| && 0 <= j < |chunks| && codec.digest(chunks[i]) == codec.digest(chunks[j])
                   ==> chunks[i] == chunks[j]
  }

  datatype Record = Compressed(data: Bytes) | Fingerprint(sha1: Bytes)

  /** No earlier chunk has the digest of chunk `k`. */
  ghost predicate FirstOccurrence(codec: Codec, chunks: seq<Bytes>, k: nat)
    requires k < |chunks|
  {
    forall j :: 0 <= j < k ==> codec.digest(chunks[j]) != codec.digest(chunks[k])
  }

  ghost function DigestSet(codec: Codec, chunks: seq<Bytes>): set<Bytes> {
    set k | 0 <= k < |chunks| :: codec.digest(chunks[k])
  }

  ghost function RecordAt(codec: Codec, chunks: seq<Bytes>, k: nat): Record
    requires k < |chunks|
  {
    if FirstOccurrence(codec, chunks, k) then Compressed(codec.compress(chunks[k]))
    else Fingerprint(codec.digest(chunks[k]))
  }

  /** What an in-order writer puts into the archive: the data of every first occurrence and the
      digest of every repetition. */
  ghost function RecordsOf(codec: Codec, chunks: seq<Bytes>): (records: seq<Record>)
    ensures |records| == |chunks|
  {
    seq(|chunks|, k requires 0 <= k < |chunks| => RecordAt(codec, chunks, k))
  }

  lemma RecordsOfPrefix(codec: Codec, chunks: seq<Bytes>, k: nat)
    requires k < |chunks|
    ensures RecordsOf(codec, chunks[..k + 1]) == RecordsOf(codec, chunks[..k]) + [RecordAt(codec, chunks, k)]
  {
    forall i | 0 <= i <= k
      ensures RecordAt(codec, chunks[..k + 1], i) == RecordAt(codec, chunks, i)
      ensures i < k ==> RecordAt(codec, chunks[..k], i) == RecordAt(codec, chunks, i)
    {
      assert FirstOccurrence(codec, chunks[..k + 1], i) == FirstOccurrence(codec, chunks, i);
      assert i < k ==> FirstOccurrence(codec, chunks[..k], i) == FirstOccurrence(codec, chunks, i);
    }
  }

  // ---- shape ------------------------------------------------------------------------------------

  /** The digest a record stands for, whether the decoder has room for its data or not. */
  ghost function DigestOf(codec: Codec, r: Record): Bytes {
    match r
    case Fingerprint(d) => d
    case Compressed(data) =>
      match codec.inflate(data)
      case Some(u) => codec.digest(u)
      case None => []
  }

  /** At most one data record per digest, and every fingerprint comes after the data it names. */
  ghost predicate WellShaped(codec: Codec, records: seq<Record>) {
    && (forall i, j :: 0 <= i < j < |records| && records[i].Compressed? && records[j].Compressed?
                       ==> DigestOf(codec, records[i]) != DigestOf(codec, records[j]))
    && (forall j :: 0 <= j < |records| && records[j].Fingerprint?
                    ==> exists i :: 0 <= i < j && records[i].Compressed?
                                      && DigestOf(codec, records[i]) == records[j].sha1)
  }

  lemma {:induction false} FirstBefore(codec: Codec, chunks: seq<Bytes>, k: nat) returns (i: nat)
    requires k < |chunks|
    ensures i <= k && FirstOccurrence(codec, chunks, i) && codec.digest(chunks[i]) == codec.digest(chunks[k])
  {
    i := k;
    if !FirstOccurrence(codec, chunks, k) {
      var j :| 0 <= j < k && codec.digest(chunks[j]) == codec.digest(chunks[k]);
      i := FirstBefore(codec, chunks, j);
    }
  }

  lemma RecordsOfIsWellShaped(codec: Codec, chunks: seq<Bytes>)
    requires Lossless(codec)
    requires forall k :: 0 <= k < |chunks| ==> chunks[k] != []
    ensures WellShaped(codec, RecordsOf(codec, chunks))
  {
    var records := RecordsOf(codec, chunks);
    forall k | 0 <= k < |chunks|
      ensures DigestOf(codec, records[k]) == codec.digest(chunks[k])
    {
      assert codec.inflate(codec.compress(chunks[k])) == Some(chunks[k]);
    }
    forall j | 0 <= j < |records| && records[j].Fingerprint?
      ensures exists i :: 0 <= i < j && records[i].Compressed? && DigestOf(codec, records[i]) == records[j].sha1
    {
      var i := FirstBefore(codec, chunks, j);
      assert i != j && records[i].Compressed?;
    }
  }

  // ---- decoding ---------------------------------------------------------------------------------

  datatype DecodeError =
    | ReadFailed          // xread's result is negative as an int
    | Incomplete          // nothing left where more was expected
    | Indeterminate       // a short read: the code goes on with bytes it never received
    | FingerprintSize
    | EmptyData
    | UnknownType
    | UncompressFailed
    | NoCounterpart       // a fingerprint whose data record has not been seen

  /** Every failure ends the program after `output` was written. */
  datatype Decoded = Done(output: Bytes) | Failed(error: DecodeError, output: Bytes) {
    function Prepend(front: Bytes): Decoded {
      this.(output := front + output)
    }
  }

  /** What the decoder makes of a record list, given the uncompressed chunks it knows by digest. */
  function DecodeRecords(codec: Codec, records: seq<Record>, known: map<Bytes, Bytes>): Decoded {
    if records == [] then Done([])
    else
      match records[0]
      case Compressed(data) =>
        if ToInt(|data|) < 0 then Failed(ReadFailed, [])
        else if ToInt(|data|) == 0 then Failed(Incomplete, [])
        else (match codec.Decompress(data)
          case None => Failed(UncompressFailed, [])
          case Some(u) =>
            if ToInt(|u|) <= 0 then Failed(UncompressFailed, [])
            else DecodeRecords(codec, records[1..], known[codec.digest(u) := u]).Prepend(u))
      case Fingerprint(d) =>
        if d !in known then Failed(NoCounterpart, [])
        else DecodeRecords(codec, records[1..], known).Prepend(known[d])
  }

  /** If chunk `k` is stored, its length and that of its compressed form are positive as an int, and it
      fits into the decoder's buffer. */
  ghost predicate FitsAt(codec: Codec, chunks: seq<Bytes>, k: nat)
    requires k < |chunks|
  {
    FirstOccurrence(codec, chunks, k) ==>
      ToInt(|chunks[k]|) > 0 && ToInt(|codec.compress(chunks[k])|) > 0 && codec.Within(chunks[k])
  }

  ghost predicate FitsFrom(codec: Codec, chunks: seq<Bytes>, k: nat) {
    forall i :: k <= i < |chunks| ==> FitsAt(codec, chunks, i)
  }

  /** `known` holds exactly the first `k` chunks, under their digests. */
  ghost predicate Knows(codec: Codec, chunks: seq<Bytes>, k: nat, known: map<Bytes, Bytes>)
    requires k <= |chunks|
  {
    && (forall i :: 0 <= i < k ==> codec.digest(chunks[i]) in known)
    && (forall d :: d in known ==> exists i :: 0 <= i < k && codec.digest(chunks[i]) == d && chunks[i] == known[d])
  }

  ghost function KnownAfter(codec: Codec, chunks: seq<Bytes>, k: nat, known: map<Bytes, Bytes>): map<Bytes, Bytes>
    requires k < |chunks|
  {
    if FirstOccurrence(codec, chunks, k) then known[codec.digest(chunks[k]) := chunks[k]] else known
  }

  lemma KnowsNext(codec: Codec, chunks: seq<Bytes>, k: nat, known: map<Bytes, Bytes>)
    requires k < |chunks| && Knows(codec, chunks, k, known)
    ensures Knows(codec, chunks, k + 1, KnownAfter(codec, chunks, k, known))
  {
    var known' := KnownAfter(codec, chunks, k, known);
    forall d | d in known'
      ensures exists i :: 0 <= i < k + 1 && codec.digest(chunks[i]) == d && chunks[i] == known'[d]
    {
      if FirstOccurrence(codec, chunks, k) && d == codec.digest(chunks[k]) {
        assert chunks[k] == known'[d];
      } else {
        var i :| 0 <= i < k && codec.digest(chunks[i]) == d && chunks[i] == known[d];
      }
    }
  }

  lemma KnownRepetition(codec: Codec, chunks: seq<Bytes>, k: nat, known: map<Bytes, Bytes>)
    requires NoCollision(codec, chunks)
    requires k < |chunks| && Knows(codec, chunks, k, known) && !FirstOccurrence(codec, chunks, k)
    ensures codec.digest(chunks[k]) in known && known[codec.digest(chunks[k])] == chunks[k]
  {
    var j :| 0 <= j < k && codec.digest(chunks[j]) == codec.digest(chunks[k]);
    var d := codec.digest(chunks[j]);
    var i :| 0 <= i < k && codec.digest(chunks[i]) == d && chunks[i] == known[d];
  }

  /** One record of the archive, decoded in front of what the remaining ones give. */
  lemma DecodeOneRecord(codec: Codec, chunks: seq<Bytes>, k: nat, known: map<Bytes, Bytes>, later: seq<Record>)
    requires Lossless(codec) && NoCollision(codec, chunks)
    requires k < |chunks| && chunks[k] != [] && Knows(codec, chunks, k, known)
    ensures var whole := DecodeRecords(codec, [RecordAt(codec, chunks, k)] + later, known);
            if FitsAt(codec, chunks, k)
            then whole == DecodeRecords(codec, later, KnownAfter(codec, chunks, k, known)).Prepend(chunks[k])
            else whole.Failed?
  {
    var records := [RecordAt(codec, chunks, k)] + later;
    assert records[1..] == later;
    if FirstOccurrence(codec, chunks, k) {
      assert codec.inflate(codec.compress(chunks[k])) == Some(chunks[k]);
    } else {
      KnownRepetition(codec, chunks, k, known);
    }
  }

  lemma SameFront(front: Bytes, a: Bytes, b: Bytes)
    ensures front + a == front + b <==> a == b
  {
    assert (front + a)[|front|..] == a && (front + b)[|front|..] == b;
  }

  lemma {:induction false} DecodeFrom(codec: Codec, chunks: seq<Bytes>, k: nat, known: map<Bytes, Bytes>)
    requires Lossless(codec) && NoCollision(codec, chunks)
    requires forall i :: 0 <= i < |chunks| ==> chunks[i] != []
    requires k <= |chunks| && Knows(codec, chunks, k, known)
    ensures DecodeRecords(codec, RecordsOf(codec, chunks)[k..], known) == Done(Concat(chunks[k..]))
            <==> FitsFrom(codec, chunks, k)
    decreases |chunks| - k
  {
    if k < |chunks| {
      var later := RecordsOf(codec, chunks)[k + 1..];
      assert RecordsOf(codec, chunks)[k..] == [RecordAt(codec, chunks, k)] + later;
      KnowsNext(codec, chunks, k, known);
      DecodeOneRecord(codec, chunks, k, known, later);
      DecodeFrom(codec, chunks, k + 1, KnownAfter(codec, chunks, k, known));
      assert chunks[k..][0] == chunks[k] && chunks[k..][1..] == chunks[k + 1..];
      SameFront(chunks[k], DecodeRecords(codec, later, KnownAfter(codec, chunks, k, known)).output,
                Concat(chunks[k + 1..]));
      assert FitsFrom(codec, chunks, k) <==> FitsAt(codec, chunks, k) && FitsFrom(codec, chunks, k + 1);
    }
  }

  /** Decoding the archive of a chunk list gives back its bytes exactly when every chunk that is stored
      fits into the decoder's buffer and has a length, before and after compression, that is positive
      as a C int. */
  lemma DecodeUndoesRecords(codec: Codec, chunks: seq<Bytes>)
    requires Lossless(codec) && NoCollision(codec, chunks)
    requires forall i :: 0 <= i < |chunks| ==> chunks[i] != []
    ensures DecodeRecords(codec, RecordsOf(codec, chunks), map[]) == Done(Concat(chunks))
            <==> FitsFrom(codec, chunks, 0)
  {
    DecodeFrom(codec, chunks, 0, map[]);
    assert RecordsOf(codec, chunks)[0..] == RecordsOf(codec, chunks) && chunks[0..] == chunks;
  }

  lemma {:induction false} NeverMissingFrom(codec: Codec, records: seq<Record>, k: nat, known: map<Bytes, Bytes>)
    requires WellShaped(codec, records) && k <= |records|
    requires forall i :: 0 <= i < k && records[i].Compressed? ==> DigestOf(codec, records[i]) in known
    ensures var whole := DecodeRecords(codec, records[k..], known); whole.Failed? ==> whole.error != NoCounterpart
    decreases |records| - k
  {
    if k < |records| {
      assert records[k..][0] == records[k] && records[k..][1..] == records[k + 1..];
      match records[k]
      case Compressed(data) =>
        match codec.Decompress(data) {
          case Some(u) => NeverMissingFrom(codec, records, k + 1, known[codec.digest(u) := u]);
          case None =>
        }
      case Fingerprint(d) =>
        NeverMissingFrom(codec, records, k + 1, known);
    }
  }

  /** On a well-shaped archive the exit "duplicate without its unique counterpart" is never taken. */
  lemma NeverMissing(codec: Codec, records: seq<Record>)
    requires WellShaped(codec, records)
    ensures var whole := DecodeRecords(codec, records, map[]); whole.Failed? ==> whole.error != NoCounterpart
  {
    NeverMissingFrom(codec, records, 0, map[]);
    assert records[0..] == records;
  }

  /** A chunk the encoder stored but the decoder's buffer cannot take ends the decoding, however small
      its lengths are as ints. */
  lemma TooLongForTheBuffer(codec: Codec, s: Bytes)
    requires Lossless(codec) && s != [] && !codec.Within(s) && ToInt(|codec.compress(s)|) > 0
    ensures DecodeRecords(codec, RecordsOf(codec, [s]), map[]) == Failed(UncompressFailed, [])
  {
    var records := RecordsOf(codec, [s]);
    assert FirstOccurrence(codec, [s], 0);
    assert records == [Compressed(codec.compress(s))];
    assert codec.inflate(codec.compress(s)) == Some(s);
  }

  /** The data is copied, into a buffer of its size for COMPRESS_NONE (no bound). */
  function PlainCodec(digest: Bytes -> Bytes, bound: Option<nat>): Codec {
    Codec(digest, (s: Bytes) => s, (s: Bytes) => Some(s), bound)
  }

  lemma PlainCodecIsLossless(digest: Bytes -> Bytes, bound: Option<nat>)
    requires forall s: Bytes :: |digest(s)| == SHA1_LEN
    ensures Lossless(PlainCodec(digest, bound))
  {
    var codec := PlainCodec(digest, bound);
    forall s: Bytes
      ensures |codec.digest(s)| == SHA1_LEN
    {
      assert codec.digest(s) == digest(s);
    }
  }
}
