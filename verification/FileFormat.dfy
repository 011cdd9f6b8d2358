/** The bytes of an archive file: each record is a type byte, an 8-byte little-endian length and
    that many bytes of content. */
module FileFormat {
  import opened Types
  import opened Archive

  /** The numeric values of TYPE_FINGERPRINT and TYPE_COMPRESS (dedupdef.h is not part of this model). */
  datatype Tags = Tags(fingerprint: Byte, compress: Byte)

  const LEN_BYTES := 8

  /** A u_long as it lies in memory; what does not fit is cut off. */
  function ToLittleEndian(n: nat, width: nat): (bytes: Bytes)
    ensures |bytes| == width
  {
    if width == 0 then [] else [(n % 256) as Byte] + ToLittleEndian(n / 256, width - 1)
  }

  function FromLittleEndian(bytes: Bytes): nat {
    if bytes == [] then 0 else bytes[0] as nat + 256 * FromLittleEndian(bytes[1..])
  }

  function Pow256(width: nat): (p: nat)
    ensures p > 0
  {
    if width == 0 then 1 else 256 * Pow256(width - 1)
  }

  lemma {:induction false} LittleEndianRoundTrip(n: nat, width: nat)
    ensures FromLittleEndian(ToLittleEndian(n, width)) == n % Pow256(width)
  {
    if width > 0 {
      LittleEndianRoundTrip(n / 256, width - 1);
      ModSplit(n, Pow256(width - 1));
    } else {
      assert n % 1 == 0;
    }
  }

  /** Byte `k` of the field is digit `k` of the length in base 256: the least significant byte comes first. */
  lemma {:induction false} LittleEndianByte(n: nat, width: nat, k: nat)
    requires k < width
    ensures ToLittleEndian(n, width)[k] as nat == n / Pow256(k) % 256
  {
    if k == 0 {
      assert n / 1 == n;
    } else {
      LittleEndianByte(n / 256, width - 1, k - 1);
      DivTwice(n, Pow256(k - 1));
    }
  }

  lemma DivTwice(n: nat, p: nat)
    requires p > 0
    ensures n / 256 / p == n / (256 * p)
  {
    var q, r := n / 256 / p, (n / 256) % p;
    assert n / 256 == q * p + r;
    assert n == 256 * (q * p + r) + n % 256 == q * (256 * p) + (n % 256 + 256 * r);
    DivUnique(n, 256 * p, q, n % 256 + 256 * r);
  }

  lemma DivUnique(n: nat, m: nat, q: nat, r: nat)
    requires m > 0 && r < m && n == q * m + r
    ensures n / m == q
  {
    ModUnique(n, m, q, r);
    assert (n / m - q) * m == 0;
    SmallMultiple(n / m - q, m);
  }

  lemma ModSplit(n: nat, p: nat)
    requires p > 0
    ensures n % (256 * p) == n % 256 + 256 * ((n / 256) % p)
  {
    var q, r := n / 256 / p, (n / 256) % p;
    assert n / 256 == q * p + r;
    assert n == 256 * (q * p + r) + n % 256;
    ModUnique(n, 256 * p, q, n % 256 + 256 * r);
  }

  function ContentOf(r: Record): Bytes {
    match r
    case Compressed(data) => data
    case Fingerprint(d) => d
  }

  /** The bytes write_file puts out for one record. */
  function SerializeRecord(tags: Tags, r: Record): Bytes {
    [if r.Compressed? then tags.compress else tags.fingerprint]
    + ToLittleEndian(|ContentOf(r)|, LEN_BYTES) + ContentOf(r)
  }

  /** The bytes of a record by their places: the type at 0, the length from 1 on, the least significant
      byte first, and the content from 9 on. */
  lemma RecordBytes(tags: Tags, r: Record)
    ensures var bytes, len := SerializeRecord(tags, r), |ContentOf(r)|;
            && |bytes| == 9 + len
            && bytes[0] == (match r case Compressed(_) => tags.compress case Fingerprint(_) => tags.fingerprint)
            && (forall k :: 0 <= k < 8 ==> bytes[1 + k] as nat == len / Pow256(k) % 256)
            && bytes[9..] == (match r case Compressed(data) => data case Fingerprint(d) => d)
  {
    hide ToLittleEndian, Pow256;
    var bytes, len := SerializeRecord(tags, r), |ContentOf(r)|;
    var field := ToLittleEndian(len, LEN_BYTES);
    forall k | 0 <= k < 8
      ensures bytes[1 + k] as nat == len / Pow256(k) % 256
    {
      assert bytes[1 + k] == field[k];
      LittleEndianByte(len, LEN_BYTES, k);
    }
  }

  lemma LowestByte(n: nat, width: nat)
    requires width > 0
    ensures ToLittleEndian(n, width) == [(n % 256) as Byte] + ToLittleEndian(n / 256, width - 1)
  {
  }

  lemma {:induction false} ZeroField(width: nat)
    ensures ToLittleEndian(0, width) == seq(width, _ => 0 as Byte)
  {
    if width > 0 {
      ZeroField(width - 1);
    }
  }

  /** The first bytes of a data record of 300 bytes: its type, 44, 1 and six zeros. */
  lemma LengthOf300(tags: Tags, data: Bytes)
    requires |data| == 300
    ensures SerializeRecord(tags, Compressed(data)) == [tags.compress, 44, 1, 0, 0, 0, 0, 0, 0] + data
  {
    hide ToLittleEndian;
    LowestByte(300, LEN_BYTES);
    LowestByte(1, 7);
    ZeroField(6);
    assert seq(6, _ => 0 as Byte) == [0, 0, 0, 0, 0, 0];
  }

  function Serialize(tags: Tags, records: seq<Record>): Bytes {
    if records == [] then [] else SerializeRecord(tags, records[0]) + Serialize(tags, records[1..])
  }

  // ---- reading ----------------------------------------------------------------------------------

  datatype Reading =
    | EndOfFile
    | Got(record: Record, rest: Bytes)
    | Bad(error: DecodeError)

  /** The part of read_chunk behind the length: what is done for each record type. */
  function ReadContent(tags: Tags, kind: Byte, len: nat, content: Bytes): Reading {
    if kind == tags.fingerprint then
      if len != SHA1_LEN then Bad(FingerprintSize)
      else if content == [] then Bad(Incomplete)
      else if |content| < SHA1_LEN then Bad(Indeterminate)
      else Got(Fingerprint(content[..SHA1_LEN]), content[SHA1_LEN..])
    else if kind == tags.compress then
      if len == 0 then Bad(EmptyData)
      else
        var received := if len <= |content| then len else |content|;
        if ToInt(received) < 0 then Bad(ReadFailed)
        else if ToInt(received) == 0 then Bad(Incomplete)
        else if received < len then Bad(Indeterminate)
        else Got(Compressed(content[..len]), content[len..])
    else Bad(UnknownType)
  }

  /** read_chunk on the bytes that remain in the file. xread (util.h is not part of this model)
      delivers what is asked for or, at the end of the file, what is left; its result and the
      function's own go through an int. */
  function ReadChunk(tags: Tags, file: Bytes): Reading {
    if file == [] then EndOfFile
    else
      var afterType := file[1..];
      if afterType == [] then Bad(Incomplete)
      else if |afterType| < LEN_BYTES then Bad(Indeterminate)
      else
        ReadContent(tags, file[0], FromLittleEndian(afterType[..LEN_BYTES]), afterType[LEN_BYTES..])
  }

  datatype Turn = NoMore | Stop(error: DecodeError) | Emit(data: Bytes, rest: Bytes, known: map<Bytes, Bytes>)

  /** One turn of the decode loop: the bytes it writes, what it leaves of the file and what it knows then. */
  function DecodeTurn(codec: Codec, tags: Tags, file: Bytes, known: map<Bytes, Bytes>): (turn: Turn)
    ensures turn.Emit? ==> |turn.rest| < |file|
  {
    match ReadChunk(tags, file)
    case EndOfFile => NoMore
    case Bad(e) => Stop(e)
    case Got(r, rest) => Resolved(codec, r, rest, known)
  }

  /** What a record read from the file stands for. */
  function Resolved(codec: Codec, r: Record, rest: Bytes, known: map<Bytes, Bytes>): (turn: Turn)
    ensures turn.Emit? ==> turn.rest == rest
  {
    match r
    case Fingerprint(d) =>
      if d in known then Emit(known[d], rest, known) else Stop(NoCounterpart)
    case Compressed(data) =>
      match codec.Decompress(data)
      case None => Stop(UncompressFailed)
      case Some(u) =>
        if ToInt(|u|) <= 0 then Stop(UncompressFailed) else Emit(u, rest, known[codec.digest(u) := u])
  }

  /** The decode loop on the bytes of a file. */
  function DecodeFile(codec: Codec, tags: Tags, file: Bytes, known: map<Bytes, Bytes>): Decoded
    decreases |file|
  {
    match DecodeTurn(codec, tags, file, known)
    case NoMore => Done([])
    case Stop(e) => Failed(e, [])
    case Emit(data, rest, known') => DecodeFile(codec, tags, rest, known').Prepend(data)
  }

  /** What the writer can put into a record: a full digest, or data whose length fits a u_long. */
  predicate Storable(r: Record) {
    match r
    case Fingerprint(d) => |d| == SHA1_LEN
    case Compressed(data) => 0 < |data| < 0x1_0000_0000_0000_0000
  }

  /** Reading undoes writing, record by record, as long as the length survives the int. */
  lemma ReadUndoesWrite(tags: Tags, r: Record, rest: Bytes)
    requires tags.fingerprint != tags.compress && Storable(r)
    ensures var reading := ReadChunk(tags, SerializeRecord(tags, r) + rest);
            var n := ToInt(|ContentOf(r)|);
            reading == if n < 0 then Bad(ReadFailed) else if n == 0 then Bad(Incomplete) else Got(r, rest)
  {
    var len := |ContentOf(r)|;
    RecordLayout(tags, r, rest);
    assert (ContentOf(r) + rest)[..len] == ContentOf(r) && (ContentOf(r) + rest)[len..] == rest;
  }

  lemma RecordLayout(tags: Tags, r: Record, rest: Bytes)
    requires Storable(r)
    ensures var file := SerializeRecord(tags, r) + rest;
            && |file| > LEN_BYTES + 1
            && file[0] == (if r.Compressed? then tags.compress else tags.fingerprint)
            && FromLittleEndian(file[1..][..LEN_BYTES]) == |ContentOf(r)|
            && file[1..][LEN_BYTES..] == ContentOf(r) + rest
  {
    var len := |ContentOf(r)|;
    LengthField(len);
    Slices(if r.Compressed? then tags.compress else tags.fingerprint, ToLittleEndian(len, LEN_BYTES), ContentOf(r),
           rest);
  }

  lemma Slices(kind: Byte, field: Bytes, content: Bytes, rest: Bytes)
    ensures var file := [kind] + field + content + rest;
            file[0] == kind && file[1..][..|field|] == field && file[1..][|field|..] == content + rest
  {
  }

  lemma LengthField(len: nat)
    requires len < 0x1_0000_0000_0000_0000
    ensures FromLittleEndian(ToLittleEndian(len, LEN_BYTES)) == len
  {
    LittleEndianRoundTrip(len, LEN_BYTES);
    Pow256Of8();
  }

  lemma Pow256Of8()
    ensures Pow256(LEN_BYTES) == 0x1_0000_0000_0000_0000
  {
    assert Pow256(4) == 0x1_0000_0000;
    assert Pow256(6) == 0x1_0000_0000_0000;
  }

  /** Decoding the bytes of any list of storable records is decoding the list. */
  lemma {:induction false} DecodeSerialized(codec: Codec, tags: Tags, records: seq<Record>, known: map<Bytes, Bytes>)
    requires tags.fingerprint != tags.compress
    requires forall i :: 0 <= i < |records| ==> Storable(records[i])
    ensures DecodeFile(codec, tags, Serialize(tags, records), known) == DecodeRecords(codec, records, known)
    decreases |records|
  {
    if records != [] {
      ReadUndoesWrite(tags, records[0], Serialize(tags, records[1..]));
      match records[0]
      case Compressed(data) =>
        match codec.Decompress(data) {
          case Some(u) => DecodeSerialized(codec, tags, records[1..], known[codec.digest(u) := u]);
          case None =>
        }
      case Fingerprint(d) => DecodeSerialized(codec, tags, records[1..], known);
    }
  }

  // ---- records that end the decoding ------------------------------------------------------------

  /** The chunk cache behind a list of records. */
  function Learned(codec: Codec, records: seq<Record>, known: map<Bytes, Bytes>): map<Bytes, Bytes> {
    if records == [] then known
    else
      match records[0]
      case Fingerprint(_) => Learned(codec, records[1..], known)
      case Compressed(data) =>
        match codec.Decompress(data)
        case None => Learned(codec, records[1..], known)
        case Some(u) => Learned(codec, records[1..], known[codec.digest(u) := u])
  }

  /** Good records in front of anything else are decoded first. */
  lemma {:induction false} DecodeFront(codec: Codec, tags: Tags, records: seq<Record>, tail: Bytes,
                                       known: map<Bytes, Bytes>)
    requires tags.fingerprint != tags.compress
    requires forall i :: 0 <= i < |records| ==> Storable(records[i])
    requires DecodeRecords(codec, records, known).Done?
    ensures DecodeFile(codec, tags, Serialize(tags, records) + tail, known)
            == DecodeFile(codec, tags, tail, Learned(codec, records, known))
               .Prepend(DecodeRecords(codec, records, known).output)
    decreases |records|
  {
    if records == [] {
      assert Serialize(tags, records) + tail == tail;
      assert [] + DecodeFile(codec, tags, tail, known).output == DecodeFile(codec, tags, tail, known).output;
    } else {
      var first, later := SerializeRecord(tags, records[0]), Serialize(tags, records[1..]);
      assert Serialize(tags, records) + tail == first + (later + tail);
      ReadUndoesWrite(tags, records[0], later + tail);
      match records[0]
      case Compressed(data) =>
        var u := codec.Decompress(data).value;
        DecodeFront(codec, tags, records[1..], tail, known[codec.digest(u) := u]);
        PrependTwice(DecodeFile(codec, tags, tail, Learned(codec, records, known)), u,
                    DecodeRecords(codec, records[1..], known[codec.digest(u) := u]).output);
      case Fingerprint(d) =>
        DecodeFront(codec, tags, records[1..], tail, known);
        PrependTwice(DecodeFile(codec, tags, tail, Learned(codec, records, known)), known[d],
                    DecodeRecords(codec, records[1..], known).output);
    }
  }

  lemma PrependTwice(d: Decoded, a: Bytes, b: Bytes)
    ensures d.Prepend(b).Prepend(a) == d.Prepend(a + b)
  {
    assert a + (b + d.output) == (a + b) + d.output;
  }

  /** How reading ends when a file breaks off, at an unknown type, a digest or data of a wrong length. */
  lemma BadRecords(tags: Tags, bad: Bytes)
    requires tags.fingerprint != tags.compress
    ensures |bad| == 1 ==> ReadChunk(tags, bad) == Bad(Incomplete)
    ensures 1 < |bad| < 9 ==> ReadChunk(tags, bad) == Bad(Indeterminate)
    ensures |bad| >= 9 ==>
              var kind, len, reading := bad[0], FromLittleEndian(bad[1..9]), ReadChunk(tags, bad);
              && (kind != tags.fingerprint && kind != tags.compress ==> reading == Bad(UnknownType))
              && (kind == tags.fingerprint && len != 20 ==> reading == Bad(FingerprintSize))
              && (kind == tags.compress && len == 0 ==> reading == Bad(EmptyData))
              && ((kind == tags.fingerprint && len == 20) || (kind == tags.compress && len > 0) ==>
                    && (|bad| == 9 ==> reading == Bad(Incomplete))
                    && (9 < |bad| < 9 + len && ToInt(|bad| - 9) > 0 ==> reading == Bad(Indeterminate)))
  {
    hide FromLittleEndian;
    if |bad| >= 9 {
      assert bad[1..][..LEN_BYTES] == bad[1..9];
    }
  }

  /** Behind good records, a record that cannot be read ends the decoding with its own error, after the
      data of the good ones was written. */
  lemma BadRecordEnds(codec: Codec, tags: Tags, records: seq<Record>, bad: Bytes)
    requires tags.fingerprint != tags.compress
    requires forall i :: 0 <= i < |records| ==> Storable(records[i])
    requires DecodeRecords(codec, records, map[]).Done? && ReadChunk(tags, bad).Bad?
    ensures DecodeFile(codec, tags, Serialize(tags, records) + bad, map[])
            == Failed(ReadChunk(tags, bad).error, DecodeRecords(codec, records, map[]).output)
  {
    hide ReadChunk, DecodeRecords;
    DecodeFront(codec, tags, records, bad, map[]);
    var out := DecodeRecords(codec, records, map[]).output;
    assert out + [] == out;
  }

  lemma {:induction false} LearnedExactly(codec: Codec, records: seq<Record>, known: map<Bytes, Bytes>, d: Bytes)
    requires DecodeRecords(codec, records, known).Done?
    ensures d in Learned(codec, records, known)
            <==> d in known || exists k :: 0 <= k < |records| && records[k].Compressed?
                                           && DigestOf(codec, records[k]) == d
    decreases |records|
  {
    if records != [] {
      var known' := match records[0]
                    case Fingerprint(_) => known
                    case Compressed(data) =>
                      var u := codec.Decompress(data).value;
                      known[codec.digest(u) := u];
      LearnedExactly(codec, records[1..], known', d);
      var tail := records[1..];
      forall k | 0 <= k < |records|
        ensures k > 0 ==> records[k] == tail[k - 1]
      {
      }
      if j :| 0 <= j < |tail| && tail[j].Compressed? && DigestOf(codec, tail[j]) == d {
        assert records[j + 1] == tail[j];
      }
    }
  }

  /** Behind good records a digest ends the decoding for want of its counterpart exactly when none of
      them holds data with this digest. */
  lemma MissingCounterpartEnds(codec: Codec, tags: Tags, records: seq<Record>, d: Bytes, rest: Bytes)
    requires tags.fingerprint != tags.compress && |d| == SHA1_LEN
    requires forall i :: 0 <= i < |records| ==> Storable(records[i])
    requires DecodeRecords(codec, records, map[]).Done?
    ensures var out := DecodeRecords(codec, records, map[]).output;
            var bytes := Serialize(tags, records) + (SerializeRecord(tags, Fingerprint(d)) + rest);
            var seen := exists k :: 0 <= k < |records| && records[k].Compressed? && DigestOf(codec, records[k]) == d;
            DecodeTurn(codec, tags, SerializeRecord(tags, Fingerprint(d)) + rest, Learned(codec, records, map[])).Emit?
            == seen
            && (!seen ==> DecodeFile(codec, tags, bytes, map[]) == Failed(NoCounterpart, out))
  {
    var tail := SerializeRecord(tags, Fingerprint(d)) + rest;
    DecodeFront(codec, tags, records, tail, map[]);
    LearnedExactly(codec, records, map[], d);
    ReadUndoesWrite(tags, Fingerprint(d), rest);
    var out := DecodeRecords(codec, records, map[]).output;
    assert out + [] == out;
  }

  /** Parsing a whole file into records. */
  function ParseAll(tags: Tags, file: Bytes): Option<seq<Record>>
    decreases |file|
  {
    match ReadChunk(tags, file)
    case EndOfFile => Some([])
    case Bad(_) => None
    case Got(r, rest) =>
      match ParseAll(tags, rest)
      case None => None
      case Some(later) => Some([r] + later)
  }

  predicate Readable(r: Record) {
    ToInt(|ContentOf(r)|) > 0
  }

  predicate AllReadable(records: seq<Record>) {
    forall i :: 0 <= i < |records| ==> Readable(records[i])
  }

  lemma SplitReadable(records: seq<Record>)
    requires records != []
    ensures AllReadable(records) <==> Readable(records[0]) && AllReadable(records[1..])
  {
    if AllReadable(records[1..]) {
      assert forall i :: 1 <= i < |records| ==> records[i] == records[1..][i - 1];
    }
  }

  /** A list of storable records comes back from its bytes exactly when every length is positive as
      an int. */
  lemma {:induction false} ParseUndoesSerialize(tags: Tags, records: seq<Record>)
    requires tags.fingerprint != tags.compress
    requires forall i :: 0 <= i < |records| ==> Storable(records[i])
    ensures ParseAll(tags, Serialize(tags, records)) == Some(records)
            <==> AllReadable(records)
    decreases |records|
  {
    if records != [] {
      var tail := records[1..];
      ParseOne(tags, records[0], Serialize(tags, tail));
      ParseUndoesSerialize(tags, tail);
      SplitReadable(records);
      match ParseAll(tags, Serialize(tags, tail))
      case Some(later) => SameHead(records, later);
      case None =>
    }
  }

  lemma SameHead(records: seq<Record>, later: seq<Record>)
    requires records != []
    ensures [records[0]] + later == records <==> later == records[1..]
  {
    assert ([records[0]] + later)[1..] == later;
  }

  lemma ParseOne(tags: Tags, r: Record, rest: Bytes)
    requires tags.fingerprint != tags.compress && Storable(r)
    ensures ParseAll(tags, SerializeRecord(tags, r) + rest)
            == if Readable(r) && ParseAll(tags, rest).Some? then Some([r] + ParseAll(tags, rest).value) else None
  {
    ReadUndoesWrite(tags, r, rest);
  }

  /** The whole file of an archive comes back as the input bytes: writer, file format and decoder
      undo each other. */
  lemma FileRoundTrip(codec: Codec, tags: Tags, chunks: seq<Bytes>)
    requires Lossless(codec) && NoCollision(codec, chunks) && tags.fingerprint != tags.compress
    requires forall i :: 0 <= i < |chunks| ==>
      chunks[i] != [] && |codec.compress(chunks[i])| < 0x1_0000_0000_0000_0000
    ensures DecodeFile(codec, tags, Serialize(tags, RecordsOf(codec, chunks)), map[]) == Done(Concat(chunks))
            <==> FitsFrom(codec, chunks, 0)
  {
    var records := RecordsOf(codec, chunks);
    forall i | 0 <= i < |records|
      ensures Storable(records[i])
    {
      assert records[i] == RecordAt(codec, chunks, i);
    }
    DecodeSerialized(codec, tags, records, map[]);
    DecodeUndoesRecords(codec, chunks);
  }
}
