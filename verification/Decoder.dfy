/** The decoder: a loop over chunk objects, some of which end up in the chunk cache. */
module Decoder {
  import opened Types
  import opened Archive
  import opened FileFormat

  class Chunk {
    var isDuplicate: bool
    var sha1: Bytes
    var compressed: Bytes
    var uncompressed: Bytes

    constructor () {
      isDuplicate := false;
      sha1, compressed, uncompressed := [], [], [];
    }
  }

  datatype Progress = Continue | Finished | Exit(error: DecodeError)

  class Decoding {
    const codec: Codec
    const tags: Tags
    var file: Bytes             // what is left of the input file
    var output: Bytes           // what was written to the output file
    var cache: map<Bytes, Chunk>

    constructor (codec: Codec, tags: Tags, file: Bytes)
      ensures this.codec == codec && this.tags == tags && this.file == file
      ensures output == [] && cache == map[]
    {
      this.codec, this.tags, this.file := codec, tags, file;
      output, cache := [], map[];
    }

    /** The uncompressed data the cache gives for each digest. */
    ghost function Known(): map<Bytes, Bytes>
      reads this`cache, cache.Values
    {
      map d | d in cache :: cache[d].uncompressed
    }

    /** The next `n` bytes, or the rest of the file when there are fewer. */
    method Xread(n: nat) returns (got: Bytes)
      modifies this`file
      ensures got + file == old(file)
      ensures |got| == if n <= |old(file)| then n else |old(file)|
    {
      var k := if n <= |file| then n else |file|;
      got := file[..k];
      file := file[k..];
    }

    /** read_chunk: fills the working object with the next record of the file. */
    method ReadNext(chunk: Chunk) returns (progress: Progress)
      modifies this`file, chunk
      ensures match ReadChunk(tags, old(file))
              case EndOfFile => progress == Finished && unchanged(chunk)
              case Bad(e) => progress == Exit(e)
              case Got(r, rest) => progress == Continue && file == rest && Holds(chunk, r)
    {
      ghost var whole := file;
      var kind := Xread(1);
      if kind == [] {
        return Finished;
      }
      var field := Xread(LEN_BYTES);
      if field == [] {
        return Exit(Incomplete);
      }
      if |field| < LEN_BYTES {
        return Exit(Indeterminate);
      }
      assert field == whole[1..][..LEN_BYTES] && file == whole[1..][LEN_BYTES..];
      var len := FromLittleEndian(field);
      ghost var content := file;
      if kind[0] == tags.fingerprint {
        if len != SHA1_LEN {
          return Exit(FingerprintSize);
        }
        var sum := Xread(SHA1_LEN);
        if sum == [] {
          return Exit(Incomplete);
        }
        if |sum| < SHA1_LEN {
          return Exit(Indeterminate);
        }
        assert sum == content[..SHA1_LEN] && file == content[SHA1_LEN..];
        chunk.sha1 := sum;
        chunk.isDuplicate := true;
      } else if kind[0] == tags.compress {
        if len == 0 {
          return Exit(EmptyData);
        }
        var data := Xread(len);
        var r := ToInt(|data|);
        if r < 0 {
          return Exit(ReadFailed);
        }
        if r == 0 {
          return Exit(Incomplete);
        }
        if |data| < len {
          return Exit(Indeterminate);
        }
        assert data == content[..len] && file == content[len..];
        chunk.compressed := data;
        chunk.isDuplicate := false;
      } else {
        return Exit(UnknownType);
      }
      return Continue;
    }

    /** uncompress_chunk: the compressed buffer is given up, the uncompressed one is filled. */
    method Uncompress(chunk: Chunk) returns (ok: bool)
      requires !chunk.isDuplicate
      modifies chunk
      ensures var plain := codec.Decompress(old(chunk.compressed));
              ok == (plain.Some? && ToInt(|plain.value|) > 0) && (ok ==> chunk.uncompressed == plain.value)
    {
      match codec.Decompress(chunk.compressed)
      case None => ok := false;
      case Some(u) =>
        chunk.uncompressed := u;
        chunk.compressed := [];
        ok := ToInt(|u|) > 0;
    }

    /** The object is not one of the cached ones. */
    ghost predicate Free(chunk: Chunk?)
      reads this`cache
    {
      forall d :: d in cache ==> cache[d] != chunk
    }

    /** Computes the digest of an uncompressed object and puts the object into the cache. */
    method Remember(chunk: Chunk)
      requires Free(chunk)
      modifies this`cache, chunk`sha1
      ensures cache == old(cache)[codec.digest(chunk.uncompressed) := chunk]
      ensures chunk.sha1 == codec.digest(chunk.uncompressed)
    {
      chunk.sha1 := codec.digest(chunk.uncompressed);
      cache := cache[chunk.sha1 := chunk];
    }

    /** The object with the uncompressed data of the record just read: the working object itself,
        which then belongs to the cache, or the unique counterpart found there. */
    method Resolve(chunk: Chunk, ghost r: Record) returns (entry: Chunk?, error: DecodeError)
      requires Free(chunk) && Holds(chunk, r)
      modifies this`cache, chunk
      ensures forall d :: d in old(cache) ==> unchanged(old(cache[d]))
      ensures r.Fingerprint? || entry == null ==> cache == old(cache)
      ensures forall d :: d in cache ==> (d in old(cache) && cache[d] == old(cache[d])) || cache[d] == chunk
      ensures Resolved(codec, r, file, old(Known()))
              == if entry == null then Stop(error) else Emit(entry.uncompressed, file, Known())
    {
      error := NoCounterpart;
      ghost var known := Known();
      if !chunk.isDuplicate {
        var ok := Uncompress(chunk);
        if !ok {
          return null, UncompressFailed;
        }
        Remember(chunk);
        entry := chunk;
        assert Known() == known[codec.digest(chunk.uncompressed) := chunk.uncompressed];
      } else if chunk.sha1 in cache {
        entry := cache[chunk.sha1];
      } else {
        entry := null;
      }
    }

    /** The object carries a record as read_chunk leaves it there. */
    ghost predicate Holds(chunk: Chunk, r: Record)
      reads chunk
    {
      match r
      case Fingerprint(d) => chunk.isDuplicate && chunk.sha1 == d
      case Compressed(data) => !chunk.isDuplicate && chunk.compressed == data
    }

    /** One turn of the decode loop. The object handed back for the next turn is never a cached one,
        so no cached object is written again. */
    method DecodeOne(working: Chunk?) returns (next: Chunk?, progress: Progress)
      requires Free(working)
      modifies this`file, this`output, this`cache, working
      ensures forall d :: d in old(cache) ==> unchanged(old(cache[d]))
      ensures Free(next) && (next == null || next == working || fresh(next))
      ensures forall d :: d in cache
                     ==> (d in old(cache) && cache[d] == old(cache[d])) || cache[d] == working || fresh(cache[d])
      ensures match progress
              case Continue =>
                && old(output) <= output
                && DecodeTurn(codec, tags, old(file), old(Known())) == Emit(output[|old(output)|..], file, Known())
              case Finished => output == old(output) && DecodeTurn(codec, tags, old(file), old(Known())) == NoMore
              case Exit(e) => output == old(output) && DecodeTurn(codec, tags, old(file), old(Known())) == Stop(e)
    {
      var chunk: Chunk;
      if working == null {
        chunk := new Chunk();
      } else {
        chunk := working;
      }
      next := chunk;
      progress := ReadNext(chunk);
      if progress != Continue {
        return;
      }
      assert Known() == old(Known());
      var isDuplicate := chunk.isDuplicate;
      var entry, error := Resolve(chunk, ReadChunk(tags, old(file)).record);
      if entry == null {
        return next, Exit(error);
      }
      if !isDuplicate {
        next := null;
      }
      output := output + entry.uncompressed;
      assert output[|old(output)|..] == entry.uncompressed;
    }

    /** Decode, from the first record on. */
    method Decode() returns (failure: Option<DecodeError>)
      requires output == [] && cache == map[]
      modifies this`file, this`output, this`cache
      ensures DecodeFile(codec, tags, old(file), map[])
              == match failure case None => Done(output) case Some(e) => Failed(e, output)
    {
      var chunk: Chunk? := null;
      failure := None;
      var progress := Continue;
      assert Known() == map[];
      while progress == Continue
        invariant progress == Continue ==> failure == None
        invariant (forall d :: d in cache ==> fresh(cache[d])) && (chunk == null || fresh(chunk)) && Free(chunk)
        invariant DecodeFile(codec, tags, old(file), map[])
                  == match progress
                     case Continue => DecodeFile(codec, tags, file, Known()).Prepend(output)
                     case Finished => Done(output)
                     case Exit(e) => Failed(e, output)
        decreases if progress == Continue then |file| + 1 else 0
      {
        ghost var before := output;
        chunk, progress := DecodeOne(chunk);
        if progress == Continue {
          PrependTwice(DecodeFile(codec, tags, file, Known()), before, output[|before|..]);
          assert before + output[|before|..] == output;
        }
      }
      if progress.Exit? {
        failure := Some(progress.error);
      }
    }
  }
}
