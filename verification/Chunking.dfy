/** Content-defined chunking as a function of the whole input.

    The segmenter (`rabinseg`, rabin.h) is not part of this model; it enters as a parameter with the
    contract below. The coarse cut of the first pipeline stage is itself such a segmenter, so one
    chunker describes both the serial scan and the two levels of the parallel one. */
module Chunking {
  import opened Types

  /** Length of the first chunk found in a buffer; the buffer length when no cut was found. */
  type Segmenter = Bytes -> nat

  ghost predicate CutInRange(seg: Segmenter, s: Bytes) {
    s != [] ==> 1 <= seg(s) <= |s|
  }

  /** A cut found in `s` stays where it is when more bytes follow, and a scan of `s` that found none
      does not find one in the same bytes later. */
  ghost predicate CutIsStable(seg: Segmenter, s: Bytes, t: Bytes) {
    s != [] && s <= t ==> if seg(s) < |s| then seg(t) == seg(s) else |s| <= seg(t)
  }

  ghost predicate PrefixStable(seg: Segmenter) {
    && (forall s: Bytes :: CutInRange(seg, s))
    && (forall s: Bytes, t: Bytes :: CutIsStable(seg, s, t))
  }

  /** The whole-input chunker. */
  ghost function Chunks(seg: Segmenter, input: Bytes): seq<Bytes>
    requires PrefixStable(seg)
  {
    if input == [] then []
    else
      assert CutInRange(seg, input);
      [input[..seg(input)]] + Chunks(seg, input[seg(input)..])
  }

  /** Chunks are never empty, and put together again they are the input. */
  lemma {:induction false} ChunksPartition(seg: Segmenter, input: Bytes)
    requires PrefixStable(seg)
    ensures Concat(Chunks(seg, input)) == input
    ensures forall k :: 0 <= k < |Chunks(seg, input)| ==> Chunks(seg, input)[k] != []
    ensures input != [] ==> Chunks(seg, input) != []
  {
    if input != [] {
      assert CutInRange(seg, input);
      ChunksPartition(seg, input[seg(input)..]);
    }
  }

  /** `done` and the chunks of the `pending` bytes together are `all`. */
  ghost predicate Remaining(seg: Segmenter, done: seq<Bytes>, pending: Bytes, all: seq<Bytes>)
    requires PrefixStable(seg)
  {
    done + Chunks(seg, pending) == all
  }

  /** Cutting off the first chunk of a buffer does not depend on what follows the buffer. */
  lemma FirstChunk(seg: Segmenter, buffer: Bytes, rest: Bytes)
    requires PrefixStable(seg)
    requires buffer != [] && seg(buffer) < |buffer|
    ensures Chunks(seg, buffer + rest) == [buffer[..seg(buffer)]] + Chunks(seg, buffer[seg(buffer)..] + rest)
  {
    assert CutInRange(seg, buffer) && CutIsStable(seg, buffer, buffer + rest);
    assert (buffer + rest)[..seg(buffer)] == buffer[..seg(buffer)];
    assert (buffer + rest)[seg(buffer)..] == buffer[seg(buffer)..] + rest;
  }

  lemma CutOff(seg: Segmenter, done: seq<Bytes>, buffer: Bytes, unread: Bytes, all: seq<Bytes>)
    requires PrefixStable(seg)
    requires buffer != [] && seg(buffer) < |buffer|
    requires Remaining(seg, done, buffer + unread, all)
    ensures Remaining(seg, done + [buffer[..seg(buffer)]], buffer[seg(buffer)..] + unread, all)
  {
    FirstChunk(seg, buffer, unread);
    var later := Chunks(seg, buffer[seg(buffer)..] + unread);
    assert done + ([buffer[..seg(buffer)]] + later) == (done + [buffer[..seg(buffer)]]) + later;
  }

  /** A buffer without an inner cut is one chunk once nothing follows it. */
  lemma LastChunk(seg: Segmenter, buffer: Bytes)
    requires PrefixStable(seg)
    requires buffer != [] && seg(buffer) == |buffer|
    ensures Chunks(seg, buffer) == [buffer]
  {
    assert buffer[..|buffer|] == buffer && buffer[|buffer|..] == [];
  }

  lemma AllRemaining(seg: Segmenter, input: Bytes)
    requires PrefixStable(seg)
    ensures Remaining(seg, [], [] + input, Chunks(seg, input))
  {
    assert [] + input == input;
  }

  lemma NoneRemaining(seg: Segmenter, done: seq<Bytes>, all: seq<Bytes>)
    requires PrefixStable(seg) && Remaining(seg, done, [], all)
    ensures done == all
  {
  }

  lemma OneRemaining(seg: Segmenter, done: seq<Bytes>, buffer: Bytes, all: seq<Bytes>)
    requires PrefixStable(seg) && Remaining(seg, done, buffer, all)
    requires buffer != [] && seg(buffer) == |buffer|
    ensures done + [buffer] == all
  {
    LastChunk(seg, buffer);
  }

  lemma CutsInRange(seg: Segmenter, s: Bytes)
    requires PrefixStable(seg) && s != []
    ensures 1 <= seg(s) <= |s|
  {
    assert CutInRange(seg, s);
  }

  /** The next chunk of the whole input is the first one of what remains. */
  lemma NextRemaining(seg: Segmenter, all: seq<Bytes>, n: nat, rest: Bytes)
    requires PrefixStable(seg) && n <= |all| && Remaining(seg, all[..n], rest, all) && rest != []
    ensures var offset := seg(rest);
            && 1 <= offset <= |rest|
            && if offset < |rest|
               then n + 1 < |all| && all[n] == rest[..offset] && Remaining(seg, all[..n + 1], rest[offset..], all)
               else n + 1 == |all| && all[n] == rest
  {
    CutsInRange(seg, rest);
    var offset := seg(rest);
    if offset < |rest| {
      assert rest + [] == rest && rest[offset..] + [] == rest[offset..];
      CutOff(seg, all[..n], rest, [], all);
      ChunksPartition(seg, rest[offset..]);
      assert all[n] == (all[..n] + [rest[..offset]])[n];
      assert all[..n] + [rest[..offset]] == all[..n + 1];
    } else {
      OneRemaining(seg, all[..n], rest, all);
    }
  }

  /** The cut of the first pipeline stage: at least `jump` bytes are skipped before a cut is looked for. */
  function CoarseCut(seg: Segmenter, jump: nat): Segmenter {
    (s: Bytes) => if |s| <= jump then |s| else jump + seg(s[jump..])
  }

  lemma CoarseCutIsPrefixStable(seg: Segmenter, jump: nat)
    requires PrefixStable(seg)
    ensures PrefixStable(CoarseCut(seg, jump))
  {
    var cut := CoarseCut(seg, jump);
    forall s: Bytes
      ensures CutInRange(cut, s)
    {
      if |s| > jump {
        assert CutInRange(seg, s[jump..]);
      }
    }
    forall s: Bytes, t: Bytes
      ensures CutIsStable(cut, s, t)
    {
      if s <= t && |s| > jump {
        assert s[jump..] <= t[jump..];
        assert CutIsStable(seg, s[jump..], t[jump..]);
      } else if |t| > jump {
        assert CutInRange(seg, t[jump..]);
      }
    }
  }

  // ---- where the cuts are -----------------------------------------------------------------------

  /** Every part but the last ends at the first cut of what remains, and the last one has none inside. */
  ghost predicate CutAt(cut: Segmenter, parts: seq<Bytes>) {
    forall a :: 0 <= a < |parts| ==> parts[a] != [] && |parts[a]| == cut(Concat(parts[a..]))
  }

  lemma {:induction false} ChunksAreCut(seg: Segmenter, input: Bytes)
    requires PrefixStable(seg)
    ensures CutAt(seg, Chunks(seg, input))
  {
    if input != [] {
      var parts := Chunks(seg, input);
      CutsInRange(seg, input);
      ChunksPartition(seg, input);
      ChunksAreCut(seg, input[seg(input)..]);
      forall a | 0 <= a < |parts|
        ensures parts[a] != [] && |parts[a]| == seg(Concat(parts[a..]))
      {
        if a == 0 {
          assert parts[0..] == parts;
        } else {
          assert parts[a..] == parts[1..][a - 1..];
        }
      }
    }
  }

  lemma {:induction false} CutIsUnique(seg: Segmenter, input: Bytes, parts: seq<Bytes>)
    requires PrefixStable(seg) && Concat(parts) == input && CutAt(seg, parts)
    ensures parts == Chunks(seg, input)
  {
    if parts != [] {
      var tail := parts[1..];
      assert parts[0..] == parts && parts[0] + Concat(tail) == input;
      assert input[..|parts[0]|] == parts[0] && input[|parts[0]|..] == Concat(tail);
      forall a | 0 <= a < |tail|
        ensures tail[a] != [] && |tail[a]| == seg(Concat(tail[a..]))
      {
        assert tail[a..] == parts[a + 1..];
      }
      CutIsUnique(seg, Concat(tail), tail);
    }
  }

  /** A list is the chunk list of an input exactly when its parts make up the input and each ends where
      the segmenter finds the first cut of what remains. */
  lemma ChunksExactly(seg: Segmenter, input: Bytes, parts: seq<Bytes>)
    requires PrefixStable(seg)
    ensures parts == Chunks(seg, input) <==> Concat(parts) == input && CutAt(seg, parts)
  {
    ChunksPartition(seg, input);
    ChunksAreCut(seg, input);
    if Concat(parts) == input && CutAt(seg, parts) {
      CutIsUnique(seg, input, parts);
    }
  }

  /** The coarse chunks of the first stage. */
  ghost function CoarseChunks(seg: Segmenter, jump: nat, input: Bytes): seq<Bytes>
    requires PrefixStable(seg)
  {
    CoarseCutIsPrefixStable(seg, jump);
    Chunks(CoarseCut(seg, jump), input)
  }

  /** A coarse chunk ends at the first cut at least ANCHOR_JUMP bytes behind its beginning, or at the end
      of the input when there is none. */
  ghost predicate JumpsThenCuts(seg: Segmenter, jump: nat, parts: seq<Bytes>, a: nat)
    requires a < |parts|
  {
    var rest := Concat(parts[a..]);
    && parts[a] != []
    && if |rest| <= jump then parts[a] == rest else |parts[a]| > jump && |parts[a]| - jump == seg(rest[jump..])
  }

  /** A list is the list of coarse chunks exactly when its parts make up the input and each is cut like that. */
  lemma CoarseChunksExactly(seg: Segmenter, jump: nat, input: Bytes, parts: seq<Bytes>)
    requires PrefixStable(seg)
    ensures parts == CoarseChunks(seg, jump, input)
            <==> Concat(parts) == input && forall a :: 0 <= a < |parts| ==> JumpsThenCuts(seg, jump, parts, a)
  {
    var cut := CoarseCut(seg, jump);
    CoarseCutIsPrefixStable(seg, jump);
    ChunksExactly(cut, input, parts);
    forall a | 0 <= a < |parts|
      ensures JumpsThenCuts(seg, jump, parts, a) <==> parts[a] != [] && |parts[a]| == cut(Concat(parts[a..]))
    {
      var rest := Concat(parts[a..]);
      assert parts[a..][0] == parts[a] && rest == parts[a] + Concat(parts[a..][1..]);
      if |rest| > jump {
        CutsInRange(seg, rest[jump..]);
      } else if |parts[a]| == |rest| {
        assert rest[..|parts[a]|] == parts[a];
      }
    }
  }

  /** Every coarse chunk but the last is longer than ANCHOR_JUMP and ends at a cut of what remains behind
      the jump; the last one has no such cut inside. */
  lemma CoarseCuts(seg: Segmenter, jump: nat, input: Bytes, a: nat)
    requires PrefixStable(seg) && a < |CoarseChunks(seg, jump, input)|
    ensures var coarse := CoarseChunks(seg, jump, input);
            var rest := Concat(coarse[a..]);
            if a + 1 < |coarse| then jump < |coarse[a]| < |rest| && |coarse[a]| - jump == seg(rest[jump..])
            else |coarse[a]| <= jump || seg(coarse[a][jump..]) == |coarse[a]| - jump
  {
    var coarse := CoarseChunks(seg, jump, input);
    CoarseChunksExactly(seg, jump, input, coarse);
    assert JumpsThenCuts(seg, jump, coarse, a);
    assert coarse[a..][0] == coarse[a] && coarse[a..][1..] == coarse[a + 1..];
    if a + 1 < |coarse| {
      assert coarse[a + 1..][0] == coarse[a + 1] && JumpsThenCuts(seg, jump, coarse, a + 1);
    } else {
      assert Concat(coarse[a..]) == coarse[a] + [] == coarse[a];
    }
  }

  /** Both levels of the parallel pipeline: coarse chunks, each cut again from its beginning. */
  ghost function TwoLevel(seg: Segmenter, jump: nat, input: Bytes): (plan: seq<seq<Bytes>>)
    requires PrefixStable(seg)
    ensures |plan| == |CoarseChunks(seg, jump, input)|
  {
    var coarse := CoarseChunks(seg, jump, input);
    seq(|coarse|, a requires 0 <= a < |coarse| => Chunks(seg, coarse[a]))
  }

  /** The plan, without naming either chunker: one row for each coarse chunk, whose pieces make up the
      coarse chunk and end at the cuts found from its beginning. */
  lemma TwoLevelExactly(seg: Segmenter, jump: nat, input: Bytes, plan: seq<seq<Bytes>>)
    requires PrefixStable(seg)
    ensures plan == TwoLevel(seg, jump, input)
            <==> (var coarse := Rows(plan);
                  && Concat(coarse) == input && (forall a :: 0 <= a < |coarse| ==> JumpsThenCuts(seg, jump, coarse, a))
                  && forall a :: 0 <= a < |plan| ==> CutAt(seg, plan[a]))
  {
    var coarse := CoarseChunks(seg, jump, input);
    CoarseChunksExactly(seg, jump, input, Rows(plan));
    forall a | 0 <= a < |plan|
      ensures plan[a] == Chunks(seg, Rows(plan)[a]) <==> CutAt(seg, plan[a])
    {
      ChunksExactly(seg, Rows(plan)[a], plan[a]);
    }
    if plan == TwoLevel(seg, jump, input) {
      forall a | 0 <= a < |coarse|
        ensures Rows(plan)[a] == coarse[a]
      {
        ChunksPartition(seg, coarse[a]);
      }
      assert Rows(plan) == coarse;
    }
  }

  /** The bytes of each row. */
  function Rows(plan: seq<seq<Bytes>>): (rows: seq<Bytes>)
    ensures |rows| == |plan|
  {
    seq(|plan|, a requires 0 <= a < |plan| => Concat(plan[a]))
  }

  ghost function Flatten(plan: seq<seq<Bytes>>): seq<Bytes> {
    if plan == [] then [] else plan[0] + Flatten(plan[1..])
  }

  lemma {:induction false} FlattenRefined(seg: Segmenter, coarse: seq<Bytes>, plan: seq<seq<Bytes>>)
    requires PrefixStable(seg)
    requires |plan| == |coarse| && forall a :: 0 <= a < |coarse| ==> plan[a] == Chunks(seg, coarse[a])
    ensures Concat(Flatten(plan)) == Concat(coarse)
  {
    if plan != [] {
      FlattenRefined(seg, coarse[1..], plan[1..]);
      ChunksPartition(seg, coarse[0]);
      ConcatAppend(plan[0], Flatten(plan[1..]));
    }
  }

  /** Splitting twice loses nothing: the pieces in (l1, l2) order are the input. */
  lemma TwoLevelConcat(seg: Segmenter, jump: nat, input: Bytes)
    requires PrefixStable(seg)
    ensures Concat(Flatten(TwoLevel(seg, jump, input))) == input
  {
    CoarseCutIsPrefixStable(seg, jump);
    FlattenRefined(seg, CoarseChunks(seg, jump, input), TwoLevel(seg, jump, input));
    ChunksPartition(CoarseCut(seg, jump), input);
  }
}
