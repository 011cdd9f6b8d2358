/** The two fragmentation stages of the parallel encoder, each as the loop one thread runs. How the
    chunks travel between the stages is the business of module Pipeline. */
module Fragmenter {
  import opened Types
  import opened Chunking
  import opened Source

  /** A coarse chunk with its level-1 sequence number. */
  datatype Coarse = Coarse(l1: nat, data: Bytes)

  datatype Piece = Piece(l1: nat, l2: nat, isLast: bool, data: Bytes)

  /** Level-1 numbers count up from 0 without a gap. */
  ghost function Numbered(chunks: seq<Bytes>): (coarse: seq<Coarse>)
    ensures |coarse| == |chunks|
  {
    seq(|chunks|, i requires 0 <= i < |chunks| => Coarse(i, chunks[i]))
  }

  /** Level-2 numbers count up from 0 within a coarse chunk, and the last piece is marked. */
  ghost function Pieces(l1: nat, chunks: seq<Bytes>): (pieces: seq<Piece>)
    ensures |pieces| == |chunks|
  {
    seq(|chunks|, k requires 0 <= k < |chunks| => Piece(l1, k, k == |chunks| - 1, chunks[k]))
  }

  lemma NumberedNext(done: seq<Bytes>, c: Bytes)
    ensures Numbered(done + [c]) == Numbered(done) + [Coarse(|done|, c)]
  {
  }

  /** The split loop of the first stage. The buffer has level-1 number `l1`, the next new one gets
      `anchorcount`. */
  method SplitCoarse(seg: Segmenter, jump: nat, buffer: Coarse, anchorcount: nat, sent: seq<Coarse>,
                     ghost done: seq<Bytes>, ghost unread: Bytes, ghost all: seq<Bytes>)
    returns (temp: Coarse, anchorcount': nat, sent': seq<Coarse>, ghost done': seq<Bytes>)
    requires PrefixStable(seg) && PrefixStable(CoarseCut(seg, jump))
    requires buffer.data != [] && buffer.l1 == |done| && anchorcount == |done| + 1 && sent == Numbered(done)
    requires Remaining(CoarseCut(seg, jump), done, buffer.data + unread, all)
    ensures temp.data != [] && temp.l1 == |done'| && anchorcount' == |done'| + 1 && sent' == Numbered(done')
    ensures CoarseCut(seg, jump)(temp.data) == |temp.data|
    ensures Remaining(CoarseCut(seg, jump), done', temp.data + unread, all)
  {
    ghost var cut := CoarseCut(seg, jump);
    var chunk := buffer;
    temp := chunk;
    anchorcount', sent', done' := anchorcount, sent, done;
    var split := true;
    while split
      invariant chunk.data != [] && chunk.l1 == |done'| && anchorcount' == |done'| + 1 && sent' == Numbered(done')
      invariant Remaining(cut, done', chunk.data + unread, all)
      invariant !split ==> temp == chunk && cut(chunk.data) == |chunk.data|
      decreases split, |chunk.data|
    {
      assert CutInRange(cut, chunk.data);
      split := false;
      if jump < |chunk.data| {
        var offset := seg(chunk.data[jump..]);
        if offset + jump < |chunk.data| {
          CutOff(cut, done', chunk.data, unread, all);
          NumberedNext(done', chunk.data[..offset + jump]);
          temp := Coarse(anchorcount', chunk.data[offset + jump..]);
          anchorcount' := anchorcount' + 1;
          sent' := sent' + [chunk.(data := chunk.data[..offset + jump])];
          done' := done' + [chunk.data[..offset + jump]];
          chunk := temp;
          split := true;
        } else {
          temp := chunk;
        }
      } else {
        temp := chunk;
      }
    }
  }

  /** Fragment: the coarse chunks are those of the whole input whatever the reads deliver, numbered
      0, 1, 2, ... even when a leftover is carried into a new buffer. */
  method Fragment(input: Input, seg: Segmenter, jump: nat, maxbuf: nat) returns (sent: seq<Coarse>)
    requires PrefixStable(seg) && maxbuf > 0
    requires input.Valid() && input.seek == 0
    modifies input
    ensures input.Valid() && sent == Numbered(CoarseChunks(seg, jump, input.data))
  {
    CoarseCutIsPrefixStable(seg, jump);
    ghost var cut := CoarseCut(seg, jump);
    ghost var all := Chunks(cut, input.data);
    ghost var done: seq<Bytes> := [];
    sent := [];
    var anchorcount := 0;
    var temp: Option<Coarse> := None;
    AllRemaining(cut, input.data);
    assert input.Unread() == input.data;
    assert Numbered(done) == [];
    hide PrefixStable, Chunks, CoarseCut, Remaining, Numbered;
    while true
      invariant input.Valid() && sent == Numbered(done)
      invariant temp.None? ==> anchorcount == 0 && done == []
      invariant temp.Some? ==> temp.value.data != [] && temp.value.l1 == |done| && anchorcount == |done| + 1
      invariant temp.Some? ==> cut(temp.value.data) == |temp.value.data|
      invariant Remaining(cut, done, (if temp.None? then [] else temp.value.data) + input.Unread(), all)
      decreases |input.data| - input.seek
    {
      ghost var unread := input.Unread();
      var chunk: Coarse;
      if temp.Some? {
        chunk := temp.value;
      } else {
        chunk := Coarse(anchorcount, []);
        anchorcount := anchorcount + 1;
      }
      var got := input.Fill(maxbuf);
      assert chunk.data + unread == (chunk.data + got) + input.Unread();
      if |chunk.data| + |got| == 0 {
        assert chunk.data + unread == [];
        NoneRemaining(cut, done, all);
        return;
      }
      if got == [] {
        assert chunk.data + unread == chunk.data;
        OneRemaining(cut, done, chunk.data, all);
        NumberedNext(done, chunk.data);
        sent := sent + [chunk];
        return;
      }
      var rest;
      rest, anchorcount, sent, done :=
        SplitCoarse(seg, jump, chunk.(data := chunk.data + got), anchorcount, sent, done, input.Unread(), all);
      temp := Some(rest);
    }
  }

  /** FragmentRefine on one coarse chunk: its pieces are those of the chunker, in order, numbered
      from 0, the last one marked. The loop ends because what is left to split shrinks. */
  method Refine(seg: Segmenter, coarse: Coarse) returns (sent: seq<Piece>)
    requires PrefixStable(seg) && coarse.data != []
    ensures sent == Pieces(coarse.l1, Chunks(seg, coarse.data))
  {
    ghost var all := Chunks(seg, coarse.data);
    var rest := coarse.data;
    var chcount := 0;
    sent := [];
    var split := true;
    assert Remaining(seg, all[..0], rest, all);
    hide PrefixStable, Chunks, Remaining;
    while split
      invariant chcount == |sent| <= |all|
      invariant forall k :: 0 <= k < chcount ==> sent[k] == Piece(coarse.l1, k, k == |all| - 1, all[k])
      invariant split ==> rest != [] && Remaining(seg, all[..chcount], rest, all)
      invariant !split ==> chcount == |all|
      decreases split, |rest|
    {
      NextRemaining(seg, all, chcount, rest);
      var offset := seg(rest);
      if offset < |rest| {
        sent := sent + [Piece(coarse.l1, chcount, false, rest[..offset])];
        rest := rest[offset..];
      } else {
        sent := sent + [Piece(coarse.l1, chcount, true, rest)];
        split := false;
      }
      chcount := chcount + 1;
    }
  }
}
