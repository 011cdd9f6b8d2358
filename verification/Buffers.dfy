/** The places a chunk can be in while it travels through the parallel encoder, and moves between
    them. Every ring buffer and every queue is a first-in first-out list. */
module Buffers {
  import opened ReorderSpec

  /** The three pools of worker threads. */
  datatype Pool = Refine | Deduplicate | Compress

  /** The four arrays of queues, named after their readers. */
  datatype Feed = ToRefine | ToDeduplicate | ToCompress | ToReorder

  datatype Place =
    | FragSend                        // send_buf of Fragment
    | Queue(feed: Feed, q: nat)
    | Recv(pool: Pool, t: nat)        // recv_buf of a worker
    | Cutting(t: nat)                 // the chunk a FragmentRefine thread is splitting
    | Send(pool: Pool, t: nat)        // send_buf of a worker; send_buf_compress of Deduplicate
    | SendDup(t: nat)                 // send_buf_reorder of Deduplicate
    | ReorderRecv                     // recv_buf of Reorder
    | Cache                           // the search tree of Reorder
    | Hand                            // the chunk Reorder is about to write
    | Out                             // written

  /** Places that are not mentioned are empty. */
  type Buffers = map<Place, seq<SeqNo>>

  function At(b: Buffers, p: Place): seq<SeqNo> {
    if p in b then b[p] else []
  }

  /** Takes the chunks `lo` to `hi` out of one place and appends them to another. */
  function Move(b: Buffers, from: Place, lo: nat, hi: nat, to: Place): Buffers
    requires lo <= hi <= |At(b, from)| && from != to
  {
    b[from := At(b, from)[..lo] + At(b, from)[hi..]][to := At(b, to) + At(b, from)[lo..hi]]
  }

  function Append(b: Buffers, p: Place, c: SeqNo): Buffers {
    b[p := At(b, p) + [c]]
  }

  ghost predicate NoRepeats(s: seq<SeqNo>) {
    forall i, j :: 0 <= i < j < |s| ==> s[i] != s[j]
  }

  /** Every chunk is in one place only, and there only once. */
  ghost predicate Unique(b: Buffers) {
    && (forall p :: NoRepeats(At(b, p)))
    && (forall p, q, c :: c in At(b, p) && c in At(b, q) ==> p == q)
  }

  /** The chunk has come into being: it is somewhere. */
  ghost predicate Made(b: Buffers, c: SeqNo) {
    exists p :: c in At(b, p)
  }

  lemma SliceMembers(s: seq<SeqNo>, lo: nat, hi: nat, c: SeqNo)
    requires lo <= hi <= |s| && NoRepeats(s)
    ensures c in s[..lo] + s[hi..] <==> c in s && c !in s[lo..hi]
  {
    if c in s {
      var i :| 0 <= i < |s| && s[i] == c;
      if i < lo {
        assert s[..lo][i] == c;
      } else if i < hi {
        assert s[lo..hi][i - lo] == c;
      } else {
        assert s[hi..][i - hi] == c;
      }
    }
  }

  /** Who is where after a move. */
  lemma MoveMembers(b: Buffers, from: Place, lo: nat, hi: nat, to: Place)
    requires Unique(b) && from != to && lo <= hi <= |At(b, from)|
    ensures var moved, b' := At(b, from)[lo..hi], Move(b, from, lo, hi, to);
            && (forall c :: c in At(b', from) <==> c in At(b, from) && c !in moved)
            && (forall c :: c in At(b', to) <==> c in At(b, to) || c in moved)
            && (forall c :: c in moved ==> c in At(b, from))
            && (forall p :: p != from && p != to ==> At(b', p) == At(b, p))
  {
    forall c
      ensures c in At(Move(b, from, lo, hi, to), from) <==> c in At(b, from) && c !in At(b, from)[lo..hi]
    {
      SliceMembers(At(b, from), lo, hi, c);
    }
  }

  lemma NoRepeatsInParts(s: seq<SeqNo>, lo: nat, hi: nat)
    requires lo <= hi <= |s| && NoRepeats(s)
    ensures NoRepeats(s[..lo] + s[hi..]) && NoRepeats(s[lo..hi])
  {
  }

  lemma NoRepeatsInSum(s: seq<SeqNo>, t: seq<SeqNo>)
    requires NoRepeats(s) && NoRepeats(t) && forall c :: c in s ==> c !in t
    ensures NoRepeats(s + t)
  {
    forall i, j | 0 <= i < j < |s + t|
      ensures (s + t)[i] != (s + t)[j]
    {
      if i < |s| <= j {
        assert s[i] in s && t[j - |s|] in t;
      }
    }
  }

  /** Moving neither loses a chunk nor makes a second copy of one. */
  lemma MoveKeepsUnique(b: Buffers, from: Place, lo: nat, hi: nat, to: Place)
    requires Unique(b) && from != to && lo <= hi <= |At(b, from)|
    ensures Unique(Move(b, from, lo, hi, to))
    ensures forall c :: Made(Move(b, from, lo, hi, to), c) <==> Made(b, c)
  {
    hide NoRepeats;
    var b', moved := Move(b, from, lo, hi, to), At(b, from)[lo..hi];
    MoveMembers(b, from, lo, hi, to);
    forall p
      ensures NoRepeats(At(b', p))
    {
      assert NoRepeats(At(b, p)) && NoRepeats(At(b, from)) && NoRepeats(At(b, to));
      NoRepeatsInParts(At(b, from), lo, hi);
      NoRepeatsInSum(At(b, to), moved);
    }
    forall p, c | c in At(b', p)
      ensures c in (if p == to && c in moved then At(b, from) else At(b, p))
    {
    }
    forall c
      ensures Made(b', c) <==> Made(b, c)
    {
      if Made(b, c) {
        var p :| c in At(b, p);
        assert c in At(b', p) || c in At(b', to);
      }
    }
  }

  lemma AppendKeepsUnique(b: Buffers, p: Place, c: SeqNo)
    requires Unique(b) && !Made(b, c)
    ensures Unique(Append(b, p, c))
    ensures forall q, d :: d in At(Append(b, p, c), q) <==> d in At(b, q) || (q == p && d == c)
    ensures forall d :: Made(Append(b, p, c), d) <==> Made(b, d) || d == c
  {
    var b' := Append(b, p, c);
    forall q
      ensures c !in At(b, q)
    {
      if c in At(b, q) {
        assert Made(b, c);
      }
    }
    NoRepeatsInSum(At(b, p), [c]);
    assert forall q, d :: d in At(b', q) <==> d in At(b, q) || (q == p && d == c);
    forall q
      ensures NoRepeats(At(b', q))
    {
      assert NoRepeats(At(b, q));
    }
    forall d
      ensures Made(b', d) <==> Made(b, d) || d == c
    {
      if Made(b, d) {
        var q :| d in At(b, q);
        assert d in At(b', q);
      }
      assert c in At(b', p);
    }
  }
}
