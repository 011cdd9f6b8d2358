/** The reorder stage as steps on a value: what arrives is remembered or written, and every write
    moves the expected sequence number. */
module ReorderSpec {
  import opened Types

  datatype SeqNo = SeqNo(l1: nat, l2: nat)

  predicate Before(a: SeqNo, b: SeqNo) {
    a.l1 < b.l1 || (a.l1 == b.l1 && a.l2 < b.l2)
  }

  /** `counts` is chunks_per_anchor: how many pieces a coarse chunk has, 0 while that is unknown. The
      search tree with its queues is the set `cache`, read through its minimum only. */
  datatype Stage = Stage(next: SeqNo, counts: seq<nat>, cache: set<SeqNo>, hand: Option<SeqNo>, out: seq<SeqNo>)

  function Zeros(n: nat): (z: seq<nat>)
    ensures |z| == n && forall i :: 0 <= i < n ==> z[i] == 0
  {
    seq(n, _ => 0)
  }

  /** The array is doubled, once, when a level-1 number is not inside it. */
  function Grown(counts: seq<nat>, l1: nat): (grown: seq<nat>) {
    if l1 >= |counts| then counts + Zeros(|counts|) else counts
  }

  /** The access to chunks_per_anchor[l1] after that growth is inside the array. */
  predicate InBounds(counts: seq<nat>, l1: nat) {
    l1 < |Grown(counts, l1)|
  }

  function Noted(counts: seq<nat>, c: SeqNo, isLast: bool): seq<nat>
    requires c.l1 < |counts|
  {
    if isLast then counts[c.l1 := c.l2 + 1] else counts
  }

  /** sequence_inc_l2 and, at the end of a coarse chunk whose size is known, sequence_inc_l1. */
  function Advance(counts: seq<nat>, next: SeqNo): SeqNo
    requires next.l1 < |counts|
  {
    if counts[next.l1] != 0 && next.l2 + 1 == counts[next.l1] then SeqNo(next.l1 + 1, 0)
    else SeqNo(next.l1, next.l2 + 1)
  }

  /** The minimum of the cache is `c`. */
  ghost predicate IsMin(c: SeqNo, cache: set<SeqNo>) {
    c in cache && forall d :: d in cache ==> d == c || Before(c, d)
  }

  /** One chunk out of the receive buffer. */
  ghost function Receive(s: Stage, c: SeqNo, isLast: bool): Stage
    requires s.hand.None? && InBounds(s.counts, c.l1)
  {
    var counts := Noted(Grown(s.counts, c.l1), c, isLast);
    if c == s.next then s.(counts := counts, hand := Some(c)) else s.(counts := counts, cache := s.cache + {c})
  }

  /** One turn of the write loop: the chunk in hand is written and the next one taken from the cache
      when it is the one expected now. */
  ghost function Write(s: Stage): Stage
    requires s.hand.Some? && s.next.l1 < |s.counts|
  {
    var next := Advance(s.counts, s.next);
    var t := s.(next := next, out := s.out + [s.hand.value]);
    if IsMin(next, s.cache) then t.(cache := s.cache - {next}, hand := Some(next)) else t.(hand := None)
  }

  // ---- the order of a complete chunk set --------------------------------------------------------

  /** `sizes[a]` is the number of pieces of coarse chunk `a`. */
  ghost predicate Sizes(sizes: seq<nat>) {
    forall a :: 0 <= a < |sizes| ==> sizes[a] > 0
  }

  ghost predicate Item(sizes: seq<nat>, c: SeqNo) {
    c.l1 < |sizes| && c.l2 < sizes[c.l1]
  }

  ghost function Row(a: nat, n: nat): (row: seq<SeqNo>)
    ensures |row| == n && forall j :: 0 <= j < n ==> row[j] == SeqNo(a, j)
  {
    seq(n, j requires 0 <= j < n => SeqNo(a, j))
  }

  /** All pieces of the first `k` coarse chunks, in lexicographic order. */
  ghost function OrderUpTo(sizes: seq<nat>, k: nat): seq<SeqNo>
    requires k <= |sizes|
  {
    if k == 0 then [] else OrderUpTo(sizes, k - 1) + Row(k - 1, sizes[k - 1])
  }

  ghost function Order(sizes: seq<nat>): seq<SeqNo> {
    OrderUpTo(sizes, |sizes|)
  }

  /** The place of a sequence number in the order. */
  ghost function Index(sizes: seq<nat>, c: SeqNo): nat
    requires c.l1 <= |sizes|
  {
    |OrderUpTo(sizes, c.l1)| + c.l2
  }

  lemma {:induction false} IndexInPrefix(sizes: seq<nat>, k: nat, c: SeqNo)
    requires k <= |sizes| && Item(sizes, c) && c.l1 < k
    ensures Index(sizes, c) < |OrderUpTo(sizes, k)| && OrderUpTo(sizes, k)[Index(sizes, c)] == c
  {
    if c.l1 < k - 1 {
      IndexInPrefix(sizes, k - 1, c);
    }
  }

  /** An item stands in the order at its index. */
  lemma OrderAtIndex(sizes: seq<nat>, c: SeqNo)
    requires Item(sizes, c)
    ensures Index(sizes, c) < |Order(sizes)| && Order(sizes)[Index(sizes, c)] == c
  {
    IndexInPrefix(sizes, |sizes|, c);
  }

  lemma {:induction false} PrefixElement(sizes: seq<nat>, k: nat, i: nat)
    requires k <= |sizes| && i < |OrderUpTo(sizes, k)|
    ensures var c := OrderUpTo(sizes, k)[i]; Item(sizes, c) && c.l1 < k && Index(sizes, c) == i
  {
    if i < |OrderUpTo(sizes, k - 1)| {
      PrefixElement(sizes, k - 1, i);
    }
  }

  /** What stands in the order is an item, at its index: the order lists every item exactly once. */
  lemma OrderElement(sizes: seq<nat>, i: nat)
    requires i < |Order(sizes)|
    ensures Item(sizes, Order(sizes)[i]) && Index(sizes, Order(sizes)[i]) == i
  {
    PrefixElement(sizes, |sizes|, i);
  }

  /** A place in the order, or the place behind its end. */
  ghost predicate InOrderOrEnd(sizes: seq<nat>, c: SeqNo) {
    Item(sizes, c) || c == SeqNo(|sizes|, 0)
  }

  lemma {:induction false} PrefixGrows(sizes: seq<nat>, a: nat, b: nat)
    requires a <= b <= |sizes|
    ensures |OrderUpTo(sizes, a)| <= |OrderUpTo(sizes, b)|
    ensures a < b ==> |OrderUpTo(sizes, a)| + sizes[a] <= |OrderUpTo(sizes, b)|
    decreases b - a
  {
    if a < b {
      PrefixGrows(sizes, a, b - 1);
    }
  }

  /** The order is sorted. */
  lemma IndexIsMonotone(sizes: seq<nat>, c: SeqNo, d: SeqNo)
    requires Item(sizes, c) && InOrderOrEnd(sizes, d)
    ensures Before(c, d) <==> Index(sizes, c) < Index(sizes, d)
  {
    if c.l1 < d.l1 {
      PrefixGrows(sizes, c.l1, d.l1);
    } else if d.l1 < c.l1 {
      PrefixGrows(sizes, d.l1, c.l1);
    }
  }

  // ---- the invariant ----------------------------------------------------------------------------

  /** The chunk has been received. */
  ghost predicate Arrived(sizes: seq<nat>, s: Stage, c: SeqNo) {
    Item(sizes, c) && (Before(c, s.next) || c in s.cache || s.hand == Some(c))
  }

  ghost predicate CountsRight(sizes: seq<nat>, s: Stage) {
    && (forall a :: 0 <= a < |s.counts| ==>
          s.counts[a] == if a < |sizes| && sizes[a] > 0
             && Arrived(sizes, s, SeqNo(a, sizes[a] - 1)) then sizes[a] else 0)
    && (forall c :: Arrived(sizes, s, c) ==> c.l1 < |s.counts|)
  }

  /** Between any two turns of the loops: what is written is a prefix of the order, `next` is the
      place behind it and not in the cache, and everything cached comes later. */
  ghost predicate Sorted(sizes: seq<nat>, s: Stage) {
    && Sizes(sizes) && InOrderOrEnd(sizes, s.next) && |s.counts| > 0
    && Index(sizes, s.next) == |s.out| <= |Order(sizes)|
    && s.out == Order(sizes)[..|s.out|]
    && (forall c :: c in s.cache ==> Item(sizes, c) && Before(s.next, c))
    && (s.hand.Some? ==> s.hand.value == s.next && Item(sizes, s.next))
    && CountsRight(sizes, s)
  }

  lemma InitiallySorted(sizes: seq<nat>, capacity: nat)
    requires Sizes(sizes) && capacity > 0
    ensures Sorted(sizes, Stage(SeqNo(0, 0), Zeros(capacity), {}, None, []))
  {
    var s := Stage(SeqNo(0, 0), Zeros(capacity), {}, None, []);
    assert OrderUpTo(sizes, 0) == [];
    assert forall c :: !Arrived(sizes, s, c);
  }

  lemma CountsGrow(sizes: seq<nat>, s: Stage, l1: nat)
    requires CountsRight(sizes, s)
    ensures CountsRight(sizes, s.(counts := Grown(s.counts, l1)))
  {
    var t := s.(counts := Grown(s.counts, l1));
    forall a | |s.counts| <= a < |t.counts|
      ensures !(a < |sizes| && sizes[a] > 0 && Arrived(sizes, s, SeqNo(a, sizes[a] - 1)))
    {
    }
    assert forall c :: Arrived(sizes, t, c) <==> Arrived(sizes, s, c);
  }

  lemma ArrivesAt(sizes: seq<nat>, s: Stage, c: SeqNo, isLast: bool)
    requires s.hand.None? && InBounds(s.counts, c.l1) && Item(sizes, c)
    ensures forall d :: Arrived(sizes, Receive(s, c, isLast), d) <==> Arrived(sizes, s, d) || d == c
  {
  }

  lemma CountsNoted(sizes: seq<nat>, s: Stage, c: SeqNo, isLast: bool)
    requires CountsRight(sizes, s) && s.hand.None? && c.l1 < |s.counts|
    requires Item(sizes, c) && !Arrived(sizes, s, c) && isLast == (c.l2 + 1 == sizes[c.l1])
    ensures CountsRight(sizes, Receive(s, c, isLast))
  {
    var t := Receive(s, c, isLast);
    ArrivesAt(sizes, s, c, isLast);
    forall a | 0 <= a < |t.counts|
      ensures t.counts[a] == if a < |sizes| && sizes[a] > 0
              && Arrived(sizes, t, SeqNo(a, sizes[a] - 1)) then sizes[a] else 0
    {
      if a < |sizes| && sizes[a] > 0 {
        var last := SeqNo(a, sizes[a] - 1);
        assert Arrived(sizes, t, last) <==> Arrived(sizes, s, last) || last == c;
      }
    }
  }

  /** Receiving a chunk of the set that has not come yet keeps the invariant. Its slot of the array
      is still 0 when it is a last piece. */
  lemma ReceiveKeepsSorted(sizes: seq<nat>, s: Stage, c: SeqNo, isLast: bool)
    requires Sorted(sizes, s) && s.hand.None? && InBounds(s.counts, c.l1)
    requires Item(sizes, c) && !Arrived(sizes, s, c) && isLast == (c.l2 + 1 == sizes[c.l1])
    ensures Sorted(sizes, Receive(s, c, isLast))
    ensures forall d :: Arrived(sizes, Receive(s, c, isLast), d) <==> Arrived(sizes, s, d) || d == c
    ensures isLast ==> Grown(s.counts, c.l1)[c.l1] == 0
  {
    var g := s.(counts := Grown(s.counts, c.l1));
    CountsGrow(sizes, s, c.l1);
    CountsNoted(sizes, g, c, isLast);
    ArrivesAt(sizes, s, c, isLast);
    assert Receive(g, c, isLast) == Receive(s, c, isLast);
  }

  lemma CountsDependOnArrivals(sizes: seq<nat>, s: Stage, t: Stage)
    requires CountsRight(sizes, s) && t.counts == s.counts
    requires forall d :: Arrived(sizes, t, d) <==> Arrived(sizes, s, d)
    ensures CountsRight(sizes, t)
  {
  }

  /** Writing the chunk in hand keeps the invariant. */
  lemma WriteKeepsSorted(sizes: seq<nat>, s: Stage)
    requires Sorted(sizes, s) && s.hand.Some?
    ensures s.next.l1 < |s.counts| && Sorted(sizes, Write(s))
    ensures forall d :: Arrived(sizes, Write(s), d) <==> Arrived(sizes, s, d)
  {
    assert Arrived(sizes, s, s.next);
    NextPlace(sizes, s);
    OrderAtIndex(sizes, s.next);
    assert Order(sizes)[..|s.out|] + [s.next] == Order(sizes)[..|s.out| + 1];
    PassedBy(sizes, s);
    var t := Write(s);
    CountsDependOnArrivals(sizes, s, t);
    assert Sorted(sizes, t);
  }

  /** Writing changes nothing about who has arrived, and what stays cached comes after the next number. */
  lemma PassedBy(sizes: seq<nat>, s: Stage)
    requires Sorted(sizes, s) && s.hand.Some? && s.next.l1 < |s.counts|
    ensures var t := Write(s);
            && (forall c :: c in t.cache ==> Item(sizes, c) && Before(t.next, c))
            && (t.hand.Some? ==> t.hand.value == t.next && Item(sizes, t.next))
            && (forall d :: Arrived(sizes, t, d) <==> Arrived(sizes, s, d))
  {
    NextPlace(sizes, s);
    var next := Advance(s.counts, s.next);
    assert forall c :: Item(sizes, c) && Before(s.next, c) ==> c == next || Before(next, c);
    if next in s.cache {
      assert IsMin(next, s.cache);
    }
    assert forall c :: Item(sizes, c) ==> (Before(c, next) <==> Before(c, s.next) || c == s.next);
  }

  /** The expected number moves to the next place of the order. */
  lemma NextPlace(sizes: seq<nat>, s: Stage)
    requires Sorted(sizes, s) && s.hand.Some? && s.next.l1 < |s.counts|
    ensures var next := Advance(s.counts, s.next);
            && InOrderOrEnd(sizes, next) && Index(sizes, next) == Index(sizes, s.next) + 1
            && next == if s.next.l2 + 1 < sizes[s.next.l1] then SeqNo(s.next.l1, s.next.l2 + 1)
                       else if s.next.l1 + 1 < |sizes| then SeqNo(s.next.l1 + 1, 0) else SeqNo(|sizes|, 0)
  {
    var a := s.next.l1;
    assert OrderUpTo(sizes, a + 1) == OrderUpTo(sizes, a) + Row(a, sizes[a]);
    if s.next.l2 + 1 == sizes[a] {
      assert Arrived(sizes, s, SeqNo(a, sizes[a] - 1));
    }
  }

  /** Once every chunk has arrived and none is in hand, everything is written in order and the cache
      is empty, so the flush loop behind the main loop has nothing to do. */
  lemma CompleteIsWritten(sizes: seq<nat>, s: Stage)
    requires Sorted(sizes, s) && s.hand.None?
    requires forall c :: Item(sizes, c) ==> Arrived(sizes, s, c)
    ensures s.out == Order(sizes) && s.cache == {}
  {
    assert !Arrived(sizes, s, s.next);
    assert s.out == Order(sizes)[..|Order(sizes)|];
  }

  /** What is written is exactly what comes before `next`. */
  lemma WrittenIsBefore(sizes: seq<nat>, s: Stage, c: SeqNo)
    requires Sorted(sizes, s)
    ensures c in s.out <==> Item(sizes, c) && Before(c, s.next)
  {
    if c in s.out {
      var i :| 0 <= i < |s.out| && s.out[i] == c;
      OrderElement(sizes, i);
      IndexIsMonotone(sizes, c, s.next);
    }
    if Item(sizes, c) && Before(c, s.next) {
      IndexIsMonotone(sizes, c, s.next);
      OrderAtIndex(sizes, c);
      assert s.out[Index(sizes, c)] == c;
    }
  }

  // ---- the array of counts ----------------------------------------------------------------------

  /** Doubling once is enough exactly for numbers below twice the capacity. */
  lemma InBoundsExactly(counts: seq<nat>, l1: nat)
    ensures InBounds(counts, l1) <==> l1 < 2 * |counts|
  {
  }
}
