/** The reorder stage as the code has it: an array that doubles, and a search tree whose nodes hold a
    queue of chunks with the same level-1 number. */
module Reorder {
  import opened Types
  import opened ReorderSpec

  datatype Arrival = Arrival(c: SeqNo, isLast: bool)

  // ---- the min-queue of a tree node (binheap.h) as an ascending list -----------------------------

  ghost predicate Ascending(q: seq<SeqNo>) {
    forall i, j :: 0 <= i < j < |q| ==> Before(q[i], q[j])
  }

  function Inserted(q: seq<SeqNo>, c: SeqNo): seq<SeqNo> {
    if q == [] || Before(c, q[0]) then [c] + q else [q[0]] + Inserted(q[1..], c)
  }

  lemma {:induction false} InsertedKeepsOrder(q: seq<SeqNo>, c: SeqNo)
    requires Ascending(q) && c !in q
    ensures Ascending(Inserted(q, c))
    ensures forall d :: d in Inserted(q, c) <==> d in q || d == c
  {
    if q != [] && !Before(c, q[0]) {
      InsertedKeepsOrder(q[1..], c);
      assert q == [q[0]] + q[1..];
      assert forall d :: d in q[1..] ==> Before(q[0], d);
    }
  }

  lemma {:induction false} Least(keys: set<nat>) returns (a: nat)
    requires keys != {}
    ensures a in keys && forall b :: b in keys ==> a <= b
  {
    a :| a in keys;
    var rest := keys - {a};
    if rest != {} {
      var r := Least(rest);
      assert forall b :: b in keys ==> b == a || b in rest;
      a := if a <= r then a else r;
    } else {
      assert forall b :: b in keys ==> b == a || b in rest;
    }
  }

  /** Chunks held by the stage. */
  ghost function Pending(s: Stage): nat {
    |s.cache| + if s.hand.Some? then 1 else 0
  }

  lemma WritePending(s: Stage)
    requires s.hand.Some? && s.next.l1 < |s.counts|
    ensures Pending(Write(s)) < Pending(s)
  {
  }

  /** The first `k` arrivals. */
  ghost function Came(arrivals: seq<Arrival>, k: nat): set<SeqNo>
    requires k <= |arrivals|
  {
    if k == 0 then {} else Came(arrivals, k - 1) + {arrivals[k - 1].c}
  }

  lemma {:induction false} CameExactly(arrivals: seq<Arrival>, k: nat, c: SeqNo)
    requires k <= |arrivals|
    ensures c in Came(arrivals, k) <==> exists i :: 0 <= i < k && arrivals[i].c == c
  {
    if k > 0 {
      CameExactly(arrivals, k - 1, c);
      if arrivals[k - 1].c != c && c in Came(arrivals, k) {
        var i :| 0 <= i < k - 1 && arrivals[i].c == c;
      }
    }
  }

  class Stager {
    var next: SeqNo
    var chunksPerAnchor: array<nat>
    var tree: map<nat, seq<SeqNo>>   // level-1 number to min-queue
    var out: seq<SeqNo>              // what was written

    constructor (capacity: nat)
      requires capacity > 0
      ensures fresh(chunksPerAnchor) && Valid()
      ensures Stage(None) == ReorderSpec.Stage(SeqNo(0, 0), Zeros(capacity), {}, None, [])
    {
      next := SeqNo(0, 0);
      chunksPerAnchor := new nat[capacity](_ => 0);
      tree, out := map[], [];
      new;
      assert chunksPerAnchor[..] == Zeros(capacity);
    }

    ghost predicate Valid()
      reads this`tree
    {
      forall a :: a in tree ==> tree[a] != [] && Ascending(tree[a]) && forall c :: c in tree[a] ==> c.l1 == a
    }

    ghost function Cache(): set<SeqNo>
      reads this`tree
    {
      set a, c | a in tree && c in tree[a] :: c
    }

    /** The abstract stage; `hand` is the local variable `chunk` of the write loop. */
    ghost function Stage(hand: Option<SeqNo>): Stage
      reads this, chunksPerAnchor
    {
      ReorderSpec.Stage(next, chunksPerAnchor[..], Cache(), hand, out)
    }

    /** TreeFindMin: the smallest level-1 number in the tree. */
    method TreeFindMin() returns (pos: Option<nat>)
      ensures pos.None? <==> tree == map[]
      ensures pos.Some? ==> pos.value in tree && forall a :: a in tree ==> pos.value <= a
    {
      if |tree| == 0 {
        return None;
      }
      ghost var least := Least(tree.Keys);
      var a :| a in tree.Keys && forall b :: b in tree.Keys ==> a <= b;
      pos := Some(a);
    }

    /** The head of the queue at the least level-1 number is the minimum of the cache. */
    lemma HeadIsMin(pos: nat)
      requires Valid() && pos in tree && forall a :: a in tree ==> pos <= a
      ensures tree[pos] != [] && IsMin(tree[pos][0], Cache())
    {
      var c := tree[pos][0];
      forall d | d in Cache()
        ensures d == c || Before(c, d)
      {
        var a :| a in tree && d in tree[a];
        if a == pos {
          var i :| 0 <= i < |tree[pos]| && tree[pos][i] == d;
        }
      }
    }

    /** A node of the tree is never empty. */
    lemma NodeHasChunk()
      requires Valid()
      ensures tree != map[] ==> Cache() != {}
    {
      if tree != map[] {
        var a :| a in tree;
        var c := tree[a][0];
        assert a in tree && c in tree[a];
        assert c in Cache();
      }
    }

    /** Puts a chunk that is not next into the queue of its level-1 number. */
    method Keep(c: SeqNo)
      requires Valid() && c !in Cache()
      modifies this`tree
      ensures Valid() && Cache() == old(Cache()) + {c}
    {
      ghost var before := tree;
      if c.l1 in tree {
        InsertedKeepsOrder(tree[c.l1], c);
        tree := tree[c.l1 := Inserted(tree[c.l1], c)];
      } else {
        tree := tree[c.l1 := [c]];
      }
      assert Cache() == old(Cache()) + {c} by {
        forall d
          ensures d in Cache() <==> d in old(Cache()) || d == c
        {
          if d in old(Cache()) {
            var a :| a in before && d in before[a];
            assert a in tree && d in tree[a];
          }
          assert c.l1 in tree && c in tree[c.l1];
        }
      }
    }

    /** DeleteMin on the queue at `pos`; an empty queue takes its node out of the tree. */
    method DeleteMin(pos: nat)
      requires Valid() && pos in tree && tree[pos] != []
      modifies this`tree
      ensures Valid() && Cache() == old(Cache()) - {old(tree)[pos][0]}
    {
      ghost var before, c := tree, tree[pos][0];
      if |tree[pos]| == 1 {
        tree := map a | a in tree && a != pos :: tree[a];
      } else {
        tree := tree[pos := tree[pos][1..]];
      }
      assert Cache() == old(Cache()) - {c} by {
        forall d
          ensures d in Cache() <==> d in old(Cache()) && d != c
        {
          if d in old(Cache()) && d != c {
            var a :| a in before && d in before[a];
            if a == pos {
              var i :| 0 <= i < |before[pos]| && before[pos][i] == d;
              assert before[pos][1..][i - 1] == d;
            }
            assert a in tree && d in tree[a];
          }
          if d in Cache() {
            var a :| a in tree && d in tree[a];
            assert a in before && d in before[a];
          }
        }
      }
    }

    /** The array grows once, and the size of a coarse chunk is noted when its last piece comes. */
    method Note(a: Arrival)
      requires InBounds(chunksPerAnchor[..], a.c.l1)
      modifies this`chunksPerAnchor, chunksPerAnchor
      ensures chunksPerAnchor == old(chunksPerAnchor) || fresh(chunksPerAnchor)
      ensures chunksPerAnchor[..] == Noted(Grown(old(chunksPerAnchor[..]), a.c.l1), a.c, a.isLast)
    {
      ghost var counts := chunksPerAnchor[..];
      if a.c.l1 >= chunksPerAnchor.Length {
        var was := chunksPerAnchor;
        var max := was.Length;
        var bigger := new nat[2 * max];
        for i := 0 to max
          invariant forall j :: 0 <= j < i ==> bigger[j] == counts[j]
          invariant was[..] == counts
        {
          bigger[i] := was[i];
        }
        for i := max to 2 * max
          invariant forall j :: 0 <= j < max ==> bigger[j] == counts[j]
          invariant forall j :: max <= j < i ==> bigger[j] == 0
        {
          bigger[i] := 0;
        }
        chunksPerAnchor := bigger;
        assert chunksPerAnchor[..] == Grown(counts, a.c.l1);
      }
      if a.isLast {
        chunksPerAnchor[a.c.l1] := a.c.l2 + 1;
      }
    }

    /** sequence_inc_l2, then sequence_inc_l1 when that was the last piece of its coarse chunk. */
    method MoveNext()
      requires next.l1 < chunksPerAnchor.Length
      modifies this`next
      ensures next == Advance(chunksPerAnchor[..], old(next))
    {
      next := SeqNo(next.l1, next.l2 + 1);
      if chunksPerAnchor[next.l1] != 0 && next.l2 == chunksPerAnchor[next.l1] {
        next := SeqNo(next.l1 + 1, 0);
      }
    }

    /** One turn of the write loop on the chunk in hand: writes it, moves `next` and looks whether
        the least cached chunk is the one expected now. `pos` is the least node of the tree. */
    method WriteOne(chunk: SeqNo, pos: Option<nat>) returns (chunk': Option<SeqNo>, pos': Option<nat>)
      requires Valid() && next.l1 < chunksPerAnchor.Length
      requires pos.None? <==> tree == map[]
      requires pos.Some? ==> pos.value in tree && forall a :: a in tree ==> pos.value <= a
      modifies this`next, this`tree, this`out
      ensures Valid() && Stage(chunk') == Write(old(Stage(Some(chunk))))
      ensures pos'.None? <==> tree == map[]
      ensures pos'.Some? ==> pos'.value in tree && forall a :: a in tree ==> pos'.value <= a
    {
      out := out + [chunk];
      MoveNext();
      chunk', pos' := None, pos;
      if pos.Some? {
        HeadIsMin(pos.value);
        if pos.value == next.l1 && tree[pos.value][0] == next {
          chunk' := Some(next);
          DeleteMin(pos.value);
          pos' := TreeFindMin();
        }
      } else {
        assert Cache() == {};
      }
    }

    /** One chunk out of the receive buffer: kept for later, or handed on when it is the next one. */
    method Accept(a: Arrival) returns (hand: Option<SeqNo>)
      requires Valid() && InBounds(chunksPerAnchor[..], a.c.l1) && a.c !in Cache()
      modifies this`chunksPerAnchor, this`tree, chunksPerAnchor
      ensures chunksPerAnchor == old(chunksPerAnchor) || fresh(chunksPerAnchor)
      ensures Valid() && Stage(hand) == Receive(old(Stage(None)), a.c, a.isLast)
    {
      Note(a);
      if a.c == next {
        hand := Some(a.c);
      } else {
        hand := None;
        Keep(a.c);
      }
    }

    /** One turn of the main loop: a chunk arrives, and everything that can be written then is. */
    method Take(a: Arrival, ghost sizes: seq<nat>)
      requires Valid() && Sorted(sizes, Stage(None)) && InBounds(chunksPerAnchor[..], a.c.l1)
      requires Genuine(sizes, a) && !Arrived(sizes, Stage(None), a.c)
      modifies this, chunksPerAnchor
      ensures chunksPerAnchor == old(chunksPerAnchor) || fresh(chunksPerAnchor)
      ensures Valid() && Sorted(sizes, Stage(None))
      ensures chunksPerAnchor.Length == |Grown(old(chunksPerAnchor[..]), a.c.l1)|
      ensures forall d :: Arrived(sizes, Stage(None), d) <==> old(Arrived(sizes, Stage(None), d)) || d == a.c
    {
      ReceiveKeepsSorted(sizes, Stage(None), a.c, a.isLast);
      var hand := Accept(a);
      if hand.Some? {
        WriteFrom(hand.value, sizes);
      }
    }

    /** The write loop, from the chunk in hand until the expected one is not in the cache. */
    method WriteFrom(first: SeqNo, ghost sizes: seq<nat>)
      requires Valid() && Sorted(sizes, Stage(Some(first)))
      modifies this`next, this`tree, this`out
      ensures Valid() && Sorted(sizes, Stage(None))
      ensures forall d :: Arrived(sizes, Stage(None), d) <==> old(Arrived(sizes, Stage(Some(first)), d))
    {
      var chunk: Option<SeqNo> := Some(first);
      var pos := TreeFindMin();
      ghost var start := Stage(chunk);
      ghost var now := start;
      while chunk.Some?
        invariant Valid() && now == Stage(chunk) && Sorted(sizes, now)
        invariant pos.None? <==> tree == map[]
        invariant pos.Some? ==> pos.value in tree && forall a :: a in tree ==> pos.value <= a
        invariant forall d :: Arrived(sizes, now, d) <==> Arrived(sizes, start, d)
        decreases Pending(now)
      {
        WriteKeepsSorted(sizes, now);
        WritePending(now);
        chunk, pos := WriteOne(chunk.value, pos);
        now := Write(now);
      }
    }

    /** The loop behind the main loop. It ends the program when the least cached chunk is not the
        expected one; with an empty cache it does nothing. */
    method Flush() returns (ok: bool)
      requires Valid() && forall c :: c in Cache() ==> c.l1 < chunksPerAnchor.Length
      modifies this`next, this`tree, this`out
      ensures ok ==> tree == map[]
      ensures old(tree) == map[] ==> ok && out == old(out)
    {
      var pos := TreeFindMin();
      while pos.Some?
        invariant Valid() && forall c :: c in Cache() ==> c.l1 < chunksPerAnchor.Length
        invariant pos.None? <==> tree == map[]
        invariant pos.Some? ==> pos.value in tree && forall a :: a in tree ==> pos.value <= a
        invariant old(tree) == map[] ==> tree == map[] && out == old(out)
        decreases |Cache()|
      {
        if pos.value != next.l1 {
          return false;
        }
        var chunk := tree[pos.value][0];
        HeadIsMin(pos.value);
        if chunk != next {
          return false;
        }
        DeleteMin(pos.value);
        pos := TreeFindMin();
        out := out + [chunk];
        MoveNext();
      }
      ok := true;
    }

    /** Reorder: for every order in which a complete set of chunks can arrive, all of them are
        written, once each, in the order of their sequence numbers, and the flush loop finds the
        cache empty. */
    method Run(arrivals: seq<Arrival>, ghost sizes: seq<nat>) returns (ok: bool)
      requires Valid() && Sorted(sizes, Stage(None)) && forall c :: !Arrived(sizes, Stage(None), c)
      requires CompleteSet(sizes, arrivals) && Fits(chunksPerAnchor.Length, arrivals)
      modifies this, chunksPerAnchor
      ensures ok && out == Order(sizes) && tree == map[]
    {
      var k := 0;
      while k < |arrivals|
        invariant k <= |arrivals|
        invariant chunksPerAnchor == old(chunksPerAnchor) || fresh(chunksPerAnchor)
        invariant Valid() && Sorted(sizes, Stage(None)) && Fits(chunksPerAnchor.Length, arrivals[k..])
        invariant forall c :: Arrived(sizes, Stage(None), c) <==> c in Came(arrivals, k)
      {
        FitsNext(chunksPerAnchor[..], arrivals, k);
        assert Genuine(sizes, arrivals[k]);
        Take(arrivals[k], sizes);
        k := k + 1;
      }
      CompleteIsWritten(sizes, Stage(None));
      NodeHasChunk();
      ok := Flush();
    }
  }

  /** Every chunk of the plan arrives once, and the last piece of each coarse chunk is marked. */
  ghost predicate CompleteSet(sizes: seq<nat>, arrivals: seq<Arrival>) {
    && (forall i :: 0 <= i < |arrivals| ==> arrivals[i].c !in Came(arrivals, i))
    && (forall i :: 0 <= i < |arrivals| ==> Genuine(sizes, arrivals[i]))
    && (forall c :: Item(sizes, c) ==> c in Came(arrivals, |arrivals|))
  }

  ghost predicate Genuine(sizes: seq<nat>, a: Arrival) {
    Item(sizes, a.c) && a.isLast == (a.c.l2 + 1 == sizes[a.c.l1])
  }

  /** No level-1 number reaches twice the capacity the array has when it arrives. */
  ghost predicate Fits(capacity: nat, arrivals: seq<Arrival>)
    decreases |arrivals|
  {
    arrivals == [] ||
    (arrivals[0].c.l1 < 2 * capacity
     && Fits(if arrivals[0].c.l1 >= capacity then 2 * capacity else capacity, arrivals[1..]))
  }

  lemma FitsNext(counts: seq<nat>, arrivals: seq<Arrival>, k: nat)
    requires k < |arrivals| && Fits(|counts|, arrivals[k..])
    ensures InBounds(counts, arrivals[k].c.l1)
    ensures Fits(|Grown(counts, arrivals[k].c.l1)|, arrivals[k + 1..])
  {
    assert arrivals[k..][0] == arrivals[k] && arrivals[k..][1..] == arrivals[k + 1..];
  }

  lemma {:induction false} FitsBelow(sizes: seq<nat>, capacity: nat, arrivals: seq<Arrival>)
    requires forall i :: 0 <= i < |arrivals| ==> Genuine(sizes, arrivals[i])
    requires |sizes| <= 2 * capacity
    ensures Fits(capacity, arrivals)
    decreases |arrivals|
  {
    if arrivals != [] {
      FitsBelow(sizes, if arrivals[0].c.l1 >= capacity then 2 * capacity else capacity, arrivals[1..]);
    }
  }

  /** The order backwards. */
  ghost function Backwards(sizes: seq<nat>): (arrivals: seq<Arrival>)
    ensures |arrivals| == |Order(sizes)|
  {
    var order, n := Order(sizes), |Order(sizes)|;
    seq(n, i requires 0 <= i < n =>
      var c := order[n - 1 - i]; Arrival(c, c.l1 < |sizes| && c.l2 + 1 == sizes[c.l1]))
  }

  lemma BackwardsElement(sizes: seq<nat>, i: nat)
    requires i < |Order(sizes)|
    ensures Genuine(sizes, Backwards(sizes)[i])
    ensures Index(sizes, Backwards(sizes)[i].c) == |Order(sizes)| - 1 - i
  {
    OrderElement(sizes, |Order(sizes)| - 1 - i);
  }

  lemma BackwardsOnce(sizes: seq<nat>, i: nat)
    requires i < |Order(sizes)|
    ensures Backwards(sizes)[i].c !in Came(Backwards(sizes), i)
  {
    var arrivals := Backwards(sizes);
    CameExactly(arrivals, i, arrivals[i].c);
    BackwardsElement(sizes, i);
    if j :| 0 <= j < i && arrivals[j].c == arrivals[i].c {
      BackwardsElement(sizes, j);
    }
  }

  lemma BackwardsReaches(sizes: seq<nat>, c: SeqNo)
    requires Item(sizes, c)
    ensures c in Came(Backwards(sizes), |Order(sizes)|)
  {
    OrderAtIndex(sizes, c);
    assert Backwards(sizes)[|Order(sizes)| - 1 - Index(sizes, c)].c == c;
    CameExactly(Backwards(sizes), |Order(sizes)|, c);
  }

  lemma BackwardsIsComplete(sizes: seq<nat>)
    ensures CompleteSet(sizes, Backwards(sizes))
  {
    forall i | 0 <= i < |Order(sizes)|
      ensures Genuine(sizes, Backwards(sizes)[i]) && Backwards(sizes)[i].c !in Came(Backwards(sizes), i)
    {
      BackwardsElement(sizes, i);
      BackwardsOnce(sizes, i);
    }
    forall c | Item(sizes, c)
      ensures c in Came(Backwards(sizes), |Order(sizes)|)
    {
      BackwardsReaches(sizes, c);
    }
  }

  /** Whatever the order of arrival, every access to the array is in bounds exactly when there are at
      most twice as many coarse chunks as the array has places at the start (1024 in the code). With
      more, an order exists whose very first chunk is written behind the doubled array. */
  lemma EveryOrderFits(sizes: seq<nat>, capacity: nat)
    requires Sizes(sizes)
    ensures (forall arrivals :: CompleteSet(sizes, arrivals) ==> Fits(capacity, arrivals)) <==> |sizes| <= 2 * capacity
  {
    if |sizes| <= 2 * capacity {
      forall arrivals | CompleteSet(sizes, arrivals)
        ensures Fits(capacity, arrivals)
      {
        FitsBelow(sizes, capacity, arrivals);
      }
    } else {
      var arrivals := Backwards(sizes);
      BackwardsIsComplete(sizes);
      var last := SeqNo(|sizes| - 1, sizes[|sizes| - 1] - 1);
      OrderAtIndex(sizes, last);
      assert OrderUpTo(sizes, |sizes|) == OrderUpTo(sizes, |sizes| - 1) + Row(|sizes| - 1, sizes[|sizes| - 1]);
      assert arrivals[0].c == last;
      assert !Fits(capacity, arrivals);
    }
  }
}
