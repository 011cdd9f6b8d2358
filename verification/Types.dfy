/** Values shared by every part of the model. */
module Types {

  newtype Byte = x: int | 0 <= x < 256
  type Bytes = seq<Byte>

  datatype Option<+T> = None | Some(value: T)

  function Min(a: nat, b: nat): nat {
    if a <= b then a else b
  }

  /** The value of a number after it went through a C `int` of 32 bits. */
  function ToInt(n: int): int {
    var low := n % 0x1_0000_0000;
    if low < 0x8000_0000 then low else low - 0x1_0000_0000
  }

  /** All the parts, one after the other. */
  function Concat(parts: seq<Bytes>): Bytes {
    if parts == [] then [] else parts[0] + Concat(parts[1..])
  }

  lemma {:induction false} ConcatAppend(front: seq<Bytes>, back: seq<Bytes>)
    ensures Concat(front + back) == Concat(front) + Concat(back)
  {
    if front == [] {
      assert front + back == back;
    } else {
      assert (front + back)[1..] == front[1..] + back;
      ConcatAppend(front[1..], back);
    }
  }

  lemma SmallMultiple(d: int, m: nat)
    requires -(m as int) < d * m < m
    ensures d == 0
  {
  }

  /** What is left over below `m` is the remainder. */
  lemma ModUnique(n: nat, m: nat, q: nat, r: nat)
    requires m > 0 && r < m && n == q * m + r
    ensures n % m == r
  {
    var d := q - n / m;
    assert d * m == n % m - r;
    SmallMultiple(d, m);
  }
}
