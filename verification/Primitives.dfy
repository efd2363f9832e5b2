/** Bytes, fixed-width integers and block hashes shared by every other module. */
module Primitives {

  type byte = x: int | 0 <= x < 0x100

  type int32 = x: int | -0x8000_0000 <= x < 0x8000_0000

  type uint32 = x: int | 0 <= x < 0x1_0000_0000

  const TWO_64 := 0x1_0000_0000_0000_0000

  type uint64 = x: int | 0 <= x < TWO_64

  const HASH_SIZE := 32

  type Digest = d: seq<byte> | |d| == HASH_SIZE witness Zeroes(HASH_SIZE)

  /** A 32-byte double-SHA-256 digest.  Hashes identify blocks and transactions. */
  datatype Hash = Hash(bytes: Digest)

  function Zeroes(k: nat): (z: seq<byte>)
    ensures |z| == k
  {
    if k == 0 then [] else [0] + Zeroes(k - 1)
  }

  const ZERO_HASH := Hash(Zeroes(HASH_SIZE))

  datatype Option<+T> = None | Some(value: T)

  /** The value a signed 32-bit register holds after a computation whose exact result is x. */
  function Int32(x: int): (r: int)
    ensures -0x8000_0000 <= r < 0x8000_0000
    ensures -0x8000_0000 <= x < 0x8000_0000 ==> r == x
  {
    if -0x8000_0000 <= x < 0x8000_0000 then x
    else
      var m := x % 0x1_0000_0000;
      if m < 0x8000_0000 then m else m - 0x1_0000_0000
  }

  /** The value of a signed 64-bit register whose bits are those of the unsigned x. */
  function Int64(x: uint64): (r: int)
    ensures r % TWO_64 == x
  {
    if x < 0x8000_0000_0000_0000 then x else x - TWO_64
  }

  function Reverse<T>(s: seq<T>): (r: seq<T>)
    ensures |r| == |s|
    ensures forall i :: 0 <= i < |s| ==> r[i] == s[|s| - 1 - i]
  {
    if s == [] then [] else Reverse(s[1..]) + [s[0]]
  }

  lemma PutThenRemove<K, V>(m: map<K, V>, k: K, v: V)
    requires k !in m
    ensures m[k := v] - {k} == m
  {
  }

  lemma {:induction false} ReverseAppend<T>(s: seq<T>, x: T)
    ensures Reverse(s + [x]) == [x] + Reverse(s)
  {
    if s != [] {
      ReverseAppend(s[1..], x);
      assert (s + [x])[1..] == s[1..] + [x];
    }
  }

  lemma MoveAcross<T>(s: seq<T>, x: T, t: seq<T>)
    ensures s + [x] + t == s + ([x] + t)
  {
  }

  lemma ConcatAssoc<T>(a: seq<T>, b: seq<T>, c: seq<T>)
    ensures a + b + c == a + (b + c)
  {
  }

  lemma SliceStep<T>(s: seq<T>, i: nat)
    requires i < |s|
    ensures |s[i..]| > 0 && s[i..][0] == s[i] && s[i..][1..] == s[i + 1..] && s[..i + 1] == s[..i] + [s[i]]
  {
  }

  lemma SliceAll<T>(s: seq<T>)
    ensures s[..|s|] == s && s[|s|..] == [] && s[0..] == s && s[..0] == []
  {
  }
}
