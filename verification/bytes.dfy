/** Bytes and fixed-width little-endian integers, the building blocks of the
    quadtree index buffer. */
module Bytes {

  type Byte = b: int | 0 <= b < 256

  const U8Limit: nat := 0x100
  const U16Limit: nat := 0x1_0000
  const U32Limit: nat := 0x1_0000_0000
  const U64Limit: nat := 0x1_0000_0000_0000_0000

  function Pow256(n: nat): (r: nat)
    ensures r >= 1
  {
    if n == 0 then 1 else 256 * Pow256(n - 1)
  }

  /** The limits above are the ranges of 1, 2, 4 and 8 byte fields. */
  lemma FieldLimits()
    ensures Pow256(1) == U8Limit && Pow256(2) == U16Limit
    ensures Pow256(4) == U32Limit && Pow256(8) == U64Limit
  {
    assert Pow256(1) == 0x100;
    assert Pow256(2) == 0x1_0000;
    assert Pow256(3) == 0x100_0000;
    assert Pow256(4) == 0x1_0000_0000;
    assert Pow256(5) == 0x100_0000_0000;
    assert Pow256(6) == 0x1_0000_0000_0000;
    assert Pow256(7) == 0x100_0000_0000_0000;
  }

  /** `v` in `n` bytes, least significant first. */
  function EncodeLE(v: nat, n: nat): (r: seq<Byte>)
    requires v < Pow256(n)
    ensures |r| == n
  {
    if n == 0 then [] else [(v % 256) as Byte] + EncodeLE(v / 256, n - 1)
  }

  /** The number a little-endian byte string denotes. */
  function DecodeLE(s: seq<Byte>): (r: nat)
    ensures r < Pow256(|s|)
  {
    if |s| == 0 then 0
    else
      var rest := DecodeLE(s[1..]);
      assert s[0] + 256 * rest <= 255 + 256 * (Pow256(|s| - 1) - 1);
      s[0] + 256 * rest
  }

  lemma {:induction false} DecodeEncodeLE(v: nat, n: nat)
    requires v < Pow256(n)
    ensures DecodeLE(EncodeLE(v, n)) == v
  {
    if n > 0 {
      var e := EncodeLE(v, n);
      assert e[1..] == EncodeLE(v / 256, n - 1);
      DecodeEncodeLE(v / 256, n - 1);
    }
  }

  lemma {:induction false} EncodeDecodeLE(s: seq<Byte>)
    ensures EncodeLE(DecodeLE(s), |s|) == s
  {
    if |s| > 0 {
      var v := DecodeLE(s);
      assert v % 256 == s[0] && v / 256 == DecodeLE(s[1..]);
      EncodeDecodeLE(s[1..]);
    }
  }

  /** Reading through a concatenation reads the part the range falls in. */
  lemma SliceRight<T>(a: seq<T>, b: seq<T>, i: nat, j: nat)
    requires |a| <= i <= j <= |a| + |b|
    ensures (a + b)[i..j] == b[i - |a|..j - |a|]
  {
  }

  /** A slice of a slice is a slice of the whole. */
  lemma DropSlice<T>(s: seq<T>, p: nat, i: nat, j: nat)
    requires p <= |s| && i <= j <= |s| - p
    ensures s[p..][i..j] == s[p + i..p + j]
  {
    var a, b := s[p..][i..j], s[p + i..p + j];
    forall k | 0 <= k < |a|
      ensures a[k] == b[k]
    {
      assert a[k] == s[p..][i + k] == s[p + i + k];
    }
  }

  lemma SubSlice<T>(s: seq<T>, p: nat, n: nat, i: nat, j: nat)
    requires p + n <= |s| && i <= j <= n
    ensures s[p..p + n][i..j] == s[p + i..p + j]
  {
    var a, b := s[p..p + n][i..j], s[p + i..p + j];
    forall k | 0 <= k < |a|
      ensures a[k] == b[k]
    {
      assert a[k] == s[p..p + n][i + k] == s[p + i + k];
    }
  }

  lemma SliceLeft<T>(a: seq<T>, b: seq<T>, i: nat, j: nat)
    requires i <= j <= |a|
    ensures (a + b)[i..j] == a[i..j]
  {
  }

  lemma AppendAssoc<T>(a: seq<T>, b: seq<T>, c: seq<T>)
    ensures a + (b + c) == (a + b) + c
  {
  }

  /** Dropping the head commutes with taking or dropping a prefix. */
  lemma TailSlices<T>(s: seq<T>, i: nat)
    requires 0 < i <= |s|
    ensures s[..i][0] == s[0]
    ensures s[..i][1..] == s[1..][..i - 1]
    ensures s[1..][i - 1..] == s[i..]
  {
  }

  /** The middle part of a three-way concatenation is found after the first. */
  lemma MiddleSlice<T>(a: seq<T>, m: seq<T>, b: seq<T>)
    ensures |a| + |m| <= |a + (m + b)|
    ensures (a + (m + b))[|a|..|a| + |m|] == m
  {
  }

  lemma AppendEmpty<T>(a: seq<T>, b: seq<T>)
    requires b == []
    ensures a + b == a
  {
  }

  /** The elements of a concatenation, by position. */
  lemma ConcatAt<T>(a: seq<T>, b: seq<T>, r: seq<T>)
    requires r == a + b
    ensures forall i :: 0 <= i < |a| ==> r[i] == a[i]
    ensures forall i :: 0 <= i < |b| ==> r[|a| + i] == b[i]
  {
  }

  /** The head and tail of a sequence built from them. */
  lemma ConsParts<T>(h: T, t: seq<T>, r: seq<T>)
    requires r == [h] + t
    ensures |r| == |t| + 1 && r[0] == h && r[1..] == t
    ensures forall i :: 0 <= i < |t| ==> r[i + 1] == t[i]
  {
  }
}
