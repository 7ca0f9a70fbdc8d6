/** Octets and the big-endian integers of encoding/binary. */
module Bytes {

  type byte = b: int | 0 <= b < 256

  const TWO_TO_32: nat := 0x1_0000_0000
  const TWO_TO_64: nat := 0x1_0000_0000_0000_0000

  function Pow256(k: nat): (p: nat)
    ensures p > 0
  {
    if k == 0 then 1 else 256 * Pow256(k - 1)
  }

  /** The low `width` octets of n, most significant first: a larger n is truncated, as Go's casts do. */
  function BigEndian(n: nat, width: nat): (s: seq<byte>)
    ensures |s| == width
  {
    if width == 0 then [] else BigEndian(n / 256, width - 1) + [n % 256]
  }

  function FromBigEndian(s: seq<byte>): (n: nat)
    ensures n < Pow256(|s|)
  {
    if s == [] then 0 else FromBigEndian(s[..|s| - 1]) * 256 + s[|s| - 1]
  }

  lemma {:induction false} BigEndianRoundTrip(n: nat, width: nat)
    requires n < Pow256(width)
    ensures FromBigEndian(BigEndian(n, width)) == n
  {
    if width > 0 {
      BigEndianRoundTrip(n / 256, width - 1);
      var s := BigEndian(n, width);
      assert s[..|s| - 1] == BigEndian(n / 256, width - 1);
    }
  }

  lemma {:induction false} FromBigEndianRoundTrip(s: seq<byte>)
    ensures BigEndian(FromBigEndian(s), |s|) == s
  {
    if s != [] {
      FromBigEndianRoundTrip(s[..|s| - 1]);
    }
  }

  lemma Uint32(n: nat)
    requires n < TWO_TO_32
    ensures FromBigEndian(BigEndian(n, 4)) == n
  {
    assert Pow256(4) == TWO_TO_32;
    BigEndianRoundTrip(n, 4);
  }

  lemma Uint64(n: nat)
    requires n < TWO_TO_64
    ensures FromBigEndian(BigEndian(n, 8)) == n
  {
    assert Pow256(4) == TWO_TO_32;
    assert Pow256(8) == 256 * (256 * (256 * (256 * Pow256(4))));
    BigEndianRoundTrip(n, 8);
  }

  /** The octets count from the front, the first one for the most. */
  lemma {:induction false} MostSignificantFirst(s: seq<byte>)
    requires s != []
    ensures FromBigEndian(s) == s[0] * Pow256(|s| - 1) + FromBigEndian(s[1..])
  {
    var front, last := s[..|s| - 1], s[|s| - 1];
    if front == [] {
      assert s[1..] == [] && Pow256(0) == 1;
    } else {
      MostSignificantFirst(front);
      assert s[1..][..|s| - 2] == front[1..] && s[1..][|s| - 2] == last;
      var p := Pow256(|s| - 2);
      assert Pow256(|s| - 1) == 256 * p;
      assert 256 * (s[0] * p) == s[0] * (256 * p);
    }
  }
}
