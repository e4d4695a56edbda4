/** Octets, the fixed-width integers of the wire format and their big-endian encoding. */
module Bytes {
  type byte = b: int | 0 <= b < 0x100
  type u16 = x: int | 0 <= x < 0x1_0000
  type u64 = x: int | 0 <= x < 0x1_0000_0000_0000_0000

  function Pow256(n: nat): (r: nat)
    ensures r > 0
  {
    if n == 0 then 1 else 256 * Pow256(n - 1)
  }

  lemma Widths()
    ensures Pow256(2) == 0x1_0000
    ensures Pow256(4) == 0x1_0000_0000
    ensures Pow256(8) == 0x1_0000_0000_0000_0000
  {
    assert Pow256(3) == 0x100_0000;
    assert Pow256(5) == 0x100_0000_0000;
    assert Pow256(7) == 0x100_0000_0000_0000;
  }

  /** `to_be_bytes` for an integer of the given width in octets. */
  function BigEndian(v: nat, width: nat): (s: seq<byte>)
    ensures |s| == width
  {
    if width == 0 then [] else BigEndian(v / 256, width - 1) + [v % 256]
  }

  /** `from_be_bytes`. */
  function FromBigEndian(s: seq<byte>): (v: nat)
    ensures v < Pow256(|s|)
  {
    if s == [] then 0 else 256 * FromBigEndian(s[..|s| - 1]) + s[|s| - 1]
  }

  /** The first octet weighs most. */
  lemma {:induction false} MostSignificantFirst(s: seq<byte>)
    requires s != []
    ensures FromBigEndian(s) == s[0] * Pow256(|s| - 1) + FromBigEndian(s[1..])
  {
    hide Pow256;
    assert |s| == 1 ==> FromBigEndian(s) == s[0] * Pow256(0) + FromBigEndian(s[1..]) by { OneOctet(s); }
    if |s| > 1 {
      var front, last := s[..|s| - 1], s[|s| - 1];
      MostSignificantFirst(front);
      Weigh(s[0], |s| - 1);
      OneMore(s[1..], front[1..], last);
      OneMore(s, front, last);
    }
  }

  lemma OneMore(s: seq<byte>, front: seq<byte>, last: byte)
    requires s == front + [last]
    ensures FromBigEndian(s) == 256 * FromBigEndian(front) + last
  {
    assert s[..|s| - 1] == front;
  }

  lemma OneOctet(s: seq<byte>)
    ensures |s| == 1 ==> FromBigEndian(s) == s[0] * Pow256(0) + FromBigEndian(s[1..])
  {
  }

  lemma Weigh(a: nat, n: nat)
    requires n > 0
    ensures a * Pow256(n) == 256 * (a * Pow256(n - 1))
  {
  }

  /** Decoding inverts encoding on every value that fits the width. */
  lemma {:induction false} DecodeEncode(v: nat, width: nat)
    requires v < Pow256(width)
    ensures FromBigEndian(BigEndian(v, width)) == v
  {
    if width > 0 {
      DecodeEncode(v / 256, width - 1);
      var s := BigEndian(v, width);
      assert s[..|s| - 1] == BigEndian(v / 256, width - 1);
    }
  }

  /** Encoding inverts decoding on every octet string. */
  lemma {:induction false} EncodeDecode(s: seq<byte>)
    ensures BigEndian(FromBigEndian(s), |s|) == s
  {
    if s != [] {
      var front, last := s[..|s| - 1], s[|s| - 1];
      EncodeDecode(front);
      var v := FromBigEndian(s);
      assert v / 256 == FromBigEndian(front) && v % 256 == last;
      assert s == front + [last];
    }
  }

  /** The octets of several strings, one after the other. */
  function Concat(parts: seq<seq<byte>>): seq<byte> {
    if parts == [] then [] else parts[0] + Concat(parts[1..])
  }

  lemma {:induction false} ConcatSnoc(parts: seq<seq<byte>>, last: seq<byte>)
    ensures Concat(parts + [last]) == Concat(parts) + last
  {
    if parts == [] {
      assert [last][1..] == [];
    } else {
      ConcatSnoc(parts[1..], last);
      assert (parts + [last])[1..] == parts[1..] + [last];
    }
  }
}
