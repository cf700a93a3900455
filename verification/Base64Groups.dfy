/** The 24-bit groups of section 4 of RFC 4648: three bytes, or four six-bit indexes. */
module Base64Groups {
  import opened Common

  type Index = x: int | 0 <= x < 64

  function Sextets(a: Index, b: Index, c: Index, d: Index): (v: nat)
    ensures v < 0x100_0000
  {
    a * 0x4_0000 + b * 0x1000 + c * 0x40 + d
  }

  function Octets(x: Byte, y: Byte, z: Byte): (v: nat)
    ensures v < 0x100_0000
  {
    x * 0x1_0000 + y * 0x100 + z
  }

  function FromIndexes(s: seq<Index>): nat {
    if s == [] then 0 else 0x40 * FromIndexes(s[..|s| - 1]) + s[|s| - 1]
  }

  function FromBytes(s: seq<Byte>): nat {
    if s == [] then 0 else 0x100 * FromBytes(s[..|s| - 1]) + s[|s| - 1]
  }

  lemma FromFourIndexes(s: seq<Index>)
    requires |s| == 4
    ensures FromIndexes(s) == Sextets(s[0], s[1], s[2], s[3])
  {
    assert s[..3][..2] == s[..2] && s[..2][..1] == s[..1];
    assert FromIndexes(s[..1]) == s[0];
    assert FromIndexes(s[..2]) == 0x40 * FromIndexes(s[..1]) + s[1];
    assert FromIndexes(s[..3]) == 0x40 * FromIndexes(s[..2]) + s[2];
  }

  lemma FromThreeBytes(s: seq<Byte>)
    requires |s| == 3
    ensures FromBytes(s) == Octets(s[0], s[1], s[2])
  {
    assert s[..2][..1] == s[..1];
    assert FromBytes(s[..1]) == s[0];
    assert FromBytes(s[..2]) == 0x100 * FromBytes(s[..1]) + s[1];
  }

  function Filled<X>(s: seq<X>, n: nat, zero: X): (r: seq<X>)
    requires |s| <= n
    ensures |r| == n && s == r[..|s|]
    ensures forall i | |s| <= i < n :: r[i] == zero
  {
    s + seq(n - |s|, _ => zero)
  }

  /** The bits of up to four indexes, the missing ones zero. */
  function IndexBits(s: seq<Index>): (v: nat)
    requires |s| <= 4
    ensures v < 0x100_0000
  {
    FromFourIndexes(Filled(s, 4, 0));
    FromIndexes(Filled(s, 4, 0))
  }

  /** The bits of up to three bytes, the missing ones zero. */
  function ByteBits(s: seq<Byte>): (v: nat)
    requires |s| <= 3
    ensures v < 0x100_0000
  {
    FromThreeBytes(Filled(s, 3, 0));
    FromBytes(Filled(s, 3, 0))
  }

  lemma IndexBitsAre(s: seq<Index>, a: Index, b: Index, c: Index, d: Index)
    requires |s| <= 4 && Filled(s, 4, 0) == [a, b, c, d]
    ensures IndexBits(s) == Sextets(a, b, c, d)
  {
    FromFourIndexes([a, b, c, d]);
  }

  lemma ByteBitsAre(s: seq<Byte>, x: Byte, y: Byte, z: Byte)
    requires |s| <= 3 && Filled(s, 3, 0) == [x, y, z]
    ensures ByteBits(s) == Octets(x, y, z)
  {
    FromThreeBytes([x, y, z]);
  }

  lemma BytesExist(v: nat)
    requires v < 0x100_0000
    ensures exists s: seq<Byte> :: |s| == 3 && ByteBits(s) == v
  {
    var q := v / 0x100;
    var s: seq<Byte> := [q / 0x100, q % 0x100, v % 0x100];
    ByteBitsAre(s, s[0], s[1], s[2]);
    assert |s| == 3 && ByteBits(s) == v;
  }

  lemma IndexesExist(v: nat)
    requires v < 0x100_0000
    ensures exists s: seq<Index> :: |s| == 4 && IndexBits(s) == v
  {
    var q := v / 0x40;
    var p := q / 0x40;
    var s: seq<Index> := [p / 0x40, p % 0x40, q % 0x40, v % 0x40];
    IndexBitsAre(s, s[0], s[1], s[2], s[3]);
    assert |s| == 4 && IndexBits(s) == v;
  }

  ghost function ThreeBytes(v: nat): (s: seq<Byte>)
    requires v < 0x100_0000
    ensures |s| == 3 && ByteBits(s) == v
  {
    BytesExist(v);
    var s: seq<Byte> :| |s| == 3 && ByteBits(s) == v;
    s
  }

  ghost function FourIndexes(v: nat): (s: seq<Index>)
    requires v < 0x100_0000
    ensures |s| == 4 && IndexBits(s) == v
  {
    IndexesExist(v);
    var s: seq<Index> :| |s| == 4 && IndexBits(s) == v;
    s
  }

  lemma OctetsUnique(x: Byte, y: Byte, z: Byte, x': Byte, y': Byte, z': Byte)
    requires Octets(x, y, z) == Octets(x', y', z')
    ensures x == x' && y == y' && z == z'
  {
  }

  lemma SextetsUnique(a: Index, b: Index, c: Index, d: Index, a': Index, b': Index, c': Index, d': Index)
    requires Sextets(a, b, c, d) == Sextets(a', b', c', d')
    ensures a == a' && b == b' && c == c' && d == d'
  {
  }

  lemma BytesUnique(s: seq<Byte>)
    requires |s| == 3
    ensures ThreeBytes(ByteBits(s)) == s
  {
    var t := ThreeBytes(ByteBits(s));
    assert s == [s[0], s[1], s[2]] && t == [t[0], t[1], t[2]];
    ByteBitsAre(s, s[0], s[1], s[2]);
    ByteBitsAre(t, t[0], t[1], t[2]);
    OctetsUnique(s[0], s[1], s[2], t[0], t[1], t[2]);
  }

  lemma IndexesUnique(s: seq<Index>)
    requires |s| == 4
    ensures FourIndexes(IndexBits(s)) == s
  {
    var t := FourIndexes(IndexBits(s));
    assert s == [s[0], s[1], s[2], s[3]] && t == [t[0], t[1], t[2], t[3]];
    IndexBitsAre(s, s[0], s[1], s[2], s[3]);
    IndexBitsAre(t, t[0], t[1], t[2], t[3]);
    SextetsUnique(s[0], s[1], s[2], s[3], t[0], t[1], t[2], t[3]);
  }

  /** One to three bytes become two to four indexes. */
  ghost function GroupIndexes(g: seq<Byte>): (s: seq<Index>)
    requires 1 <= |g| <= 3
    ensures |s| == |g| + 1
  {
    FourIndexes(ByteBits(g))[..|g| + 1]
  }

  /** How many bytes a chunk with `n` tokens stands for. */
  function ByteCount(n: nat): nat
    requires n <= 4 && n != 1
  {
    if n == 0 then 3 else n - 1
  }

  ghost function GroupBytes(s: seq<Index>): (g: seq<Byte>)
    requires |s| <= 4 && |s| != 1
    ensures |g| == ByteCount(|s|)
  {
    ThreeBytes(IndexBits(s))[..ByteCount(|s|)]
  }

  /** A multiple of `m` that is below `m`; and one that is a multiple of 4 or 16. */
  lemma Multiple(d: nat, m: nat, k: int)
    requires d == m * k && (m == 4 || m == 16 || m == 64)
    ensures d < m ==> d == 0
    ensures d % m == 0
  {
  }

  /** No index beyond the last one that is kept holds a bit of the group. */
  lemma NoBitsBeyond(x: Byte, y: Byte, a: Index, b: Index, c: Index, d: Index)
    requires Octets(x, y, 0) == Sextets(a, b, c, d)
    ensures d == 0 && c % 4 == 0 && (y == 0 ==> c == 0 && b % 16 == 0)
  {
    Multiple(d, 64, x * 0x400 + y * 4 - a * 0x1000 - b * 0x40 - c);
    Multiple(c, 4, x * 0x100 + y - a * 0x400 - b * 0x10);
    if y == 0 {
      Multiple(c, 64, x * 0x10 - a * 0x40 - b);
      Multiple(b, 16, x - a * 4);
    }
  }

  /** The group's own indexes hold all its bits. */
  lemma KeptIndexesSuffice(g: seq<Byte>)
    requires 1 <= |g| <= 3
    ensures IndexBits(GroupIndexes(g)) == ByteBits(g)
  {
    var all, whole := FourIndexes(ByteBits(g)), Filled(g, 3, 0);
    assert all == [all[0], all[1], all[2], all[3]] && whole == [whole[0], whole[1], whole[2]];
    IndexBitsAre(all, all[0], all[1], all[2], all[3]);
    ByteBitsAre(g, whole[0], whole[1], whole[2]);
    if |g| < 3 {
      NoBitsBeyond(whole[0], whole[1], all[0], all[1], all[2], all[3]);
      assert Filled(all[..|g| + 1], 4, 0) == all;
    } else {
      assert all[..4] == all;
    }
  }

  lemma GroupRoundTrip(g: seq<Byte>)
    requires 1 <= |g| <= 3
    ensures GroupBytes(GroupIndexes(g)) == g
  {
    var whole := Filled(g, 3, 0);
    KeptIndexesSuffice(g);
    BytesUnique(whole);
    assert Filled(whole, 3, 0) == whole;
  }

  /** The bits of the last index that no byte uses are zero. */
  predicate Canonical(s: seq<Index>) {
    && (|s| % 4 == 2 ==> s[|s| - 1] % 16 == 0)
    && (|s| % 4 == 3 ==> s[|s| - 1] % 4 == 0)
  }

  /** Bits that no byte uses are zero exactly if the bytes left out are. */
  lemma LastByteZero(a: Index, b: Index, c: Index, x: Byte, y: Byte, z: Byte)
    requires Sextets(a, b, c, 0) == Octets(x, y, z)
    ensures z == 0 <==> c % 4 == 0
  {
    var k := a * 0x400 + b * 0x10 - x * 0x100 - y;
    assert z == 64 * (c + 4 * k);
    if z == 0 { Multiple(c, 4, -k); }
    if c % 4 == 0 { assert z == 256 * (c / 4 + k); }
  }

  lemma LastTwoBytesZero(a: Index, b: Index, x: Byte, y: Byte, z: Byte)
    requires Sextets(a, b, 0, 0) == Octets(x, y, z)
    ensures y == 0 && z == 0 <==> b % 16 == 0
  {
    var k := a * 4 - x;
    assert 256 * y + z == 0x1000 * (b + 16 * k);
    if y == 0 && z == 0 { Multiple(b, 16, -k); }
    if b % 16 == 0 { assert 256 * y + z == 0x1_0000 * (b / 16 + k); }
  }

  /** The group's own bytes hold all its bits exactly if it is canonical. */
  lemma KeptBytesSuffice(s: seq<Index>)
    requires 2 <= |s| <= 4
    ensures ByteBits(GroupBytes(s)) == IndexBits(s) <==> Canonical(s)
  {
    var all, whole, g := ThreeBytes(IndexBits(s)), Filled(s, 4, 0), GroupBytes(s);
    assert all == [all[0], all[1], all[2]] && whole == [whole[0], whole[1], whole[2], whole[3]];
    ByteBitsAre(all, all[0], all[1], all[2]);
    IndexBitsAre(s, whole[0], whole[1], whole[2], whole[3]);
    if |s| == 4 {
      assert g == all;
    } else if |s| == 3 {
      LastByteZero(whole[0], whole[1], whole[2], all[0], all[1], all[2]);
      assert Filled(g, 3, 0) == [all[0], all[1], 0];
      ByteBitsAre(g, all[0], all[1], 0);
    } else {
      LastTwoBytesZero(whole[0], whole[1], all[0], all[1], all[2]);
      assert Filled(g, 3, 0) == [all[0], 0, 0];
      ByteBitsAre(g, all[0], 0, 0);
    }
  }

  lemma GroupReencoded(s: seq<Index>)
    requires 2 <= |s| <= 4
    ensures GroupIndexes(GroupBytes(s)) == s <==> Canonical(s)
  {
    var g := GroupBytes(s);
    KeptBytesSuffice(s);
    KeptIndexesSuffice(g);
    if Canonical(s) {
      IndexesUnique(Filled(s, 4, 0));
      assert Filled(Filled(s, 4, 0), 4, 0) == Filled(s, 4, 0);
    }
  }

  lemma BitsOfThree(a: nat, b: nat, c: nat, d: nat)
    requires a < 64 && b < 64 && c < 64 && d < 64
    ensures 4 * a + b / 16 < 256 && b % 16 * 16 + c / 4 < 256 && c % 4 * 64 + d < 256
    ensures Sextets(a, b, c, d) == Octets(4 * a + b / 16, b % 16 * 16 + c / 4, c % 4 * 64 + d)
  {
  }

  /** The bytes of a group of indexes; missing indexes are zero. */
  lemma GroupBits(s: seq<Index>, a: Index, b: Index, c: Index, d: Index, x: Byte, y: Byte, z: Byte)
    requires 2 <= |s| <= 4 && Filled(s, 4, 0) == [a, b, c, d] && Sextets(a, b, c, d) == Octets(x, y, z)
    ensures |s| == 2 ==> GroupBytes(s) == [x]
    ensures |s| == 3 ==> GroupBytes(s) == [x, y]
    ensures |s| == 4 ==> GroupBytes(s) == [x, y, z]
  {
    var all := ThreeBytes(IndexBits(s));
    IndexBitsAre(s, a, b, c, d);
    SpelledOut(all, x, y, z);
  }

  lemma SpelledOut(all: seq<Byte>, x: Byte, y: Byte, z: Byte)
    requires |all| == 3 && ByteBits(all) == Octets(x, y, z)
    ensures all == [x, y, z]
  {
    assert all == [all[0], all[1], all[2]];
    ByteBitsAre(all, all[0], all[1], all[2]);
    OctetsUnique(all[0], all[1], all[2], x, y, z);
  }

  lemma OctetsZero(x: Byte, y: Byte, z: Byte)
    requires Octets(x, y, z) == 0
    ensures x == 0 && y == 0 && z == 0
  {
  }

  lemma NoBits(all: seq<Byte>)
    requires |all| == 3 && ByteBits(all) == 0
    ensures all[0] == 0 && all[1] == 0 && all[2] == 0
  {
    assert all == [all[0], all[1], all[2]];
    ByteBitsAre(all, all[0], all[1], all[2]);
    OctetsZero(all[0], all[1], all[2]);
  }

  /** A group without bits still has three bytes. */
  lemma NoIndexes(s: seq<Index>)
    requires s == [] && IndexBits(s) == 0
    ensures |GroupBytes(s)| == 3 && forall k | 0 <= k < 3 :: GroupBytes(s)[k] == 0
  {
    NoBits(ThreeBytes(IndexBits(s)));
  }
}
