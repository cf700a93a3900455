/** The base64 decoder, against the encoding of section 4 of RFC 4648. */
module Base64 {
  import opened Common
  import opened Base64Groups

  datatype Result<+T> = Ok(value: T) | InvalidToken | NotEnoughTokens

  // ----- The alphabet

  function Letter(i: Index): char {
    if i < 26 then 'A' + i as char
    else if i < 52 then 'a' + (i - 26) as char
    else if i < 62 then '0' + (i - 52) as char
    else if i == 62 then '+' else '/'
  }

  ghost predicate IsLetter(c: char) {
    exists i: Index :: Letter(i) == c
  }

  ghost function IndexOf(c: char): (i: Index)
    requires IsLetter(c)
    ensures Letter(i) == c
  {
    var i: Index :| Letter(i) == c;
    i
  }

  lemma LettersDiffer(i: Index, j: Index)
    requires i != j
    ensures Letter(i) != Letter(j) && Letter(i) != '='
  {
  }

  lemma LetterIndex(i: Index)
    ensures IsLetter(Letter(i)) && IndexOf(Letter(i)) == i
  {
    var j := IndexOf(Letter(i));
    if j != i { LettersDiffer(i, j); }
  }

  /** Table 1 of RFC 4648, by classes of characters; 64 for a character that is not in it. */
  function Position(c: char): nat {
    if 'A' <= c <= 'Z' then (c - 'A') as nat
    else if 'a' <= c <= 'z' then 26 + (c - 'a') as nat
    else if '0' <= c <= '9' then 52 + (c - '0') as nat
    else if c == '+' then 62
    else if c == '/' then 63
    else 64
  }

  lemma PositionOfLetter(i: Index)
    ensures Position(Letter(i)) == i
  {
  }

  lemma LetterAtPosition(c: char)
    requires Position(c) < 64
    ensures Letter(Position(c)) == c
  {
  }

  /** The alphabet is that of Table 1. */
  lemma AlphabetIsTable1(c: char)
    ensures IsLetter(c) <==> Position(c) < 64
    ensures IsLetter(c) ==> IndexOf(c) == Position(c)
  {
    if Position(c) < 64 { LetterAtPosition(c); }
    if IsLetter(c) { PositionOfLetter(IndexOf(c)); }
  }

  /** `std::find` over the alphabet; 64 is its end. */
  method Find(c: char) returns (pos: nat)
    ensures pos <= 64 && (pos == 64 <==> !IsLetter(c)) && (pos < 64 ==> pos == IndexOf(c))
    ensures 'A' <= c <= 'Z' ==> pos == (c - 'A') as nat
    ensures 'a' <= c <= 'z' ==> pos == 26 + (c - 'a') as nat
    ensures '0' <= c <= '9' ==> pos == 52 + (c - '0') as nat
    ensures (c == '+' ==> pos == 62) && (c == '/' ==> pos == 63)
    ensures !('A' <= c <= 'Z' || 'a' <= c <= 'z' || '0' <= c <= '9' || c == '+' || c == '/') ==> pos == 64
  {
    pos := 0;
    while pos < 64 && Letter(pos) != c
      invariant pos <= 64 && forall j: Index :: j < pos ==> Letter(j) != c
    {
      pos := pos + 1;
    }
    if pos < 64 { LetterIndex(pos); }
    AlphabetIsTable1(c);
  }

  // ----- One chunk of four characters

  /** The characters before the first '='. */
  function Tokens(chunk: seq<char>): (r: seq<char>)
    ensures |r| <= |chunk| && r == chunk[..|r|] && '=' !in r
    ensures |r| < |chunk| ==> chunk[|r|] == '='
  {
    if chunk == [] || chunk[0] == '=' then [] else [chunk[0]] + Tokens(chunk[1..])
  }

  ghost predicate AllLetters(s: seq<char>) {
    forall i | 0 <= i < |s| :: IsLetter(s[i])
  }

  ghost function Indexes(s: seq<char>): (r: seq<Index>)
    requires AllLetters(s)
    ensures |r| == |s|
  {
    seq(|s|, i requires 0 <= i < |s| => IndexOf(s[i]))
  }

  function Letters(s: seq<Index>): (r: seq<char>)
    ensures |r| == |s|
  {
    seq(|s|, i requires 0 <= i < |s| => Letter(s[i]))
  }

  lemma IndexesOfLetters(s: seq<Index>)
    ensures AllLetters(Letters(s)) && Indexes(Letters(s)) == s
  {
    forall i | 0 <= i < |s| ensures IsLetter(Letters(s)[i]) && IndexOf(Letters(s)[i]) == s[i] { LetterIndex(s[i]); }
  }

  lemma LettersOfIndexes(s: seq<char>)
    requires AllLetters(s)
    ensures Letters(Indexes(s)) == s
  {
  }

  ghost function ChunkDecoded(chunk: seq<char>): Result<seq<Byte>>
    requires |chunk| <= 4
  {
    var t := Tokens(chunk);
    if !AllLetters(t) then InvalidToken else if |t| == 1 then NotEnoughTokens else Ok(GroupBytes(Indexes(t)))
  }

  // ----- The bits of one chunk

  /** Bitwise or. */
  function Or(a: nat, b: nat): nat {
    if a == 0 then b else if b == 0 then a else
      2 * Or(a / 2, b / 2) + if a % 2 == 1 || b % 2 == 1 then 1 else 0
  }

  function Pow2(k: nat): (r: nat)
    ensures r > 0
  {
    if k == 0 then 1 else 2 * Pow2(k - 1)
  }

  /** Bits below all those that are set are simply added. */
  lemma {:induction false} OrAdds(h: nat, k: nat, b: nat)
    requires b < Pow2(k)
    ensures Or(h * Pow2(k), b) == h * Pow2(k) + b
  {
    if k > 0 && h > 0 && b > 0 {
      var p := Pow2(k - 1);
      assert h * Pow2(k) == 2 * (h * p);
      OrAdds(h, k - 1, b / 2);
    }
  }

  /** `i << ((6 * shift) + 2)` */
  function Placed(i: Index, shift: nat): nat {
    i * Pow2(6 * shift + 2)
  }

  lemma MorePowers(k: nat)
    ensures Pow2(k + 2) == 4 * Pow2(k) && Pow2(k + 6) == 64 * Pow2(k)
  {
    assert Pow2(k + 4) == 2 * Pow2(k + 3) == 4 * Pow2(k + 2);
    assert Pow2(k + 6) == 2 * Pow2(k + 5) == 4 * Pow2(k + 4);
  }

  lemma Regroup(f: nat, c: nat, p: nat)
    ensures c * (f * p) == f * (c * p)
  {
  }

  lemma PlacedBelow(f: nat, i: Index, p: nat)
    requires p > 0
    ensures i * p < 64 * p && f * (64 * p) + i * p == (64 * f + i) * p
  {
    Regroup(f, 64, p);
    assert 64 * p == i * p + (64 - i) * p && (64 - i) * p == (63 - i) * p + p;
    assert (64 * f + i) * p == 64 * f * p + i * p;
  }

  /** Every index left out shifts the others by six bits. */
  lemma {:induction false} ZerosShift(s: seq<Index>, n: nat)
    ensures FromIndexes(Filled(s, |s| + n, 0)) == FromIndexes(s) * Pow2(6 * n)
  {
    var r := Filled(s, |s| + n, 0);
    if n == 0 {
      assert r == s;
    } else {
      assert r[..|r| - 1] == Filled(s, |s| + n - 1, 0);
      ZerosShift(s, n - 1);
      MorePowers(6 * n - 6);
      Regroup(FromIndexes(s), 64, Pow2(6 * n - 6));
    }
  }

  /** Four times the bits so far, as the accumulator has them. */
  lemma ShiftedBits(s: seq<Index>)
    requires |s| <= 4
    ensures 4 * IndexBits(s) == FromIndexes(s) * Pow2(6 * (4 - |s|) + 2)
  {
    ZerosShift(s, 4 - |s|);
    MorePowers(6 * (4 - |s|));
    Regroup(FromIndexes(s), 4, Pow2(6 * (4 - |s|)));
  }

  /** The next token's bits lie below all that were set. */
  lemma TokenPlaced(s: seq<Index>, i: Index)
    requires |s| < 4
    ensures Or(4 * IndexBits(s), Placed(i, 3 - |s|)) == 4 * IndexBits(s + [i])
  {
    var f, k := FromIndexes(s), 6 * (3 - |s|) + 2;
    ShiftedBits(s);
    ShiftedBits(s + [i]);
    MorePowers(k);
    PlacedBelow(f, i, Pow2(k));
    OrAdds(f, k + 6, Placed(i, 3 - |s|));
    assert (s + [i])[..|s|] == s;
  }

  lemma NextToken(t: seq<char>, c: char)
    requires AllLetters(t)
    ensures AllLetters(t + [c]) <==> IsLetter(c)
    ensures IsLetter(c) ==> Indexes(t + [c]) == Indexes(t) + [IndexOf(c)]
  {
    assert forall k | 0 <= k < |t| :: (t + [c])[k] == t[k];
    assert (t + [c])[|t|] == c;
  }

  /** What the accumulator holds after the tokens with indexes `s`. */
  function Accumulated(s: seq<Index>): nat
    requires |s| <= 4
  {
    if s == [] then 0 else Or(Accumulated(s[..|s| - 1]), Placed(s[|s| - 1], 4 - |s|))
  }

  lemma {:induction false} AccumulatedBits(s: seq<Index>)
    requires |s| <= 4
    ensures Accumulated(s) == 4 * IndexBits(s)
  {
    if s == [] {
      ShiftedBits(s);
    } else {
      var init, last := s[..|s| - 1], s[|s| - 1];
      AccumulatedBits(init);
      assert init + [last] == s;
      TokenPlaced(init, last);
    }
  }

  lemma Accumulate(t: seq<char>, n: nat)
    requires n < |t| <= 4 && AllLetters(t[..n])
    ensures AllLetters(t[..n + 1]) <==> IsLetter(t[n])
    ensures IsLetter(t[n]) ==>
        Accumulated(Indexes(t[..n + 1])) == Or(Accumulated(Indexes(t[..n])), Placed(IndexOf(t[n]), 3 - n))
  {
    assert t[..n] + [t[n]] == t[..n + 1];
    NextToken(t[..n], t[n]);
    if IsLetter(t[n]) {
      var s, i := Indexes(t[..n]), IndexOf(t[n]);
      assert (s + [i])[..n] == s;
    }
  }

  lemma AnotherToken(chunk: seq<char>, n: nat)
    requires n <= |Tokens(chunk)| && n < |chunk| && chunk[n] != '='
    ensures n < |Tokens(chunk)|
  {
  }

  lemma TokensFound(chunk: seq<char>, n: nat)
    requires n <= |Tokens(chunk)|
    ensures !AllLetters(chunk[..n]) ==> !AllLetters(Tokens(chunk))
    ensures n == |chunk| || chunk[n] == '=' ==> Tokens(chunk) == chunk[..n]
  {
    var t := Tokens(chunk);
    if !AllLetters(chunk[..n]) {
      var i :| 0 <= i < n && !IsLetter(chunk[..n][i]);
      assert !IsLetter(t[i]);
    }
  }

  /** One turn of the loop of `base64_decode_chunk`, at token `n` of `t`. */
  method ReadToken(c: char, val: nat, shift: nat, ghost t: seq<char>, ghost n: nat) returns (valid: bool, val': nat)
    requires n < |t| <= 4 && t[n] == c && shift == 3 - n && AllLetters(t[..n]) && val == Accumulated(Indexes(t[..n]))
    ensures valid == AllLetters(t[..n + 1])
    ensures valid ==> val' == Accumulated(Indexes(t[..n + 1]))
  {
    Accumulate(t, n);
    var pos := Find(c);
    if pos == 64 { return false, val; }
    return true, Or(val, Placed(pos, shift));
  }

  /** The loop of `base64_decode_chunk`. */
  method ReadTokens(chunk: seq<char>) returns (valid: bool, val: nat, n: nat)
    requires |chunk| == 4
    ensures valid == AllLetters(Tokens(chunk))
    ensures valid ==> n == |Tokens(chunk)| && val == Accumulated(Indexes(Tokens(chunk)))
  {
    var shift := 3;
    valid, val, n := true, 0, 0;
    while n < 4 && chunk[n] != '='
      invariant valid && 0 <= n <= |Tokens(chunk)| && shift == 3 - n
      invariant AllLetters(chunk[..n]) && val == Accumulated(Indexes(chunk[..n]))
    {
      AnotherToken(chunk, n);
      valid, val := ReadToken(chunk[n], val, shift, chunk, n);
      if !valid {
        TokensFound(chunk, n + 1);
        return;
      }
      shift := shift - 1;
      n := n + 1;
    }
    TokensFound(chunk, n);
  }

  /** `base64_decode_chunk`: 24 decoded bits above, the number of bytes in the two lowest bits. */
  method DecodeChunk(chunk: seq<char>) returns (r: Result<nat>)
    requires |chunk| == 4
    ensures var t := Tokens(chunk);
            r == if !AllLetters(t) then InvalidToken else if |t| == 1 then NotEnoughTokens
                 else Ok(0x100 * IndexBits(Indexes(t)) + ByteCount(|t|))
  {
    var valid, val, n := ReadTokens(chunk);
    if !valid { return InvalidToken; }
    if n == 1 { return NotEnoughTokens; }
    AccumulatedBits(Indexes(Tokens(chunk)));
    r := Ok(64 * val + if n == 2 then 1 else if n == 3 then 2 else 3);
  }

  // ----- The bytes of a decoded chunk

  /** Four bytes, most significant first. */
  function BigEndian(val: nat): (r: seq<Byte>)
    requires val < 0x1_0000_0000
    ensures |r| == 4
  {
    var q := val / 0x100;
    var p := q / 0x100;
    [p / 0x100, p % 0x100, q % 0x100, val % 0x100]
  }

  function Reversed<X>(s: seq<X>): seq<X> {
    seq(|s|, i requires 0 <= i < |s| => s[|s| - 1 - i])
  }

  /** The bytes of a 32-bit value in memory. */
  function InMemory(val: nat, littleEndian: bool): seq<Byte>
    requires val < 0x1_0000_0000
  {
    if littleEndian then Reversed(BigEndian(val)) else BigEndian(val)
  }

  /** `begin_by_byte_order`: on either kind of machine, most significant byte first. */
  function ByOrder(bytes: seq<Byte>, littleEndian: bool): seq<Byte> {
    if littleEndian then Reversed(bytes) else bytes
  }

  lemma EitherByteOrder(val: nat, littleEndian: bool)
    requires val < 0x1_0000_0000
    ensures ByOrder(InMemory(val, littleEndian), littleEndian) == BigEndian(val)
  {
  }

  lemma BigEndianGroup(v: nat)
    requires v < 0x100_0000
    ensures BigEndian(0x100 * v)[..3] == ThreeBytes(v)
  {
    var s := BigEndian(0x100 * v)[..3];
    assert 0x100 * v / 0x100 == v;
    ByteBitsAre(s, s[0], s[1], s[2]);
    assert ByteBits(s) == v;
    BytesUnique(s);
  }

  lemma LowBits(h: nat, count: nat)
    requires count < 4
    ensures (4 * h + count) % 4 == count
  {
  }

  /** The byte count and the bytes come apart again. */
  lemma Unpacked(v: nat, count: nat)
    requires v < 0x100_0000 && count < 4
    ensures var val := 0x100 * v + count;
            && val < 0x1_0000_0000 && val % 4 == count
            && BigEndian(val - val % 4)[..count] == ThreeBytes(v)[..count]
  {
    BigEndianGroup(v);
    LowBits(0x40 * v, count);
    assert BigEndian(0x100 * v)[..count] == BigEndian(0x100 * v)[..3][..count];
  }

  /** The low two bits say how many of the bytes above them to take; `v` and `count` are what
      was packed. */
  method TakeBytes(val: nat, littleEndian: bool, ghost v: nat, ghost count: nat) returns (r: seq<Byte>)
    requires v < 0x100_0000 && count < 4 && val == 0x100 * v + count
    ensures r == ThreeBytes(v)[..count]
  {
    Unpacked(v, count);
    var numBytes := val % 4;
    var bits := val - numBytes;
    EitherByteOrder(bits, littleEndian);
    r := ByOrder(InMemory(bits, littleEndian), littleEndian)[..numBytes];
  }

  // ----- The whole string

  function Prepend(bytes: seq<Byte>, r: Result<seq<Byte>>): Result<seq<Byte>> {
    if r.Ok? then Ok(bytes + r.value) else r
  }

  /** What a string decodes to: four characters at a time, the first error winning. */
  ghost function Decoded(s: seq<char>): Result<seq<Byte>> {
    if s == [] then Ok([])
    else
      var n := if |s| < 4 then |s| else 4;
      var first := ChunkDecoded(s[..n]);
      if first.Ok? then Prepend(first.value, Decoded(s[n..])) else first
  }

  /** Filling up with '=' does not change what a chunk means. */
  lemma PaddingIsNeutral(chunk: seq<char>, pad: seq<char>)
    requires forall i | 0 <= i < |pad| :: pad[i] == '='
    ensures Tokens(chunk + pad) == Tokens(chunk)
  {
    if chunk == [] {
      assert chunk + pad == pad;
    } else {
      assert (chunk + pad)[1..] == chunk[1..] + pad;
    }
  }

  /** Pad a chunk, decode it, take its bytes. */
  method DecodePiece(piece: seq<char>, littleEndian: bool) returns (r: Result<seq<Byte>>)
    requires |piece| <= 4
    ensures r == ChunkDecoded(piece)
  {
    var pad := seq(4 - |piece|, _ => '=');
    PaddingIsNeutral(piece, pad);
    var decoded := DecodeChunk(piece + pad);
    if decoded.InvalidToken? { return InvalidToken; }
    if decoded.NotEnoughTokens? { return NotEnoughTokens; }
    ghost var t := Tokens(piece);
    var bytes := TakeBytes(decoded.value, littleEndian, IndexBits(Indexes(t)), ByteCount(|t|));
    r := Ok(bytes);
  }

  lemma DecodedStep(s: seq<char>, pos: nat, n: nat)
    requires pos < |s| && n == if |s| - pos < 4 then |s| - pos else 4
    ensures var first := ChunkDecoded(s[pos..pos + n]);
            Decoded(s[pos..]) == if first.Ok? then Prepend(first.value, Decoded(s[pos + n..])) else first
  {
    assert s[pos..][..n] == s[pos..pos + n] && s[pos..][n..] == s[pos + n..];
  }

  lemma DecodedParts(first: seq<char>, rest: seq<char>)
    requires 1 <= |first| <= 4 && (|first| < 4 ==> rest == [])
    ensures var r := ChunkDecoded(first);
            Decoded(first + rest) == if r.Ok? then Prepend(r.value, Decoded(rest)) else r
  {
    var s := first + rest;
    DecodedStep(s, 0, |first|);
    assert s[0..] == s && s[..|first|] == first && s[|first|..] == rest;
  }

  /** One turn of the loop of `base64_decode`, from `inputPos` to `next`. */
  method DecodeNext(encoded: seq<char>, inputPos: nat, littleEndian: bool) returns (next: nat, r: Result<seq<Byte>>)
    requires inputPos < |encoded|
    ensures inputPos < next <= |encoded|
    ensures Decoded(encoded[inputPos..]) == if r.Ok? then Prepend(r.value, Decoded(encoded[next..])) else r
  {
    var numToRead := if |encoded| - inputPos < 4 then |encoded| - inputPos else 4;
    next := inputPos + numToRead;
    DecodedStep(encoded, inputPos, numToRead);
    r := DecodePiece(encoded[inputPos..next], littleEndian);
  }

  lemma PrependTwice(a: seq<Byte>, b: seq<Byte>, r: Result<seq<Byte>>)
    ensures Prepend(a, Prepend(b, r)) == Prepend(a + b, r)
    ensures Prepend([], r) == r
  {
    if r.Ok? { assert a + (b + r.value) == a + b + r.value && [] + r.value == r.value; }
  }

  /** `base64_decode` */
  method Decode(encoded: seq<char>, littleEndian: bool) returns (r: Result<seq<Byte>>)
    ensures r == Decoded(encoded)
  {
    var result: seq<Byte>, inputPos := [], 0;
    ghost var expected := Decoded(encoded);
    assert encoded[0..] == encoded;
    PrependTwice([], [], expected);
    while inputPos != |encoded|
      invariant 0 <= inputPos <= |encoded|
      invariant expected == Prepend(result, Decoded(encoded[inputPos..]))
      decreases |encoded| - inputPos
    {
      var next, decoded := DecodeNext(encoded, inputPos, littleEndian);
      if !decoded.Ok? { return decoded; }
      PrependTwice(result, decoded.value, Decoded(encoded[next..]));
      inputPos := next;
      result := result + decoded.value;
    }
    assert result + [] == result;
    r := Ok(result);
  }

  // ----- The encoder of RFC 4648, and the round trip

  function Padding(n: nat): seq<char> {
    seq(n, _ => '=')
  }

  ghost function Encoded(bytes: seq<Byte>, padded: bool): seq<char> {
    if bytes == [] then []
    else
      var n := if |bytes| < 3 then |bytes| else 3;
      Letters(GroupIndexes(bytes[..n])) + (if padded then Padding(3 - n) else []) + Encoded(bytes[n..], padded)
  }

  lemma {:induction false} TokensWithoutPad(s: seq<char>)
    requires '=' !in s
    ensures Tokens(s) == s
  {
    if s != [] { TokensWithoutPad(s[1..]); }
  }

  lemma NoPadInLetters(s: seq<char>)
    requires AllLetters(s)
    ensures '=' !in s
  {
    forall i | 0 <= i < |s| ensures s[i] != '=' { LettersDiffer(IndexOf(s[i]), if IndexOf(s[i]) == 0 then 1 else 0); }
  }

  lemma EncodedGroupDecodes(g: seq<Byte>, pad: seq<char>)
    requires 1 <= |g| <= 3 && |pad| <= 3 - |g| && forall i | 0 <= i < |pad| :: pad[i] == '='
    ensures ChunkDecoded(Letters(GroupIndexes(g)) + pad) == Ok(g)
  {
    var s := GroupIndexes(g);
    IndexesOfLetters(s);
    NoPadInLetters(Letters(s));
    TokensWithoutPad(Letters(s));
    PaddingIsNeutral(Letters(s), pad);
    GroupRoundTrip(g);
  }

  lemma RoundTripStep(head: seq<Byte>, pad: seq<char>, tail: seq<Byte>, rest: seq<char>)
    requires 1 <= |head| <= 3 && (pad == [] || pad == Padding(3 - |head|)) && (|head| < 3 ==> rest == [])
    requires Decoded(rest) == Ok(tail)
    ensures Decoded(Letters(GroupIndexes(head)) + pad + rest) == Ok(head + tail)
  {
    EncodedGroupDecodes(head, pad);
    DecodedParts(Letters(GroupIndexes(head)) + pad, rest);
  }

  /** Decoding undoes encoding, with or without padding. */
  lemma {:induction false} RoundTrip(bytes: seq<Byte>, padded: bool)
    ensures Decoded(Encoded(bytes, padded)) == Ok(bytes)
    decreases |bytes|
  {
    if bytes != [] {
      var n := if |bytes| < 3 then |bytes| else 3;
      RoundTrip(bytes[n..], padded);
      RoundTripStep(bytes[..n], if padded then Padding(3 - n) else [], bytes[n..], Encoded(bytes[n..], padded));
      assert bytes[..n] + bytes[n..] == bytes;
    }
  }

  // ----- What happens to any string without '='

  /** Success exactly if all characters are letters and their number is not one more than a multiple
      of four; a foreign character is reported in preference to a missing one. */
  lemma {:induction false} Outcome(s: seq<char>)
    requires '=' !in s
    ensures Decoded(s).Ok? <==> AllLetters(s) && |s| % 4 != 1
    ensures Decoded(s).Ok? ==> |Decoded(s).value| == 6 * |s| / 8
    ensures Decoded(s).InvalidToken? <==> !AllLetters(s)
    decreases |s|
  {
    if |s| >= 4 {
      ChunkOutcome(s[..4]);
      Outcome(s[4..]);
      FourMore(|s| - 4);
      LettersSplit(s);
    } else if s != [] {
      ChunkOutcome(s);
      assert s[..|s|] == s && s[|s|..] == [];
    }
  }

  lemma FourMore(n: nat)
    ensures (n + 4) % 4 == n % 4 && 6 * (n + 4) / 8 == 6 * n / 8 + 3
  {
  }

  lemma LettersSplit(s: seq<char>)
    requires |s| >= 4
    ensures AllLetters(s) <==> AllLetters(s[..4]) && AllLetters(s[4..])
  {
    assert forall i | 4 <= i < |s| :: s[i] == s[4..][i - 4];
  }

  lemma ChunkOutcome(t: seq<char>)
    requires '=' !in t && 1 <= |t| <= 4
    ensures ChunkDecoded(t).Ok? <==> AllLetters(t) && |t| != 1
    ensures ChunkDecoded(t).Ok? ==> |ChunkDecoded(t).value| == |t| - 1
    ensures ChunkDecoded(t).InvalidToken? <==> !AllLetters(t)
  {
    TokensWithoutPad(t);
  }

  lemma EqualInParts<X>(a: seq<X>, b: seq<X>, c: seq<X>, d: seq<X>)
    requires |a| == |c|
    ensures a + b == c + d <==> a == c && b == d
  {
    if a + b == c + d {
      assert (a + b)[..|a|] == a && (a + b)[|a|..] == b;
      assert (c + d)[..|c|] == c && (c + d)[|c|..] == d;
    }
  }

  lemma IndexesSplit(s: seq<char>)
    requires AllLetters(s) && |s| >= 4
    ensures AllLetters(s[..4]) && AllLetters(s[4..])
    ensures Indexes(s[..4]) == Indexes(s)[..4] && Indexes(s[4..]) == Indexes(s)[4..]
    ensures Canonical(Indexes(s[..4])) && (Canonical(Indexes(s)) <==> Canonical(Indexes(s[4..])))
  {
    var all, rest := Indexes(s), Indexes(s[4..]);
    assert forall i | 4 <= i < |s| :: s[i] == s[4..][i - 4];
    assert rest == all[4..];
    assert |s| % 4 == |rest| % 4;
    if rest != [] { assert rest[|rest| - 1] == all[|all| - 1]; }
  }

  lemma EncodedSplit(head: seq<Byte>, tail: seq<Byte>)
    requires 1 <= |head| <= 3 && (|head| < 3 ==> tail == [])
    ensures Encoded(head + tail, false) == Letters(GroupIndexes(head)) + Encoded(tail, false)
  {
    assert (head + tail)[..|head|] == head && (head + tail)[|head|..] == tail;
    assert Letters(GroupIndexes(head)) + [] == Letters(GroupIndexes(head));
  }

  /** A chunk without '=' is what the encoder writes for its bytes exactly if it is canonical. */
  lemma ChunkReencoded(t: seq<char>)
    requires '=' !in t && 2 <= |t| <= 4 && AllLetters(t)
    ensures ChunkDecoded(t) == Ok(GroupBytes(Indexes(t)))
    ensures Letters(GroupIndexes(GroupBytes(Indexes(t)))) == t <==> Canonical(Indexes(t))
  {
    TokensWithoutPad(t);
    LettersOfIndexes(t);
    GroupReencoded(Indexes(t));
    IndexesOfLetters(GroupIndexes(GroupBytes(Indexes(t))));
  }

  lemma ReencodedParts(head: seq<Byte>, tail: seq<Byte>, t: seq<char>, rest: seq<char>)
    requires 1 <= |head| <= 3 && |t| == |head| + 1 && (|head| < 3 ==> tail == [])
    ensures Encoded(head + tail, false) == t + rest
       <==> Letters(GroupIndexes(head)) == t && Encoded(tail, false) == rest
  {
    EncodedSplit(head, tail);
    EqualInParts(Letters(GroupIndexes(head)), Encoded(tail, false), t, rest);
  }

  lemma ReencodedStep(t: seq<char>, rest: seq<char>)
    requires '=' !in t && 2 <= |t| <= 4 && AllLetters(t) && (|t| < 4 ==> rest == []) && Decoded(rest).Ok?
    ensures Decoded(t + rest).Ok?
    ensures Encoded(Decoded(t + rest).value, false) == t + rest
       <==> Canonical(Indexes(t)) && Encoded(Decoded(rest).value, false) == rest
  {
    DecodedParts(t, rest);
    ChunkReencoded(t);
    ReencodedParts(GroupBytes(Indexes(t)), Decoded(rest).value, t, rest);
  }

  lemma Decodable(s: seq<char>)
    requires '=' !in s && Decoded(s).Ok?
    ensures AllLetters(s) && |s| != 1 && (|s| >= 4 ==> Decoded(s[4..]).Ok?)
  {
    Outcome(s);
    if |s| >= 4 { DecodedStep(s, 0, 4); }
  }

  lemma ReencodedShort(s: seq<char>)
    requires '=' !in s && |s| < 4 && |s| != 1 && AllLetters(s)
    ensures Decoded(s).Ok?
    ensures Encoded(Decoded(s).value, false) == s <==> Canonical(Indexes(s))
  {
    assert Decoded([]).value == [] && Encoded([], false) == [];
    if s != [] {
      ReencodedStep(s, []);
      assert s + [] == s;
    }
  }

  /** Of the strings that decode to the same bytes, exactly the canonical one is what the encoder
      writes. */
  lemma {:induction false} Reencoded(s: seq<char>)
    requires '=' !in s && Decoded(s).Ok?
    ensures AllLetters(s)
    ensures Encoded(Decoded(s).value, false) == s <==> Canonical(Indexes(s))
    decreases |s|
  {
    Decodable(s);
    if |s| >= 4 {
      IndexesSplit(s);
      ReencodedStep(s[..4], s[4..]);
      Reencoded(s[4..]);
      assert s == s[..4] + s[4..];
    } else {
      ReencodedShort(s);
    }
  }

  // ----- The bytes of a group, bit by bit

  /** Characters at the positions `a` to `d` of the table decode to the bytes with the same bits. */
  lemma CharactersDecode(
      s: seq<char>, pad: seq<char>, a: Index, b: Index, c: Index, d: Index, x: Byte, y: Byte, z: Byte)
    requires 2 <= |s| <= 4 && |s + pad| <= 4 && (forall k | 0 <= k < |pad| :: pad[k] == '=')
    requires Position(s[0]) == a && Position(s[1]) == b
    requires if |s| > 2 then Position(s[2]) == c else c == 0
    requires if |s| > 3 then Position(s[3]) == d else d == 0
    requires Sextets(a, b, c, d) == Octets(x, y, z)
    ensures Decoded(s + pad) == Ok(if |s| == 2 then [x] else if |s| == 3 then [x, y] else [x, y, z])
  {
    AllInTable(s);
    assert Filled(Indexes(s), 4, 0) == [a, b, c, d];
    GroupBits(Indexes(s), a, b, c, d, x, y, z);
    DecodedAlone(s, pad);
  }

  /** Four characters: every byte's bits, from the positions in Table 1. */
  lemma FourCharacters(s: seq<char>, x: Byte, y: Byte, z: Byte)
    requires |s| == 4 && forall k | 0 <= k < 4 :: Position(s[k]) < 64
    requires x == 4 * Position(s[0]) + Position(s[1]) / 16
    requires y == Position(s[1]) % 16 * 16 + Position(s[2]) / 4
    requires z == Position(s[2]) % 4 * 64 + Position(s[3])
    ensures Decoded(s) == Ok([x, y, z])
  {
    var a, b, c, d := Position(s[0]), Position(s[1]), Position(s[2]), Position(s[3]);
    BitsOfThree(a, b, c, d);
    CharactersDecode(s, [], a, b, c, d, x, y, z);
    assert s + [] == s;
  }

  /** Three characters, padded or not: two bytes, the last two bits unused. */
  lemma ThreeCharacters(s: seq<char>, pad: seq<char>, x: Byte, y: Byte)
    requires |s| == 3 && (forall k | 0 <= k < 3 :: Position(s[k]) < 64) && (pad == [] || pad == ['='])
    requires x == 4 * Position(s[0]) + Position(s[1]) / 16
    requires y == Position(s[1]) % 16 * 16 + Position(s[2]) / 4
    ensures Decoded(s + pad) == Ok([x, y])
  {
    var a, b, c := Position(s[0]), Position(s[1]), Position(s[2]);
    BitsOfThree(a, b, c, 0);
    CharactersDecode(s, pad, a, b, c, 0, x, y, c % 4 * 64);
  }

  /** Two characters, padded or not: one byte, the last four bits unused. */
  lemma TwoCharacters(s: seq<char>, pad: seq<char>, x: Byte)
    requires |s| == 2 && (forall k | 0 <= k < 2 :: Position(s[k]) < 64) && (pad == [] || pad == ['=', '='])
    requires x == 4 * Position(s[0]) + Position(s[1]) / 16
    ensures Decoded(s + pad) == Ok([x])
  {
    var a, b := Position(s[0]), Position(s[1]);
    BitsOfThree(a, b, 0, 0);
    CharactersDecode(s, pad, a, b, 0, 0, x, b % 16 * 16, 0);
  }

  /** Some of the test vectors in section 10 of RFC 4648: "f", "fo" and "foo". */
  lemma TestVectors()
    ensures Decoded("Zg==") == Ok([102])
    ensures Decoded("Zm8=") == Ok([102, 111])
    ensures Decoded("Zm9v") == Ok([102, 111, 111])
  {
    TwoCharacters("Zg", "==", 102);
    ThreeCharacters("Zm8", "=", 102, 111);
    FourCharacters("Zm9v", 102, 111, 111);
    assert "Zg" + "==" == "Zg==" && "Zm8" + "=" == "Zm8=";
  }

  lemma AllInTable(s: seq<char>)
    requires forall k | 0 <= k < |s| :: Position(s[k]) < 64
    ensures AllLetters(s) && '=' !in s && Tokens(s) == s
    ensures forall k | 0 <= k < |s| :: Indexes(s)[k] == Position(s[k])
  {
    forall k | 0 <= k < |s| ensures IsLetter(s[k]) && IndexOf(s[k]) == Position(s[k]) { AlphabetIsTable1(s[k]); }
    NoPadInLetters(s);
    TokensWithoutPad(s);
  }

  /** A group that starts with '=' has no characters to decode and yields three zero bytes. */
  lemma PaddingFirst(chunk: seq<char>)
    requires 1 <= |chunk| <= 4 && chunk[0] == '='
    ensures var r := ChunkDecoded(chunk); r.Ok? && |r.value| == 3 && forall k | 0 <= k < 3 :: r.value[k] == 0
    ensures Decoded(chunk) == ChunkDecoded(chunk)
  {
    var t := Tokens(chunk);
    assert t == [] && AllLetters(t);
    ShiftedBits(Indexes(t));
    NoIndexes(Indexes(t));
    DecodedParts(chunk, []);
    assert chunk + [] == chunk;
    assert ChunkDecoded(chunk).value + [] == ChunkDecoded(chunk).value;
  }

  lemma DecodedAlone(s: seq<char>, pad: seq<char>)
    requires 2 <= |s| <= 4 && |s + pad| <= 4 && AllLetters(s) && '=' !in s && forall k | 0 <= k < |pad| :: pad[k] == '='
    ensures Decoded(s + pad) == Ok(GroupBytes(Indexes(s)))
  {
    TokensWithoutPad(s);
    PaddingIsNeutral(s, pad);
    var all := s + pad;
    DecodedStep(all, 0, |all|);
    assert all[0..] == all && all[..|all|] == all && all[|all|..] == [];
    assert GroupBytes(Indexes(s)) + [] == GroupBytes(Indexes(s));
  }
}
