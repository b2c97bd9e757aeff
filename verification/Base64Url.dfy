/** The contract's base64url encoder, against section 5 of RFC 4648 read as a bit stream: the octets' bits,
    most significant first, cut into groups of six, the last group filled up with zero bits, no padding. */
module Base64Url {
  import opened Common

  type byte = x: int | 0 <= x < 256
  type sextet = x: int | 0 <= x < 64

  const ALPHABET: string := "ABCDEFGHIJKLMNOPQRSTUVWXYZ" + "abcdefghijklmnopqrstuvwxyz" + "0123456789" + "-_"

  function Letter(v: sextet): char { ALPHABET[v] }

  // ---------- bits ----------

  /** v shifted left by k bits. */
  function Shl(v: nat, k: nat): (r: nat)
    ensures r >= v
  {
    if k == 0 then v else 2 * Shl(v, k - 1)
  }

  /** The low w bits of v, most significant first. */
  function BitsOf(v: nat, w: nat): (bits: seq<bool>)
    ensures |bits| == w
  {
    if w == 0 then [] else BitsOf(v / 2, w - 1) + [v % 2 == 1]
  }

  function Number(bits: seq<bool>): (n: nat)
    ensures n < Shl(1, |bits|)
  {
    if bits == [] then 0 else 2 * Number(bits[..|bits| - 1]) + if bits[|bits| - 1] then 1 else 0
  }

  lemma {:induction false} NumberOfBits(v: nat, w: nat)
    requires v < Shl(1, w)
    ensures Number(BitsOf(v, w)) == v
  {
    if w > 0 {
      NumberOfBits(v / 2, w - 1);
      assert BitsOf(v, w)[..w - 1] == BitsOf(v / 2, w - 1);
    }
  }

  lemma {:induction false} BitsOfNumber(bits: seq<bool>)
    ensures BitsOf(Number(bits), |bits|) == bits
  {
    if bits != [] {
      BitsOfNumber(bits[..|bits| - 1]);
    }
  }

  /** Joining numbers side by side joins their bits. */
  lemma {:induction false} BitsJoin(v: nat, w: nat, u: nat, k: nat)
    requires u < Shl(1, k)
    ensures BitsOf(Shl(v, k) + u, w + k) == BitsOf(v, w) + BitsOf(u, k)
  {
    if k == 0 {
      assert BitsOf(v, w) + [] == BitsOf(v, w);
    } else {
      BitsJoin(v, w, u / 2, k - 1);
      assert (Shl(v, k) + u) / 2 == Shl(v, k - 1) + u / 2;
    }
  }

  // ---------- the standard's encoding and its inverse ----------

  function Stream(src: seq<byte>): (bits: seq<bool>)
    ensures |bits| == 8 * |src|
  {
    if src == [] then [] else BitsOf(src[0], 8) + Stream(src[1..])
  }

  function Fill(bits: seq<bool>): (six: seq<bool>)
    requires |bits| <= 6
    ensures |six| == 6
  {
    bits + seq(6 - |bits|, _ => false)
  }

  function SextetOf(bits: seq<bool>): sextet
    requires |bits| <= 6
  {
    assert Shl(1, 6) == 64;
    Number(Fill(bits))
  }

  function Sextets(bits: seq<bool>): seq<sextet>
    decreases |bits|
  {
    if bits == [] then []
    else if |bits| < 6 then [SextetOf(bits)]
    else [SextetOf(bits[..6])] + Sextets(bits[6..])
  }

  function Letters(codes: seq<sextet>): (s: string)
    ensures |s| == |codes| && forall i :: 0 <= i < |codes| ==> s[i] == Letter(codes[i])
  {
    seq(|codes|, i requires 0 <= i < |codes| => Letter(codes[i]))
  }

  function Encode(src: seq<byte>): string { Letters(Sextets(Stream(src))) }

  function EncodedLength(n: nat): nat { (4 * n + 2) / 3 }

  function Code(c: char): Option<sextet> {
    if 'A' <= c <= 'Z' then Some(c as int - 'A' as int)
    else if 'a' <= c <= 'z' then Some(c as int - 'a' as int + 26)
    else if '0' <= c <= '9' then Some(c as int - '0' as int + 52)
    else if c == '-' then Some(62) else if c == '_' then Some(63) else None
  }

  function DecodeBits(s: string): Option<seq<bool>> {
    if s == "" then Some([]) else
    match (Code(s[0]), DecodeBits(s[1..]))
    case (Some(v), Some(rest)) => Some(BitsOf(v, 6) + rest)
    case _ => None
  }

  function Octet(bits: seq<bool>): byte
    requires |bits| == 8
  {
    assert Shl(1, 8) == 256;
    Number(bits)
  }

  /** Whole octets; the fill bits at the end are dropped. */
  function Octets(bits: seq<bool>): seq<byte>
    decreases |bits|
  {
    if |bits| < 8 then [] else [Octet(bits[..8])] + Octets(bits[8..])
  }

  function Decode(s: string): Option<seq<byte>> {
    match DecodeBits(s) case None => None case Some(bits) => Some(Octets(bits))
  }

  lemma CodeOfLetter(v: sextet)
    ensures Code(ALPHABET[v]) == Some(v)
  {
    hide Code;
    if v < 26 { CodeOfUpper(v); }
    else if v < 52 { CodeOfLower(v - 26); }
    else if v < 62 { CodeOfDigit(v - 52); }
    else { assert ALPHABET[62] == '-' && ALPHABET[63] == '_' && Code('-') == Some(62) && Code('_') == Some(63) by { CodeOfSigns(); } }
  }

  lemma CodeOfUpper(v: nat)
    requires v < 26
    ensures ALPHABET[v] == ('A' as int + v) as char && Code(ALPHABET[v]) == Some(v)
  {
    assert ALPHABET[v] == "ABCDEFGHIJKLMNOPQRSTUVWXYZ"[v];
  }

  lemma CodeOfLower(v: nat)
    requires v < 26
    ensures ALPHABET[26 + v] == ('a' as int + v) as char && Code(ALPHABET[26 + v]) == Some(26 + v)
  {
    var upper, lower, rest := "ABCDEFGHIJKLMNOPQRSTUVWXYZ", "abcdefghijklmnopqrstuvwxyz", "0123456789" + "-_";
    assert ALPHABET == upper + lower + rest;
    assert ALPHABET[26 + v] == lower[v];
  }

  lemma CodeOfDigit(v: nat)
    requires v < 10
    ensures ALPHABET[52 + v] == ('0' as int + v) as char && Code(ALPHABET[52 + v]) == Some(52 + v)
  {
    assert ALPHABET[52 + v] == "0123456789"[v];
  }

  lemma CodeOfSigns()
    ensures ALPHABET[62] == '-' && ALPHABET[63] == '_' && Code('-') == Some(62) && Code('_') == Some(63)
  {
  }

  /** Decoding the letters of a bit stream returns it with at most five zero bits behind it. */
  lemma {:induction false} DecodedBits(bits: seq<bool>)
    ensures DecodeBits(Letters(Sextets(bits))).Some? && bits <= DecodeBits(Letters(Sextets(bits))).value
    ensures |DecodeBits(Letters(Sextets(bits))).value| < |bits| + 6
    decreases |bits|
  {
    hide Shl, BitsOf, Number, Code;
    if bits != [] {
      var head := if |bits| < 6 then bits else bits[..6];
      var rest := if |bits| < 6 then [] else bits[6..];
      var v := SextetOf(head);
      assert Sextets(bits) == [v] + Sextets(rest);
      var s := Letters(Sextets(bits));
      assert s[1..] == Letters(Sextets(rest));
      CodeOfLetter(v);
      BitsOfNumber(Fill(head));
      DecodedBits(rest);
      assert bits == head + rest;
    }
  }

  lemma {:induction false} OctetsOfStream(src: seq<byte>, fill: seq<bool>)
    requires |fill| < 8
    ensures Octets(Stream(src) + fill) == src
  {
    hide BitsOf, Number;
    if src == [] {
      assert Stream(src) + fill == fill;
    } else {
      var bits := Stream(src) + fill;
      assert bits[..8] == BitsOf(src[0], 8) && bits[8..] == Stream(src[1..]) + fill;
      assert Shl(1, 8) == 256;
      NumberOfBits(src[0], 8);
      OctetsOfStream(src[1..], fill);
    }
  }

  lemma DecodeInvertsEncode(src: seq<byte>)
    ensures Decode(Encode(src)) == Some(src)
  {
    hide Sextets, Letters, DecodeBits, Stream, Octets;
    DecodedBits(Stream(src));
    var bits := DecodeBits(Encode(src)).value;
    var fill := bits[|Stream(src)|..];
    assert bits == Stream(src) + fill;
    OctetsOfStream(src, fill);
  }

  /** Equal challenges mean equal payloads. */
  lemma EncodeIsInjective(a: seq<byte>, b: seq<byte>)
    requires Encode(a) == Encode(b)
    ensures a == b
  {
    DecodeInvertsEncode(a);
    DecodeInvertsEncode(b);
  }

  // ---------- the encoder in place ----------

  lemma {:induction false} SextetsOfConcat(a: seq<bool>, b: seq<bool>)
    requires |a| % 6 == 0
    ensures Sextets(a + b) == Sextets(a) + Sextets(b)
    decreases |a|
  {
    hide SextetOf, Fill, Number, Shl;
    if a == [] {
      assert a + b == b;
    } else {
      assert (a + b)[..6] == a[..6] && (a + b)[6..] == a[6..] + b;
      SextetsOfConcat(a[6..], b);
    }
  }

  lemma {:induction false} StreamOfConcat(a: seq<byte>, b: seq<byte>)
    ensures Stream(a + b) == Stream(a) + Stream(b)
  {
    if a == [] {
      assert a + b == b;
    } else {
      assert (a + b)[1..] == a[1..] + b;
      StreamOfConcat(a[1..], b);
    }
  }

  lemma {:induction false} EncodedSize(bits: seq<bool>)
    ensures |Sextets(bits)| == (|bits| + 5) / 6
    decreases |bits|
  {
    if |bits| >= 6 { EncodedSize(bits[6..]); }
  }

  /** Whole triples can be encoded one after the other. */
  lemma EncodeOfConcat(a: seq<byte>, b: seq<byte>)
    requires |a| % 3 == 0
    ensures Encode(a + b) == Encode(a) + Encode(b)
  {
    hide Sextets, Stream, Letters;
    StreamOfConcat(a, b);
    WholeGroups(|a|);
    SextetsOfConcat(Stream(a), Stream(b));
    LettersOfConcat(Sextets(Stream(a)), Sextets(Stream(b)));
  }

  lemma WholeGroups(n: nat)
    requires n % 3 == 0
    ensures (8 * n) % 6 == 0
  {
    assert 8 * n == 6 * (4 * (n / 3));
  }

  lemma LettersOfConcat(a: seq<sextet>, b: seq<sextet>)
    ensures Letters(a + b) == Letters(a) + Letters(b)
  {
    hide Letter;
  }

  lemma EncodeLength(src: seq<byte>)
    ensures |Encode(src)| == EncodedLength(|src|)
    ensures |src| == 32 ==> |Encode(src)| == 43
  {
    EncodedSize(Stream(src));
  }

  /** The first six bits of a number of w + 6 bits, then the rest. */
  lemma SextetsOfNumber(s: sextet, low: nat, w: nat)
    requires low < Shl(1, w)
    ensures Sextets(BitsOf(Shl(s, w) + low, 6 + w)) == [s] + Sextets(BitsOf(low, w))
  {
    BitsJoin(s, 6, low, w);
    var bits := BitsOf(s, 6) + BitsOf(low, w);
    assert bits[..6] == BitsOf(s, 6) && bits[6..] == BitsOf(low, w);
    assert Fill(BitsOf(s, 6)) == BitsOf(s, 6) && Shl(1, 6) == 64;
    NumberOfBits(s, 6);
  }

  lemma Powers()
    ensures Shl(1, 0) == 1 && Shl(1, 2) == 4 && Shl(1, 4) == 16 && Shl(1, 6) == 64 && Shl(1, 8) == 256 && Shl(1, 10) == 1024
    ensures Shl(1, 12) == 4096 && Shl(1, 16) == 65536 && Shl(1, 18) == 262144
  {
    assert Shl(1, 6) == 4 * Shl(1, 4) && Shl(1, 8) == 16 * Shl(1, 4) && Shl(1, 10) == 4 * Shl(1, 8);
    assert Shl(1, 12) == 16 * Shl(1, 8);
    assert Shl(1, 16) == 16 * Shl(1, 12);
  }

  lemma {:induction false} ShlIsProduct(v: nat, k: nat)
    ensures Shl(v, k) == v * Shl(1, k)
  {
    if k > 0 { ShlIsProduct(v, k - 1); }
  }

  /** The four table indices of a 24-bit value, by shift and mask: division and remainder by powers of two. */
  function Index(value: nat, shift: nat): sextet { (value / Shl(1, shift)) % 64 }

  /** Cutting the top six bits off a number. */
  lemma SextetStep(x: nat, w: nat, s: sextet, low: nat)
    requires x == s * Shl(1, w) + low && low < Shl(1, w)
    ensures Sextets(BitsOf(x, 6 + w)) == [s] + Sextets(BitsOf(low, w))
  {
    ShlIsProduct(s, w);
    SextetsOfNumber(s, low, w);
  }

  /** Shifting and masking agree with taking the sextets off one by one. */
  lemma IndexArithmetic(value: nat)
    requires value < 16777216
    ensures var s0, s1, s2, s3 := value / 262144, (value / 4096) % 64, (value / 64) % 64, value % 64;
            && s0 < 64 && value == s0 * 262144 + value % 262144 && value % 262144 == s1 * 4096 + value % 4096
            && value % 4096 == s2 * 64 + s3
  {
  }

  lemma SextetsOf24(value: nat)
    requires value < 16777216
    ensures Sextets(BitsOf(value, 24)) == [Index(value, 18), Index(value, 12), Index(value, 6), Index(value, 0)]
  {
    hide Shl, BitsOf, Sextets;
    var s0, s1, s2, s3 := value / 262144, (value / 4096) % 64, (value / 64) % 64, value % 64;
    IndexArithmetic(value);
    Powers();
    SextetStep(value, 18, s0, value % 262144);
    SextetStep(value % 262144, 12, s1, value % 4096);
    SextetStep(value % 4096, 6, s2, s3);
    SextetOfLast(s3);
  }

  lemma SextetOfLast(s: sextet)
    ensures Sextets(BitsOf(s, 6)) == [s]
  {
    Powers();
    SextetStep(s, 0, s, 0);
    assert BitsOf(0, 0) == [];
  }

  /** Three octets side by side: the shifts and ors of the original. */
  function Combine(a: byte, b: byte, c: byte): (v: nat)
    ensures v < 16777216
  {
    a as int * 65536 + b as int * 256 + c as int
  }

  lemma StreamOfOne(a: byte)
    ensures Stream([a]) == BitsOf(a, 8)
  {
    assert [a][1..] == [] && Stream([]) == [];
  }

  lemma StreamOfTwo(a: byte, b: byte)
    ensures Stream([a, b]) == BitsOf(a * 256 + b, 16)
  {
    hide BitsOf;
    Powers();
    StreamOfOne(b);
    assert [a, b][1..] == [b];
    BitsJoin(a, 8, b, 8);
    ShlIsProduct(a, 8);
  }

  /** A 24-bit value is the bits of its three octets. */
  lemma StreamOfThree(a: byte, b: byte, c: byte)
    ensures Stream([a, b, c]) == BitsOf(Combine(a, b, c), 24)
  {
    hide BitsOf;
    Powers();
    StreamOfTwo(b, c);
    assert [a, b, c][1..] == [b, c];
    BitsJoin(a, 8, b * 256 + c, 16);
    ShlIsProduct(a, 16);
  }

  lemma EncodeOfThree(a: byte, b: byte, c: byte)
    ensures var v := Combine(a, b, c);
            Encode([a, b, c]) == [Letter(Index(v, 18)), Letter(Index(v, 12)), Letter(Index(v, 6)), Letter(Index(v, 0))]
  {
    hide BitsOf, Stream, Sextets, Letter, Index;
    StreamOfThree(a, b, c);
    var v := Combine(a, b, c);
    SextetsOf24(v);
    assert Letters([Index(v, 18), Index(v, 12), Index(v, 6), Index(v, 0)])
        == [Letter(Index(v, 18)), Letter(Index(v, 12)), Letter(Index(v, 6)), Letter(Index(v, 0))];
  }

  lemma OneIndices(a: byte)
    ensures Index(a * 65536, 18) == a / 4 && Index(a * 65536, 12) == (a % 4) * 16
  {
    hide Shl;
    Powers();
    var v: nat := a * 65536;
    assert v == 262144 * (a / 4) + 65536 * (a % 4);
    assert v == 4096 * (16 * a) && 16 * a == 64 * (a / 4) + 16 * (a % 4);
  }

  /** One octet left over: its low bits are the top of a second sextet. */
  lemma EncodeOfOne(a: byte)
    ensures Encode([a]) == [Letter(Index(Combine(a, 0, 0), 18)), Letter(Index(Combine(a, 0, 0), 12))]
  {
    hide BitsOf, Stream, Sextets, Letter, Shl, Index;
    Powers();
    StreamOfOne(a);
    SextetStep(a, 2, a / 4, a % 4);
    ShortTail(a % 4, 2, 4);
    OneIndices(a);
    var s0, s1 := Index(Combine(a, 0, 0), 18), Index(Combine(a, 0, 0), 12);
    assert Letters([s0, s1]) == [Letter(s0), Letter(s1)];
  }

  lemma PairIndices(v: nat)
    requires v < 65536
    ensures Index(v * 256, 18) == v / 1024 && Index(v * 256, 12) == (v % 1024) / 16 && Index(v * 256, 6) == (v % 16) * 4
  {
    hide Shl;
    Powers();
    assert v * 256 == 262144 * (v / 1024) + 256 * (v % 1024);
    assert v * 256 == 4096 * (v / 16) + 256 * (v % 16);
    assert v / 16 == 64 * (v / 1024) + (v % 1024) / 16;
    assert v * 256 == 64 * (v * 4) && v * 4 == 64 * (v / 16) + (v % 16) * 4;
  }

  lemma EncodeOfTwo(a: byte, b: byte)
    ensures var v := Combine(a, b, 0);
            Encode([a, b]) == [Letter(Index(v, 18)), Letter(Index(v, 12)), Letter(Index(v, 6))]
  {
    hide BitsOf, Stream, Sextets, Letter, Shl, Index;
    Powers();
    StreamOfTwo(a, b);
    var v: nat := a * 256 + b;
    PairIndices(v);
    SextetStep(v, 10, v / 1024, v % 1024);
    SextetStep(v % 1024, 4, (v % 1024) / 16, v % 16);
    ShortTail(v % 16, 4, 2);
    var s0, s1, s2 := Index(v * 256, 18), Index(v * 256, 12), Index(v * 256, 6);
    assert Letters([s0, s1, s2]) == [Letter(s0), Letter(s1), Letter(s2)];
  }

  /** Fewer than six bits are filled up with zeros on the right. */
  lemma ShortTail(x: nat, w: nat, k: nat)
    requires 0 < w < 6 && w + k == 6 && x < Shl(1, w)
    ensures x * Shl(1, k) < 64 && Sextets(BitsOf(x, w)) == [x * Shl(1, k)]
  {
    hide BitsOf, Number;
    BitsJoin(x, w, 0, k);
    ShlIsProduct(x, k);
    ZeroBits(k);
    assert Fill(BitsOf(x, w)) == BitsOf(x * Shl(1, k), 6);
    Smaller(x, w, k);
    Powers();
    NumberOfBits(x * Shl(1, k), 6);
  }

  lemma {:induction false} ZeroBits(k: nat)
    ensures BitsOf(0, k) == seq(k, _ => false)
  {
    if k > 0 { ZeroBits(k - 1); }
  }

  lemma {:induction false} Smaller(x: nat, w: nat, k: nat)
    requires x < Shl(1, w)
    ensures x * Shl(1, k) < Shl(1, w + k)
  {
    if k > 0 { Smaller(x, w, k - 1); }
  }

  lemma EncodeStep(src: seq<byte>, si: nat)
    requires si + 3 <= |src| && si % 3 == 0
    ensures var v := Combine(src[si], src[si + 1], src[si + 2]);
            Encode(src[..si + 3])
              == Encode(src[..si]) + [Letter(Index(v, 18)), Letter(Index(v, 12)), Letter(Index(v, 6)), Letter(Index(v, 0))]
  {
    hide Encode, Index, Letter;
    assert src[..si + 3] == src[..si] + [src[si], src[si + 1], src[si + 2]];
    EncodeOfConcat(src[..si], [src[si], src[si + 1], src[si + 2]]);
    EncodeOfThree(src[si], src[si + 1], src[si + 2]);
  }

  function TailLetters(src: seq<byte>, si: nat): (s: string)
    requires si < |src| <= si + 2
    ensures |s| == |src| - si + 1
  {
    var v := Combine(src[si], if |src| == si + 2 then src[si + 1] else 0, 0);
    [Letter(Index(v, 18)), Letter(Index(v, 12))] + if |src| == si + 2 then [Letter(Index(v, 6))] else []
  }

  lemma EncodeTail(src: seq<byte>, si: nat)
    requires si < |src| <= si + 2 && si % 3 == 0
    ensures Encode(src) == Encode(src[..si]) + TailLetters(src, si)
  {
    hide Encode, Index, Letter;
    EncodeOfConcat(src[..si], src[si..]);
    assert src == src[..si] + src[si..];
    if |src| == si + 2 {
      assert src[si..] == [src[si], src[si + 1]];
      EncodeOfTwo(src[si], src[si + 1]);
    } else {
      assert src[si..] == [src[si]];
      EncodeOfOne(src[si]);
    }
  }

  /** Writes the letters of one triple. */
  method PutTriple(dst: array<char>, di: nat, value: nat)
    requires di + 4 <= dst.Length
    modifies dst
    ensures dst[..di + 4] == old(dst[..di]) + [Letter(Index(value, 18)), Letter(Index(value, 12)), Letter(Index(value, 6)), Letter(Index(value, 0))]
    ensures dst[di + 4..] == old(dst[di + 4..])
  {
    hide Index, Letter;
    dst[di] := Letter(Index(value, 18));
    dst[di + 1] := Letter(Index(value, 12));
    dst[di + 2] := Letter(Index(value, 6));
    dst[di + 3] := Letter(Index(value, 0));
  }

  /** Writes the letters of the one or two octets that remain. */
  method PutTail(dst: array<char>, di: nat, src: seq<byte>, si: nat)
    requires si < |src| <= si + 2 && di + |TailLetters(src, si)| <= dst.Length
    modifies dst
    ensures dst[..di + |TailLetters(src, si)|] == old(dst[..di]) + TailLetters(src, si)
    ensures dst[di + |TailLetters(src, si)|..] == old(dst[di + |TailLetters(src, si)|..])
  {
    hide Index, Letter;
    var value: nat := src[si] as int * 65536;
    if |src| == si + 2 { value := value + src[si + 1] as int * 256; }
    dst[di] := Letter(Index(value, 18));
    dst[di + 1] := Letter(Index(value, 12));
    if |src| == si + 2 { dst[di + 2] := Letter(Index(value, 6)); }
  }

  /** The encoder as it runs: whole triples first, then the one or two octets that remain. It writes exactly the
      standard's encoding and touches nothing behind it. */
  method Base64UrlEncode(dst: array<char>, src: seq<byte>)
    requires dst.Length >= EncodedLength(|src|)
    modifies dst
    ensures dst[..EncodedLength(|src|)] == Encode(src)
    ensures dst[EncodedLength(|src|)..] == old(dst[EncodedLength(|src|)..])
  {
    hide Encode, Index, Letter, Combine;
    var di, si := 0, 0;
    var n := (|src| / 3) * 3;
    assert Encode([]) == "" by { EncodeLength([]); }
    while si < n
      invariant 0 <= si <= n && si % 3 == 0 && 3 * di == 4 * si
      invariant dst[..di] == Encode(src[..si])
      invariant dst[di..] == old(dst[di..])
    {
      ghost var rest := dst[di..];
      PutTriple(dst, di, Combine(src[si], src[si + 1], src[si + 2]));
      EncodeStep(src, si);
      assert dst[di + 4..] == rest[4..];
      si := si + 3;
      di := di + 4;
    }
    if si == |src| {
      assert src[..si] == src;
      return;
    }
    PutTail(dst, di, src, si);
    EncodeTail(src, si);
  }
}
