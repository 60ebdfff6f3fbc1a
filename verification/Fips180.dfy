/** SHA-256 as FIPS 180-4 specifies it: the functions of section 4.1.2, the constants of sections
    4.2.2 and 5.3.3, the padding of section 5.1.1 and the computation of section 6.2.2. */
module Fips180 {
  import opened Machine
  import opened Primes

  type Word = bv32

  /** The round constants, eight to a row. */
  const K: seq<seq<Word>> := [
    [0x428a_2f98, 0x7137_4491, 0xb5c0_fbcf, 0xe9b5_dba5, 0x3956_c25b, 0x59f1_11f1, 0x923f_82a4, 0xab1c_5ed5],
    [0xd807_aa98, 0x1283_5b01, 0x2431_85be, 0x550c_7dc3, 0x72be_5d74, 0x80de_b1fe, 0x9bdc_06a7, 0xc19b_f174],
    [0xe49b_69c1, 0xefbe_4786, 0x0fc1_9dc6, 0x240c_a1cc, 0x2de9_2c6f, 0x4a74_84aa, 0x5cb0_a9dc, 0x76f9_88da],
    [0x983e_5152, 0xa831_c66d, 0xb003_27c8, 0xbf59_7fc7, 0xc6e0_0bf3, 0xd5a7_9147, 0x06ca_6351, 0x1429_2967],
    [0x27b7_0a85, 0x2e1b_2138, 0x4d2c_6dfc, 0x5338_0d13, 0x650a_7354, 0x766a_0abb, 0x81c2_c92e, 0x9272_2c85],
    [0xa2bf_e8a1, 0xa81a_664b, 0xc24b_8b70, 0xc76c_51a3, 0xd192_e819, 0xd699_0624, 0xf40e_3585, 0x106a_a070],
    [0x19a4_c116, 0x1e37_6c08, 0x2748_774c, 0x34b0_bcb5, 0x391c_0cb3, 0x4ed8_aa4a, 0x5b9c_ca4f, 0x682e_6ff3],
    [0x748f_82ee, 0x78a5_636f, 0x84c8_7814, 0x8cc7_0208, 0x90be_fffa, 0xa450_6ceb, 0xbef9_a3f7, 0xc671_78f2]]

  /** The initial hash value. */
  const H0: seq<Word> := [
    0x6a09_e667, 0xbb67_ae85, 0x3c6e_f372, 0xa54f_f53a, 0x510e_527f, 0x9b05_688c, 0x1f83_d9ab, 0x5be0_cd19]

  /** The first sixty-four primes, eight to a row. */
  const PRIMES: seq<seq<nat>> := [
    [2, 3, 5, 7, 11, 13, 17, 19],
    [23, 29, 31, 37, 41, 43, 47, 53],
    [59, 61, 67, 71, 73, 79, 83, 89],
    [97, 101, 103, 107, 109, 113, 127, 131],
    [137, 139, 149, 151, 157, 163, 167, 173],
    [179, 181, 191, 193, 197, 199, 211, 223],
    [227, 229, 233, 239, 241, 251, 257, 263],
    [269, 271, 277, 281, 283, 293, 307, 311]]

  const TWO_32: nat := 0x1_0000_0000

  /** `k` is the first 32 bits of the fraction of the cube root of `p`. */
  ghost predicate CubeRootBits(p: nat, k: nat) {
    k < TWO_32 && exists whole: nat :: CubeRootIs(p, whole, k)
  }

  predicate CubeRootIs(p: nat, whole: nat, k: nat) {
    var c := whole * TWO_32 + k;
    c * c * c <= p * TWO_32 * TWO_32 * TWO_32 < (c + 1) * (c + 1) * (c + 1)
  }

  /** `h` is the first 32 bits of the fraction of the square root of `p`. */
  ghost predicate SquareRootBits(p: nat, h: nat) {
    h < TWO_32 && exists whole: nat :: SquareRootIs(p, whole, h)
  }

  predicate SquareRootIs(p: nat, whole: nat, h: nat) {
    var c := whole * TWO_32 + h;
    c * c <= p * TWO_32 * TWO_32 < (c + 1) * (c + 1)
  }

  /** A row of each table: the second has the first 32 bits of the fractions of the cube roots of
      the first. */
  ghost predicate CubeRoots(primes: seq<nat>, ks: seq<Word>) {
    |primes| == |ks| == 8 && forall c :: 0 <= c < 8 ==> CubeRootBits(primes[c], ks[c] as nat)
  }

  lemma Roots0()
    ensures |K| == |PRIMES| == 8 && CubeRoots(PRIMES[0], K[0])
  {
    assert CubeRootIs(2, 1, 0x428a_2f98) && CubeRootIs(3, 1, 0x7137_4491);
    assert CubeRootIs(5, 1, 0xb5c0_fbcf) && CubeRootIs(7, 1, 0xe9b5_dba5);
    assert CubeRootIs(11, 2, 0x3956_c25b) && CubeRootIs(13, 2, 0x59f1_11f1);
    assert CubeRootIs(17, 2, 0x923f_82a4) && CubeRootIs(19, 2, 0xab1c_5ed5);
  }

  lemma Roots1()
    ensures |K| == |PRIMES| == 8 && CubeRoots(PRIMES[1], K[1])
  {
    assert CubeRootIs(23, 2, 0xd807_aa98) && CubeRootIs(29, 3, 0x1283_5b01);
    assert CubeRootIs(31, 3, 0x2431_85be) && CubeRootIs(37, 3, 0x550c_7dc3);
    assert CubeRootIs(41, 3, 0x72be_5d74) && CubeRootIs(43, 3, 0x80de_b1fe);
    assert CubeRootIs(47, 3, 0x9bdc_06a7) && CubeRootIs(53, 3, 0xc19b_f174);
  }

  lemma Roots2()
    ensures |K| == |PRIMES| == 8 && CubeRoots(PRIMES[2], K[2])
  {
    assert CubeRootIs(59, 3, 0xe49b_69c1) && CubeRootIs(61, 3, 0xefbe_4786);
    assert CubeRootIs(67, 4, 0x0fc1_9dc6) && CubeRootIs(71, 4, 0x240c_a1cc);
    assert CubeRootIs(73, 4, 0x2de9_2c6f) && CubeRootIs(79, 4, 0x4a74_84aa);
    assert CubeRootIs(83, 4, 0x5cb0_a9dc) && CubeRootIs(89, 4, 0x76f9_88da);
  }

  lemma Roots3()
    ensures |K| == |PRIMES| == 8 && CubeRoots(PRIMES[3], K[3])
  {
    assert CubeRootIs(97, 4, 0x983e_5152) && CubeRootIs(101, 4, 0xa831_c66d);
    assert CubeRootIs(103, 4, 0xb003_27c8) && CubeRootIs(107, 4, 0xbf59_7fc7);
    assert CubeRootIs(109, 4, 0xc6e0_0bf3) && CubeRootIs(113, 4, 0xd5a7_9147);
    assert CubeRootIs(127, 5, 0x06ca_6351) && CubeRootIs(131, 5, 0x1429_2967);
  }

  lemma Roots4()
    ensures |K| == |PRIMES| == 8 && CubeRoots(PRIMES[4], K[4])
  {
    assert CubeRootIs(137, 5, 0x27b7_0a85) && CubeRootIs(139, 5, 0x2e1b_2138);
    assert CubeRootIs(149, 5, 0x4d2c_6dfc) && CubeRootIs(151, 5, 0x5338_0d13);
    assert CubeRootIs(157, 5, 0x650a_7354) && CubeRootIs(163, 5, 0x766a_0abb);
    assert CubeRootIs(167, 5, 0x81c2_c92e) && CubeRootIs(173, 5, 0x9272_2c85);
  }

  lemma Roots5()
    ensures |K| == |PRIMES| == 8 && CubeRoots(PRIMES[5], K[5])
  {
    assert CubeRootIs(179, 5, 0xa2bf_e8a1) && CubeRootIs(181, 5, 0xa81a_664b);
    assert CubeRootIs(191, 5, 0xc24b_8b70) && CubeRootIs(193, 5, 0xc76c_51a3);
    assert CubeRootIs(197, 5, 0xd192_e819) && CubeRootIs(199, 5, 0xd699_0624);
    assert CubeRootIs(211, 5, 0xf40e_3585) && CubeRootIs(223, 6, 0x106a_a070);
  }

  lemma Roots6()
    ensures |K| == |PRIMES| == 8 && CubeRoots(PRIMES[6], K[6])
  {
    assert CubeRootIs(227, 6, 0x19a4_c116) && CubeRootIs(229, 6, 0x1e37_6c08);
    assert CubeRootIs(233, 6, 0x2748_774c) && CubeRootIs(239, 6, 0x34b0_bcb5);
    assert CubeRootIs(241, 6, 0x391c_0cb3) && CubeRootIs(251, 6, 0x4ed8_aa4a);
    assert CubeRootIs(257, 6, 0x5b9c_ca4f) && CubeRootIs(263, 6, 0x682e_6ff3);
  }

  lemma Roots7()
    ensures |K| == |PRIMES| == 8 && CubeRoots(PRIMES[7], K[7])
  {
    assert CubeRootIs(269, 6, 0x748f_82ee) && CubeRootIs(271, 6, 0x78a5_636f);
    assert CubeRootIs(277, 6, 0x84c8_7814) && CubeRootIs(281, 6, 0x8cc7_0208);
    assert CubeRootIs(283, 6, 0x90be_fffa) && CubeRootIs(293, 6, 0xa450_6ceb);
    assert CubeRootIs(307, 6, 0xbef9_a3f7) && CubeRootIs(311, 6, 0xc671_78f2);
  }

  lemma ConstantsAreDerived(r: nat)
    requires r < 8
    ensures |K| == |PRIMES| == 8 && CubeRoots(PRIMES[r], K[r])
    ensures r > 0 ==> |PRIMES[r - 1]| == 8
    ensures SuccessiveFrom(if r == 0 then 1 else PRIMES[r - 1][7], PRIMES[r])
  {
    hide CubeRoots, SuccessiveFrom;
    Roots0(); Roots1(); Roots2(); Roots3(); Roots4(); Roots5(); Roots6(); Roots7();
    From1(); From19(); From53(); From89(); From131(); From173(); From223(); From263();
  }

  /** The round constants are the cube roots section 4.2.2 derives them from. */
  lemma RoundConstantsAreCubeRoots(t: nat)
    requires t < 64
    ensures |K| == 8 && |K[t / 8]| == 8
    ensures CubeRootBits(PrimeAt(t), K[t / 8][t % 8] as nat)
  {
    hide CubeRootBits;
    ConstantsAreDerived(t / 8);
  }

  function PrimeAt(t: nat): nat
    requires t < 64
  {
    ConstantsAreDerived(t / 8);
    PRIMES[t / 8][t % 8]
  }

  /** The table is the first sixty-four primes: it starts with 2, and each entry is the least prime
      above the one before. */
  lemma PrimesAreTheFirst(t: nat)
    requires t < 64
    ensures Successive(if t == 0 then 1 else PrimeAt(t - 1), PrimeAt(t))
  {
    hide CubeRootBits, Successive;
    ConstantsAreDerived(t / 8);
    if t % 8 == 0 && t > 0 {
      assert (t - 1) / 8 == t / 8 - 1 && (t - 1) % 8 == 7;
    } else if t > 0 {
      assert (t - 1) / 8 == t / 8 && (t - 1) % 8 == t % 8 - 1;
    }
  }

  /** The initial hash value is the square roots section 5.3.3 derives it from. */
  lemma InitialHashIsSquareRoots(c: nat)
    requires c < 8
    ensures |H0| == 8
    ensures SquareRootBits(PrimeAt(c), H0[c] as nat)
  {
    assert c / 8 == 0 && c % 8 == c;
    assert SquareRootIs(2, 1, 0x6a09_e667);
    assert SquareRootIs(3, 1, 0xbb67_ae85);
    assert SquareRootIs(5, 2, 0x3c6e_f372);
    assert SquareRootIs(7, 2, 0xa54f_f53a);
    assert SquareRootIs(11, 3, 0x510e_527f);
    assert SquareRootIs(13, 3, 0x9b05_688c);
    assert SquareRootIs(17, 4, 0x1f83_d9ab);
    assert SquareRootIs(19, 4, 0x5be0_cd19);
  }

  // ----- sections 3.2 and 4.1.2 -----

  function Add(x: Word, y: Word): Word { x + y }

  function Sum4(x: Word, y: Word, z: Word, u: Word): Word { x + y + z + u }

  function Rotr(n: bv6, x: Word): Word
    requires 0 < n < 32
  {
    (x >> n) | (x << (32 - n))
  }

  function Shr(n: bv6, x: Word): Word
    requires n < 32
  {
    x >> n
  }

  function Xor3(x: Word, y: Word, z: Word): Word { x ^ y ^ z }
  function Ch(x: Word, y: Word, z: Word): Word { (x & y) ^ (!x & z) }
  function Maj(x: Word, y: Word, z: Word): Word { (x & y) ^ (x & z) ^ (y & z) }
  function BigSigma0(x: Word): Word { Xor3(Rotr(2, x), Rotr(13, x), Rotr(22, x)) }
  function BigSigma1(x: Word): Word { Xor3(Rotr(6, x), Rotr(11, x), Rotr(25, x)) }
  function SmallSigma0(x: Word): Word { Xor3(Rotr(7, x), Rotr(18, x), Shr(3, x)) }
  function SmallSigma1(x: Word): Word { Xor3(Rotr(17, x), Rotr(19, x), Shr(10, x)) }

  /** Bit `i` of a word, bit 0 the least significant. Bit numbers wrap at 32. */
  predicate Bit(x: Word, i: bv5) { (x >> i) & 1 == 1 }

  /** The bit `n` places above bit `i`, around the end of the word, and whether it is still inside. */
  function Onward(n: bv6, i: bv5): bv5
    requires n < 32
  {
    i + n as bv5
  }

  predicate Inside(n: bv6, i: bv5) { n < 32 && i as bv6 + n < 32 }

  lemma OrBit(x: Word, y: Word, i: bv5)
    ensures Bit(x | y, i) <==> Bit(x, i) || Bit(y, i)
  {}

  lemma RightBit(n: bv6, x: Word, a: Word, i: bv5)
    requires n < 32 && a == x >> n
    ensures Bit(a, i) <==> Inside(n, i) && Bit(x, Onward(n, i))
  {
    hide Bit;
    ShiftedBit(n, x, i);
  }

  lemma ShiftedBit(n: bv6, x: Word, i: bv5)
    requires n < 32
    ensures Bit(x >> n, i) <==> i as bv6 + n < 32 && Bit(x, i + n as bv5)
  {}

  lemma LeftBit(n: bv6, x: Word, b: Word, i: bv5)
    requires 0 < n < 32 && b == x << (32 - n)
    ensures Bit(b, i) <==> !Inside(n, i) && Bit(x, Onward(n, i))
  {}

  /** A rotation by `n` moves bit `i + n` to bit `i`, around the end of the word. */
  lemma RotrBit(n: bv6, x: Word, i: bv5)
    requires 0 < n < 32
    ensures Bit(Rotr(n, x), i) <==> Bit(x, Onward(n, i))
  {
    hide Bit, Onward;
    var a, b := x >> n, x << (32 - n);
    HalvesBit(n, x, a, b, i);
    assert Rotr(n, x) == a | b;
  }

  lemma HalvesBit(n: bv6, x: Word, a: Word, b: Word, i: bv5)
    requires 0 < n < 32 && a == x >> n && b == x << (32 - n)
    ensures Bit(a | b, i) <==> Bit(x, Onward(n, i))
  {
    hide Bit, Inside, Onward;
    RightBit(n, x, a, i);
    LeftBit(n, x, b, i);
    OrBit(a, b, i);
  }

  /** A shift does so inside the word and takes in zeros. */
  lemma ShrBit(n: bv6, x: Word, i: bv5)
    requires n < 32
    ensures Bit(Shr(n, x), i) <==> Inside(n, i) && Bit(x, Onward(n, i))
  {
    hide Bit, Inside, Onward;
    RightBit(n, x, Shr(n, x), i);
  }

  lemma ParityBit(x: Word, y: Word, z: Word, i: bv5)
    ensures Bit(x ^ y ^ z, i) <==> (Bit(x, i) != Bit(y, i)) != Bit(z, i)
  {}

  lemma ChoiceBit(x: Word, y: Word, z: Word, i: bv5)
    ensures Bit((x & y) ^ (!x & z), i) <==> if Bit(x, i) then Bit(y, i) else Bit(z, i)
  {}

  lemma MajorityBit(x: Word, y: Word, z: Word, i: bv5)
    ensures Bit((x & y) ^ (x & z) ^ (y & z), i) <==>
              (Bit(x, i) && Bit(y, i)) || (Bit(x, i) && Bit(z, i)) || (Bit(y, i) && Bit(z, i))
  {}

  lemma Xor3Bit(x: Word, y: Word, z: Word, i: bv5)
    ensures Bit(Xor3(x, y, z), i) <==> (Bit(x, i) != Bit(y, i)) != Bit(z, i)
  {
    assert Xor3(x, y, z) == x ^ y ^ z;
    hide *;
    ParityBit(x, y, z, i);
  }

  /** Ch chooses and Maj takes the majority, bit by bit. */
  lemma ChMajByBits(x: Word, y: Word, z: Word, i: bv5)
    ensures Bit(Ch(x, y, z), i) <==> if Bit(x, i) then Bit(y, i) else Bit(z, i)
    ensures Bit(Maj(x, y, z), i) <==>
              (Bit(x, i) && Bit(y, i)) || (Bit(x, i) && Bit(z, i)) || (Bit(y, i) && Bit(z, i))
  {
    assert Ch(x, y, z) == (x & y) ^ (!x & z);
    assert Maj(x, y, z) == (x & y) ^ (x & z) ^ (y & z);
    hide *;
    ChoiceBit(x, y, z, i);
    MajorityBit(x, y, z, i);
  }

  lemma SigmaBit(n: bv6, m: bv6, k: bv6, x: Word, i: bv5)
    requires 0 < n < 32 && 0 < m < 32 && 0 < k < 32
    ensures Bit(Xor3(Rotr(n, x), Rotr(m, x), Rotr(k, x)), i) <==>
              (Bit(x, Onward(n, i)) != Bit(x, Onward(m, i))) != Bit(x, Onward(k, i))
    ensures Bit(Xor3(Rotr(n, x), Rotr(m, x), Shr(k, x)), i) <==>
              (Bit(x, Onward(n, i)) != Bit(x, Onward(m, i))) != (Inside(k, i) && Bit(x, Onward(k, i)))
  {
    hide *;
    RotrBit(n, x, i);
    RotrBit(m, x, i);
    RotrBit(k, x, i);
    ShrBit(k, x, i);
    Xor3Bit(Rotr(n, x), Rotr(m, x), Rotr(k, x), i);
    Xor3Bit(Rotr(n, x), Rotr(m, x), Shr(k, x), i);
  }

  /** Bit `i` of each sigma is the parity of the bits 2, 13 and 22 places above it, or 6, 11 and 25;
      7, 18 and 3, or 17, 19 and 10, the last of them a shift. */
  lemma SigmasByBits(x: Word, i: bv5)
    ensures Bit(BigSigma0(x), i) <==> (Bit(x, Onward(2, i)) != Bit(x, Onward(13, i))) != Bit(x, Onward(22, i))
    ensures Bit(BigSigma1(x), i) <==> (Bit(x, Onward(6, i)) != Bit(x, Onward(11, i))) != Bit(x, Onward(25, i))
    ensures Bit(SmallSigma0(x), i) <==>
              (Bit(x, Onward(7, i)) != Bit(x, Onward(18, i))) != (Inside(3, i) && Bit(x, Onward(3, i)))
    ensures Bit(SmallSigma1(x), i) <==>
              (Bit(x, Onward(17, i)) != Bit(x, Onward(19, i))) != (Inside(10, i) && Bit(x, Onward(10, i)))
  {
    hide Bit, Rotr, Shr, Xor3, Onward, Inside;
    SigmaBit(2, 13, 22, x, i);
    SigmaBit(6, 11, 25, x, i);
    SigmaBit(7, 18, 3, x, i);
    SigmaBit(17, 19, 10, x, i);
  }

  // ----- section 6.2.2 -----

  function RoundConstant(t: nat): Word
    requires t < 64
  {
    RoundConstantsAreCubeRoots(t);
    K[t / 8][t % 8]
  }

  function Octet(b: byte): bv8 { b as bv8 }

  /** Four octets as a word, most significant first. */
  function Joined(a: bv8, b: bv8, c: bv8, d: bv8): Word {
    ((a as Word) << 24) | ((b as Word) << 16) | ((c as Word) << 8) | (d as Word)
  }

  function WordOf(b: seq<byte>): Word
    requires |b| == 4
  {
    Joined(Octet(b[0]), Octet(b[1]), Octet(b[2]), Octet(b[3]))
  }

  function Octet0(w: Word): bv8 { (w >> 24) as bv8 }
  function Octet1(w: Word): bv8 { ((w >> 16) & 0xff) as bv8 }
  function Octet2(w: Word): bv8 { ((w >> 8) & 0xff) as bv8 }
  function Octet3(w: Word): bv8 { (w & 0xff) as bv8 }

  function ByteOf(o: bv8): byte { o as byte }

  function BytesOf(w: Word): seq<byte> {
    [ByteOf(Octet0(w)), ByteOf(Octet1(w)), ByteOf(Octet2(w)), ByteOf(Octet3(w))]
  }

  lemma ByteOctet(o: bv8)
    ensures Octet(ByteOf(o)) == o
  {}

  lemma NextByte(o: bv8)
    requires ByteOf(o) < 255
    ensures ByteOf(o + 1) == ByteOf(o) + 1
  {}

  lemma {:induction false} SomeOctet(b: byte) returns (o: bv8)
    ensures ByteOf(o) == b
  {
    if b == 0 {
      o := 0;
    } else {
      o := SomeOctet(b - 1);
      NextByte(o);
      o := o + 1;
    }
  }

  lemma OctetByte(b: byte)
    ensures ByteOf(Octet(b)) == b
  {
    hide Octet, ByteOf;
    var o := SomeOctet(b);
    ByteOctet(o);
  }

  lemma JoinedParts(a: bv8, b: bv8, c: bv8, d: bv8)
    ensures var w := Joined(a, b, c, d);
            Octet0(w) == a && Octet1(w) == b && Octet2(w) == c && Octet3(w) == d
  {}

  lemma PartsJoined(w: Word)
    ensures Joined(Octet0(w), Octet1(w), Octet2(w), Octet3(w)) == w
  {}

  /** Words and their bytes determine each other. */
  lemma WordsAreTheirBytes(w: Word, b: seq<byte>)
    requires |b| == 4
    ensures WordOf(BytesOf(w)) == w && BytesOf(WordOf(b)) == b
  {
    hide Joined, Octet, ByteOf, Octet0, Octet1, Octet2, Octet3;
    PartsJoined(w);
    ByteOctet(Octet0(w));
    ByteOctet(Octet1(w));
    ByteOctet(Octet2(w));
    ByteOctet(Octet3(w));
    JoinedParts(Octet(b[0]), Octet(b[1]), Octet(b[2]), Octet(b[3]));
    OctetByte(b[0]);
    OctetByte(b[1]);
    OctetByte(b[2]);
    OctetByte(b[3]);
  }

  /** Word `t` of the message schedule of a 64-byte block. */
  function W(block: seq<byte>, t: nat): Word
    requires |block| == 64 && t < 64
  {
    if t < 16 then WordOf(block[4 * t..4 * t + 4])
    else Sum4(SmallSigma1(W(block, t - 2)), W(block, t - 7), SmallSigma0(W(block, t - 15)), W(block, t - 16))
  }

  /** The working variables. */
  datatype Vars = Vars(a: Word, b: Word, c: Word, d: Word, e: Word, f: Word, g: Word, h: Word)

  function Round(v: Vars, k: Word, w: Word): Vars {
    var t1 := Add(Add(Add(Add(v.h, BigSigma1(v.e)), Ch(v.e, v.f, v.g)), k), w);
    var t2 := Add(BigSigma0(v.a), Maj(v.a, v.b, v.c));
    Vars(Add(t1, t2), v.a, v.b, v.c, Add(v.d, t1), v.e, v.f, v.g)
  }

  function Rounds(v: Vars, block: seq<byte>, t: nat): Vars
    requires |block| == 64 && t <= 64
  {
    if t == 0 then v else Round(Rounds(v, block, t - 1), RoundConstant(t - 1), W(block, t - 1))
  }

  /** The intermediate hash value after one block. */
  function Compressed(h: Vars, block: seq<byte>): Vars
    requires |block| == 64
  {
    var v := Rounds(h, block, 64);
    Vars(Add(h.a, v.a), Add(h.b, v.b), Add(h.c, v.c), Add(h.d, v.d),
         Add(h.e, v.e), Add(h.f, v.f), Add(h.g, v.g), Add(h.h, v.h))
  }

  /** The hash value after the first `n` blocks of a padded message. */
  function Hashed(h: Vars, message: seq<byte>, n: nat): Vars
    requires 64 * n <= |message|
    decreases n
  {
    if n == 0 then h else Compressed(Hashed(h, message, n - 1), message[64 * n - 64..64 * n])
  }

  // ----- section 5.1.1 -----

  /** The zero bytes after the byte that holds the 1 bit. */
  function ZeroBytes(n: nat): nat { (119 - n % 64) % 64 }

  /** The bits of `n`, most significant byte first, in `count` bytes. */
  function BigEndian(n: nat, count: nat): seq<byte> {
    if count == 0 then [] else BigEndian(n / 256, count - 1) + [n % 256]
  }

  /** The message length takes 64 bits. */
  const LENGTH_BYTES: nat := 8

  function Zeros(n: nat): seq<byte> { seq(n, i => 0) }

  function Padded(message: seq<byte>): (p: seq<byte>)
    ensures |p| % 64 == 0
  {
    PaddedSize(|message|);
    BigEndianSize(8 * |message|, LENGTH_BYTES);
    message + [0x80] + Zeros(ZeroBytes(|message|)) + BigEndian(8 * |message|, LENGTH_BYTES)
  }

  lemma {:induction false} BigEndianSize(n: nat, count: nat)
    ensures |BigEndian(n, count)| == count
  {
    if count > 0 { BigEndianSize(n / 256, count - 1); }
  }

  lemma PaddedSize(n: nat)
    ensures (n + 1 + ZeroBytes(n) + LENGTH_BYTES) % 64 == 0
  {
    var r := n % 64;
    assert ZeroBytes(n) == if r < 56 then 55 - r else 119 - r;
    assert n + 1 + ZeroBytes(n) + LENGTH_BYTES == 64 * (n / 64 + if r < 56 then 1 else 2);
  }

  predicate EndsAt448(l: nat, k: nat) { (l + 1 + k) % 512 == 448 }

  lemma EndsOnce(l: nat, k: nat, q: nat)
    requires l + 1 + k == 512 * q + 448 && k < 512
    ensures EndsAt448(l, k) && forall j :: 0 <= j < k ==> !EndsAt448(l, j)
  {}

  /** With the 1 bit and 7 zero bits in their byte, the padding has the least number `k` of zero
      bits for which the message, the 1 bit and `k` bits end at 448 modulo 512. */
  lemma PaddingIsLeast(n: nat)
    ensures var k := 7 + 8 * ZeroBytes(n);
            EndsAt448(8 * n, k) && forall j :: 0 <= j < k ==> !EndsAt448(8 * n, j)
  {
    var k, r := 7 + 8 * ZeroBytes(n), n % 64;
    var q := n / 64 + if r < 56 then 0 else 1;
    assert 8 * n + 1 + k == 512 * q + 448 && k < 512;
    hide ZeroBytes;
    EndsOnce(8 * n, k, q);
  }

  function Initial(): Vars {
    Vars(InitialWord(0), InitialWord(1), InitialWord(2), InitialWord(3),
         InitialWord(4), InitialWord(5), InitialWord(6), InitialWord(7))
  }

  function InitialWord(i: nat): Word
    requires i < 8
  {
    InitialHashIsSquareRoots(i);
    H0[i]
  }

  function Digest(words: seq<Word>): seq<byte> {
    if words == [] then [] else Digest(words[..|words| - 1]) + BytesOf(words[|words| - 1])
  }

  /** SHA-256 of a message shorter than 2^64 bits. */
  function Sha256(message: seq<byte>): seq<byte> {
    var p := Padded(message);
    var h := Hashed(Initial(), p, |p| / 64);
    Digest([h.a, h.b, h.c, h.d, h.e, h.f, h.g, h.h])
  }
}
