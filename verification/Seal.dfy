/** The program's SHA-256: one working array that is rotated and patched each round, and a padded
    tail of one or two blocks. */
module Seal {
  import opened Machine
  import opened Fips180

  /** The array holds FIPS 180-4's a to h in this order. */
  ghost predicate Stands(v: array<Word>, x: Vars)
    reads v
  {
    && v.Length == 8
    && v[0] == x.a && v[1] == x.b && v[2] == x.c && v[3] == x.d
    && v[4] == x.e && v[5] == x.f && v[6] == x.g && v[7] == x.h
  }

  // ----- the program's expressions, word by word -----

  method WrappingAdd(x: Word, y: Word) returns (sum: Word)
    ensures sum == Add(x, y)
  {
    sum := x + y;
  }

  method Summed(x: Word, y: Word, z: Word, u: Word) returns (sum: Word)
    ensures sum == Sum4(u, z, y, x)
  {
    sum := x + y + z + u;
  }

  method FromBeBytes(b: seq<byte>) returns (w: Word)
    requires |b| == 4
    ensures w == WordOf(b)
  {
    hide Octet, Joined;
    w := JoinOctets(Octet(b[0]), Octet(b[1]), Octet(b[2]), Octet(b[3]));
  }

  method JoinOctets(o0: bv8, o1: bv8, o2: bv8, o3: bv8) returns (w: Word)
    ensures w == Joined(o0, o1, o2, o3)
  {
    w := ((o0 as Word) << 24) | ((o1 as Word) << 16) | ((o2 as Word) << 8) | (o3 as Word);
  }

  method ToBeBytes(w: Word) returns (b: seq<byte>)
    ensures b == BytesOf(w)
  {
    hide ByteOf, Octet0, Octet1, Octet2, Octet3;
    var o0, o1, o2, o3 := SplitOctets(w);
    b := [ByteOf(o0), ByteOf(o1), ByteOf(o2), ByteOf(o3)];
  }

  method SplitOctets(w: Word) returns (o0: bv8, o1: bv8, o2: bv8, o3: bv8)
    ensures o0 == Octet0(w) && o1 == Octet1(w) && o2 == Octet2(w) && o3 == Octet3(w)
  {
    o0, o1, o2, o3 := (w >> 24) as bv8, ((w >> 16) & 0xff) as bv8, ((w >> 8) & 0xff) as bv8, (w & 0xff) as bv8;
  }

  method Rotated7And18(x: Word) returns (a: Word, b: Word, c: Word)
    ensures a == Rotr(7, x) && b == Rotr(18, x) && c == Shr(3, x)
  {
    a, b, c := x.RotateRight(7), x.RotateRight(18), x >> 3;
  }

  method Rotated17And19(x: Word) returns (a: Word, b: Word, c: Word)
    ensures a == Rotr(17, x) && b == Rotr(19, x) && c == Shr(10, x)
  {
    a, b, c := x.RotateRight(17), x.RotateRight(19), x >> 10;
  }

  method Rotated6And11And25(x: Word) returns (a: Word, b: Word, c: Word)
    ensures a == Rotr(6, x) && b == Rotr(11, x) && c == Rotr(25, x)
  {
    a, b, c := x.RotateRight(6), x.RotateRight(11), x.RotateRight(25);
  }

  method Rotated2And13And22(x: Word) returns (a: Word, b: Word, c: Word)
    ensures a == Rotr(2, x) && b == Rotr(13, x) && c == Rotr(22, x)
  {
    a, b, c := x.RotateRight(2), x.RotateRight(13), x.RotateRight(22);
  }

  method Xored(a: Word, b: Word, c: Word) returns (x: Word)
    ensures x == Xor3(a, b, c)
  {
    x := a ^ b ^ c;
  }

  method Chosen(e: Word, f: Word, g: Word) returns (ch: Word)
    ensures ch == Ch(e, f, g)
  {
    ch := (e & f) ^ (!e & g);
  }

  method Majority(a: Word, b: Word, c: Word) returns (maj: Word)
    ensures maj == Maj(a, b, c)
  {
    maj := (a & b) ^ (a & c) ^ (b & c);
  }

  // ----- compression -----

  /** The schedule's next word from four earlier ones. */
  method NextWord(w16: Word, w15: Word, w7: Word, w2: Word) returns (w: Word)
    ensures w == Sum4(SmallSigma1(w2), w7, SmallSigma0(w15), w16)
  {
    hide Sum4, Rotr, Shr, Xor3;
    var a, b, c := Rotated7And18(w15);
    var s0 := Xored(a, b, c);
    a, b, c := Rotated17And19(w2);
    var s1 := Xored(a, b, c);
    w := Summed(w16, s0, w7, s1);
  }

  method Schedule(block: seq<byte>) returns (w: array<Word>)
    requires |block| == 64
    ensures fresh(w) && w.Length == 64
    ensures forall t :: 0 <= t < 64 ==> w[t] == W(block, t)
  {
    hide Sum4, SmallSigma0, SmallSigma1, WordOf;
    w := new Word[64](_ => 0);
    for i := 0 to 16
      invariant forall t :: 0 <= t < i ==> w[t] == W(block, t)
    {
      var word := FromBeBytes(block[4 * i..4 * i + 4]);
      w[i] := word;
    }
    for i := 16 to 64
      invariant forall t :: 0 <= t < i ==> w[t] == W(block, t)
    {
      var next := NextWord(w[i - 16], w[i - 15], w[i - 7], w[i - 2]);
      w[i] := next;
    }
  }

  /** The slice's `rotate_right(1)`. */
  method RotateRight<T>(v: array<T>)
    requires v.Length == 8
    modifies v
    ensures v[0] == old(v[7]) && forall i :: 0 < i < 8 ==> v[i] == old(v[i - 1])
  {
    var last := v[7];
    for i := 7 downto 0
      invariant forall j :: 0 <= j <= i ==> v[j] == old(v[j])
      invariant forall j :: i < j < 8 ==> v[j] == old(v[j - 1])
    {
      v[i + 1] := v[i];
    }
    v[0] := last;
  }

  method FirstSum(e: Word, f: Word, g: Word, h: Word, k: Word, w: Word) returns (t1: Word)
    ensures t1 == Add(Add(Add(Add(h, BigSigma1(e)), Ch(e, f, g)), k), w)
  {
    hide Add, Rotr, Xor3, Ch;
    var a, b, c := Rotated6And11And25(e);
    var bigS1 := Xored(a, b, c);
    var ch := Chosen(e, f, g);
    t1 := WrappingAdd(h, bigS1);
    t1 := WrappingAdd(t1, ch);
    t1 := WrappingAdd(t1, k);
    t1 := WrappingAdd(t1, w);
  }

  method SecondSum(a: Word, b: Word, c: Word) returns (t2: Word)
    ensures t2 == Add(BigSigma0(a), Maj(a, b, c))
  {
    hide Add, Rotr, Xor3, Maj;
    var x, y, z := Rotated2And13And22(a);
    var bigS0 := Xored(x, y, z);
    var maj := Majority(a, b, c);
    t2 := WrappingAdd(bigS0, maj);
  }

  /** Rotating the array by one place and patching two entries is the round on named variables. */
  method RotateAndPatch(v: array<Word>, k: Word, w: Word, ghost vars: Vars)
    requires Stands(v, vars)
    modifies v
    ensures Stands(v, Round(vars, k, w))
  {
    hide Add, BigSigma0, BigSigma1, Ch, Maj;
    var t1 := FirstSum(v[4], v[5], v[6], v[7], k, w);
    var t2 := SecondSum(v[0], v[1], v[2]);
    RotateRight(v);
    var e := WrappingAdd(v[4], t1);
    v[4] := e;
    var a := WrappingAdd(t1, t2);
    v[0] := a;
  }

  method AddInto(state: array<Word>, v: array<Word>)
    requires state.Length == v.Length == 8 && state != v
    modifies state
    ensures forall j :: 0 <= j < 8 ==> state[j] == Add(old(state[j]), v[j])
  {
    hide Add;
    for i := 0 to 8
      invariant forall j :: i <= j < 8 ==> state[j] == old(state[j])
      invariant forall j :: 0 <= j < i ==> state[j] == Add(old(state[j]), v[j])
    {
      var sum := WrappingAdd(state[i], v[i]);
      state[i] := sum;
    }
  }

  method Compress(state: array<Word>, block: seq<byte>, ghost h: Vars)
    requires Stands(state, h) && |block| == 64
    modifies state
    ensures Stands(state, Compressed(h, block))
  {
    hide Add, Rounds, W;
    var w := Schedule(block);
    var v := new Word[8](i requires 0 <= i < 8 reads state => state[i]);
    RunRounds(v, w, block, h);
    AddInto(state, v);
  }

  method RunRounds(v: array<Word>, w: array<Word>, block: seq<byte>, ghost h: Vars)
    requires Stands(v, h) && |block| == 64 && v != w
    requires w.Length == 64 && forall t :: 0 <= t < 64 ==> w[t] == W(block, t)
    modifies v
    ensures Stands(v, Rounds(h, block, 64))
  {
    hide Round, W, RoundConstant;
    for t := 0 to 64
      invariant Stands(v, Rounds(h, block, t))
    {
      RotateAndPatch(v, RoundConstant(t), w[t], Rounds(h, block, t));
    }
  }

  method HashBlocks(state: array<Word>, blocks: seq<byte>, n: nat, ghost h: Vars)
    requires Stands(state, h) && |blocks| == 64 * n
    modifies state
    ensures Stands(state, Hashed(h, blocks, n))
  {
    hide Compressed;
    for i := 0 to n
      invariant Stands(state, Hashed(h, blocks, i))
    {
      Compress(state, blocks[64 * i..64 * i + 64], Hashed(h, blocks, i));
    }
  }

  lemma BlockOfFirst(a: seq<byte>, b: seq<byte>, lo: nat, hi: nat)
    requires lo <= hi <= |a|
    ensures (a + b)[lo..hi] == a[lo..hi]
  {}

  lemma BlockOfSecond(a: seq<byte>, b: seq<byte>, lo: nat, hi: nat)
    requires lo <= hi <= |b|
    ensures (a + b)[|a| + lo..|a| + hi] == b[lo..hi]
  {}

  /** Hashing blocks in two runs is hashing them in one. */
  lemma {:induction false} HashedConcat(h: Vars, a: seq<byte>, n: nat, b: seq<byte>, m: nat)
    requires 64 * n <= |a| && 64 * m <= |b| && (m > 0 ==> |a| == 64 * n)
    ensures Hashed(h, a + b, n + m) == Hashed(Hashed(h, a, n), b, m)
    decreases n + m
  {
    hide Compressed;
    if m > 0 {
      HashedConcat(h, a, n, b, m - 1);
      BlockOfSecond(a, b, 64 * m - 64, 64 * m);
    } else if n > 0 {
      HashedConcat(h, a, n - 1, b, 0);
      BlockOfFirst(a, b, 64 * n - 64, 64 * n);
    }
  }

  method CopyInto(dst: array<byte>, at: nat, src: seq<byte>)
    requires at + |src| <= dst.Length
    modifies dst
    ensures dst[..] == old(dst[..])[..at] + src + old(dst[..])[at + |src|..]
  {
    for i := 0 to |src|
      invariant forall j :: 0 <= j < dst.Length ==> dst[j] == if at <= j < at + i then src[j - at] else old(dst[j])
    {
      dst[at + i] := src[i];
    }
  }

  /** What is left of the message after its whole blocks, padded to one or two blocks. */
  method PaddedTail(rem: seq<byte>, bitLength: seq<byte>) returns (tail: array<byte>, length: nat)
    requires |rem| < 64 && |bitLength| == LENGTH_BYTES
    ensures fresh(tail) && tail.Length == 128 && (length == 64 || length == 128)
    ensures tail[..length] == rem + [0x80] + Zeros(ZeroBytes(|rem|)) + bitLength
  {
    tail := new byte[128](_ => 0);
    CopyInto(tail, 0, rem);
    tail[|rem|] := 0x80;
    length := if |rem| < 56 then 64 else 128;
    assert length == |rem| + 1 + ZeroBytes(|rem|) + LENGTH_BYTES;
    hide ZeroBytes;
    assert tail[..length - 8] == rem + [0x80] + Zeros(ZeroBytes(|rem|));
    ghost var before := tail[..];
    CopyInto(tail, length - 8, bitLength);
    assert tail[..length] == before[..length - 8] + bitLength;
  }

  /** The last blocks of a padded message are the padded rest of the message. */
  lemma PaddedSplits(bytes: seq<byte>, n: nat)
    requires n == |bytes| / 64
    ensures var rem := bytes[64 * n..];
            Padded(bytes) ==
            bytes[..64 * n] + (rem + [0x80] + Zeros(ZeroBytes(|rem|)) + BigEndian(8 * |bytes|, LENGTH_BYTES))
  {
    var rem := bytes[64 * n..];
    assert |rem| == |bytes| % 64;
    assert ZeroBytes(|rem|) == ZeroBytes(|bytes|);
    assert bytes == bytes[..64 * n] + rem;
  }

  method Bytes(state: array<Word>, ghost h: Vars) returns (digest: seq<byte>)
    requires Stands(state, h)
    ensures digest == Digest([h.a, h.b, h.c, h.d, h.e, h.f, h.g, h.h])
  {
    hide BytesOf;
    digest := [];
    for i := 0 to state.Length
      invariant digest == Digest(state[..i])
    {
      var word := ToBeBytes(state[i]);
      digest := digest + word;
      assert state[..i + 1][..i] == state[..i];
    }
    assert state[..state.Length] == [h.a, h.b, h.c, h.d, h.e, h.f, h.g, h.h];
  }

  method InitialState() returns (state: array<Word>)
    ensures fresh(state) && Stands(state, Initial())
  {
    hide InitialWord;
    state := new Word[8](i requires 0 <= i < 8 => InitialWord(i));
  }

  /** The program's digest is FIPS 180-4's. */
  method Sha256Digest(bytes: seq<byte>) returns (digest: seq<byte>)
    requires |bytes| < 0x2000_0000_0000_0000
    ensures digest == Sha256(bytes)
  {
    hide Compressed, Initial, BytesOf, BigEndian, Hashed, ZeroBytes;
    var state := InitialState();
    var n := |bytes| / 64;
    HashBlocks(state, bytes[..64 * n], n, Initial());
    var bitLength := 8 * |bytes|;
    BigEndianSize(bitLength, LENGTH_BYTES);
    var tail, length := PaddedTail(bytes[64 * n..], BigEndian(bitLength, LENGTH_BYTES));
    var m := length / 64;
    ghost var h := Hashed(Initial(), bytes[..64 * n], n);
    HashBlocks(state, tail[..length], m, h);
    PaddedSplits(bytes, n);
    HashedConcat(Initial(), bytes[..64 * n], n, tail[..length], m);
    digest := Bytes(state, Hashed(h, tail[..length], m));
  }
}
