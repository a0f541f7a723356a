/** The dependency-free SHA-256 of the core crate, proved against the definitions of
    FIPS 180-4 (sections 4.1.2, 5.1.1 and 6.2.2). */
module Sha256 {
  import opened Text
  import opened Octets

  type Word = bv32
  type HashValue = h: seq<Word> | |h| == 8 witness [0, 0, 0, 0, 0, 0, 0, 0]
  type Block = b: Bytes | |b| == 64 witness seq(64, _ => 0)

  const INITIAL: HashValue := [
    0x6a09e667, 0xbb67ae85, 0x3c6ef372, 0xa54ff53a, 0x510e527f, 0x9b05688c, 0x1f83d9ab, 0x5be0cd19
  ]

  /** The constants K_0 to K_63, eight a row. */
  const ROUND: seq<seq<Word>> := [
    [0x428a2f98, 0x71374491, 0xb5c0fbcf, 0xe9b5dba5, 0x3956c25b, 0x59f111f1, 0x923f82a4, 0xab1c5ed5],
    [0xd807aa98, 0x12835b01, 0x243185be, 0x550c7dc3, 0x72be5d74, 0x80deb1fe, 0x9bdc06a7, 0xc19bf174],
    [0xe49b69c1, 0xefbe4786, 0x0fc19dc6, 0x240ca1cc, 0x2de92c6f, 0x4a7484aa, 0x5cb0a9dc, 0x76f988da],
    [0x983e5152, 0xa831c66d, 0xb00327c8, 0xbf597fc7, 0xc6e00bf3, 0xd5a79147, 0x06ca6351, 0x14292967],
    [0x27b70a85, 0x2e1b2138, 0x4d2c6dfc, 0x53380d13, 0x650a7354, 0x766a0abb, 0x81c2c92e, 0x92722c85],
    [0xa2bfe8a1, 0xa81a664b, 0xc24b8b70, 0xc76c51a3, 0xd192e819, 0xd6990624, 0xf40e3585, 0x106aa070],
    [0x19a4c116, 0x1e376c08, 0x2748774c, 0x34b0bcb5, 0x391c0cb3, 0x4ed8aa4a, 0x5b9cca4f, 0x682e6ff3],
    [0x748f82ee, 0x78a5636f, 0x84c87814, 0x8cc70208, 0x90befffa, 0xa4506ceb, 0xbef9a3f7, 0xc67178f2]
  ]

  /** K_t */
  function RoundConstant(t: nat): Word
    requires t < 64
  {
    ROUND[t / 8][t % 8]
  }

  // ---------------------------------------------------------------- FIPS 180-4, section 4.1.2

  function BigSigma0(x: Word): Word {
    ((x >> 2) | (x << 30)) ^ ((x >> 13) | (x << 19)) ^ ((x >> 22) | (x << 10))
  }

  function BigSigma1(x: Word): Word {
    ((x >> 6) | (x << 26)) ^ ((x >> 11) | (x << 21)) ^ ((x >> 25) | (x << 7))
  }

  function SmallSigma0(x: Word): Word {
    ((x >> 7) | (x << 25)) ^ ((x >> 18) | (x << 14)) ^ (x >> 3)
  }

  function SmallSigma1(x: Word): Word {
    ((x >> 17) | (x << 15)) ^ ((x >> 19) | (x << 13)) ^ (x >> 10)
  }

  /** Addition modulo 2^32 (`wrapping_add`). */
  function Add(x: Word, y: Word): Word { x + y }
  function Sum4(p: Word, q: Word, r: Word, s: Word): Word { p + q + r + s }

  function Ch(x: Word, y: Word, z: Word): Word { (x & y) ^ (!x & z) }
  function Maj(x: Word, y: Word, z: Word): Word { (x & y) ^ (x & z) ^ (y & z) }

  // The code's rotations are the standard's functions.

  function CodeBigSigma0(x: Word): (r: Word)
    ensures r == BigSigma0(x)
  {
    x.RotateRight(2) ^ x.RotateRight(13) ^ x.RotateRight(22)
  }

  function CodeBigSigma1(x: Word): (r: Word)
    ensures r == BigSigma1(x)
  {
    x.RotateRight(6) ^ x.RotateRight(11) ^ x.RotateRight(25)
  }

  function CodeSmallSigma0(x: Word): (r: Word)
    ensures r == SmallSigma0(x)
  {
    x.RotateRight(7) ^ x.RotateRight(18) ^ (x >> 3)
  }

  function CodeSmallSigma1(x: Word): (r: Word)
    ensures r == SmallSigma1(x)
  {
    x.RotateRight(17) ^ x.RotateRight(19) ^ (x >> 10)
  }

  // ---------------------------------------------------------------- section 6.2.2

  function BigEndianWord(a: byte, b: byte, c: byte, d: byte): Word {
    ((a as bv32) << 24) | ((b as bv32) << 16) | ((c as bv32) << 8) | (d as bv32)
  }

  /** W_t, the message schedule of one block. */
  function Schedule(block: Block, t: nat): Word
    requires t < 64
  {
    if t < 16 then BigEndianWord(block[4 * t], block[4 * t + 1], block[4 * t + 2], block[4 * t + 3])
    else Sum4(SmallSigma1(Schedule(block, t - 2)), Schedule(block, t - 7),
              SmallSigma0(Schedule(block, t - 15)), Schedule(block, t - 16))
  }

  datatype Working = Working(a: Word, b: Word, c: Word, d: Word, e: Word, f: Word, g: Word, h: Word)

  function Round(v: Working, k: Word, w: Word): Working {
    var t1 := Add(Add(Add(Add(v.h, BigSigma1(v.e)), Ch(v.e, v.f, v.g)), k), w);
    var t2 := Add(BigSigma0(v.a), Maj(v.a, v.b, v.c));
    Working(Add(t1, t2), v.a, v.b, v.c, Add(v.d, t1), v.e, v.f, v.g)
  }

  /** The working variables after `t` rounds. */
  function Rounds(v: Working, block: Block, t: nat): Working
    requires t <= 64
  {
    if t == 0 then v else Round(Rounds(v, block, t - 1), RoundConstant(t - 1), Schedule(block, t - 1))
  }

  function Start(h: HashValue): Working {
    Working(h[0], h[1], h[2], h[3], h[4], h[5], h[6], h[7])
  }

  function Words(v: Working): HashValue {
    [v.a, v.b, v.c, v.d, v.e, v.f, v.g, v.h]
  }

  function AddBack(h: HashValue, v: HashValue): HashValue {
    seq(8, i requires 0 <= i < 8 => Add(h[i], v[i]))
  }

  /** H^(i) from H^(i-1) and M^(i). */
  function Compressed(h: HashValue, block: Block): HashValue {
    AddBack(h, Words(Rounds(Start(h), block, 64)))
  }

  function HashBlocks(h: HashValue, padded: Bytes): HashValue
    requires |padded| % 64 == 0
    decreases |padded|
  {
    if padded == [] then h else HashBlocks(Compressed(h, padded[..64]), padded[64..])
  }

  // ---------------------------------------------------------------- section 5.1.1

  /** How many zero bytes follow the 0x80 byte. */
  function ZeroBytes(length: nat): nat { (55 - length) % 64 }

  /** The message, a one bit, the fewest zero bits that leave 64 bits of a block, the bit length. */
  function Padded(m: Bytes): Bytes {
    m + [0x80] + seq(ZeroBytes(|m|), _ => 0) + BigEndian(8 * |m| % Pow256(8), 8)
  }

  lemma ZeroBytesIsLeast(length: nat, z: nat)
    ensures (length + 1 + ZeroBytes(length)) % 64 == 56
    ensures (length + 1 + z) % 64 == 56 ==> ZeroBytes(length) <= z
  {
  }

  lemma PaddedLength(m: Bytes)
    ensures |Padded(m)| == |m| + 1 + ZeroBytes(|m|) + 8
    ensures |Padded(m)| % 64 == 0
  {
    hide BigEndian, Pow256, ZeroBytes;
    ZeroBytesIsLeast(|m|, 0);
  }

  /** Distinct messages below 2^61 bytes have distinct paddings. */
  lemma PaddingInjective(a: Bytes, b: Bytes)
    requires |a| < 0x2000_0000_0000_0000 && |b| < 0x2000_0000_0000_0000
    requires Padded(a) == Padded(b)
    ensures a == b
  {
    hide BigEndian, Pow256;
    PaddedParts(a);
    PaddedParts(b);
    Pow256Of8();
    BigEndianInjective(8 * |a|, 8 * |b|, 8);
  }

  lemma Pow256Of8()
    ensures Pow256(8) == 0x1_0000_0000_0000_0000
  {
    assert Pow256(2) == 0x1_0000 && Pow256(4) == 0x1_0000_0000 && Pow256(6) == 0x1_0000_0000_0000;
  }

  lemma PaddedParts(m: Bytes)
    requires |m| < 0x2000_0000_0000_0000
    ensures |Padded(m)| >= 8 + |m|
    ensures Padded(m)[|Padded(m)| - 8..] == BigEndian(8 * |m|, 8)
    ensures Padded(m)[..|m|] == m
  {
    hide BigEndian, Pow256;
    Pow256Of8();
  }

  /** The hash of section 6.2: the padded message folded into the initial hash value. */
  function Hash(m: Bytes): HashValue {
    PaddedLength(m);
    HashBlocks(INITIAL, Padded(m))
  }

  // ---------------------------------------------------------------- digest text

  function NibbleDigit(n: Word): (c: char)
    ensures IsHexDigit(c)
  {
    if n == 0 then '0' else if n == 1 then '1' else if n == 2 then '2' else if n == 3 then '3'
    else if n == 4 then '4' else if n == 5 then '5' else if n == 6 then '6' else if n == 7 then '7'
    else if n == 8 then '8' else if n == 9 then '9' else if n == 10 then 'a' else if n == 11 then 'b'
    else if n == 12 then 'c' else if n == 13 then 'd' else if n == 14 then 'e' else 'f'
  }

  /** `{word:08x}` */
  function WordHex(w: Word): (s: string)
    ensures |s| == 8 && forall c :: c in s ==> IsHexDigit(c)
  {
    [NibbleDigit(w >> 28), NibbleDigit((w >> 24) & 15), NibbleDigit((w >> 20) & 15), NibbleDigit((w >> 16) & 15),
     NibbleDigit((w >> 12) & 15), NibbleDigit((w >> 8) & 15), NibbleDigit((w >> 4) & 15), NibbleDigit(w & 15)]
  }

  function WordsHex(h: seq<Word>): (s: string)
    ensures |s| == 8 * |h| && forall c :: c in s ==> IsHexDigit(c)
  {
    if h == [] then "" else WordsHex(h[..|h| - 1]) + WordHex(h[|h| - 1])
  }

  /** `sha256:` and 64 lower-case hexadecimal digits. */
  predicate IsDigestText(s: string) {
    && |s| == 71
    && "sha256:" <= s
    && forall c :: c in s[7..] ==> IsHexDigit(c)
  }

  function DigestText(h: HashValue): (s: string)
    ensures IsDigestText(s)
  {
    var s := "sha256:" + WordsHex(h);
    assert s[7..] == WordsHex(h);
    s
  }

  // ---------------------------------------------------------------- the code

  /** The code adds the schedule terms in the opposite order. */
  lemma SumOrder(p: Word, q: Word, r: Word, s: Word)
    ensures Sum4(p, q, r, s) == Sum4(s, r, q, p)
  {
  }

  /** `compress`: fills the schedule, rotates the eight variables and adds them back in place. */
  method Compress(state: array<Word>, chunk: Block)
    requires state.Length == 8
    modifies state
    ensures state[..] == Compressed(old(state[..]), chunk)
  {
    hide Rounds, Schedule, Add;
    var w := new Word[64];
    FillFirstWords(w, chunk);
    FillOtherWords(w, chunk);
    var s := state[..];
    var v := RunRounds(Start(s), chunk, w[..]);
    AddInPlace(state, Words(v));
  }

  method AddInPlace(state: array<Word>, v: HashValue)
    requires state.Length == 8
    modifies state
    ensures state[..] == AddBack(old(state[..]), v)
  {
    hide Add;
    for i := 0 to 8
      invariant forall k :: 0 <= k < i ==> state[k] == Add(old(state[k]), v[k])
      invariant forall k :: i <= k < 8 ==> state[k] == old(state[k])
    {
      state[i] := Add(state[i], v[i]);
    }
  }

  method FillFirstWords(w: array<Word>, chunk: Block)
    requires w.Length == 64
    modifies w
    ensures forall t :: 0 <= t < 16 ==> w[t] == Schedule(chunk, t)
  {
    for index := 0 to 16
      invariant forall t :: 0 <= t < index ==> w[t] == Schedule(chunk, t)
    {
      w[index] := BigEndianWord(chunk[4 * index], chunk[4 * index + 1], chunk[4 * index + 2], chunk[4 * index + 3]);
    }
  }

  method FillOtherWords(w: array<Word>, chunk: Block)
    requires w.Length == 64
    requires forall t :: 0 <= t < 16 ==> w[t] == Schedule(chunk, t)
    modifies w
    ensures forall t :: 0 <= t < 64 ==> w[t] == Schedule(chunk, t)
  {
    hide Sum4, BigEndianWord, SmallSigma0, SmallSigma1, CodeSmallSigma0, CodeSmallSigma1;
    for index := 16 to 64
      invariant forall t :: 0 <= t < index ==> w[t] == Schedule(chunk, t)
    {
      var s0 := CodeSmallSigma0(w[index - 15]);
      var s1 := CodeSmallSigma1(w[index - 2]);
      SumOrder(w[index - 16], s0, w[index - 7], s1);
      w[index] := Sum4(w[index - 16], s0, w[index - 7], s1);
    }
  }

  method RunRounds(start: Working, chunk: Block, w: seq<Word>) returns (v: Working)
    requires |w| == 64
    requires forall t :: 0 <= t < 64 ==> w[t] == Schedule(chunk, t)
    ensures v == Rounds(start, chunk, 64)
  {
    hide Add, BigSigma0, BigSigma1, Ch, Maj, CodeBigSigma0, CodeBigSigma1, Schedule, RoundConstant;
    var a, b, c, d, e, f, g, h := start.a, start.b, start.c, start.d, start.e, start.f, start.g, start.h;
    for index := 0 to 64
      invariant Working(a, b, c, d, e, f, g, h) == Rounds(start, chunk, index)
    {
      var s1 := CodeBigSigma1(e);
      var ch := Ch(e, f, g);
      var t1 := Add(Add(Add(Add(h, s1), ch), RoundConstant(index)), w[index]);
      var s0 := CodeBigSigma0(a);
      var maj := Maj(a, b, c);
      var t2 := Add(s0, maj);
      h := g;
      g := f;
      f := e;
      e := Add(d, t1);
      d := c;
      c := b;
      b := a;
      a := Add(t1, t2);
    }
    v := Working(a, b, c, d, e, f, g, h);
  }

  lemma HashBlocksSplit(h: HashValue, p: Bytes, i: nat)
    requires |p| % 64 == 0 && 64 * i < |p|
    ensures HashBlocks(h, p[..64 * (i + 1)]) == Compressed(HashBlocks(h, p[..64 * i]), p[64 * i..64 * (i + 1)])
    decreases i
  {
    hide Compressed;
    if i > 0 {
      var q, hq := p[64..], Compressed(h, p[..64]);
      HashBlocksSplit(hq, q, i - 1);
      assert p[..64 * (i + 1)][64..] == q[..64 * i] && p[..64 * (i + 1)][..64] == p[..64];
      assert p[..64 * i][64..] == q[..64 * (i - 1)] && p[..64 * i][..64] == p[..64];
      assert p[64 * i..64 * (i + 1)] == q[64 * (i - 1)..64 * i];
    } else {
      assert p[..64][64..] == [] && p[..0] == [] && p[..64][..64] == p[..64];
    }
  }

  /** The padding loop of `sha256_digest`. */
  method Pad(bytes: Bytes) returns (padded: Bytes)
    ensures padded == Padded(bytes)
  {
    padded := bytes + [0x80];
    ghost var zeros := ZeroBytes(|bytes|);
    while |padded| % 64 != 56
      invariant |padded| <= |bytes| + 1 + zeros
      invariant padded == bytes + [0x80] + seq(|padded| - |bytes| - 1, _ => 0)
      decreases |bytes| + 1 + zeros - |padded|
    {
      ZeroBytesIsLeast(|bytes|, |padded| - |bytes| - 1);
      padded := padded + [0];
    }
    ZeroBytesIsLeast(|bytes|, |padded| - |bytes| - 1);
    padded := padded + BigEndian(|bytes| * 8 % Pow256(8), 8);
  }

  /** The block loop of `sha256_digest`. */
  method FoldBlocks(state: array<Word>, padded: Bytes)
    requires state.Length == 8 && |padded| % 64 == 0
    modifies state
    ensures state[..] == HashBlocks(old(state[..]), padded)
  {
    hide Compressed;
    ghost var h := state[..];
    var i := 0;
    while 64 * i < |padded|
      invariant 64 * i <= |padded|
      invariant state[..] == HashBlocks(h, padded[..64 * i])
    {
      HashBlocksSplit(h, padded, i);
      Compress(state, padded[64 * i..64 * (i + 1)]);
      i := i + 1;
    }
    assert padded[..64 * i] == padded;
  }

  /** `sha256_digest`: pads, compresses block after block, prints the words. */
  method Sha256Digest(bytes: Bytes) returns (output: string)
    ensures output == DigestText(Hash(bytes))
  {
    hide Padded, HashBlocks;
    var padded := Pad(bytes);
    PaddedLength(bytes);
    var state := new Word[8](i requires 0 <= i < 8 => INITIAL[i]);
    assert state[..] == INITIAL;
    FoldBlocks(state, padded);
    output := PrintWords(state[..]);
  }

  method PrintWords(words: HashValue) returns (output: string)
    ensures output == DigestText(words)
  {
    hide WordHex;
    output := "sha256:";
    for k := 0 to 8
      invariant output == "sha256:" + WordsHex(words[..k])
    {
      assert words[..k + 1][..k] == words[..k];
      output := output + WordHex(words[k]);
    }
    assert words[..8] == words;
  }
}
