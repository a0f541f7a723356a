/** Bytes: big-endian integers, exclusive or, and the hexadecimal text of the backup archive. */
module Octets {
  import opened Text

  type byte = x: int | 0 <= x < 256
  type Bytes = seq<byte>

  function Pow256(k: nat): (p: nat)
    ensures p >= 1
  {
    if k == 0 then 1 else 256 * Pow256(k - 1)
  }

  /** The `k` low-order bytes of `n`, most significant first (`to_be_bytes`). */
  function BigEndian(n: nat, k: nat): (bs: Bytes)
    ensures |bs| == k
    decreases k
  {
    if k == 0 then [] else BigEndian(n / 256, k - 1) + [n % 256]
  }

  lemma {:induction false} BigEndianInjective(m: nat, n: nat, k: nat)
    requires m < Pow256(k) && n < Pow256(k)
    requires BigEndian(m, k) == BigEndian(n, k)
    ensures m == n
    decreases k
  {
    if k > 0 {
      var a, b := BigEndian(m, k), BigEndian(n, k);
      assert a[..k - 1] == BigEndian(m / 256, k - 1) && b[..k - 1] == BigEndian(n / 256, k - 1);
      assert a[k - 1] == m % 256 && b[k - 1] == n % 256;
      BigEndianInjective(m / 256, n / 256, k - 1);
    }
  }

  // ---------------------------------------------------------------- exclusive or

  function Pow2(k: nat): (p: nat)
    ensures p >= 1
  {
    if k == 0 then 1 else 2 * Pow2(k - 1)
  }

  /** Exclusive or of the `k` low-order bits. */
  function XorBits(a: nat, b: nat, k: nat): (r: nat)
    ensures r < Pow2(k)
    decreases k
  {
    if k == 0 then 0 else 2 * XorBits(a / 2, b / 2, k - 1) + (a % 2 + b % 2) % 2
  }

  lemma XorBitsParts(a: nat, b: nat, k: nat)
    requires k > 0
    ensures XorBits(a, b, k) / 2 == XorBits(a / 2, b / 2, k - 1)
    ensures XorBits(a, b, k) % 2 == (a % 2 + b % 2) % 2
  {
  }

  lemma BitTwice(p: nat, q: nat)
    requires p < 2 && q < 2
    ensures ((p + q) % 2 + q) % 2 == p
  {
  }

  lemma Halves(a: nat, b: nat)
    requires a / 2 == b / 2 && a % 2 == b % 2
    ensures a == b
  {
  }

  lemma {:induction false} XorBitsInvolution(a: nat, b: nat, k: nat)
    requires a < Pow2(k)
    ensures XorBits(XorBits(a, b, k), b, k) == a
    decreases k
  {
    if k > 0 {
      hide XorBits;
      var x := XorBits(a, b, k);
      XorBitsParts(a, b, k);
      XorBitsParts(x, b, k);
      XorBitsInvolution(a / 2, b / 2, k - 1);
      BitTwice(a % 2, b % 2);
      Halves(XorBits(x, b, k), a);
    }
  }

  /** `a ^ b` on `u8` */
  function Xor(a: byte, b: byte): byte {
    assert Pow2(2) == 4 && Pow2(4) == 16 && Pow2(6) == 64 && Pow2(8) == 256;
    XorBits(a, b, 8)
  }

  lemma XorInvolution(a: byte, b: byte)
    ensures Xor(Xor(a, b), b) == a
  {
    assert Pow2(2) == 4 && Pow2(4) == 16 && Pow2(6) == 64 && Pow2(8) == 256;
    XorBitsInvolution(a, b, 8);
  }

  lemma {:induction false} XorBitsCommutes(a: nat, b: nat, n: nat)
    ensures XorBits(a, b, n) == XorBits(b, a, n)
  {
    if n > 0 { XorBitsCommutes(a / 2, b / 2, n - 1); }
  }

  /** Different keys give different results. */
  lemma XorInjective(a: byte, x: byte, y: byte)
    requires Xor(a, x) == Xor(a, y)
    ensures x == y
  {
    assert Pow2(2) == 4 && Pow2(4) == 16 && Pow2(6) == 64 && Pow2(8) == 256;
    XorBitsCommutes(a, x, 8);
    XorBitsCommutes(a, y, 8);
    assert Xor(x, a) == Xor(y, a);
    XorInvolution(x, a);
    XorInvolution(y, a);
  }

  // ---------------------------------------------------------------- hexadecimal

  predicate IsHexDigit(c: char) { '0' <= c <= '9' || 'a' <= c <= 'f' }

  /** The lower-case digit of a nibble. */
  function HexDigit(n: nat): (c: char)
    requires n < 16
    ensures IsHexDigit(c) && NibbleOf(c) == Ok(n)
  {
    if n < 10 then ('0' as int + n) as char else ('a' as int + n - 10) as char
  }

  function NibbleOf(c: char): (r: Result<nat>)
    ensures r.Ok? ==> r.value < 16
  {
    if '0' <= c <= '9' then Ok(c as int - '0' as int)
    else if 'a' <= c <= 'f' then Ok(c as int - 'a' as int + 10)
    else if 'A' <= c <= 'F' then Ok(c as int - 'A' as int + 10)
    else Err(Conflict)
  }

  /** Two digits a byte, in order. */
  function Hex(bytes: Bytes): (s: string)
    ensures |s| == 2 * |bytes|
    ensures forall c :: c in s ==> IsHexDigit(c)
  {
    if bytes == [] then ""
    else Hex(bytes[..|bytes| - 1]) + [HexDigit(bytes[|bytes| - 1] / 16), HexDigit(bytes[|bytes| - 1] % 16)]
  }

  function Unhex(s: string): (r: Result<Bytes>)
    requires |s| % 2 == 0
    ensures r.Ok? ==> 2 * |r.value| == |s|
  {
    if s == "" then Ok([])
    else
      var front :- Unhex(s[..|s| - 2]);
      var high :- NibbleOf(s[|s| - 2]);
      var low :- NibbleOf(s[|s| - 1]);
      Ok(front + [16 * high + low])
  }

  /** The whole decoder, with its length test. */
  function HexDecoded(s: string): Result<Bytes> {
    if |s| % 2 != 0 then Err(Conflict) else Unhex(s)
  }

  /** Decoding inverts encoding, for every byte string. */
  lemma {:induction false} HexRoundTrip(bytes: Bytes)
    ensures HexDecoded(Hex(bytes)) == Ok(bytes)
  {
    if bytes != [] {
      var front := bytes[..|bytes| - 1];
      HexRoundTrip(front);
      var s := Hex(bytes);
      assert s[..|s| - 2] == Hex(front);
      assert bytes == front + [bytes[|bytes| - 1]];
    }
  }

  /** A hexadecimal digit in lower case. */
  function Lowered(c: char): char {
    if 'A' <= c <= 'F' then (c as int - 'A' as int + 'a' as int) as char else c
  }

  function LowerCase(s: string): (r: string) {
    if s == "" then "" else LowerCase(s[..|s| - 1]) + [Lowered(s[|s| - 1])]
  }

  lemma LowerCaseLast(s: string, c: char)
    ensures LowerCase(s + [c]) == LowerCase(s) + [Lowered(c)]
  {
    hide Lowered;
    assert (s + [c])[..|s|] == s;
  }

  lemma LowerCaseOfMore(s: string, c: char, d: char)
    ensures LowerCase(s + [c, d]) == LowerCase(s) + [Lowered(c), Lowered(d)]
  {
    hide Lowered, LowerCase;
    assert s + [c, d] == (s + [c]) + [d];
    LowerCaseLast(s + [c], d);
    LowerCaseLast(s, c);
  }

  lemma DigitExactly(c: char)
    ensures NibbleOf(c).Ok? <==> IsHexDigit(Lowered(c))
    ensures NibbleOf(c).Ok? ==> HexDigit(NibbleOf(c).value) == Lowered(c)
  {
  }

  lemma {:induction false} UnhexAccepts(s: string)
    requires |s| % 2 == 0
    ensures Unhex(s).Ok? <==> forall i :: 0 <= i < |s| ==> IsHexDigit(Lowered(s[i]))
    decreases |s|
  {
    if s != "" {
      hide NibbleOf, Lowered, IsHexDigit;
      var n := |s|;
      var front := s[..n - 2];
      UnhexAccepts(front);
      DigitExactly(s[n - 2]);
      DigitExactly(s[n - 1]);
      assert forall i :: 0 <= i < n - 2 ==> front[i] == s[i];
    }
  }

  lemma UnhexOfMore(s: string)
    requires |s| % 2 == 0 && |s| >= 2 && Unhex(s).Ok?
    ensures var n := |s|;
      && Unhex(s[..n - 2]).Ok? && NibbleOf(s[n - 2]).Ok? && NibbleOf(s[n - 1]).Ok?
      && Unhex(s).value == Unhex(s[..n - 2]).value + [16 * NibbleOf(s[n - 2]).value + NibbleOf(s[n - 1]).value]
  {
    hide NibbleOf;
  }

  lemma NothingDecoded()
    ensures Unhex("") == Ok([]) && Hex([]) == "" && LowerCase("") == ""
  {
  }

  lemma PrintsMore(front: string, c: char, d: char, v: Bytes, high: nat, low: nat)
    requires high < 16 && low < 16 && Hex(v) == LowerCase(front)
    requires HexDigit(high) == Lowered(c) && HexDigit(low) == Lowered(d)
    ensures Hex(v + [16 * high + low]) == LowerCase(front + [c, d])
  {
    hide *;
    HexOfMore(v, high, low);
    LowerCaseOfMore(front, c, d);
  }

  lemma {:induction false} UnhexPrints(s: string)
    requires |s| % 2 == 0 && Unhex(s).Ok?
    ensures Hex(Unhex(s).value) == LowerCase(s)
    decreases |s|
  {
    hide *;
    if s == "" {
      NothingDecoded();
    } else {
      var n := |s|;
      var front, c, d := s[..n - 2], s[n - 2], s[n - 1];
      UnhexOfMore(s);
      UnhexPrints(front);
      DigitExactly(c);
      DigitExactly(d);
      PrintsMore(front, c, d, Unhex(front).value, NibbleOf(c).value, NibbleOf(d).value);
      assert s == front + [c, d];
    }
  }

  lemma HexOfMore(bytes: Bytes, high: nat, low: nat)
    requires high < 16 && low < 16
    ensures Hex(bytes + [16 * high + low]) == Hex(bytes) + [HexDigit(high), HexDigit(low)]
  {
    assert (bytes + [16 * high + low])[..|bytes|] == bytes;
  }

  /** A text decodes exactly when it has digit pairs only, to the bytes that print as its lower-case form. */
  lemma HexDecodedExactly(s: string)
    ensures HexDecoded(s).Ok? <==> |s| % 2 == 0 && forall i :: 0 <= i < |s| ==> IsHexDigit(Lowered(s[i]))
    ensures HexDecoded(s).Ok? ==> Hex(HexDecoded(s).value) == LowerCase(s)
    ensures HexDecoded(s).Err? ==> HexDecoded(s) == Err(Conflict)
  {
    hide Hex, Unhex, NibbleOf, Lowered, LowerCase;
    if |s| % 2 == 0 {
      UnhexAccepts(s);
      if Unhex(s).Ok? { UnhexPrints(s); }
      UnhexError(s);
    }
  }

  lemma {:induction false} UnhexError(s: string)
    requires |s| % 2 == 0
    ensures Unhex(s).Err? ==> Unhex(s) == Err(Conflict)
    decreases |s|
  {
    if s != "" { UnhexError(s[..|s| - 2]); }
  }

  /** `hex_encode`: the buffer grows by two digits a byte. */
  method HexEncode(bytes: Bytes) returns (encoded: string)
    ensures encoded == Hex(bytes)
    ensures HexDecoded(encoded) == Ok(bytes)
  {
    encoded := "";
    for i := 0 to |bytes|
      invariant encoded == Hex(bytes[..i])
    {
      assert bytes[..i + 1][..i] == bytes[..i];
      encoded := encoded + [HexDigit(bytes[i] / 16), HexDigit(bytes[i] % 16)];
    }
    assert bytes[..|bytes|] == bytes;
    HexRoundTrip(bytes);
  }

  lemma {:induction false} UnhexErrorSticks(s: string, i: nat)
    requires |s| % 2 == 0 && i <= |s| && i % 2 == 0
    requires Unhex(s[..i]).Err?
    ensures Unhex(s) == Unhex(s[..i])
    decreases |s| - i
  {
    if i < |s| {
      assert s[..i + 2][..i] == s[..i];
      UnhexErrorSticks(s, i + 2);
    } else {
      assert s[..i] == s;
    }
  }

  /** `hex_decode`: stops at the first invalid digit. */
  method HexDecode(value: string) returns (r: Result<Bytes>)
    ensures r == HexDecoded(value)
  {
    if |value| % 2 != 0 { return Err(Conflict); }
    var bytes: Bytes := [];
    var i := 0;
    while i < |value|
      invariant 0 <= i <= |value| && i % 2 == 0
      invariant Unhex(value[..i]) == Ok(bytes)
    {
      var high, low := NibbleOf(value[i]), NibbleOf(value[i + 1]);
      assert value[..i + 2][..i] == value[..i];
      if high.Err? || low.Err? {
        var e := if high.Err? then high.error else low.error;
        assert Unhex(value[..i + 2]) == Err(e);
        UnhexErrorSticks(value, i + 2);
        return Err(e);
      }
      bytes := bytes + [16 * high.value + low.value];
      i := i + 2;
    }
    assert value[..i] == value;
    return Ok(bytes);
  }
}
