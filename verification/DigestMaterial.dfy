/** Length-prefixed digest material. */
module DigestMaterial {
  import opened Text
  import opened Octets

  type Encode = string -> Bytes

  /** No two texts are encoded alike. */
  ghost predicate Faithful(encode: Encode) { forall a, b :: encode(a) == encode(b) ==> a == b }

  /** Each component is shorter than 2^64 bytes. */
  predicate Short(encode: Encode, components: seq<string>) { forall c :: c in components ==> |encode(c)| < Pow256(8) }

  /** `push_digest_bytes`: the length as eight bytes, cut to 64 bits, then the bytes. */
  function Framed(b: Bytes): Bytes { BigEndian(|b| % Pow256(8), 8) + b }

  function Material(encode: Encode, components: seq<string>): Bytes {
    if components == [] then [] else Framed(encode(components[0])) + Material(encode, components[1..])
  }

  lemma FramedShort(b: Bytes)
    requires |b| < Pow256(8)
    ensures Framed(b) == BigEndian(|b|, 8) + b
  {
    hide BigEndian, Pow256;
    SmallRemainder(|b|, Pow256(8));
  }

  lemma SmallRemainder(n: nat, m: nat)
    requires n < m
    ensures n % m == n
  {
  }

  lemma FrameSplits(a: Bytes, b: Bytes, r: Bytes, s: Bytes)
    requires Framed(a) + r == Framed(b) + s && |a| < Pow256(8) && |b| < Pow256(8)
    ensures a == b && r == s
  {
    hide BigEndian, Pow256, Framed;
    FramedShort(a);
    FramedShort(b);
    var x, y := Framed(a) + r, Framed(b) + s;
    assert BigEndian(|a|, 8) == x[..8] && BigEndian(|b|, 8) == y[..8];
    BigEndianInjective(|a|, |b|, 8);
    assert a == x[8..8 + |a|] && b == y[8..8 + |b|];
    assert r == x[8 + |a|..] && s == y[8 + |b|..];
  }

  /** The material is uniquely decodable: equal material means equal components, boundaries included. */
  lemma {:induction false} MaterialInjective(encode: Encode, a: seq<string>, b: seq<string>)
    requires Faithful(encode) && Short(encode, a) && Short(encode, b) && Material(encode, a) == Material(encode, b)
    ensures a == b
    decreases |a| + |b|
  {
    hide Framed, Pow256;
    if a != [] && b != [] {
      FrameSplits(encode(a[0]), encode(b[0]), Material(encode, a[1..]), Material(encode, b[1..]));
      MaterialInjective(encode, a[1..], b[1..]);
      assert a == [a[0]] + a[1..] && b == [b[0]] + b[1..];
    } else if a != [] {
      FramedIsNotEmpty(encode(a[0]));
      assert false;
    } else if b != [] {
      FramedIsNotEmpty(encode(b[0]));
      assert false;
    }
  }

  lemma FramedIsNotEmpty(b: Bytes)
    ensures |Framed(b)| >= 8
  {
  }

  lemma {:induction false} MaterialAppend(encode: Encode, a: seq<string>, b: seq<string>)
    ensures Material(encode, a + b) == Material(encode, a) + Material(encode, b)
  {
    hide Framed;
    if a == [] {
      assert a + b == b;
    } else {
      assert (a + b)[1..] == a[1..] + b;
      MaterialAppend(encode, a[1..], b);
    }
  }

  // ---------------------------------------------------------------- fields, collections, pairs

  function Field(name: string, value: string): seq<string> { [name, value] }

  function Items(name: string, values: seq<string>): (cs: seq<string>)
    ensures |cs| == 2 * |values|
  {
    if values == [] then [] else Items(name, values[..|values| - 1]) + Field(name, values[|values| - 1])
  }

  /** `push_digest_collection` */
  function Collection(name: string, values: seq<string>): seq<string> {
    Field(name + "_count", Decimal(|values|)) + Items(name, values)
  }

  type Pair = (string, string)

  function PairItems(first: string, second: string, pairs: seq<Pair>): (cs: seq<string>)
    ensures |cs| == 4 * |pairs|
  {
    if pairs == [] then []
    else
      var last := pairs[|pairs| - 1];
      PairItems(first, second, pairs[..|pairs| - 1]) + (Field(first, last.0) + Field(second, last.1))
  }

  /** A counted list of pairs of fields, as headers and vault secrets are written. */
  function Pairs(count: string, first: string, second: string, pairs: seq<Pair>): seq<string> {
    Field(count, Decimal(|pairs|)) + PairItems(first, second, pairs)
  }

  lemma FieldSplits(name: string, v: string, w: string, r: seq<string>, s: seq<string>)
    requires Field(name, v) + r == Field(name, w) + s
    ensures v == w && r == s
  {
    var x, y := Field(name, v) + r, Field(name, w) + s;
    assert x[1] == v && y[1] == w;
    assert r == x[2..] && s == y[2..];
  }

  lemma {:induction false} ItemsInjective(name: string, a: seq<string>, b: seq<string>)
    requires |a| == |b| && Items(name, a) == Items(name, b)
    ensures a == b
  {
    if a != [] {
      var n := |a| - 1;
      assert Items(name, a[..n]) == Items(name, a)[..2 * n] && Items(name, b[..n]) == Items(name, b)[..2 * n];
      ItemsInjective(name, a[..n], b[..n]);
      assert a[n] == Items(name, a)[2 * n + 1] && b[n] == Items(name, b)[2 * n + 1];
      assert a == a[..n] + [a[n]] && b == b[..n] + [b[n]];
    }
  }

  lemma CollectionSplits(name: string, a: seq<string>, b: seq<string>, r: seq<string>, s: seq<string>)
    requires Collection(name, a) + r == Collection(name, b) + s
    ensures a == b && r == s
  {
    hide Decimal, Items, Field;
    var count := name + "_count";
    assert Collection(name, a) + r == Field(count, Decimal(|a|)) + (Items(name, a) + r);
    assert Collection(name, b) + s == Field(count, Decimal(|b|)) + (Items(name, b) + s);
    FieldSplits(count, Decimal(|a|), Decimal(|b|), Items(name, a) + r, Items(name, b) + s);
    DecimalInjective(|a|, |b|);
    var x, y := Items(name, a) + r, Items(name, b) + s;
    assert Items(name, a) == x[..2 * |a|] && Items(name, b) == y[..2 * |b|];
    ItemsInjective(name, a, b);
    assert r == x[2 * |a|..] && s == y[2 * |b|..];
  }

  lemma {:induction false} PairItemsInjective(first: string, second: string, a: seq<Pair>, b: seq<Pair>)
    requires |a| == |b| && PairItems(first, second, a) == PairItems(first, second, b)
    ensures a == b
  {
    if a != [] {
      var n := |a| - 1;
      var x, y := PairItems(first, second, a), PairItems(first, second, b);
      assert PairItems(first, second, a[..n]) == x[..4 * n] && PairItems(first, second, b[..n]) == y[..4 * n];
      PairItemsInjective(first, second, a[..n], b[..n]);
      assert a[n].0 == x[4 * n + 1] && b[n].0 == y[4 * n + 1] && a[n].1 == x[4 * n + 3] && b[n].1 == y[4 * n + 3];
      assert a == a[..n] + [a[n]] && b == b[..n] + [b[n]];
    }
  }

  lemma PairsSplit(
    count: string, first: string, second: string, a: seq<Pair>, b: seq<Pair>, r: seq<string>, s: seq<string>)
    requires Pairs(count, first, second, a) + r == Pairs(count, first, second, b) + s
    ensures a == b && r == s
  {
    hide Decimal, PairItems, Field;
    var x, y := PairItems(first, second, a) + r, PairItems(first, second, b) + s;
    assert Pairs(count, first, second, a) + r == Field(count, Decimal(|a|)) + x;
    assert Pairs(count, first, second, b) + s == Field(count, Decimal(|b|)) + y;
    FieldSplits(count, Decimal(|a|), Decimal(|b|), x, y);
    DecimalInjective(|a|, |b|);
    assert PairItems(first, second, a) == x[..4 * |a|] && PairItems(first, second, b) == y[..4 * |b|];
    PairItemsInjective(first, second, a, b);
    assert r == x[4 * |a|..] && s == y[4 * |b|..];
  }

  // ---------------------------------------------------------------- the code

  method PushField(encode: Encode, material: Bytes, name: string, value: string) returns (r: Bytes)
    ensures r == material + Material(encode, Field(name, value))
  {
    hide Framed;
    r := material + Framed(encode(name)) + Framed(encode(value));
    assert Field(name, value)[1..] == [value] && [value][1..] == [];
    assert Material(encode, [value]) == Framed(encode(value));
  }

  method PushCollection(encode: Encode, material: Bytes, name: string, values: seq<string>) returns (r: Bytes)
    ensures r == material + Material(encode, Collection(name, values))
  {
    hide Field, Decimal, Material;
    r := PushField(encode, material, name + "_count", Decimal(|values|));
    ghost var head := Field(name + "_count", Decimal(|values|));
    assert head + [] == head;
    for i := 0 to |values|
      invariant r == material + Material(encode, head + Items(name, values[..i]))
    {
      assert values[..i + 1][..i] == values[..i];
      var done := PushField(encode, r, name, values[i]);
      MaterialAppend(encode, head + Items(name, values[..i]), Field(name, values[i]));
      assert head + Items(name, values[..i]) + Field(name, values[i]) == head + Items(name, values[..i + 1]);
      r := done;
    }
    assert values[..|values|] == values;
  }
}
