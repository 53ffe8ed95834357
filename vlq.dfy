/**
 * The variable-length quantity used to encode MIDI time deltas: the value is
 * clamped to 28 bits and written as 7-bit groups, most significant first,
 * every byte but the last carrying the continuation bit 0x80. It is the
 * variable-length quantity of the Standard MIDI File 1.0 specification
 * ("Conventions" chapter), which also caps a quantity at four bytes.
 *
 * Shifts and masks are stated arithmetically: for a non-negative value,
 * `(x >> s) & 0x7F` is `(x / 2^s) % 0x80`, and for a 7-bit group `g`,
 * `g | 0x80` is `g + 0x80`.
 */
module Vlq {
  import opened Prims
  import opened Wrappers

  /** The clamp bound: the largest value a four-byte quantity holds. */
  const MAX_VALUE: nat := 0x0FFF_FFFF
  const TOP_BIT: nat := 0x80

  /** `x.min(0x0FFF_FFFF)`. */
  function Clamp(x: U64): (c: nat)
    ensures c <= MAX_VALUE
    ensures x <= MAX_VALUE ==> c == x
    ensures x > MAX_VALUE ==> c == MAX_VALUE
  {
    if x < MAX_VALUE then x else MAX_VALUE
  }

  /** A non-final byte: a 7-bit group with the continuation bit set. */
  function Continued(g: nat): (b: Byte)
    requires g < TOP_BIT
    ensures b >= TOP_BIT && Payload(b) == g
  {
    g + TOP_BIT
  }

  /** The 7-bit payload of a byte, `b & 0x7F`. */
  function Payload(b: Byte): (g: nat)
    ensures g < TOP_BIT
    ensures b < TOP_BIT ==> g == b
    ensures b >= TOP_BIT ==> g == b - TOP_BIT
  {
    b % TOP_BIT
  }

  /** The bytes `with_variable_length_encoding_bytes` hands to its sink, in
      order. */
  function Encode(x: U64): (r: seq<Byte>)
    ensures WellFormed(r)
  {
    var c := Clamp(x);
    var x3 := (c / 0x20_0000) % 0x80;
    var x2 := (c / 0x4000) % 0x80;
    var x1 := (c / 0x80) % 0x80;
    var x0 := c % 0x80;
    if x3 != 0 then [Continued(x3), Continued(x2), Continued(x1), x0]
    else if x2 != 0 then [Continued(x2), Continued(x1), x0]
    else if x1 != 0 then [Continued(x1), x0]
    else [x0]
  }

  /** A minimal quantity of at most four bytes: one to four bytes, only the
      last without the continuation bit, and no leading zero group. */
  predicate WellFormed(s: seq<Byte>)
  {
    && 1 <= |s| <= 4
    && s[|s| - 1] < TOP_BIT
    && (forall i :: 0 <= i < |s| - 1 ==> s[i] >= TOP_BIT)
    && (|s| > 1 ==> s[0] != TOP_BIT)
  }

  /** The value a quantity denotes: its 7-bit payloads read as one big-endian
      number, sum of `(b & 0x7F) * 128^k` with `k` counted from the end. */
  function Decode(s: seq<Byte>): nat
  {
    if s == [] then 0 else Decode(s[..|s| - 1]) * TOP_BIT + Payload(s[|s| - 1])
  }

  /** The reader of the Standard MIDI File specification: accumulate payloads
      until a byte without the continuation bit, giving up after four bytes or
      at the end of the input. Yields the value and the number of bytes read. */
  function Read(s: seq<Byte>): Option<(nat, nat)>
  {
    ReadFrom(s, 0, 0)
  }

  function ReadFrom(s: seq<Byte>, i: nat, acc: nat): Option<(nat, nat)>
    decreases 4 - i
  {
    if i >= 4 || i >= |s| then None
    else if s[i] < TOP_BIT then Some((acc * TOP_BIT + s[i], i + 1))
    else ReadFrom(s, i + 1, acc * TOP_BIT + Payload(s[i]))
  }

  lemma ClampSaturates(x: U64)
    requires x >= MAX_VALUE
    ensures Encode(x) == Encode(MAX_VALUE)
  {
  }

  /** Decoding the encoding gives back the clamped value. */
  lemma {:induction false} DecodeEncode(x: U64)
    ensures Decode(Encode(x)) == Clamp(x)
  {
    var c := Clamp(x);
    var x3 := (c / 0x20_0000) % 0x80;
    var x2 := (c / 0x4000) % 0x80;
    var x1 := (c / 0x80) % 0x80;
    var x0 := c % 0x80;
    Groups(c);
    var r := Encode(x);
    if x3 != 0 {
      DecodeFour(x3, x2, x1, x0);
    } else if x2 != 0 {
      DecodeThree(x2, x1, x0);
    } else if x1 != 0 {
      DecodeTwo(x1, x0);
    } else {
      assert r == [x0];
      DecodeOne(x0);
    }
  }

  /** Every minimal quantity of at most four bytes is the encoding of the
      value it denotes: the encoder's image is exactly the well-formed
      quantities. */
  lemma {:induction false} EncodeDecode(s: seq<Byte>)
    requires WellFormed(s)
    ensures Decode(s) <= MAX_VALUE
    ensures Encode(Decode(s)) == s
  {
    var e := s[|s| - 1];
    if |s| == 1 {
      DecodeOne(e);
      Ungroup(0, 0, 0, e);
    } else if |s| == 2 {
      var a := s[0] - TOP_BIT;
      assert s == [Continued(a), e];
      DecodeTwo(a, e);
      Ungroup(0, 0, a, e);
    } else if |s| == 3 {
      var a, b := s[0] - TOP_BIT, s[1] - TOP_BIT;
      assert s == [Continued(a), Continued(b), e];
      DecodeThree(a, b, e);
      Ungroup(0, a, b, e);
    } else {
      var a, b, d := s[0] - TOP_BIT, s[1] - TOP_BIT, s[2] - TOP_BIT;
      assert s == [Continued(a), Continued(b), Continued(d), e];
      DecodeFour(a, b, d, e);
      Ungroup(a, b, d, e);
    }
  }

  /** The reader recovers the value and the length of a minimal quantity
      from the front of any byte stream. */
  lemma {:induction false} ReadEncoded(x: U64, rest: seq<Byte>)
    ensures Read(Encode(x) + rest) == Some((Clamp(x), |Encode(x)|))
  {
    var v := Encode(x);
    ReadWellFormed(v, rest);
    DecodeEncode(x);
  }

  lemma {:induction false} ReadWellFormed(v: seq<Byte>, rest: seq<Byte>)
    requires WellFormed(v)
    ensures Read(v + rest) == Some((Decode(v), |v|))
  {
    var s := v + rest;
    var n := |v|;
    assert forall i :: 0 <= i < n ==> s[i] == v[i];
    // Each continued byte adds its payload to the accumulator.
    ReadContinued(s, v, n - 1);
    ReadStep(s, n - 1, Decode(v[..n - 1]));
    assert v == v[..n - 1] + [v[n - 1]];
    DecodeSnoc(v[..n - 1], v[n - 1]);
  }

  /** Reading the continued bytes `v[..i]` accumulates their value. */
  lemma {:induction false} ReadContinued(s: seq<Byte>, v: seq<Byte>, i: nat)
    requires WellFormed(v) && i < |v| && |v| <= |s|
    requires forall j :: 0 <= j < |v| ==> s[j] == v[j]
    ensures Read(s) == ReadFrom(s, i, Decode(v[..i]))
  {
    if i == 0 {
      assert v[..0] == [];
    } else {
      ReadContinued(s, v, i - 1);
      assert s[i - 1] >= TOP_BIT;
      assert v[..i] == v[..i - 1] + [v[i - 1]];
      DecodeSnoc(v[..i - 1], v[i - 1]);
    }
  }

  lemma ReadStep(s: seq<Byte>, i: nat, acc: nat)
    requires i < 4 && i < |s| && s[i] < TOP_BIT
    ensures ReadFrom(s, i, acc) == Some((acc * TOP_BIT + s[i], i + 1))
  {
  }

  lemma DecodeSnoc(t: seq<Byte>, e: Byte)
    ensures Decode(t + [e]) == Decode(t) * TOP_BIT + Payload(e)
  {
    assert (t + [e])[..|t|] == t;
  }

  /** The four 7-bit groups recombine to the value, and the top group is the
      whole high part (the clamp leaves nothing above bit 27). */
  lemma Groups(c: nat)
    requires c <= MAX_VALUE
    ensures c == (((c / 0x20_0000) % 0x80 * 0x80 + (c / 0x4000) % 0x80) * 0x80 + (c / 0x80) % 0x80) * 0x80 + c % 0x80
  {
    var q1 := c / 0x80;
    var q2 := q1 / 0x80;
    var q3 := q2 / 0x80;
    assert c == q1 * 0x80 + c % 0x80;
    assert q1 == q2 * 0x80 + q1 % 0x80;
    assert q2 == q3 * 0x80 + q2 % 0x80;
    assert q2 == c / 0x4000;
    assert q3 == c / 0x20_0000;
    assert q3 < 0x80;
  }

  /** The groups of a value assembled from four 7-bit groups are those groups. */
  lemma Ungroup(a: nat, b: nat, d: nat, e: nat)
    requires a < 0x80 && b < 0x80 && d < 0x80 && e < 0x80
    ensures var c := ((a * 0x80 + b) * 0x80 + d) * 0x80 + e;
      && c <= MAX_VALUE
      && (c / 0x20_0000) % 0x80 == a && (c / 0x4000) % 0x80 == b
      && (c / 0x80) % 0x80 == d && c % 0x80 == e
  {
    var c := ((a * 0x80 + b) * 0x80 + d) * 0x80 + e;
    assert c / 0x80 == (a * 0x80 + b) * 0x80 + d;
    assert c / 0x4000 == (c / 0x80) / 0x80;
    assert (c / 0x80) / 0x80 == a * 0x80 + b;
    assert c / 0x20_0000 == (c / 0x4000) / 0x80;
  }

  lemma DecodeOne(e: Byte)
    ensures Decode([e]) == Payload(e)
  {
    DecodeSnoc([], e);
    assert [] + [e] == [e];
  }

  lemma DecodeTwo(a: nat, e: nat)
    requires a < 0x80 && e < 0x80
    ensures Decode([Continued(a), e]) == a * 0x80 + e
  {
    DecodeOne(Continued(a));
    DecodeSnoc([Continued(a)], e);
    assert [Continued(a)] + [e] == [Continued(a), e];
  }

  lemma DecodeThree(a: nat, b: nat, e: nat)
    requires a < 0x80 && b < 0x80 && e < 0x80
    ensures Decode([Continued(a), Continued(b), e]) == (a * 0x80 + b) * 0x80 + e
  {
    DecodeOne(Continued(a));
    DecodeSnoc([Continued(a)], Continued(b));
    assert [Continued(a)] + [Continued(b)] == [Continued(a), Continued(b)];
    DecodeSnoc([Continued(a), Continued(b)], e);
    assert [Continued(a), Continued(b)] + [e] == [Continued(a), Continued(b), e];
  }

  lemma DecodeFour(a: nat, b: nat, d: nat, e: nat)
    requires a < 0x80 && b < 0x80 && d < 0x80 && e < 0x80
    ensures Decode([Continued(a), Continued(b), Continued(d), e]) == ((a * 0x80 + b) * 0x80 + d) * 0x80 + e
  {
    var s1, s2, s3 := [Continued(a)], [Continued(a), Continued(b)], [Continued(a), Continued(b), Continued(d)];
    DecodeOne(Continued(a));
    DecodeSnoc(s1, Continued(b));
    assert s1 + [Continued(b)] == s2;
    assert Decode(s2) == a * 0x80 + b;
    DecodeSnoc(s2, Continued(d));
    assert s2 + [Continued(d)] == s3;
    assert Decode(s3) == (a * 0x80 + b) * 0x80 + d;
    DecodeSnoc(s3, e);
    assert s3 + [e] == [Continued(a), Continued(b), Continued(d), e];
  }

  /** The worked values of the encoding. */
  lemma Examples()
    ensures Encode(0) == [0x00]
    ensures Encode(0x7F) == [0x7F]
    ensures Encode(0x80) == [0x81, 0x00]
    ensures Encode(0x1F_FFFF) == [0xFF, 0xFF, 0x7F]
    ensures Encode(0x0FFF_FFFF) == [0xFF, 0xFF, 0xFF, 0x7F]
    ensures Encode(0x1000_0000) == Encode(0x0FFF_FFFF)
  {
  }
}
