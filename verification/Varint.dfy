/** Base-128 varints and fixed-width integers, as Go's encoding/binary writes and reads them. */
module Varint {
  import opened Common

  function Uvarint(n: nat): Text {
    if n < 128 then [n as byte] else [(n % 128 + 128) as byte] + Uvarint(n / 128)
  }

  /** `binary.Uvarint` from the `i`-th byte of a varint on: the value and the bytes consumed.
      `None` stands for both of its failures, a truncated and an oversized varint. */
  function ReadUvarint(raw: Text, i: nat): (r: Option<(nat, nat)>)
    ensures r.Some? ==> 1 <= r.value.1 <= |raw|
    decreases raw
  {
    if raw == [] || i >= 10 then None
    else if raw[0] < 128 then
      if i == 9 && raw[0] > 1 then None else Some((raw[0] as nat, 1))
    else
      match ReadUvarint(raw[1..], i + 1)
      case None => None
      case Some((value, used)) => Some((raw[0] as nat - 128 + 128 * value, used + 1))
  }

  /** The values that still fit in 64 bits when read from the `i`-th byte on. */
  function UvarintLimit(i: nat): nat
    requires i <= 9
    decreases 9 - i
  {
    if i == 9 then 2 else 128 * UvarintLimit(i + 1)
  }

  lemma {:induction false} UvarintRoundTrip(n: nat, i: nat, rest: Text)
    requires i <= 9 && n < UvarintLimit(i)
    ensures ReadUvarint(Uvarint(n) + rest, i) == Some((n, |Uvarint(n)|))
    decreases n
  {
    var raw := Uvarint(n) + rest;
    if n >= 128 {
      assert raw[0] == (n % 128 + 128) as byte;
      assert raw[1..] == Uvarint(n / 128) + rest;
      assert n == 128 * (n / 128) + n % 128;
      UvarintRoundTrip(n / 128, i + 1, rest);
    }
  }

  lemma UvarintLimitIs64Bit()
    ensures UvarintLimit(0) == 0x1_0000_0000_0000_0000
  {
    assert UvarintLimit(8) == 256;
    assert UvarintLimit(6) == 4194304;
    assert UvarintLimit(4) == 68719476736;
    assert UvarintLimit(2) == 1125899906842624;
  }

  /** The first byte of a varint, and what follows it. */
  lemma UvarintHead(n: nat, r: Text)
    ensures
      var x := Uvarint(n) + r;
      && x != [] && x[0] as nat == (if n < 128 then n else n % 128 + 128)
      && x[1..] == if n < 128 then r else Uvarint(n / 128) + r
  {
    if n < 128 {
      assert Uvarint(n) + r == [n as byte] + r;
    } else {
      var rest := Uvarint(n / 128);
      assert Uvarint(n) == [(n % 128 + 128) as byte] + rest;
      hide Uvarint;
      assert [(n % 128 + 128) as byte] + rest + r == [(n % 128 + 128) as byte] + (rest + r);
    }
  }

  /** No varint is a proper prefix of another one. */
  lemma {:induction false} UvarintPrefixFree(a: nat, b: nat, r: Text, s: Text)
    requires Uvarint(a) + r == Uvarint(b) + s
    ensures a == b && r == s
    decreases a
  {
    hide Uvarint;
    UvarintHead(a, r);
    UvarintHead(b, s);
    if a >= 128 {
      UvarintPrefixFree(a / 128, b / 128, r, s);
      assert a == 128 * (a / 128) + a % 128 && b == 128 * (b / 128) + b % 128;
    }
  }

  /** A length-prefixed string. */
  function Prefixed(part: Text): Text { Uvarint(|part|) + part }

  lemma PrefixedPrefixFree(a: Text, b: Text, r: Text, s: Text)
    requires Prefixed(a) + r == Prefixed(b) + s
    ensures a == b && r == s
  {
    assert Prefixed(a) + r == Uvarint(|a|) + (a + r);
    assert Prefixed(b) + s == Uvarint(|b|) + (b + s);
    UvarintPrefixFree(|a|, |b|, a + r, b + s);
    assert a == (a + r)[..|a|] && b == (b + s)[..|b|];
    assert r == (a + r)[|a|..] && s == (b + s)[|b|..];
  }
}
