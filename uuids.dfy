/** UUIDs as the services use them: a 128-bit number whose `str()` is the
    canonical text form of section 4 of RFC 9562 (32 lowercase hex digits in
    groups of 8-4-4-4-12 separated by hyphens). Session ids and document
    ids are such strings. */
module Uuids {

  function Pow16(n: nat): (r: nat)
    ensures r >= 1
  {
    if n == 0 then 1 else 16 * Pow16(n - 1)
  }

  /** A UUID is its 128-bit value. */
  type Uuid = x: nat | x < Pow16(32)

  /** A lowercase hex digit. */
  predicate IsHexDigit(c: char) {
    '0' <= c <= '9' || 'a' <= c <= 'f'
  }

  /** The hex digit of `d`, lowercase. */
  function HexChar(d: nat): (c: char)
    requires d < 16
    ensures IsHexDigit(c)
  {
    if d < 10 then (48 + d) as char else (87 + d) as char
  }

  /** The low `w` hex digits of `n`, most significant first, zero padded. */
  function Hex(n: nat, w: nat): (r: string)
    ensures |r| == w
    ensures forall i :: 0 <= i < w ==> IsHexDigit(r[i])
  {
    if w == 0 then [] else Hex(n / 16, w - 1) + [HexChar(n % 16)]
  }

  lemma HexCharInjective(x: nat, y: nat)
    requires x < 16 && y < 16 && HexChar(x) == HexChar(y)
    ensures x == y
  {
    assert HexChar(x) as int == if x < 10 then 48 + x else 87 + x;
    assert HexChar(y) as int == if y < 10 then 48 + y else 87 + y;
  }

  lemma DivBelow(a: nat, p: nat)
    requires a < 16 * p
    ensures a / 16 < p
  {
  }

  /** Equal hex strings have equal leading digits and equal last digits. */
  lemma HexSplit(a: nat, b: nat, w: nat)
    requires w > 0 && Hex(a, w) == Hex(b, w)
    ensures Hex(a / 16, w - 1) == Hex(b / 16, w - 1)
    ensures HexChar(a % 16) == HexChar(b % 16)
  {
    assert Hex(a / 16, w - 1) == Hex(a, w)[..w - 1];
    assert Hex(b / 16, w - 1) == Hex(b, w)[..w - 1];
    assert HexChar(a % 16) == Hex(a, w)[w - 1];
    assert HexChar(b % 16) == Hex(b, w)[w - 1];
  }

  lemma Recompose(a: nat, b: nat)
    requires a / 16 == b / 16 && a % 16 == b % 16
    ensures a == b
  {
  }

  /** Fixed-width hex is one-to-one on the numbers that fit the width. */
  lemma {:induction false} HexInjective(a: nat, b: nat, w: nat)
    requires a < Pow16(w) && b < Pow16(w)
    requires Hex(a, w) == Hex(b, w)
    ensures a == b
    decreases w
  {
    if w > 0 {
      var p := Pow16(w - 1);
      assert Pow16(w) == 16 * p;
      var qa, qb := a / 16, b / 16;
      DivBelow(a, p);
      DivBelow(b, p);
      HexSplit(a, b, w);
      assert qa < p && qb < p;
      assert Hex(qa, w - 1) == Hex(qb, w - 1);
      HexInjective(qa, qb, w - 1);
      HexCharInjective(a % 16, b % 16);
      Recompose(a, b);
    }
  }

  /** `str(u)`: 8-4-4-4-12 hex digits joined by hyphens. */
  function UuidString(u: Uuid): (r: string)
    ensures |r| == 36
    ensures forall i :: 0 <= i < |r| ==> IsHexDigit(r[i]) || r[i] == '-'
  {
    var h := Hex(u, 32);
    h[..8] + "-" + h[8..12] + "-" + h[12..16] + "-" + h[16..20] + "-" + h[20..]
  }

  /** The hex digits of a canonical UUID string, hyphens dropped. */
  function Ungroup(r: string): string
    requires |r| == 36
  {
    r[..8] + r[9..13] + r[14..18] + r[19..23] + r[24..]
  }

  lemma UngroupUuidString(u: Uuid)
    ensures Ungroup(UuidString(u)) == Hex(u, 32)
  {
    var h := Hex(u, 32);
    var r := UuidString(u);
    assert r[..8] == h[..8];
    assert r[9..13] == h[8..12];
    assert r[14..18] == h[12..16];
    assert r[19..23] == h[16..20];
    assert r[24..] == h[20..];
    assert h == h[..8] + h[8..12] + h[12..16] + h[16..20] + h[20..];
  }

  /** Distinct UUIDs have distinct strings, so `str(doc_id)` identifies the
      document. */
  lemma UuidStringInjective(u: Uuid, v: Uuid)
    requires UuidString(u) == UuidString(v)
    ensures u == v
  {
    UngroupUuidString(u);
    UngroupUuidString(v);
    HexInjective(u, v, 32);
  }
}
