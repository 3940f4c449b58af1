/** 128-bit universally unique identifiers and their URN text form.

    An element keeps its identity as text (`jid = uuid.uuid4().urn`) and
    reads it back through `uuid.UUID(jid)`.  This module gives the text form
    `urn:uuid:xxxxxxxx-xxxx-xxxx-xxxx-xxxxxxxxxxxx` (lower-case hex, the
    layout of Python's `UUID.urn`) and a parser for the canonical spellings,
    and proves that parsing the URN of an identifier gives it back. */
module Uuids {
  import opened Wrappers

  const UuidBound: int := 0x1_0000_0000_0000_0000_0000_0000_0000_0000

  /** A 128-bit identifier. */
  newtype Uuid = x: int | 0 <= x < 0x1_0000_0000_0000_0000_0000_0000_0000_0000

  const HexAlphabet: string := "0123456789abcdef"

  function Pow16(k: nat): (p: nat)
    ensures p >= 1
  {
    if k == 0 then 1 else 16 * Pow16(k - 1)
  }

  lemma {:induction false} Pow16Add(a: nat, b: nat)
    ensures Pow16(a + b) == Pow16(a) * Pow16(b)
  {
    if a > 0 {
      Pow16Add(a - 1, b);
      assert Pow16(a + b) == 16 * Pow16(a - 1 + b);
    }
  }

  lemma Pow16Of32()
    ensures Pow16(32) == UuidBound
  {
    assert Pow16(2) == 256;
    Pow16Add(2, 2);
    Pow16Add(4, 4);
    Pow16Add(8, 8);
    Pow16Add(16, 16);
  }

  /** The last `k` hexadecimal digits of `n`, most significant first. */
  function HexDigits(n: nat, k: nat): (s: string)
    ensures |s| == k
  {
    if k == 0 then "" else HexDigits(n / 16, k - 1) + [HexAlphabet[n % 16]]
  }

  /** Every character of the digit string is a lower-case hex digit. */
  lemma {:induction false} HexDigitsAlphabet(n: nat, k: nat)
    ensures forall i :: 0 <= i < k ==> HexDigits(n, k)[i] in HexAlphabet
  {
    if k > 0 {
      var hi := HexDigits(n / 16, k - 1);
      HexDigitsAlphabet(n / 16, k - 1);
      assert HexDigits(n, k) == hi + [HexAlphabet[n % 16]];
    }
  }

  /** The value of one hexadecimal digit; Python accepts both cases. */
  function DigitValue(c: char): (d: Option<nat>)
    ensures d.Some? ==> d.value < 16
    ensures d.Some? <==> ('0' <= c <= '9' || 'a' <= c <= 'f' || 'A' <= c <= 'F')
  {
    if '0' <= c <= '9' then Some(c as int - '0' as int)
    else if 'a' <= c <= 'f' then Some(c as int - 'a' as int + 10)
    else if 'A' <= c <= 'F' then Some(c as int - 'A' as int + 10)
    else None
  }

  /** The number a string of hexadecimal digits denotes (`int(s, 16)` for
      plain digit strings). */
  function ParseHex(s: string): (r: Option<nat>)
    ensures r.Some? ==> r.value < Pow16(|s|)
  {
    if s == [] then Some(0)
    else
      var init := s[..|s| - 1];
      match ParseHex(init)
      case None => None
      case Some(hi) =>
        match DigitValue(s[|s| - 1])
        case None => None
        case Some(d) => Some(hi * 16 + d)
  }

  lemma DigitValueOfAlphabet(d: nat)
    requires d < 16
    ensures DigitValue(HexAlphabet[d]) == Some(d)
  {
  }

  lemma ParseHexSnoc(t: string, c: char, hi: nat, d: nat)
    requires ParseHex(t) == Some(hi) && DigitValue(c) == Some(d)
    ensures ParseHex(t + [c]) == Some(hi * 16 + d)
  {
    var s := t + [c];
    assert s[..|s| - 1] == t && s[|s| - 1] == c;
  }

  lemma {:induction false} ParseHexDigits(n: nat, k: nat)
    requires n < Pow16(k)
    ensures ParseHex(HexDigits(n, k)) == Some(n)
  {
    if k > 0 {
      var q, d := n / 16, n % 16;
      var hi, c := HexDigits(q, k - 1), HexAlphabet[d];
      assert HexDigits(n, k) == hi + [c];
      assert q < Pow16(k - 1) by {
        assert Pow16(k) == 16 * Pow16(k - 1);
      }
      ParseHexDigits(q, k - 1);
      assert DigitValue(c) == Some(d) by {
        DigitValueOfAlphabet(d);
      }
      ParseHexSnoc(hi, c, q, d);
    }
  }

  /** `str(u)`: 32 hex digits grouped 8-4-4-4-12. */
  function Canonical(u: Uuid): (s: string)
    ensures |s| == 36
  {
    Grouped(HexDigits(u as nat, 32))
  }

  function Grouped(h: string): (s: string)
    requires |h| == 32
    ensures |s| == 36
  {
    h[..8] + "-" + h[8..12] + "-" + h[12..16] + "-" + h[16..20] + "-" + h[20..]
  }

  /** Removing the four hyphens of the grouped form gives the digits back. */
  lemma Ungrouped(h: string)
    requires |h| == 32
    ensures var b := Grouped(h);
      b[8] == '-' && b[13] == '-' && b[18] == '-' && b[23] == '-' &&
      b[..8] + b[9..13] + b[14..18] + b[19..23] + b[24..] == h
  {
    var b := Grouped(h);
    assert b[..8] == h[..8];
    assert b[9..13] == h[8..12];
    assert b[14..18] == h[12..16];
    assert b[19..23] == h[16..20];
    assert b[24..] == h[20..];
    assert h == h[..8] + h[8..12] + h[12..16] + h[16..20] + h[20..];
  }

  const UrnPrefix: string := "urn:uuid:"

  /** `u.urn`, the form an element stores in `jid` and `j_owner`. */
  function Urn(u: Uuid): (s: string)
  {
    UrnPrefix + Canonical(u)
  }

  /** `uuid.UUID(s)` for `s` in canonical form, with or without the
      `urn:uuid:` prefix; `None` stands for the `ValueError` it raises. */
  function Parse(s: string): (r: Option<Uuid>)
  {
    var body := if |s| >= 9 && s[..9] == UrnPrefix then s[9..] else s;
    if |body| != 36 || body[8] != '-' || body[13] != '-' || body[18] != '-' || body[23] != '-' then None
    else
      var hex := body[..8] + body[9..13] + body[14..18] + body[19..23] + body[24..];
      match ParseHex(hex)
      case None => None
      case Some(n) =>
        Pow16Of32();
        Some(n as Uuid)
  }

  /** Reading back the URN of an identifier gives the identifier: the
      `id` getter undoes the `id` setter. */
  lemma {:induction false} ParseUrn(u: Uuid)
    ensures Parse(Urn(u)) == Some(u)
  {
    var s := Urn(u);
    var body := Canonical(u);
    var h := HexDigits(u as nat, 32);
    assert s[..9] == UrnPrefix && s[9..] == body;
    Ungrouped(h);
    Pow16Of32();
    ParseHexDigits(u as nat, 32);
  }

  /** Distinct identifiers have distinct URNs. */
  lemma UrnInjective(u: Uuid, v: Uuid)
    requires Urn(u) == Urn(v)
    ensures u == v
  {
    ParseUrn(u);
    ParseUrn(v);
  }
}
