/** Python string operations the model relies on: `str.split(sep)` with a
    one-character separator, its inverse `sep.join`, and the decimal text of
    integers (`str(n)` and `int(s)`). */
module Strings {
  import opened Wrappers

  /** Index of the first `c` in `s`, if any. */
  function IndexOf(s: string, c: char): (r: Option<nat>)
    ensures r.Some? ==> r.value < |s| && s[r.value] == c && c !in s[..r.value]
    ensures r.None? <==> c !in s
  {
    if s == [] then None
    else if s[0] == c then Some(0)
    else
      match IndexOf(s[1..], c)
      case None => None
      case Some(k) =>
        assert s[..k + 1] == [s[0]] + s[1..][..k];
        Some(k + 1)
  }

  /** `s.split(c)`: the pieces between separators, possibly empty; a string
      without the separator splits into itself. */
  function Split(s: string, c: char): (parts: seq<string>)
    ensures |parts| >= 1
    ensures forall i :: 0 <= i < |parts| ==> c !in parts[i]
    decreases |s|
  {
    match IndexOf(s, c)
    case None => [s]
    case Some(k) => [s[..k]] + Split(s[k + 1..], c)
  }

  /** `c.join(parts)`. */
  function Join(parts: seq<string>, c: char): string
  {
    if parts == [] then ""
    else if |parts| == 1 then parts[0]
    else parts[0] + [c] + Join(parts[1..], c)
  }

  /** Joining the pieces of a split gives the string back. */
  lemma {:induction false} JoinSplit(s: string, c: char)
    ensures Join(Split(s, c), c) == s
    decreases |s|
  {
    match IndexOf(s, c)
    case None =>
    case Some(k) =>
      var rest := s[k + 1..];
      var tail := Split(rest, c);
      JoinSplit(rest, c);
      var parts := Split(s, c);
      assert parts == [s[..k]] + tail;
      assert |parts| > 1 && parts[0] == s[..k] && parts[1..] == tail;
      assert Join(parts, c) == s[..k] + [c] + Join(tail, c);
      assert s == s[..k] + [c] + rest;
  }

  lemma {:induction false} IndexOfAfter(p: string, c: char, rest: string)
    requires c !in p
    ensures IndexOf(p + [c] + rest, c) == Some(|p|)
  {
    if p != [] {
      assert (p + [c] + rest)[1..] == p[1..] + [c] + rest;
      IndexOfAfter(p[1..], c, rest);
    }
  }

  /** Splitting a join of separator-free pieces gives the pieces back. */
  lemma {:induction false} SplitJoin(parts: seq<string>, c: char)
    requires |parts| >= 1
    requires forall i :: 0 <= i < |parts| ==> c !in parts[i]
    ensures Split(Join(parts, c), c) == parts
  {
    if |parts| > 1 {
      var p := parts[0];
      var rest := Join(parts[1..], c);
      assert forall i :: 0 <= i < |parts[1..]| ==> parts[1..][i] == parts[i + 1];
      SplitJoin(parts[1..], c);
      IndexOfAfter(p, c, rest);
      var s := p + [c] + rest;
      assert Join(parts, c) == s;
      assert s[..|p|] == p && s[|p| + 1..] == rest;
      assert Split(s, c) == [p] + Split(rest, c);
      assert parts == [p] + parts[1..];
    }
  }

  // ---------------------------------------------------------------------
  // Decimal text of integers
  // ---------------------------------------------------------------------

  /** The digit character of a value below ten. */
  function Digit(d: nat): (c: char)
    requires d < 10
    ensures '0' <= c <= '9' && c as int - '0' as int == d
  {
    ('0' as int + d) as char
  }

  /** The decimal digits of `n`, without leading zeros. */
  function Digits(n: nat): (s: string)
    ensures |s| >= 1
    ensures forall i :: 0 <= i < |s| ==> '0' <= s[i] <= '9'
  {
    if n < 10 then [Digit(n)] else Digits(n / 10) + [Digit(n % 10)]
  }

  /** `str(n)` for an integer. */
  function IntText(n: int): string
  {
    if n < 0 then "-" + Digits(-n) else Digits(n)
  }

  /** The number a non-empty string of decimal digits denotes. */
  function DigitsValue(s: string): (r: Option<nat>)
    ensures r.Some? <==> |s| >= 1 && forall i :: 0 <= i < |s| ==> '0' <= s[i] <= '9'
  {
    if s == [] then None
    else
      var d := s[|s| - 1];
      if !('0' <= d <= '9') then None
      else if |s| == 1 then Some(d as int - '0' as int)
      else
        var init := s[..|s| - 1];
        assert forall i :: 0 <= i < |init| ==> init[i] == s[i];
        match DigitsValue(init)
        case None => None
        case Some(hi) => Some(hi * 10 + (d as int - '0' as int))
  }

  /** `int(s)` for text of an optional sign followed by decimal digits;
      `None` stands for the `ValueError` raised on anything else. */
  function ParseInt(s: string): Option<int>
  {
    if |s| >= 1 && s[0] == '-' then
      match DigitsValue(s[1..])
      case None => None
      case Some(n) => Some(-(n as int))
    else
      var body := if |s| >= 1 && s[0] == '+' then s[1..] else s;
      match DigitsValue(body)
      case None => None
      case Some(n) => Some(n as int)
  }

  lemma {:induction false} DigitsRoundTrip(n: nat)
    ensures DigitsValue(Digits(n)) == Some(n)
  {
    var s := Digits(n);
    if n >= 10 {
      var hi := Digits(n / 10);
      assert s == hi + [Digit(n % 10)];
      assert s[..|s| - 1] == hi;
      DigitsRoundTrip(n / 10);
      assert DigitsValue(s) == Some(n / 10 * 10 + n % 10);
    } else {
      assert s == [Digit(n)];
    }
  }

  /** `int(str(n)) == n`. */
  lemma ParseIntText(n: int)
    ensures ParseInt(IntText(n)) == Some(n)
  {
    var t := IntText(n);
    if n < 0 {
      var d := Digits(-n);
      assert t == "-" + d;
      assert t[1..] == d;
      DigitsRoundTrip(-n);
    } else {
      var d := Digits(n);
      assert t == d && t[0] != '-' && t[0] != '+';
      DigitsRoundTrip(n);
    }
  }

  /** Removes the leading spaces (`str.lstrip()` on text whose only white
      space is the space character). */
  function LStrip(s: string): (r: string)
    ensures |r| <= |s| && r == s[|s| - |r|..]
    ensures forall i :: 0 <= i < |s| - |r| ==> s[i] == ' '
    ensures |r| == 0 || r[0] != ' '
  {
    if s != [] && s[0] == ' ' then LStrip(s[1..]) else s
  }
}
