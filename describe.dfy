/** `element.__str__` (jaseci_core/jaseci/element.py:168-173): the type,
    kind, name and identifier joined by colons.  The attributes are read
    left to right, and each is concatenated before the next is read, so a
    missing attribute raises `AttributeError` and a non-string one raises
    `TypeError` as soon as it is reached. */
module Describe {
  import opened Wrappers
  import opened Uuids
  import opened Records
  import opened Strings

  /** One operand of the concatenation. */
  function TextOf(a: Attrs, n: string): Result<string, PyError>
  {
    match Lookup(a, n)
    case None => Err(AttributeError)
    case Some(v) => if v.VStr? then Ok(v.s) else Err(TypeError)
  }

  function Str(a: Attrs): Result<string, PyError>
  {
    var t :- TextOf(a, "j_type");
    var k :- TextOf(a, "kind");
    var n :- TextOf(a, "name");
    var j :- TextOf(a, "jid");
    Ok(t + ":" + k + ":" + n + ":" + j)
  }

  /** The description exists exactly when all four attributes are strings. */
  lemma StrDefined(a: Attrs)
    ensures Str(a).Ok? <==>
      TextOf(a, "j_type").Ok? && TextOf(a, "kind").Ok? && TextOf(a, "name").Ok? && TextOf(a, "jid").Ok?
  {
  }

  lemma StrOf(a: Attrs, t: string, k: string, n: string, j: string)
    requires TextOf(a, "j_type") == Ok(t) && TextOf(a, "kind") == Ok(k)
    requires TextOf(a, "name") == Ok(n) && TextOf(a, "jid") == Ok(j)
    ensures Str(a) == Ok(t + ":" + k + ":" + n + ":" + j)
  {
  }

  lemma HexHasNoColon(n: nat, k: nat)
    ensures ':' !in HexDigits(n, k)
  {
    var h := HexDigits(n, k);
    HexDigitsAlphabet(n, k);
    forall i | 0 <= i < |h| ensures h[i] != ':' {
      assert h[i] in HexAlphabet;
    }
  }

  lemma CanonicalHasNoColon(u: Uuid)
    ensures ':' !in Canonical(u)
  {
    var h := HexDigits(u as nat, 32);
    HexHasNoColon(u as nat, 32);
    var g := Grouped(h);
    forall i | 0 <= i < |g| ensures g[i] != ':' {
      if i < 8 { assert g[i] == h[i]; }
      else if 8 < i < 13 { assert g[i] == h[i - 1]; }
      else if 13 < i < 18 { assert g[i] == h[i - 2]; }
      else if 18 < i < 23 { assert g[i] == h[i - 3]; }
      else if 23 < i { assert g[i] == h[i - 4]; }
    }
  }

  lemma JoinDescription(t: string, k: string, n: string, c: string)
    ensures Join([t, k, n, "urn", "uuid", c], ':') == t + ":" + k + ":" + n + ":" + (UrnPrefix + c)
  {
    var parts := [t, k, n, "urn", "uuid", c];
    var j4 := Join(parts[4..], ':');
    assert parts[4..][0] == "uuid" && parts[4..][1..] == [c];
    assert Join([c], ':') == c;
    assert j4 == "uuid" + ":" + c;
    var j3 := Join(parts[3..], ':');
    assert parts[3..][1..] == parts[4..];
    assert j3 == "urn" + ":" + j4;
    assert j3 == UrnPrefix + c;
    var j2 := Join(parts[2..], ':');
    assert parts[2..][1..] == parts[3..];
    assert j2 == n + ":" + j3;
    var j1 := Join(parts[1..], ':');
    assert parts[1..][1..] == parts[2..];
    assert j1 == k + ":" + j2;
    assert Join(parts, ':') == t + ":" + j1;
  }

  lemma SplitJoined(t: string, k: string, n: string, c: string)
    requires ':' !in t && ':' !in k && ':' !in n && ':' !in c
    ensures Split(t + ":" + k + ":" + n + ":" + (UrnPrefix + c), ':') == [t, k, n, "urn", "uuid", c]
  {
    var parts := [t, k, n, "urn", "uuid", c];
    JoinDescription(t, k, n, c);
    forall i | 0 <= i < |parts| ensures ':' !in parts[i] {
      if i == 3 { assert parts[i] == "urn"; } else if i == 4 { assert parts[i] == "uuid"; }
    }
    SplitJoin(parts, ':');
  }

  /** When type, kind and name hold no colon, splitting the description at
      its colons gives them back, followed by the three parts of the URN. */
  lemma SplitDescription(a: Attrs, t: string, k: string, n: string, u: Uuid)
    requires TextOf(a, "j_type") == Ok(t) && TextOf(a, "kind") == Ok(k) && TextOf(a, "name") == Ok(n)
    requires Lookup(a, "jid") == Some(VStr(Urn(u)))
    requires ':' !in t && ':' !in k && ':' !in n
    ensures Str(a).Ok?
    ensures Split(Str(a).value, ':') == [t, k, n, "urn", "uuid", Canonical(u)]
  {
    var c := Canonical(u);
    CanonicalHasNoColon(u);
    assert TextOf(a, "jid") == Ok(UrnPrefix + c);
    StrOf(a, t, k, n, UrnPrefix + c);
    SplitJoined(t, k, n, c);
  }
}
