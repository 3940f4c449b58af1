/** The field selection of `element.jsci_payload`
    (jaseci_core/jaseci/element.py:115-129): the public attributes that a
    derived class adds to those every element has. */
module Payload {
  import opened Wrappers
  import opened Records
  import opened Loading

  /** The names `dir()` shows on a plain element: the attributes its
      constructor sets and the members element.py defines.  Names beginning
      with `_` are excluded separately. */
  const ElementMembers: set<string> := {
    "name", "kind", "jid", "j_owner", "j_timestamp", "j_type",
    "id", "owner_id", "timestamp",
    "duplicate", "is_equivalent", "jsci_payload", "serialize", "json", "json_load"}

  predicate InPayload(name: string)
  {
    !IsPrivate(name) && name !in ElementMembers
  }

  /** The selected attributes with their values, in attribute order. */
  function PayloadOf(a: Attrs): (p: Attrs)
    ensures forall i :: 0 <= i < |p| ==> InPayload(p[i].name) && p[i] in a
  {
    if a == [] then []
    else if InPayload(a[0].name) then [a[0]] + PayloadOf(a[1..])
    else PayloadOf(a[1..])
  }

  lemma PayloadStep(a: Attrs, i: nat)
    requires i < |a|
    ensures PayloadOf(a[i..]) == (if InPayload(a[i].name) then [a[i]] else []) + PayloadOf(a[i + 1..])
  {
    assert a[i..][0] == a[i] && a[i..][1..] == a[i + 1..];
  }

  /** An attribute is in the payload exactly when it is public and not one
      every element has. */
  lemma {:induction false} PayloadNames(a: Attrs, n: string)
    ensures n in Names(PayloadOf(a)) <==> n in Names(a) && InPayload(n)
  {
    if a != [] {
      PayloadNames(a[1..], n);
      assert Names(a) == [a[0].name] + Names(a[1..]);
      if InPayload(a[0].name) {
        assert Names(PayloadOf(a)) == [a[0].name] + Names(PayloadOf(a[1..]));
      }
    }
  }

  /** Each payload entry carries the value `getattr` reads from the object. */
  lemma PayloadValueAt(a: Attrs, i: nat)
    requires Distinct(a) && i < |PayloadOf(a)|
    ensures Lookup(a, PayloadOf(a)[i].name) == Some(PayloadOf(a)[i].value)
  {
    var p := PayloadOf(a);
    var j :| 0 <= j < |a| && a[j] == p[i];
    LookupDistinct(a, j);
  }

  lemma TakeStep<T>(p: seq<T>, k: nat)
    requires k < |p|
    ensures p[..k + 1] == p[..k] + [p[k]]
  {
  }

  /** One step of reading the selected names back with `getattr`. */
  lemma PayloadGetattr(a: Attrs, fields: seq<string>, k: nat)
    requires Distinct(a) && fields == Names(PayloadOf(a)) && k < |fields|
    ensures Lookup(a, fields[k]).Some?
    ensures PayloadOf(a)[..k + 1] == PayloadOf(a)[..k] + [Field(fields[k], Lookup(a, fields[k]).value)]
  {
    var p := PayloadOf(a);
    PayloadValueAt(a, k);
    assert fields[k] == p[k].name;
    assert Field(fields[k], Lookup(a, fields[k]).value) == p[k];
    TakeStep(p, k);
  }

  lemma PayloadValues(a: Attrs)
    requires Distinct(a)
    ensures forall i :: 0 <= i < |PayloadOf(a)| ==> Lookup(a, PayloadOf(a)[i].name) == Some(PayloadOf(a)[i].value)
  {
    forall i | 0 <= i < |PayloadOf(a)| ensures Lookup(a, PayloadOf(a)[i].name) == Some(PayloadOf(a)[i].value) {
      PayloadValueAt(a, i);
    }
  }

  /** The payload never names a property setter, so loading it back into
      the object it came from succeeds and changes nothing. */
  lemma PayloadLoadsBack(a: Attrs)
    requires Distinct(a)
    ensures NoPropertyNames(PayloadOf(a))
    ensures LoadAll(a, PayloadOf(a)) == Loaded(a, None)
  {
    PayloadValues(a);
    LoadOwnValues(a, PayloadOf(a));
  }
}
