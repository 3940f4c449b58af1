/** `element.is_equivalent(obj)` (jaseci_core/jaseci/element.py:102-113):
    two objects are equivalent when they have the same `j_type` and every
    public attribute of the first, other than `jid` and `j_timestamp`,
    equals the attribute of the same name on the second. */
module Equivalence {
  import opened Wrappers
  import opened Uuids
  import opened Records
  import opened Identity

  /** The attributes the comparison loop looks at. */
  predicate Compared(name: string)
  {
    !IsPrivate(name) && name != "jid" && name != "j_timestamp"
  }

  /** The loop over `vars(self)`: the first differing attribute answers
      `False`, the first one `obj` lacks raises. */
  function CompareFrom(fs: Attrs, b: Attrs): Result<bool, PyError>
  {
    if fs == [] then Ok(true)
    else if !Compared(fs[0].name) then CompareFrom(fs[1..], b)
    else
      match Lookup(b, fs[0].name)
      case None => Err(AttributeError)
      case Some(w) => if fs[0].value != w then Ok(false) else CompareFrom(fs[1..], b)
  }

  function Equivalent(a: Attrs, b: Attrs): Result<bool, PyError>
  {
    match (Lookup(a, "j_type"), Lookup(b, "j_type"))
    case (None, _) => Err(AttributeError)
    case (_, None) => Err(AttributeError)
    case (Some(t), Some(u)) => if t != u then Ok(false) else CompareFrom(a, b)
  }

  /** Every compared attribute of `fs` is present in `b` with the same value. */
  predicate Matches(fs: Attrs, b: Attrs)
  {
    forall i :: 0 <= i < |fs| && Compared(fs[i].name) ==> Lookup(b, fs[i].name) == Some(fs[i].value)
  }

  lemma {:induction false} CompareFromTrue(fs: Attrs, b: Attrs)
    ensures CompareFrom(fs, b) == Ok(true) <==> Matches(fs, b)
  {
    if fs != [] {
      CompareFromTrue(fs[1..], b);
      assert forall i :: 1 <= i < |fs| ==> fs[i] == fs[1..][i - 1];
      if Matches(fs[1..], b) && (Compared(fs[0].name) ==> Lookup(b, fs[0].name) == Some(fs[0].value)) {
        forall i | 0 <= i < |fs| && Compared(fs[i].name) ensures Lookup(b, fs[i].name) == Some(fs[i].value) {
          if i > 0 { assert fs[i] == fs[1..][i - 1]; }
        }
      }
    }
  }

  /** `is_equivalent` answers `True` exactly when both objects have the same
      `j_type` and every compared attribute of the first is found, equal, on
      the second. */
  lemma EquivalentTrue(a: Attrs, b: Attrs)
    ensures Equivalent(a, b) == Ok(true) <==>
      Lookup(a, "j_type").Some? && Lookup(a, "j_type") == Lookup(b, "j_type") && Matches(a, b)
  {
    CompareFromTrue(a, b);
  }

  /** The comparison raises only when an attribute it reads is missing. */
  lemma {:induction false} CompareFromRaises(fs: Attrs, b: Attrs)
    requires CompareFrom(fs, b).Err?
    ensures CompareFrom(fs, b) == Err(AttributeError)
    ensures exists i :: 0 <= i < |fs| && Compared(fs[i].name) && fs[i].name !in Names(b)
  {
    CompareFromTrue(fs, b);
    if !Compared(fs[0].name) || Lookup(b, fs[0].name).Some? {
      CompareFromRaises(fs[1..], b);
      var i :| 0 <= i < |fs[1..]| && Compared(fs[1..][i].name) && fs[1..][i].name !in Names(b);
      assert fs[i + 1] == fs[1..][i];
    } else {
      assert Compared(fs[0].name) && fs[0].name !in Names(b);
    }
  }

  /** When every compared attribute is present in `b`, the comparison does
      not raise. */
  lemma {:induction false} CompareFromDefined(fs: Attrs, b: Attrs)
    requires forall i :: 0 <= i < |fs| && Compared(fs[i].name) ==> fs[i].name in Names(b)
    ensures CompareFrom(fs, b).Ok?
  {
    if fs != [] {
      var t := fs[1..];
      assert forall i :: 0 <= i < |t| ==> t[i] == fs[i + 1];
      CompareFromDefined(t, b);
    }
  }

  /** Two objects of the same type, the second having every compared
      attribute of the first, are equivalent exactly when they match. */
  lemma EquivalentDefined(a: Attrs, b: Attrs)
    requires Lookup(a, "j_type").Some? && Lookup(a, "j_type") == Lookup(b, "j_type")
    requires forall i :: 0 <= i < |a| && Compared(a[i].name) ==> a[i].name in Names(b)
    ensures Equivalent(a, b) == Ok(Matches(a, b))
  {
    CompareFromDefined(a, b);
    CompareFromTrue(a, b);
    assert Equivalent(a, b) == CompareFrom(a, b);
    var c := CompareFrom(a, b);
    assert c.value <==> Matches(a, b);
  }

  /** Objects of different type are never equivalent. */
  lemma TypeMismatch(a: Attrs, b: Attrs)
    requires Lookup(a, "j_type").Some? && Lookup(b, "j_type").Some?
    requires Lookup(a, "j_type") != Lookup(b, "j_type")
    ensures Equivalent(a, b) == Ok(false)
  {
  }

  /** Every object that has a type is equivalent to itself. */
  lemma Reflexive(a: Attrs)
    requires Distinct(a) && "j_type" in Names(a)
    ensures Equivalent(a, a) == Ok(true)
  {
    forall i | 0 <= i < |a| && Compared(a[i].name) ensures Lookup(a, a[i].name) == Some(a[i].value) {
      LookupDistinct(a, i);
    }
    EquivalentTrue(a, a);
  }

  /** What `obj` holds under the compared names: the comparison depends on
      nothing else of it. */
  ghost predicate SameCompared(b: Attrs, b': Attrs)
  {
    forall n :: Compared(n) ==> Lookup(b, n) == Lookup(b', n)
  }

  lemma {:induction false} CompareFromCongruent(fs: Attrs, b: Attrs, b': Attrs)
    requires SameCompared(b, b')
    ensures CompareFrom(fs, b) == CompareFrom(fs, b')
  {
    if fs != [] {
      CompareFromCongruent(fs[1..], b, b');
    }
  }

  /** Writing an attribute the loop skips changes nothing it visits. */
  lemma {:induction false} CompareFromSkipsAssign(fs: Attrs, k: string, v: Value, b: Attrs)
    requires !Compared(k)
    ensures CompareFrom(Assign(fs, k, v), b) == CompareFrom(fs, b)
  {
    if fs != [] && fs[0].name != k {
      CompareFromSkipsAssign(fs[1..], k, v, b);
      assert Assign(fs, k, v)[1..] == Assign(fs[1..], k, v);
    }
  }

  lemma AssignSameCompared(b: Attrs, k: string, v: Value)
    requires !Compared(k)
    ensures SameCompared(Assign(b, k, v), b)
  {
    forall n | Compared(n) ensures Lookup(Assign(b, k, v), n) == Lookup(b, n) {
      AssignLookup(b, k, v, n);
    }
  }

  /** Giving either object another identifier or timestamp does not change
      the answer: two objects that differ only in `jid` and `j_timestamp`
      are equivalent exactly when the originals are. */
  lemma IgnoresIdentity(a: Attrs, b: Attrs, u: Uuid, t: string, u': Uuid, t': string)
    ensures Equivalent(WithTimestamp(WithId(a, u), t), WithTimestamp(WithId(b, u'), t')) == Equivalent(a, b)
  {
    var a1 := WithId(a, u);
    var a2 := WithTimestamp(a1, t);
    var b1 := WithId(b, u');
    var b2 := WithTimestamp(b1, t');
    AssignLookup(a, "jid", VStr(Urn(u)), "j_type");
    AssignLookup(a1, "j_timestamp", VStr(t), "j_type");
    AssignLookup(b, "jid", VStr(Urn(u')), "j_type");
    AssignLookup(b1, "j_timestamp", VStr(t'), "j_type");
    CompareFromSkipsAssign(a, "jid", VStr(Urn(u)), b2);
    CompareFromSkipsAssign(a1, "j_timestamp", VStr(t), b2);
    AssignSameCompared(b, "jid", VStr(Urn(u')));
    AssignSameCompared(b1, "j_timestamp", VStr(t'));
    CompareFromCongruent(a, b2, b);
  }
}
