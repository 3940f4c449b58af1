/** The record `element.duplicate` (jaseci_core/jaseci/element.py:88-100)
    produces: a fresh element of the same class loads the source's detailed
    serialisation, then gets its own identifier back and a new timestamp. */
module Duplication {
  import opened Wrappers
  import opened Uuids
  import opened Records
  import opened Serialization
  import opened Identity
  import opened Loading
  import opened Equivalence

  /** The attributes every element has from its constructor on. */
  predicate HasBaseNames(a: Attrs)
  {
    "name" in Names(a) && "kind" in Names(a) && "jid" in Names(a) &&
    "j_owner" in Names(a) && "j_timestamp" in Names(a) && "j_type" in Names(a)
  }

  /** The shape of an element's record: no repeated name, no name that a
      property setter intercepts, and the constructor's attributes present. */
  predicate Shaped(a: Attrs)
  {
    Distinct(a) && NoPropertyNames(a) && HasBaseNames(a)
  }

  /** The names of a new element's attributes, in order. */
  const BaseNames: seq<string> := ["name", "kind", "jid", "j_owner", "j_timestamp", "j_type"]

  lemma InitialNames(cls: string, owner: Option<Uuid>, name: string, kind: string, id: Uuid, now: string)
    ensures Names(InitialAttrs(cls, owner, name, kind, id, now)) == BaseNames
  {
  }

  lemma BaseNamesPlain()
    ensures forall i :: 0 <= i < |BaseNames| ==> BaseNames[i] !in PropertyNames
  {
    forall i | 0 <= i < |BaseNames| ensures BaseNames[i] !in PropertyNames {
      assert |BaseNames[i]| != 2 && |BaseNames[i]| != 8 && |BaseNames[i]| != 9;
    }
  }

  /** A new element is shaped. */
  lemma InitialShaped(cls: string, owner: Option<Uuid>, name: string, kind: string, id: Uuid, now: string)
    ensures Shaped(InitialAttrs(cls, owner, name, kind, id, now))
  {
    var a := InitialAttrs(cls, owner, name, kind, id, now);
    assert Distinct(a) by {
      InitialDistinct(cls, owner, name, kind, id, now);
    }
    assert NoPropertyNames(a) by {
      InitialNames(cls, owner, name, kind, id, now);
      BaseNamesPlain();
      var ns := Names(a);
      forall i | 0 <= i < |a| ensures a[i].name !in PropertyNames {
        assert a[i].name == ns[i] == BaseNames[i];
      }
    }
    assert HasBaseNames(a) by {
      InitialNames(cls, owner, name, kind, id, now);
    }
  }

  lemma AssignKeepsNames(a: Attrs, k: string, v: Value, x: string)
    requires x in Names(a)
    ensures x in Names(Assign(a, k, v))
  {
    AssignNames(a, k, v);
  }

  /** Writing a plain attribute keeps a record shaped. */
  lemma AssignShaped(a: Attrs, k: string, v: Value)
    requires Shaped(a) && k !in PropertyNames
    ensures Shaped(Assign(a, k, v))
  {
    var r := Assign(a, k, v);
    AssignDistinct(a, k, v);
    AssignNames(a, k, v);
    var na, nr := Names(a), Names(r);
    forall i | 0 <= i < |r| ensures r[i].name !in PropertyNames {
      assert r[i].name == nr[i];
      if i < |a| { assert nr[i] == na[i] == a[i].name; }
    }
  }

  lemma PrefixMembers<T>(p: seq<T>, q: seq<T>)
    requires p <= q
    ensures forall x :: x in p ==> x in q
  {
    forall x | x in p ensures x in q {
      var i :| 0 <= i < |p| && p[i] == x;
      assert q[i] == x;
    }
  }

  /** Loading a decoded blob keeps a record shaped, even when it stops early. */
  lemma LoadShaped(a: Attrs, blob: Attrs)
    requires Shaped(a)
    ensures Shaped(LoadAll(a, blob).attrs)
  {
    var r := LoadAll(a, blob).attrs;
    LoadPreservesShape(a, blob);
    LoadKeepsOrder(a, blob);
    PrefixMembers(Names(a), Names(r));
  }

  lemma {:induction false} EmitLookup(a: Attrs, detailed: bool, n: string)
    requires Emitted(n, detailed)
    ensures Lookup(Emit(a, detailed), n) == Lookup(a, n)
  {
    if a != [] && a[0].name != n {
      EmitLookup(a[1..], detailed, n);
    }
  }

  lemma {:induction false} EmitDistinct(a: Attrs, detailed: bool)
    requires Distinct(a)
    ensures Distinct(Emit(a, detailed))
  {
    if a != [] {
      var rest := a[1..];
      DistinctTail(a);
      EmitDistinct(rest, detailed);
      if Emitted(a[0].name, detailed) {
        EmitNames(rest, detailed, a[0].name);
        DistinctCons(a[0], Emit(rest, detailed));
      }
    }
  }

  /** The attributes `duplicate` gives the copy: the detailed serialisation
      of the source loaded into a new element, then the copy's own
      identifier and the new timestamp written back. */
  function DuplicateAttrs(cls: string, a: Attrs, newId: Uuid, t0: string, now: string): Attrs
  {
    var init := InitialAttrs(cls, None, "basic", "generic", newId, t0);
    WithTimestamp(WithId(LoadAll(init, Public(a)).attrs, newId), now)
  }

  /** Every public attribute of the source other than `jid` and
      `j_timestamp` is copied into the duplicate, and the duplicate has no
      other attribute of that kind. */
  lemma DuplicateCopies(cls: string, a: Attrs, newId: Uuid, t0: string, now: string, n: string)
    requires Shaped(a)
    requires Compared(n)
    ensures Lookup(DuplicateAttrs(cls, a, newId, t0, now), n) == Lookup(a, n)
  {
    var init := InitialAttrs(cls, None, "basic", "generic", newId, t0);
    var p := Public(a);
    var l := LoadAll(init, p).attrs;
    EmitDistinct(a, true);
    assert NoPropertyNames(p);
    LoadAssigns(init, p, n);
    AssignLookup(l, "jid", VStr(Urn(newId)), n);
    AssignLookup(WithId(l, newId), "j_timestamp", VStr(now), n);
    EmitLookup(a, true, n);
    EmitNames(a, true, n);
    InitialNames(cls, None, "basic", "generic", newId, t0);
    if n !in Names(p) {
      assert n !in Names(a);
      assert n !in Names(init);
    }
  }

  /** The duplicate carries its own new identifier and the new timestamp. */
  lemma DuplicateIdentity(cls: string, a: Attrs, newId: Uuid, t0: string, now: string)
    ensures IdOf(DuplicateAttrs(cls, a, newId, t0, now)) == Ok(newId)
    ensures Lookup(DuplicateAttrs(cls, a, newId, t0, now), "j_timestamp") == Some(VStr(now))
  {
    var init := InitialAttrs(cls, None, "basic", "generic", newId, t0);
    var l := LoadAll(init, Public(a)).attrs;
    RestampedId(l, newId, now);
    AssignLookup(WithId(l, newId), "j_timestamp", VStr(now), "j_timestamp");
  }

  /** The duplicate is an element record like any other. */
  lemma DuplicateShaped(cls: string, a: Attrs, newId: Uuid, t0: string, now: string)
    ensures Shaped(DuplicateAttrs(cls, a, newId, t0, now))
  {
    var init := InitialAttrs(cls, None, "basic", "generic", newId, t0);
    InitialShaped(cls, None, "basic", "generic", newId, t0);
    var l := LoadAll(init, Public(a)).attrs;
    LoadShaped(init, Public(a));
    AssignShaped(l, "jid", VStr(Urn(newId)));
    AssignShaped(WithId(l, newId), "j_timestamp", VStr(now));
  }

  /** The duplicate and its source are equivalent, in both directions. */
  lemma DuplicateEquivalent(cls: string, a: Attrs, newId: Uuid, t0: string, now: string)
    requires Shaped(a)
    ensures Equivalent(DuplicateAttrs(cls, a, newId, t0, now), a) == Ok(true)
    ensures Equivalent(a, DuplicateAttrs(cls, a, newId, t0, now)) == Ok(true)
  {
    var d := DuplicateAttrs(cls, a, newId, t0, now);
    DuplicateShaped(cls, a, newId, t0, now);
    DuplicateCopies(cls, a, newId, t0, now, "j_type");
    forall i | 0 <= i < |d| && Compared(d[i].name) ensures Lookup(a, d[i].name) == Some(d[i].value) {
      DuplicateCopies(cls, a, newId, t0, now, d[i].name);
      LookupDistinct(d, i);
    }
    forall i | 0 <= i < |a| && Compared(a[i].name) ensures Lookup(d, a[i].name) == Some(a[i].value) {
      DuplicateCopies(cls, a, newId, t0, now, a[i].name);
      LookupDistinct(a, i);
    }
    EquivalentTrue(d, a);
    EquivalentTrue(a, d);
  }

  /** What `duplicate` promises of the copy's record, gathered. */
  lemma DuplicateFacts(cls: string, a: Attrs, newId: Uuid, t0: string, now: string)
    requires Shaped(a)
    ensures IdOf(DuplicateAttrs(cls, a, newId, t0, now)) == Ok(newId)
    ensures Lookup(DuplicateAttrs(cls, a, newId, t0, now), "j_timestamp") == Some(VStr(now))
    ensures forall n :: Compared(n) ==> Lookup(DuplicateAttrs(cls, a, newId, t0, now), n) == Lookup(a, n)
    ensures Equivalent(DuplicateAttrs(cls, a, newId, t0, now), a) == Ok(true)
    ensures Equivalent(a, DuplicateAttrs(cls, a, newId, t0, now)) == Ok(true)
  {
    DuplicateIdentity(cls, a, newId, t0, now);
    DuplicateEquivalent(cls, a, newId, t0, now);
    forall n | Compared(n) ensures Lookup(DuplicateAttrs(cls, a, newId, t0, now), n) == Lookup(a, n) {
      DuplicateCopies(cls, a, newId, t0, now, n);
    }
  }
}
