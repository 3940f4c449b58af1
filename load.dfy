/** `element.json_load` (jaseci_core/jaseci/element.py:162-166): every key
    of the decoded blob is written with `setattr`, in order.  The JSON text
    and its decoding are not modelled: the blob arrives as a record. */
module Loading {
  import opened Wrappers
  import opened Uuids
  import opened Records
  import opened Identity

  /** Names `setattr` sends to a property setter instead of an attribute. */
  const PropertyNames: set<string> := {"id", "owner_id", "timestamp"}

  predicate NoPropertyNames(a: Attrs)
  {
    forall i :: 0 <= i < |a| ==> a[i].name !in PropertyNames
  }

  /** `setattr(self, k, v)` for a decoded JSON value `v`.  The `id` and
      `timestamp` setters call `v.urn` and `v.isoformat()`, which no JSON
      value has; the `owner_id` setter accepts only a falsy value. */
  function SetAttr(a: Attrs, k: string, v: Value): Result<Attrs, PyError>
  {
    if k == "id" || k == "timestamp" then Err(AttributeError)
    else if k == "owner_id" then
      if !Truthy(v) then Ok(WithOwnerId(a, None)) else Err(AttributeError)
    else Ok(Assign(a, k, v))
  }

  /** The attributes after loading, and the exception that stopped the
      loop, if any (writes made before it stay). */
  datatype Loaded = Loaded(attrs: Attrs, error: Option<PyError>)

  function LoadAll(a: Attrs, blob: Attrs): Loaded
    decreases |blob|
  {
    if blob == [] then Loaded(a, None)
    else
      match SetAttr(a, blob[0].name, blob[0].value)
      case Err(e) => Loaded(a, Some(e))
      case Ok(a1) => LoadAll(a1, blob[1..])
  }

  /** Loading a blob of plain attribute names with no repeats assigns exactly
      the keys it holds and leaves every other attribute as it was. */
  lemma {:induction false} LoadAssigns(a: Attrs, blob: Attrs, n: string)
    requires Distinct(blob) && NoPropertyNames(blob)
    ensures LoadAll(a, blob).error.None?
    ensures Lookup(LoadAll(a, blob).attrs, n) == if n in Names(blob) then Lookup(blob, n) else Lookup(a, n)
    decreases |blob|
  {
    if blob != [] {
      var f, rest := blob[0], blob[1..];
      DistinctTail(blob);
      assert NoPropertyNames(rest) by {
        forall i | 0 <= i < |rest| ensures rest[i].name !in PropertyNames {
          assert rest[i] == blob[i + 1];
        }
      }
      assert LoadAll(a, blob) == LoadAll(Assign(a, f.name, f.value), rest);
      LoadAssigns(Assign(a, f.name, f.value), rest, n);
      AssignLookup(a, f.name, f.value, n);
      assert Names(blob) == [f.name] + Names(rest);
    }
  }

  /** Attributes already present keep their positions; new ones follow. */
  lemma {:induction false} LoadKeepsOrder(a: Attrs, blob: Attrs)
    ensures Names(a) <= Names(LoadAll(a, blob).attrs)
    decreases |blob|
  {
    if blob != [] {
      match SetAttr(a, blob[0].name, blob[0].value)
      case Err(_) =>
      case Ok(a1) =>
        if blob[0].name == "owner_id" {
          AssignNames(a, "j_owner", VNone);
        } else {
          AssignNames(a, blob[0].name, blob[0].value);
        }
        LoadKeepsOrder(a1, blob[1..]);
    }
  }

  /** One successful `setattr` keeps the record free of repeats and of
      property names. */
  lemma SetAttrShape(a: Attrs, k: string, v: Value)
    requires Distinct(a) && NoPropertyNames(a) && SetAttr(a, k, v).Ok?
    ensures Distinct(SetAttr(a, k, v).value) && NoPropertyNames(SetAttr(a, k, v).value)
  {
    var k', v' := if k == "owner_id" then "j_owner" else k, if k == "owner_id" then VNone else v;
    var a1 := Assign(a, k', v');
    assert SetAttr(a, k, v).value == a1;
    assert k' !in PropertyNames;
    AssignDistinct(a, k', v');
    AssignNames(a, k', v');
    var na, n1 := Names(a), Names(a1);
    forall i | 0 <= i < |a1| ensures a1[i].name !in PropertyNames {
      assert a1[i].name == n1[i];
      if i < |a| {
        assert n1[i] == na[i] == a[i].name;
      } else {
        assert n1[i] == k';
      }
    }
  }

  /** Loading never introduces a repeated name or a property name, even
      when it stops early. */
  lemma {:induction false} LoadPreservesShape(a: Attrs, blob: Attrs)
    requires Distinct(a) && NoPropertyNames(a)
    ensures Distinct(LoadAll(a, blob).attrs) && NoPropertyNames(LoadAll(a, blob).attrs)
    decreases |blob|
  {
    if blob != [] {
      var r := SetAttr(a, blob[0].name, blob[0].value);
      if r.Ok? {
        SetAttrShape(a, blob[0].name, blob[0].value);
        LoadPreservesShape(r.value, blob[1..]);
      }
    }
  }

  /** Writing an attribute the value it already has changes nothing. */
  lemma {:induction false} AssignSame(a: Attrs, k: string, v: Value)
    requires Lookup(a, k) == Some(v)
    ensures Assign(a, k, v) == a
  {
    assert a != [] && a == [a[0]] + a[1..];
    if a[0].name == k {
      assert a[0] == Field(k, v);
      assert Assign(a, k, v) == [Field(k, v)] + a[1..];
    } else {
      AssignSame(a[1..], k, v);
      assert Assign(a, k, v) == [a[0]] + Assign(a[1..], k, v);
    }
  }

  /** Loading values the object already holds is the identity. */
  lemma {:induction false} LoadOwnValues(a: Attrs, blob: Attrs)
    requires NoPropertyNames(blob)
    requires forall i :: 0 <= i < |blob| ==> Lookup(a, blob[i].name) == Some(blob[i].value)
    ensures LoadAll(a, blob) == Loaded(a, None)
  {
    if blob != [] {
      var f, rest := blob[0], blob[1..];
      AssignSame(a, f.name, f.value);
      assert SetAttr(a, f.name, f.value) == Ok(a);
      assert NoPropertyNames(rest) && forall i :: 0 <= i < |rest| ==> Lookup(a, rest[i].name) == Some(rest[i].value) by {
        forall i | 0 <= i < |rest|
          ensures rest[i].name !in PropertyNames && Lookup(a, rest[i].name) == Some(rest[i].value)
        {
          assert rest[i] == blob[i + 1];
        }
      }
      LoadOwnValues(a, rest);
    }
  }

  /** A blob naming the `id` or `timestamp` property stops the load there. */
  lemma LoadRejectsProperty(a: Attrs, blob: Attrs)
    requires blob != [] && blob[0].name in {"id", "timestamp"}
    ensures LoadAll(a, blob) == Loaded(a, Some(AttributeError))
  {
  }
}
