/** The attribute record of a Jaseci object: what `vars(self)` holds, minus
    the storage hook.  Python keeps instance attributes in insertion order,
    and that order decides which of several failures `serialize`,
    `is_equivalent` and `json_load` run into first, so the record is an
    ordered list of named fields rather than a map. */
module Records {
  import opened Wrappers
  import opened Uuids

  /** The JSON-compatible values an attribute can hold.  `VIds` is an
      `id_list` (a list of object identifiers); `VDict` is a plain dict such
      as `context`. */
  datatype Value =
    | VNone
    | VInt(i: int)
    | VStr(s: string)
    | VList(items: seq<Value>)
    | VDict(entries: map<string, Value>)
    | VIds(ids: seq<Uuid>)

  /** The Python exceptions the modelled code can raise. */
  datatype PyError = AttributeError | KeyError | TypeError | ValueError | NotFound(id: Uuid)

  datatype Field = Field(name: string, value: Value)

  type Attrs = seq<Field>

  /** Python truthiness of a value (`not v` is `!Truthy(v)`). */
  predicate Truthy(v: Value)
  {
    match v
    case VNone => false
    case VInt(i) => i != 0
    case VStr(s) => s != ""
    case VList(items) => items != []
    case VDict(m) => m != map[]
    case VIds(ids) => ids != []
  }

  /** Attribute names that start with `_` are private to the object. */
  predicate IsPrivate(name: string)
  {
    |name| > 0 && name[0] == '_'
  }

  function Names(a: Attrs): (ns: seq<string>)
    ensures |ns| == |a|
    ensures forall i :: 0 <= i < |a| ==> ns[i] == a[i].name
  {
    if a == [] then [] else [a[0].name] + Names(a[1..])
  }

  /** No name occurs twice, as in a Python dict. */
  predicate Distinct(a: Attrs)
  {
    forall i, j :: 0 <= i < j < |a| ==> a[i].name != a[j].name
  }

  lemma DistinctTail(a: Attrs)
    requires Distinct(a) && a != []
    ensures Distinct(a[1..]) && a[0].name !in Names(a[1..])
  {
    var rest := a[1..];
    forall i, j | 0 <= i < j < |rest| ensures rest[i].name != rest[j].name {
      assert rest[i] == a[i + 1] && rest[j] == a[j + 1];
    }
    forall i | 0 <= i < |rest| ensures Names(rest)[i] != a[0].name {
      assert rest[i] == a[i + 1];
    }
  }

  lemma DistinctCons(f: Field, r: Attrs)
    requires Distinct(r) && f.name !in Names(r)
    ensures Distinct([f] + r)
  {
    var a := [f] + r;
    forall i, j | 0 <= i < j < |a| ensures a[i].name != a[j].name {
      assert a[j] == r[j - 1];
      if i == 0 {
        assert Names(r)[j - 1] == r[j - 1].name;
      } else {
        assert a[i] == r[i - 1];
      }
    }
  }

  /** `getattr(self, k)` on an instance attribute; `None` when absent. */
  function Lookup(a: Attrs, k: string): (r: Option<Value>)
    ensures r.Some? <==> k in Names(a)
    ensures r.Some? ==> Field(k, r.value) in a
  {
    if a == [] then None
    else if a[0].name == k then Some(a[0].value)
    else
      var r := Lookup(a[1..], k);
      assert a == [a[0]] + a[1..];
      r
  }

  /** In a record without repeated names, every field is what lookup finds. */
  lemma {:induction false} LookupDistinct(a: Attrs, i: nat)
    requires Distinct(a) && i < |a|
    ensures Lookup(a, a[i].name) == Some(a[i].value)
  {
    if i > 0 {
      assert a[0].name != a[i].name;
      assert a[1..][i - 1] == a[i];
      LookupDistinct(a[1..], i - 1);
    }
  }

  /** `setattr(self, k, v)` on a plain attribute: an existing attribute keeps
      its place and gets the new value, a new one goes at the end. */
  function Assign(a: Attrs, k: string, v: Value): (r: Attrs)
    ensures |r| == if k in Names(a) then |a| else |a| + 1
  {
    if a == [] then [Field(k, v)]
    else if a[0].name == k then [Field(k, v)] + a[1..]
    else [a[0]] + Assign(a[1..], k, v)
  }

  lemma {:induction false} AssignLookup(a: Attrs, k: string, v: Value, n: string)
    ensures Lookup(Assign(a, k, v), n) == if n == k then Some(v) else Lookup(a, n)
  {
    if a != [] && a[0].name != k {
      AssignLookup(a[1..], k, v, n);
      assert Assign(a, k, v)[1..] == Assign(a[1..], k, v);
    }
  }

  /** The names already present keep their order; a new name is appended. */
  lemma {:induction false} AssignNames(a: Attrs, k: string, v: Value)
    ensures Names(Assign(a, k, v)) == if k in Names(a) then Names(a) else Names(a) + [k]
  {
    if a != [] && a[0].name != k {
      AssignNames(a[1..], k, v);
      assert Assign(a, k, v)[1..] == Assign(a[1..], k, v);
      assert Names(a) == [a[0].name] + Names(a[1..]);
      assert k in Names(a) <==> k in Names(a[1..]);
    } else if a != [] {
      assert Names(Assign(a, k, v)) == Names(a);
    }
  }

  lemma AssignDistinct(a: Attrs, k: string, v: Value)
    requires Distinct(a)
    ensures Distinct(Assign(a, k, v))
  {
    var r := Assign(a, k, v);
    var na, nr := Names(a), Names(r);
    AssignNames(a, k, v);
    forall i, j | 0 <= i < j < |r| ensures r[i].name != r[j].name {
      assert r[i].name == nr[i] && r[j].name == nr[j];
      if j < |a| {
        assert nr[i] == na[i] && nr[j] == na[j];
        assert a[i].name == na[i] && a[j].name == na[j];
      } else {
        assert nr[i] == na[i] && nr[j] == k;
      }
    }
  }
}
