/** The element object of jaseci_core/jaseci/element.py and the hook it is
    saved to.  An element is a class whose attribute record changes in
    place; the hook keeps the live objects by identifier, as the in-memory
    hook does.  Each method is proved against the pure definitions of the
    other modules. */
module Elements {
  import opened Wrappers
  import opened Uuids
  import opened Records
  import opened Serialization
  import opened Identity
  import opened Loading
  import opened Equivalence
  import opened Payload
  import opened Duplication

  /** The store behind an element: `save` files an object under its
      identifier and `get_obj` reads it back. */
  class Hook {
    var store: map<Uuid, Element>

    constructor()
      ensures store == map[]
    {
      store := map[];
    }

    /** Every stored object is saved through this hook. */
    predicate Valid()
      reads this
    {
      forall u :: u in store ==> store[u].h == this
    }

    /** The attribute records of the stored objects, as they are now. */
    function Snapshot(): Store
      reads this, store.Values
    {
      map u | u in store :: store[u].attrs
    }
  }

  /** `acc` followed by the result of the rest of a loop, or its error. */
  function Then<T>(acc: seq<T>, r: Result<seq<T>, PyError>): Result<seq<T>, PyError>
  {
    match r
    case Ok(rest) => Ok(acc + rest)
    case Err(e) => Err(e)
  }

  lemma ThenEnds<T>(acc: seq<T>, r: Result<seq<T>, PyError>)
    ensures Then([], r) == r
    ensures Then(acc, Ok([])) == Ok(acc)
  {
    if r.Ok? {
      assert [] + r.value == r.value;
    }
    assert acc + [] == acc;
  }

  lemma ThenStep<T>(acc: seq<T>, x: T, r: Result<seq<T>, PyError>)
    ensures Then(acc, Then([x], r)) == Then(acc + [x], r)
  {
    if r.Ok? {
      assert acc + ([x] + r.value) == (acc + [x]) + r.value;
    }
  }

  lemma TakeAll<T>(p: seq<T>)
    ensures p[..|p|] == p
  {
  }

  lemma UpdateTwice<K, V>(m: map<K, V>, k: K, v: V)
    ensures m[k := v][k := v] == m[k := v]
  {
  }

  /** The private-key stripping of a copied context (element.py:143-146),
      deleting one listed key at a time. */
  method StripContext(ctx: Value) returns (r: Result<Value, PyError>)
    ensures r == StripPrivate(ctx)
  {
    if !ctx.VDict? {
      return Err(AttributeError);
    }
    if "_private" !in ctx.entries {
      return Ok(ctx);
    }
    var m := ctx.entries;
    var p := m["_private"];
    if p.VDict? {
      var keys := p.entries.Keys;
      ghost var all := keys;
      while keys != {}
        invariant keys <= all
        invariant all - keys <= ctx.entries.Keys
        invariant m == ctx.entries - (all - keys)
        decreases keys
      {
        var k :| k in keys;
        if k !in m {
          assert k !in ctx.entries;
          return Err(KeyError);
        }
        m := m - {k};
        keys := keys - {k};
      }
      assert all - keys == all;
      return Ok(VDict(m));
    }
    var items := PrivateItems(p);
    if items.None? {
      return Err(TypeError);
    }
    var xs := items.value;
    var j := 0;
    while j < |xs|
      invariant 0 <= j <= |xs|
      invariant DeleteKeys(ctx.entries, xs) == DeleteKeys(m, xs[j..])
    {
      assert xs[j..][0] == xs[j] && xs[j..][1..] == xs[j + 1..];
      match xs[j] {
        case VStr(k) =>
          if k !in m {
            return Err(KeyError);
          }
          m := m - {k};
        case VNone =>
          return Err(KeyError);
        case VInt(_) =>
          return Err(KeyError);
        case _ =>
          return Err(TypeError);
      }
      j := j + 1;
    }
    return Ok(VDict(m));
  }

  lemma Regroup<T>(p: seq<T>, x: seq<T>, r: seq<T>)
    ensures p + (x + r) == (p + x) + r
  {
  }

  lemma NamesSnoc(q: Attrs, f: Field)
    ensures Names(q + [f]) == Names(q) + [f.name]
  {
    var l := Names(q + [f]);
    assert |l| == |Names(q) + [f.name]|;
    assert forall i :: 0 <= i < |l| ==> l[i] == (Names(q) + [f.name])[i];
  }

  class Element {
    const h: Hook
    /** The concrete class, `type(self).__name__`. */
    const cls: string
    /** `vars(self)` without the hook reference. */
    var attrs: Attrs

    ghost predicate Valid()
      reads this
    {
      Shaped(attrs)
    }

    /** `element.__init__` (element.py:46-57), with the fresh identifier and
        the creation time supplied by the caller. */
    constructor(h: Hook, cls: string, owner: Option<Uuid>, name: string, kind: string,
                autoSave: bool, newId: Uuid, now: string)
      requires h.Valid()
      modifies h
      ensures this.h == h && this.cls == cls
      ensures attrs == InitialAttrs(cls, owner, name, kind, newId, now)
      ensures Valid() && h.Valid()
      ensures h.store == if autoSave then old(h.store)[newId := this] else old(h.store)
    {
      this.h := h;
      this.cls := cls;
      attrs := InitialAttrs(cls, owner, name, kind, newId, now);
      new;
      InitialShaped(cls, owner, name, kind, newId, now);
      if autoSave {
        InitialId(cls, owner, name, kind, newId, now);
        SaveAs(newId);
      }
    }

    /** `save` of an element whose identifier is known to parse to `u`. */
    method SaveAs(u: Uuid)
      requires h.Valid() && IdOf(attrs) == Ok(u)
      modifies h
      ensures h.Valid() && h.store == old(h.store)[u := this]
    {
      var _ := Save();
    }

    /** `save`: files the object under its current identifier; an identifier
        that does not parse raises. */
    method Save() returns (r: Result<(), PyError>)
      requires h.Valid()
      modifies h
      ensures h.Valid()
      ensures IdOf(attrs).Ok? ==> r == Ok(()) && h.store == old(h.store)[IdOf(attrs).value := this]
      ensures IdOf(attrs).Err? ==> r == Err(IdOf(attrs).error) && h.store == old(h.store)
    {
      var id := IdOf(attrs);
      if id.Err? {
        return Err(id.error);
      }
      h.store := h.store[id.value := this];
      return Ok(());
    }

    /** The `id` setter. */
    method SetId(u: Uuid)
      requires Valid()
      modifies this
      ensures attrs == WithId(old(attrs), u) && Valid()
      ensures IdOf(attrs) == Ok(u)
    {
      AssignShaped(attrs, "jid", VStr(Urn(u)));
      IdRoundTrip(attrs, u);
      attrs := WithId(attrs, u);
    }

    /** The `owner_id` setter. */
    method SetOwnerId(o: Option<Uuid>)
      requires Valid()
      modifies this
      ensures attrs == WithOwnerId(old(attrs), o) && Valid()
      ensures OwnerIdOf(attrs) == Ok(o)
    {
      AssignShaped(attrs, "j_owner", OwnerValue(o));
      OwnerIdRoundTrip(attrs, o);
      attrs := WithOwnerId(attrs, o);
    }

    /** The `timestamp` setter, with the time already in ISO text. */
    method SetTimestamp(t: string)
      requires Valid()
      modifies this
      ensures attrs == WithTimestamp(old(attrs), t) && Valid()
      ensures Lookup(attrs, "j_timestamp") == Some(VStr(t))
    {
      AssignShaped(attrs, "j_timestamp", VStr(t));
      AssignLookup(attrs, "j_timestamp", VStr(t), "j_timestamp");
      attrs := WithTimestamp(attrs, t);
    }

    /** `serialize(deep, detailed)` (element.py:131-151): the attributes are
        visited in order and nothing is changed. */
    method Serialize(deep: nat, detailed: bool) returns (r: Result<WireRecord, PyError>)
      requires h.Valid()
      ensures r == SerializeAttrs(attrs, h.Snapshot(), deep, detailed)
      decreases deep, 2
    {
      ghost var s := h.Snapshot();
      var acc: WireRecord := [];
      var i := 0;
      assert attrs[0..] == attrs;
      ThenEnds(acc, SerializeAttrs(attrs, s, deep, detailed));
      while i < |attrs|
        invariant 0 <= i <= |attrs|
        invariant SerializeAttrs(attrs, s, deep, detailed) == Then(acc, SerializeAttrs(attrs[i..], s, deep, detailed))
      {
        var f := attrs[i];
        assert attrs[i..][0] == f && attrs[i..][1..] == attrs[i + 1..];
        if Emitted(f.name, detailed) {
          var w := SerializeField(f.name, f.value, deep, detailed);
          if w.Err? {
            return Err(w.error);
          }
          ThenStep(acc, WireField(f.name, w.value), SerializeAttrs(attrs[i + 1..], s, deep, detailed));
          acc := acc + [WireField(f.name, w.value)];
        }
        i := i + 1;
      }
      assert attrs[i..] == [];
      ThenEnds(acc, SerializeAttrs(attrs[i..], s, deep, detailed));
      return Ok(acc);
    }

    /** One emitted attribute: the shallow copy, the private-key stripping of
        a non-detailed context, and the expansion of an `id_list`. */
    method SerializeField(name: string, v: Value, deep: nat, detailed: bool) returns (r: Result<Wire, PyError>)
      requires h.Valid()
      ensures r == SerializeValue(name, v, h.Snapshot(), deep, detailed)
      decreases deep, 1
    {
      var v1 := v;
      if !detailed && name == "context" {
        var stripped := StripContext(v);
        if stripped.Err? {
          return Err(stripped.error);
        }
        v1 := stripped.value;
      }
      if deep > 0 && v1.VIds? {
        var rs := ExpandIdList(v1.ids, deep - 1);
        if rs.Err? {
          return Err(rs.error);
        }
        return Ok(WExpanded(rs.value));
      }
      return Ok(WVal(v1));
    }

    /** Each identifier of the list replaced, in order, by the stored
        object's non-detailed serialisation one level shallower. */
    method ExpandIdList(ids: seq<Uuid>, depth: nat) returns (r: Result<seq<WireRecord>, PyError>)
      requires h.Valid()
      ensures r == ExpandIds(ids, h.Snapshot(), depth)
      decreases depth + 1, 0
    {
      ghost var s := h.Snapshot();
      var acc: seq<WireRecord> := [];
      var j := 0;
      assert ids[0..] == ids;
      ThenEnds(acc, ExpandIds(ids, s, depth));
      while j < |ids|
        invariant 0 <= j <= |ids|
        invariant ExpandIds(ids, s, depth) == Then(acc, ExpandIds(ids[j..], s, depth))
      {
        assert ids[j..][0] == ids[j] && ids[j..][1..] == ids[j + 1..];
        if ids[j] !in h.store {
          return Err(NotFound(ids[j]));
        }
        var child := h.store[ids[j]];
        assert child.h == h && s[ids[j]] == child.attrs;
        var c := child.Serialize(depth, false);
        if c.Err? {
          return Err(c.error);
        }
        ThenStep(acc, c.value, ExpandIds(ids[j + 1..], s, depth));
        acc := acc + [c.value];
        j := j + 1;
      }
      assert ids[j..] == [];
      ThenEnds(acc, ExpandIds(ids[j..], s, depth));
      return Ok(acc);
    }

    /** `json_load` (element.py:162-166) on the decoded blob: each key is
        written with `setattr`, in order, until one raises. */
    method JsonLoad(blob: Attrs) returns (err: Option<PyError>)
      requires Valid()
      modifies this
      ensures Loaded(attrs, err) == LoadAll(old(attrs), blob)
      ensures Valid()
    {
      ghost var a0 := attrs;
      var i := 0;
      while i < |blob|
        invariant 0 <= i <= |blob|
        invariant LoadAll(a0, blob) == LoadAll(attrs, blob[i..])
      {
        assert blob[i..][0] == blob[i] && blob[i..][1..] == blob[i + 1..];
        var r := SetAttr(attrs, blob[i].name, blob[i].value);
        if r.Err? {
          LoadShaped(a0, blob);
          return Some(r.error);
        }
        attrs := r.value;
        i := i + 1;
      }
      LoadShaped(a0, blob);
      return None;
    }

    /** The names `jsci_payload` selects (element.py:118-125), in attribute
        order. */
    method PayloadFields() returns (fields: seq<string>)
      ensures fields == Names(PayloadOf(attrs))
    {
      var a := attrs;
      ghost var q: Attrs := [];
      fields := [];
      var i := 0;
      assert a[0..] == a;
      while i < |a|
        invariant 0 <= i <= |a|
        invariant q + PayloadOf(a[i..]) == PayloadOf(a)
        invariant fields == Names(q)
      {
        PayloadStep(a, i);
        if InPayload(a[i].name) {
          Regroup(q, [a[i]], PayloadOf(a[i + 1..]));
          NamesSnoc(q, a[i]);
          q := q + [a[i]];
          fields := fields + [a[i].name];
        }
        i := i + 1;
      }
      assert a[i..] == [];
      assert q == PayloadOf(a);
    }

    /** `jsci_payload` (element.py:115-129): first the selected names, then
        each with the value `getattr` reads. */
    method JsciPayload() returns (r: Attrs)
      requires Valid()
      ensures r == PayloadOf(attrs)
    {
      var fields := PayloadFields();
      r := [];
      var k := 0;
      while k < |fields|
        invariant 0 <= k <= |fields| == |PayloadOf(attrs)|
        invariant r == PayloadOf(attrs)[..k]
      {
        PayloadGetattr(attrs, fields, k);
        var v := Lookup(attrs, fields[k]);
        r := r + [Field(fields[k], v.value)];
        k := k + 1;
      }
      TakeAll(PayloadOf(attrs));
    }

    /** `is_equivalent`. */
    function IsEquivalent(other: Element): Result<bool, PyError>
      reads this, other
    {
      Equivalent(attrs, other.attrs)
    }

    /** `json(detailed=True)` read back as a record (element.py:96): the
        detailed serialisation at depth 0 never raises and carries every
        public attribute unchanged. */
    method DetailedRecord() returns (blob: Attrs)
      requires h.Valid()
      ensures blob == Public(attrs)
    {
      var w := Serialize(0, true);
      DetailedFlat(attrs, h.Snapshot());
      blob := Decode(w.value);
      DecodeFlat(Public(attrs));
    }

    /** The steps of `duplicate` that work on the copy (element.py:96-99):
        the blob is loaded, the copy's own identifier written back, the
        timestamp renewed, and the copy saved again under that identifier. */
    method Restore(blob: Attrs, u: Uuid, now: string)
      requires Valid() && h.Valid()
      modifies this, h
      ensures attrs == WithTimestamp(WithId(LoadAll(old(attrs), blob).attrs, u), now)
      ensures Valid() && h.Valid()
      ensures h.store == old(h.store)[u := this]
    {
      var _ := JsonLoad(blob);
      ghost var a1 := attrs;
      SetId(u);
      SetTimestamp(now);
      RestampedId(a1, u, now);
      var _ := Save();
    }

    /** The steps of `duplicate` (element.py:88-100): a new element of the
        same class, saved on construction, loads this element's detailed
        serialisation, gets its own identifier back and a new timestamp, and
        is saved again. */
    method Copy(newId: Uuid, t0: string, now: string) returns (dup: Element)
      requires h.Valid() && Valid()
      requires IdOf(attrs) != Ok(newId)
      modifies h
      ensures fresh(dup) && dup.h == h && dup.cls == cls && dup.Valid() && h.Valid()
      ensures dup.attrs == DuplicateAttrs(cls, attrs, newId, t0, now)
      ensures h.store == old(h.store)[newId := dup]
      ensures IdOf(dup.attrs) == Ok(newId)
    {
      ghost var s0 := h.store;
      dup := new Element(h, cls, None, "basic", "generic", true, newId, t0);
      var blob := DetailedRecord();
      dup.Restore(blob, newId, now);
      DuplicateIdentity(cls, attrs, newId, t0, now);
      UpdateTwice(s0, newId, dup);
    }

    /** `duplicate`: the copy is saved under its own new identifier, carries
        the new timestamp and agrees with this element on every compared
        attribute, so the two are equivalent both ways. */
    method Duplicate(newId: Uuid, t0: string, now: string) returns (dup: Element)
      requires h.Valid() && Valid()
      requires IdOf(attrs) != Ok(newId)
      modifies h
      ensures fresh(dup) && dup.h == h && dup.cls == cls && dup.Valid() && h.Valid()
      ensures dup.attrs == DuplicateAttrs(cls, attrs, newId, t0, now)
      ensures h.store == old(h.store)[newId := dup]
      ensures IdOf(dup.attrs) == Ok(newId) && IdOf(dup.attrs) != IdOf(attrs)
      ensures Lookup(dup.attrs, "j_timestamp") == Some(VStr(now))
      ensures forall n :: Compared(n) ==> Lookup(dup.attrs, n) == Lookup(attrs, n)
      ensures Equivalent(dup.attrs, attrs) == Ok(true) && Equivalent(attrs, dup.attrs) == Ok(true)
    {
      dup := Copy(newId, t0, now);
      DuplicateFacts(cls, attrs, newId, t0, now);
    }
  }
}
