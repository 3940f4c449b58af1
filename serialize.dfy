/** `element.serialize(deep, detailed)` (jaseci_core/jaseci/element.py).

    The output is a record of the emitted attributes in attribute order.
    Without `detailed` only the key fields are emitted and the names listed
    under `context['_private']` are deleted from a copy of the context; with
    `deep > 0` every `id_list` attribute is replaced, entry by entry, by the
    hook object's own `serialize(deep - 1)`, which is not detailed. */
module Serialization {
  import opened Wrappers
  import opened Uuids
  import opened Records

  /** The attributes a non-detailed serialisation keeps. */
  const KeyFields: set<string> := {"name", "kind", "jid", "j_type", "context", "anchor", "j_timestamp"}

  /** An emitted attribute value: a copy of the attribute, or the list of
      child records an `id_list` expands to. */
  datatype Wire = WVal(v: Value) | WExpanded(records: seq<seq<WireField>>)

  datatype WireField = WireField(name: string, wire: Wire)

  type WireRecord = seq<WireField>

  /** What the hook resolves an identifier to, as attribute records. */
  type Store = map<Uuid, Attrs>

  predicate Emitted(name: string, detailed: bool)
  {
    !IsPrivate(name) && (detailed || name in KeyFields)
  }

  /** The attributes `serialize` visits, in order. */
  function Emit(fs: Attrs, detailed: bool): (e: Attrs)
    ensures forall i :: 0 <= i < |e| ==> Emitted(e[i].name, detailed) && e[i] in fs
  {
    if fs == [] then []
    else if Emitted(fs[0].name, detailed) then [fs[0]] + Emit(fs[1..], detailed)
    else Emit(fs[1..], detailed)
  }

  function WireNames(w: WireRecord): (ns: seq<string>)
    ensures |ns| == |w|
    ensures forall i :: 0 <= i < |w| ==> ns[i] == w[i].name
  {
    if w == [] then [] else [w[0].name] + WireNames(w[1..])
  }

  /** `del d[j]` for each `j` in the private list, in order. */
  function DeleteKeys(m: map<string, Value>, keys: seq<Value>): Result<map<string, Value>, PyError>
  {
    if keys == [] then Ok(m)
    else
      match keys[0]
      case VStr(k) => if k in m then DeleteKeys(m - {k}, keys[1..]) else Err(KeyError)
      case VNone => Err(KeyError)
      case VInt(_) => Err(KeyError)
      case _ => Err(TypeError)
  }

  /** The strings a listed key set names. */
  function KeySet(keys: seq<Value>): set<string>
  {
    set i | 0 <= i < |keys| && keys[i].VStr? :: keys[i].s
  }

  /** What iterating over the `_private` value yields, when it is a
      sequence: list items, the characters of a string, or the stored text
      of each identifier of an `id_list`. */
  function PrivateItems(p: Value): Option<seq<Value>>
  {
    match p
    case VList(items) => Some(items)
    case VStr(s) => Some(seq(|s|, i requires 0 <= i < |s| => VStr([s[i]])))
    case VIds(ids) => Some(seq(|ids|, i requires 0 <= i < |ids| => VStr(Urn(ids[i]))))
    case _ => None
  }

  /** The private-key stripping of the copied context (element.py:143-146). */
  function StripPrivate(ctx: Value): Result<Value, PyError>
  {
    if !ctx.VDict? then Err(AttributeError)
    else if "_private" !in ctx.entries then Ok(ctx)
    else
      var m := ctx.entries;
      var p := m["_private"];
      if p.VDict? then
        if p.entries.Keys <= m.Keys then Ok(VDict(m - p.entries.Keys)) else Err(KeyError)
      else
        match PrivateItems(p)
        case None => Err(TypeError)
        case Some(items) =>
          match DeleteKeys(m, items)
          case Ok(r) => Ok(VDict(r))
          case Err(e) => Err(e)
  }

  /** One emitted attribute (element.py:142-150). */
  function SerializeValue(name: string, v: Value, store: Store, deep: nat, detailed: bool): Result<Wire, PyError>
    decreases deep, 0, 0
  {
    var copied := if !detailed && name == "context" then StripPrivate(v) else Ok(v);
    match copied
    case Err(e) => Err(e)
    case Ok(v1) =>
      if deep > 0 && v1.VIds? then
        match ExpandIds(v1.ids, store, deep - 1)
        case Ok(rs) => Ok(WExpanded(rs))
        case Err(e) => Err(e)
      else Ok(WVal(v1))
  }

  /** The children of an `id_list`, each serialised with the given depth and
      the default `detailed=False`. */
  function ExpandIds(ids: seq<Uuid>, store: Store, deep: nat): Result<seq<WireRecord>, PyError>
    decreases deep, 2, |ids|
  {
    if ids == [] then Ok([])
    else if ids[0] !in store then Err(NotFound(ids[0]))
    else
      match SerializeAttrs(store[ids[0]], store, deep, false)
      case Err(e) => Err(e)
      case Ok(r0) =>
        match ExpandIds(ids[1..], store, deep)
        case Err(e) => Err(e)
        case Ok(rest) => Ok([r0] + rest)
  }

  /** `serialize(deep, detailed)` of an object whose attributes are `fs`. */
  function SerializeAttrs(fs: Attrs, store: Store, deep: nat, detailed: bool): Result<WireRecord, PyError>
    decreases deep, 1, |fs|
  {
    if fs == [] then Ok([])
    else if !Emitted(fs[0].name, detailed) then SerializeAttrs(fs[1..], store, deep, detailed)
    else
      match SerializeValue(fs[0].name, fs[0].value, store, deep, detailed)
      case Err(e) => Err(e)
      case Ok(w) =>
        match SerializeAttrs(fs[1..], store, deep, detailed)
        case Err(e) => Err(e)
        case Ok(rest) => Ok([WireField(fs[0].name, w)] + rest)
  }

  // ---------------------------------------------------------------------
  // Properties
  // ---------------------------------------------------------------------

  /** Every visited attribute serialises without raising. */
  predicate ValuesOk(e: Attrs, store: Store, deep: nat, detailed: bool)
  {
    forall i :: 0 <= i < |e| ==> SerializeValue(e[i].name, e[i].value, store, deep, detailed).Ok?
  }

  lemma ValuesOkCons(x: Field, e: Attrs, store: Store, deep: nat, detailed: bool)
    ensures ValuesOk([x] + e, store, deep, detailed) <==>
      SerializeValue(x.name, x.value, store, deep, detailed).Ok? && ValuesOk(e, store, deep, detailed)
  {
    var c := [x] + e;
    if ValuesOk(c, store, deep, detailed) {
      assert c[0] == x;
      forall i | 0 <= i < |e| ensures SerializeValue(e[i].name, e[i].value, store, deep, detailed).Ok? {
        assert e[i] == c[i + 1];
      }
    }
    if SerializeValue(x.name, x.value, store, deep, detailed).Ok? && ValuesOk(e, store, deep, detailed) {
      forall i | 0 <= i < |c| ensures SerializeValue(c[i].name, c[i].value, store, deep, detailed).Ok? {
        if i > 0 { assert c[i] == e[i - 1]; }
      }
    }
  }

  /** Serialisation succeeds exactly when every visited attribute does. */
  lemma {:induction false} SerializeOk(fs: Attrs, store: Store, deep: nat, detailed: bool)
    ensures SerializeAttrs(fs, store, deep, detailed).Ok? <==> ValuesOk(Emit(fs, detailed), store, deep, detailed)
  {
    if fs != [] {
      SerializeOk(fs[1..], store, deep, detailed);
      if Emitted(fs[0].name, detailed) {
        assert Emit(fs, detailed) == [fs[0]] + Emit(fs[1..], detailed);
        ValuesOkCons(fs[0], Emit(fs[1..], detailed), store, deep, detailed);
      } else {
        assert Emit(fs, detailed) == Emit(fs[1..], detailed);
      }
    }
  }

  /** A successful serialisation emits the visited attributes one for one,
      in attribute order, each with its own serialised value. */
  lemma {:induction false} SerializeFieldwise(fs: Attrs, store: Store, deep: nat, detailed: bool)
    requires SerializeAttrs(fs, store, deep, detailed).Ok?
    ensures var e, w := Emit(fs, detailed), SerializeAttrs(fs, store, deep, detailed).value;
      |w| == |e| &&
      forall i :: 0 <= i < |e| ==>
        w[i].name == e[i].name && SerializeValue(e[i].name, e[i].value, store, deep, detailed) == Ok(w[i].wire)
  {
    if fs != [] {
      var e := Emit(fs, detailed);
      var e1 := Emit(fs[1..], detailed);
      if Emitted(fs[0].name, detailed) {
        var w := SerializeAttrs(fs, store, deep, detailed).value;
        var w1 := SerializeAttrs(fs[1..], store, deep, detailed).value;
        SerializeFieldwise(fs[1..], store, deep, detailed);
        assert e == [fs[0]] + e1;
        assert w[0].name == fs[0].name && SerializeValue(fs[0].name, fs[0].value, store, deep, detailed) == Ok(w[0].wire);
        assert w[1..] == w1;
        forall i | 1 <= i < |e| ensures w[i].name == e[i].name && SerializeValue(e[i].name, e[i].value, store, deep, detailed) == Ok(w[i].wire) {
          assert e[i] == e1[i - 1] && w[i] == w1[i - 1];
        }
      } else {
        SerializeFieldwise(fs[1..], store, deep, detailed);
        assert e == e1;
      }
    }
  }

  lemma {:induction false} EmitNames(fs: Attrs, detailed: bool, x: string)
    ensures x in Names(Emit(fs, detailed)) <==> x in Names(fs) && Emitted(x, detailed)
  {
    if fs != [] {
      EmitNames(fs[1..], detailed, x);
      assert Names(fs) == [fs[0].name] + Names(fs[1..]);
      if Emitted(fs[0].name, detailed) {
        assert Names(Emit(fs, detailed)) == [fs[0].name] + Names(Emit(fs[1..], detailed));
      }
    }
  }

  /** `serialize` never emits a `_` attribute; a non-detailed one emits
      exactly the key fields the object has, a detailed one every public
      attribute. */
  lemma SerializedKeys(fs: Attrs, store: Store, deep: nat, detailed: bool, x: string)
    requires SerializeAttrs(fs, store, deep, detailed).Ok?
    ensures var w := SerializeAttrs(fs, store, deep, detailed).value;
      (x in WireNames(w) ==> !IsPrivate(x)) &&
      (!detailed ==> (x in WireNames(w) <==> x in Names(fs) && x in KeyFields)) &&
      (detailed ==> (x in WireNames(w) <==> x in Names(fs) && !IsPrivate(x)))
  {
    SerializeFieldwise(fs, store, deep, detailed);
    EmitNames(fs, detailed, x);
    var w := SerializeAttrs(fs, store, deep, detailed).value;
    var e := Emit(fs, detailed);
    assert WireNames(w) == Names(e);
  }

  predicate AllPresent(m: map<string, Value>, keys: seq<Value>)
  {
    forall i :: 0 <= i < |keys| ==> keys[i].VStr? && keys[i].s in m
  }

  predicate NoRepeats(keys: seq<Value>)
  {
    forall i, j :: 0 <= i < j < |keys| ==> keys[i] != keys[j]
  }

  lemma KeySetCons(keys: seq<Value>)
    requires keys != [] && keys[0].VStr?
    ensures KeySet(keys) == {keys[0].s} + KeySet(keys[1..])
  {
    var rest := keys[1..];
    forall s | s in KeySet(keys) ensures s in {keys[0].s} + KeySet(rest) {
      var i :| 0 <= i < |keys| && keys[i].VStr? && keys[i].s == s;
      if i > 0 { assert rest[i - 1] == keys[i]; }
    }
    forall s | s in KeySet(rest) ensures s in KeySet(keys) {
      var i :| 0 <= i < |rest| && rest[i].VStr? && rest[i].s == s;
      assert keys[i + 1] == rest[i];
    }
  }

  /** Deleting the listed keys succeeds iff each is a string key of the
      context and none is listed twice, and then removes exactly those keys. */
  lemma {:induction false} DeleteKeysSpec(m: map<string, Value>, keys: seq<Value>)
    ensures DeleteKeys(m, keys).Ok? <==> AllPresent(m, keys) && NoRepeats(keys)
    ensures DeleteKeys(m, keys).Ok? ==> DeleteKeys(m, keys).value == m - KeySet(keys)
  {
    if keys != [] {
      var rest := keys[1..];
      assert forall i :: 1 <= i < |keys| ==> keys[i] == rest[i - 1];
      if keys[0].VStr? && keys[0].s in m {
        var k := keys[0].s;
        DeleteKeysSpec(m - {k}, rest);
        KeySetCons(keys);
        if AllPresent(m, keys) && NoRepeats(keys) {
          forall i | 0 <= i < |rest| ensures rest[i].VStr? && rest[i].s in m - {k} {
            assert keys[0] != keys[i + 1];
          }
          forall i, j | 0 <= i < j < |rest| ensures rest[i] != rest[j] {
            assert keys[i + 1] != keys[j + 1];
          }
        }
        if AllPresent(m - {k}, rest) && NoRepeats(rest) {
          forall i, j | 0 <= i < j < |keys| ensures keys[i] != keys[j] {
            if i == 0 {
              assert rest[j - 1].s in m - {k};
            } else {
              assert rest[i - 1] != rest[j - 1];
            }
          }
        }
      }
    }
  }

  /** With a list of private keys, the emitted context is the context with
      exactly those keys removed; a missing or repeated key raises. */
  lemma ContextPrivateStripped(m: map<string, Value>, keys: seq<Value>, store: Store, deep: nat)
    requires "_private" in m && m["_private"] == VList(keys)
    ensures SerializeValue("context", VDict(m), store, deep, false).Ok? <==>
      AllPresent(m, keys) && NoRepeats(keys)
    ensures SerializeValue("context", VDict(m), store, deep, false).Ok? ==>
      SerializeValue("context", VDict(m), store, deep, false).value == WVal(VDict(m - KeySet(keys))) &&
      forall k :: k in KeySet(keys) ==> k !in (m - KeySet(keys))
  {
    DeleteKeysSpec(m, keys);
  }

  /** An `id_list` expands, in order and entry for entry, to the non-detailed
      serialisations of the objects it names; it fails iff some entry is
      unknown to the hook or its object fails to serialise. */
  lemma {:induction false} ExpandIdsSpec(ids: seq<Uuid>, store: Store, deep: nat)
    ensures ExpandIds(ids, store, deep).Ok? <==>
      forall k :: 0 <= k < |ids| ==> ids[k] in store && SerializeAttrs(store[ids[k]], store, deep, false).Ok?
    ensures ExpandIds(ids, store, deep).Ok? ==>
      var rs := ExpandIds(ids, store, deep).value;
      |rs| == |ids| &&
      forall k :: 0 <= k < |ids| ==> rs[k] == SerializeAttrs(store[ids[k]], store, deep, false).value
  {
    if ids != [] {
      ExpandIdsSpec(ids[1..], store, deep);
      assert forall k :: 1 <= k < |ids| ==> ids[k] == ids[1..][k - 1];
    }
  }

  /** `deep = 0` copies an `id_list` as it is; `deep > 0` replaces it by
      its expansion. */
  lemma IdListExpansion(name: string, ids: seq<Uuid>, store: Store, deep: nat, detailed: bool)
    requires detailed || name != "context"
    ensures deep == 0 ==> SerializeValue(name, VIds(ids), store, deep, detailed) == Ok(WVal(VIds(ids)))
    ensures deep > 0 ==> (
      SerializeValue(name, VIds(ids), store, deep, detailed) ==
        match ExpandIds(ids, store, deep - 1)
        case Ok(rs) => Ok(WExpanded(rs))
        case Err(e) => Err(e))
  {
  }

  /** Children are serialised without `detailed`, so each child record holds
      key fields only; when no stored object keeps an `id_list` under a key
      field, no child record is expanded further, whatever the depth. */
  lemma ChildIsShallow(child: Attrs, store: Store, deep: nat, j: nat)
    requires SerializeAttrs(child, store, deep, false).Ok?
    requires j < |SerializeAttrs(child, store, deep, false).value|
    ensures SerializeAttrs(child, store, deep, false).value[j].name in KeyFields
    ensures (forall i :: 0 <= i < |child| && child[i].name in KeyFields ==> !child[i].value.VIds?) ==>
      SerializeAttrs(child, store, deep, false).value[j].wire.WVal?
  {
    SerializeFieldwise(child, store, deep, false);
    var e := Emit(child, false);
    var w := SerializeAttrs(child, store, deep, false).value;
    assert w[j].name == e[j].name;
    if (forall i :: 0 <= i < |child| && child[i].name in KeyFields ==> !child[i].value.VIds?) {
      assert e[j] in child;
      FlatValueStaysFlat(e[j].name, e[j].value, store, deep, false);
    }
  }

  /** Only an `id_list` is ever expanded. */
  lemma FlatValueStaysFlat(name: string, v: Value, store: Store, deep: nat, detailed: bool)
    requires !v.VIds?
    requires SerializeValue(name, v, store, deep, detailed).Ok?
    ensures SerializeValue(name, v, store, deep, detailed).value.WVal?
  {
    if !detailed && name == "context" && StripPrivate(v).Ok? {
      assert StripPrivate(v).value.VDict?;
    }
  }

  /** The public attributes of a record. */
  function Public(fs: Attrs): Attrs
  {
    Emit(fs, true)
  }

  function Flat(fs: Attrs): (w: WireRecord)
    ensures |w| == |fs|
    ensures forall i :: 0 <= i < |fs| ==> w[i] == WireField(fs[i].name, WVal(fs[i].value))
  {
    if fs == [] then [] else [WireField(fs[0].name, WVal(fs[0].value))] + Flat(fs[1..])
  }

  /** A detailed, depth-0 serialisation never fails and copies every public
      attribute unchanged: the form `duplicate` loads into the copy. */
  lemma {:induction false} DetailedFlat(fs: Attrs, store: Store)
    ensures SerializeAttrs(fs, store, 0, true) == Ok(Flat(Public(fs)))
  {
    if fs != [] {
      DetailedFlat(fs[1..], store);
      if Emitted(fs[0].name, true) {
        assert Flat(Public(fs)) == [WireField(fs[0].name, WVal(fs[0].value))] + Flat(Public(fs[1..]));
      }
    }
  }

  /** The record that decoding a serialisation without expanded lists gives
      back (the JSON text layer in between is not modelled). */
  function Decode(w: WireRecord): (fs: Attrs)
    requires forall i :: 0 <= i < |w| ==> w[i].wire.WVal?
    ensures |fs| == |w|
    ensures forall i :: 0 <= i < |w| ==> fs[i] == Field(w[i].name, w[i].wire.v)
  {
    if w == [] then [] else [Field(w[0].name, w[0].wire.v)] + Decode(w[1..])
  }

  lemma DecodeFlat(fs: Attrs)
    ensures Decode(Flat(fs)) == fs
  {
  }
}
