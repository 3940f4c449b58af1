/** The `id`, `owner_id` and `timestamp` properties of an element
    (jaseci_core/jaseci/element.py:59-86) and the attributes its constructor
    sets (element.py:46-54).  The identifiers live in the record as URN text;
    the getters parse it and the setters write it. */
module Identity {
  import opened Wrappers
  import opened Uuids
  import opened Records

  /** The `id` getter, `uuid.UUID(self.jid)`.  `uuid.UUID(None)` is a call
      with no argument given and raises `TypeError`; any other value that is
      not text fails on its missing `replace` with `AttributeError`. */
  function IdOf(a: Attrs): Result<Uuid, PyError>
  {
    match Lookup(a, "jid")
    case None => Err(AttributeError)
    case Some(v) =>
      if v.VNone? then Err(TypeError)
      else if !v.VStr? then Err(AttributeError)
      else
        match Parse(v.s)
        case None => Err(ValueError)
        case Some(u) => Ok(u)
  }

  /** The getter raises `AttributeError` when there is no `jid`,
      `TypeError` when it is `None`, `AttributeError` for any other value
      that is not text, and `ValueError` for text that is not a UUID. */
  lemma IdOfRaises(a: Attrs)
    ensures IdOf(a) == Err(TypeError) <==> Lookup(a, "jid") == Some(VNone)
    ensures IdOf(a) == Err(AttributeError) <==>
      Lookup(a, "jid").None? || (!Lookup(a, "jid").value.VNone? && !Lookup(a, "jid").value.VStr?)
    ensures IdOf(a) == Err(ValueError) <==>
      Lookup(a, "jid").Some? && Lookup(a, "jid").value.VStr? && Parse(Lookup(a, "jid").value.s).None?
  {
  }

  /** The `id` setter, `self.jid = obj.urn`. */
  function WithId(a: Attrs, u: Uuid): Attrs
  {
    Assign(a, "jid", VStr(Urn(u)))
  }

  /** Writing the `id` and reading it back gives the same identifier. */
  lemma IdRoundTrip(a: Attrs, u: Uuid)
    ensures IdOf(WithId(a, u)) == Ok(u)
    ensures Lookup(WithId(a, u), "jid") == Some(VStr(Urn(u)))
  {
    AssignLookup(a, "jid", VStr(Urn(u)), "jid");
    ParseUrn(u);
  }

  /** What the `owner_id` setter stores: nothing for a missing owner, else
      the owner's URN. */
  function OwnerValue(o: Option<Uuid>): Value
  {
    match o
    case None => VNone
    case Some(u) => VStr(Urn(u))
  }

  /** The `owner_id` getter: a falsy `j_owner` reads as no owner, anything
      else is parsed. */
  function OwnerIdOf(a: Attrs): Result<Option<Uuid>, PyError>
  {
    match Lookup(a, "j_owner")
    case None => Err(AttributeError)
    case Some(v) =>
      if !Truthy(v) then Ok(None)
      else if !v.VStr? then Err(AttributeError)
      else
        match Parse(v.s)
        case None => Err(ValueError)
        case Some(u) => Ok(Some(u))
  }

  /** The `owner_id` setter. */
  function WithOwnerId(a: Attrs, o: Option<Uuid>): Attrs
  {
    Assign(a, "j_owner", OwnerValue(o))
  }

  /** Whatever record stores an owner the way the setter does reads it back. */
  lemma OwnerIdOfStored(a: Attrs, o: Option<Uuid>)
    requires Lookup(a, "j_owner") == Some(OwnerValue(o))
    ensures OwnerIdOf(a) == Ok(o)
  {
    if o.Some? {
      ParseUrn(o.value);
      assert Urn(o.value)[0] == 'u';
    }
  }

  /** Writing the owner and reading it back gives the same owner, and no
      owner is stored as `None`. */
  lemma OwnerIdRoundTrip(a: Attrs, o: Option<Uuid>)
    ensures OwnerIdOf(WithOwnerId(a, o)) == Ok(o)
    ensures o.None? ==> Lookup(WithOwnerId(a, o), "j_owner") == Some(VNone)
  {
    AssignLookup(a, "j_owner", OwnerValue(o), "j_owner");
    OwnerIdOfStored(WithOwnerId(a, o), o);
  }

  /** The `timestamp` setter with the ISO text already formatted. */
  function WithTimestamp(a: Attrs, t: string): Attrs
  {
    Assign(a, "j_timestamp", VStr(t))
  }

  /** Renewing the timestamp keeps the identifier just written. */
  lemma RestampedId(a: Attrs, u: Uuid, t: string)
    ensures IdOf(WithTimestamp(WithId(a, u), t)) == Ok(u)
  {
    IdRoundTrip(a, u);
    AssignLookup(WithId(a, u), "j_timestamp", VStr(t), "jid");
  }

  /** The attributes `element.__init__` sets, in the order it sets them. */
  function InitialAttrs(typeName: string, owner: Option<Uuid>, name: string, kind: string,
                        id: Uuid, now: string): Attrs
  {
    [Field("name", VStr(name)), Field("kind", VStr(kind)), Field("jid", VStr(Urn(id))),
     Field("j_owner", OwnerValue(owner)), Field("j_timestamp", VStr(now)),
     Field("j_type", VStr(typeName))]
  }

  /** The six attributes a new element starts with have distinct names. */
  lemma InitialDistinct(typeName: string, owner: Option<Uuid>, name: string, kind: string,
                        id: Uuid, now: string)
    ensures Distinct(InitialAttrs(typeName, owner, name, kind, id, now))
  {
    var a := InitialAttrs(typeName, owner, name, kind, id, now);
    assert "name"[0] == 'n' && "kind"[0] == 'k' && "jid"[0] == 'j' && "j_owner"[0] == 'j';
    assert "jid"[1] == 'i' && "j_owner"[1] == '_' && "j_timestamp"[1] == '_' && "j_type"[1] == '_';
    assert "j_owner"[2] == 'o' && "j_timestamp"[2] == 't' && "j_type"[2] == 't';
    assert "j_timestamp"[3] == 'i' && "j_type"[3] == 'y';
  }

  /** A new element reads back the fresh identifier it was given. */
  lemma InitialId(typeName: string, owner: Option<Uuid>, name: string, kind: string,
                  id: Uuid, now: string)
    ensures IdOf(InitialAttrs(typeName, owner, name, kind, id, now)) == Ok(id)
  {
    InitialJid(typeName, owner, name, kind, id, now);
    ParseUrn(id);
  }

  lemma InitialJid(typeName: string, owner: Option<Uuid>, name: string, kind: string,
                   id: Uuid, now: string)
    ensures Lookup(InitialAttrs(typeName, owner, name, kind, id, now), "jid") == Some(VStr(Urn(id)))
  {
    var a := InitialAttrs(typeName, owner, name, kind, id, now);
    InitialDistinct(typeName, owner, name, kind, id, now);
    LookupDistinct(a, 2);
  }

  /** A new element reads back the owner it was given, or no owner. */
  lemma InitialOwner(typeName: string, owner: Option<Uuid>, name: string, kind: string,
                     id: Uuid, now: string)
    ensures OwnerIdOf(InitialAttrs(typeName, owner, name, kind, id, now)) == Ok(owner)
  {
    var a := InitialAttrs(typeName, owner, name, kind, id, now);
    InitialDistinct(typeName, owner, name, kind, id, now);
    LookupDistinct(a, 3);
    OwnerIdOfStored(a, owner);
  }

  /** A new element is tagged with the name of its concrete class and
      stamped with its creation time. */
  lemma InitialTags(typeName: string, owner: Option<Uuid>, name: string, kind: string,
                    id: Uuid, now: string)
    ensures var a := InitialAttrs(typeName, owner, name, kind, id, now);
      Lookup(a, "j_type") == Some(VStr(typeName)) && Lookup(a, "j_timestamp") == Some(VStr(now)) &&
      Lookup(a, "name") == Some(VStr(name)) && Lookup(a, "kind") == Some(VStr(kind))
  {
    var a := InitialAttrs(typeName, owner, name, kind, id, now);
    InitialDistinct(typeName, owner, name, kind, id, now);
    LookupDistinct(a, 0);
    LookupDistinct(a, 1);
    LookupDistinct(a, 4);
    LookupDistinct(a, 5);
  }
}
