/** `WktNotes.wkt_note` (frontend/web/src/components/wkt-note-set.jsx:6-11):
    the filter that picks, among the workette items of a list, the open
    notes.  An item is a JavaScript value; its `context` holds the fields
    `wtype` and `status`. */
module WktNotes {
  import opened Wrappers

  /** A JavaScript value.  Numbers are integers here; arrays and functions
      are objects. */
  datatype JsValue =
    | JUndefined
    | JNull
    | JBool(b: bool)
    | JNum(n: int)
    | JStr(s: string)
    | JObject(props: map<string, JsValue>)

  datatype JsError = TypeError

  /** `v.name`: reading a property of `undefined` or `null` throws a
      `TypeError`; an absent property is `undefined`, and so are the
      properties of booleans, numbers and strings read here, which have no
      such built-in property. */
  function Prop(v: JsValue, name: string): Result<JsValue, JsError>
    requires name in {"context", "status", "wtype"}
  {
    match v
    case JUndefined => Err(TypeError)
    case JNull => Err(TypeError)
    case JObject(m) => Ok(if name in m then m[name] else JUndefined)
    case _ => Ok(JUndefined)
  }

  /** JavaScript truthiness. */
  predicate Truthy(v: JsValue)
  {
    match v
    case JUndefined => false
    case JNull => false
    case JBool(b) => b
    case JNum(n) => n != 0
    case JStr(s) => s != ""
    case JObject(_) => true
  }

  /** `wkt_note(w)`. */
  function WktNote(w: JsValue): Result<bool, JsError>
  {
    var ctx :- Prop(w, "context");
    var status :- Prop(ctx, "status");
    var isOpen := status == JStr("open") || !Truthy(status);
    var wtype :- Prop(ctx, "wtype");
    Ok(Truthy(wtype) && wtype == JStr("note") && isOpen)
  }

  /** The context of an item, when it is readable. */
  function Context(w: JsValue): Option<JsValue>
  {
    match Prop(w, "context")
    case Ok(ctx) => if ctx.JUndefined? || ctx.JNull? then None else Some(ctx)
    case Err(_) => None
  }

  /** The filter throws exactly when the item or its context is `null` or
      `undefined`; otherwise an item is kept exactly when its `wtype` is the
      string `note` and its `status` is the string `open` or falsy.  The
      truthiness test on `wtype` adds nothing to the comparison with
      `note`. */
  lemma WktNoteMeans(w: JsValue)
    ensures WktNote(w).Err? <==> Context(w).None?
    ensures Context(w).Some? ==>
      var ctx := Context(w).value;
      var status, wtype := Prop(ctx, "status").value, Prop(ctx, "wtype").value;
      WktNote(w) == Ok(wtype == JStr("note") && (status == JStr("open") || !Truthy(status)))
  {
  }

  /** An item whose context is the object `m`. */
  function Item(m: map<string, JsValue>): JsValue
  {
    JObject(map["context" := JObject(m)])
  }

  /** A note without a status, or with an empty, `null` or `false` status,
      counts as open. */
  lemma MissingStatusIsOpen(m: map<string, JsValue>)
    requires "status" !in m || m["status"] in {JStr(""), JNull, JBool(false), JUndefined, JNum(0)}
    requires "wtype" in m && m["wtype"] == JStr("note")
    ensures WktNote(Item(m)) == Ok(true)
  {
  }

  /** A note whose status is `done`, or any other non-empty text than
      `open`, is left out. */
  lemma ClosedNoteIsLeftOut(m: map<string, JsValue>, status: string)
    requires status != "" && status != "open"
    requires "status" in m && m["status"] == JStr(status)
    ensures WktNote(Item(m)) == Ok(false)
  {
  }

  /** An item whose `wtype` is missing or is anything but the string
      `note` is left out, whatever its status. */
  lemma OtherTypeIsLeftOut(m: map<string, JsValue>)
    requires "wtype" !in m || m["wtype"] != JStr("note")
    ensures WktNote(Item(m)) == Ok(false)
  {
  }
}
