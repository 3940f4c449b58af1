/** `build_cmd` and `cmd_tree_builder` (jaseci_core/jaseci/jsctl/jsctl.py:112-152):
    the API tree becomes click groups and commands.

    A command is named after its tree key, calls the API method stored
    under `leaf`, and has one option per parameter of that method except
    `self`.  The signature `get_api_signature` reports is an input; click
    itself is represented only by what it is given. */
module ApiCommands {
  import opened Wrappers
  import opened Strings
  import opened ApiTree

  /** The `type` of a click option: `int`, `bool`, or `str` for every other
      annotation (jsctl.py:126-127). */
  datatype OptionType = IntOption | BoolOption | StrOption

  function OptionTypeOf(a: Annotation): OptionType
  {
    match a
    case IntAnnotation => IntOption
    case BoolAnnotation => BoolOption
    case _ => StrOption
  }

  /** Python truthiness. */
  predicate Truthy(v: PyValue)
  {
    match v
    case PNone => false
    case PBool(b) => b
    case PInt(i) => i != 0
    case PStr(s) => s != ""
    case PEmptyList => false
    case PEmptyDict => false
  }

  /** `str(v)`. */
  function Text(v: PyValue): string
  {
    match v
    case PNone => "None"
    case PBool(b) => if b then "True" else "False"
    case PInt(i) => IntText(i)
    case PStr(s) => s
    case PEmptyList => "[]"
    case PEmptyDict => "{}"
  }

  /** The value has the Python type of the option type. */
  predicate HasType(v: PyValue, t: OptionType)
  {
    match t
    case IntOption => v.PInt?
    case BoolOption => v.PBool?
    case StrOption => v.PStr?
  }

  /** `p_type(p_default)`: `int(None)` and `int` of a list or dict raise
      `TypeError`, `int` of text that is not a number `ValueError`. */
  function Coerce(t: OptionType, v: PyValue): Result<PyValue, CliError>
  {
    match t
    case BoolOption => Ok(PBool(Truthy(v)))
    case StrOption => Ok(PStr(Text(v)))
    case IntOption =>
      match v
      case PNone => Err(TypeError)
      case PBool(b) => Ok(PInt(if b then 1 else 0))
      case PInt(i) => Ok(PInt(i))
      case PStr(s) => (match ParseInt(s) case Some(n) => Ok(PInt(n)) case None => Err(ValueError))
      case PEmptyList => Err(TypeError)
      case PEmptyDict => Err(TypeError)
  }

  /** A coerced default has the option's type. */
  lemma CoerceTyped(t: OptionType, v: PyValue)
    requires Coerce(t, v).Ok?
    ensures HasType(Coerce(t, v).value, t)
  {
  }

  /** Only `int` can fail, and it fails exactly on `None`, containers and
      text that is not an integer. */
  lemma CoerceFails(t: OptionType, v: PyValue)
    ensures Coerce(t, v).Err? <==>
      t == IntOption && (v.PNone? || v.PEmptyList? || v.PEmptyDict? || (v.PStr? && ParseInt(v.s).None?))
  {
  }

  /** Coercing an already coerced value changes nothing. */
  lemma CoerceIdempotent(t: OptionType, v: PyValue)
    requires Coerce(t, v).Ok?
    ensures Coerce(t, Coerce(t, v).value) == Coerce(t, v)
  {
  }

  /** An integer default survives a trip through `str` and back. */
  lemma CoerceTextInt(n: int)
    ensures Coerce(IntOption, Coerce(StrOption, PInt(n)).value) == Ok(PInt(n))
  {
    ParseIntText(n);
  }

  /** What `click.option` is given for one parameter. */
  datatype ClickOption = ClickOption(flag: string, required: bool, typ: OptionType, default: Option<PyValue>)

  /** The option of one parameter (jsctl.py:124-134): a parameter with a
      default gets that default, coerced, and is optional; one without a
      default is required. */
  function OptionFor(p: Param): Result<ClickOption, CliError>
  {
    var t := OptionTypeOf(p.annotation);
    match p.default
    case None => Ok(ClickOption("-" + p.name, true, t, None))
    case Some(d) =>
      match Coerce(t, d)
      case Err(e) => Err(e)
      case Ok(v) => Ok(ClickOption("-" + p.name, false, t, Some(v)))
  }

  /** What an option promises about its parameter. */
  lemma OptionForFacts(p: Param)
    ensures OptionFor(p).Err? <==> p.default.Some? && Coerce(OptionTypeOf(p.annotation), p.default.value).Err?
    ensures OptionFor(p).Ok? ==>
      var o := OptionFor(p).value;
      && o.flag == "-" + p.name
      && (o.required <==> p.default.None?)
      && (o.default.Some? <==> p.default.Some?)
      && (o.default.Some? ==> HasType(o.default.value, o.typ))
      && (p.annotation.IntAnnotation? ==> o.typ == IntOption)
      && (p.annotation.BoolAnnotation? ==> o.typ == BoolOption)
      && (!p.annotation.IntAnnotation? && !p.annotation.BoolAnnotation? ==> o.typ == StrOption)
  {
    if p.default.Some? && OptionFor(p).Ok? {
      CoerceTyped(OptionTypeOf(p.annotation), p.default.value);
    }
  }

  /** The parameters other than `self`, in order. */
  function NonSelf(ps: Signature): (r: Signature)
    ensures forall q :: q in r <==> q in ps && q.name != "self"
  {
    if ps == [] then []
    else
      assert forall q :: q in ps <==> q == ps[0] || q in ps[1..];
      if ps[0].name == "self" then NonSelf(ps[1..]) else [ps[0]] + NonSelf(ps[1..])
  }

  /** The options of a signature; the first parameter whose default cannot
      be coerced ends the build with its error. */
  function OptionsFor(ps: Signature): Result<seq<ClickOption>, CliError>
  {
    if ps == [] then Ok([])
    else if ps[0].name == "self" then OptionsFor(ps[1..])
    else
      match OptionFor(ps[0])
      case Err(e) => Err(e)
      case Ok(o) =>
        match OptionsFor(ps[1..])
        case Err(e) => Err(e)
        case Ok(os) => Ok([o] + os)
  }

  /** The options correspond one to one, in order, to the parameters other
      than `self`, and they are built exactly when every such default can
      be coerced. */
  lemma {:induction false} OptionsForEach(ps: Signature)
    ensures OptionsFor(ps).Ok? <==> forall q :: q in NonSelf(ps) ==> OptionFor(q).Ok?
    ensures OptionsFor(ps).Ok? ==>
      var os := OptionsFor(ps).value;
      |os| == |NonSelf(ps)| && forall k :: 0 <= k < |os| ==> Ok(os[k]) == OptionFor(NonSelf(ps)[k])
  {
    if ps != [] {
      OptionsForEach(ps[1..]);
      if ps[0].name != "self" {
        var n := NonSelf(ps);
        assert n == [ps[0]] + NonSelf(ps[1..]);
        assert forall q :: q in n <==> q == ps[0] || q in NonSelf(ps[1..]);
        if OptionFor(ps[0]).Ok? && OptionsFor(ps[1..]).Ok? {
          ConsOptions(OptionFor(ps[0]).value, OptionsFor(ps[1..]).value, ps[0], NonSelf(ps[1..]));
        }
      }
    }
  }

  lemma ConsOptions(o: ClickOption, os: seq<ClickOption>, p: Param, n: Signature)
    requires Ok(o) == OptionFor(p) && |os| == |n|
    requires forall k :: 0 <= k < |os| ==> Ok(os[k]) == OptionFor(n[k])
    ensures forall k :: 0 <= k < |[o] + os| ==> Ok(([o] + os)[k]) == OptionFor(([p] + n)[k])
  {
    forall k | 0 <= k < |[o] + os| ensures Ok(([o] + os)[k]) == OptionFor(([p] + n)[k]) {
      if k > 0 {
        assert ([o] + os)[k] == os[k - 1] && ([p] + n)[k] == n[k - 1];
      }
    }
  }

  /** Which of click's nodes the builder registers. */
  datatype ClickNode =
    | Command(name: string, api: string, options: seq<ClickOption>)
    | ClickGroup(name: string, doc: string, children: seq<ClickNode>)

  /** The command `build_cmd` registers for tree key `name` and method
      `api`. */
  function CommandFor(name: string, api: string, sig: Signature): Result<ClickNode, CliError>
  {
    match OptionsFor(sig)
    case Err(e) => Err(e)
    case Ok(os) => Ok(Command(name, api, os))
  }

  /** `build_cmd`, as the loop over the parameters the source runs. */
  method BuildCmd(funcName: string, apiName: string, funcSig: Signature) returns (r: Result<ClickNode, CliError>)
    ensures r == CommandFor(funcName, apiName, funcSig)
  {
    var options: seq<ClickOption> := [];
    var k := 0;
    PrependNothing(OptionsFor(funcSig));
    while k < |funcSig|
      invariant k <= |funcSig|
      invariant OptionsFor(funcSig) == Prepend(options, OptionsFor(funcSig[k..]))
    {
      var p := funcSig[k];
      assert funcSig[k..][0] == p && funcSig[k..][1..] == funcSig[k + 1..];
      if p.name != "self" {
        var o := OptionFor(p);
        if o.Err? {
          return Err(o.error);
        }
        PrependAssoc(options, o.value, OptionsFor(funcSig[k + 1..]));
        options := options + [o.value];
      }
      k := k + 1;
    }
    assert funcSig[k..] == [] && options + [] == options;
    return Ok(Command(funcName, apiName, options));
  }

  /** The outcome of a build that already produced `acc`. */
  function Prepend<T>(acc: seq<T>, r: Result<seq<T>, CliError>): Result<seq<T>, CliError>
  {
    match r
    case Err(e) => Err(e)
    case Ok(rest) => Ok(acc + rest)
  }

  lemma PrependNothing<T>(r: Result<seq<T>, CliError>)
    ensures Prepend([], r) == r
  {
    if r.Ok? {
      assert [] + r.value == r.value;
    }
  }

  lemma PrependAssoc<T>(acc: seq<T>, x: T, r: Result<seq<T>, CliError>)
    ensures Prepend(acc, Prepend([x], r)) == Prepend(acc + [x], r)
  {
    if r.Ok? {
      assert acc + ([x] + r.value) == acc + [x] + r.value;
    }
  }

  // ---------------------------------------------------------------------
  // The command tree
  // ---------------------------------------------------------------------

  /** The docstring of the group for key `i` below `cmdStr` (jsctl.py:148). */
  function GroupDoc(cmdStr: string, i: string): string
  {
    "Group of `" + LStrip(cmdStr + " " + i) + "` commands"
  }

  /** `cmd_tree_builder(location, ..., cmd_str)`: one node per key, in the
      order of the keys; the first exception ends the build. */
  function BuildEntries(es: seq<Entry>, cmdStr: string, apiSig: string -> Signature): Result<seq<ClickNode>, CliError>
    decreases es, 1
  {
    if es == [] then Ok([])
    else
      match EntryNode(es, 0, cmdStr, apiSig)
      case Err(e) => Err(e)
      case Ok(node) => Prepend([node], BuildEntries(es[1..], cmdStr, apiSig))
  }

  /** The node for key `es[k]` (jsctl.py:141-150).  A dict holding `leaf`
      becomes a command and its sub-groups are skipped; any other dict
      becomes a group built recursively.  `loc['leaf'][0]` on a dict under
      `leaf` raises `KeyError`; a `leaf` list met as `loc` raises
      `TypeError` on `loc['leaf']` when the method is itself named `leaf`
      and `AttributeError` on `loc.keys()` otherwise. */
  function EntryNode(es: seq<Entry>, k: nat, cmdStr: string, apiSig: string -> Signature): Result<ClickNode, CliError>
    requires k < |es|
    decreases es, 0
  {
    var i, loc := es[k].key, es[k].val;
    match loc
    case Leaf(api, _) => if api == LeafKey then Err(TypeError) else Err(AttributeError)
    case Group(sub) =>
      match Get(sub, LeafKey)
      case Some(Leaf(api, _)) => CommandFor(i, api, apiSig(api))
      case Some(Group(_)) => Err(KeyError)
      case None =>
        match BuildEntries(sub, cmdStr + " " + i, apiSig)
        case Err(e) => Err(e)
        case Ok(children) => Ok(ClickGroup(i, GroupDoc(cmdStr, i), children))
  }

  /** `cmd_tree_builder`, as the loop the source runs. */
  method CmdTreeBuilder(location: seq<Entry>, cmdStr: string, apiSig: string -> Signature)
    returns (r: Result<seq<ClickNode>, CliError>)
    ensures r == BuildEntries(location, cmdStr, apiSig)
    decreases location, 1
  {
    var built: seq<ClickNode> := [];
    var k := 0;
    PrependNothing(BuildEntries(location, cmdStr, apiSig));
    while k < |location|
      invariant k <= |location|
      invariant BuildEntries(location, cmdStr, apiSig) == Prepend(built, BuildEntries(location[k..], cmdStr, apiSig))
    {
      var rest := location[k..];
      assert rest[0] == location[k] && rest[1..] == location[k + 1..];
      assert EntryNode(rest, 0, cmdStr, apiSig) == EntryNode(location, k, cmdStr, apiSig);
      var node := NodeOf(location, k, cmdStr, apiSig);
      if node.Err? {
        return Err(node.error);
      }
      PrependAssoc(built, node.value, BuildEntries(location[k + 1..], cmdStr, apiSig));
      built := built + [node.value];
      k := k + 1;
    }
    assert location[k..] == [] && built + [] == built;
    return Ok(built);
  }

  /** The body of the loop of `cmd_tree_builder` for key `location[k]`. */
  method NodeOf(location: seq<Entry>, k: nat, cmdStr: string, apiSig: string -> Signature)
    returns (r: Result<ClickNode, CliError>)
    requires k < |location|
    ensures r == EntryNode(location, k, cmdStr, apiSig)
    decreases location, 0
  {
    var i, loc := location[k].key, location[k].val;
    match loc {
      case Leaf(api, _) =>
        return Err(if api == LeafKey then TypeError else AttributeError);
      case Group(sub) =>
        var leaf := Get(sub, LeafKey);
        if leaf.Some? {
          if leaf.value.Group? {
            return Err(KeyError);
          }
          r := BuildCmd(i, leaf.value.api, apiSig(leaf.value.api));
        } else {
          var children := CmdTreeBuilder(sub, cmdStr + " " + i, apiSig);
          if children.Err? {
            return Err(children.error);
          }
          r := Ok(ClickGroup(i, GroupDoc(cmdStr, i), children.value));
        }
    }
  }

  /** Each command with the path of tree keys that leads to it. */
  function CommandPaths(ns: seq<ClickNode>): (r: set<(seq<string>, string)>)
    ensures forall x :: x in r ==> |x.0| >= 1
    decreases ns
  {
    if ns == [] then {}
    else
      var here: set<(seq<string>, string)> :=
        match ns[0]
        case Command(name, api, _) => {([name], api)}
        case ClickGroup(name, _, children) =>
          set x | x in CommandPaths(children) :: ([name] + x.0, x.1);
      here + CommandPaths(ns[1..])
  }

  /** A path is shadowed when a dict above its end already holds a method:
      the builder makes that one a command and goes no deeper. */
  predicate Shadowed(es: seq<Entry>, p: seq<string>)
  {
    exists n :: 1 <= n < |p| && LeafAt(es, p[..n]).Some?
  }

  lemma WellFormedParts(es: seq<Entry>)
    requires WellFormed(es) && es != []
    ensures WellFormed(es[1..])
    ensures es[0].val.Group? ==> WellFormed(es[0].val.entries)
  {
    var t := es[1..];
    forall a, b | 0 <= a < b < |t| ensures t[a].key != t[b].key {
      assert t[a] == es[a + 1] && t[b] == es[b + 1];
    }
    forall a | 0 <= a < |t| && t[a].val.Group? ensures WellFormed(t[a].val.entries) {
      assert t[a] == es[a + 1];
    }
  }

  /** A successful build is the node of the first key followed by the
      nodes of the others. */
  lemma BuildCons(es: seq<Entry>, cmdStr: string, apiSig: string -> Signature)
    requires es != [] && BuildEntries(es, cmdStr, apiSig).Ok?
    ensures EntryNode(es, 0, cmdStr, apiSig).Ok? && BuildEntries(es[1..], cmdStr, apiSig).Ok?
    ensures BuildEntries(es, cmdStr, apiSig).value ==
      [EntryNode(es, 0, cmdStr, apiSig).value] + BuildEntries(es[1..], cmdStr, apiSig).value
  {
  }

  lemma CommandPathsCons(node: ClickNode, rest: seq<ClickNode>)
    ensures CommandPaths([node] + rest) == CommandPaths([node]) + CommandPaths(rest)
  {
    assert ([node] + rest)[0] == node && ([node] + rest)[1..] == rest;
    assert [node][1..] == [];
  }

  lemma GroupDocsCons(node: ClickNode, rest: seq<ClickNode>)
    ensures GroupDocs([node] + rest) == GroupDocs([node]) + GroupDocs(rest)
  {
    assert ([node] + rest)[0] == node && ([node] + rest)[1..] == rest;
    assert [node][1..] == [];
  }

  /** A path that does not start with the first key is looked up in the
      rest of the level. */
  lemma ShiftTail(es: seq<Entry>, p: seq<string>)
    requires es != [] && |p| >= 1 && p[0] != es[0].key
    ensures LeafAt(es, p) == LeafAt(es[1..], p)
    ensures Shadowed(es, p) <==> Shadowed(es[1..], p)
  {
    forall n | 1 <= n < |p| ensures LeafAt(es, p[..n]) == LeafAt(es[1..], p[..n]) {
      assert p[..n][0] == p[0];
    }
  }

  /** A path through the first key continues in that key's dict. */
  lemma ShiftHead(es: seq<Entry>, p: seq<string>)
    requires es != [] && es[0].val.Group? && |p| >= 2 && p[0] == es[0].key
    ensures LeafAt(es, p) == LeafAt(es[0].val.entries, p[1..])
    ensures Shadowed(es, p) <==> LeafAt(es[0].val.entries, []).Some? || Shadowed(es[0].val.entries, p[1..])
  {
    var sub, q := es[0].val.entries, p[1..];
    assert Get(es, p[0]) == Some(Group(sub));
    assert p[..1] == [p[0]] && [p[0]][1..] == [];
    forall n | 1 <= n < |q| ensures LeafAt(es, p[..n + 1]) == LeafAt(sub, q[..n]) {
      assert p[..n + 1][0] == p[0] && p[..n + 1][1..] == q[..n];
    }
    if Shadowed(es, p) {
      var n :| 1 <= n < |p| && LeafAt(es, p[..n]).Some?;
      if n > 1 {
        assert LeafAt(sub, q[..n - 1]).Some?;
      }
    }
  }

  /** Every command sits on a path whose last dict holds the command's
      method, and no dict above it holds one. */
  lemma {:induction false} BuildSound(es: seq<Entry>, cmdStr: string, apiSig: string -> Signature)
    requires WellFormed(es) && BuildEntries(es, cmdStr, apiSig).Ok?
    ensures forall x :: x in CommandPaths(BuildEntries(es, cmdStr, apiSig).value) ==>
      LeafAt(es, x.0).Some? && LeafAt(es, x.0).value.api == x.1 && !Shadowed(es, x.0)
    decreases es, 1
  {
    if es != [] {
      BuildCons(es, cmdStr, apiSig);
      var node := EntryNode(es, 0, cmdStr, apiSig).value;
      var rest := BuildEntries(es[1..], cmdStr, apiSig).value;
      CommandPathsCons(node, rest);
      WellFormedParts(es);
      BuildSound(es[1..], cmdStr, apiSig);
      forall x | x in CommandPaths(rest)
        ensures LeafAt(es, x.0).Some? && LeafAt(es, x.0).value.api == x.1 && !Shadowed(es, x.0)
      {
        assert x.0[0] in Keys(es[1..]);
        var m :| 0 <= m < |es[1..]| && Keys(es[1..])[m] == x.0[0];
        assert es[1..][m] == es[m + 1];
        ShiftTail(es, x.0);
      }
      SoundHead(es, cmdStr, apiSig);
    }
  }

  lemma SoundHead(es: seq<Entry>, cmdStr: string, apiSig: string -> Signature)
    requires WellFormed(es) && es != [] && EntryNode(es, 0, cmdStr, apiSig).Ok?
    ensures forall x :: x in CommandPaths([EntryNode(es, 0, cmdStr, apiSig).value]) ==>
      LeafAt(es, x.0).Some? && LeafAt(es, x.0).value.api == x.1 && !Shadowed(es, x.0)
    decreases es, 0
  {
    var node := EntryNode(es, 0, cmdStr, apiSig).value;
    var i := es[0].key;
    var sub := es[0].val.entries;
    assert Get(es, i) == Some(Group(sub));
    assert [node][1..] == [];
    if node.ClickGroup? {
      WellFormedParts(es);
      BuildSound(sub, cmdStr + " " + i, apiSig);
      forall x | x in CommandPaths(node.children)
        ensures var p := [i] + x.0; LeafAt(es, p).Some? && LeafAt(es, p).value.api == x.1 && !Shadowed(es, p)
      {
        var p := [i] + x.0;
        assert p[1..] == x.0;
        ShiftHead(es, p);
      }
    }
  }

  /** Every method on a path that no dict above it shadows gets a command. */
  lemma {:induction false} BuildComplete(es: seq<Entry>, cmdStr: string, apiSig: string -> Signature, p: seq<string>)
    requires WellFormed(es) && BuildEntries(es, cmdStr, apiSig).Ok?
    requires |p| >= 1 && LeafAt(es, p).Some? && !Shadowed(es, p)
    ensures (p, LeafAt(es, p).value.api) in CommandPaths(BuildEntries(es, cmdStr, apiSig).value)
    decreases es, 1
  {
    BuildCons(es, cmdStr, apiSig);
    var node := EntryNode(es, 0, cmdStr, apiSig).value;
    var rest := BuildEntries(es[1..], cmdStr, apiSig).value;
    CommandPathsCons(node, rest);
    WellFormedParts(es);
    if p[0] == es[0].key {
      CompleteHead(es, cmdStr, apiSig, p);
    } else {
      ShiftTail(es, p);
      BuildComplete(es[1..], cmdStr, apiSig, p);
    }
  }

  lemma CompleteHead(es: seq<Entry>, cmdStr: string, apiSig: string -> Signature, p: seq<string>)
    requires WellFormed(es) && es != [] && EntryNode(es, 0, cmdStr, apiSig).Ok?
    requires |p| >= 1 && p[0] == es[0].key && LeafAt(es, p).Some? && !Shadowed(es, p)
    ensures (p, LeafAt(es, p).value.api) in CommandPaths([EntryNode(es, 0, cmdStr, apiSig).value])
    decreases es, 0
  {
    var node := EntryNode(es, 0, cmdStr, apiSig).value;
    var i := es[0].key;
    var sub := es[0].val.entries;
    assert Get(es, i) == Some(Group(sub));
    assert [node][1..] == [];
    if |p| == 1 {
      assert p == [i];
    } else {
      ShiftHead(es, p);
      var q := p[1..];
      WellFormedParts(es);
      BuildComplete(sub, cmdStr + " " + i, apiSig, q);
      assert p == [i] + q;
    }
  }

  /** The command path of a group with each key preceded by a space, as
      `cmd_str` accumulates it (jsctl.py:150). */
  function Spaced(p: seq<string>): string
  {
    if p == [] then "" else " " + p[0] + Spaced(p[1..])
  }

  /** Each group with the path of tree keys that leads to it and its
      docstring. */
  function GroupDocs(ns: seq<ClickNode>): set<(seq<string>, string)>
    decreases ns
  {
    if ns == [] then {}
    else
      var here: set<(seq<string>, string)> :=
        match ns[0]
        case Command(_, _, _) => {}
        case ClickGroup(name, doc, children) =>
          {([name], doc)} + set x | x in GroupDocs(children) :: ([name] + x.0, x.1);
      here + GroupDocs(ns[1..])
  }

  /** A group's docstring names it by its whole command path. */
  lemma {:induction false} BuildDocs(es: seq<Entry>, cmdStr: string, apiSig: string -> Signature)
    requires BuildEntries(es, cmdStr, apiSig).Ok?
    ensures forall x :: x in GroupDocs(BuildEntries(es, cmdStr, apiSig).value) ==>
      x.1 == "Group of `" + LStrip(cmdStr + Spaced(x.0)) + "` commands"
    decreases es, 1
  {
    if es != [] {
      BuildCons(es, cmdStr, apiSig);
      var node := EntryNode(es, 0, cmdStr, apiSig).value;
      GroupDocsCons(node, BuildEntries(es[1..], cmdStr, apiSig).value);
      BuildDocs(es[1..], cmdStr, apiSig);
      DocsHead(es, cmdStr, apiSig);
    }
  }

  lemma DocsHead(es: seq<Entry>, cmdStr: string, apiSig: string -> Signature)
    requires es != [] && EntryNode(es, 0, cmdStr, apiSig).Ok?
    ensures forall x :: x in GroupDocs([EntryNode(es, 0, cmdStr, apiSig).value]) ==>
      x.1 == "Group of `" + LStrip(cmdStr + Spaced(x.0)) + "` commands"
    decreases es, 0
  {
    var node := EntryNode(es, 0, cmdStr, apiSig).value;
    if node.ClickGroup? {
      var i := es[0].key;
      var sub := es[0].val.entries;
      var inner := cmdStr + " " + i;
      assert Get(sub, LeafKey).None? && node == ClickGroup(i, GroupDoc(cmdStr, i), BuildEntries(sub, inner, apiSig).value);
      BuildDocs(sub, inner, apiSig);
      GroupDocsOne(i, node.doc, node.children);
      LiftDocs(cmdStr, i, node.doc, GroupDocs(node.children));
    } else {
      assert [node][1..] == [];
    }
  }

  lemma GroupDocsOne(name: string, doc: string, children: seq<ClickNode>)
    ensures GroupDocs([ClickGroup(name, doc, children)]) ==
      {([name], doc)} + set x | x in GroupDocs(children) :: ([name] + x.0, x.1)
  {
    assert [ClickGroup(name, doc, children)][1..] == [];
  }

  /** The docstrings of a group and of the groups below it, given those
      below name their path from the group's own `cmd_str`. */
  lemma LiftDocs(c: string, i: string, d: string, below: set<(seq<string>, string)>)
    requires d == GroupDoc(c, i)
    requires forall y :: y in below ==> y.1 == "Group of `" + LStrip(c + " " + i + Spaced(y.0)) + "` commands"
    ensures forall x :: x in {([i], d)} + (set y | y in below :: ([i] + y.0, y.1)) ==>
      x.1 == "Group of `" + LStrip(c + Spaced(x.0)) + "` commands"
  {
    forall x | x in {([i], d)} + (set y | y in below :: ([i] + y.0, y.1))
      ensures x.1 == "Group of `" + LStrip(c + Spaced(x.0)) + "` commands"
    {
      if x == ([i], d) {
        DocHere(c, i, x.1);
      } else {
        var y :| y in below && x == ([i] + y.0, y.1);
        DocBelow(c, i, y.0, y.1);
      }
    }
  }

  lemma DocHere(c: string, i: string, d: string)
    requires d == GroupDoc(c, i)
    ensures d == "Group of `" + LStrip(c + Spaced([i])) + "` commands"
  {
    assert [i][1..] == [];
    assert Spaced([i]) == " " + i;
    assert c + Spaced([i]) == c + " " + i;
  }

  lemma DocBelow(c: string, i: string, rest: seq<string>, d: string)
    requires d == "Group of `" + LStrip(c + " " + i + Spaced(rest)) + "` commands"
    ensures d == "Group of `" + LStrip(c + Spaced([i] + rest)) + "` commands"
  {
    SpacedCons(c, i, rest);
  }

  lemma SpacedCons(c: string, i: string, rest: seq<string>)
    ensures c + Spaced([i] + rest) == c + " " + i + Spaced(rest)
  {
    var p := [i] + rest;
    assert p[0] == i && p[1..] == rest;
    var t := Spaced(rest);
    assert Spaced(p) == " " + i + t;
    calc {
      c + Spaced(p);
      c + (" " + i + t);
      { SeqAssoc(c, " " + i, t); }
      c + (" " + i) + t;
      { SeqAssoc(c, " ", i); }
      c + " " + i + t;
    }
  }

  lemma SeqAssoc(a: string, b: string, c: string)
    ensures a + (b + c) == a + b + c
  {
  }

  /** With `cmd_str` starting empty, the docstring spells the path with
      single spaces, as long as its first key is not empty and does not
      begin with a space. */
  lemma SpacedPath(p: seq<string>)
    requires |p| >= 1 && p[0] != "" && p[0][0] != ' '
    ensures LStrip("" + Spaced(p)) == Join(p, ' ')
  {
    SpacedJoin(p);
    var j := Join(p, ' ');
    JoinHead(p);
    var s := "" + Spaced(p);
    assert s == " " + j;
    assert s[0] == ' ' && s[1..] == j;
    assert LStrip(s) == LStrip(j);
  }

  lemma JoinHead(p: seq<string>)
    requires |p| >= 1 && p[0] != ""
    ensures |Join(p, ' ')| >= 1 && Join(p, ' ')[0] == p[0][0]
  {
    if |p| > 1 {
      assert Join(p, ' ') == p[0] + [' '] + Join(p[1..], ' ');
    }
  }

  lemma {:induction false} SpacedJoin(p: seq<string>)
    requires |p| >= 1
    ensures Spaced(p) == " " + Join(p, ' ')
  {
    if |p| > 1 {
      SpacedJoin(p[1..]);
      assert Spaced(p) == " " + p[0] + (" " + Join(p[1..], ' '));
    }
  }
}
