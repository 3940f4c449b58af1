/** `extract_api_tree` (jaseci_core/jaseci/jsctl/jsctl.py:89-109): the
    names of the master's API methods become a tree of command groups.

    A method named `api_a_b_c` (or `admin_api_a_b_c`) is filed under the
    group path `a`, `b`, `c`; the dict reached by that path gets the entry
    `leaf = [name, signature]`.  Dicts keep their keys in insertion order, so
    a tree level is an ordered list of entries.  `dir(master)` and the
    signatures `inspect.signature` reports are inputs. */
module ApiTree {
  import opened Wrappers
  import opened Strings

  /** The exceptions the command-line code can raise. */
  datatype CliError = AttributeError | KeyError | TypeError | ValueError | IndexError | UnboundLocalError

  /** A parameter annotation: `int`, `bool`, `str`, or anything else
      (including no annotation at all). */
  datatype Annotation = IntAnnotation | BoolAnnotation | StrAnnotation | OtherAnnotation

  /** A Python value as it can appear as a parameter default. */
  datatype PyValue = PNone | PBool(b: bool) | PInt(i: int) | PStr(s: string) | PEmptyList | PEmptyDict

  /** One parameter of an API method: its name, its default when it has
      one, and its annotation. */
  datatype Param = Param(name: string, default: Option<PyValue>, annotation: Annotation)

  type Signature = seq<Param>

  /** A value in the tree: a nested dict, or the `[name, signature]` list
      stored under the key `leaf`. */
  datatype Tree = Group(entries: seq<Entry>) | Leaf(api: string, sig: Signature)

  datatype Entry = Entry(key: string, val: Tree)

  /** The key under which a group keeps its API method. */
  const LeafKey: string := "leaf"

  function Keys(es: seq<Entry>): (ks: seq<string>)
    ensures |ks| == |es|
    ensures forall i :: 0 <= i < |es| ==> ks[i] == es[i].key
  {
    if es == [] then [] else [es[0].key] + Keys(es[1..])
  }

  /** No key occurs twice on one level. */
  predicate UniqueKeys(es: seq<Entry>)
  {
    forall i, j :: 0 <= i < j < |es| ==> es[i].key != es[j].key
  }

  /** `d.get(k)`. */
  function Get(es: seq<Entry>, k: string): (r: Option<Tree>)
    ensures r.Some? <==> k in Keys(es)
    ensures r.Some? ==> Entry(k, r.value) in es
  {
    if es == [] then None
    else if es[0].key == k then Some(es[0].val)
    else
      var r := Get(es[1..], k);
      assert es == [es[0]] + es[1..];
      r
  }

  /** `d[k] = v`: an existing key keeps its place, a new one goes last. */
  function Put(es: seq<Entry>, k: string, v: Tree): (r: seq<Entry>)
    ensures Get(r, k) == Some(v)
    ensures forall k' :: k' != k ==> Get(r, k') == Get(es, k')
  {
    if es == [] then [Entry(k, v)]
    else if es[0].key == k then [Entry(k, v)] + es[1..]
    else [es[0]] + Put(es[1..], k, v)
  }

  /** `d[k] = v` keeps the order of the keys, a new key going last. */
  lemma PutKeys(es: seq<Entry>, k: string, v: Tree)
    ensures Keys(Put(es, k, v)) == if k in Keys(es) then Keys(es) else Keys(es) + [k]
  {
    if k in Keys(es) {
      PutPresent(es, k, v);
    } else {
      PutAbsent(es, k, v);
    }
  }

  lemma {:induction false} PutPresent(es: seq<Entry>, k: string, v: Tree)
    requires k in Keys(es)
    ensures Keys(Put(es, k, v)) == Keys(es)
  {
    var t := es[1..];
    assert Keys(es) == [es[0].key] + Keys(t);
    if es[0].key != k {
      PutPresent(t, k, v);
      assert Keys(Put(es, k, v)) == [es[0].key] + Keys(Put(t, k, v));
    } else {
      assert Keys(Put(es, k, v)) == [k] + Keys(t);
    }
  }

  lemma {:induction false} PutAbsent(es: seq<Entry>, k: string, v: Tree)
    requires k !in Keys(es)
    ensures Keys(Put(es, k, v)) == Keys(es) + [k]
  {
    if es != [] {
      var t := es[1..];
      assert Keys(es) == [es[0].key] + Keys(t);
      PutAbsent(t, k, v);
      assert Keys(Put(es, k, v)) == [es[0].key] + Keys(Put(t, k, v));
    }
  }

  /** `d[k] = v` stores nothing but the entries it had and the new one. */
  lemma {:induction false} PutEntries(es: seq<Entry>, k: string, v: Tree)
    ensures forall e :: e in Put(es, k, v) ==> e in es || e == Entry(k, v)
  {
    if es != [] && es[0].key != k {
      PutEntries(es[1..], k, v);
      assert forall e :: e in es[1..] ==> e in es;
    }
  }

  lemma PutUnique(es: seq<Entry>, k: string, v: Tree)
    requires UniqueKeys(es)
    ensures UniqueKeys(Put(es, k, v))
  {
    var r := Put(es, k, v);
    PutKeys(es, k, v);
    forall i, j | 0 <= i < j < |r| ensures r[i].key != r[j].key {
      assert Keys(r)[i] == r[i].key && Keys(r)[j] == r[j].key;
      assert Keys(es)[i] == es[i].key;
      if j < |es| { assert Keys(es)[j] == es[j].key; }
    }
  }

  lemma GetUnique(es: seq<Entry>, i: nat)
    requires UniqueKeys(es) && i < |es|
    ensures Get(es, es[i].key) == Some(es[i].val)
  {
    if i > 0 {
      assert es[0].key != es[i].key;
      var t := es[1..];
      assert UniqueKeys(t) by {
        forall a, b | 0 <= a < b < |t| ensures t[a].key != t[b].key {
          assert t[a] == es[a + 1] && t[b] == es[b + 1];
        }
      }
      assert t[i - 1] == es[i];
      GetUnique(t, i - 1);
    }
  }

  // ---------------------------------------------------------------------
  // Method names
  // ---------------------------------------------------------------------

  predicate StartsWith(s: string, p: string)
  {
    |p| <= |s| && s[..|p|] == p
  }

  /** The names that enter the tree (jsctl.py:96). */
  predicate IsApiName(i: string)
  {
    StartsWith(i, "api_") || StartsWith(i, "admin_api_")
  }

  /** The name without its `api_` or `admin_api_` prefix (jsctl.py:98). */
  function FuncStr(i: string): (f: string)
    requires IsApiName(i)
    ensures StartsWith(i, "api_") ==> i == "api_" + f
    ensures !StartsWith(i, "api_") ==> i == "admin_api_" + f
  {
    if StartsWith(i, "api_") then
      assert i == i[..4] + i[4..];
      i[4..]
    else
      assert i == i[..10] + i[10..];
      i[10..]
  }

  /** The group path of an API name: its rest split at underscores
      (jsctl.py:99). */
  function GroupPath(i: string): (p: seq<string>)
    requires IsApiName(i)
    ensures |p| >= 1
  {
    Split(FuncStr(i), '_')
  }

  /** The group path spells the name back: joining it with underscores
      and putting the prefix in front gives the method name. */
  lemma GroupPathSpellsName(i: string)
    requires IsApiName(i)
    ensures Join(GroupPath(i), '_') == FuncStr(i)
    ensures i == (if StartsWith(i, "api_") then "api_" else "admin_api_") + Join(GroupPath(i), '_')
  {
    JoinSplit(FuncStr(i), '_');
  }

  // ---------------------------------------------------------------------
  // Insertion
  // ---------------------------------------------------------------------

  /** The walk of jsctl.py:103-108 from dict `es` along `path`: missing
      groups are created, and the final dict gets `leaf`.  Walking into a
      `leaf` list instead of a dict fails: with steps left, `list.keys()`
      raises `AttributeError`; at the end, `list['leaf'] = ...` raises
      `TypeError`. */
  function InsertAt(es: seq<Entry>, path: seq<string>, leaf: Tree): (r: Result<seq<Entry>, CliError>)
    decreases |path|
  {
    if path == [] then Ok(Put(es, LeafKey, leaf))
    else
      var j := path[0];
      var child := if j in Keys(es) then Get(es, j).value else Group([]);
      match child
      case Leaf(_, _) => if |path| == 1 then Err(TypeError) else Err(AttributeError)
      case Group(sub) =>
        match InsertAt(sub, path[1..], leaf)
        case Err(e) => Err(e)
        case Ok(sub') => Ok(Put(es, j, Group(sub')))
  }

  /** The value stored under `leaf` in the dict that `path` reaches. */
  function LeafAt(es: seq<Entry>, path: seq<string>): (r: Option<Tree>)
    ensures r.Some? ==> r.value.Leaf?
    decreases |path|
  {
    if path == [] then
      match Get(es, LeafKey)
      case Some(Leaf(a, s)) => Some(Leaf(a, s))
      case _ => None
    else
      match Get(es, path[0])
      case Some(Group(sub)) => LeafAt(sub, path[1..])
      case _ => None
  }

  /** After a successful insertion the path holds the new leaf. */
  lemma {:induction false} InsertReaches(es: seq<Entry>, path: seq<string>, leaf: Tree)
    requires leaf.Leaf? && InsertAt(es, path, leaf).Ok?
    ensures LeafAt(InsertAt(es, path, leaf).value, path) == Some(leaf)
    decreases |path|
  {
    if path != [] {
      var j := path[0];
      var child := if j in Keys(es) then Get(es, j).value else Group([]);
      InsertReaches(child.entries, path[1..], leaf);
    }
  }

  /** A successful insertion changes the leaf of no other path, as long as
      that path does not walk through a key named `leaf`. */
  lemma {:induction false} InsertKeeps(es: seq<Entry>, path: seq<string>, leaf: Tree, q: seq<string>)
    requires leaf.Leaf? && InsertAt(es, path, leaf).Ok?
    requires q != path && LeafKey !in q
    ensures LeafAt(InsertAt(es, path, leaf).value, q) == LeafAt(es, q)
    decreases |path|
  {
    var r := InsertAt(es, path, leaf).value;
    if path == [] {
      assert q[0] != LeafKey;
    } else if q != [] {
      var j := path[0];
      if q[0] == j {
        assert q[1..] != path[1..];
        assert forall x :: x in q[1..] ==> x in q;
        var child := if j in Keys(es) then Get(es, j).value else Group([]);
        InsertKeeps(child.entries, path[1..], leaf, q[1..]);
        if j !in Keys(es) {
          assert LeafAt(child.entries, q[1..]) == None by {
            EmptyHasNoLeaf(q[1..]);
          }
        }
      }
    }
  }

  lemma EmptyHasNoLeaf(q: seq<string>)
    ensures LeafAt([], q) == None
  {
  }

  // ---------------------------------------------------------------------
  // The whole tree
  // ---------------------------------------------------------------------

  /** One iteration of the loop over `dir(master)`. */
  function Step(acc: seq<Entry>, i: string, sigOf: string -> Signature): Result<seq<Entry>, CliError>
  {
    if IsApiName(i) then InsertAt(acc, GroupPath(i), Leaf(i, sigOf(i))) else Ok(acc)
  }

  /** The loop of jsctl.py:95-108 from the tree `acc` over `names`; the
      first exception ends it. */
  function ExtractFrom(acc: seq<Entry>, names: seq<string>, sigOf: string -> Signature): Result<seq<Entry>, CliError>
    decreases |names|
  {
    if names == [] then Ok(acc)
    else
      match Step(acc, names[0], sigOf)
      case Err(e) => Err(e)
      case Ok(next) => ExtractFrom(next, names[1..], sigOf)
  }

  /** `extract_api_tree()` for the attribute names `names` of the master. */
  function Extract(names: seq<string>, sigOf: string -> Signature): Result<seq<Entry>, CliError>
  {
    ExtractFrom([], names, sigOf)
  }

  /** `extract_api_tree`, as the loop the source runs. */
  method ExtractApiTree(names: seq<string>, sigOf: string -> Signature) returns (r: Result<seq<Entry>, CliError>)
    ensures r == Extract(names, sigOf)
  {
    var apiFuncs: seq<Entry> := [];
    var k := 0;
    while k < |names|
      invariant k <= |names|
      invariant ExtractFrom(apiFuncs, names[k..], sigOf) == Extract(names, sigOf)
    {
      var i := names[k];
      assert names[k..][0] == i && names[k..][1..] == names[k + 1..];
      if IsApiName(i) {
        var cmdGroups := Split(FuncStr(i), '_');
        var inserted := InsertAt(apiFuncs, cmdGroups, Leaf(i, sigOf(i)));
        if inserted.Err? {
          return Err(inserted.error);
        }
        apiFuncs := inserted.value;
      }
      k := k + 1;
    }
    return Ok(apiFuncs);
  }

  /** The API names among `names`, in order. */
  function ApiNames(names: seq<string>): (r: seq<string>)
    ensures forall x :: x in r <==> x in names && IsApiName(x)
  {
    if names == [] then []
    else
      assert forall x :: x in names <==> x == names[0] || x in names[1..];
      if IsApiName(names[0]) then [names[0]] + ApiNames(names[1..]) else ApiNames(names[1..])
  }

  /** Attribute names without an API prefix make no difference. */
  lemma {:induction false} ExtractIgnores(acc: seq<Entry>, names: seq<string>, sigOf: string -> Signature)
    ensures ExtractFrom(acc, names, sigOf) == ExtractFrom(acc, ApiNames(names), sigOf)
    decreases |names|
  {
    if names != [] {
      match Step(acc, names[0], sigOf)
      case Err(e) =>
      case Ok(next) =>
        ExtractIgnores(next, names[1..], sigOf);
    }
  }

  /** Every key is unique on its level, all the way down. */
  predicate WellFormed(es: seq<Entry>)
    decreases es
  {
    UniqueKeys(es) &&
    forall i :: 0 <= i < |es| ==> es[i].val.Group? ==> WellFormed(es[i].val.entries)
  }

  /** Each level is a dict whose `leaf` key holds a method and whose other
      keys hold groups. */
  predicate Clean(es: seq<Entry>)
    decreases es
  {
    WellFormed(es) &&
    forall i :: 0 <= i < |es| ==>
      (es[i].key == LeafKey ==> es[i].val.Leaf?) &&
      (es[i].key != LeafKey ==> es[i].val.Group? && Clean(es[i].val.entries))
  }

  lemma PutWellFormed(es: seq<Entry>, k: string, v: Tree)
    requires WellFormed(es)
    requires v.Group? ==> WellFormed(v.entries)
    ensures WellFormed(Put(es, k, v))
  {
    PutUnique(es, k, v);
    PutEntries(es, k, v);
    var r := Put(es, k, v);
    forall i | 0 <= i < |r| && r[i].val.Group? ensures WellFormed(r[i].val.entries) {
      assert r[i] in r;
      if r[i] != Entry(k, v) {
        var j :| 0 <= j < |es| && es[j] == r[i];
      }
    }
  }

  lemma PutClean(es: seq<Entry>, k: string, v: Tree)
    requires Clean(es)
    requires k == LeafKey ==> v.Leaf?
    requires k != LeafKey ==> v.Group? && Clean(v.entries)
    ensures Clean(Put(es, k, v))
  {
    PutWellFormed(es, k, v);
    PutEntries(es, k, v);
    var r := Put(es, k, v);
    forall i | 0 <= i < |r|
      ensures (r[i].key == LeafKey ==> r[i].val.Leaf?) &&
              (r[i].key != LeafKey ==> r[i].val.Group? && Clean(r[i].val.entries))
    {
      assert r[i] in r;
      if r[i] != Entry(k, v) {
        var j :| 0 <= j < |es| && es[j] == r[i];
      }
    }
  }

  lemma CleanChild(es: seq<Entry>, j: string)
    requires Clean(es) && j != LeafKey && j in Keys(es)
    ensures Get(es, j).value.Group? && Clean(Get(es, j).value.entries)
  {
    var e := Entry(j, Get(es, j).value);
    var i :| 0 <= i < |es| && es[i] == e;
  }

  /** In a clean tree, inserting along a path with no `leaf` step succeeds
      and leaves the tree clean. */
  lemma {:induction false} InsertClean(es: seq<Entry>, path: seq<string>, leaf: Tree)
    requires Clean(es) && leaf.Leaf? && LeafKey !in path
    ensures InsertAt(es, path, leaf).Ok? && Clean(InsertAt(es, path, leaf).value)
    decreases |path|
  {
    if path == [] {
      PutClean(es, LeafKey, leaf);
    } else {
      var j := path[0];
      assert j != LeafKey;
      var child := if j in Keys(es) then Get(es, j).value else Group([]);
      if j in Keys(es) {
        CleanChild(es, j);
      }
      assert forall x :: x in path[1..] ==> x in path;
      InsertClean(child.entries, path[1..], leaf);
      PutClean(es, j, Group(InsertAt(child.entries, path[1..], leaf).value));
    }
  }

  /** No API name files itself under a group called `leaf`. */
  predicate NoLeafGroups(names: seq<string>)
  {
    forall k :: 0 <= k < |names| && IsApiName(names[k]) ==> LeafKey !in GroupPath(names[k])
  }

  /** Without a group called `leaf` the tree is always built, clean. */
  lemma {:induction false} ExtractClean(acc: seq<Entry>, names: seq<string>, sigOf: string -> Signature)
    requires Clean(acc) && NoLeafGroups(names)
    ensures ExtractFrom(acc, names, sigOf).Ok? && Clean(ExtractFrom(acc, names, sigOf).value)
    decreases |names|
  {
    if names != [] {
      var i := names[0];
      if IsApiName(i) {
        InsertClean(acc, GroupPath(i), Leaf(i, sigOf(i)));
      }
      var next := Step(acc, i, sigOf).value;
      assert NoLeafGroups(names[1..]) by {
        forall k | 0 <= k < |names[1..]| && IsApiName(names[1..][k]) ensures LeafKey !in GroupPath(names[1..][k]) {
          assert names[1..][k] == names[k + 1];
        }
      }
      ExtractClean(next, names[1..], sigOf);
    }
  }

  /** Later insertions along other paths keep what a path holds. */
  lemma {:induction false} ExtractKeeps(acc: seq<Entry>, names: seq<string>, sigOf: string -> Signature, q: seq<string>)
    requires ExtractFrom(acc, names, sigOf).Ok? && LeafKey !in q
    requires forall k :: 0 <= k < |names| && IsApiName(names[k]) ==> GroupPath(names[k]) != q
    ensures LeafAt(ExtractFrom(acc, names, sigOf).value, q) == LeafAt(acc, q)
    decreases |names|
  {
    if names != [] {
      var i := names[0];
      var next := Step(acc, i, sigOf).value;
      if IsApiName(i) {
        InsertKeeps(acc, GroupPath(i), Leaf(i, sigOf(i)), q);
      }
      forall k | 0 <= k < |names[1..]| && IsApiName(names[1..][k]) ensures GroupPath(names[1..][k]) != q {
        assert names[1..][k] == names[k + 1];
      }
      ExtractKeeps(next, names[1..], sigOf, q);
    }
  }

  /** The API name listed last among those with a given group path is the
      one the tree keeps there: earlier ones with that path are
      overwritten, and names with other paths leave it alone. */
  lemma {:induction false} ExtractLast(acc: seq<Entry>, names: seq<string>, sigOf: string -> Signature, k: nat)
    requires ExtractFrom(acc, names, sigOf).Ok?
    requires k < |names| && IsApiName(names[k]) && LeafKey !in GroupPath(names[k])
    requires forall j :: k < j < |names| && IsApiName(names[j]) ==> GroupPath(names[j]) != GroupPath(names[k])
    ensures LeafAt(ExtractFrom(acc, names, sigOf).value, GroupPath(names[k])) == Some(Leaf(names[k], sigOf(names[k])))
    decreases |names|
  {
    var next := Step(acc, names[0], sigOf).value;
    if k == 0 {
      var i := names[0];
      InsertReaches(acc, GroupPath(i), Leaf(i, sigOf(i)));
      forall j | 0 <= j < |names[1..]| && IsApiName(names[1..][j]) ensures GroupPath(names[1..][j]) != GroupPath(i) {
        assert names[1..][j] == names[j + 1];
      }
      ExtractKeeps(next, names[1..], sigOf, GroupPath(i));
    } else {
      forall j | k - 1 < j < |names[1..]| && IsApiName(names[1..][j])
        ensures GroupPath(names[1..][j]) != GroupPath(names[1..][k - 1])
      {
        assert names[1..][j] == names[j + 1];
      }
      assert names[1..][k - 1] == names[k];
      ExtractLast(next, names[1..], sigOf, k - 1);
    }
  }

  /** The tree is well formed whenever it is built. */
  lemma {:induction false} InsertWellFormed(es: seq<Entry>, path: seq<string>, leaf: Tree)
    requires WellFormed(es) && leaf.Leaf? && InsertAt(es, path, leaf).Ok?
    ensures WellFormed(InsertAt(es, path, leaf).value)
    decreases |path|
  {
    if path == [] {
      PutWellFormed(es, LeafKey, leaf);
    } else {
      var j := path[0];
      var child := if j in Keys(es) then Get(es, j).value else Group([]);
      if j in Keys(es) {
        var i :| 0 <= i < |es| && es[i] == Entry(j, child);
      }
      InsertWellFormed(child.entries, path[1..], leaf);
      PutWellFormed(es, j, Group(InsertAt(child.entries, path[1..], leaf).value));
    }
  }

  lemma {:induction false} ExtractWellFormed(acc: seq<Entry>, names: seq<string>, sigOf: string -> Signature)
    requires WellFormed(acc) && ExtractFrom(acc, names, sigOf).Ok?
    ensures WellFormed(ExtractFrom(acc, names, sigOf).value)
    decreases |names|
  {
    if names != [] {
      var i := names[0];
      if IsApiName(i) {
        InsertWellFormed(acc, GroupPath(i), Leaf(i, sigOf(i)));
      }
      ExtractWellFormed(Step(acc, i, sigOf).value, names[1..], sigOf);
    }
  }

  // ---------------------------------------------------------------------
  // Two collisions the naming scheme allows
  // ---------------------------------------------------------------------

  lemma ApiNamePath(f: string)
    ensures IsApiName("api_" + f) && FuncStr("api_" + f) == f
  {
    assert ("api_" + f)[..4] == "api_";
  }

  lemma AdminNamePath(f: string)
    ensures IsApiName("admin_api_" + f) && FuncStr("admin_api_" + f) == f
  {
    assert ("admin_api_" + f)[..10] == "admin_api_";
    assert ("admin_api_" + f)[1] == 'd';
  }

  /** `admin_api_f` and `api_f` share a group path, so whichever `dir`
      lists later hides the other. */
  lemma AdminAndUserShareAPath(f: string)
    ensures GroupPath("admin_api_" + f) == GroupPath("api_" + f)
  {
    ApiNamePath(f);
    AdminNamePath(f);
  }

  /** Python's order on text, which `dir` sorts by: code point by code
      point, a proper prefix first. */
  predicate Precedes(s: string, t: string)
    decreases |s|
  {
    if s == [] then t != []
    else t != [] && (s[0] < t[0] || (s[0] == t[0] && Precedes(s[1..], t[1..])))
  }

  /** A text precedes every longer text it begins. */
  lemma {:induction false} PrefixPrecedes(s: string, r: string)
    requires r != []
    ensures Precedes(s, s + r)
    decreases |s|
  {
    if s != [] {
      assert (s + r)[0] == s[0] && (s + r)[1..] == s[1..] + r;
      PrefixPrecedes(s[1..], r);
    }
  }

  /** A group called `leaf` is the key where the method of the enclosing
      group lives.  `dir` lists `admin_api_a_leaf_x` before `api_a`, so the
      method of group `a` is filed second: it replaces the whole `a leaf`
      group, and the method filed below it is lost. */
  lemma LeafGroupIsOverwritten(a: string, x: string, sigOf: string -> Signature)
    requires '_' !in a && '_' !in x
    ensures var first := "admin_api_" + (a + "_" + LeafKey + "_" + x);
      && Precedes(first, "api_" + a)
      && Extract([first], sigOf).Ok?
      && LeafAt(Extract([first], sigOf).value, [a, LeafKey, x]) == Some(Leaf(first, sigOf(first)))
      && Extract([first, "api_" + a], sigOf).Ok?
      && LeafAt(Extract([first, "api_" + a], sigOf).value, [a, LeafKey, x]) == None
  {
    var n1, n2 := "admin_api_" + (a + "_" + LeafKey + "_" + x), "api_" + a;
    AdminBeforeApi(a + "_" + LeafKey + "_" + x, a);
    var l1, l2 := Leaf(n1, sigOf(n1)), Leaf(n2, sigOf(n2));
    ExampleNames(a, x);
    var t1 := [Entry(a, Group([Entry(LeafKey, Group([Entry(x, Group([Entry(LeafKey, l1)]))]))]))];
    var t2 := [Entry(a, Group([Entry(LeafKey, l2)]))];
    FirstInsertion(a, x, l1);
    SecondInsertion(a, x, l1, l2);
    assert Step([], n1, sigOf) == Ok(t1);
    assert Step(t1, n2, sigOf) == Ok(t2);
    ExtractTwo(n1, n2, sigOf, t1, t2);
    LeafsOfExample(a, x, l1, l2);
  }

  /** `dir` lists every `admin_api_` name before every `api_` name. */
  lemma AdminBeforeApi(f: string, g: string)
    ensures Precedes("admin_api_" + f, "api_" + g)
  {
    var s, t := "admin_api_" + f, "api_" + g;
    assert s[0] == t[0] && s[1..][0] < t[1..][0];
  }

  /** In the other order, which `dir` uses for `api_a` and `api_a_leaf_x`,
      the walk for the second name meets the `leaf` list of group `a` with
      a step left, and `extract_api_tree` raises `AttributeError`. */
  lemma LeafGroupRaises(a: string, x: string, sigOf: string -> Signature)
    requires '_' !in a && '_' !in x
    ensures var second := "api_" + (a + "_" + LeafKey + "_" + x);
      && Precedes("api_" + a, second)
      && Extract(["api_" + a, second], sigOf) == Err(AttributeError)
  {
    var n1, n2 := "api_" + a, "api_" + (a + "_" + LeafKey + "_" + x);
    assert n2 == n1 + ("_" + LeafKey + "_" + x);
    PrefixPrecedes(n1, "_" + LeafKey + "_" + x);
    ExampleNames(a, x);
    var l1, l2 := Leaf(n1, sigOf(n1)), Leaf(n2, sigOf(n2));
    var t1 := [Entry(a, Group([Entry(LeafKey, l1)]))];
    GroupInsertion(a, l1);
    assert Step([], n1, sigOf) == Ok(t1);
    InsertBelowLeaf(a, x, l1, l2);
    assert Step(t1, n2, sigOf) == Err(AttributeError);
    ExtractFails(n1, n2, sigOf, t1);
  }

  lemma GroupInsertion(a: string, l: Tree)
    ensures InsertAt([], [a], l) == Ok([Entry(a, Group([Entry(LeafKey, l)]))])
  {
    assert [a][1..] == [];
    assert InsertAt([], [], l) == Ok([Entry(LeafKey, l)]);
  }

  lemma InsertBelowLeaf(a: string, x: string, l1: Tree, l2: Tree)
    requires l1.Leaf?
    ensures InsertAt([Entry(a, Group([Entry(LeafKey, l1)]))], [a, LeafKey, x], l2) == Err(AttributeError)
  {
    var sub := [Entry(LeafKey, l1)];
    var t1 := [Entry(a, Group(sub))];
    var p := [a, LeafKey, x];
    assert p[1..] == [LeafKey, x];
    assert Keys(sub) == [LeafKey] && Get(sub, LeafKey) == Some(l1);
    assert InsertAt(sub, [LeafKey, x], l2) == Err(AttributeError);
    assert Keys(t1) == [a] && Get(t1, a) == Some(Group(sub));
  }

  lemma ExtractFails(n1: string, n2: string, sigOf: string -> Signature, t1: seq<Entry>)
    requires Step([], n1, sigOf) == Ok(t1) && Step(t1, n2, sigOf) == Err(AttributeError)
    ensures Extract([n1, n2], sigOf) == Err(AttributeError)
  {
    assert [n1, n2][1..] == [n2];
    assert ExtractFrom(t1, [n2], sigOf) == Err(AttributeError);
  }

  lemma ExtractTwo(n1: string, n2: string, sigOf: string -> Signature, t1: seq<Entry>, t2: seq<Entry>)
    requires Step([], n1, sigOf) == Ok(t1) && Step(t1, n2, sigOf) == Ok(t2)
    ensures Extract([n1], sigOf) == Ok(t1) && Extract([n1, n2], sigOf) == Ok(t2)
  {
    assert [n1][1..] == [] && [n1, n2][1..] == [n2] && [n2][1..] == [];
    assert ExtractFrom(t1, [], sigOf) == Ok(t1);
    assert ExtractFrom(t2, [], sigOf) == Ok(t2);
    assert ExtractFrom(t1, [n2], sigOf) == Ok(t2);
  }

  lemma ExampleNames(a: string, x: string)
    requires '_' !in a && '_' !in x
    ensures IsApiName("admin_api_" + (a + "_" + LeafKey + "_" + x))
    ensures GroupPath("admin_api_" + (a + "_" + LeafKey + "_" + x)) == [a, LeafKey, x]
    ensures IsApiName("api_" + (a + "_" + LeafKey + "_" + x))
    ensures GroupPath("api_" + (a + "_" + LeafKey + "_" + x)) == [a, LeafKey, x]
    ensures IsApiName("api_" + a) && GroupPath("api_" + a) == [a]
  {
    AdminNamePath(a + "_" + LeafKey + "_" + x);
    ApiNamePath(a + "_" + LeafKey + "_" + x);
    SplitOf3(a, LeafKey, x);
    ApiNamePath(a);
    SplitJoin([a], '_');
  }

  lemma FirstInsertion(a: string, x: string, l: Tree)
    ensures InsertAt([], [a, LeafKey, x], l) ==
      Ok([Entry(a, Group([Entry(LeafKey, Group([Entry(x, Group([Entry(LeafKey, l)]))]))]))])
  {
    var p := [a, LeafKey, x];
    assert p[1..] == [LeafKey, x] && p[1..][1..] == [x] && [x][1..] == [];
    assert InsertAt([], [], l) == Ok([Entry(LeafKey, l)]);
    assert InsertAt([], [x], l) == Ok([Entry(x, Group([Entry(LeafKey, l)]))]);
    assert InsertAt([], [LeafKey, x], l) == Ok([Entry(LeafKey, Group([Entry(x, Group([Entry(LeafKey, l)]))]))]);
  }

  lemma SecondInsertion(a: string, x: string, l1: Tree, l2: Tree)
    ensures InsertAt([Entry(a, Group([Entry(LeafKey, Group([Entry(x, Group([Entry(LeafKey, l1)]))]))]))], [a], l2) ==
      Ok([Entry(a, Group([Entry(LeafKey, l2)]))])
  {
    var sub := [Entry(LeafKey, Group([Entry(x, Group([Entry(LeafKey, l1)]))]))];
    var es := [Entry(a, Group(sub))];
    assert [a][1..] == [] && sub[1..] == [] && es[1..] == [];
    assert Keys(es) == [a] && Get(es, a) == Some(Group(sub));
    assert Put(sub, LeafKey, l2) == [Entry(LeafKey, l2)];
    assert InsertAt(sub, [], l2) == Ok([Entry(LeafKey, l2)]);
    assert Put(es, a, Group([Entry(LeafKey, l2)])) == [Entry(a, Group([Entry(LeafKey, l2)]))];
  }

  lemma LeafsOfExample(a: string, x: string, l1: Tree, l2: Tree)
    requires l1.Leaf? && l2.Leaf?
    ensures LeafAt([Entry(a, Group([Entry(LeafKey, Group([Entry(x, Group([Entry(LeafKey, l1)]))]))]))], [a, LeafKey, x]) == Some(l1)
    ensures LeafAt([Entry(a, Group([Entry(LeafKey, l2)]))], [a, LeafKey, x]) == None
  {
    var p := [a, LeafKey, x];
    assert p[1..] == [LeafKey, x] && p[1..][1..] == [x] && [x][1..] == [];
    var inner := [Entry(LeafKey, l1)];
    var xs := [Entry(x, Group(inner))];
    var sub := [Entry(LeafKey, Group(xs))];
    assert LeafAt(inner, []) == Some(l1);
    assert LeafAt(xs, [x]) == Some(l1);
    assert LeafAt(sub, [LeafKey, x]) == Some(l1);
    assert LeafAt([Entry(a, Group(sub))], p) == Some(l1);
    assert LeafAt([Entry(LeafKey, l2)], [LeafKey, x]) == None;
  }

  lemma SplitOf3(a: string, b: string, c: string)
    requires '_' !in a && '_' !in b && '_' !in c
    ensures Split(a + "_" + b + "_" + c, '_') == [a, b, c]
    ensures a + "_" + b + "_" + c == Join([a, b, c], '_')
  {
    var parts := [a, b, c];
    assert Join(parts[2..], '_') == c;
    assert Join(parts[1..], '_') == b + "_" + c;
    assert Join(parts, '_') == a + "_" + (b + "_" + c);
    assert a + "_" + b + "_" + c == a + "_" + (b + "_" + c);
    SplitJoin(parts, '_');
  }
}
