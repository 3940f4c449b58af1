/** The `id_list` of the Jaseci graph: a list of object identifiers kept in
    insertion order without repeats, whose objects live in the hook.  The
    implementation file is not part of this model; the operations below are
    the ones backend/jaseci/jaseci/core/tests/test_node.py exercises, with the
    behaviour its assertions pin down. */
module IdList {
  import opened Wrappers
  import opened Uuids

  /** No identifier occurs twice. */
  predicate NoDuplicates(l: seq<Uuid>)
  {
    forall i, j :: 0 <= i < j < |l| ==> l[i] != l[j]
  }

  /** `add_obj`: appends an identifier that is not yet listed; a listed one
      is left where it is. */
  function Add(l: seq<Uuid>, x: Uuid): (r: seq<Uuid>)
    ensures x in r && forall y :: y in r <==> y in l || y == x
  {
    if x in l then l else l + [x]
  }

  /** The list with every identifier of `s` taken out, the rest in order. */
  function Without(l: seq<Uuid>, s: set<Uuid>): (r: seq<Uuid>)
    ensures forall y :: y in r <==> y in l && y !in s
    ensures |r| <= |l|
  {
    if l == [] then []
    else if l[0] in s then Without(l[1..], s)
    else [l[0]] + Without(l[1..], s)
  }

  /** `remove_obj` / `destroy_obj`: the identifier is no longer listed. */
  function Remove(l: seq<Uuid>, x: Uuid): (r: seq<Uuid>)
    ensures forall y :: y in r <==> y in l && y != x
  {
    Without(l, {x})
  }

  lemma AddKeepsNoDuplicates(l: seq<Uuid>, x: Uuid)
    requires NoDuplicates(l)
    ensures NoDuplicates(Add(l, x))
    ensures Add(l, x)[..|l|] == l
  {
    assert (l + [x])[..|l|] == l;
  }

  lemma {:induction false} WithoutKeepsNoDuplicates(l: seq<Uuid>, s: set<Uuid>)
    requires NoDuplicates(l)
    ensures NoDuplicates(Without(l, s))
  {
    if l != [] {
      var t := l[1..];
      assert NoDuplicates(t) by {
        forall i, j | 0 <= i < j < |t| ensures t[i] != t[j] {
          assert t[i] == l[i + 1] && t[j] == l[j + 1];
        }
      }
      WithoutKeepsNoDuplicates(t, s);
      if l[0] !in s {
        var r := Without(t, s);
        assert l[0] !in t;
        assert l[0] !in r;
        var c := [l[0]] + r;
        forall i, j | 0 <= i < j < |c| ensures c[i] != c[j] {
          assert c[j] == r[j - 1];
          if i > 0 { assert c[i] == r[i - 1]; }
        }
      }
    }
  }

  /** Taking out identifiers the list does not hold changes nothing. */
  lemma {:induction false} WithoutAbsent(l: seq<Uuid>, s: set<Uuid>)
    requires forall y :: y in s ==> y !in l
    ensures Without(l, s) == l
  {
    if l != [] {
      assert l[0] in l;
      var t := l[1..];
      assert forall y :: y in s ==> y !in t by {
        assert forall z :: z in t ==> z in l;
      }
      WithoutAbsent(t, s);
    }
  }

  /** Removing what was just added gives the list back. */
  lemma RemoveAdd(l: seq<Uuid>, x: Uuid)
    requires x !in l
    ensures Remove(Add(l, x), x) == l
  {
    WithoutAppend(l, {x}, x);
    WithoutAbsent(l, {x});
  }

  lemma {:induction false} WithoutAppend(l: seq<Uuid>, s: set<Uuid>, x: Uuid)
    ensures Without(l + [x], s) == Without(l, s) + (if x in s then [] else [x])
  {
    if l == [] {
      assert [] + [x] == [x];
    } else {
      assert (l + [x])[0] == l[0] && (l + [x])[1..] == l[1..] + [x];
      WithoutAppend(l[1..], s, x);
    }
  }

  // ---------------------------------------------------------------------
  // Lookup by name
  // ---------------------------------------------------------------------

  /** The position of the first listed object whose name is exactly `n`;
      an identifier the hook does not hold has no name. */
  function FirstNamed(l: seq<Uuid>, names: map<Uuid, string>, n: string): (r: Option<nat>)
    ensures r.Some? ==> r.value < |l| && l[r.value] in names && names[l[r.value]] == n
    ensures r.Some? ==> forall j :: 0 <= j < r.value ==> !(l[j] in names && names[l[j]] == n)
    ensures r.None? ==> forall j :: 0 <= j < |l| ==> !(l[j] in names && names[l[j]] == n)
  {
    if l == [] then None
    else if l[0] in names && names[l[0]] == n then Some(0)
    else
      match FirstNamed(l[1..], names, n)
      case None => None
      case Some(k) => Some(k + 1)
  }

  /** `has_obj_by_name`: some listed object has exactly that name. */
  predicate HasNamed(l: seq<Uuid>, names: map<Uuid, string>, n: string)
  {
    FirstNamed(l, names, n).Some?
  }

  lemma HasNamedExactly(l: seq<Uuid>, names: map<Uuid, string>, n: string)
    ensures HasNamed(l, names, n) <==> exists j :: 0 <= j < |l| && l[j] in names && names[l[j]] == n
  {
  }

  /** `destroy_obj_by_name`: the first object of that name leaves the list
      (and, in the hook, is destroyed); nothing happens when none has it. */
  function DestroyNamed(l: seq<Uuid>, names: map<Uuid, string>, n: string): (r: seq<Uuid>)
  {
    match FirstNamed(l, names, n)
    case None => l
    case Some(k) => l[..k] + l[k + 1..]
  }

  /** Destroying by name removes exactly the first match, keeping the other
      identifiers in order. */
  lemma DestroyNamedRemoves(l: seq<Uuid>, names: map<Uuid, string>, n: string)
    requires NoDuplicates(l) && HasNamed(l, names, n)
    ensures DestroyNamed(l, names, n) == Remove(l, l[FirstNamed(l, names, n).value])
  {
    var k := FirstNamed(l, names, n).value;
    var x := l[k];
    RemoveAt(l, k);
  }

  lemma {:induction false} RemoveAt(l: seq<Uuid>, k: nat)
    requires NoDuplicates(l) && k < |l|
    ensures l[..k] + l[k + 1..] == Remove(l, l[k])
  {
    var x := l[k];
    var t := l[1..];
    assert NoDuplicates(t) by {
      forall i, j | 0 <= i < j < |t| ensures t[i] != t[j] {
        assert t[i] == l[i + 1] && t[j] == l[j + 1];
      }
    }
    if k == 0 {
      assert x !in t by {
        forall i | 0 <= i < |t| ensures t[i] != x {
          assert t[i] == l[i + 1];
        }
      }
      WithoutAbsent(t, {x});
      assert l[..0] + l[1..] == t;
    } else {
      assert t[k - 1] == x;
      RemoveAt(t, k - 1);
      assert l[0] != x;
      assert Remove(l, x) == [l[0]] + (t[..k - 1] + t[k..]);
      assert l[..k] == [l[0]] + t[..k - 1];
      assert l[k + 1..] == t[k..];
    }
  }

  /** A destroyed name is gone when the names in the list were unique. */
  lemma DestroyNamedGone(l: seq<Uuid>, names: map<Uuid, string>, n: string)
    requires forall i, j :: 0 <= i < j < |l| && l[i] in names && l[j] in names ==> names[l[i]] != names[l[j]]
    ensures !HasNamed(DestroyNamed(l, names, n), names, n)
  {
    match FirstNamed(l, names, n)
    case None =>
    case Some(k) =>
      var r := l[..k] + l[k + 1..];
      forall j | 0 <= j < |r| ensures !(r[j] in names && names[r[j]] == n) {
        if j < k {
          assert r[j] == l[j];
        } else {
          assert r[j] == l[j + 1];
        }
      }
  }
}
