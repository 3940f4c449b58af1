/** The graph objects of backend/jaseci/jaseci/core/tests/test_node.py: nodes
    joined by edges, nodes grouped under owner nodes, and the entry actions a
    node lists.  The node, edge, action and memory-hook implementations are
    not part of this model; what is modelled is the behaviour the test
    assertions fix, and nothing they leave open. */
module Graph {
  import opened Wrappers
  import opened Uuids
  import opened Records
  import opened Identity
  import opened Equivalence
  import opened IdList

  /** The dimension a node gets when none is given. */
  const DefaultDimension: int := 0

  /** Whether a node of the first dimension may join an owner of the second.
      All that is known of the rule is that a default-dimension node may
      join a dimension-1 owner and may not join a dimension-2 owner. */
  type MembershipGate = g: (int, int) -> bool | g(0, 1) && !g(0, 2)
    witness (d: int, o: int) => o == 1

  /** A saved edge: its name and the identifiers of its two end nodes. */
  datatype Edge = Edge(name: string, from: Uuid, to: Uuid)

  /** A saved action: its name and its value. */
  datatype Action = Action(name: string, value: string)

  /** The name every element gets when none is given. */
  const DefaultName: string := "basic"

  // ---------------------------------------------------------------------
  // Edge lists read through the hook
  // ---------------------------------------------------------------------

  /** The start nodes of the listed edges, in list order; an identifier the
      hook does not hold contributes nothing. */
  function Sources(l: seq<Uuid>, edges: map<Uuid, Edge>): (r: seq<Uuid>)
    ensures |r| <= |l|
    ensures forall y :: y in r <==> exists e :: e in l && e in edges && edges[e].from == y
  {
    if l == [] then []
    else
      var rest := Sources(l[1..], edges);
      assert forall e :: e in l <==> e == l[0] || e in l[1..];
      if l[0] in edges then [edges[l[0]].from] + rest else rest
  }

  /** The end nodes of the listed edges, in list order. */
  function Targets(l: seq<Uuid>, edges: map<Uuid, Edge>): (r: seq<Uuid>)
    ensures |r| <= |l|
    ensures forall y :: y in r <==> exists e :: e in l && e in edges && edges[e].to == y
  {
    if l == [] then []
    else
      var rest := Targets(l[1..], edges);
      assert forall e :: e in l <==> e == l[0] || e in l[1..];
      if l[0] in edges then [edges[l[0]].to] + rest else rest
  }

  /** The listed edges that end at `d`. */
  function EdgesTo(l: seq<Uuid>, edges: map<Uuid, Edge>, d: Uuid): (r: set<Uuid>)
    ensures forall e :: e in r <==> e in l && e in edges && edges[e].to == d
  {
    if l == [] then {}
    else
      assert forall e :: e in l <==> e == l[0] || e in l[1..];
      (if l[0] in edges && edges[l[0]].to == d then {l[0]} else {}) + EdgesTo(l[1..], edges, d)
  }

  /** The listed edges that start at `s`. */
  function EdgesFrom(l: seq<Uuid>, edges: map<Uuid, Edge>, s: Uuid): (r: set<Uuid>)
    ensures forall e :: e in r <==> e in l && e in edges && edges[e].from == s
  {
    if l == [] then {}
    else
      assert forall e :: e in l <==> e == l[0] || e in l[1..];
      (if l[0] in edges && edges[l[0]].from == s then {l[0]} else {}) + EdgesFrom(l[1..], edges, s)
  }

  /** Appending a saved edge appends its start node. */
  lemma {:induction false} SourcesAppend(l: seq<Uuid>, edges: map<Uuid, Edge>, e: Uuid)
    requires e in edges
    ensures Sources(l + [e], edges) == Sources(l, edges) + [edges[e].from]
  {
    if l == [] {
      assert [] + [e] == [e];
    } else {
      assert (l + [e])[0] == l[0] && (l + [e])[1..] == l[1..] + [e];
      SourcesAppend(l[1..], edges, e);
    }
  }

  /** Saving an edge that is not listed does not change what a list reads. */
  lemma {:induction false} SourcesFrame(l: seq<Uuid>, edges: map<Uuid, Edge>, e: Uuid, x: Edge)
    requires e !in l
    ensures Sources(l, edges[e := x]) == Sources(l, edges)
  {
    if l != [] {
      assert l[1..] == l[1..] && e !in l[1..];
      SourcesFrame(l[1..], edges, e, x);
    }
  }

  /** Once the edges to `d` are taken out of a list and out of the hook,
      the list reaches `d` no more. */
  lemma DetachedTargets(l: seq<Uuid>, edges: map<Uuid, Edge>, d: Uuid)
    ensures d !in Targets(Without(l, EdgesTo(l, edges, d)), edges - EdgesTo(l, edges, d))
  {
  }

  /** Once the edges from `s` are taken out of a list and out of the hook,
      the list is reached from `s` no more. */
  lemma DetachedSources(l: seq<Uuid>, edges: map<Uuid, Edge>, s: Uuid)
    ensures s !in Sources(Without(l, EdgesFrom(l, edges, s)), edges - EdgesFrom(l, edges, s))
  {
  }

  /** Attaching a new edge to `b` adds exactly that edge to those ending there. */
  lemma EdgesToAttach(out: seq<Uuid>, edges: map<Uuid, Edge>, e: Uuid, name: string, a: Uuid, b: Uuid)
    requires e !in edges
    ensures EdgesTo(Add(out, e), edges[e := Edge(name, a, b)], b) == EdgesTo(out, edges, b) + {e}
  {
  }

  /** Detaching right after attaching a new edge between two nodes that had
      none restores both edge lists and the hook. */
  lemma DetachUndoesAttach(out: seq<Uuid>, inn: seq<Uuid>, edges: map<Uuid, Edge>,
                           e: Uuid, name: string, a: Uuid, b: Uuid)
    requires e !in edges && e !in out && e !in inn
    requires EdgesTo(out, edges, b) == {}
    ensures EdgesTo(Add(out, e), edges[e := Edge(name, a, b)], b) == {e}
    ensures Without(Add(out, e), {e}) == out
    ensures Without(Add(inn, e), {e}) == inn
    ensures edges[e := Edge(name, a, b)] - {e} == edges
  {
    EdgesToAttach(out, edges, e, name, a, b);
    RemoveAdd(out, e);
    RemoveAdd(inn, e);
  }

  /** `obj_list`: the listed objects the hook holds, in list order. */
  function Resolve<T>(l: seq<Uuid>, objs: map<Uuid, T>): (r: seq<T>)
    ensures |r| <= |l|
    ensures (forall e :: e in l ==> e in objs) ==> |r| == |l| && forall i :: 0 <= i < |l| ==> r[i] == objs[l[i]]
  {
    if l == [] then []
    else
      var rest := Resolve(l[1..], objs);
      assert forall e :: e in l[1..] ==> e in l;
      if l[0] in objs then [objs[l[0]]] + rest else rest
  }

  /** The names of the saved actions, for lookup by name. */
  function ActionNames(actions: map<Uuid, Action>): (names: map<Uuid, string>)
    ensures names.Keys == actions.Keys
    ensures forall u :: u in actions ==> names[u] == actions[u].name
  {
    map u | u in actions :: actions[u].name
  }

  // ---------------------------------------------------------------------
  // The element record of a node, for `is_equivalent`
  // ---------------------------------------------------------------------

  /** What of a node `is_equivalent` compares: every public attribute other
      than the identifier and the timestamp. */
  datatype NodeState = NodeState(
    name: string, context: map<string, Value>, dimension: int,
    outbound: seq<Uuid>, inbound: seq<Uuid>,
    owners: seq<Uuid>, members: seq<Uuid>, entryActions: seq<Uuid>)

  /** The attributes `vars(node)` holds: those every element has, then the
      node's own. */
  function NodeRecord(id: Uuid, created: string, s: NodeState): Attrs
  {
    InitialAttrs("node", None, s.name, "generic", id, created) +
    [Field("context", VDict(s.context)), Field("dimension", VInt(s.dimension)),
     Field("outbound_edge_ids", VIds(s.outbound)), Field("inbound_edge_ids", VIds(s.inbound)),
     Field("owner_node_ids", VIds(s.owners)), Field("member_node_ids", VIds(s.members)),
     Field("entry_action_ids", VIds(s.entryActions))]
  }

  lemma NodeRecordFields(id: Uuid, created: string, s: NodeState)
    ensures var a := NodeRecord(id, created, s);
      |a| == 13 &&
      a[0] == Field("name", VStr(s.name)) && a[1] == Field("kind", VStr("generic")) &&
      a[2] == Field("jid", VStr(Urn(id))) && a[3] == Field("j_owner", VNone) &&
      a[4] == Field("j_timestamp", VStr(created)) && a[5] == Field("j_type", VStr("node")) &&
      a[6] == Field("context", VDict(s.context)) && a[7] == Field("dimension", VInt(s.dimension)) &&
      a[8] == Field("outbound_edge_ids", VIds(s.outbound)) && a[9] == Field("inbound_edge_ids", VIds(s.inbound)) &&
      a[10] == Field("owner_node_ids", VIds(s.owners)) && a[11] == Field("member_node_ids", VIds(s.members)) &&
      a[12] == Field("entry_action_ids", VIds(s.entryActions))
  {
  }

  /** The attribute names of a node record, in order. */
  const NodeFieldNames: seq<string> := ["name", "kind", "jid", "j_owner", "j_timestamp", "j_type", "context",
    "dimension", "outbound_edge_ids", "inbound_edge_ids", "owner_node_ids", "member_node_ids", "entry_action_ids"]

  lemma NodeFieldNamesDistinct()
    ensures forall i, j :: 0 <= i < j < |NodeFieldNames| ==> NodeFieldNames[i] != NodeFieldNames[j]
  {
    forall i, j | 0 <= i < j < |NodeFieldNames| ensures NodeFieldNames[i] != NodeFieldNames[j] {
      var m, n := NodeFieldNames[i], NodeFieldNames[j];
      if |m| == |n| {
        assert m[0] != n[0] || m[1] != n[1] || m[2] != n[2];
      }
    }
  }

  lemma NodeRecordNames(id: Uuid, created: string, s: NodeState)
    ensures |NodeRecord(id, created, s)| == |NodeFieldNames|
    ensures forall i :: 0 <= i < |NodeFieldNames| ==> NodeRecord(id, created, s)[i].name == NodeFieldNames[i]
  {
    NodeRecordFields(id, created, s);
  }

  lemma NodeRecordDistinct(id: Uuid, created: string, s: NodeState)
    ensures Distinct(NodeRecord(id, created, s))
  {
    NodeRecordNames(id, created, s);
    NodeFieldNamesDistinct();
  }

  /** Records of equal state match on every compared attribute. */
  lemma NodeRecordsMatch(id1: Uuid, t1: string, id2: Uuid, t2: string, s: NodeState)
    ensures Matches(NodeRecord(id1, t1, s), NodeRecord(id2, t2, s))
  {
    var a, b := NodeRecord(id1, t1, s), NodeRecord(id2, t2, s);
    NodeRecordFields(id1, t1, s);
    NodeRecordFields(id2, t2, s);
    NodeRecordDistinct(id2, t2, s);
    forall i | 0 <= i < |a| && Compared(a[i].name) ensures Lookup(b, a[i].name) == Some(a[i].value) {
      assert i != 2 && i != 4;
      assert a[i] == b[i];
      LookupDistinct(b, i);
    }
  }

  lemma MismatchAt(a: Attrs, b: Attrs, i: nat)
    requires Distinct(b) && i < |a| && i < |b|
    requires a[i].name == b[i].name && Compared(a[i].name) && a[i].value != b[i].value
    ensures !Matches(a, b)
  {
    LookupDistinct(b, i);
  }

  /** Records of different state differ on a compared attribute. */
  lemma NodeRecordsDiffer(id1: Uuid, t1: string, s1: NodeState, id2: Uuid, t2: string, s2: NodeState)
    requires s1 != s2
    ensures !Matches(NodeRecord(id1, t1, s1), NodeRecord(id2, t2, s2))
  {
    var a, b := NodeRecord(id1, t1, s1), NodeRecord(id2, t2, s2);
    NodeRecordFields(id1, t1, s1);
    NodeRecordFields(id2, t2, s2);
    NodeRecordDistinct(id2, t2, s2);
    if s1.name != s2.name { MismatchAt(a, b, 0); }
    else if s1.context != s2.context { MismatchAt(a, b, 6); }
    else if s1.dimension != s2.dimension { MismatchAt(a, b, 7); }
    else if s1.outbound != s2.outbound { MismatchAt(a, b, 8); }
    else if s1.inbound != s2.inbound { MismatchAt(a, b, 9); }
    else if s1.owners != s2.owners { MismatchAt(a, b, 10); }
    else if s1.members != s2.members { MismatchAt(a, b, 11); }
    else { MismatchAt(a, b, 12); }
  }

  /** Two node records are equivalent exactly when everything but their
      identifiers and timestamps agrees, and comparing them never raises. */
  lemma NodeEquivalence(id1: Uuid, t1: string, s1: NodeState, id2: Uuid, t2: string, s2: NodeState)
    ensures Equivalent(NodeRecord(id1, t1, s1), NodeRecord(id2, t2, s2)) == Ok(s1 == s2)
  {
    NodeRecordsAligned(id1, t1, s1, id2, t2, s2);
    EquivalentDefined(NodeRecord(id1, t1, s1), NodeRecord(id2, t2, s2));
    if s1 == s2 {
      NodeRecordsMatch(id1, t1, id2, t2, s1);
    } else {
      NodeRecordsDiffer(id1, t1, s1, id2, t2, s2);
    }
  }

  /** Two node records have the same type and the same attribute names. */
  lemma NodeRecordsAligned(id1: Uuid, t1: string, s1: NodeState, id2: Uuid, t2: string, s2: NodeState)
    ensures Lookup(NodeRecord(id1, t1, s1), "j_type") == Some(VStr("node"))
    ensures Lookup(NodeRecord(id2, t2, s2), "j_type") == Some(VStr("node"))
    ensures forall i :: 0 <= i < |NodeRecord(id1, t1, s1)| && Compared(NodeRecord(id1, t1, s1)[i].name) ==>
      NodeRecord(id1, t1, s1)[i].name in Names(NodeRecord(id2, t2, s2))
  {
    var a, b := NodeRecord(id1, t1, s1), NodeRecord(id2, t2, s2);
    NodeRecordNames(id1, t1, s1);
    NodeRecordNames(id2, t2, s2);
    NodeRecordDistinct(id1, t1, s1);
    NodeRecordDistinct(id2, t2, s2);
    assert a[5] == Field("j_type", VStr("node")) && b[5] == Field("j_type", VStr("node"));
    LookupDistinct(a, 5);
    LookupDistinct(b, 5);
    forall i | 0 <= i < |a| ensures a[i].name in Names(b) {
      assert a[i].name == b[i].name == Names(b)[i];
    }
  }

  // ---------------------------------------------------------------------
  // The hook and the node
  // ---------------------------------------------------------------------

  /** The memory hook the nodes of one test share: the saved nodes, edges
      and actions by identifier. */
  class Hook {
    var nodes: map<Uuid, Node>
    var edges: map<Uuid, Edge>
    var actions: map<Uuid, Action>
    const gate: MembershipGate

    constructor(gate: MembershipGate)
      ensures nodes == map[] && edges == map[] && actions == map[] && this.gate == gate
    {
      nodes := map[];
      edges := map[];
      actions := map[];
      this.gate := gate;
    }

    /** `action(h=..., name=..., value=...)`: a new action, saved. */
    method NewAction(name: string, value: string, id: Uuid)
      requires id !in actions
      modifies this`actions
      ensures actions == old(actions)[id := Action(name, value)]
    {
      actions := actions[id := Action(name, value)];
    }

    /** `edge(name=..., h=..., to_node=..., from_node=...)`: a new edge
        between two nodes, saved; the keyword arguments reach the element
        constructor, so the edge has the given name. */
    method NewEdge(name: string, from: Node, to: Node, id: Uuid) returns (e: Edge)
      requires id !in edges
      modifies this`edges
      ensures e.name == name && e.from == from.id && e.to == to.id
      ensures edges == old(edges)[id := e]
    {
      e := Edge(name, from.id, to.id);
      edges := edges[id := e];
    }
  }

  class Node {
    const h: Hook
    const id: Uuid
    const name: string
    const dimension: int
    /** The creation time, `j_timestamp`. */
    const created: string
    var context: map<string, Value>
    var outbound: seq<Uuid>
    var inbound: seq<Uuid>
    var owners: seq<Uuid>
    var members: seq<Uuid>
    var entryActions: seq<Uuid>

    /** `node(h=..., name=..., dimension=...)`: a new node with empty lists,
        saved in the hook under its new identifier. */
    constructor(h: Hook, name: string, dimension: int, id: Uuid, now: string)
      requires id !in h.nodes
      modifies h`nodes
      ensures this.h == h && this.id == id && this.name == name && this.dimension == dimension
      ensures created == now && context == map[]
      ensures outbound == [] && inbound == [] && owners == [] && members == [] && entryActions == []
      ensures h.nodes == old(h.nodes)[id := this]
    {
      this.h := h;
      this.id := id;
      this.name := name;
      this.dimension := dimension;
      created := now;
      context := map[];
      outbound := [];
      inbound := [];
      owners := [];
      members := [];
      entryActions := [];
      new;
      h.nodes := h.nodes[id := this];
    }

    function State(): NodeState
      reads this
    {
      NodeState(name, context, dimension, outbound, inbound, owners, members, entryActions)
    }

    function Record(): Attrs
      reads this
    {
      NodeRecord(id, created, State())
    }

    /** `is_equivalent`. */
    function IsEquivalent(other: Node): Result<bool, PyError>
      reads this, other
    {
      Equivalent(Record(), other.Record())
    }

    /** `context[k] = v`. */
    method SetContext(k: string, v: Value)
      modifies this`context
      ensures context == old(context)[k := v]
    {
      context := context[k := v];
    }

    /** `attach_outbound`: a new edge from this node to `other`, listed on
        both, when the dimensions are equal; otherwise nothing happens. */
    method AttachOutbound(other: Node, e: Uuid)
      requires other.h == h && e !in h.edges
      modifies this`outbound, other`inbound, h`edges
      ensures dimension == other.dimension ==>
        outbound == Add(old(outbound), e) && other.inbound == Add(old(other.inbound), e) &&
        h.edges == old(h.edges)[e := Edge(DefaultName, id, other.id)]
      ensures dimension != other.dimension ==>
        outbound == old(outbound) && other.inbound == old(other.inbound) && h.edges == old(h.edges)
    {
      if dimension == other.dimension {
        h.edges := h.edges[e := Edge(DefaultName, id, other.id)];
        outbound := Add(outbound, e);
        other.inbound := Add(other.inbound, e);
      }
    }

    /** `attach_inbound`: a new edge from `other` to this node. */
    method AttachInbound(other: Node, e: Uuid)
      requires other.h == h && e !in h.edges
      modifies this`inbound, other`outbound, h`edges
      ensures dimension == other.dimension ==>
        inbound == Add(old(inbound), e) && other.outbound == Add(old(other.outbound), e) &&
        h.edges == old(h.edges)[e := Edge(DefaultName, other.id, id)]
      ensures dimension != other.dimension ==>
        inbound == old(inbound) && other.outbound == old(other.outbound) && h.edges == old(h.edges)
    {
      if dimension == other.dimension {
        h.edges := h.edges[e := Edge(DefaultName, other.id, id)];
        other.outbound := Add(other.outbound, e);
        inbound := Add(inbound, e);
      }
    }

    /** `detach_outbound`: every edge from this node to `other` leaves both
        lists and the hook. */
    method DetachOutbound(other: Node)
      requires other.h == h
      modifies this`outbound, other`inbound, h`edges
      ensures outbound == Without(old(outbound), EdgesTo(old(outbound), old(h.edges), other.id))
      ensures other.inbound == Without(old(other.inbound), EdgesTo(old(outbound), old(h.edges), other.id))
      ensures h.edges == old(h.edges) - EdgesTo(old(outbound), old(h.edges), other.id)
      ensures !IsAttachedOut(other)
    {
      var s := EdgesTo(outbound, h.edges, other.id);
      DetachedTargets(outbound, h.edges, other.id);
      outbound := Without(outbound, s);
      other.inbound := Without(other.inbound, s);
      h.edges := h.edges - s;
    }

    /** `detach_inbound`: every edge from `other` to this node leaves both
        lists and the hook. */
    method DetachInbound(other: Node)
      requires other.h == h
      modifies this`inbound, other`outbound, h`edges
      ensures inbound == Without(old(inbound), EdgesFrom(old(inbound), old(h.edges), other.id))
      ensures other.outbound == Without(old(other.outbound), EdgesFrom(old(inbound), old(h.edges), other.id))
      ensures h.edges == old(h.edges) - EdgesFrom(old(inbound), old(h.edges), other.id)
      ensures !IsAttachedIn(other)
    {
      var s := EdgesFrom(inbound, h.edges, other.id);
      DetachedSources(inbound, h.edges, other.id);
      inbound := Without(inbound, s);
      other.outbound := Without(other.outbound, s);
      h.edges := h.edges - s;
    }

    /** `inbound_nodes`: the start nodes of the inbound edges, in order. */
    function InboundNodes(): seq<Node>
      reads this, h
    {
      Resolve(Sources(inbound, h.edges), h.nodes)
    }

    /** `is_attached_out`: an outbound edge ends at `other`. */
    predicate IsAttachedOut(other: Node)
      reads this, h
    {
      other.id in Targets(outbound, h.edges)
    }

    /** `is_attached_in`: an inbound edge starts at `other`. */
    predicate IsAttachedIn(other: Node)
      reads this, h
    {
      other.id in Sources(inbound, h.edges)
    }

    /** `make_member_of`: when the gate lets this node join `owner`, each
        lists the other. */
    method MakeMemberOf(owner: Node)
      modifies this`owners, owner`members
      ensures h.gate(dimension, owner.dimension) ==>
        owners == Add(old(owners), owner.id) && owner.members == Add(old(owner.members), id)
      ensures !h.gate(dimension, owner.dimension) ==>
        owners == old(owners) && owner.members == old(owner.members)
    {
      if h.gate(dimension, owner.dimension) {
        owners := Add(owners, owner.id);
        owner.members := Add(owner.members, id);
      }
    }

    /** `leave_memebership_of` (so spelled in the test): each stops listing
        the other. */
    method LeaveMembershipOf(owner: Node)
      modifies this`owners, owner`members
      ensures owners == Remove(old(owners), owner.id)
      ensures owner.members == Remove(old(owner.members), id)
    {
      owners := Remove(owners, owner.id);
      owner.members := Remove(owner.members, id);
    }

    function OwnerNodes(): seq<Node>
      reads this, h
    {
      Resolve(owners, h.nodes)
    }

    function MemberNodes(): seq<Node>
      reads this, h
    {
      Resolve(members, h.nodes)
    }

    /** `entry_action_ids.add_obj`. */
    method AddEntryAction(a: Uuid)
      modifies this`entryActions
      ensures entryActions == Add(old(entryActions), a)
    {
      entryActions := Add(entryActions, a);
    }

    /** `entry_action_ids.get_obj_by_name`: the first listed action of that
        name. */
    function EntryActionByName(n: string): (r: Option<Action>)
      reads this, h
      ensures r.Some? <==> HasNamed(entryActions, ActionNames(h.actions), n)
      ensures r.Some? ==> r.value.name == n && r.value in h.actions.Values
    {
      match FirstNamed(entryActions, ActionNames(h.actions), n)
      case None => None
      case Some(k) => Some(h.actions[entryActions[k]])
    }

    /** `entry_action_ids.has_obj_by_name`. */
    predicate HasEntryAction(n: string)
      reads this, h
    {
      HasNamed(entryActions, ActionNames(h.actions), n)
    }

    /** `entry_action_ids.destroy_obj_by_name`: the first listed action of
        that name leaves the list and the hook. */
    method DestroyEntryAction(n: string)
      modifies this`entryActions, h`actions
      ensures entryActions == DestroyNamed(old(entryActions), ActionNames(old(h.actions)), n)
      ensures FirstNamed(old(entryActions), ActionNames(old(h.actions)), n).None? ==> h.actions == old(h.actions)
      ensures FirstNamed(old(entryActions), ActionNames(old(h.actions)), n).Some? ==>
        h.actions == old(h.actions) - {old(entryActions)[FirstNamed(old(entryActions), ActionNames(old(h.actions)), n).value]}
    {
      var k := FirstNamed(entryActions, ActionNames(h.actions), n);
      if k.Some? {
        var a := entryActions[k.value];
        entryActions := DestroyNamed(entryActions, ActionNames(h.actions), n);
        h.actions := h.actions - {a};
      }
    }
  }
}
