/** The scenarios of backend/jaseci/jaseci/core/tests/test_node.py, each run
    on a fresh memory hook.  Every method returns what its test asserts on,
    and its postcondition is the test's assertions.  The fresh identifiers a
    new hook hands out are 1, 2, 3, ... in creation order.  The membership
    rule is left open: any gate with the two known outcomes will do. */
module NodeTests {
  import opened Wrappers
  import opened Uuids
  import opened Records
  import opened IdList
  import opened Graph

  /** The edges `test_node_connections` creates, by identifier. */
  const Connected: map<Uuid, Edge> := map[
    5 := Edge(DefaultName, 1, 2), 6 := Edge(DefaultName, 3, 2),
    7 := Edge(DefaultName, 2, 1), 8 := Edge(DefaultName, 2, 3)]

  /** The four attachments of test_node.py:24-27, from unconnected nodes. */
  method Connect(h: Hook, n1: Node, n2: Node, n3: Node)
    requires n1.h == h && n2.h == h && n3.h == h
    requires n1.id == 1 && n2.id == 2 && n3.id == 3
    requires n1.dimension == n2.dimension == n3.dimension
    requires n1.outbound == [] && n1.inbound == [] && n2.outbound == [] && n2.inbound == []
    requires n3.outbound == [] && n3.inbound == [] && h.edges == map[]
    modifies n1`outbound, n1`inbound, n2`outbound, n2`inbound, n3`outbound, n3`inbound, h`edges
    ensures h.edges == Connected
    ensures n1.outbound == [5] && n1.inbound == [7]
    ensures n2.outbound == [7, 8] && n2.inbound == [5, 6]
    ensures n3.outbound == [6] && n3.inbound == [8]
  {
    n1.AttachOutbound(n2, 5);
    n3.AttachOutbound(n2, 6);
    n1.AttachInbound(n2, 7);
    n3.AttachInbound(n2, 8);
  }

  /** The edges left after each detachment of test_node.py:34-37. */
  const AfterFirst: map<Uuid, Edge> := map[6 := Edge(DefaultName, 3, 2), 7 := Edge(DefaultName, 2, 1), 8 := Edge(DefaultName, 2, 3)]
  const AfterSecond: map<Uuid, Edge> := map[7 := Edge(DefaultName, 2, 1), 8 := Edge(DefaultName, 2, 3)]
  const AfterThird: map<Uuid, Edge> := map[8 := Edge(DefaultName, 2, 3)]

  lemma FirstDetach()
    ensures EdgesFrom([5, 6], Connected, 1) == {5}
    ensures Without([5, 6], {5}) == [6] && Without([5], {5}) == [] && Connected - {5} == AfterFirst
  {
    assert EdgesFrom([6], Connected, 1) == {};
  }

  lemma SecondDetach()
    ensures EdgesFrom([6], AfterFirst, 3) == {6}
    ensures Without([6], {6}) == [] && AfterFirst - {6} == AfterSecond
  {
  }

  lemma ThirdDetach()
    ensures EdgesTo([7, 8], AfterSecond, 1) == {7}
    ensures Without([7, 8], {7}) == [8] && Without([7], {7}) == [] && AfterSecond - {7} == AfterThird
  {
    assert EdgesTo([8], AfterSecond, 1) == {};
  }

  lemma FourthDetach()
    ensures EdgesTo([8], AfterThird, 3) == {8}
    ensures Without([8], {8}) == [] && AfterThird - {8} == map[]
  {
  }

  /** The first two detachments of test_node.py:34-35: node 2 lets go of
      the edges arriving from nodes 1 and 3. */
  method DisconnectInbound(h: Hook, n1: Node, n2: Node, n3: Node)
    requires n1.h == h && n2.h == h && n3.h == h
    requires n1.id == 1 && n2.id == 2 && n3.id == 3
    requires h.edges == Connected
    requires n1.outbound == [5] && n2.inbound == [5, 6] && n3.outbound == [6]
    modifies n1`outbound, n2`inbound, n3`outbound, h`edges
    ensures h.edges == AfterSecond
    ensures n1.outbound == [] && n2.inbound == [] && n3.outbound == []
  {
    assert n1 != n3;
    FirstDetach();
    n2.DetachInbound(n1);
    assert h.edges == AfterFirst && n2.inbound == [6] && n3.outbound == [6];
    SecondDetach();
    n2.DetachInbound(n3);
  }

  /** The last two detachments of test_node.py:36-37: node 2 lets go of
      the edges leaving for nodes 1 and 3. */
  method DisconnectOutbound(h: Hook, n1: Node, n2: Node, n3: Node)
    requires n1.h == h && n2.h == h && n3.h == h
    requires n1.id == 1 && n2.id == 2 && n3.id == 3
    requires h.edges == AfterSecond
    requires n1.inbound == [7] && n2.outbound == [7, 8] && n3.inbound == [8]
    modifies n1`inbound, n2`outbound, n3`inbound, h`edges
    ensures h.edges == map[]
    ensures n1.inbound == [] && n2.outbound == [] && n3.inbound == []
  {
    assert n1 != n3;
    ThirdDetach();
    n2.DetachOutbound(n1);
    assert h.edges == AfterThird && n2.outbound == [8] && n3.inbound == [8];
    FourthDetach();
    n2.DetachOutbound(n3);
  }

  /** The queries of test_node.py:28-32 on the connected nodes. */
  method ConnectedQueries(h: Hook, n1: Node, n2: Node, n3: Node, n4: Node)
    returns (inboundCount: nat, firstIsNode1: bool, out23: bool, in21: bool, before42: Result<bool, PyError>)
    requires n1.h == h && n2.h == h && n3.h == h && n4.h == h
    requires n1.id == 1 && n2.id == 2 && n3.id == 3 && n4.id == 4
    requires h.nodes == map[1 := n1, 2 := n2, 3 := n3, 4 := n4] && h.edges == Connected
    requires n2.outbound == [7, 8] && n2.inbound == [5, 6]
    requires n4.State() == NodeState(DefaultName, map[], DefaultDimension, [], [], [], [], [])
    ensures inboundCount == 2 && firstIsNode1 && out23 && in21
    ensures before42 == Ok(false)
  {
    assert Sources([6], h.edges) == [3];
    assert Sources([5, 6], h.edges) == [1, 3];
    var inb := n2.InboundNodes();
    assert inb == [n1, n3];
    inboundCount := |inb|;
    firstIsNode1 := inb[0] == n1;
    assert Targets([8], h.edges) == [3];
    assert Targets([7, 8], h.edges) == [1, 3];
    out23 := n2.IsAttachedOut(n3);
    in21 := n2.IsAttachedIn(n1);
    NodeEquivalence(4, n4.created, n4.State(), 2, n2.created, n2.State());
    before42 := n4.IsEquivalent(n2);
  }

  /** The equivalences of test_node.py:38-40 once every edge is gone. */
  method DisconnectedEquivalences(n1: Node, n2: Node, n3: Node, n4: Node)
    returns (after42: Result<bool, PyError>, after31: Result<bool, PyError>, after32: Result<bool, PyError>)
    requires n1.State() == NodeState(DefaultName, map[], DefaultDimension, [], [], [], [], [])
    requires n2.State() == n1.State() && n3.State() == n1.State() && n4.State() == n1.State()
    ensures after42 == Ok(true) && after31 == Ok(true) && after32 == Ok(true)
  {
    var empty := n1.State();
    NodeEquivalence(n4.id, n4.created, empty, n2.id, n2.created, empty);
    after42 := n4.IsEquivalent(n2);
    NodeEquivalence(n3.id, n3.created, empty, n1.id, n1.created, empty);
    after31 := n3.IsEquivalent(n1);
    NodeEquivalence(n3.id, n3.created, empty, n2.id, n2.created, empty);
    after32 := n3.IsEquivalent(n2);
  }

  /** test_node.py:41-44: once every edge is gone no node has an inbound node. */
  method DisconnectedInbound(h: Hook, n1: Node, n2: Node, n3: Node, n4: Node) returns (inboundAfter: seq<nat>)
    requires n1.h == h && n2.h == h && n3.h == h && n4.h == h
    requires n1.inbound == [] && n2.inbound == [] && n3.inbound == [] && n4.inbound == []
    ensures inboundAfter == [0, 0, 0, 0]
  {
    assert Sources([], h.edges) == [] && Resolve([], h.nodes) == [];
    inboundAfter := [|n1.InboundNodes()|, |n2.InboundNodes()|, |n3.InboundNodes()|, |n4.InboundNodes()|];
  }

  /** `test_node_connections` (test_node.py:18-44). */
  method NodeConnections(gate: MembershipGate)
    returns (inboundCount: nat, firstIsNode1: bool, out23: bool, in21: bool,
             before42: Result<bool, PyError>,
             after42: Result<bool, PyError>, after31: Result<bool, PyError>, after32: Result<bool, PyError>,
             inboundAfter: seq<nat>)
    ensures inboundCount == 2 && firstIsNode1 && out23 && in21
    ensures before42 == Ok(false)
    ensures after42 == Ok(true) && after31 == Ok(true) && after32 == Ok(true)
    ensures inboundAfter == [0, 0, 0, 0]
  {
    var h := new Hook(gate);
    var n1 := new Node(h, DefaultName, DefaultDimension, 1, "t1");
    var n2 := new Node(h, DefaultName, DefaultDimension, 2, "t2");
    var n3 := new Node(h, DefaultName, DefaultDimension, 3, "t3");
    var n4 := new Node(h, DefaultName, DefaultDimension, 4, "t4");
    Connect(h, n1, n2, n3);
    inboundCount, firstIsNode1, out23, in21, before42 := ConnectedQueries(h, n1, n2, n3, n4);
    DisconnectInbound(h, n1, n2, n3);
    DisconnectOutbound(h, n1, n2, n3);
    after42, after31, after32 := DisconnectedEquivalences(n1, n2, n3, n4);
    inboundAfter := DisconnectedInbound(h, n1, n2, n3, n4);
  }

  /** `test_add_context_to_node_and_destroy` (test_node.py:46-55). */
  method ContextEntry(gate: MembershipGate) returns (value: Value, count: nat, hasKey: bool, hasSpaced: bool)
    ensures value == VStr("SUP") && count == 1 && hasKey && !hasSpaced
  {
    var h := new Hook(gate);
    var n1 := new Node(h, DefaultName, DefaultDimension, 1, "t1");
    n1.SetContext("yeah dude", VStr("SUP"));
    value := n1.context["yeah dude"];
    assert n1.context.Keys == {"yeah dude"};
    count := |n1.context.Keys|;
    hasKey := "yeah dude" in n1.context.Keys;
    hasSpaced := "yeah  dude" in n1.context.Keys;
  }

  /** `test_add_entry_action_to_node_and_destroy` (test_node.py:57-72). */
  method EntryActions(gate: MembershipGate)
    returns (value: Option<string>, count: nat, has: bool, hasSpaced: bool, countAfter: nat, hasAfter: bool)
    ensures value == Some("SUP") && count == 1 && has && !hasSpaced
    ensures countAfter == 0 && !hasAfter
  {
    var h := new Hook(gate);
    var n1 := new Node(h, DefaultName, DefaultDimension, 1, "t1");
    h.NewAction("yeah dude", "SUP", 2);
    n1.AddEntryAction(2);
    assert n1.entryActions == [2];
    assert ActionNames(h.actions) == map[2 := "yeah dude"];
    var act := n1.EntryActionByName("yeah dude");
    value := if act.Some? then Some(act.value.value) else None;
    count := |n1.entryActions|;
    has := n1.HasEntryAction("yeah dude");
    hasSpaced := n1.HasEntryAction("yeah  dude");
    n1.DestroyEntryAction("yeah dude");
    assert n1.entryActions == [];
    countAfter := |n1.entryActions|;
    hasAfter := n1.HasEntryAction("yeah dude");
  }

  /** `test_adding_and_removing_from_hdnodes` (test_node.py:74-91). */
  method Membership(gate: MembershipGate)
    returns (firstOwner: bool, firstMember: bool, secondListed: bool, membersAfter: nat)
    ensures firstOwner && firstMember && !secondListed && membersAfter == 0
  {
    var h := new Hook(gate);
    var n1 := new Node(h, DefaultName, DefaultDimension, 1, "t1");
    var hdgd1 := new Node(h, "yeah dude", 1, 2, "t2");
    n1.MakeMemberOf(hdgd1);
    var owners := n1.OwnerNodes();
    var members := hdgd1.MemberNodes();
    firstOwner := |owners| > 0 && owners[0] == hdgd1;
    firstMember := |members| > 0 && members[0] == n1;
    var hdgd2 := new Node(h, DefaultName, 2, 3, "t3");
    n1.MakeMemberOf(hdgd2);
    secondListed := hdgd2.id in n1.owners;
    n1.LeaveMembershipOf(hdgd1);
    assert hdgd1.members == [];
    membersAfter := |hdgd1.members|;
  }

  /** `test_dimensions_must_match_to_connect_nodes` (test_node.py:93-98). */
  method DimensionsMustMatch(gate: MembershipGate) returns (attached: bool)
    ensures !attached
  {
    var h := new Hook(gate);
    var n1 := new Node(h, DefaultName, DefaultDimension, 1, "t1");
    var hdgd1 := new Node(h, "yeah dude", 1, 2, "t2");
    n1.AttachOutbound(hdgd1, 3);
    attached := n1.IsAttachedOut(hdgd1);
  }

  /** `test_inherit_from_element_edge` (test_node.py:100-106): the keyword
      arguments of the edge constructor reach the element. */
  method EdgeKeepsName(gate: MembershipGate) returns (name: string)
    ensures name == "my edge"
  {
    var h := new Hook(gate);
    var to := new Node(h, DefaultName, DefaultDimension, 1, "t1");
    var from := new Node(h, DefaultName, DefaultDimension, 2, "t2");
    var e := h.NewEdge("my edge", from, to, 3);
    name := e.name;
  }
}
