/** The control registry: organisations and their nodes in one file, changed by copy, save and swap. */
module Registry {
  import opened Base

  datatype Org = Org(id: string, name: string, members: seq<string>, createdAt: nat)

  /** `details` stands for the fields that no check looks at. */
  datatype Node = Node(id: string, orgId: string, owner: string, details: string)

  datatype Snapshot = Snapshot(orgs: seq<Org>, nodes: seq<Node>)

  // ---- Membership ----

  function Lower(c: char): char { if 'A' <= c <= 'Z' then c - 'A' + 'a' else c }

  predicate SameEmail(a: string, b: string) { |a| == |b| && forall i :: 0 <= i < |a| ==> Lower(a[i]) == Lower(b[i]) }

  predicate Member(org: Org, email: string) { exists i :: 0 <= i < |org.members| && SameEmail(org.members[i], email) }

  function OtherCase(c: char): char {
    if 'A' <= c <= 'Z' then c - 'A' + 'a' else if 'a' <= c <= 'z' then c - 'a' + 'A' else c
  }

  /** Changing one character of an address keeps it the same address exactly when an ASCII letter changes case. */
  lemma {:induction false} SameButCase(a: string, i: nat, c: char)
    requires i < |a|
    ensures SameEmail(a, a[i := c]) <==> c == a[i] || c == OtherCase(a[i])
  {
    var b := a[i := c];
    assert forall j :: 0 <= j < |a| && j != i ==> b[j] == a[j];
    assert b[i] == c;
  }

  // ---- The invariant ----

  predicate UniqueOrgs(orgs: seq<Org>) { forall i, j :: 0 <= i < j < |orgs| ==> orgs[i].id != orgs[j].id }

  predicate UniqueNodes(nodes: seq<Node>) { forall i, j :: 0 <= i < j < |nodes| ==> nodes[i].id != nodes[j].id }

  predicate Housed(orgs: seq<Org>, node: Node) {
    exists i :: 0 <= i < |orgs| && orgs[i].id == node.orgId && Member(orgs[i], node.owner)
  }

  predicate Good(s: Snapshot) {
    && UniqueOrgs(s.orgs) && UniqueNodes(s.nodes)
    && forall i :: 0 <= i < |s.nodes| ==> Housed(s.orgs, s.nodes[i])
  }

  // ---- Operations ----

  function FindOrg(orgs: seq<Org>, id: string): (r: Option<nat>)
    ensures r.Some? ==> r.value < |orgs| && orgs[r.value].id == id
    ensures r.None? ==> forall i :: 0 <= i < |orgs| ==> orgs[i].id != id
  {
    if orgs == [] then None
    else if orgs[0].id == id then Some(0)
    else
      var r := FindOrg(orgs[1..], id);
      assert forall i :: 1 <= i < |orgs| ==> orgs[i] == orgs[1..][i - 1];
      if r.Some? then Some(r.value + 1) else None
  }

  predicate InOrg(node: Node, orgId: Option<string>) { orgId.Some? ==> node.orgId == orgId.value }

  function FindNode(nodes: seq<Node>, orgId: Option<string>, id: string): (r: Option<nat>)
    ensures r.Some? ==> r.value < |nodes| && nodes[r.value].id == id && InOrg(nodes[r.value], orgId)
    ensures r.None? ==> forall i :: 0 <= i < |nodes| ==> !(nodes[i].id == id && InOrg(nodes[i], orgId))
  {
    if nodes == [] then None
    else if nodes[0].id == id && InOrg(nodes[0], orgId) then Some(0)
    else
      var r := FindNode(nodes[1..], orgId, id);
      assert forall i :: 1 <= i < |nodes| ==> nodes[i] == nodes[1..][i - 1];
      if r.Some? then Some(r.value + 1) else None
  }

  /** The owner is a member of the first organisation of that name. */
  predicate Accepted(orgs: seq<Org>, node: Node) {
    var at := FindOrg(orgs, node.orgId);
    at.Some? && Member(orgs[at.value], node.owner)
  }

  predicate Evicts(s: Snapshot, org: Org) {
    exists i :: 0 <= i < |s.nodes| && s.nodes[i].orgId == org.id && !Member(org, s.nodes[i].owner)
  }

  datatype Op =
    | InsertOrg(org: Org)
    | UpdateOrg(org: Org)
    | InsertNode(node: Node)
    | MutateNode(scope: Option<string>, nodeId: string, mutate: Node -> Option<Node>)
    | RemoveNode(orgId: string, nodeId: string)

  /** The snapshot an operation would save; `None` is a refusal. */
  function Proposed(s: Snapshot, op: Op): Option<Snapshot> {
    match op
    case InsertOrg(org) =>
      if FindOrg(s.orgs, org.id).Some? then None else Some(s.(orgs := s.orgs + [org]))
    case UpdateOrg(org) =>
      var at := FindOrg(s.orgs, org.id);
      if Evicts(s, org) || at.None? then None else Some(s.(orgs := s.orgs[at.value := org]))
    case InsertNode(node) =>
      if !Accepted(s.orgs, node) || FindNode(s.nodes, None, node.id).Some? then None
      else Some(s.(nodes := s.nodes + [node]))
    case MutateNode(scope, nodeId, mutate) =>
      var at := FindNode(s.nodes, scope, nodeId);
      if at.None? then None
      else
        var updated := mutate(s.nodes[at.value]);
        if updated.None? || !Accepted(s.orgs, updated.value) then None
        else Some(s.(nodes := s.nodes[at.value := updated.value]))
    case RemoveNode(orgId, nodeId) =>
      var at := FindNode(s.nodes, Some(orgId), nodeId);
      if at.None? then None else Some(s.(nodes := s.nodes[..at.value] + s.nodes[at.value + 1..]))
  }

  // ---- When an operation is accepted, and what it does ----

  predicate FirstOrg(orgs: seq<Org>, id: string, at: nat) {
    at < |orgs| && orgs[at].id == id && forall i :: 0 <= i < at ==> orgs[i].id != id
  }

  predicate FirstNode(nodes: seq<Node>, scope: Option<string>, id: string, at: nat) {
    && at < |nodes| && nodes[at].id == id && InOrg(nodes[at], scope)
    && forall i :: 0 <= i < at ==> !(nodes[i].id == id && InOrg(nodes[i], scope))
  }

  /** The organisation that a lookup finds has the owner among its members. */
  ghost predicate Owned(orgs: seq<Org>, node: Node) {
    exists at: nat :: FirstOrg(orgs, node.orgId, at) && Member(orgs[at], node.owner)
  }

  ghost predicate Allowed(s: Snapshot, op: Op) {
    match op
    case InsertOrg(org) => forall o :: o in s.orgs ==> o.id != org.id
    case UpdateOrg(org) =>
      && (exists o :: o in s.orgs && o.id == org.id)
      && forall n :: n in s.nodes && n.orgId == org.id ==> Member(org, n.owner)
    case InsertNode(node) => Owned(s.orgs, node) && forall n :: n in s.nodes ==> n.id != node.id
    case MutateNode(scope, nodeId, mutate) =>
      exists at: nat :: FirstNode(s.nodes, scope, nodeId, at) && mutate(s.nodes[at]).Some?
                        && Owned(s.orgs, mutate(s.nodes[at]).value)
    case RemoveNode(orgId, nodeId) => exists n :: n in s.nodes && n.id == nodeId && n.orgId == orgId
  }

  /** The registry after an accepted operation: the one record concerned is added, replaced or gone, every other is
      as it was and where it was. */
  ghost predicate Effect(s: Snapshot, op: Op, t: Snapshot) {
    match op
    case InsertOrg(org) => t.nodes == s.nodes && t.orgs == s.orgs + [org]
    case UpdateOrg(org) =>
      t.nodes == s.nodes && exists at: nat :: FirstOrg(s.orgs, org.id, at) && ReplacedAt(s.orgs, t.orgs, at, org)
    case InsertNode(node) => t.orgs == s.orgs && t.nodes == s.nodes + [node]
    case MutateNode(scope, nodeId, mutate) =>
      && t.orgs == s.orgs
      && exists at: nat :: FirstNode(s.nodes, scope, nodeId, at) && mutate(s.nodes[at]).Some?
                           && ReplacedAt(s.nodes, t.nodes, at, mutate(s.nodes[at]).value)
    case RemoveNode(orgId, nodeId) =>
      t.orgs == s.orgs && exists at: nat :: FirstNode(s.nodes, Some(orgId), nodeId, at) && RemovedAt(s.nodes, t.nodes, at)
  }

  predicate ReplacedAt<T(==)>(a: seq<T>, b: seq<T>, at: nat, x: T) {
    |a| == |b| && at < |a| && b[at] == x && forall i :: 0 <= i < |a| && i != at ==> b[i] == a[i]
  }

  predicate RemovedAt<T(==)>(a: seq<T>, b: seq<T>, at: nat) {
    && at < |a| && |b| == |a| - 1
    && (forall i :: 0 <= i < at ==> b[i] == a[i]) && (forall i :: at <= i < |b| ==> b[i] == a[i + 1])
  }

  lemma {:induction false} FindOrgIs(orgs: seq<Org>, id: string)
    ensures FindOrg(orgs, id).Some? <==> exists o :: o in orgs && o.id == id
    ensures FindOrg(orgs, id).Some? ==> FirstOrg(orgs, id, FindOrg(orgs, id).value)
    ensures forall at: nat :: FirstOrg(orgs, id, at) ==> FindOrg(orgs, id) == Some(at)
  {
    if orgs != [] && orgs[0].id != id {
      FindOrgIs(orgs[1..], id);
      assert forall i :: 1 <= i < |orgs| ==> orgs[i] == orgs[1..][i - 1];
      forall at: nat | FirstOrg(orgs, id, at) ensures FindOrg(orgs, id) == Some(at) {
        assert FirstOrg(orgs[1..], id, at - 1);
      }
    } else if orgs != [] {
      assert orgs[0] in orgs;
    }
  }

  lemma {:induction false} FindNodeIs(nodes: seq<Node>, scope: Option<string>, id: string)
    ensures FindNode(nodes, scope, id).Some? <==> exists n :: n in nodes && n.id == id && InOrg(n, scope)
    ensures FindNode(nodes, scope, id).Some? ==> FirstNode(nodes, scope, id, FindNode(nodes, scope, id).value)
    ensures forall at: nat :: FirstNode(nodes, scope, id, at) ==> FindNode(nodes, scope, id) == Some(at)
  {
    if nodes != [] && !(nodes[0].id == id && InOrg(nodes[0], scope)) {
      FindNodeIs(nodes[1..], scope, id);
      assert forall i :: 1 <= i < |nodes| ==> nodes[i] == nodes[1..][i - 1];
      forall at: nat | FirstNode(nodes, scope, id, at) ensures FindNode(nodes, scope, id) == Some(at) {
        assert FirstNode(nodes[1..], scope, id, at - 1);
      }
    } else if nodes != [] {
      assert nodes[0] in nodes;
    }
  }

  lemma {:induction false} AcceptedIsOwned(orgs: seq<Org>, node: Node)
    ensures Accepted(orgs, node) <==> Owned(orgs, node)
  {
    hide FindOrg, Member;
    FindOrgIs(orgs, node.orgId);
  }

  lemma {:induction false} EvictsIff(s: Snapshot, org: Org)
    ensures Evicts(s, org) <==> !(forall n :: n in s.nodes && n.orgId == org.id ==> Member(org, n.owner))
  {
    hide Member;
    if n :| n in s.nodes && n.orgId == org.id && !Member(org, n.owner) {
      var i :| 0 <= i < |s.nodes| && s.nodes[i] == n;
    }
    if i :| 0 <= i < |s.nodes| && s.nodes[i].orgId == org.id && !Member(org, s.nodes[i].owner) {
      assert s.nodes[i] in s.nodes;
    }
  }

  lemma {:induction false} AllowedIff(s: Snapshot, op: Op)
    ensures Proposed(s, op).Some? <==> Allowed(s, op)
  {
    hide FindOrg, FindNode, Accepted, Owned, Evicts, Member;
    match op {
      case InsertOrg(org) => FindOrgIs(s.orgs, org.id);
      case UpdateOrg(org) =>
        FindOrgIs(s.orgs, org.id);
        EvictsIff(s, org);
      case InsertNode(node) =>
        AcceptedIsOwned(s.orgs, node);
        FindNodeIs(s.nodes, None, node.id);
      case MutateNode(scope, nodeId, mutate) => MutateAllowed(s, scope, nodeId, mutate);
      case RemoveNode(orgId, nodeId) => FindNodeIs(s.nodes, Some(orgId), nodeId);
    }
  }

  lemma {:induction false} MutateAllowed(s: Snapshot, scope: Option<string>, nodeId: string, mutate: Node -> Option<Node>)
    ensures Proposed(s, MutateNode(scope, nodeId, mutate)).Some? <==> Allowed(s, MutateNode(scope, nodeId, mutate))
  {
    hide FindNode, Accepted, Owned;
    FindNodeIs(s.nodes, scope, nodeId);
    var at := FindNode(s.nodes, scope, nodeId);
    if at.Some? && mutate(s.nodes[at.value]).Some? { AcceptedIsOwned(s.orgs, mutate(s.nodes[at.value]).value); }
  }

  lemma {:induction false} ProposedEffect(s: Snapshot, op: Op)
    requires Proposed(s, op).Some?
    ensures Effect(s, op, Proposed(s, op).value)
  {
    hide FindOrg, FindNode, Accepted, Evicts;
    var t := Proposed(s, op).value;
    match op {
      case InsertOrg(org) =>
      case UpdateOrg(org) =>
        FindOrgIs(s.orgs, org.id);
        assert ReplacedAt(s.orgs, t.orgs, FindOrg(s.orgs, org.id).value, org);
      case InsertNode(node) =>
      case MutateNode(scope, nodeId, mutate) =>
        FindNodeIs(s.nodes, scope, nodeId);
        var at := FindNode(s.nodes, scope, nodeId).value;
        assert ReplacedAt(s.nodes, t.nodes, at, mutate(s.nodes[at]).value);
      case RemoveNode(orgId, nodeId) =>
        FindNodeIs(s.nodes, Some(orgId), nodeId);
        assert RemovedAt(s.nodes, t.nodes, FindNode(s.nodes, Some(orgId), nodeId).value);
    }
  }

  // ---- Reading back what was written ----

  function GetOrg(s: Snapshot, id: string): Option<Org> {
    var at := FindOrg(s.orgs, id);
    if at.Some? then Some(s.orgs[at.value]) else None
  }

  function GetNode(s: Snapshot, orgId: string, id: string): Option<Node> {
    var at := FindNode(s.nodes, Some(orgId), id);
    if at.Some? then Some(s.nodes[at.value]) else None
  }

  /** An organisation written is the one read back; every other lookup is as before. */
  lemma {:induction false} OrgReadBack(s: Snapshot, op: Op, t: Snapshot, id: string)
    requires (op.InsertOrg? || op.UpdateOrg?) && Allowed(s, op) && Effect(s, op, t)
    ensures GetOrg(t, id) == if id == op.org.id then Some(op.org) else GetOrg(s, id)
    ensures forall o, n :: GetNode(t, o, n) == GetNode(s, o, n)
  {
    hide FindOrg, Member;
    FindOrgIs(s.orgs, id);
    FindOrgIs(t.orgs, id);
    if op.InsertOrg? {
      assert t.orgs[|s.orgs|] == op.org && forall i :: 0 <= i < |s.orgs| ==> t.orgs[i] == s.orgs[i] && s.orgs[i] in s.orgs;
      OrgAppended(s.orgs, op.org, id);
    } else {
      var at: nat :| FirstOrg(s.orgs, op.org.id, at) && ReplacedAt(s.orgs, t.orgs, at, op.org);
      OrgReplaced(s.orgs, t.orgs, at, op.org, id);
    }
  }

  lemma {:induction false} OrgAppended(orgs: seq<Org>, org: Org, id: string)
    requires forall i :: 0 <= i < |orgs| ==> orgs[i].id != org.id
    ensures FindOrg(orgs + [org], id) == if id == org.id then Some(|orgs|) else FindOrg(orgs, id)
  {
    hide FindOrg;
    var longer := orgs + [org];
    FindOrgIs(orgs, id);
    FindOrgIs(longer, id);
    assert forall i :: 0 <= i < |orgs| ==> longer[i] == orgs[i];
    if id == org.id {
      assert FirstOrg(longer, id, |orgs|);
    } else if FindOrg(orgs, id).Some? {
      assert FirstOrg(longer, id, FindOrg(orgs, id).value);
    }
  }

  lemma {:induction false} OrgReplaced(orgs: seq<Org>, orgs': seq<Org>, at: nat, org: Org, id: string)
    requires FirstOrg(orgs, org.id, at) && ReplacedAt(orgs, orgs', at, org)
    ensures FindOrg(orgs', id) == FindOrg(orgs, id)
    ensures id == org.id ==> FindOrg(orgs, id) == Some(at)
  {
    hide FindOrg;
    FindOrgIs(orgs, id);
    FindOrgIs(orgs', id);
    assert forall i :: 0 <= i < |orgs| ==> orgs'[i].id == orgs[i].id;
    if FindOrg(orgs, id).Some? { assert FirstOrg(orgs', id, FindOrg(orgs, id).value); }
    if FindOrg(orgs', id).Some? { assert FirstOrg(orgs, id, FindOrg(orgs', id).value); }
  }

  /** With unique identifiers a lookup is membership. */
  lemma {:induction false} GetNodeIs(s: Snapshot, orgId: string, id: string, n: Node)
    requires UniqueNodes(s.nodes)
    ensures GetNode(s, orgId, id) == Some(n) <==> n in s.nodes && n.id == id && n.orgId == orgId
    ensures GetNode(s, orgId, id).None? <==> forall m :: m in s.nodes ==> !(m.id == id && m.orgId == orgId)
  {
    hide FindNode;
    FindNodeIs(s.nodes, Some(orgId), id);
    if n in s.nodes && n.id == id && n.orgId == orgId {
      var i :| 0 <= i < |s.nodes| && s.nodes[i] == n;
      var at := FindNode(s.nodes, Some(orgId), id).value;
      assert i < at || i == at || at < i;
    }
  }

  /** The nodes of a registry before and after an accepted operation on nodes, as sets. */
  lemma {:induction false} NodesAfter(s: Snapshot, op: Op, t: Snapshot) returns (gone: Option<Node>, put: Option<Node>)
    requires Good(s) && Good(t) && (op.InsertNode? || op.MutateNode? || op.RemoveNode?) && Allowed(s, op) && Effect(s, op, t)
    ensures op.InsertNode? ==> gone == None && put == Some(op.node)
    ensures op.MutateNode? ==>
              gone.Some? && gone.value in s.nodes && gone.value.id == op.nodeId && InOrg(gone.value, op.scope)
              && put == op.mutate(gone.value) && put.Some?
    ensures op.RemoveNode? ==>
              gone.Some? && gone.value in s.nodes && gone.value.id == op.nodeId && gone.value.orgId == op.orgId && put == None
    ensures forall n :: n in t.nodes <==> (n in s.nodes && gone != Some(n)) || put == Some(n)
  {
    hide Member, Housed, Owned;
    if op.InsertNode? {
      gone, put := None, Some(op.node);
    } else if op.MutateNode? {
      var at: nat :| FirstNode(s.nodes, op.scope, op.nodeId, at) && op.mutate(s.nodes[at]).Some?
                     && ReplacedAt(s.nodes, t.nodes, at, op.mutate(s.nodes[at]).value);
      gone, put := Some(s.nodes[at]), op.mutate(s.nodes[at]);
      ReplacedNodes(s.nodes, t.nodes, at, put.value);
    } else {
      var at: nat :| FirstNode(s.nodes, Some(op.orgId), op.nodeId, at) && RemovedAt(s.nodes, t.nodes, at);
      gone, put := Some(s.nodes[at]), None;
      RemovedNodes(s.nodes, t.nodes, at);
    }
  }

  lemma {:induction false} ReplacedNodes(a: seq<Node>, b: seq<Node>, at: nat, x: Node)
    requires UniqueNodes(a) && ReplacedAt(a, b, at, x)
    ensures forall n :: n in b <==> (n in a && n != a[at]) || n == x
  {
    forall n | n in b ensures (n in a && n != a[at]) || n == x {
      var i :| 0 <= i < |b| && b[i] == n;
      assert i == at || i < at || at < i;
    }
    forall n | n in a && n != a[at] ensures n in b {
      var i :| 0 <= i < |a| && a[i] == n;
      assert b[i] == n;
    }
    assert b[at] in b;
  }

  lemma {:induction false} RemovedNodes(a: seq<Node>, b: seq<Node>, at: nat)
    requires UniqueNodes(a) && RemovedAt(a, b, at)
    ensures forall n :: n in b <==> n in a && n != a[at]
  {
    forall n | n in b ensures n in a && n != a[at] {
      var i :| 0 <= i < |b| && b[i] == n;
      assert if i < at then a[i] == n else a[i + 1] == n;
    }
    forall n | n in a && n != a[at] ensures n in b {
      var i :| 0 <= i < |a| && a[i] == n;
      assert if i < at then b[i] == n else b[i - 1] == n;
    }
  }

  predicate Named(n: Option<Node>, orgId: string, id: string) { n.Some? && n.value.orgId == orgId && n.value.id == id }

  /** A node written is the one read back under its organisation and identifier, a node removed or moved away is
      read no more, and every other lookup is as before. */
  lemma {:induction false} NodeReadBack(s: Snapshot, op: Op, t: Snapshot) returns (gone: Option<Node>, put: Option<Node>)
    requires Good(s) && Good(t) && (op.InsertNode? || op.MutateNode? || op.RemoveNode?) && Allowed(s, op) && Effect(s, op, t)
    ensures op.InsertNode? ==> gone == None && put == Some(op.node)
    ensures op.MutateNode? ==>
              gone.Some? && gone.value.id == op.nodeId && InOrg(gone.value, op.scope) && put == op.mutate(gone.value)
    ensures op.RemoveNode? ==> gone == GetNode(s, op.orgId, op.nodeId) && put == None
    ensures forall o, id :: GetNode(t, o, id) == if Named(put, o, id) then put else if Named(gone, o, id) then None else GetNode(s, o, id)
    ensures forall id :: GetOrg(t, id) == GetOrg(s, id)
  {
    hide Member, Housed, Owned, GetNode;
    gone, put := NodesAfter(s, op, t);
    if op.RemoveNode? { GetNodeIs(s, op.orgId, op.nodeId, gone.value); }
    forall o, id
      ensures GetNode(t, o, id) == if Named(put, o, id) then put else if Named(gone, o, id) then None else GetNode(s, o, id)
    {
      LookupAfter(s, t, gone, put, o, id);
    }
  }

  lemma {:induction false} LookupAfter(s: Snapshot, t: Snapshot, gone: Option<Node>, put: Option<Node>, o: string, id: string)
    requires UniqueNodes(s.nodes) && UniqueNodes(t.nodes) && (gone.Some? ==> gone.value in s.nodes)
    requires forall n :: n in t.nodes <==> (n in s.nodes && gone != Some(n)) || put == Some(n)
    ensures GetNode(t, o, id) == if Named(put, o, id) then put else if Named(gone, o, id) then None else GetNode(s, o, id)
  {
    hide GetNode, UniqueNodes;
    if put.Some? { GetNodeIs(t, o, id, put.value); }
    if gone.Some? {
      GetNodeIs(t, o, id, gone.value);
      GetNodeIs(s, o, id, gone.value);
      SameNamed(s.nodes, gone.value);
    }
    if GetNode(s, o, id).Some? {
      var n := GetNode(s, o, id).value;
      GetNodeIs(s, o, id, n);
      GetNodeIs(t, o, id, n);
    } else {
      var any := Node(id, o, "", "");
      GetNodeIs(s, o, id, any);
      GetNodeIs(t, o, id, any);
    }
  }

  lemma {:induction false} SameNamed(nodes: seq<Node>, a: Node)
    requires UniqueNodes(nodes) && a in nodes
    ensures forall b :: b in nodes && b.id == a.id ==> b == a
  {
    var i :| 0 <= i < |nodes| && nodes[i] == a;
    forall b | b in nodes && b.id == a.id ensures b == a {
      var j :| 0 <= j < |nodes| && nodes[j] == b;
      assert i < j || i == j || j < i;
    }
  }

  // ---- What every operation keeps ----

  lemma {:induction false} AcceptedIsHoused(orgs: seq<Org>, node: Node)
    requires UniqueOrgs(orgs)
    ensures Accepted(orgs, node) <==> Housed(orgs, node)
  {
    if Housed(orgs, node) {
      var i :| 0 <= i < |orgs| && orgs[i].id == node.orgId && Member(orgs[i], node.owner);
      var at := FindOrg(orgs, node.orgId).value;
      assert i < at || i == at || at < i;
    }
  }

  lemma {:induction false} HousedMore(orgs: seq<Org>, org: Org, node: Node)
    requires Housed(orgs, node)
    ensures Housed(orgs + [org], node)
  {
    var i :| 0 <= i < |orgs| && orgs[i].id == node.orgId && Member(orgs[i], node.owner);
    assert (orgs + [org])[i] == orgs[i];
  }

  lemma {:induction false} InsertOrgGood(s: Snapshot, org: Org)
    requires Good(s) && FindOrg(s.orgs, org.id).None?
    ensures Good(s.(orgs := s.orgs + [org]))
  {
    hide Housed, FindOrg;
    forall i | 0 <= i < |s.nodes| ensures Housed(s.orgs + [org], s.nodes[i]) { HousedMore(s.orgs, org, s.nodes[i]); }
  }

  lemma {:induction false} UpdateOrgGood(s: Snapshot, org: Org, at: nat)
    requires Good(s) && !Evicts(s, org) && at < |s.orgs| && s.orgs[at].id == org.id
    ensures Good(s.(orgs := s.orgs[at := org]))
  {
    hide Member;
    var orgs := s.orgs[at := org];
    forall i | 0 <= i < |s.nodes| ensures Housed(orgs, s.nodes[i]) {
      var node := s.nodes[i];
      assert Housed(s.orgs, node);
      var j :| 0 <= j < |s.orgs| && s.orgs[j].id == node.orgId && Member(s.orgs[j], node.owner);
      assert orgs[at].id == node.orgId || orgs[j] == s.orgs[j];
    }
  }

  lemma {:induction false} InsertNodeGood(s: Snapshot, node: Node)
    requires Good(s) && Accepted(s.orgs, node) && FindNode(s.nodes, None, node.id).None?
    ensures Good(s.(nodes := s.nodes + [node]))
  {
    hide Housed, Accepted, FindNode;
    AcceptedIsHoused(s.orgs, node);
  }

  /** A node is free to take this identifier when no other node has it. */
  predicate Free(nodes: seq<Node>, at: nat, id: string) {
    forall i :: 0 <= i < |nodes| && i != at ==> nodes[i].id != id
  }

  /** Changing a node in place keeps the registry good exactly when its identifier stays its own. */
  lemma {:induction false} MutateGoodIff(s: Snapshot, at: nat, node: Node)
    requires Good(s) && at < |s.nodes| && Accepted(s.orgs, node)
    ensures Good(s.(nodes := s.nodes[at := node])) <==> Free(s.nodes, at, node.id)
  {
    hide Housed, Accepted;
    AcceptedIsHoused(s.orgs, node);
    var nodes := s.nodes[at := node];
    if UniqueNodes(nodes) {
      forall i | 0 <= i < |nodes| && i != at ensures s.nodes[i].id != node.id {
        assert nodes[i] == s.nodes[i] && nodes[at] == node;
      }
    }
  }

  lemma {:induction false} RemoveNodeGood(s: Snapshot, at: nat)
    requires Good(s) && at < |s.nodes|
    ensures Good(s.(nodes := s.nodes[..at] + s.nodes[at + 1..]))
  {
    hide Housed;
    var nodes := s.nodes[..at] + s.nodes[at + 1..];
    forall i | 0 <= i < |nodes| ensures nodes[i] == s.nodes[if i < at then i else i + 1] { }
  }

  /** An accepted mutation gives the node it found an identifier that another node has. */
  predicate TakesId(s: Snapshot, op: Op) {
    && op.MutateNode? && Proposed(s, op).Some?
    && var at := FindNode(s.nodes, op.scope, op.nodeId).value;
       !Free(s.nodes, at, op.mutate(s.nodes[at]).value.id)
  }

  /** An accepted operation keeps the registry good exactly when it does not take another node's identifier. */
  lemma {:induction false} ProposedGoodIff(s: Snapshot, op: Op)
    requires Good(s) && Proposed(s, op).Some?
    ensures Good(Proposed(s, op).value) <==> !TakesId(s, op)
  {
    hide Good, Accepted, Evicts, FindOrg, FindNode, Free;
    match op {
      case InsertOrg(org) => InsertOrgGood(s, org);
      case UpdateOrg(org) => UpdateOrgGood(s, org, FindOrg(s.orgs, org.id).value);
      case InsertNode(node) => InsertNodeGood(s, node);
      case MutateNode(scope, nodeId, mutate) =>
        var at := FindNode(s.nodes, scope, nodeId).value;
        MutateGoodIff(s, at, mutate(s.nodes[at]).value);
      case RemoveNode(orgId, nodeId) => RemoveNodeGood(s, FindNode(s.nodes, Some(orgId), nodeId).value);
    }
  }

  /** A mutation that leaves the identifier alone takes nobody else's. */
  lemma {:induction false} OwnIdIsFree(s: Snapshot, op: Op)
    requires Good(s) && op.MutateNode? && Proposed(s, op).Some?
    requires var node := s.nodes[FindNode(s.nodes, op.scope, op.nodeId).value]; op.mutate(node).value.id == node.id
    ensures !TakesId(s, op)
  {
    hide Accepted, Housed, FindOrg, FindNode;
  }

  // ---- Memory and file ----

  /** A call with the fate of its save. */
  datatype Call = Call(op: Op, saved: bool)

  datatype Store = Store(memory: Snapshot, file: Snapshot)

  /** The file is replaced first, memory after it; a call that is refused or cannot save changes neither. */
  function After(s: Store, call: Call): Store {
    var next := Proposed(s.memory, call.op);
    if next.Some? && call.saved then Store(next.value, next.value) else s
  }

  /** A call that is allowed and saved has its effect in memory and file; any other changes neither. */
  lemma {:induction false} CallEffect(s: Store, call: Call)
    ensures var t := After(s, call);
            if Allowed(s.memory, call.op) && call.saved
            then t.memory == t.file && Effect(s.memory, call.op, t.memory)
            else t == s
  {
    hide Proposed, Allowed, Effect;
    AllowedIff(s.memory, call.op);
    if Proposed(s.memory, call.op).Some? { ProposedEffect(s.memory, call.op); }
  }

  function AfterAll(s: Store, calls: seq<Call>): Store
    decreases |calls|
  {
    if calls == [] then s else AfterAll(After(s, calls[0]), calls[1..])
  }

  /** Memory and file agree after any calls, failed ones included. */
  lemma {:induction false} MemoryIsFile(s: Store, calls: seq<Call>)
    requires s.memory == s.file
    ensures AfterAll(s, calls).memory == AfterAll(s, calls).file
    decreases |calls|
  {
    hide Proposed;
    if calls != [] { MemoryIsFile(After(s, calls[0]), calls[1..]); }
  }

  /** Call n of the run is saved although it takes another node's identifier. */
  predicate Breaks(s: Store, calls: seq<Call>, n: nat)
    requires n < |calls|
  {
    calls[n].saved && TakesId(AfterAll(s, calls[..n]).memory, calls[n].op)
  }

  lemma {:induction false} AfterNext(s: Store, calls: seq<Call>, n: nat)
    requires n < |calls|
    ensures AfterAll(s, calls[..n + 1]) == After(AfterAll(s, calls[..n]), calls[n])
    decreases n
  {
    hide Proposed, After;
    if n > 0 {
      AfterNext(After(s, calls[0]), calls[1..], n - 1);
      assert calls[..n + 1][1..] == calls[1..][..n] && calls[..n][1..] == calls[1..][..n - 1];
    } else {
      assert calls[..1][1..] == [];
    }
  }

  lemma {:induction false} StepGoodIff(s: Store, calls: seq<Call>, n: nat)
    requires n < |calls| && Good(AfterAll(s, calls[..n]).memory)
    ensures Good(AfterAll(s, calls[..n + 1]).memory) <==> !Breaks(s, calls, n)
  {
    hide Good, Proposed, TakesId, AfterAll;
    var m := AfterAll(s, calls[..n]).memory;
    AfterNext(s, calls, n);
    if Proposed(m, calls[n].op).Some? {
      ProposedGoodIff(m, calls[n].op);
    } else {
      RefusedTakesNothing(m, calls[n].op);
    }
  }

  lemma {:induction false} RefusedTakesNothing(s: Snapshot, op: Op)
    requires Proposed(s, op).None?
    ensures !TakesId(s, op)
  {
  }

  ghost predicate GoodUpTo(s: Store, calls: seq<Call>, n: nat)
    requires n <= |calls|
  {
    forall k: nat :: k <= n ==> Good(AfterAll(s, calls[..k]).memory)
  }

  lemma {:induction false} GoodUpToIff(s: Store, calls: seq<Call>, n: nat)
    requires Good(s.memory) && n <= |calls|
    ensures GoodUpTo(s, calls, n) <==> forall k: nat :: k < n ==> !Breaks(s, calls, k)
    decreases n
  {
    hide Good, Breaks, After;
    if n == 0 {
      assert calls[..0] == [];
    } else {
      GoodUpToIff(s, calls, n - 1);
      if GoodUpTo(s, calls, n - 1) { StepGoodIff(s, calls, n - 1); }
      assert GoodUpTo(s, calls, n) <==> GoodUpTo(s, calls, n - 1) && Good(AfterAll(s, calls[..n]).memory);
    }
  }

  /** From a good file, over any calls with any fate of their saves: memory and file always agree, and the
      registry is good after every call exactly when no saved mutation takes another node's identifier. */
  lemma {:induction false} AlwaysGoodIff(s: Store, calls: seq<Call>)
    requires s.memory == s.file && Good(s.memory)
    ensures forall n: nat :: n <= |calls| ==> AfterAll(s, calls[..n]).memory == AfterAll(s, calls[..n]).file
    ensures (forall n: nat :: n <= |calls| ==> Good(AfterAll(s, calls[..n]).memory))
            <==> (forall n: nat :: n < |calls| ==> !Breaks(s, calls, n))
  {
    hide Good, Breaks, AfterAll;
    forall n: nat | n <= |calls| ensures AfterAll(s, calls[..n]).memory == AfterAll(s, calls[..n]).file {
      MemoryIsFile(s, calls[..n]);
    }
    GoodUpToIff(s, calls, |calls|);
  }

  class JsonStore {
    var file: Snapshot
    var state: Snapshot

    function Value(): Store
      reads this
    {
      Store(state, file)
    }

    constructor Open(onDisk: Snapshot)
      ensures file == onDisk && state == onDisk
    {
      file, state := onDisk, onDisk;
    }

    /** A temporary file is synced and renamed over the old one, or the old one stays. */
    method Persist(next: Snapshot, saved: bool) returns (ok: bool)
      modifies this`file
      ensures ok == saved && file == if ok then next else old(file)
    {
      if saved { file := next; }
      return saved;
    }

    method InsertOrg(org: Org, saved: bool) returns (ok: bool)
      modifies this
      ensures Value() == After(old(Value()), Call(Op.InsertOrg(org), saved))
      ensures ok == (Allowed(old(state), Op.InsertOrg(org)) && saved)
      ensures if ok then file == state && Effect(old(state), Op.InsertOrg(org), state) else Value() == old(Value())
    {
      hide Allowed, Effect;
      AllowedIff(state, Op.InsertOrg(org));
      CallEffect(Value(), Call(Op.InsertOrg(org), saved));
      for i := 0 to |state.orgs|
        invariant forall j :: 0 <= j < i ==> state.orgs[j].id != org.id
      {
        if state.orgs[i].id == org.id { return false; }
      }
      var next := state.(orgs := state.orgs + [org]);
      ok := Persist(next, saved);
      if ok { state := next; }
    }

    method UpdateOrg(org: Org, saved: bool) returns (ok: bool)
      modifies this
      ensures Value() == After(old(Value()), Call(Op.UpdateOrg(org), saved))
      ensures ok == (Allowed(old(state), Op.UpdateOrg(org)) && saved)
      ensures if ok then file == state && Effect(old(state), Op.UpdateOrg(org), state) else Value() == old(Value())
    {
      hide Allowed, Effect;
      AllowedIff(state, Op.UpdateOrg(org));
      CallEffect(Value(), Call(Op.UpdateOrg(org), saved));
      hide Member;
      for i := 0 to |state.nodes|
        invariant forall j :: 0 <= j < i ==> !(state.nodes[j].orgId == org.id && !Member(org, state.nodes[j].owner))
      {
        if state.nodes[i].orgId == org.id && !Member(org, state.nodes[i].owner) { return false; }
      }
      var slot := FindOrg(state.orgs, org.id);
      if slot.None? { return false; }
      var next := state.(orgs := state.orgs[slot.value := org]);
      ok := Persist(next, saved);
      if ok { state := next; }
    }

    method InsertNode(node: Node, saved: bool) returns (ok: bool)
      modifies this
      ensures Value() == After(old(Value()), Call(Op.InsertNode(node), saved))
      ensures ok == (Allowed(old(state), Op.InsertNode(node)) && saved)
      ensures if ok then file == state && Effect(old(state), Op.InsertNode(node), state) else Value() == old(Value())
    {
      hide Allowed, Effect;
      AllowedIff(state, Op.InsertNode(node));
      CallEffect(Value(), Call(Op.InsertNode(node), saved));
      hide Member;
      var org := FindOrg(state.orgs, node.orgId);
      if org.None? || !Member(state.orgs[org.value], node.owner) { return false; }
      for i := 0 to |state.nodes|
        invariant forall j :: 0 <= j < i ==> state.nodes[j].id != node.id
      {
        if state.nodes[i].id == node.id { return false; }
      }
      var next := state.(nodes := state.nodes + [node]);
      ok := Persist(next, saved);
      if ok { state := next; }
    }

    /** Read, modify and write under one lock; the check after the change looks at owner and organisation. */
    method TryMutateNode(scope: Option<string>, nodeId: string, mutate: Node -> Option<Node>, saved: bool) returns (ok: bool)
      modifies this
      ensures Value() == After(old(Value()), Call(MutateNode(scope, nodeId, mutate), saved))
      ensures ok == (Allowed(old(state), MutateNode(scope, nodeId, mutate)) && saved)
      ensures if ok then file == state && Effect(old(state), MutateNode(scope, nodeId, mutate), state) else Value() == old(Value())
    {
      hide Allowed, Effect;
      AllowedIff(state, MutateNode(scope, nodeId, mutate));
      CallEffect(Value(), Call(MutateNode(scope, nodeId, mutate), saved));
      hide Member;
      var slot := FindNode(state.nodes, scope, nodeId);
      if slot.None? { return false; }
      var updated := mutate(state.nodes[slot.value]);
      if updated.None? { return false; }
      var org := FindOrg(state.orgs, updated.value.orgId);
      if org.None? || !Member(state.orgs[org.value], updated.value.owner) { return false; }
      var next := state.(nodes := state.nodes[slot.value := updated.value]);
      ok := Persist(next, saved);
      if ok { state := next; }
    }

    method RemoveNode(orgId: string, nodeId: string, saved: bool) returns (ok: bool)
      modifies this
      ensures Value() == After(old(Value()), Call(Op.RemoveNode(orgId, nodeId), saved))
      ensures ok == (Allowed(old(state), Op.RemoveNode(orgId, nodeId)) && saved)
      ensures if ok then file == state && Effect(old(state), Op.RemoveNode(orgId, nodeId), state) else Value() == old(Value())
    {
      hide Allowed, Effect;
      AllowedIff(state, Op.RemoveNode(orgId, nodeId));
      CallEffect(Value(), Call(Op.RemoveNode(orgId, nodeId), saved));
      var idx := FindNode(state.nodes, Some(orgId), nodeId);
      if idx.None? { return false; }
      var next := state.(nodes := state.nodes[..idx.value] + state.nodes[idx.value + 1..]);
      ok := Persist(next, saved);
      if ok { state := next; }
    }
  }

  /** The condition on identifiers is needed: the change itself may give a node another node's identifier. */
  lemma {:induction false} MutateCanClash(org: Org, a: Node, b: Node)
    requires a.id != b.id && a.orgId == b.orgId == org.id && Member(org, a.owner) && Member(org, b.owner)
    ensures var s := Snapshot([org], [a, b]);
            var op := MutateNode(None, a.id, (n: Node) => Some(n.(id := b.id)));
            Good(s) && Proposed(s, op).Some? && !Good(Proposed(s, op).value)
  {
    var s := Snapshot([org], [a, b]);
    assert s.orgs[0] == org;
    var changed := a.(id := b.id);
    assert FindNode(s.nodes, None, a.id) == Some(0);
    assert FindOrg(s.orgs, changed.orgId) == Some(0);
    assert s.nodes[0 := changed][0].id == s.nodes[0 := changed][1].id;
  }
}
