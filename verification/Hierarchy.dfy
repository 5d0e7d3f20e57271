/** The two trees of xltop-master (src/x_node.c, src/job.c, src/clus.c, src/host.c, src/serv.c): what each step does to
    them, as functions on values, and the shape all steps keep. Class Master refines these functions in place. */
module Hierarchy {
  import opened Basics
  import opened XNodes

  type Nodes = map<XNode, Node>
  type Names = map<(Kind, string), XNode>

  /** x_all[0], x_all[1] and clus_0; the live nodes; the name tables of all types; domain_clus_table; and, as history
      that no step reads, every node created so far. */
  datatype Hier = Hier(
    u: XNode, v: XNode, clus0: XNode,
    nodes: Nodes, names: Names, domains: map<string, XNode>,
    ever: set<XNode>)

  // ---------- trees ----------

  /** x's parent pointer and its parent's child list agree, one level apart, and its child count is right. */
  ghost predicate Linked(n: Nodes, x: XNode)
    requires x in n
  {
    && (IsTop(n[x].kind) <==> n[x].parent == null)
    && (n[x].parent != null ==>
          n[x].parent in n && !IsTop(n[x].kind) && n[n[x].parent].kind == Above(n[x].kind) &&
          x in n[n[x].parent].children)
    && n[x].nrChild == |n[x].children|
    && NoDups(n[x].children)
    && forall c :: c in n[x].children ==> c in n && n[c].parent == x
  }

  ghost predicate Forest(n: Nodes) {
    forall x {:trigger Linked(n, x)} :: x in n ==> Linked(n, x)
  }

  /** x and its ancestors, innermost first: the nodes one loop of x_update visits. */
  ghost function Chain(n: Nodes, x: XNode): seq<XNode>
    requires Forest(n) && x in n
    decreases 3 - Level(n[x].kind)
  {
    if n[x].parent == null then [x] else
      assert Linked(n, x);
      [x] + Chain(n, n[x].parent)
  }

  /** x enters p's child list, if there is a p. */
  function Linking(n: Nodes, x: XNode, p: XNode?): Nodes {
    if p !in n then n
    else n[p := n[p].(children := n[p].children + [x], nrChild := n[p].nrChild + 1)]
  }

  /** x leaves p's child list, if there is a p. */
  function Unlinking(n: Nodes, x: XNode, p: XNode?): Nodes {
    if p !in n then n
    else n[p := n[p].(children := Without(n[p].children, x), nrChild := n[p].nrChild - 1)]
  }

  /** x_set_parent */
  function SetParent(n: Nodes, x: XNode, p: XNode?): Nodes {
    if x !in n || n[x].parent == p then n
    else
      var n1 := Linking(Unlinking(n, x, n[x].parent), x, p);
      n1[x := n1[x].(parent := p)]
  }

  // ---------- the hierarchy's invariant ----------

  ghost predicate Named(s: Hier, x: XNode)
    requires x in s.nodes
  {
    var k := (s.nodes[x].kind, s.nodes[x].name);
    k in s.names && s.names[k] == x
  }

  ghost predicate NameOk(s: Hier, k: (Kind, string))
    requires k in s.names
  {
    IsKind(s.nodes, s.names[k], k.0) && s.nodes[s.names[k]].name == k.1
  }

  /** Every node is found under its own type and name, and nothing else is found. */
  ghost predicate NamesAgree(s: Hier) {
    && (forall x {:trigger Named(s, x)} :: x in s.nodes ==> Named(s, x))
    && (forall k {:trigger NameOk(s, k)} :: k in s.names ==> NameOk(s, k))
  }

  ghost predicate IsKind(n: Nodes, x: XNode?, k: Kind) {
    x in n && n[x].kind == k
  }

  ghost predicate OneTop(s: Hier, x: XNode)
    requires x in s.nodes
  {
    (s.nodes[x].kind == U ==> x == s.u) && (s.nodes[x].kind == V ==> x == s.v)
  }

  ghost predicate Roots(s: Hier) {
    && IsKind(s.nodes, s.u, U) && IsKind(s.nodes, s.v, V) && IsKind(s.nodes, s.clus0, Clus)
    && (forall x {:trigger OneTop(s, x)} :: x in s.nodes ==> OneTop(s, x))
    && (forall d :: d in s.domains ==> IsKind(s.nodes, s.domains[d], Clus))
    && s.nodes.Keys <= s.ever
  }

  ghost predicate Tree(s: Hier) {
    Forest(s.nodes) && NamesAgree(s) && Roots(s)
  }

  // ---------- steps on the hierarchy ----------

  /** A node as x_init leaves it, hung where its kind belongs. */
  ghost predicate Placed(s: Hier, node: Node) {
    && !IsTop(node.kind) && IsKind(s.nodes, node.parent, Above(node.kind))
    && node.children == [] && node.nrChild == 0
  }

  ghost predicate CanAdd(s: Hier, x: XNode, node: Node) {
    x !in s.ever && Placed(s, node)
  }

  /** `x` is newly allocated, or a node of that kind and name exists and `x` will not be needed. */
  ghost predicate Spare(s: Hier, x: XNode, kind: Kind, name: string) {
    (kind, name) in s.names || x !in s.ever
  }

  ghost predicate CanLookup(s: Hier, x: XNode, node: Node) {
    Placed(s, node) && Spare(s, x, node.kind, node.name)
  }

  /** x_init for a node with a parent. */
  function AddNode(s: Hier, x: XNode, node: Node): Hier {
    s.(nodes := Linking(s.nodes, x, node.parent)[x := node],
       names := s.names[(node.kind, node.name) := x],
       ever := s.ever + {x})
  }

  lemma AddNodeForest(n: Nodes, x: XNode, node: Node)
    requires Forest(n) && x !in n && !IsTop(node.kind) && IsKind(n, node.parent, Above(node.kind))
    requires node.children == [] && node.nrChild == 0
    ensures Forest(Linking(n, x, node.parent)[x := node])
  {
    var n' := Linking(n, x, node.parent)[x := node];
    assert Linked(n, node.parent);
    forall y | y in n' ensures Linked(n', y) {
      if y != x {
        assert Linked(n, y);
      }
    }
  }

  lemma AddNodeNames(s: Hier, x: XNode, node: Node)
    requires NamesAgree(s) && x !in s.nodes && node.parent in s.nodes && (node.kind, node.name) !in s.names
    ensures NamesAgree(AddNode(s, x, node))
  {
    var s' := AddNode(s, x, node);
    forall y | y in s'.nodes ensures Named(s', y) {
      if y != x {
        assert Named(s, y);
      }
    }
    forall k | k in s'.names ensures NameOk(s', k) {
      if k in s.names {
        assert NameOk(s, k);
      }
    }
  }

  lemma AddNodeTree(s: Hier, x: XNode, node: Node)
    requires Tree(s) && CanAdd(s, x, node) && (node.kind, node.name) !in s.names
    ensures Tree(AddNode(s, x, node))
  {
    AddNodeForest(s.nodes, x, node);
    AddNodeNames(s, x, node);
    var s' := AddNode(s, x, node);
    forall y | y in s'.nodes ensures OneTop(s', y) {
      if y != x {
        assert OneTop(s, y);
      }
    }
  }

  function NewNode(kind: Kind, name: string, parent: XNode?, owner: string, fake: bool): Node {
    Node(kind, name, parent, [], 0, owner, fake, false, null)
  }

  /** Find a node by type and name, or create it as `x` under its parent: x_lookup with L_CREATE, job_lookup,
      serv_create. An existing node is returned wherever it hangs. */
  function Lookup(s: Hier, x: XNode, node: Node): (Hier, XNode) {
    if (node.kind, node.name) in s.names then (s, s.names[(node.kind, node.name)]) else (AddNode(s, x, node), x)
  }

  lemma LookupTree(s: Hier, x: XNode, node: Node)
    requires Tree(s) && CanLookup(s, x, node)
    ensures var (s', y) := Lookup(s, x, node);
      && Tree(s') && IsKind(s'.nodes, y, node.kind) && s'.nodes[y].name == node.name
      && s.nodes.Keys <= s'.nodes.Keys && s.names.Keys <= s'.names.Keys && s'.ever <= s.ever + {x}
  {
    if (node.kind, node.name) in s.names {
      assert NameOk(s, (node.kind, node.name));
    } else {
      AddNodeTree(s, x, node);
    }
  }

  const IDLE := "IDLE@"

  ghost predicate SpareClus(s: Hier, name: string, c: XNode, j: XNode) {
    (Clus, name) in s.names || (c !in s.ever && c != j && Spare(s, j, Job, IDLE + name))
  }

  /** clus_lookup with L_CREATE. j_fake is also set on a job of that name that exists already. */
  function AddClus(s: Hier, name: string, c: XNode, j: XNode, junk: bool): Hier {
    if (Clus, name) in s.names then s
    else
      var s1 := AddNode(s, c, NewNode(Clus, name, s.u, "", false));
      var (s2, idle) := Lookup(s1, j, NewNode(Job, IDLE + name, c, "NONE", junk));
      s2.(nodes := MarkIdle(s2.nodes, c, idle))
  }

  function MarkIdle(n: Nodes, c: XNode, j: XNode): Nodes {
    if c !in n || j !in n then n
    else
      var n1 := n[j := n[j].(fake := true)];
      n1[c := n1[c].(idle := j)]
  }

  lemma AddClusTree(s: Hier, name: string, c: XNode, j: XNode, junk: bool)
    requires Tree(s) && SpareClus(s, name, c, j)
    ensures Tree(AddClus(s, name, c, j, junk))
  {
    if (Clus, name) !in s.names {
      var node := NewNode(Clus, name, s.u, "", false);
      AddNodeTree(s, c, node);
      var s1 := AddNode(s, c, node);
      LookupTree(s1, j, NewNode(Job, IDLE + name, c, "NONE", junk));
      var (s2, idle) := Lookup(s1, j, NewNode(Job, IDLE + name, c, "NONE", junk));
      MarkIdleTree(s2, c, idle);
    }
  }

  lemma MarkIdleTree(s: Hier, c: XNode, j: XNode)
    requires Tree(s) && c in s.nodes && j in s.nodes
    ensures Tree(s.(nodes := MarkIdle(s.nodes, c, j)))
  {
    var n1 := s.nodes[j := s.nodes[j].(fake := true)];
    MarksKeepForest(s.nodes, j, n1[j]);
    MarksKeepForest(n1, c, n1[c].(idle := j));
    ReshapeTree(s, MarkIdle(s.nodes, c, j));
  }

  ghost predicate SameKinds(n: Nodes, n': Nodes) {
    n.Keys == n'.Keys && forall x :: x in n ==> n'[x].kind == n[x].kind && n'[x].name == n[x].name
  }

  /** Names and roots only depend on the kinds and names of the nodes. */
  lemma ReshapeTree(s: Hier, n': Nodes)
    requires Tree(s) && SameKinds(s.nodes, n') && Forest(n')
    ensures Tree(s.(nodes := n'))
  {
    var s' := s.(nodes := n');
    forall y | y in n' ensures Named(s', y) && OneTop(s', y) {
      assert Named(s, y) && OneTop(s, y);
    }
    forall k | k in s.names ensures NameOk(s', k) {
      assert NameOk(s, k);
    }
  }

  lemma MarksKeepForest(n: Nodes, x: XNode, node: Node)
    requires Forest(n) && x in n
    requires node == n[x].(fake := node.fake, zombie := node.zombie, idle := node.idle)
    ensures Forest(n[x := node])
  {
    var n' := n[x := node];
    forall y | y in n' ensures Linked(n', y) {
      assert Linked(n, y);
    }
  }

  /** The job and cluster fields of a node play no part in the shape of the hierarchy. */
  lemma MarksKeepTree(s: Hier, x: XNode, node: Node)
    requires Tree(s) && x in s.nodes
    requires node == s.nodes[x].(fake := node.fake, zombie := node.zombie, idle := node.idle)
    ensures Tree(s.(nodes := s.nodes[x := node]))
  {
    MarksKeepForest(s.nodes, x, node);
    ReshapeTree(s, s.nodes[x := node]);
  }

  /** clus_lookup_for_host: the cluster of the longest proper dotted suffix that is a known domain. */
  function ClusForHost(s: Hier, name: string): XNode {
    if name == "" then s.clus0
    else if name[0] == '.' && name[1..] in s.domains then s.domains[name[1..]]
    else ClusForHost(s, name[1..])
  }

  /** The part of the name after its i-th character is a known domain, and that character is a dot. */
  ghost predicate DomainAt(domains: map<string, XNode>, name: string, i: nat) {
    i < |name| && name[i] == '.' && name[i + 1..] in domains
  }

  /** And no longer suffix is. */
  ghost predicate FirstDomain(domains: map<string, XNode>, name: string, i: nat) {
    DomainAt(domains, name, i) && forall j: nat :: j < i ==> !DomainAt(domains, name, j)
  }

  /** c is the cluster of the longest proper dotted suffix that is a known domain, or clus0 if none is known. */
  ghost predicate ClusOf(domains: map<string, XNode>, clus0: XNode, name: string, c: XNode) {
    if exists i: nat :: FirstDomain(domains, name, i)
    then exists i: nat :: FirstDomain(domains, name, i) && c == domains[name[i + 1..]]
    else c == clus0 && forall i: nat :: !DomainAt(domains, name, i)
  }

  lemma DomainFurther(domains: map<string, XNode>, name: string, i: nat)
    requires name != ""
    ensures DomainAt(domains, name[1..], i) <==> DomainAt(domains, name, i + 1)
    ensures i + 1 < |name| ==> name[1..][i + 1..] == name[i + 2..]
  {
    if i + 1 < |name| {
      assert name[1..][i + 1..] == name[i + 2..];
    }
  }

  /** If the first character does not start a domain, the rest decides. */
  lemma SkipFirst(domains: map<string, XNode>, clus0: XNode, name: string, c: XNode)
    requires name != "" && !DomainAt(domains, name, 0) && ClusOf(domains, clus0, name[1..], c)
    ensures ClusOf(domains, clus0, name, c)
  {
    forall i: nat ensures DomainAt(domains, name[1..], i) <==> DomainAt(domains, name, i + 1) {
      DomainFurther(domains, name, i);
    }
    forall i: nat ensures FirstDomain(domains, name[1..], i) <==> FirstDomain(domains, name, i + 1) {
      assert forall j: nat :: j < i + 1 && j > 0 ==>
        (DomainAt(domains, name, j) <==> DomainAt(domains, name[1..], j - 1));
    }
    if i: nat :| FirstDomain(domains, name[1..], i) && c == domains[name[1..][i + 1..]] {
      DomainFurther(domains, name, i);
      assert FirstDomain(domains, name, i + 1) && c == domains[name[i + 2..]];
    } else {
      forall i: nat ensures !DomainAt(domains, name, i) && !FirstDomain(domains, name, i) {
        if i > 0 {
          assert !DomainAt(domains, name[1..], i - 1);
        }
      }
    }
  }

  lemma {:induction false} ClusForHostIs(s: Hier, name: string)
    ensures ClusOf(s.domains, s.clus0, name, ClusForHost(s, name))
  {
    if name != "" {
      if DomainAt(s.domains, name, 0) {
        assert FirstDomain(s.domains, name, 0);
      } else {
        ClusForHostIs(s, name[1..]);
        SkipFirst(s.domains, s.clus0, name, ClusForHost(s, name[1..]));
      }
    }
  }

  /** There is only one such cluster. */
  lemma ClusOfOne(domains: map<string, XNode>, clus0: XNode, name: string, c: XNode, c': XNode)
    requires ClusOf(domains, clus0, name, c) && ClusOf(domains, clus0, name, c')
    ensures c == c'
  {
    if exists i: nat :: FirstDomain(domains, name, i) {
      var i: nat :| FirstDomain(domains, name, i) && c == domains[name[i + 1..]];
      var j: nat :| FirstDomain(domains, name, j) && c' == domains[name[j + 1..]];
      assert i == j;
    }
  }

  lemma {:induction false} ClusForHostIsClus(s: Hier, name: string)
    requires Roots(s)
    ensures IsKind(s.nodes, ClusForHost(s, name), Clus)
  {
    if name != "" {
      ClusForHostIsClus(s, name[1..]);
    }
  }

  /** A cluster's idle job is there and marked fake. */
  ghost predicate HasIdle(n: Nodes, c: XNode)
    requires c in n
  {
    IsKind(n, n[c].idle, Job) && n[n[c].idle].fake
  }

  ghost predicate IdleJobsBut(n: Nodes, but: set<XNode>) {
    forall c {:trigger HasIdle(n, c)} :: c in n && n[c].kind == Clus && c !in but ==> HasIdle(n, c)
  }

  ghost predicate IdleJobs(n: Nodes) {
    IdleJobsBut(n, {})
  }

  function IdleOf(s: Hier, c: XNode): XNode? {
    if c in s.nodes then s.nodes[c].idle else null
  }

  /** x_host_lookup with L_CREATE and no parent given: a new host starts under its cluster's idle job. */
  function HostLookup(s: Hier, name: string, x: XNode): (Hier, XNode) {
    Lookup(s, x, NewNode(Host, name, IdleOf(s, ClusForHost(s, name)), "", false))
  }

  lemma NewHostPlaced(s: Hier, name: string)
    requires Tree(s) && IdleJobs(s.nodes)
    ensures Placed(s, NewNode(Host, name, IdleOf(s, ClusForHost(s, name)), "", false))
  {
    ClusForHostIsClus(s, name);
    assert HasIdle(s.nodes, ClusForHost(s, name));
  }

  lemma HostLookupTree(s: Hier, name: string, x: XNode)
    requires Tree(s) && IdleJobs(s.nodes) && Spare(s, x, Host, name)
    ensures var (s', y) := HostLookup(s, name, x);
      Tree(s') && IsKind(s'.nodes, y, Host) && s.nodes.Keys <= s'.nodes.Keys
  {
    NewHostPlaced(s, name);
    LookupTree(s, x, NewNode(Host, name, IdleOf(s, ClusForHost(s, name)), "", false));
  }

  /** job_end */
  function JobEnd(n: Nodes, j: XNode): Nodes {
    if j !in n || n[j].fake then n else n[j := n[j].(zombie := true)]
  }

  /** The tail of clus_msg_cb: move host `x` under job `j`, and end the job it left if that is now empty. */
  function MoveHost(n: Nodes, x: XNode, j: XNode): Nodes {
    if x !in n || n[x].parent == j then n
    else
      var p, n1 := n[x].parent, SetParent(n, x, j);
      if p in n1 && n1[p].kind == Job && n1[p].nrChild == 0 then JobEnd(n1, p) else n1
  }

  lemma SetParentAt(n: Nodes, x: XNode, p: XNode)
    requires x in n && n[x].parent in n && p in n && n[x].parent != p && n[x].parent != x && p != x
    ensures var n', q := SetParent(n, x, p), n[x].parent;
      && n'.Keys == n.Keys && n'[x] == n[x].(parent := p)
      && n'[q] == n[q].(children := Without(n[q].children, x), nrChild := n[q].nrChild - 1)
      && n'[p] == n[p].(children := n[p].children + [x], nrChild := n[p].nrChild + 1)
      && forall z :: z in n && z != x && z != p && z != q ==> n'[z] == n[z]
  {
  }

  ghost predicate ChildrenLinked(n: Nodes, x: XNode)
    requires x in n
  {
    && n[x].nrChild == |n[x].children|
    && NoDups(n[x].children)
    && forall c :: c in n[x].children ==> c in n && n[c].parent == x
  }

  lemma SetParentChildren(n: Nodes, x: XNode, p: XNode, y: XNode)
    requires x in n && n[x].parent in n && p in n && n[x].parent != p && n[x].parent != x && p != x && y in n
    requires ChildrenLinked(n, y) && (x in n[y].children <==> n[x].parent == y)
    ensures ChildrenLinked(SetParent(n, x, p), y)
  {
    SetParentAt(n, x, p);
    hide SetParent;
    if y == n[x].parent {
      WithoutFacts(n[y].children, x);
    }
  }

  lemma SetParentLinked(n: Nodes, x: XNode, p: XNode, y: XNode)
    requires x in n && !IsTop(n[x].kind) && IsKind(n, p, Above(n[x].kind)) && y in n && Linked(n, y)
    requires n[x].parent in n && n[x].parent != p && Linked(n, x) && Linked(n, n[x].parent) && Linked(n, p)
    ensures Linked(SetParent(n, x, p), y)
  {
    var q := n[x].parent;
    SetParentAt(n, x, p);
    SetParentChildren(n, x, p, y);
    WithoutFacts(n[q].children, x);
    hide SetParent, Without, NoDups;
  }

  lemma SetParentForest(n: Nodes, x: XNode, p: XNode)
    requires Forest(n) && x in n && !IsTop(n[x].kind) && IsKind(n, p, Above(n[x].kind))
    ensures n[x].parent in n && Forest(SetParent(n, x, p))
  {
    assert Linked(n, x);
    var q := n[x].parent;
    if p != q {
      assert Linked(n, p) && Linked(n, q);
      forall y {:trigger Linked(SetParent(n, x, p), y)} | y in SetParent(n, x, p)
        ensures Linked(SetParent(n, x, p), y)
      {
        assert Linked(n, y);
        SetParentLinked(n, x, p, y);
      }
    }
  }

  lemma MoveHostShape(n: Nodes, x: XNode, j: XNode)
    requires Forest(n) && IsKind(n, x, Host) && IsKind(n, j, Job)
    ensures n[x].parent in n && Forest(MoveHost(n, x, j)) && SameKinds(n, MoveHost(n, x, j))
  {
    assert Linked(n, x);
    SetParentForest(n, x, j);
    var n1, p := SetParent(n, x, j), n[x].parent;
    assert SameKinds(n, n1);
    if p != j {
      MarksKeepForest(n1, p, n1[p].(zombie := true));
      assert SameKinds(n1, JobEnd(n1, p));
    }
  }

  lemma MoveHostTree(s: Hier, x: XNode, j: XNode)
    requires Tree(s) && IsKind(s.nodes, x, Host) && IsKind(s.nodes, j, Job)
    ensures s.nodes[x].parent in s.nodes && Tree(s.(nodes := MoveHost(s.nodes, x, j)))
  {
    MoveHostShape(s.nodes, x, j);
    ReshapeTree(s, MoveHost(s.nodes, x, j));
  }

  ghost predicate SpareLine(s: Hier, host: string, job: string, nj: XNode, nh: XNode) {
    nj != nh && Spare(s, nj, Job, job) && Spare(s, nh, Host, host)
  }

  /** The job and the host a line of clus_msg_cb names, created if need be. */
  function LineNodes(s: Hier, c: XNode, host: string, job: string, owner: string, nj: XNode, nh: XNode,
                     junk: bool): (Hier, XNode, XNode) {
    var (s1, j) := Lookup(s, nj, NewNode(Job, job, c, owner, junk));
    var (s2, x) := Lookup(s1, nh, NewNode(Host, host, j, "", false));
    (s2, j, x)
  }

  lemma LineNodesTree(s: Hier, c: XNode, host: string, job: string, owner: string, nj: XNode, nh: XNode, junk: bool)
    requires Tree(s) && IsKind(s.nodes, c, Clus) && SpareLine(s, host, job, nj, nh)
    ensures var (s1, j) := Lookup(s, nj, NewNode(Job, job, c, owner, junk));
      Tree(s1) && CanLookup(s1, nh, NewNode(Host, host, j, "", false))
    ensures var (s2, j, x) := LineNodes(s, c, host, job, owner, nj, nh, junk);
      Tree(s2) && IsKind(s2.nodes, j, Job) && IsKind(s2.nodes, x, Host)
  {
    LookupTree(s, nj, NewNode(Job, job, c, owner, junk));
    var (s1, j) := Lookup(s, nj, NewNode(Job, job, c, owner, junk));
    LookupTree(s1, nh, NewNode(Host, host, j, "", false));
  }

  /** clus_msg_cb on a line naming at least a host and a job. */
  function ClusMessage(s: Hier, c: XNode, host: string, job: string, owner: string, nj: XNode, nh: XNode,
                       junk: bool): Hier {
    var (s2, j, x) := LineNodes(s, c, host, job, owner, nj, nh, junk);
    s2.(nodes := MoveHost(s2.nodes, x, j))
  }

  lemma ClusMessageTree(s: Hier, c: XNode, host: string, job: string, owner: string, nj: XNode, nh: XNode, junk: bool)
    requires Tree(s) && IsKind(s.nodes, c, Clus) && SpareLine(s, host, job, nj, nh)
    ensures Tree(ClusMessage(s, c, host, job, owner, nj, nh, junk))
  {
    LineNodesTree(s, c, host, job, owner, nj, nh, junk);
    var (s2, j, x) := LineNodes(s, c, host, job, owner, nj, nh, junk);
    MoveHostTree(s2, x, j);
  }

  /** x_destroy of a childless job: its place in the tree and its name go. */
  function Remove(s: Hier, j: XNode): Hier
    requires j in s.nodes
  {
    s.(nodes := Unlinking(s.nodes, j, s.nodes[j].parent) - {j},
       names := s.names - {(s.nodes[j].kind, s.nodes[j].name)})
  }

  lemma RemoveForest(n: Nodes, j: XNode)
    requires Forest(n) && IsKind(n, j, Job) && n[j].nrChild == 0
    ensures n[j].parent in n && Forest(Unlinking(n, j, n[j].parent) - {j})
  {
    assert Linked(n, j);
    RemoveShape(n, j);
    assert Orphaned(n, j) - {j} == Unlinking(n, j, n[j].parent) - {j};
  }

  lemma RemoveTree(s: Hier, j: XNode)
    requires Tree(s) && IsKind(s.nodes, j, Job) && s.nodes[j].nrChild == 0
    ensures s.nodes[j].parent in s.nodes && Tree(Remove(s, j)) && Remove(s, j).nodes.Keys == s.nodes.Keys - {j}
  {
    RemoveForest(s.nodes, j);
    var s' := Remove(s, j);
    assert Named(s, j);
    forall y | y in s'.nodes ensures Named(s', y) && OneTop(s', y) {
      assert Named(s, y) && OneTop(s, y);
    }
    forall k | k in s'.names ensures NameOk(s', k) {
      assert NameOk(s, k);
    }
  }

  /** x_set_parent on one node after the other. */
  function SetAll(n: Nodes, cs: seq<XNode>, p: XNode): Nodes {
    if cs == [] then n else SetParent(SetAll(n, cs[..|cs| - 1], p), cs[|cs| - 1], p)
  }

  function Universe(s: Hier, k: Kind): XNode {
    if Which(k) == 0 then s.u else s.v
  }

  /** x leaves its parent. */
  function Orphaned(n: Nodes, x: XNode): Nodes
    requires x in n
  {
    var n1 := Unlinking(n, x, n[x].parent);
    n1[x := n1[x].(parent := null)]
  }

  /** x_destroy in general: the children go to the top. */
  function Destroyed(s: Hier, x: XNode): Hier
    requires x in s.nodes
  {
    var node := s.nodes[x];
    s.(nodes := SetAll(Orphaned(s.nodes, x), node.children, Universe(s, node.kind)) - {x},
       names := s.names - {(node.kind, node.name)})
  }

  /** What happens to a node when the first i children of x go to `top`. */
  ghost predicate Handed(n: Nodes, x: XNode, i: nat, top: XNode, y: XNode, node: Node)
    requires x in n && y in n && i <= |n[x].children|
  {
    var cs := n[x].children;
    node == if y == x then n[x].(children := cs[i..], nrChild := n[x].nrChild - i)
            else if y == top then n[y].(children := n[y].children + cs[..i], nrChild := n[y].nrChild + i)
            else if y in cs[..i] then n[y].(parent := top)
            else n[y]
  }

  ghost predicate Family(n: Nodes, x: XNode, top: XNode) {
    && x in n && top in n && x != top && NoDups(n[x].children)
    && forall c :: c in n[x].children ==> c in n && n[c].parent == x && c != x && c != top
  }

  lemma HandOver(n: Nodes, x: XNode, i: nat, top: XNode, m: Nodes)
    requires Family(n, x, top) && i < |n[x].children| && m.Keys == n.Keys
    requires forall y :: y in n ==> Handed(n, x, i, top, y, m[y])
    ensures SetParent(m, n[x].children[i], top).Keys == n.Keys
    ensures forall y :: y in n ==> Handed(n, x, i + 1, top, y, SetParent(m, n[x].children[i], top)[y])
  {
    var cs := n[x].children;
    var c := cs[i];
    assert cs[i..][0] == c && Without(cs[i..], c) == cs[i..][1..] == cs[i + 1..];
    assert c !in cs[..i] && cs[..i + 1] == cs[..i] + [c];
    assert Handed(n, x, i, top, c, m[c]) && m[c].parent == x;
    assert n[top].children + cs[..i] + [c] == n[top].children + cs[..i + 1];
  }

  lemma {:induction false} SetAllHands(n: Nodes, x: XNode, i: nat, top: XNode)
    requires Family(n, x, top) && i <= |n[x].children|
    ensures var m := SetAll(n, n[x].children[..i], top);
      m.Keys == n.Keys && forall y :: y in n ==> Handed(n, x, i, top, y, m[y])
  {
    var cs := n[x].children;
    if i > 0 {
      SetAllHands(n, x, i - 1, top);
      assert cs[..i][..i - 1] == cs[..i - 1];
      HandOver(n, x, i - 1, top, SetAll(n, cs[..i - 1], top));
    }
  }

  /** In the midst of handing over: the first i children are gone, and the next one still hangs below x. */
  lemma HandedSoFar(n: Nodes, x: XNode, i: nat, top: XNode)
    requires Family(n, x, top) && i <= |n[x].children|
    ensures var cs, m := n[x].children, SetAll(n, n[x].children[..i], top);
      && m.Keys == n.Keys && x in n && top in n && m[x].children == cs[i..]
      && (i < |cs| ==> cs[i] in n && cs[i..][0] == cs[i] && m[cs[i]].parent == x && |cs[i + 1..]| < |cs[i..]|)
  {
    var cs, m := n[x].children, SetAll(n, n[x].children[..i], top);
    SetAllHands(n, x, i, top);
    hide SetAll;
    assert Handed(n, x, i, top, x, m[x]);
    if i < |cs| {
      assert cs[i] in cs && cs[i] !in cs[..i];
      assert Handed(n, x, i, top, cs[i], m[cs[i]]);
    }
  }

  lemma OrphanFamily(s: Hier, x: XNode)
    requires Tree(s) && x in s.nodes && !IsTop(s.nodes[x].kind)
    ensures Family(Orphaned(s.nodes, x), x, Universe(s, s.nodes[x].kind))
    ensures Orphaned(s.nodes, x)[x].children == s.nodes[x].children
  {
    var n := s.nodes;
    assert Linked(n, x) && Linked(n, s.u) && Linked(n, s.v);
    forall c | c in n[x].children ensures c != n[x].parent && c != x {
      assert Linked(n, c);
    }
  }

  /** Only for a childless node does x_destroy leave two well-formed trees: any child would hang too high. */
  lemma DestroyedShape(s: Hier, x: XNode)
    requires Tree(s) && x in s.nodes && !IsTop(s.nodes[x].kind)
    ensures Forest(Destroyed(s, x).nodes) <==> s.nodes[x].children == []
  {
    var n, cs := s.nodes, s.nodes[x].children;
    var top := Universe(s, n[x].kind);
    assert Linked(n, x);
    if cs != [] {
      OrphanFamily(s, x);
      SetAllHands(Orphaned(n, x), x, |cs|, top);
      assert cs[..|cs|] == cs;
      var c, n' := cs[0], Destroyed(s, x).nodes;
      assert Linked(n, c);
      assert c in n' && n'[c].kind == n[c].kind && n'[c].parent == top;
      assert !Linked(n', c);
    } else {
      RemoveShape(n, x);
    }
  }

  /** The place of any childless node below the top can be given up. */
  lemma RemoveShape(n: Nodes, x: XNode)
    requires Forest(n) && x in n && !IsTop(n[x].kind) && n[x].children == []
    ensures Forest(Orphaned(n, x) - {x})
  {
    assert Linked(n, x);
    var p, n' := n[x].parent, Orphaned(n, x) - {x};
    assert Linked(n, p);
    WithoutFacts(n[p].children, x);
    forall y | y in n' ensures Linked(n', y) {
      assert Linked(n, y);
      assert n[y].parent != x;
      forall c | c in n'[y].children ensures c in n' && n'[c].parent == y {
        if y == p {
          assert n'[p].children == Without(n[p].children, x);
        } else {
          assert n'[y] == n[y];
        }
      }
    }
  }

  lemma DestroyedChildless(s: Hier, x: XNode)
    requires x in s.nodes && s.nodes[x].children == [] && s.nodes[x].parent != x
    ensures Destroyed(s, x) == Remove(s, x)
  {
    assert Orphaned(s.nodes, x) - {x} == Unlinking(s.nodes, x, s.nodes[x].parent) - {x};
  }

  /** job_zombie_cb on the hierarchy; libev has already stopped the timer when it calls back. */
  function ZombieHier(s: Hier, j: XNode): Hier
    requires j in s.nodes
  {
    if s.nodes[j].fake then s.(nodes := s.nodes[j := s.nodes[j].(zombie := false)])
    else if s.nodes[j].nrChild > 0 then s.(nodes := s.nodes[j := s.nodes[j].(zombie := true)])
    else Remove(s, j)
  }

  lemma ZombieTree(s: Hier, j: XNode)
    requires Tree(s) && IsKind(s.nodes, j, Job)
    ensures Tree(ZombieHier(s, j))
  {
    MarksKeepTree(s, j, s.nodes[j].(zombie := false));
    MarksKeepTree(s, j, s.nodes[j].(zombie := true));
    assert Linked(s.nodes, j);
    if !s.nodes[j].fake && s.nodes[j].nrChild == 0 {
      RemoveTree(s, j);
    }
  }

  // ---------- what the steps leave alone ----------

  ghost predicate Kept(n: Nodes, n': Nodes, x: XNode)
    requires x in n
  {
    x in n' && n'[x].kind == n[x].kind && (n[x].kind != Host ==> n'[x].parent == n[x].parent)
  }

  /** No node disappears, changes kind or, unless it is a host, moves; new nodes are new. */
  ghost predicate Grows(h: Hier, h': Hier) {
    && h'.u == h.u && h'.v == h.v && h.ever <= h'.ever
    && (forall x {:trigger Kept(h.nodes, h'.nodes, x)} :: x in h.nodes ==> Kept(h.nodes, h'.nodes, x))
    && (forall x :: x in h'.nodes && x !in h.nodes ==> x !in h.ever)
  }

  lemma GrowsTrans(h: Hier, h1: Hier, h2: Hier)
    requires Grows(h, h1) && Grows(h1, h2)
    ensures Grows(h, h2)
  {
    forall x | x in h.nodes ensures Kept(h.nodes, h2.nodes, x) {
      assert Kept(h.nodes, h1.nodes, x) && Kept(h1.nodes, h2.nodes, x);
    }
  }

  lemma LookupGrows(h: Hier, x: XNode, node: Node)
    requires Tree(h) && CanLookup(h, x, node)
    ensures Grows(h, Lookup(h, x, node).0)
  {
  }

  lemma MoveHostKeeps(n: Nodes, x: XNode, j: XNode, y: XNode)
    requires Forest(n) && IsKind(n, x, Host) && IsKind(n, j, Job) && y in n
    ensures y in MoveHost(n, x, j) && MoveHost(n, x, j)[y].kind == n[y].kind && MoveHost(n, x, j)[y].fake == n[y].fake
    ensures MoveHost(n, x, j)[y].idle == n[y].idle && (n[y].kind != Host ==> MoveHost(n, x, j)[y].parent == n[y].parent)
  {
    assert Linked(n, x);
  }

  lemma MoveHostGrows(h: Hier, x: XNode, j: XNode)
    requires Tree(h) && IsKind(h.nodes, x, Host) && IsKind(h.nodes, j, Job)
    ensures h.nodes[x].parent in h.nodes && Grows(h, h.(nodes := MoveHost(h.nodes, x, j)))
  {
    MoveHostShape(h.nodes, x, j);
    forall y | y in h.nodes ensures Kept(h.nodes, MoveHost(h.nodes, x, j), y) {
      MoveHostKeeps(h.nodes, x, j, y);
    }
  }

  lemma LineNodesGrows(h: Hier, c: XNode, host: string, job: string, owner: string, nj: XNode, nh: XNode, junk: bool)
    requires Tree(h) && IsKind(h.nodes, c, Clus) && SpareLine(h, host, job, nj, nh)
    ensures Grows(h, LineNodes(h, c, host, job, owner, nj, nh, junk).0)
  {
    var (h1, j) := Lookup(h, nj, NewNode(Job, job, c, owner, junk));
    LineNodesTree(h, c, host, job, owner, nj, nh, junk);
    LookupGrows(h, nj, NewNode(Job, job, c, owner, junk));
    LookupGrows(h1, nh, NewNode(Host, host, j, "", false));
    GrowsTrans(h, h1, LineNodes(h, c, host, job, owner, nj, nh, junk).0);
  }

  lemma ClusMessageGrows(h: Hier, c: XNode, host: string, job: string, owner: string, nj: XNode, nh: XNode, junk: bool)
    requires Tree(h) && IsKind(h.nodes, c, Clus) && SpareLine(h, host, job, nj, nh)
    ensures Grows(h, ClusMessage(h, c, host, job, owner, nj, nh, junk))
  {
    var (h2, j, x) := LineNodes(h, c, host, job, owner, nj, nh, junk);
    LineNodesTree(h, c, host, job, owner, nj, nh, junk);
    LineNodesGrows(h, c, host, job, owner, nj, nh, junk);
    MoveHostGrows(h2, x, j);
    GrowsTrans(h, h2, h2.(nodes := MoveHost(h2.nodes, x, j)));
  }

  lemma MarkIdleGrows(h: Hier, c: XNode, j: XNode)
    requires c in h.nodes && j in h.nodes
    ensures Grows(h, h.(nodes := MarkIdle(h.nodes, c, j)))
  {
  }

  lemma AddClusGrows(h: Hier, name: string, c: XNode, j: XNode, junk: bool)
    requires Tree(h) && SpareClus(h, name, c, j)
    ensures Grows(h, AddClus(h, name, c, j, junk))
  {
    if (Clus, name) !in h.names {
      var node := NewNode(Clus, name, h.u, "", false);
      var job := NewNode(Job, IDLE + name, c, "NONE", junk);
      LookupGrows(h, c, node);
      AddNodeTree(h, c, node);
      var h1 := AddNode(h, c, node);
      LookupGrows(h1, j, job);
      LookupTree(h1, j, job);
      var (h2, idle) := Lookup(h1, j, job);
      GrowsTrans(h, h1, h2);
      MarkIdleGrows(h2, c, idle);
      GrowsTrans(h, h2, h2.(nodes := MarkIdle(h2.nodes, c, idle)));
    }
  }

  // ---------- the life of a job ----------

  /** A job is fake, or has hosts, or has its zombie timer armed. */
  ghost predicate JobAlive(n: Nodes, j: XNode)
    requires j in n
  {
    n[j].fake || n[j].nrChild > 0 || n[j].zombie
  }

  ghost predicate JobsAlive(n: Nodes, but: set<XNode>) {
    forall j {:trigger JobAlive(n, j)} :: j in n && n[j].kind == Job && j !in but ==> JobAlive(n, j)
  }

  ghost predicate Lifecycle(n: Nodes) {
    JobsAlive(n, {}) && IdleJobs(n)
  }

  ghost function But(but: set<XNode>, k: Kind, node: Node, x: XNode): set<XNode> {
    if node.kind == k then but + {x} else but
  }

  lemma AddLifecycle(n: Nodes, x: XNode, node: Node, bare: set<XNode>, idleless: set<XNode>)
    requires x !in n && node.parent in n
    requires JobsAlive(n, bare) && IdleJobsBut(n, idleless)
    ensures var n' := Linking(n, x, node.parent)[x := node];
      JobsAlive(n', But(bare, Job, node, x)) && IdleJobsBut(n', But(idleless, Clus, node, x))
  {
    var n' := Linking(n, x, node.parent)[x := node];
    forall c | c in n && n[c].kind == Clus && c !in idleless ensures HasIdle(n', c) {
      assert HasIdle(n, c);
    }
    forall j | j in n && n[j].kind == Job && j !in bare ensures JobAlive(n', j) {
      assert JobAlive(n, j);
    }
  }

  lemma LookupLifecycle(h: Hier, x: XNode, node: Node, bare: set<XNode>, idleless: set<XNode>)
    requires Tree(h) && CanLookup(h, x, node)
    requires JobsAlive(h.nodes, bare) && IdleJobsBut(h.nodes, idleless)
    ensures var (h', y) := Lookup(h, x, node);
      JobsAlive(h'.nodes, But(bare, Job, node, y)) && IdleJobsBut(h'.nodes, But(idleless, Clus, node, y))
  {
    if (node.kind, node.name) !in h.names {
      AddLifecycle(h.nodes, x, node, bare, idleless);
    }
  }

  lemma MoveHostLifecycle(n: Nodes, x: XNode, j: XNode)
    requires Forest(n) && IsKind(n, x, Host) && IsKind(n, j, Job) && IdleJobs(n) && JobsAlive(n, {j})
    ensures n[x].parent in n && Lifecycle(MoveHost(n, x, j))
  {
    MoveHostShape(n, x, j);
    var n' := MoveHost(n, x, j);
    assert Linked(n, x);
    forall k | k in n' && n'[k].kind == Job ensures JobAlive(n', k) {
      if k == j {
        assert Linked(n', k) && Linked(n', x);
        assert n'[x].parent == j;
      } else {
        assert JobAlive(n, k);
      }
    }
    forall c | c in n' && n'[c].kind == Clus ensures HasIdle(n', c) {
      MoveHostKeeps(n, x, j, c);
      assert HasIdle(n, c);
      MoveHostKeeps(n, x, j, n[c].idle);
    }
  }

  lemma JobLookupLifecycle(h: Hier, x: XNode, node: Node)
    requires Tree(h) && CanLookup(h, x, node) && node.kind == Job && Lifecycle(h.nodes)
    ensures var (h', y) := Lookup(h, x, node); JobsAlive(h'.nodes, {y}) && IdleJobs(h'.nodes)
  {
    LookupLifecycle(h, x, node, {}, {});
  }

  lemma HostLookupLifecycleBut(h: Hier, x: XNode, node: Node, j: XNode)
    requires Tree(h) && CanLookup(h, x, node) && node.kind == Host && JobsAlive(h.nodes, {j}) && IdleJobs(h.nodes)
    ensures var (h', y) := Lookup(h, x, node); JobsAlive(h'.nodes, {j}) && IdleJobs(h'.nodes)
  {
    LookupLifecycle(h, x, node, {j}, {});
  }

  lemma LineNodesLifecycle(h: Hier, c: XNode, host: string, job: string, owner: string, nj: XNode, nh: XNode,
                           junk: bool)
    requires Tree(h) && IsKind(h.nodes, c, Clus) && SpareLine(h, host, job, nj, nh) && Lifecycle(h.nodes)
    ensures var (h', j, x) := LineNodes(h, c, host, job, owner, nj, nh, junk);
      JobsAlive(h'.nodes, {j}) && IdleJobs(h'.nodes)
  {
    var (h1, j) := Lookup(h, nj, NewNode(Job, job, c, owner, junk));
    LineNodesTree(h, c, host, job, owner, nj, nh, junk);
    JobLookupLifecycle(h, nj, NewNode(Job, job, c, owner, junk));
    HostLookupLifecycleBut(h1, nh, NewNode(Host, host, j, "", false), j);
  }

  /** clus_msg_cb keeps every job alive: the job it names gets the host, and the job the host leaves is armed when
      empty. */
  lemma ClusMessageLifecycle(h: Hier, c: XNode, host: string, job: string, owner: string, nj: XNode, nh: XNode,
                             junk: bool)
    requires Tree(h) && IsKind(h.nodes, c, Clus) && SpareLine(h, host, job, nj, nh) && Lifecycle(h.nodes)
    ensures Lifecycle(ClusMessage(h, c, host, job, owner, nj, nh, junk).nodes)
  {
    var (h2, j, x) := LineNodes(h, c, host, job, owner, nj, nh, junk);
    LineNodesTree(h, c, host, job, owner, nj, nh, junk);
    LineNodesLifecycle(h, c, host, job, owner, nj, nh, junk);
    MoveHostLifecycle(h2.nodes, x, j);
  }

  lemma MarkIdleLifecycle(n: Nodes, c: XNode, j: XNode)
    requires IsKind(n, c, Clus) && IsKind(n, j, Job) && JobsAlive(n, {j}) && IdleJobsBut(n, {c})
    ensures Lifecycle(MarkIdle(n, c, j))
  {
    var n' := MarkIdle(n, c, j);
    forall k | k in n' && n'[k].kind == Job ensures JobAlive(n', k) {
      if k != j {
        assert JobAlive(n, k);
      }
    }
    forall d | d in n' && n'[d].kind == Clus ensures HasIdle(n', d) {
      if d != c {
        assert HasIdle(n, d);
      }
    }
  }

  lemma AddClusLifecycle(h: Hier, name: string, c: XNode, j: XNode, junk: bool)
    requires Tree(h) && SpareClus(h, name, c, j) && Lifecycle(h.nodes)
    ensures Lifecycle(AddClus(h, name, c, j, junk).nodes)
  {
    if (Clus, name) !in h.names {
      var node := NewNode(Clus, name, h.u, "", false);
      var job := NewNode(Job, IDLE + name, c, "NONE", junk);
      var h1 := AddNode(h, c, node);
      AddLifecycle(h.nodes, c, node, {}, {});
      AddNodeTree(h, c, node);
      var (h2, idle) := Lookup(h1, j, job);
      LookupLifecycle(h1, j, job, {}, {c});
      LookupTree(h1, j, job);
      MarkIdleLifecycle(h2.nodes, c, idle);
    }
  }

  lemma RemoveLifecycle(n: Nodes, j: XNode)
    requires Lifecycle(n) && IsKind(n, j, Job) && !n[j].fake && IsKind(n, n[j].parent, Clus)
    ensures Lifecycle(Unlinking(n, j, n[j].parent) - {j})
  {
    var n' := Unlinking(n, j, n[j].parent) - {j};
    forall k | k in n' && n'[k].kind == Job ensures JobAlive(n', k) {
      assert JobAlive(n, k);
    }
    forall c | c in n' && n'[c].kind == Clus ensures HasIdle(n', c) {
      assert HasIdle(n, c);
    }
  }

  /** A job is freed only when it is not fake and has no hosts; otherwise a zombie with hosts is armed again. */
  lemma ZombieLifecycle(h: Hier, j: XNode)
    requires Tree(h) && IsKind(h.nodes, j, Job) && Lifecycle(h.nodes)
    ensures Lifecycle(ZombieHier(h, j).nodes)
    ensures j !in ZombieHier(h, j).nodes <==> !h.nodes[j].fake && h.nodes[j].children == []
  {
    var n, n' := h.nodes, ZombieHier(h, j).nodes;
    assert Linked(n, j);
    if n[j].fake || n[j].nrChild > 0 {
      forall k | k in n' && n'[k].kind == Job ensures JobAlive(n', k) {
        assert JobAlive(n, k);
      }
      forall c | c in n' && n'[c].kind == Clus ensures HasIdle(n', c) {
        assert HasIdle(n, c);
      }
    } else {
      RemoveLifecycle(n, j);
    }
  }
}
