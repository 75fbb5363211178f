/** The prefix trie over routes, built in place on a heap of nodes. */
module RouteTrie {
  import opened Outcomes
  import opened Text
  import opened RouteIndex

  class TrieNode {
    var children: map<string, TrieNode>
    var paramChild: TrieNode?
    var paramName: Option<string>
    var routes: map<HttpMethod, RouteId>

    ghost function Fields(): NodeFields
      reads this
    {
      NodeFields(children, paramChild, paramName, routes)
    }

    constructor ()
      ensures Fields() == NodeFields(map[], null, None, map[])
    {
      children, paramChild, paramName, routes := map[], null, None, map[];
    }
  }

  datatype NodeFields = NodeFields(children: map<string, TrieNode>, paramChild: TrieNode?,
                                   paramName: Option<string>, routes: map<HttpMethod, RouteId>)

  /** The nodes of a trie, addressed by their erased path from the root. */
  type Nodes = map<Path, TrieNode>

  /** The contents of those nodes at one moment. */
  type Contents = map<Path, NodeFields>

  ghost function ContentsOf(nodes: Nodes): (c: Contents)
    reads nodes.Values
  {
    map p | p in nodes :: nodes[p].Fields()
  }

  function Below(p: Path, step: Step): Path {
    p + [step]
  }

  lemma BelowIsInjective(p: Path, s: Step, q: Path, t: Step)
    requires Below(p, s) == Below(q, t)
    ensures p == q && s == t
  {
    assert p == Below(p, s)[..|p|] == Below(q, t)[..|q|] == q;
    assert Below(p, s)[|p|] == Below(q, t)[|q|];
  }

  predicate Clean(segment: string) {
    '/' !in segment && !StartsWith(segment, ':')
  }

  /** The node at p links to exactly the nodes one step below it. */
  ghost predicate Linked(nodes: Nodes, p: Path, n: NodeFields) {
    (forall s :: s in n.children <==> Below(p, Exact(s)) in nodes) &&
    (forall s :: s in n.children ==> n.children[s] == nodes[Below(p, Exact(s))] && Clean(s)) &&
    (n.paramChild != null <==> Below(p, Param) in nodes) &&
    (n.paramChild != null ==> n.paramChild == nodes[Below(p, Param)]) &&
    (n.paramName.Some? <==> n.paramChild != null)
  }

  /** The nodes form an unshared tree: every path reaches its own node, and every
      node but the root hangs below its parent. */
  ghost predicate Tree(root: TrieNode, nodes: Nodes, contents: Contents) {
    nodes.Keys == contents.Keys &&
    [] in nodes && nodes[[]] == root &&
    Unshared(nodes) && ParentClosed(nodes) &&
    (forall p :: p in nodes ==> Linked(nodes, p, contents[p]))
  }

  ghost predicate Unshared(nodes: Nodes) {
    forall p, q :: p in nodes && q in nodes && p != q ==> nodes[p] != nodes[q]
  }

  ghost predicate ParentClosed(nodes: Nodes) {
    forall p, s :: Below(p, s) in nodes ==> p in nodes
  }

  ghost predicate IsTree(root: TrieNode, nodes: Nodes)
    reads nodes.Values
  {
    Tree(root, nodes, ContentsOf(nodes))
  }

  ghost function IndexOf(contents: Contents): Index {
    Index(map p | p in contents :: contents[p].routes, NamesOf(contents))
  }

  ghost function NamesOf(contents: Contents): map<Path, string> {
    map p | p in contents && contents[p].paramName.Some? :: contents[p].paramName.value
  }

  ghost function View(nodes: Nodes): Index
    reads nodes.Values
  {
    IndexOf(ContentsOf(nodes))
  }

  /** The fields of a node once it links to a new child. */
  ghost function WithChild(n: NodeFields, step: Step, name: string, child: TrieNode): NodeFields {
    match step
    case Exact(text) => n.(children := n.children[text := child])
    case Param => n.(paramChild := child, paramName := Some(name))
  }

  ghost function Attached(contents: Contents, p: Path, step: Step, name: string, child: TrieNode): Contents
    requires p in contents
  {
    contents[p := WithChild(contents[p], step, name, child)]
            [Below(p, step) := NodeFields(map[], null, None, map[])]
  }

  /** A link survives a new node that is not its child. */
  lemma UnrelatedLinksStay(nodes: Nodes, q: Path, n: NodeFields, p: Path, step: Step, child: TrieNode)
    requires Linked(nodes, q, n) && q != p && Below(p, step) !in nodes
    ensures Linked(nodes[Below(p, step) := child], q, n)
  {
    forall s ensures Below(q, s) != Below(p, step) {
      if Below(q, s) == Below(p, step) {
        BelowIsInjective(q, s, p, step);
      }
    }
    hide Below;
  }

  lemma ParentLinkGrows(nodes: Nodes, p: Path, n: NodeFields, step: Step, name: string, child: TrieNode)
    requires Linked(nodes, p, n) && Below(p, step) !in nodes
    requires step.Exact? ==> Clean(step.text)
    ensures Linked(nodes[Below(p, step) := child], p, WithChild(n, step, name, child))
  {
    forall s ensures Below(p, s) == Below(p, step) <==> s == step {
      if Below(p, s) == Below(p, step) {
        BelowIsInjective(p, s, p, step);
      }
    }
    hide Below;
  }

  lemma NewNodeIsLeaf(nodes: Nodes, c: Path, child: TrieNode, n: NodeFields)
    requires ParentClosed(nodes) && c !in nodes
    requires n == NodeFields(map[], null, None, map[])
    ensures Linked(nodes[c := child], c, n)
  {
    forall s ensures Below(c, s) !in nodes[c := child] {
      assert |Below(c, s)| > |c|;
    }
    hide Below;
  }

  lemma LinkIgnoresRoutes(nodes: Nodes, p: Path, n: NodeFields, routes: map<HttpMethod, RouteId>)
    requires Linked(nodes, p, n)
    ensures Linked(nodes, p, n.(routes := routes))
  {
  }

  lemma AttachKeepsTree(root: TrieNode, nodes: Nodes, contents: Contents,
                        p: Path, step: Step, name: string, child: TrieNode)
    requires Tree(root, nodes, contents) && p in nodes && Below(p, step) !in nodes
    requires step.Exact? ==> Clean(step.text)
    requires child !in nodes.Values
    ensures Tree(root, nodes[Below(p, step) := child], Attached(contents, p, step, name, child))
  {
    hide Unshared, ParentClosed, Linked, WithChild;
    var grown := nodes[Below(p, step) := child];
    forall q | q in grown ensures Linked(grown, q, Attached(contents, p, step, name, child)[q]) {
      if q == Below(p, step) {
        NewNodeIsLeaf(nodes, q, child, Attached(contents, p, step, name, child)[q]);
      } else if q == p {
        ParentLinkGrows(nodes, p, contents[p], step, name, child);
      } else {
        UnrelatedLinksStay(nodes, q, contents[q], p, step, child);
      }
    }
    AttachKeepsParents(nodes, p, step, child);
    AttachKeepsUnshared(nodes, Below(p, step), child);
    assert [] != Below(p, step);
  }

  lemma AttachKeepsUnshared(nodes: Nodes, c: Path, child: TrieNode)
    requires Unshared(nodes) && child !in nodes.Values
    ensures Unshared(nodes[c := child])
  {
    forall q | q in nodes ensures nodes[q] != child {
      assert nodes[q] in nodes.Values;
    }
  }

  lemma AttachKeepsParents(nodes: Nodes, p: Path, step: Step, child: TrieNode)
    requires ParentClosed(nodes) && p in nodes
    ensures ParentClosed(nodes[Below(p, step) := child])
  {
    var grown := nodes[Below(p, step) := child];
    forall q, s | Below(q, s) in grown ensures q in grown {
      if Below(q, s) == Below(p, step) {
        BelowIsInjective(q, s, p, step);
      }
    }
  }

  /** In the view, hanging a new node below p is touching that child. */
  lemma AttachIsTouch(contents: Contents, p: Path, step: Step, name: string, child: TrieNode)
    requires p in contents && Below(p, step) !in contents
    ensures IndexOf(Attached(contents, p, step, name, child)) == Touch(IndexOf(contents), p, step, name)
  {
    assert Below(p, step) == p + [step] != p;
    hide Below, NamesOf;
    var c, after, ix := Below(p, step), Attached(contents, p, step, name, child), IndexOf(contents);
    assert IndexOf(after).routes == ix.routes[c := map[]];
    AttachNames(contents, p, step, name, child);
  }

  lemma AttachNames(contents: Contents, p: Path, step: Step, name: string, child: TrieNode)
    requires p in contents && Below(p, step) !in contents
    ensures NamesOf(Attached(contents, p, step, name, child)) ==
            if step.Param? then NamesOf(contents)[p := name] else NamesOf(contents)
  {
    var c, after := Below(p, step), Attached(contents, p, step, name, child);
    assert c != p by {
      assert |c| > |p|;
    }
    assert after[c].paramName == None;
    assert after[p].paramName == if step.Param? then Some(name) else contents[p].paramName;
    assert forall q :: q != c && q != p ==> (q in after <==> q in contents) && (q in after ==> after[q] == contents[q]);
    hide Below, Attached, WithChild;
  }

  ghost function Registered(contents: Contents, e: Entry): Contents
    requires e.key in contents
  {
    contents[e.key := contents[e.key].(routes := contents[e.key].routes[e.verb := e.id])]
  }

  /** Registering an id at a node leaves every link as it was. */
  lemma RegisterKeepsTree(root: TrieNode, nodes: Nodes, contents: Contents, e: Entry)
    requires Tree(root, nodes, contents) && e.key in nodes
    ensures Tree(root, nodes, Registered(contents, e))
  {
    hide Unshared, ParentClosed, Linked;
    forall p | p in nodes ensures Linked(nodes, p, Registered(contents, e)[p]) {
      LinkIgnoresRoutes(nodes, p, contents[p], Registered(contents, e)[p].routes);
    }
  }

  lemma RegisterInView(contents: Contents, e: Entry)
    requires e.key in contents
    ensures IndexOf(Registered(contents, e)) == Register(IndexOf(contents), e)
  {
    var after, ix := IndexOf(Registered(contents, e)), Register(IndexOf(contents), e);
    assert after.names == ix.names;
    assert after.routes == ix.routes;
  }

  lemma SingleNode(root: TrieNode, nodes: Nodes, contents: Contents)
    requires nodes == map[[] := root] && contents == map[[] := NodeFields(map[], null, None, map[])]
    ensures Tree(root, nodes, contents) && IndexOf(contents) == EmptyIndex
  {
    assert forall p, s :: Below(p, s) != [];
  }

  lemma TreeFacts(root: TrieNode, nodes: Nodes, contents: Contents)
    requires Tree(root, nodes, contents)
    ensures [] in nodes && nodes[[]] == root && Unshared(nodes)
  {
  }

  /** A node has a child for a step exactly when the trie has a node there, and
      then touching that child changes nothing. */
  lemma NodeFacts(root: TrieNode, nodes: Nodes, contents: Contents, p: Path, step: Step)
    requires Tree(root, nodes, contents) && p in nodes
    ensures p in contents && Below(p, step) != p
    ensures match step
            case Exact(s) =>
              (s in contents[p].children <==> Below(p, step) in nodes) &&
              (s in contents[p].children ==> contents[p].children[s] == nodes[Below(p, step)])
            case Param =>
              (contents[p].paramChild != null <==> Below(p, step) in nodes) &&
              (contents[p].paramChild != null ==> contents[p].paramChild == nodes[Below(p, step)])
    ensures Below(p, step) !in nodes <==> Below(p, step) !in contents
    ensures forall name :: Below(p, step) in nodes ==> Touch(IndexOf(contents), p, step, name) == IndexOf(contents)
  {
    assert Linked(nodes, p, contents[p]);
    assert |Below(p, step)| > |p|;
  }

  lemma ParseKeeps(route: TrieRoute)
    ensures var e := Parse(route);
            |e.key| == |Segments(route.pathPattern)| && e.verb == route.verb && e.id == route.id
  {
  }

  lemma ParseAt(route: TrieRoute, i: nat)
    requires i < |Segments(route.pathPattern)|
    ensures var e := Parse(route); var segment := Segments(route.pathPattern)[i];
            |e.key| == |Segments(route.pathPattern)| && '/' !in segment &&
            e.key[i] == StepOf(segment) && e.names[i] == NameOf(segment) &&
            e.key[..i + 1] == Below(e.key[..i], e.key[i])
  {
    SegmentsAreClean(route.pathPattern);
    var e := Parse(route);
    assert e.key[..i + 1] == e.key[..i] + [e.key[i]];
  }

  method BuildTrie(routes: seq<TrieRoute>) returns (root: TrieNode, ghost nodes: Nodes)
    ensures fresh(nodes.Values)
    ensures IsTree(root, nodes)
    ensures View(nodes) == Built(ParseAll(routes))
  {
    hide Tree, IndexOf, Parse, Inserted;
    root := new TrieNode();
    nodes := map[[] := root];
    SingleNode(root, nodes, ContentsOf(nodes));
    ghost var entries := ParseAll(routes);
    for i := 0 to |routes|
      invariant fresh(nodes.Values) && IsTree(root, nodes)
      invariant View(nodes) == Built(entries[..i])
    {
      assert entries[..i + 1][..i] == entries[..i];
      nodes := InsertRoute(root, routes[i], nodes);
    }
    assert entries[..|routes|] == entries;
  }

  method InsertRoute(root: TrieNode, route: TrieRoute, ghost nodes: Nodes) returns (ghost grown: Nodes)
    requires IsTree(root, nodes)
    modifies nodes.Values
    ensures fresh(grown.Values - nodes.Values)
    ensures IsTree(root, grown)
    ensures View(grown) == Inserted(old(View(nodes)), Parse(route))
  {
    hide Tree, IndexOf, Parse, Split, StepOf, NameOf, Touch, Register;
    var raw := if StartsWith(route.pathPattern, '/') then route.pathPattern[1..] else route.pathPattern;
    var segments := if raw == "" then [] else Split(raw, '/');
    ghost var e := Parse(route);
    var node := root;
    grown := nodes;
    TreeFacts(root, nodes, ContentsOf(nodes));
    ParseKeeps(route);
    for i := 0 to |segments|
      invariant i <= |e.key|
      invariant fresh(grown.Values - nodes.Values)
      invariant IsTree(root, grown)
      invariant View(grown) == Descend(old(View(nodes)), e, i)
      invariant e.key[..i] in grown && node == grown[e.key[..i]]
    {
      ParseAt(route, i);
      node, grown := Enter(root, node, segments[i], grown, e.key[..i]);
    }
    assert e.key[..|segments|] == e.key;
    RegisterAt(root, node, route.verb, route.id, grown, e);
  }

  /** The last write wins: the id replaces what the node held for this verb. */
  method RegisterAt(root: TrieNode, node: TrieNode, verb: HttpMethod, id: RouteId, ghost nodes: Nodes, ghost e: Entry)
    requires IsTree(root, nodes) && e.key in nodes && nodes[e.key] == node
    requires e.verb == verb && e.id == id
    modifies node
    ensures IsTree(root, nodes)
    ensures View(nodes) == Register(old(View(nodes)), e)
  {
    hide Tree, IndexOf, Register;
    ghost var before := ContentsOf(nodes);
    TreeFacts(root, nodes, before);
    RegisterKeepsTree(root, nodes, before, e);
    RegisterInView(before, e);
    node.routes := node.routes[verb := id];
    assert ContentsOf(nodes) == Registered(before, e);
  }

  /** One step of the cursor: go to the child for this segment, creating it first
      when it is missing. */
  method Enter(root: TrieNode, node: TrieNode, segment: string, ghost nodes: Nodes, ghost p: Path)
    returns (next: TrieNode, ghost grown: Nodes)
    requires IsTree(root, nodes) && p in nodes && nodes[p] == node && '/' !in segment
    modifies node
    ensures fresh(grown.Values - nodes.Values)
    ensures IsTree(root, grown)
    ensures View(grown) == Touch(old(View(nodes)), p, StepOf(segment), NameOf(segment))
    ensures Below(p, StepOf(segment)) in grown && grown[Below(p, StepOf(segment))] == next
  {
    if StartsWith(segment, ':') {
      next, grown := EnterParam(root, node, segment, nodes, p);
    } else {
      next, grown := EnterExact(root, node, segment, nodes, p);
    }
  }

  method EnterParam(root: TrieNode, node: TrieNode, segment: string, ghost nodes: Nodes, ghost p: Path)
    returns (next: TrieNode, ghost grown: Nodes)
    requires IsTree(root, nodes) && p in nodes && nodes[p] == node && StartsWith(segment, ':')
    modifies node
    ensures fresh(grown.Values - nodes.Values)
    ensures IsTree(root, grown)
    ensures View(grown) == Touch(old(View(nodes)), p, Param, segment[1..])
    ensures Below(p, Param) in grown && grown[Below(p, Param)] == next
  {
    hide Tree, IndexOf, Touch, Below;
    grown := nodes;
    ghost var before, name := ContentsOf(nodes), segment[1..];
    TreeFacts(root, nodes, before);
    NodeFacts(root, nodes, before, p, Param);
    if node.paramChild == null {
      var child := new TrieNode();
      AttachKeepsTree(root, nodes, before, p, Param, name, child);
      AttachIsTouch(before, p, Param, name, child);
      node.paramChild := child;
      node.paramName := Some(segment[1..]);
      grown := nodes[Below(p, Param) := child];
      assert ContentsOf(grown) == Attached(before, p, Param, name, child);
    }
    next := node.paramChild;
  }

  method EnterExact(root: TrieNode, node: TrieNode, segment: string, ghost nodes: Nodes, ghost p: Path)
    returns (next: TrieNode, ghost grown: Nodes)
    requires IsTree(root, nodes) && p in nodes && nodes[p] == node && Clean(segment)
    modifies node
    ensures fresh(grown.Values - nodes.Values)
    ensures IsTree(root, grown)
    ensures View(grown) == Touch(old(View(nodes)), p, Exact(segment), "")
    ensures Below(p, Exact(segment)) in grown && grown[Below(p, Exact(segment))] == next
  {
    hide Tree, IndexOf, Touch, Below;
    grown := nodes;
    ghost var before, step := ContentsOf(nodes), Exact(segment);
    TreeFacts(root, nodes, before);
    NodeFacts(root, nodes, before, p, step);
    if segment !in node.children {
      var child := new TrieNode();
      AttachKeepsTree(root, nodes, before, p, step, "", child);
      AttachIsTouch(before, p, step, "", child);
      node.children := node.children[segment := child];
      grown := nodes[Below(p, step) := child];
      assert ContentsOf(grown) == Attached(before, p, step, "", child);
    }
    next := node.children[segment];
  }
}
