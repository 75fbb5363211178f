/** Following the pointers of a built trie: which nodes a request reaches, and
    which route the exact-first walk ends on. */
module TrieWalk {
  import opened Outcomes
  import opened Text
  import opened RouteIndex
  import opened RouteSearch
  import opened RouteTrie

  /** The nodes reached by stepping, at each node, to the exact child or to the
      parameter child. */
  ghost function Frontier(root: TrieNode, nodes: Nodes, p: Path, node: TrieNode, request: seq<string>): set<TrieNode>
    requires IsTree(root, nodes) && p in nodes && nodes[p] == node
    reads nodes.Values
    decreases |request|
  {
    assert Linked(nodes, p, ContentsOf(nodes)[p]);
    if request == [] then {node}
    else
      (if request[0] in node.children
       then Frontier(root, nodes, Below(p, Exact(request[0])), node.children[request[0]], request[1..])
       else {}) +
      (if node.paramChild != null
       then Frontier(root, nodes, Below(p, Param), node.paramChild, request[1..])
       else {})
  }

  /** The exact-first walk with backtracking. */
  ghost function Lookup(root: TrieNode, nodes: Nodes, p: Path, node: TrieNode,
                        request: seq<string>, verb: HttpMethod): Option<RouteId>
    requires IsTree(root, nodes) && p in nodes && nodes[p] == node
    reads nodes.Values
    decreases |request|
  {
    assert Linked(nodes, p, ContentsOf(nodes)[p]);
    if request == [] then
      if verb in node.routes then Some(node.routes[verb]) else None
    else
      var viaExact :=
        if request[0] in node.children
        then Lookup(root, nodes, Below(p, Exact(request[0])), node.children[request[0]], request[1..], verb)
        else None;
      if viaExact.Some? then viaExact
      else if node.paramChild != null
      then Lookup(root, nodes, Below(p, Param), node.paramChild, request[1..], verb)
      else None
  }

  lemma {:induction false} LookupIsSearch(root: TrieNode, nodes: Nodes, p: Path, request: seq<string>, verb: HttpMethod)
    requires IsTree(root, nodes) && p in nodes
    ensures Lookup(root, nodes, p, nodes[p], request, verb) ==
            match Search(View(nodes), p, request, verb)
            case None => None
            case Some(tail) => IdAt(View(nodes), p + tail, verb)
    decreases |request|
  {
    hide Tree;
    if request == [] {
      assert p + [] == p;
    } else {
      NodeFacts(root, nodes, ContentsOf(nodes), p, Exact(request[0]));
      NodeFacts(root, nodes, ContentsOf(nodes), p, Param);
      LookupThrough(root, nodes, p, Exact(request[0]), request, verb);
      LookupThrough(root, nodes, p, Param, request, verb);
      SearchIsSound(View(nodes), p, request, verb);
    }
  }

  lemma {:induction false} LookupThrough(root: TrieNode, nodes: Nodes, p: Path, step: Step,
                                         request: seq<string>, verb: HttpMethod)
    requires IsTree(root, nodes) && p in nodes && request != []
    ensures Below(p, step) in nodes ==>
              Lookup(root, nodes, Below(p, step), nodes[Below(p, step)], request[1..], verb) ==
              match Through(View(nodes), p, step, request, verb)
              case None => None
              case Some(tail) => IdAt(View(nodes), p + tail, verb)
    ensures Through(View(nodes), p, step, request, verb).Some? ==>
              IdAt(View(nodes), p + Through(View(nodes), p, step, request, verb).value, verb).Some?
    decreases |request|, 0
  {
    hide Tree;
    if Below(p, step) in nodes {
      LookupIsSearch(root, nodes, Below(p, step), request[1..], verb);
      SearchIsSound(View(nodes), Below(p, step), request[1..], verb);
      var below := Search(View(nodes), Below(p, step), request[1..], verb);
      if below.Some? {
        assert p + ([step] + below.value) == Below(p, step) + below.value;
      }
    }
  }

  /** The built trie answers every request as a linear scan of the route list does. */
  lemma TrieAgreesWithLinearScan(root: TrieNode, nodes: Nodes, routes: seq<TrieRoute>,
                                 request: seq<string>, verb: HttpMethod)
    requires IsTree(root, nodes) && View(nodes) == Built(ParseAll(routes))
    ensures [] in nodes && nodes[[]] == root
    ensures Lookup(root, nodes, [], root, request, verb) ==
            match LinearScan(ParseAll(routes), request, verb)
            case None => None
            case Some(i) => Some(routes[i].id)
  {
    hide Tree, Parse;
    TreeFacts(root, nodes, ContentsOf(nodes));
    LookupIsSearch(root, nodes, [], request, verb);
    IndexAgreesWithLinearScan(ParseAll(routes), request, verb);
    var found := Search(View(nodes), [], request, verb);
    assert found.Some? ==> [] + found.value == found.value;
    var best := LinearScan(ParseAll(routes), request, verb);
    if best.Some? {
      ParseKeeps(routes[best.value]);
    }
  }

  /** The frontier is exactly the nodes whose erased path matches the request. */
  lemma {:induction false} FrontierIsMatching(root: TrieNode, nodes: Nodes, p: Path, request: seq<string>, n: TrieNode)
    requires IsTree(root, nodes) && p in nodes
    ensures n in Frontier(root, nodes, p, nodes[p], request) <==>
            exists tail :: Matches(tail, request) && p + tail in nodes && nodes[p + tail] == n
    decreases |request|
  {
    hide Tree;
    if request == [] {
      assert p + [] == p;
      assert Matches([], request);
      forall tail | Matches(tail, request) ensures tail == [] { }
    } else {
      var exact := Exact(request[0]);
      NodeFacts(root, nodes, ContentsOf(nodes), p, exact);
      NodeFacts(root, nodes, ContentsOf(nodes), p, Param);
      FrontierThrough(root, nodes, p, exact, request, n);
      FrontierThrough(root, nodes, p, Param, request, n);
      forall tail | Matches(tail, request) && p + tail in nodes && nodes[p + tail] == n
        ensures tail[0] == exact || tail[0] == Param
      {
      }
    }
  }

  lemma {:induction false} FrontierThrough(root: TrieNode, nodes: Nodes, p: Path, step: Step, request: seq<string>, n: TrieNode)
    requires IsTree(root, nodes) && p in nodes && request != []
    requires step == Param || step == Exact(request[0])
    ensures (Below(p, step) in nodes && n in Frontier(root, nodes, Below(p, step), nodes[Below(p, step)], request[1..])) <==>
            exists tail :: Matches(tail, request) && p + tail in nodes && nodes[p + tail] == n && tail[0] == step
    decreases |request|, 0
  {
    hide Tree;
    var c := Below(p, step);
    if c in nodes {
      FrontierIsMatching(root, nodes, c, request[1..], n);
    }
    if c in nodes && n in Frontier(root, nodes, c, nodes[c], request[1..]) {
      var below :| Matches(below, request[1..]) && c + below in nodes && nodes[c + below] == n;
      assert p + ([step] + below) == c + below;
      assert Matches([step] + below, request);
    }
    if tail :| Matches(tail, request) && p + tail in nodes && nodes[p + tail] == n && tail[0] == step {
      assert p + tail == c + tail[1..];
      AncestorsExist(root, nodes, c, tail[1..]);
      assert Matches(tail[1..], request[1..]);
    }
  }

  lemma {:induction false} AncestorsExist(root: TrieNode, nodes: Nodes, p: Path, tail: Path)
    requires IsTree(root, nodes) && p + tail in nodes
    ensures p in nodes
  {
    if tail == [] {
      assert p + tail == p;
    } else {
      var n := |tail| - 1;
      assert p + tail == Below(p + tail[..n], tail[n]);
      AncestorsExist(root, nodes, p, tail[..n]);
    }
  }

  ghost predicate LastMatch(entries: seq<Entry>, request: seq<string>, verb: HttpMethod, i: int) {
    0 <= i < |entries| && Matches(entries[i].key, request) &&
    LastAt(entries, entries[i].key, verb) == Some(i)
  }

  lemma ReachedIdIsLastMatch(root: TrieNode, nodes: Nodes, entries: seq<Entry>,
                             request: seq<string>, verb: HttpMethod, n: TrieNode) returns (i: nat)
    requires IsTree(root, nodes) && View(nodes) == Built(entries)
    requires [] in nodes && nodes[[]] == root
    requires n in Frontier(root, nodes, [], root, request) && verb in n.routes
    ensures LastMatch(entries, request, verb, i) && entries[i].id == n.routes[verb]
  {
    hide Tree;
    FrontierIsMatching(root, nodes, [], request, n);
    var q :| Matches(q, request) && [] + q in nodes && nodes[[] + q] == n;
    assert [] + q == q;
    LastWriteWins(entries, q, verb);
    assert IdAt(View(nodes), q, verb) == Some(n.routes[verb]);
    i := LastAt(entries, q, verb).value;
  }

  lemma LastMatchIsReached(root: TrieNode, nodes: Nodes, entries: seq<Entry>,
                           request: seq<string>, verb: HttpMethod, i: nat) returns (n: TrieNode)
    requires IsTree(root, nodes) && View(nodes) == Built(entries)
    requires [] in nodes && nodes[[]] == root
    requires LastMatch(entries, request, verb, i)
    ensures n in Frontier(root, nodes, [], root, request) && verb in n.routes
    ensures n.routes[verb] == entries[i].id
  {
    hide Tree;
    var q := entries[i].key;
    LastWriteWins(entries, q, verb);
    assert IdAt(View(nodes), q, verb) == Some(entries[i].id);
    assert [] + q == q;
    n := nodes[q];
    FrontierIsMatching(root, nodes, [], request, n);
  }

  /** For every request and method, the ids stored at the reached nodes are exactly
      the ids of the last route registered under each matching key. */
  lemma ReachedIdsAreLastMatches(root: TrieNode, nodes: Nodes, routes: seq<TrieRoute>,
                                 request: seq<string>, verb: HttpMethod, id: RouteId)
    requires IsTree(root, nodes) && View(nodes) == Built(ParseAll(routes))
    ensures [] in nodes && nodes[[]] == root
    ensures (exists n :: n in Frontier(root, nodes, [], root, request) && verb in n.routes && n.routes[verb] == id)
            <==>
            (exists i :: LastMatch(ParseAll(routes), request, verb, i) && routes[i].id == id)
  {
    hide Tree, Parse, Frontier, LastAt, Matches;
    TreeFacts(root, nodes, ContentsOf(nodes));
    var entries := ParseAll(routes);
    if n :| n in Frontier(root, nodes, [], root, request) && verb in n.routes && n.routes[verb] == id {
      var i := ReachedIdIsLastMatch(root, nodes, entries, request, verb, n);
      ParseKeeps(routes[i]);
    }
    if i :| LastMatch(entries, request, verb, i) && routes[i].id == id {
      ParseKeeps(routes[i]);
      var n := LastMatchIsReached(root, nodes, entries, request, verb, i);
    }
  }

  /** The heap holds one node for the root and one per distinct non-empty prefix of
      the erased patterns: no path shares a node with another. */
  lemma HeapHoldsOneNodePerPrefix(root: TrieNode, nodes: Nodes, routes: seq<TrieRoute>)
    requires IsTree(root, nodes) && View(nodes) == Built(ParseAll(routes))
    ensures |nodes.Values| == 1 + |NonEmptyPrefixes(ParseAll(routes))|
  {
    hide Built, NonEmptyPrefixes, Linked, ParentClosed;
    NodeCount(ParseAll(routes));
    assert View(nodes).routes.Keys == nodes.Keys;
    assert |View(nodes).routes| == |View(nodes).routes.Keys|;
    UnsharedCount(nodes);
  }

  lemma {:induction false} UnsharedCount(nodes: Nodes)
    requires Unshared(nodes)
    ensures |nodes.Values| == |nodes|
  {
    if nodes == map[] {
      assert nodes.Values == {};
    } else {
      var p :| p in nodes;
      UnsharedCount(nodes - {p});
      WithoutOne(nodes, p);
    }
  }

  lemma WithoutOne(nodes: Nodes, p: Path)
    requires Unshared(nodes) && p in nodes
    ensures |nodes.Values| == |(nodes - {p}).Values| + 1 && |nodes| == |nodes - {p}| + 1
  {
    var rest := nodes - {p};
    forall n ensures n in nodes.Values <==> n in rest.Values + {nodes[p]} {
      if n in nodes.Values {
        var q :| q in nodes && nodes[q] == n;
        assert q != p ==> rest[q] == n;
      }
    }
    assert nodes.Values == rest.Values + {nodes[p]};
    assert nodes.Keys == rest.Keys + {p};
  }

  // ---------------------------------------------------------------------------
  // From the text of a pattern to the answer
  // ---------------------------------------------------------------------------

  /** A trie of one route answers a request exactly when the method is the route's and
      the request agrees with the pattern, segment by segment, outside its parameters. */
  lemma OneRouteTrieAnswers(root: TrieNode, nodes: Nodes, route: TrieRoute, segs: seq<string>,
                            request: seq<string>, verb: HttpMethod)
    requires IsTree(root, nodes) && View(nodes) == Built(ParseAll([route]))
    requires Writes(route.pathPattern, segs)
    ensures [] in nodes && nodes[[]] == root
    ensures Lookup(root, nodes, [], root, request, verb) ==
            if route.verb == verb && |segs| == |request| &&
               forall k :: 0 <= k < |segs| ==> IsParameter(segs[k]) || segs[k] == request[k]
            then Some(route.id) else None
  {
    hide Tree, Parse, Built, Found;
    var e := Parse(route);
    PatternsErase(segs);
    assert route == TrieRoute(route.id, route.verb, route.pathPattern);
    assert ParseAll([route]) == [e];
    LookupIsFound(root, nodes, [e], request, verb);
    OneRouteAnswers(e, request, verb);
  }

  lemma LookupIsFound(root: TrieNode, nodes: Nodes, entries: seq<Entry>, request: seq<string>, verb: HttpMethod)
    requires IsTree(root, nodes) && View(nodes) == Built(entries)
    ensures [] in nodes && nodes[[]] == root
    ensures Lookup(root, nodes, [], root, request, verb) == Found(Built(entries), request, verb)
  {
    hide Tree, Built;
    TreeFacts(root, nodes, ContentsOf(nodes));
    LookupIsSearch(root, nodes, [], request, verb);
    var found := Search(View(nodes), [], request, verb);
    assert found.Some? ==> [] + found.value == found.value;
  }

  /** Exact beats parameter, however many routes are listed: a request that spells out
      a listed pattern without parameters is answered by the last route so written. */
  lemma SpelledOutRouteAnswers(root: TrieNode, nodes: Nodes, routes: seq<TrieRoute>, segs: seq<string>, i: nat)
    requires IsTree(root, nodes) && View(nodes) == Built(ParseAll(routes))
    requires i < |routes| && Writes(routes[i].pathPattern, segs)
    requires forall k :: 0 <= k < |segs| ==> !IsParameter(segs[k])
    requires forall j :: i < j < |routes| && routes[j].verb == routes[i].verb ==> !Writes(routes[j].pathPattern, segs)
    ensures [] in nodes && nodes[[]] == root
    ensures Lookup(root, nodes, [], root, segs, routes[i].verb) == Some(routes[i].id)
  {
    hide Tree, Parse, Built, Found;
    var entries, verb := ParseAll(routes), routes[i].verb;
    ParseKeeps(routes[i]);
    SpelledOutKeys(routes[i], segs);
    forall j | i < j < |routes| && entries[j].verb == verb ensures entries[j].key != entries[i].key {
      ParseKeeps(routes[j]);
      SpelledOutKeys(routes[j], segs);
    }
    LookupIsFound(root, nodes, entries, segs, verb);
    ExactKeyAnswers(entries, segs, verb, i);
  }

  /** A pattern has the key that spells segs out exactly when it is written from them. */
  lemma SpelledOutKeys(route: TrieRoute, segs: seq<string>)
    requires AreSegments(segs) && forall k :: 0 <= k < |segs| ==> !IsParameter(segs[k])
    ensures Writes(route.pathPattern, segs) <==>
            |Parse(route).key| == |segs| && forall k :: 0 <= k < |segs| ==> Parse(route).key[k] == Exact(segs[k])
  {
    hide Segments, AreSegments;
    var cuts := Segments(route.pathPattern);
    WritesIffCut(route.pathPattern, segs);
    ParseKeeps(route);
    forall k | 0 <= k < |cuts| && k < |segs| ensures Parse(route).key[k] == Exact(segs[k]) <==> cuts[k] == segs[k] {
      ParseAt(route, k);
    }
    hide Parse;
    assert cuts == segs <==> |cuts| == |segs| && forall k :: 0 <= k < |segs| ==> cuts[k] == segs[k];
  }
}
