/** What the route trie means: erased patterns, the index they build, and the
    linear scan the index replaces. */
module RouteIndex {
  import opened Outcomes
  import opened Text

  datatype HttpMethod = GET | POST | PUT | PATCH | DELETE | HEAD | OPTIONS

  type RouteId = string

  datatype TrieRoute = TrieRoute(id: RouteId, verb: HttpMethod, pathPattern: string)

  /** A pattern segment with parameter names erased. */
  datatype Step = Exact(text: string) | Param

  type Path = seq<Step>

  /** One optional leading slash is dropped, then the rest is cut at the slashes. */
  function Segments(pathPattern: string): seq<string> {
    var raw := if StartsWith(pathPattern, '/') then pathPattern[1..] else pathPattern;
    if raw == "" then [] else Split(raw, '/')
  }

  function StepOf(segment: string): Step {
    if StartsWith(segment, ':') then Param else Exact(segment)
  }

  function NameOf(segment: string): string {
    if StartsWith(segment, ':') then segment[1..] else ""
  }

  /** A route ready for insertion: its erased path and, position by position, the
      parameter names that erasing forgets. */
  datatype ParsedRoute = ParsedRoute(key: Path, names: seq<string>, verb: HttpMethod, id: RouteId)

  type Entry = e: ParsedRoute | |e.names| == |e.key| witness ParsedRoute([], [], GET, "")

  function Parse(route: TrieRoute): Entry {
    var segments := Segments(route.pathPattern);
    ParsedRoute(seq(|segments|, i requires 0 <= i < |segments| => StepOf(segments[i])),
                seq(|segments|, i requires 0 <= i < |segments| => NameOf(segments[i])),
                route.verb, route.id)
  }

  function ParseAll(routes: seq<TrieRoute>): seq<Entry> {
    seq(|routes|, i requires 0 <= i < |routes| => Parse(routes[i]))
  }

  /** The abstract index: the routes stored at each node, addressed by the erased
      path from the root, and the parameter name recorded at a node. */
  datatype Index = Index(routes: map<Path, map<HttpMethod, RouteId>>, names: map<Path, string>)

  const EmptyIndex := Index(map[[] := map[]], map[])

  /** Make sure the child of p for this step exists; the first one through a
      parameter position names it. */
  function Touch(ix: Index, p: Path, step: Step, name: string): Index {
    var q := p + [step];
    if q in ix.routes then ix
    else Index(ix.routes[q := map[]], if step.Param? then ix.names[p := name] else ix.names)
  }

  /** Touch the first n nodes on the way to an entry's key. */
  function Descend(ix: Index, e: Entry, n: nat): Index
    requires n <= |e.key|
  {
    if n == 0 then ix
    else Touch(Descend(ix, e, n - 1), e.key[..n - 1], e.key[n - 1], e.names[n - 1])
  }

  function Register(ix: Index, e: Entry): Index {
    if e.key in ix.routes
    then ix.(routes := ix.routes[e.key := ix.routes[e.key][e.verb := e.id]])
    else ix
  }

  function Inserted(ix: Index, e: Entry): Index {
    Register(Descend(ix, e, |e.key|), e)
  }

  function Built(entries: seq<Entry>): Index {
    if entries == [] then EmptyIndex
    else Inserted(Built(entries[..|entries| - 1]), entries[|entries| - 1])
  }

  function IdAt(ix: Index, p: Path, verb: HttpMethod): Option<RouteId> {
    if p in ix.routes && verb in ix.routes[p] then Some(ix.routes[p][verb]) else None
  }

  // ---------------------------------------------------------------------------
  // Closed form of the built index
  // ---------------------------------------------------------------------------

  /** Erasing the segments of a pattern never yields a step a slash could spoil. */
  lemma SegmentsAreClean(pathPattern: string)
    ensures forall s :: s in Segments(pathPattern) ==> '/' !in s
  {
    SplitPiecesAvoidSeparator(if StartsWith(pathPattern, '/') then pathPattern[1..] else pathPattern, '/');
  }

  /** A list of segments as a pattern writes them: slash-free, and not the two lists
      that stand for the root. */
  predicate AreSegments(segs: seq<string>) {
    segs != [] && segs != [""] && forall i :: 0 <= i < |segs| ==> '/' !in segs[i]
  }

  predicate IsParameter(segment: string) {
    segment != "" && segment[0] == ':'
  }

  /** The pattern written from these segments, with or without its leading slash. */
  predicate Writes(pathPattern: string, segs: seq<string>) {
    AreSegments(segs) &&
    (pathPattern == "/" + Join(segs, "/") || (segs[0] != "" && pathPattern == Join(segs, "/")))
  }

  lemma JoinStartsAsItsHead(segs: seq<string>)
    requires AreSegments(segs)
    ensures Join(segs, "/") != ""
    ensures segs[0] != "" ==> Join(segs, "/")[0] == segs[0][0]
  {
  }

  /** One leading slash is optional: with it, or without it where the first segment is
      not empty, a pattern is cut into exactly its segments. */
  lemma PatternsAreCut(segs: seq<string>)
    requires AreSegments(segs)
    ensures Segments("/" + Join(segs, "/")) == segs
    ensures segs[0] != "" ==> Segments(Join(segs, "/")) == segs
  {
    JoinStartsAsItsHead(segs);
    SplitUndoesJoin(segs, '/');
    assert ("/" + Join(segs, "/"))[1..] == Join(segs, "/");
    if segs[0] != "" {
      assert Join(segs, "/")[0] == segs[0][0] != '/' by {
        assert segs[0][0] in segs[0];
      }
    }
  }

  /** What erasing makes of one pattern: a segment that starts with a colon is a
      parameter under the rest of its text, any other is matched literally. */
  ghost predicate ErasesTo(pathPattern: string, segs: seq<string>) {
    forall id, verb ::
      var e := Parse(TrieRoute(id, verb, pathPattern));
      e.id == id && e.verb == verb && |e.key| == |segs| &&
      forall i :: 0 <= i < |segs| ==>
        if IsParameter(segs[i])
        then e.key[i] == Param && e.names[i] == segs[i][1..]
        else e.key[i] == Exact(segs[i])
  }

  lemma PatternsErase(segs: seq<string>)
    requires AreSegments(segs)
    ensures ErasesTo("/" + Join(segs, "/"), segs)
    ensures segs[0] != "" ==> ErasesTo(Join(segs, "/"), segs)
  {
    PatternsAreCut(segs);
    hide Segments;
  }

  lemma RootPatternsErase()
    ensures ErasesTo("", []) && ErasesTo("/", [])
  {
    assert "/"[1..] == "";
  }

  lemma WritesIffCut(pathPattern: string, segs: seq<string>)
    requires AreSegments(segs)
    ensures Writes(pathPattern, segs) <==> Segments(pathPattern) == segs
  {
    if Writes(pathPattern, segs) {
      PatternsAreCut(segs);
    }
    if Segments(pathPattern) == segs {
      var raw := if StartsWith(pathPattern, '/') then pathPattern[1..] else pathPattern;
      assert StartsWith(pathPattern, '/') ==> pathPattern == "/" + raw;
      JoinUndoesSplit(raw, '/');
      assert segs[0] == "" ==> StartsWith(Join(segs, "/"), '/');
    }
  }

  /** There are no other patterns. */
  lemma EveryPatternIsCovered(pathPattern: string)
    ensures pathPattern in ["", "/"] || exists segs :: Writes(pathPattern, segs)
  {
    if pathPattern !in ["", "/"] {
      var segs := Segments(pathPattern);
      var raw := if StartsWith(pathPattern, '/') then pathPattern[1..] else pathPattern;
      assert raw == "" ==> !StartsWith(pathPattern, '/') || pathPattern == "/" + raw == "/";
      SegmentsAreClean(pathPattern);
      JoinUndoesSplit(raw, '/');
      assert segs == [""] ==> Join(segs, "/") == "";
      forall i | 0 <= i < |segs| ensures '/' !in segs[i] {
        assert segs[i] in segs;
      }
      WritesIffCut(pathPattern, segs);
    }
  }

  lemma PrefixOfAppended(p: Path, q: Path, step: Step)
    ensures p <= q + [step] <==> p <= q || p == q + [step]
  {
    if p <= q + [step] && p != q + [step] {
      assert p == (q + [step])[..|p|] == q[..|p|];
    }
    if p <= q {
      assert p == q[..|p|] == (q + [step])[..|p|];
    }
  }

  lemma {:induction false} DescendClosedForm(ix: Index, e: Entry, n: nat)
    requires [] in ix.routes && n <= |e.key|
    ensures forall p :: p in Descend(ix, e, n).routes <==> p in ix.routes || p <= e.key[..n]
    ensures forall p :: p in ix.routes ==> Descend(ix, e, n).routes[p] == ix.routes[p]
    ensures forall p :: p in Descend(ix, e, n).routes && p !in ix.routes ==>
              Descend(ix, e, n).routes[p] == map[]
  {
    if n == 0 {
    } else {
      DescendClosedForm(ix, e, n - 1);
      assert e.key[..n] == e.key[..n - 1] + [e.key[n - 1]];
      forall p ensures p in Descend(ix, e, n).routes <==> p in ix.routes || p <= e.key[..n] {
        PrefixOfAppended(p, e.key[..n - 1], e.key[n - 1]);
      }
    }
  }

  lemma InsertedRoutes(ix: Index, e: Entry)
    requires [] in ix.routes
    ensures forall p :: p in Inserted(ix, e).routes <==> p in ix.routes || p <= e.key
    ensures forall p, v :: IdAt(Inserted(ix, e), p, v) ==
              if p == e.key && v == e.verb then Some(e.id) else IdAt(ix, p, v)
  {
    DescendClosedForm(ix, e, |e.key|);
    assert e.key[..|e.key|] == e.key;
  }

  /** The nodes of the index are exactly the prefixes of the erased patterns: no
      node is missing and there is no dead branch. */
  lemma {:induction false} NodesArePrefixes(entries: seq<Entry>, p: Path)
    ensures p in Built(entries).routes <==>
            p == [] || exists i :: 0 <= i < |entries| && p <= entries[i].key
  {
    if entries == [] {
    } else {
      var front := entries[..|entries| - 1];
      NodesArePrefixes(front, p);
      NodesArePrefixes(front, []);
      InsertedRoutes(Built(front), entries[|entries| - 1]);
      if p in Built(entries).routes && p != [] && p in Built(front).routes {
        var i :| 0 <= i < |front| && p <= front[i].key;
        assert p <= entries[i].key;
      }
      if i :| 0 <= i < |entries| && p <= entries[i].key {
        if i < |front| {
          assert p <= front[i].key;
        }
      }
    }
  }

  predicate Registers(e: Entry, p: Path, verb: HttpMethod) {
    e.key == p && e.verb == verb
  }

  /** Position of the last route registered under a key. */
  function LastAt(entries: seq<Entry>, p: Path, verb: HttpMethod): (r: Option<nat>)
    ensures r.Some? ==> r.value < |entries| && Registers(entries[r.value], p, verb)
    ensures r.Some? ==> forall i :: r.value < i < |entries| ==> !Registers(entries[i], p, verb)
    ensures r.None? ==> forall i :: 0 <= i < |entries| ==> !Registers(entries[i], p, verb)
  {
    var n := |entries|;
    if n == 0 then None
    else if Registers(entries[n - 1], p, verb) then Some(n - 1)
    else LastAt(entries[..n - 1], p, verb)
  }

  lemma LastDecidesOrDefers(entries: seq<Entry>, p: Path, verb: HttpMethod)
    requires entries != []
    ensures IdAt(Built(entries), p, verb) ==
            if Registers(entries[|entries| - 1], p, verb) then Some(entries[|entries| - 1].id)
            else IdAt(Built(entries[..|entries| - 1]), p, verb)
  {
    hide IdAt;
    NodesArePrefixes(entries[..|entries| - 1], []);
    InsertedRoutes(Built(entries[..|entries| - 1]), entries[|entries| - 1]);
  }

  /** Last write wins: a key holds the id of the last route registered under it. */
  lemma {:induction false} LastWriteWins(entries: seq<Entry>, p: Path, verb: HttpMethod)
    ensures IdAt(Built(entries), p, verb) ==
            match LastAt(entries, p, verb) case None => None case Some(i) => Some(entries[i].id)
  {
    if entries == [] {
    } else {
      hide Built, IdAt, Registers;
      LastWriteWins(entries[..|entries| - 1], p, verb);
      LastDecidesOrDefers(entries, p, verb);
    }
  }

  /** Every node other than the root has a registered route at or below it. */
  lemma NoDeadBranches(entries: seq<Entry>, p: Path)
    requires p in Built(entries).routes && p != []
    ensures exists q, v :: p <= q && IdAt(Built(entries), q, v).Some?
  {
    NodesArePrefixes(entries, p);
    var i :| 0 <= i < |entries| && p <= entries[i].key;
    LastWriteWins(entries, entries[i].key, entries[i].verb);
    assert Registers(entries[i], entries[i].key, entries[i].verb);
    assert IdAt(Built(entries), entries[i].key, entries[i].verb).Some?;
  }

  /** Every listed route can be looked up under its own key exactly when no two
      routes share an erased key with different ids. */
  lemma NothingOverwrittenIff(entries: seq<Entry>)
    ensures (forall i :: 0 <= i < |entries| ==> Survives(entries, i)) <==>
            (forall i, j :: 0 <= i < j < |entries| && Registers(entries[j], entries[i].key, entries[i].verb) ==>
               entries[i].id == entries[j].id)
  {
    hide Built, IdAt;
    if forall i :: 0 <= i < |entries| ==> Survives(entries, i) {
      forall i, j | 0 <= i < j < |entries| && Registers(entries[j], entries[i].key, entries[i].verb)
        ensures entries[i].id == entries[j].id
      {
        assert Survives(entries, i) && Survives(entries, j);
      }
    }
    if forall i, j :: 0 <= i < j < |entries| && Registers(entries[j], entries[i].key, entries[i].verb) ==>
        entries[i].id == entries[j].id {
      forall i | 0 <= i < |entries| ensures Survives(entries, i) {
        LastSurvives(entries, i);
      }
    }
  }

  /** Route i is still found under its own key. */
  predicate Survives(entries: seq<Entry>, i: nat)
    requires i < |entries|
  {
    IdAt(Built(entries), entries[i].key, entries[i].verb) == Some(entries[i].id)
  }

  lemma LastSurvives(entries: seq<Entry>, i: nat)
    requires i < |entries|
    ensures exists j :: i <= j < |entries| && Registers(entries[j], entries[i].key, entries[i].verb) &&
                        IdAt(Built(entries), entries[i].key, entries[i].verb) == Some(entries[j].id)
  {
    hide Built, IdAt;
    assert Registers(entries[i], entries[i].key, entries[i].verb);
    LastWriteWins(entries, entries[i].key, entries[i].verb);
    var last := LastAt(entries, entries[i].key, entries[i].verb).value;
    assert Registers(entries[last], entries[i].key, entries[i].verb);
  }

  /** The unique constraint on (method, path_pattern) is not that condition: two
      distinct patterns can erase to one key, and then the first id is lost. */
  lemma DistinctPatternsCanCollide(first: RouteId, second: RouteId)
    ensures var a := TrieRoute(first, GET, "/:a"); var b := TrieRoute(second, GET, "/:b");
            a.pathPattern != b.pathPattern &&
            IdAt(Built(ParseAll([a, b])), Parse(a).key, GET) == Some(second)
  {
    var a := TrieRoute(first, GET, "/:a");
    var b := TrieRoute(second, GET, "/:b");
    SplitOfPiece(":a", '/');
    SplitOfPiece(":b", '/');
    assert a.pathPattern[1..] == ":a" && b.pathPattern[1..] == ":b";
    assert Segments(a.pathPattern) == [":a"] && Segments(b.pathPattern) == [":b"];
    assert Parse(a).key == [Param] == Parse(b).key;
    LastWriteWins(ParseAll([a, b]), [Param], GET);
    assert Registers(ParseAll([a, b])[1], [Param], GET);
    assert a.pathPattern[2] != b.pathPattern[2];
  }

  /** The name at a parameter position is the one the first listed route through
      that position uses. */
  ghost predicate FirstThrough(entries: seq<Entry>, q: Path, i: int) {
    0 <= i < |entries| && q <= entries[i].key && forall j :: 0 <= j < i ==> !(q <= entries[j].key)
  }

  lemma SameChild(p: Path, q: Path, step: Step)
    requires p + [Param] == q + [step]
    ensures p == q && step == Param
  {
    assert p == (p + [Param])[..|p|] == (q + [step])[..|q|] == q;
    assert (p + [Param])[|p|] == (q + [step])[|q|];
  }

  lemma TouchNames(ix: Index, q: Path, step: Step, name: string, p: Path)
    requires p + [Param] in ix.routes <==> p in ix.names
    ensures var ix' := Touch(ix, q, step, name);
            (p + [Param] in ix'.routes <==> p in ix'.names) &&
            (p in ix.names ==> p in ix'.names && ix'.names[p] == ix.names[p]) &&
            (p !in ix.names && p in ix'.names ==> p == q && step == Param && ix'.names[p] == name)
  {
    if p + [Param] == q + [step] {
      SameChild(p, q, step);
    } else if p == q {
      assert step != Param;
    }
  }

  lemma {:induction false} DescendNames(ix: Index, e: Entry, n: nat, p: Path)
    requires n <= |e.key|
    requires p + [Param] in ix.routes <==> p in ix.names
    ensures p + [Param] in Descend(ix, e, n).routes <==> p in Descend(ix, e, n).names
    ensures p in ix.names ==> p in Descend(ix, e, n).names && Descend(ix, e, n).names[p] == ix.names[p]
    ensures p !in ix.names && p in Descend(ix, e, n).names ==>
              p + [Param] <= e.key && Descend(ix, e, n).names[p] == e.names[|p|]
  {
    if n == 0 {
    } else {
      hide Touch;
      DescendNames(ix, e, n - 1, p);
      TouchNames(Descend(ix, e, n - 1), e.key[..n - 1], e.key[n - 1], e.names[n - 1], p);
      assert e.key[..n] == e.key[..n - 1] + [e.key[n - 1]];
    }
  }

  lemma InsertedNames(ix: Index, e: Entry, p: Path)
    requires [] in ix.routes
    requires p + [Param] in ix.routes <==> p in ix.names
    ensures p + [Param] in Inserted(ix, e).routes <==> p in Inserted(ix, e).names
    ensures p in ix.names ==> p in Inserted(ix, e).names && Inserted(ix, e).names[p] == ix.names[p]
    ensures p !in ix.names && p in Inserted(ix, e).names ==>
              p + [Param] <= e.key && Inserted(ix, e).names[p] == e.names[|p|]
  {
    DescendNames(ix, e, |e.key|, p);
    DescendClosedForm(ix, e, |e.key|);
    InsertedRoutes(ix, e);
  }

  lemma {:induction false} FirstThroughNamesParameter(entries: seq<Entry>, p: Path)
    ensures p + [Param] in Built(entries).routes <==> p in Built(entries).names
    ensures p in Built(entries).names ==>
              exists i :: FirstThrough(entries, p + [Param], i) &&
                          Built(entries).names[p] == entries[i].names[|p|]
  {
    if entries == [] {
    } else {
      var n := |entries| - 1;
      var front := entries[..n];
      FirstThroughNamesParameter(front, p);
      NodesArePrefixes(front, []);
      InsertedNames(Built(front), entries[n], p);
      if p in Built(front).names {
        var i :| FirstThrough(front, p + [Param], i) &&
                 Built(front).names[p] == front[i].names[|p|];
        assert FirstThrough(entries, p + [Param], i);
      } else if p in Built(entries).names {
        NobodyBefore(entries, p + [Param]);
        assert FirstThrough(entries, p + [Param], n);
      }
    }
  }

  lemma NobodyBefore(entries: seq<Entry>, q: Path)
    requires entries != [] && q != [] && q !in Built(entries[..|entries| - 1]).routes
    ensures forall j :: 0 <= j < |entries| - 1 ==> !(q <= entries[j].key)
  {
    var front := entries[..|entries| - 1];
    NodesArePrefixes(front, q);
    forall j | 0 <= j < |entries| - 1 ensures !(q <= entries[j].key) {
      assert front[j] == entries[j];
    }
  }

  lemma SameNamesFromSameRoutes(a: seq<Entry>, b: seq<Entry>)
    ensures Built(a).routes == Built(b).routes ==> Built(a).names.Keys == Built(b).names.Keys
  {
    hide Built;
    forall p ensures Built(a).routes == Built(b).routes ==> (p in Built(a).names <==> p in Built(b).names) {
      FirstThroughNamesParameter(a, p);
      FirstThroughNamesParameter(b, p);
    }
  }

  /** Listing the same routes in another order changes nothing but parameter names,
      provided no two of them share an erased key. */
  lemma {:induction false} OrderIndependence(a: seq<Entry>, b: seq<Entry>)
    requires multiset(a) == multiset(b)
    requires forall i, j :: 0 <= i < j < |a| ==> !Registers(a[j], a[i].key, a[i].verb)
    ensures Built(a).routes == Built(b).routes
    ensures Built(a).names.Keys == Built(b).names.Keys
  {
    SameNamesFromSameRoutes(a, b);
    forall r ensures r in a <==> r in b {
      assert r in multiset(a) <==> r in multiset(b);
    }
    forall p ensures p in Built(a).routes <==> p in Built(b).routes {
      NodesArePrefixes(a, p);
      NodesArePrefixes(b, p);
      if i :| 0 <= i < |a| && p <= a[i].key {
        assert a[i] in b;
      }
      if i :| 0 <= i < |b| && p <= b[i].key {
        assert b[i] in a;
      }
    }
    forall p | p in Built(a).routes
      ensures Built(a).routes[p] == Built(b).routes[p]
    {
      forall v ensures IdAt(Built(a), p, v) == IdAt(Built(b), p, v) {
        LastWriteWins(a, p, v);
        LastWriteWins(b, p, v);
        if LastAt(a, p, v).Some? {
          assert a[LastAt(a, p, v).value] in b;
        }
        if LastAt(b, p, v).Some? {
          assert b[LastAt(b, p, v).value] in a;
        }
      }
      assert forall v :: v in Built(a).routes[p] <==> IdAt(Built(a), p, v).Some?;
      assert forall v :: v in Built(b).routes[p] <==> IdAt(Built(b), p, v).Some?;
    }
  }

  ghost function NonEmptyPrefixes(entries: seq<Entry>): set<Path> {
    set i, n | 0 <= i < |entries| && 1 <= n <= |entries[i].key| :: entries[i].key[..n]
  }

  lemma NonEmptyPrefixesAre(entries: seq<Entry>, p: Path)
    ensures p in NonEmptyPrefixes(entries) <==> p != [] && exists i :: 0 <= i < |entries| && p <= entries[i].key
  {
    if i :| 0 <= i < |entries| && p <= entries[i].key && p != [] {
      assert entries[i].key[..|p|] == p;
    }
  }

  /** One node for the root and one per distinct non-empty prefix. */
  lemma NodeCount(entries: seq<Entry>)
    ensures |Built(entries).routes| == 1 + |NonEmptyPrefixes(entries)|
  {
    hide Built, NonEmptyPrefixes;
    var keys := Built(entries).routes.Keys;
    forall p ensures p in keys <==> p in {[]} + NonEmptyPrefixes(entries) {
      NodesArePrefixes(entries, p);
      NonEmptyPrefixesAre(entries, p);
    }
    assert keys == {[]} + NonEmptyPrefixes(entries);
    NonEmptyPrefixesAre(entries, []);
    assert |keys| == |Built(entries).routes|;
  }
}
