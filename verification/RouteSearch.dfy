/** Matching a request: the exact-first walk over the index against the linear
    scan over the route list that it replaces. */
module RouteSearch {
  import opened Outcomes
  import opened RouteIndex

  predicate Matches(p: Path, request: seq<string>) {
    |p| == |request| && forall i :: 0 <= i < |p| ==> p[i] == Param || p[i] == Exact(request[i])
  }

  /** Exact beats parameter at the first position where two paths differ. */
  predicate AtLeastAsSpecific(p: Path, q: Path) {
    |p| == |q| &&
    (p == [] ||
     if p[0] == q[0] then AtLeastAsSpecific(p[1..], q[1..]) else p[0].Exact? && q[0].Param?)
  }

  lemma {:induction false} SpecificityIsTotal(p: Path, q: Path, request: seq<string>)
    requires Matches(p, request) && Matches(q, request)
    ensures AtLeastAsSpecific(p, q) || AtLeastAsSpecific(q, p)
    ensures AtLeastAsSpecific(p, q) && AtLeastAsSpecific(q, p) ==> p == q
  {
    if p == [] {
    } else if p[0] == q[0] {
      SpecificityIsTotal(p[1..], q[1..], request[1..]);
      assert p == [p[0]] + p[1..] && q == [q[0]] + q[1..];
    }
  }

  lemma {:induction false} SpecificityIsTransitive(p: Path, q: Path, r: Path)
    requires AtLeastAsSpecific(p, q) && AtLeastAsSpecific(q, r)
    ensures AtLeastAsSpecific(p, r)
  {
    if p == [] {
    } else if p[0] == q[0] == r[0] {
      SpecificityIsTransitive(p[1..], q[1..], r[1..]);
    }
  }

  lemma {:induction false} SpecificityIsReflexive(p: Path)
    ensures AtLeastAsSpecific(p, p)
  {
    if p == [] {
    } else {
      SpecificityIsReflexive(p[1..]);
    }
  }

  /** The paths agree before position i, and there p is exact and q a parameter. */
  ghost predicate BeatsAt(p: Path, q: Path, i: int) {
    0 <= i < |p| && i < |q| && p[..i] == q[..i] && p[i].Exact? && q[i].Param?
  }

  lemma LaterDifferenceStartsAlike(p: Path, q: Path, i: int)
    requires p != [] && q != []
    ensures BeatsAt(p, q, i) ==> i == 0 || p[0] == q[0]
  {
    if BeatsAt(p, q, i) && i > 0 {
      assert p[0] == p[..i][0] == q[..i][0] == q[0];
    }
  }

  lemma BeatsAtShifts(p: Path, q: Path, i: nat)
    requires p != [] && q != [] && p[0] == q[0]
    ensures BeatsAt(p, q, i + 1) <==> BeatsAt(p[1..], q[1..], i)
  {
    if i < |p[1..]| && i < |q[1..]| {
      assert p[..i + 1] == [p[0]] + p[1..][..i] && q[..i + 1] == [q[0]] + q[1..][..i];
      assert p[..i + 1][1..] == p[1..][..i] && q[..i + 1][1..] == q[1..][..i];
    }
  }

  /** Said by position: p is q, or beats it where the two first differ. */
  lemma {:induction false} SpecificityIsFirstDifference(p: Path, q: Path)
    ensures AtLeastAsSpecific(p, q) <==> |p| == |q| && (p == q || exists i :: BeatsAt(p, q, i))
  {
    if p == [] || q == [] {
    } else if p[0] == q[0] {
      SpecificityIsFirstDifference(p[1..], q[1..]);
      assert p == [p[0]] + p[1..] && q == [q[0]] + q[1..];
      if i :| BeatsAt(p[1..], q[1..], i) {
        BeatsAtShifts(p, q, i);
      }
      if i :| BeatsAt(p, q, i) {
        assert i > 0;
        BeatsAtShifts(p, q, i - 1);
      }
    } else {
      assert |p| == |q| && p[0].Exact? && q[0].Param? ==> BeatsAt(p, q, 0);
      forall i ensures BeatsAt(p, q, i) ==> i == 0 {
        LaterDifferenceStartsAlike(p, q, i);
      }
    }
  }

  /** The exact-first walk with backtracking: the steps it takes from the node at p. */
  function Search(ix: Index, p: Path, request: seq<string>, verb: HttpMethod): (r: Option<Path>)
    ensures r.Some? ==> |r.value| == |request|
    decreases |request|, 1
  {
    if request == [] then
      if IdAt(ix, p, verb).Some? then Some([]) else None
    else
      var viaExact := Through(ix, p, Exact(request[0]), request, verb);
      if viaExact.Some? then viaExact else Through(ix, p, Param, request, verb)
  }

  function Through(ix: Index, p: Path, step: Step, request: seq<string>, verb: HttpMethod): (r: Option<Path>)
    requires request != []
    ensures r.Some? ==> |r.value| == |request| && r.value[0] == step
    decreases |request|, 0
  {
    if p + [step] !in ix.routes then None
    else
      match Search(ix, p + [step], request[1..], verb)
      case None => None
      case Some(tail) => Some([step] + tail)
  }

  /** A stored key that matches the request below p. */
  ghost predicate Candidate(ix: Index, p: Path, tail: Path, request: seq<string>, verb: HttpMethod) {
    Matches(tail, request) && IdAt(ix, p + tail, verb).Some?
  }

  ghost predicate PrefixClosed(ix: Index) {
    forall p, n :: p in ix.routes && 0 <= n <= |p| ==> p[..n] in ix.routes
  }

  lemma BuiltIsPrefixClosed(entries: seq<Entry>)
    ensures PrefixClosed(Built(entries))
  {
    forall p, n | p in Built(entries).routes && 0 <= n <= |p| ensures p[..n] in Built(entries).routes {
      NodesArePrefixes(entries, p);
      NodesArePrefixes(entries, p[..n]);
      if p != [] {
        var i :| 0 <= i < |entries| && p <= entries[i].key;
        assert p[..n] <= entries[i].key;
      }
    }
  }

  /** A candidate below p goes through the exact child or the parameter child. */
  lemma CandidateTakesAStep(ix: Index, p: Path, tail: Path, request: seq<string>, verb: HttpMethod)
    requires PrefixClosed(ix) && request != []
    requires Candidate(ix, p, tail, request, verb)
    ensures tail[0] == Param || tail[0] == Exact(request[0])
    ensures p + [tail[0]] in ix.routes
    ensures Candidate(ix, p + [tail[0]], tail[1..], request[1..], verb)
  {
    assert p + tail == (p + [tail[0]]) + tail[1..];
    assert (p + tail)[..|p| + 1] == p + [tail[0]];
  }

  lemma {:induction false} SearchIsSound(ix: Index, p: Path, request: seq<string>, verb: HttpMethod)
    ensures var found := Search(ix, p, request, verb);
            found.Some? ==> Candidate(ix, p, found.value, request, verb)
    decreases |request|
  {
    var found := Search(ix, p, request, verb);
    if request == [] {
      assert p + [] == p;
    } else if found.Some? {
      var step, tail := found.value[0], found.value[1..];
      SearchIsSound(ix, p + [step], request[1..], verb);
      assert found.value == [step] + tail;
      assert p + ([step] + tail) == (p + [step]) + tail;
    }
  }

  lemma {:induction false} SearchIsBest(ix: Index, p: Path, tail: Path, request: seq<string>, verb: HttpMethod)
    requires PrefixClosed(ix) && Candidate(ix, p, tail, request, verb)
    ensures Search(ix, p, request, verb).Some?
    ensures AtLeastAsSpecific(Search(ix, p, request, verb).value, tail)
    decreases |request|
  {
    if request == [] {
      assert p + tail == p;
    } else {
      CandidateTakesAStep(ix, p, tail, request, verb);
      SearchIsBest(ix, p + [tail[0]], tail[1..], request[1..], verb);
      var below := Search(ix, p + [tail[0]], request[1..], verb).value;
      assert Through(ix, p, tail[0], request, verb) == Some([tail[0]] + below);
      assert ([tail[0]] + below)[1..] == below;
    }
  }

  /** What the trie replaces: look at every route, keep the most specific match and
      prefer the later of two with the same key. */
  function LinearScan(entries: seq<Entry>, request: seq<string>, verb: HttpMethod): (r: Option<nat>)
    ensures r.Some? ==> r.value < |entries|
  {
    var n := |entries|;
    if n == 0 then None
    else
      var best := LinearScan(entries[..n - 1], request, verb);
      var route := entries[n - 1];
      if route.verb == verb && Matches(route.key, request) &&
         (best.None? || AtLeastAsSpecific(route.key, entries[best.value].key))
      then Some(n - 1) else best
  }

  ghost predicate Answers(route: Entry, request: seq<string>, verb: HttpMethod) {
    route.verb == verb && Matches(route.key, request)
  }

  lemma {:induction false} LinearScanFindsMostSpecific(entries: seq<Entry>, request: seq<string>, verb: HttpMethod)
    ensures var best := LinearScan(entries, request, verb);
            best.Some? ==> Answers(entries[best.value], request, verb)
    ensures var best := LinearScan(entries, request, verb);
            forall i :: 0 <= i < |entries| && Answers(entries[i], request, verb) ==>
              best.Some? && AtLeastAsSpecific(entries[best.value].key, entries[i].key) &&
              (entries[i].key == entries[best.value].key ==> i <= best.value)
  {
    var n := |entries|;
    if n == 0 {
    } else {
      var front := entries[..n - 1];
      LinearScanFindsMostSpecific(front, request, verb);
      var before, best := LinearScan(front, request, verb), LinearScan(entries, request, verb);
      SpecificityIsReflexive(entries[n - 1].key);
      forall i | 0 <= i < n && Answers(entries[i], request, verb)
        ensures best.Some? && AtLeastAsSpecific(entries[best.value].key, entries[i].key)
        ensures entries[i].key == entries[best.value].key ==> i <= best.value
      {
        if i < n - 1 {
          assert front[i] == entries[i];
          if best == Some(n - 1) {
            SpecificityIsTransitive(entries[n - 1].key, entries[before.value].key, entries[i].key);
          }
        } else if best != Some(n - 1) {
          SpecificityIsTotal(entries[before.value].key, entries[i].key, request);
        }
      }
    }
  }

  /** The index answers every request exactly as a linear scan of the list does. */
  lemma IndexAgreesWithLinearScan(entries: seq<Entry>, request: seq<string>, verb: HttpMethod)
    ensures Found(Built(entries), request, verb) ==
            match LinearScan(entries, request, verb)
            case None => None
            case Some(i) => Some(entries[i].id)
  {
    hide Built, Search, LinearScan, IdAt, AtLeastAsSpecific, PrefixClosed;
    var ix := Built(entries);
    var found := Search(ix, [], request, verb);
    var best := LinearScan(entries, request, verb);
    BuiltIsPrefixClosed(entries);
    LinearScanFindsMostSpecific(entries, request, verb);
    if best.Some? {
      var p := entries[best.value].key;
      assert Registers(entries[best.value], p, verb);
      LastWriteWins(entries, p, verb);
      assert [] + p == p;
      SearchIsBest(ix, [], p, request, verb);
    }
    if found.Some? {
      var q := found.value;
      SearchIsSound(ix, [], request, verb);
      assert [] + q == q;
      LastWriteWins(entries, q, verb);
      var last := LastAt(entries, q, verb).value;
      assert Answers(entries[last], request, verb);
      SpecificityIsTotal(q, entries[best.value].key, request);
    }
  }

  /** The id the walk ends on, if any. */
  function Found(ix: Index, request: seq<string>, verb: HttpMethod): Option<RouteId> {
    match Search(ix, [], request, verb)
    case None => None
    case Some(key) => IdAt(ix, key, verb)
  }

  /** A key without parameters that equals the request is the most specific match there
      can be: whatever else is listed, the last route under it answers. */
  lemma ExactKeyAnswers(entries: seq<Entry>, request: seq<string>, verb: HttpMethod, i: nat)
    requires i < |entries| && entries[i].verb == verb && |entries[i].key| == |request|
    requires forall k :: 0 <= k < |request| ==> entries[i].key[k] == Exact(request[k])
    requires forall j :: i < j < |entries| && entries[j].verb == verb ==> entries[j].key != entries[i].key
    ensures Found(Built(entries), request, verb) == Some(entries[i].id)
  {
    hide Built, Found, LinearScan;
    IndexAgreesWithLinearScan(entries, request, verb);
    LinearScanFindsMostSpecific(entries, request, verb);
    assert Answers(entries[i], request, verb);
    var best := LinearScan(entries, request, verb).value;
    SpecificityIsFirstDifference(entries[best].key, entries[i].key);
    assert entries[best].key == entries[i].key;
  }

  /** With one route listed, a request is answered exactly when the method is the
      route's and each segment is a parameter or the same text. */
  lemma OneRouteAnswers(entry: Entry, request: seq<string>, verb: HttpMethod)
    ensures Found(Built([entry]), request, verb) ==
            if entry.verb == verb && |entry.key| == |request| &&
               forall k :: 0 <= k < |request| ==> entry.key[k] == Param || entry.key[k] == Exact(request[k])
            then Some(entry.id) else None
  {
    hide Built, Found;
    IndexAgreesWithLinearScan([entry], request, verb);
    LinearScanFindsMostSpecific([entry], request, verb);
    assert [entry][0] == entry;
    assert Answers(entry, request, verb) <==> LinearScan([entry], request, verb).Some?;
  }
}
