/** The C++ engine's operations on the same kind of tree. Its `driverIndex` entry {point, leaf} is the
    pair of entries in `driverMap` and `driverLeaves`; it never collapses a node, refuses a position
    outside the region before it touches anything, and searches with other pruning points. */
module CppQuadtree {
  import opened Geometry
  import opened Candidates
  import opened QuadTree

  method Insert(t: QuadTree, id: Id, lat: real, lng: real) returns (ok: bool)
    requires t.Indexed()
    modifies t`driverMap, t`driverLeaves, t`at, t`home, t`nodes, t.nodes
    ensures t.Indexed() && fresh(t.nodes - old(t.nodes)) && fresh(t.at.Values - old(t.at.Values))
    ensures ok == InBox(t.root.bounds, Pos(lat, lng))
    ensures t.Contents() == if ok then old(t.Contents())[id := Pos(lat, lng)] else old(t.Contents())
  {
    if !InBox(t.root.bounds, Pos(lat, lng)) {
      return false;
    }
    var _ := Remove(t, id);
    PutAfterRemove(old(t.Contents()), id, Pos(lat, lng));
    ok := t.AddNew(id, lat, lng);
  }

  method Remove(t: QuadTree, id: Id) returns (ok: bool)
    requires t.Indexed()
    modifies t`driverMap, t`driverLeaves, t`at, t`home, t.nodes`points
    ensures t.Indexed() && t.driverMap == old(t.driverMap) - {id}
    ensures ok == (id in old(t.Contents())) && t.Contents() == old(t.Contents()) - {id}
  {
    if id !in t.driverMap {
      return false;
    }
    t.TakeOut(id);
    return true;
  }

  method Update(t: QuadTree, id: Id, lat: real, lng: real) returns (ok: bool)
    requires t.Indexed()
    modifies t`driverMap, t`driverLeaves, t`at, t`home, t`nodes, t.nodes, t.Entry(id)
    ensures t.Indexed() && fresh(t.nodes - old(t.nodes)) && fresh(t.at.Values - old(t.at.Values))
    ensures ok == (id in old(t.Contents()) && InBox(t.root.bounds, Pos(lat, lng)))
    ensures t.Contents() == if ok then old(t.Contents())[id := Pos(lat, lng)] else old(t.Contents())
  {
    if id !in t.driverMap {
      return false;
    }
    if InBox(t.driverLeaves[id].bounds, Pos(lat, lng)) {
      assert t.Housed(id);
      t.InsideRegion(t.driverLeaves[id], Pos(lat, lng));
      t.MoveInPlace(id, lat, lng);
      return true;
    }
    if !InBox(t.root.bounds, Pos(lat, lng)) {
      return false;
    }
    ok := Relocate(t, id, lat, lng);
  }

  method Relocate(t: QuadTree, id: Id, lat: real, lng: real) returns (ok: bool)
    requires t.Indexed() && InBox(t.root.bounds, Pos(lat, lng))
    modifies t`driverMap, t`driverLeaves, t`at, t`home, t`nodes, t.nodes
    ensures t.Indexed() && fresh(t.nodes - old(t.nodes)) && fresh(t.at.Values - old(t.at.Values))
    ensures ok && t.Contents() == old(t.Contents())[id := Pos(lat, lng)]
  {
    var _ := Remove(t, id);
    PutAfterRemove(old(t.Contents()), id, Pos(lat, lng));
    ok := Insert(t, id, lat, lng);
  }

  // ---- Nearest neighbours ----

  /** The pruning test on a quadrant before it is queued. */
  predicate Promising(q: Query, r: seq<Candidate>, dist: real) {
    dist <= q.radius && (|r| < q.k || (r != [] && dist < r[|r| - 1].distance))
  }

  ghost function Queued(q: Query, r: seq<Candidate>, child: Node?): multiset<NodeCandidate> {
    if child == null then multiset{} else
    var dist := BoxDistance(q.metric, q.from, child.bounds);
    if Promising(q, r, dist) then multiset{NodeCandidate(child, dist)} else multiset{}
  }

  method Push(
      t: QuadTree, q: Query, pq: multiset<NodeCandidate>, child: Node, r: seq<Candidate>, ghost visited: set<Node>)
    returns (pq': multiset<NodeCandidate>)
    requires t.Frontier(q, pq, visited) && child in t.nodes && child !in visited
    requires child.parent != null && child.parent in visited && forall c | c in pq :: c.node != child
    ensures t.Frontier(q, pq', visited) && pq' == pq + Queued(q, r, child)
  {
    var dist := BoxDistance(q.metric, q.from, child.bounds);
    pq' := if Promising(q, r, dist) then pq + multiset{NodeCandidate(child, dist)} else pq;
  }

  method PushChildren(
      t: QuadTree, q: Query, pq: multiset<NodeCandidate>, node: Node, r: seq<Candidate>, ghost visited: set<Node>)
    returns (pq': multiset<NodeCandidate>)
    requires t.AllLinked() && node in t.nodes && node.isDivided && t.Frontier(q, pq, visited)
    requires node in visited && (forall n | n in visited :: n.parent != node) && forall c | c in pq ::
        c.node.parent != node
    ensures t.Frontier(q, pq', visited)
    ensures pq' == pq + Queued(q, r, node.nw) + Queued(q, r, node.ne) + Queued(q, r, node.sw) + Queued(q, r, node.se)
  {
    assert t.Linked(node);
    pq' := Push(t, q, pq, node.nw, r, visited);
    pq' := Push(t, q, pq', node.ne, r, visited);
    pq' := Push(t, q, pq', node.sw, r, visited);
    pq' := Push(t, q, pq', node.se, r, visited);
  }

  /** A quadrant is left out only if its drivers may be dismissed. */
  lemma Expand(
      t: QuadTree, q: Query, queue: multiset<NodeCandidate>, top: NodeCandidate, seen: set<Id>, r: seq<Candidate>)
    requires t.Indexed() && 0 < q.k && top in queue && top.node in t.nodes && top.node.isDivided
    requires Covered(t.Contents(), t.home, q, t.root.bounds, queue, seen, r)
    ensures
      var n := top.node;
      var queue' := queue - multiset{top} + Queued(q, r, n.nw) + Queued(q, r, n.ne) + Queued(q, r, n.sw) +
        Queued(q, r, n.se);
      Covered(t.Contents(), t.home, q, t.root.bounds, queue', seen, r)
  {
    var n := top.node;
    var queue' := queue - multiset{top} + Queued(q, r, n.nw) + Queued(q, r, n.ne) + Queued(q, r, n.sw) +
      Queued(q, r, n.se);
    forall id | InRadius(t.Contents(), q, id) && id !in seen
      ensures Dismissible(q, t.root.bounds, r, q.metric(q.from, t.Contents()[id])) || Waiting(queue', t.home[id])
    {
      if !Dismissible(q, t.root.bounds, r, q.metric(q.from, t.Contents()[id])) {
        var c :| c in queue && Above(c.node, t.home[id]);
        if c == top {
          c := QueuedQuadrant(t, q, n, id, r);
        }
        assert c in queue';
      }
    }
  }

  lemma QueuedQuadrant(t: QuadTree, q: Query, n: Node, id: Id, r: seq<Candidate>) returns (c: NodeCandidate)
    requires t.Indexed() && 0 < q.k && n in t.nodes && n.isDivided && InRadius(t.Contents(), q, id)
    requires Above(n, t.home[id])
    requires !Dismissible(q, t.root.bounds, r, q.metric(q.from, t.Contents()[id]))
    ensures Above(c.node, t.home[id])
    ensures c in Queued(q, r, n.nw) || c in Queued(q, r, n.ne) || c in Queued(q, r, n.sw) || c in Queued(q, r, n.se)
  {
    assert t.Housed(id);
    var below := t.BelowAQuadrant(n, t.home[id]);
    assert t.Linked(below);
    c := NodeCandidate(below, BoxDistance(q.metric, q.from, below.bounds));
    if !Promising(q, r, c.minDist) {
      t.BoxDismissed(q, below, id, r);
      assert false;
    }
    assert c in Queued(q, r, below);
  }

  /** Looks at the points of one node, of which a divided node has none. */
  method EvaluateNode(t: QuadTree, q: Query, node: Node, candidates: seq<Candidate>, ghost seen: set<Id>)
    returns (r: seq<Candidate>)
    requires t.Indexed() && node in t.nodes && 0 < q.k && |candidates| <= q.k
    requires BestOf(seen, t.Contents(), q, candidates) && seen !! t.StoredIn({node})
    ensures |r| <= q.k && BestOf(seen + t.StoredIn({node}), t.Contents(), q, r) && StaysBeaten(candidates, r, q.k)
  {
    t.PointsOfLeaf(node);
    t.IdsStored(node);
    r := candidates;
    for i := 0 to |node.points|
      invariant |r| <= q.k && BestOf(seen + IdsOf(node.points[..i]), t.Contents(), q, r)
      invariant StaysBeaten(candidates, r, q.k)
    {
      var pt := node.points[i];
      NextId(node.points, i, seen);
      r := CppConsider(t.Contents(), seen + IdsOf(node.points[..i]), q, r, pt.id, pt.lat, pt.lng);
    }
    assert node.points[..|node.points|] == node.points;
  }

  lemma {:induction false} HasNearest(pq: multiset<NodeCandidate>) returns (least: NodeCandidate)
    requires pq != multiset{}
    ensures least in pq && forall c | c in pq :: least.minDist <= c.minDist
    decreases |pq|
  {
    least :| least in pq;
    var first, rest := least, pq - multiset{least};
    if rest != multiset{} {
      var other := HasNearest(rest);
      if other.minDist < least.minDist {
        least := other;
      }
    }
    forall c | c in pq ensures least.minDist <= c.minDist {
      assert c == first || c in rest;
    }
  }

  /** One turn of the search: visits a nearest queued node, or stops if it cannot improve the answer. */
  method Turn(t: QuadTree, q: Query, pq: multiset<NodeCandidate>, ghost visited: set<Node>, ghost seen: set<Id>,
    r: seq<Candidate>)
    returns (stop: bool, pq': multiset<NodeCandidate>, ghost visited': set<Node>, ghost seen': set<Id>,
      r': seq<Candidate>)
    requires t.Indexed() && pq != multiset{} && t.Searching(q, pq, visited, seen, r)
    ensures !stop ==> |t.nodes - visited'| < |t.nodes - visited| && t.Searching(q, pq', visited', seen', r')
    ensures stop ==> NearlyKnn(t.Contents(), q, t.root.bounds, r')
  {
    ghost var least := HasNearest(pq);
    var current :| current in pq && forall c | c in pq :: current.minDist <= c.minDist;
    stop, pq', visited', seen', r' := false, pq - multiset{current}, visited + {current.node}, seen, r;
    if |r| == q.k && current.minDist >= r[|r| - 1].distance {
      t.AllPruned(q, pq, visited, seen, r, current.minDist);
      stop := true;
      return;
    }
    t.Shrinks(t.nodes, visited, current.node);
    if current.node.isDivided {
      pq', r' := VisitDivided(t, q, pq, current, visited, seen, r);
    } else {
      t.FrontierAfterPop(q, pq, visited, current);
      r' := EvaluateNode(t, q, current.node, r, seen);
      t.DropLeaf(q, pq, current, seen, r, r');
      seen' := seen + t.StoredIn({current.node});
    }
  }

  method VisitDivided(t: QuadTree, q: Query, pq: multiset<NodeCandidate>, current: NodeCandidate,
    ghost visited: set<Node>, ghost seen: set<Id>, r: seq<Candidate>)
    returns (pq': multiset<NodeCandidate>, r': seq<Candidate>)
    requires t.Indexed() && t.Searching(q, pq, visited, seen, r) && current in pq && current.node.isDivided
    ensures t.Searching(q, pq', visited + {current.node}, seen, r')
  {
    t.FrontierAfterPop(q, pq, visited, current);
    assert t.StoredIn({current.node}) == {} by {
      assert t.Placed(current.node);
      t.IdsStored(current.node);
    }
    assert seen + t.StoredIn({current.node}) == seen;
    r' := EvaluateNode(t, q, current.node, r, seen);
    MoreBeaten(t, q, pq, seen, r, r');
    Expand(t, q, pq, current, seen, r');
    pq' := PushChildren(t, q, pq - multiset{current}, current.node, r', visited + {current.node});
  }

  lemma MoreBeaten(
      t: QuadTree, q: Query, queue: multiset<NodeCandidate>, seen: set<Id>, r: seq<Candidate>, r': seq<Candidate>)
    requires t.Indexed() && Covered(t.Contents(), t.home, q, t.root.bounds, queue, seen, r) && StaysBeaten(r, r', q.k)
    ensures Covered(t.Contents(), t.home, q, t.root.bounds, queue, seen, r')
  {
    forall id | InRadius(t.Contents(), q, id) && id !in seen
      ensures Dismissible(q, t.root.bounds, r', q.metric(q.from, t.Contents()[id])) || Waiting(queue, t.home[id])
    {
      if Dismissible(q, t.root.bounds, r, q.metric(q.from, t.Contents()[id])) {
        StaysDismissible(q, t.root.bounds, r, r', q.metric(q.from, t.Contents()[id]));
      }
    }
  }

  method KNearestNeighbors(t: QuadTree, q: Query) returns (r: seq<Candidate>)
    requires t.Indexed()
    ensures q.k <= 0 || q.radius <= 0.0 ==> r == []
    ensures 0.0 < q.radius ==> NearlyKnn(t.Contents(), q, t.root.bounds, r)
    ensures 0.0 < q.radius && BoundsWithin(q.metric, q.from, t.root.bounds, 0.0) ==> IsKnn(t.Contents(), q, r)
  {
    if q.k <= 0 || q.radius <= 0.0 {
      return [];
    }
    r := BestFirst(t, q);
    if BoundsWithin(q.metric, q.from, t.root.bounds, 0.0) {
      NearlyKnnExact(t.Contents(), q, t.root.bounds, r);
    }
  }

  method BestFirst(t: QuadTree, q: Query) returns (r: seq<Candidate>)
    requires t.Indexed() && 0 < q.k
    ensures NearlyKnn(t.Contents(), q, t.root.bounds, r)
  {
    r := [];
    var first := NodeCandidate(t.root, BoxDistance(q.metric, q.from, t.root.bounds));
    var pq := multiset{first};
    t.StartFrontier(q);
    ghost var visited: set<Node>, seen: set<Id> := {}, {};
    if first.minDist > q.radius {
      pq := multiset{};
      t.SkipFar(q, multiset{first}, first, {}, {}, []);
      visited := {t.root};
    }
    var stop := false;
    while pq != multiset{} && !stop
      invariant !stop ==> t.Searching(q, pq, visited, seen, r)
      invariant stop ==> NearlyKnn(t.Contents(), q, t.root.bounds, r)
      decreases !stop, |t.nodes - visited|
    {
      stop, pq, visited, seen, r := Turn(t, q, pq, visited, seen, r);
    }
    if !stop {
      t.NothingQueued(q, visited, seen, r);
    }
  }

  // ---- The two engines ----

  /** Over the same drivers the two engines' answers differ at most in the order of ties. */
  lemma EnginesAgree(index: map<Id, Pos>, q: Query, ts: seq<Candidate>, cpp: seq<Candidate>)
    requires IsKnn(index, q, ts)
    requires if q.k <= 0 || q.radius <= 0.0 then cpp == [] else IsKnn(index, q, cpp)
    ensures Distances(ts) == Distances(cpp) <==>
              q.k <= 0 || 0.0 < q.radius || DriversInRadius(index, q) == {}
  {
    if q.k <= 0 {
    } else if 0.0 < q.radius {
      KnnUnique(index, q, ts, cpp);
    } else {
      KnnLength(index, q, ts);
      assert |Distances(ts)| == |ts|;
    }
  }
}
