/** The point-region quadtree: linked nodes with parent pointers and a cached id-to-leaf map. */
module QuadTree {
  import opened Geometry
  import opened Candidates
  import opened MinHeap

  /** One stored driver; the id map and the leaf that holds it share the object, so a fast-path
      update moves it in both. */
  class Point {
    const id: Id
    var lat: real
    var lng: real

    constructor (id: Id, lat: real, lng: real)
      ensures this.id == id && this.lat == lat && this.lng == lng
    {
      this.id, this.lat, this.lng := id, lat, lng;
    }

    function At(): Pos
      reads this
    {
      Pos(lat, lng)
    }
  }

  class Node {
    const bounds: Box
    const depth: nat
    const parent: Node?
    ghost const slot: Slot  // the quadrant of the parent this node covers
    var points: seq<Point>
    var isDivided: bool
    var nw: Node?
    var ne: Node?
    var sw: Node?
    var se: Node?

    constructor (bounds: Box, depth: nat, parent: Node?, ghost slot: Slot)
      ensures this.bounds == bounds && this.depth == depth && this.parent == parent && this.slot == slot
      ensures points == [] && !isDivided
      ensures nw == null && ne == null && sw == null && se == null
    {
      this.bounds, this.depth, this.parent, this.slot := bounds, depth, parent, slot;
      points, isDivided := [], false;
      nw, ne, sw, se := null, null, null, null;
    }

    function Child(s: Slot): Node?
      reads this`nw, this`ne, this`sw, this`se
    {
      match s
      case NW => nw
      case NE => ne
      case SW => sw
      case SE => se
    }

    method Subdivide()
      modifies this
      ensures isDivided && points == old(points)
      ensures fresh(nw) && fresh(ne) && fresh(sw) && fresh(se)
      ensures IsEmptyQuadrant(nw, NW) && IsEmptyQuadrant(ne, NE) && IsEmptyQuadrant(sw, SW) && IsEmptyQuadrant(se, SE)
    {
      var midLat, midLng := (bounds.minLat + bounds.maxLat) / 2.0, (bounds.minLng + bounds.maxLng) / 2.0;
      nw := new Node(Box(midLat, bounds.maxLat, bounds.minLng, midLng), depth + 1, this, NW);
      ne := new Node(Box(midLat, bounds.maxLat, midLng, bounds.maxLng), depth + 1, this, NE);
      sw := new Node(Box(bounds.minLat, midLat, bounds.minLng, midLng), depth + 1, this, SW);
      se := new Node(Box(bounds.minLat, midLat, midLng, bounds.maxLng), depth + 1, this, SE);
      isDivided := true;
    }

    /** Subdivides the node and hands over its points. */
    method Divide() returns (existing: seq<Point>)
      modifies this
      ensures isDivided && points == [] && existing == old(points)
      ensures IsEmptyQuadrant(nw, NW) && IsEmptyQuadrant(ne, NE) && IsEmptyQuadrant(sw, SW) && IsEmptyQuadrant(se, SE)
      ensures forall s: Slot :: IsEmptyQuadrant(Child(s), s)
      ensures fresh(nw) && fresh(ne) && fresh(sw) && fresh(se)
    {
      Subdivide();
      existing := points;
      points := [];
    }

    method Unite()
      requires nw != null && ne != null && sw != null && se != null
      modifies this
      ensures points == old(nw.points + ne.points + sw.points + se.points) && !isDivided && nw == null && ne == null
      ensures sw == null && se == null
    {
      points := nw.points + ne.points + sw.points + se.points;
      isDivided := false;
      nw, ne, sw, se := null, null, null, null;
    }

    ghost predicate IsEmptyQuadrant(c: Node?, s: Slot)
      reads c
    {
      && c != null
      && c.bounds == Quadrant(bounds, s) && c.depth == depth + 1 && c.parent == this && c.slot == s
      && c.points == [] && !c.isDivided
      && c.nw == null && c.ne == null && c.sw == null && c.se == null
    }
  }

  /** Parents, depths and bounds never change, so neither does which node lies above which. */
  ghost predicate Above(a: Node, n: Node)
    decreases n.depth
  {
    a == n || (n.parent != null && n.parent.depth < n.depth && Above(a, n.parent))
  }

  lemma {:induction false} AboveTransitive(a: Node, b: Node, c: Node)
    requires Above(a, b) && Above(b, c)
    ensures Above(a, c)
    decreases c.depth
  {
    if b != c {
      AboveTransitive(a, b, c.parent);
    }
  }

  lemma {:induction false} AboveIsShallower(a: Node, n: Node)
    requires Above(a, n) && a != n
    ensures a.depth < n.depth
    decreases n.depth
  {
    if a != n.parent {
      AboveIsShallower(a, n.parent);
    }
  }

  /** The drivers stored at or below a node, given where each driver is stored. */
  ghost function Under(home: map<Id, Node>, n: Node): set<Id> {
    set id | id in home && Above(n, home[id])
  }

  /** No driver has moved except downwards. */
  ghost predicate Lowered(h0: map<Id, Node>, h1: map<Id, Node>) {
    forall id {:trigger h1[id]} | id in h0 && id in h1 :: Above(h0[id], h1[id])
  }

  lemma UnderGrows(h0: map<Id, Node>, h1: map<Id, Node>, n: Node)
    requires Lowered(h0, h1) && h0.Keys <= h1.Keys
    ensures Under(h0, n) <= Under(h1, n) && |Under(h0, n)| <= |Under(h1, n)|
  {
    forall id | id in Under(h0, n) ensures id in Under(h1, n) {
      AboveTransitive(n, h0[id], h1[id]);
    }
    SubsetCardinality(Under(h0, n), Under(h1, n));
  }

  lemma SubsetCardinality<T>(a: set<T>, b: set<T>)
    requires a <= b
    ensures |a| <= |b|
  {
    assert b == a + (b - a);
  }

  ghost function IdsOf(points: seq<Point>): set<Id> {
    set p | p in points :: p.id
  }

  /** Putting back the points of a list one by one restores what was taken out. */
  lemma PutBack(at: map<Id, Point>, points: seq<Point>, i: nat)
    requires i < |points| && IdsOf(points) <= at.Keys
    requires forall j, k | 0 <= j < k < |points| :: points[j].id != points[k].id
    requires forall p | p in points :: at[p.id] == p
    ensures points[i].id !in at - IdsOf(points[i..])
    ensures (at - IdsOf(points[i..]))[points[i].id := points[i]] == at - IdsOf(points[i + 1..])
  {
    assert points[i..] == [points[i]] + points[i + 1..];
    assert IdsOf(points[i..]) == IdsOf(points[i + 1..]) + {points[i].id};
    assert points[i].id !in IdsOf(points[i + 1..]);
    assert points[i] in points;
  }

  lemma {:induction false} IdsOfCardinality(points: seq<Point>)
    requires forall i, j | 0 <= i < j < |points| :: points[i].id != points[j].id
    ensures |IdsOf(points)| == |points|
  {
    if points != [] {
      var front, last := points[..|points| - 1], points[|points| - 1];
      IdsOfCardinality(front);
      assert points == front + [last];
      assert IdsOf(points) == IdsOf(front) + {last.id};
    }
  }

  /** What the ghost state and the leaf cache of a tree say at one moment. */
  datatype View = View(nodes: set<Node>, divided: set<Node>, home: map<Id, Node>, leaves: map<Id, Node>) {

    ghost predicate Overflowing(capacity: nat, ns: set<Node>) {
      forall n {:trigger n in ns} | n in ns :: capacity < |Under(home, n)|
    }
  }

  /** What moving drivers down keeps: nothing leaves a subtree, no cached leaf goes stale, and a node
      divides only if its subtree overflows. */
  ghost predicate Descended(capacity: nat, v0: View, v1: View, exempt: set<Node>) {
    && v0.nodes <= v1.nodes && v0.divided <= v1.divided
    && Lowered(v0.home, v1.home)
    && (forall id {:trigger v1.home[id]} | id in v0.home && id in v1.home && id in v0.leaves
      && v0.leaves[id] == v0.home[id] ::
          id in v1.leaves && v1.leaves[id] == v1.home[id])
    && v0.leaves.Keys <= v1.leaves.Keys <= v0.leaves.Keys + v0.home.Keys
    && v1.Overflowing(capacity, v1.divided - v0.divided - exempt)
  }

  /** Dividing a leaf and taking its drivers out moves nothing else. */
  lemma DescendedSplit(capacity: nat, v0: View, v1: View, node: Node, ids: set<Id>)
    requires v0.nodes <= v1.nodes && v1.divided == v0.divided + {node} && v1.home == v0.home - ids
    requires v1.leaves == v0.leaves
    ensures Descended(capacity, v0, v1, {node})
  {
  }

  /** One driver that was taken out of `node` goes back in below it, and its cached leaf is set. */
  lemma DescendedFurther(capacity: nat, v0: View, v1: View, v2: View, v3: View, node: Node, id: Id)
    requires Descended(capacity, v0, v1, {node}) && Descended(capacity, v1, v2, {})
    requires id !in v1.home && v2.home.Keys == v1.home.Keys + {id} && id in v0.home && v1.home.Keys <= v0.home.Keys
    requires Above(v0.home[id], v2.home[id])
    requires v3 == v2.(leaves := v2.leaves[id := v2.home[id]])
    ensures Descended(capacity, v0, v3, {node})
  {
    forall d | d in v0.home && d in v3.home ensures Above(v0.home[d], v3.home[d]) {
      if d != id {
        AboveTransitive(v0.home[d], v1.home[d], v2.home[d]);
      }
    }
    forall d | d in v0.home && d in v3.home && d in v0.leaves && v0.leaves[d] == v0.home[d]
      ensures d in v3.leaves && v3.leaves[d] == v3.home[d]
    {
      assert d != id ==> v1.home[d] == v1.leaves[d] && v2.home[d] == v2.leaves[d];
    }
    forall n | n in v3.divided - v0.divided - {node} ensures capacity < |Under(v3.home, n)| {
      if n in v1.divided {
        assert n in v1.divided - v0.divided - {node};
        UnderGrows(v1.home, v2.home, n);
      } else {
        assert n in v2.divided - v1.divided - {};
      }
    }
  }

  /** Once the drivers of a divided leaf are back, the driver that made it divide makes it overflow. */
  lemma DescendedPastSplit(capacity: nat, v0: View, v1: View, v2: View, node: Node, id: Id)
    requires Descended(capacity, v0, v1, {node}) && Descended(capacity, v1, v2, {})
    requires id !in v1.home && v2.home.Keys == v1.home.Keys + {id} && v1.home.Keys == v0.home.Keys
    requires capacity <= |Under(v1.home, node)| && Above(node, v2.home[id])
    ensures Descended(capacity, v0, v2, {})
  {
    forall d | d in v0.home && d in v2.home ensures Above(v0.home[d], v2.home[d]) {
      AboveTransitive(v0.home[d], v1.home[d], v2.home[d]);
    }
    forall d | d in v0.home && d in v2.home && d in v0.leaves && v0.leaves[d] == v0.home[d]
      ensures d in v2.leaves && v2.leaves[d] == v2.home[d]
    {
      assert v1.home[d] == v1.leaves[d];
    }
    UnderGrows(v1.home, v2.home, node);
    SubsetCardinality(Under(v1.home, node) + {id}, Under(v2.home, node));
    forall n | n in v2.divided - v0.divided - {} ensures capacity < |Under(v2.home, n)| {
      if n in v1.divided && n != node {
        assert n in v1.divided - v0.divided - {node};
        UnderGrows(v1.home, v2.home, n);
      } else if n != node {
        assert n in v2.divided - v1.divided - {};
      }
    }
  }

  lemma PutAfterRemove<V>(m: map<Id, V>, id: Id, v: V)
    ensures (m - {id})[id := v] == m[id := v] && (m - {id}) - {id} == m - {id}
  {
  }

  class QuadTree {
    const root: Node
    const capacity: nat
    const maxDepth: nat
    var driverMap: map<Id, Point>
    var driverLeaves: map<Id, Node>
    ghost var nodes: set<Node>      // the nodes reachable from the root
    ghost var at: map<Id, Point>    // what the leaves hold ...
    ghost var home: map<Id, Node>   // ... and where

    // ---- What holds of every node ----

    /** Parents and children name each other, and quadrants are where the parent puts them. */
    ghost predicate Linked(n: Node)
      requires n in nodes
      reads this`nodes, nodes`isDivided, nodes`nw, nodes`ne, nodes`sw, nodes`se
    {
      && n.depth <= maxDepth
      && (n.parent == null <==> n == root)
      && (n.parent != null ==>
            && n.parent in nodes && n.parent.isDivided && n.parent.depth + 1 == n.depth
            && n.parent.Child(n.slot) == n && n.bounds == Quadrant(n.parent.bounds, n.slot))
      && (n.isDivided ==>
            IsChild(n, n.nw, NW) && IsChild(n, n.ne, NE) && IsChild(n, n.sw, SW) && IsChild(n, n.se, SE))
    }

    ghost predicate IsChild(n: Node, c: Node?, s: Slot)
      reads this`nodes
    {
      c != null && c in nodes && c.parent == n && c.slot == s
    }

    ghost predicate AllLinked()
      reads this`nodes, nodes`isDivided, nodes`nw, nodes`ne, nodes`sw, nodes`se
    {
      root in nodes && root.depth == 0 && forall n {:trigger Linked(n)} | n in nodes :: Linked(n)
    }

    /** The points of a leaf are the drivers whose home it is. */
    ghost predicate Placed(n: Node)
      reads this`at, this`home, n`points, n`isDivided
    {
      && (n.isDivided ==> n.points == [])
      && (forall p | p in n.points :: p.id in at && at[p.id] == p && p.id in home && home[p.id] == n)
      && (forall i, j | 0 <= i < j < |n.points| :: n.points[i] != n.points[j])
      && (n.depth < maxDepth ==> |n.points| <= capacity)
    }

    ghost predicate AllPlaced()
      reads this`nodes, this`at, this`home, nodes`points, nodes`isDivided
    {
      forall n {:trigger Placed(n)} | n in nodes :: Placed(n)
    }

    ghost predicate Housed(id: Id)
      requires id in home && id in at
      reads this`nodes, this`at, this`home, nodes`points, nodes`isDivided, at.Values
    {
      && at[id] in at.Values && home[id] in nodes && !home[id].isDivided
      && at[id].id == id && at[id] in home[id].points
      && InBox(home[id].bounds, at[id].At())
    }

    ghost predicate AllHoused()
      reads this`nodes, this`at, this`home, nodes`points, nodes`isDivided, at.Values
    {
      at.Keys == home.Keys && forall id {:trigger Housed(id)} | id in home :: Housed(id)
    }

    ghost function DividedNodes(): set<Node>
      reads this`nodes, nodes`isDivided
    {
      set n | n in nodes && n.isDivided
    }

    ghost function Look(): View
      reads this`nodes, this`home, this`driverLeaves, nodes`isDivided
    {
      View(nodes, DividedNodes(), home, driverLeaves)
    }

    /** The structure every method of the tree relies on, with drivers possibly on their way down. */
    ghost predicate Structured()
      reads this, nodes, at.Values
    {
      AllLinked() && AllPlaced() && AllHoused()
    }

    constructor (bounds: Box, capacity: nat := 8, maxDepth: nat := 7)
      ensures Valid() && Contents() == map[] && fresh(nodes) && at == map[]
      ensures root.bounds == bounds && this.capacity == capacity && this.maxDepth == maxDepth
    {
      var top := new Node(bounds, 0, null, NW);
      this.root, this.capacity, this.maxDepth := top, capacity, maxDepth;
      driverMap, driverLeaves := map[], map[];
      nodes, at, home := {top}, map[], map[];
    }

    // ---- Insertion ----

    /** Keeps a driver that has come down to a leaf in that leaf. */
    method Settle(leaf: Node, point: Point)
      requires Structured() && leaf in nodes && !leaf.isDivided
      requires point.id !in home && InBox(leaf.bounds, point.At())
      requires |leaf.points| < capacity || leaf.depth >= maxDepth
      modifies this`at, this`home, leaf`points
      ensures Structured()
      ensures at == old(at)[point.id := point] && home == old(home)[point.id := leaf]
    {
      leaf.points := leaf.points + [point];
      at, home := at[point.id := point], home[point.id := leaf];
      assert AllPlaced() by {
        forall n | n in nodes ensures Placed(n) {
          assert old(Placed(n));
        }
      }
      assert AllHoused() by {
        forall id | id in home ensures Housed(id) {
          assert id != point.id ==> old(Housed(id));
        }
      }
    }

    /** Divides a leaf; the drivers it held are in no leaf until they are inserted below. */
    method Split(node: Node) returns (existing: seq<Point>)
      requires Structured() && node in nodes && !node.isDivided && node.depth < maxDepth
      modifies this`nodes, this`at, this`home, node
      ensures Structured() && node.isDivided && existing == old(node.points)
      ensures nodes == old(nodes) + {node.nw, node.ne, node.sw, node.se} && fresh(nodes - old(nodes))
      ensures forall n | n in nodes && n !in old(nodes) :: !n.isDivided
      ensures at == old(at) - IdsOf(existing) && home == old(home) - IdsOf(existing)
    {
      assert Linked(node) && Placed(node);
      existing := node.Divide();
      nodes := nodes + {node.nw, node.ne, node.sw, node.se};
      at, home := at - IdsOf(existing), home - IdsOf(existing);
      SplitLinked(node);
      SplitPlaced(node);
      SplitHoused(node);
    }

    twostate lemma SplitLinked(node: Node)
      requires old(AllLinked()) && node in old(nodes) && node.isDivided && node.depth < maxDepth && !old(node.isDivided)
      requires forall s: Slot :: node.IsEmptyQuadrant(node.Child(s), s)
      requires nodes == old(nodes) + {node.nw, node.ne, node.sw, node.se}
      requires forall n | n in old(nodes) && n != node ::
                 n.isDivided == old(n.isDivided) && n.nw == old(n.nw) && n.ne == old(n.ne) && n.sw == old(n.sw)
                 && n.se == old(n.se)
      ensures AllLinked()
    {
      assert old(Linked(node));
      assert node.Child(NW) == node.nw && node.Child(NE) == node.ne;
      assert node.Child(SW) == node.sw && node.Child(SE) == node.se;
      forall n | n in nodes ensures Linked(n) {
        assert n in old(nodes) ==> old(Linked(n));
      }
    }

    twostate lemma SplitPlaced(node: Node)
      requires old(AllPlaced()) && node in old(nodes) && node.points == []
      requires node.nw != null && node.ne != null && node.sw != null && node.se != null
      requires nodes == old(nodes) + {node.nw, node.ne, node.sw, node.se}
      requires forall n | n in nodes && n !in old(nodes) :: n.points == []
      requires at == old(at) - IdsOf(old(node.points)) && home == old(home) - IdsOf(old(node.points))
      requires forall n | n in old(nodes) && n != node :: n.isDivided == old(n.isDivided) && n.points == old(n.points)
      ensures AllPlaced()
    {
      assert old(Placed(node));
      assert forall id | id in IdsOf(old(node.points)) :: old(home)[id] == node;
      forall n | n in nodes ensures Placed(n) {
        assert n in old(nodes) ==> old(Placed(n));
      }
    }

    twostate lemma SplitHoused(node: Node)
      requires old(AllHoused()) && node in old(nodes) && old(nodes) <= nodes
      requires at == old(at) - IdsOf(old(node.points)) && home == old(home) - IdsOf(old(node.points))
      requires forall id | id in at :: at[id].lat == old(at[id].lat) && at[id].lng == old(at[id].lng)
      requires forall n | n in old(nodes) && n != node :: n.isDivided == old(n.isDivided) && n.points == old(n.points)
      ensures AllHoused()
    {
      forall id | id in home ensures Housed(id) {
        assert old(Housed(id));
      }
    }

    /** The points of a leaf name different drivers, and lie inside it. */
    lemma PointsOfLeaf(n: Node)
      requires AllPlaced() && AllHoused() && n in nodes
      ensures forall p | p in n.points :: p.id in home && home[p.id] == n && at[p.id] == p && InBox(n.bounds, p.At())
      ensures forall i, j | 0 <= i < j < |n.points| :: n.points[i].id != n.points[j].id
    {
      assert Placed(n);
      forall p | p in n.points ensures InBox(n.bounds, p.At()) {
        assert Housed(p.id);
      }
    }

    method InsertNode(node: Node, point: Point) returns (leaf: Node?)
      requires Structured() && node in nodes && point.id !in home
      modifies this`driverLeaves, this`nodes, this`at, this`home, nodes
      ensures leaf == null <==> !InBox(node.bounds, point.At())
      ensures leaf == null ==> unchanged(this) && unchanged(nodes)
      ensures leaf != null ==> Structured() && fresh(nodes - old(nodes)) && Descended(capacity, old(Look()), Look(), {})
      ensures leaf != null ==> at == old(at)[point.id := point] && home[point.id] == leaf && Above(node, leaf)
      decreases maxDepth - node.depth, 3
    {
      assert Linked(node);
      if !InBox(node.bounds, point.At()) {
        return null;
      }
      if !node.isDivided && (|node.points| < capacity || node.depth >= maxDepth) {
        Settle(node, point);
        return node;
      }
      if node.isDivided {
        leaf := InsertChild(node, point);
      } else {
        Redistribute(node);
        ghost var view := Look();
        leaf := InsertChild(node, point);
        DescendedPastSplit(capacity, old(Look()), view, Look(), node, point.id);
      }
    }

    method Redistribute(node: Node)
      requires Structured() && node in nodes && !node.isDivided && node.depth < maxDepth
      modifies this`driverLeaves, this`nodes, this`at, this`home, nodes
      ensures Structured() && fresh(nodes - old(nodes)) && Descended(capacity, old(Look()), Look(), {node})
      ensures node.isDivided && at == old(at) && home.Keys == old(home.Keys)
      ensures old(|node.points|) <= |Under(home, node)|
      decreases maxDepth - node.depth, 2, 1
    {
      ghost var was, points := Look(), at;
      PointsOfLeaf(node);
      IdsOfCardinality(node.points);
      var existing := Split(node);
      assert DividedNodes() == was.divided + {node};
      DescendedSplit(capacity, was, Look(), node, IdsOf(existing));
      assert existing[0..] == existing;
      ReinsertAll(node, existing, was, points);
      assert IdsOf(existing) <= Under(home, node);
      SubsetCardinality(IdsOf(existing), Under(home, node));
    }

    method ReinsertAll(node: Node, existing: seq<Point>, ghost v0: View, ghost points: map<Id, Point>)
      requires Structured() && node in nodes && node.isDivided && Descended(capacity, v0, Look(), {node})
      requires at == points - IdsOf(existing) && points.Keys == v0.home.Keys && IdsOf(existing) <= points.Keys
      requires forall p | p in existing :: InBox(node.bounds, p.At()) && points[p.id] == p && v0.home[p.id] == node
      requires forall i, j | 0 <= i < j < |existing| :: existing[i].id != existing[j].id
      modifies this`driverLeaves, this`nodes, this`at, this`home, nodes
      ensures Structured() && fresh(nodes - old(nodes)) && node.isDivided
      ensures Descended(capacity, v0, Look(), {node}) && at == points
      decreases maxDepth - node.depth, 2, 0
    {
      assert existing[0..] == existing;
      for i := 0 to |existing|
        invariant Structured() && fresh(nodes - old(nodes)) && node in nodes && node.isDivided
        invariant Descended(capacity, v0, Look(), {node})
        invariant at == points - IdsOf(existing[i..])
      {
        PutBack(points, existing, i);
        Reinsert(node, existing[i], v0);
      }
    }

    method Reinsert(node: Node, point: Point, ghost v0: View)
      requires Structured() && node in nodes && node.isDivided && point.id !in home
      requires InBox(node.bounds, point.At())
      requires Descended(capacity, v0, Look(), {node}) && home.Keys <= v0.home.Keys
      requires point.id in v0.home && v0.home[point.id] == node
      modifies this`driverLeaves, this`nodes, this`at, this`home, nodes
      ensures Structured() && fresh(nodes - old(nodes)) && node in nodes && node.isDivided
      ensures Descended(capacity, v0, Look(), {node})
      ensures at == old(at)[point.id := point]
      decreases maxDepth - node.depth, 1
    {
      var targetLeaf := InsertChild(node, point);
      assert node in DividedNodes();
      ghost var view := Look();
      if targetLeaf != null {
        driverLeaves := driverLeaves[point.id := targetLeaf];
      }
      DescendedFurther(capacity, v0, old(Look()), view, Look(), node, point.id);
    }

    method InsertChild(node: Node, point: Point) returns (leaf: Node?)
      requires Structured() && node in nodes && node.isDivided && point.id !in home
      requires InBox(node.bounds, point.At())
      modifies this`driverLeaves, this`nodes, this`at, this`home, nodes
      ensures leaf != null && Structured() && fresh(nodes - old(nodes)) && Descended(capacity, old(Look()), Look(), {})
      ensures at == old(at)[point.id := point] && home[point.id] == leaf && Above(node, leaf)
      ensures var c := old(node.Child(SlotOf(node.bounds, point.At()))); c != null && Above(c, leaf)
      decreases maxDepth - node.depth, 0
    {
      assert Linked(node);
      var midLat := (node.bounds.minLat + node.bounds.maxLat) / 2.0;
      var midLng := (node.bounds.minLng + node.bounds.maxLng) / 2.0;
      var targetChild: Node;
      if point.lat >= midLat {
        targetChild := if point.lng < midLng then node.nw else node.ne;
      } else {
        targetChild := if point.lng < midLng then node.sw else node.se;
      }
      assert Linked(targetChild);
      leaf := InsertNode(targetChild, point);
      AboveTransitive(node, targetChild, leaf);
    }

    // ---- The index as a map from drivers to positions ----

    /** The caches say where the drivers are: what both engines keep between calls. */
    ghost predicate Indexed()
      reads this, nodes, at.Values
    {
      Structured() && driverMap == at && driverLeaves == home
    }

    /** No divided node could be one leaf. */
    ghost predicate Canonical()
      reads this`nodes, this`home, this`driverLeaves, nodes`isDivided
    {
      Look().Overflowing(capacity, DividedNodes())
    }

    ghost predicate Valid()
      reads this, nodes, at.Values
    {
      Indexed() && Canonical()
    }

    ghost function Contents(): map<Id, Pos>
      reads this, driverMap.Values
    {
      map id | id in driverMap :: driverMap[id].At()
    }

    /** The point of a driver, if it has one. */
    ghost function Entry(id: Id): set<Point>
      reads this`driverMap
    {
      if id in driverMap then {driverMap[id]} else {}
    }

    /** Takes a driver out of its leaf and out of the caches. */
    method TakeOut(id: Id)
      requires Indexed() && id in driverLeaves
      modifies this`driverMap, this`driverLeaves, this`at, this`home, nodes`points
      ensures Indexed() && home == old(home) - {id} && at == old(at) - {id}
    {
      assert Housed(id) && Placed(driverLeaves[id]);
      var leaf := driverLeaves[id];
      DropPoint(leaf, id);
      driverMap, driverLeaves := driverMap - {id}, driverLeaves - {id};
      at, home := at - {id}, home - {id};
      assert AllPlaced() by {
        forall n | n in nodes ensures Placed(n) {
          assert old(Placed(n));
        }
      }
      assert AllHoused() by {
        forall d | d in home ensures Housed(d) {
          assert old(Housed(d)) && old(Placed(leaf));
        }
      }
    }

    /** Removes the point of a driver from the leaf that holds it. */
    method DropPoint(leaf: Node, id: Id)
      requires id in at && at[id].id == id && at[id] in leaf.points
      requires forall p | p in leaf.points :: p.id in at && at[p.id] == p
      requires forall i, j | 0 <= i < j < |leaf.points| :: leaf.points[i] != leaf.points[j]
      modifies leaf`points
      ensures forall p :: p in leaf.points <==> p in old(leaf.points) && p != at[id]
      ensures forall i, j | 0 <= i < j < |leaf.points| :: leaf.points[i] != leaf.points[j]
      ensures |leaf.points| == |old(leaf.points)| - 1
    {
      var idx := 0;
      while leaf.points[idx].id != id
        invariant 0 <= idx < |leaf.points|
        invariant forall j | 0 <= j < idx :: leaf.points[j].id != id
        decreases |leaf.points| - idx
      {
        assert at[id] in leaf.points[idx + 1..];
        idx := idx + 1;
      }
      leaf.points := leaf.points[..idx] + leaf.points[idx + 1..];
    }

    ghost predicate Collapsible(node: Node)
      requires node in nodes && Structured()
      reads this, nodes, at.Values
    {
      assert Linked(node);
      && node.isDivided && !node.nw.isDivided && !node.ne.isDivided && !node.sw.isDivided && !node.se.isDivided
      && |Gathered(node)| <= capacity
    }

    ghost function Gathered(node: Node): seq<Point>
      requires node in nodes && Structured() && node.isDivided
      reads this, nodes, at.Values
    {
      assert Linked(node);
      node.nw.points + node.ne.points + node.sw.points + node.se.points
    }

    /** The points in the four quadrants of a node are different drivers under that node. */
    lemma GatheredPoints(node: Node)
      requires Structured() && node in nodes && node.isDivided
      ensures forall p | p in Gathered(node) ::
                p.id in home && home[p.id] in nodes && home[p.id].parent == node && at[p.id] == p
                  && InBox(node.bounds, p.At())
      ensures forall i, j | 0 <= i < j < |Gathered(node)| :: Gathered(node)[i] != Gathered(node)[j]
      ensures IdsOf(Gathered(node)) <= Under(home, node) && |IdsOf(Gathered(node))| == |Gathered(node)|
    {
      assert Linked(node) && Linked(node.nw) && Linked(node.ne) && Linked(node.sw) && Linked(node.se);
      PointsOfLeaf(node.nw);
      PointsOfLeaf(node.ne);
      PointsOfLeaf(node.sw);
      PointsOfLeaf(node.se);
      forall p | p in Gathered(node)
        ensures p.id in home && home[p.id] in nodes && home[p.id].parent == node && at[p.id] == p
        ensures InBox(node.bounds, p.At())
        ensures Above(node, home[p.id])
      {
        QuadrantInside(node.bounds, home[p.id].slot, p.At());
      }
      forall i, j | 0 <= i < j < |Gathered(node)| ensures Gathered(node)[i].id != Gathered(node)[j].id {
        var a, b, c := |node.nw.points|, |node.nw.points + node.ne.points|,
          |node.nw.points + node.ne.points + node.sw.points|;
        assert home[Gathered(node)[i].id] ==
          if i < a then node.nw else if i < b then node.ne else if i < c then node.sw else node.se;
        assert home[Gathered(node)[j].id] ==
          if j < a then node.nw else if j < b then node.ne else if j < c then node.sw else node.se;
      }
      IdsOfCardinality(Gathered(node));
    }

    /** The quadrants of a collapsible node are leaves, and what they store has been gathered. */
    lemma QuadrantsGathered(node: Node)
      requires Structured() && node in nodes && Collapsible(node)
      ensures forall n | n in nodes && n.parent == node :: !n.isDivided
      ensures forall id | id in home && home[id].parent == node ::
          at[id] in Gathered(node) && InBox(node.bounds, at[id].At())
      ensures forall id :: id in IdsOf(Gathered(node)) <==> id in home && home[id].parent == node
    {
      GatheredPoints(node);
      forall n | n in nodes && n.parent == node ensures !n.isDivided {
        assert Linked(n);
      }
      forall id | id in home && home[id].parent == node ensures at[id] in Gathered(node) && at[id].id == id {
        assert Housed(id) && Linked(home[id]);
      }
    }

    method Recache(points: seq<Point>, node: Node)
      modifies this`driverLeaves
      ensures driverLeaves == old(driverLeaves) + map id | id in IdsOf(points) :: node
    {
      for i := 0 to |points|
        invariant driverLeaves == old(driverLeaves) + map id | id in IdsOf(points[..i]) :: node
      {
        assert points[..i + 1] == points[..i] + [points[i]];
        driverLeaves := driverLeaves[points[i].id := node];
      }
      assert points[..|points|] == points;
    }

    /** Turns four leaves back into the one they were divided from. */
    method Merge(node: Node) returns (allPoints: seq<Point>)
      requires Structured() && node in nodes && Collapsible(node)
      modifies this`nodes, this`home, node
      ensures Structured() && !node.isDivided
      ensures allPoints == old(Gathered(node))
      ensures nodes == set n | n in old(nodes) && n.parent != node
      ensures home == map id | id in old(home) :: if old(home)[id].parent == node then node else old(home)[id]
    {
      GatheredPoints(node);
      QuadrantsGathered(node);
      assert Linked(node);
      node.Unite();
      allPoints := node.points;
      nodes := set n | n in nodes && n.parent != node;
      home := map id | id in home :: if home[id].parent == node then node else home[id];
      MergedLinked(node);
      MergedPlaced(node);
      MergedHoused(node);
    }

    // Each of these speaks of the one part of the structure it re-establishes.

    twostate lemma MergedLinked(node: Node)
      requires old(AllLinked()) && node in old(nodes) && old(node.isDivided)
      requires !node.isDivided && nodes == (set n | n in old(nodes) && n.parent != node)
      requires forall n | n in old(nodes) && n.parent == node :: !old(n.isDivided)
      requires forall n | n in nodes && n != node ::
                 n.isDivided == old(n.isDivided) && n.nw == old(n.nw) && n.ne == old(n.ne) && n.sw == old(n.sw)
                   && n.se == old(n.se)
      ensures AllLinked()
    {
      assert old(Linked(node)) && old(Linked(root));
      forall n | n in nodes ensures Linked(n) {
        assert old(Linked(n));
      }
    }

    twostate lemma MergedPlaced(node: Node)
      requires old(AllPlaced()) && node in old(nodes)
      requires !node.isDivided && nodes == (set n | n in old(nodes) && n.parent != node)
      requires home == (map id | id in old(home) :: if old(home)[id].parent == node then node else old(home)[id])
      requires at == old(at) && |node.points| <= capacity && node.parent != node
      requires forall p | p in node.points ::
          p.id in at && at[p.id] == p && p.id in old(home) && old(home)[p.id].parent == node
      requires forall i, j | 0 <= i < j < |node.points| :: node.points[i] != node.points[j]
      requires forall n | n in nodes && n != node :: n.points == old(n.points) && n.isDivided == old(n.isDivided)
      ensures AllPlaced()
    {
      forall n | n in nodes ensures Placed(n) {
        assert old(Placed(n));
      }
    }

    twostate lemma MergedHoused(node: Node)
      requires old(AllHoused()) && node in old(nodes) && old(node.isDivided)
      requires !node.isDivided && nodes == (set n | n in old(nodes) && n.parent != node)
      requires home == (map id | id in old(home) :: if old(home)[id].parent == node then node else old(home)[id])
      requires at == old(at) && node.parent != node && forall id | id in at ::
          at[id].lat == old(at[id].lat) && at[id].lng == old(at[id].lng)
      requires forall id | id in old(home) && old(home)[id].parent == node ::
          at[id] in node.points && InBox(node.bounds, at[id].At())
      requires forall n | n in nodes && n != node :: n.points == old(n.points) && n.isDivided == old(n.isDivided)
      ensures AllHoused()
    {
      forall id | id in home ensures Housed(id) {
        assert old(Housed(id));
      }
    }

    method Collapse(node: Node)
      requires Indexed() && node in nodes && Collapsible(node)
      modifies this`driverLeaves, this`nodes, this`home, node
      ensures Indexed() && !node.isDivided
      ensures nodes == set n | n in old(nodes) && n.parent != node
      ensures home == map id | id in old(home) :: if old(home)[id].parent == node then node else old(home)[id]
    {
      QuadrantsGathered(node);
      RecacheIsHome(home, IdsOf(Gathered(node)), node);
      var allPoints := Merge(node);
      Recache(allPoints, node);
    }

    lemma RecacheIsHome(h: map<Id, Node>, ids: set<Id>, node: Node)
      requires forall id :: id in ids <==> id in h && h[id].parent == node
      ensures h + (map id | id in ids :: node) == map id | id in h :: if h[id].parent == node then node else h[id]
    {
    }

    /** Every divided node that holds too little lies on the way up from `from`. */
    ghost predicate ShortOnlyAbove(from: Node?)
      reads this`nodes, this`home, nodes`isDivided
    {
      forall n {:trigger Under(home, n)} | n in nodes && n.isDivided && |Under(home, n)| <= capacity ::
        from != null && Above(n, from)
    }

    /** A node that holds enough, or has a divided quadrant, leaves nothing short above it. */
    lemma NotShort(node: Node)
      requires Structured() && node in nodes && ShortOnlyAbove(node)
      requires node.isDivided ==> !Collapsible(node)
      ensures node.isDivided ==> Canonical()
    {
      if node.isDivided {
        assert Linked(node);
        GatheredPoints(node);
        SubsetCardinality(IdsOf(Gathered(node)), Under(home, node));
        forall c | c in nodes && c.isDivided && c.parent == node
          ensures |Under(home, c)| <= |Under(home, node)| && capacity < |Under(home, c)|
        {
          assert Linked(c);
          if Above(c, node) {
            AboveIsShallower(c, node);
          }
          UnderParent(c);
        }
        assert capacity < |Under(home, node)|;
        forall n | n in DividedNodes() ensures capacity < |Under(home, n)| {
          if |Under(home, n)| <= capacity {
            UnderAncestor(n, node);
          }
        }
      }
    }

    lemma UnderAncestor(a: Node, n: Node)
      requires Above(a, n)
      ensures |Under(home, n)| <= |Under(home, a)|
    {
      forall id | id in Under(home, n) ensures id in Under(home, a) {
        AboveTransitive(a, n, home[id]);
      }
      SubsetCardinality(Under(home, n), Under(home, a));
    }

    lemma UnderParent(n: Node)
      requires n.parent != null && n.parent.depth < n.depth
      ensures |Under(home, n)| <= |Under(home, n.parent)|
    {
      UnderAncestor(n.parent, n);
    }

    /** Collapsing leaves the number of drivers under every remaining node as it was. */
    lemma SameUnder(h0: map<Id, Node>, h1: map<Id, Node>, node: Node, n: Node)
      requires h1 == map id | id in h0 :: if h0[id].parent == node then node else h0[id]
      requires forall id | id in h0 && h0[id].parent == node :: node.depth < h0[id].depth
      requires n.parent != node
      ensures Under(h1, n) == Under(h0, n)
    {
    }

    /** Collapsing a node leaves only nodes above it too short. */
    method CollapseShort(node: Node)
      requires Indexed() && node in nodes && Collapsible(node) && ShortOnlyAbove(node)
      modifies this`driverLeaves, this`nodes, this`home, node
      ensures Indexed() && nodes <= old(nodes) && home.Keys == old(home.Keys) && ShortOnlyAbove(node.parent)
      ensures node.parent != null ==> node.parent in nodes && node.parent.isDivided && node.parent.depth < node.depth
    {
      assert Linked(node) && forall id | id in home && home[id].parent == node :: Housed(id) && Linked(home[id]);
      Collapse(node);
      assert Linked(node);
      forall n | n in nodes && n.isDivided && |Under(home, n)| <= capacity
        ensures node.parent != null && Above(n, node.parent)
      {
        SameUnder(old(home), home, node, n);
      }
    }

    /** Collapses a node whose quadrants have become few enough, and then its ancestors. */
    method TryCollapse(node: Node?)
      requires Indexed() && ShortOnlyAbove(node) && (node != null ==> node in nodes && node.isDivided)
      modifies this`driverLeaves, this`nodes, this`home, nodes
      ensures Valid() && nodes <= old(nodes) && home.Keys == old(home.Keys)
      decreases if node == null then 0 else 1 + node.depth
    {
      if node == null || !node.isDivided {
        return;
      }
      assert Linked(node);
      var nw, ne, sw, se := node.nw, node.ne, node.sw, node.se;
      if nw.isDivided || ne.isDivided || sw.isDivided || se.isDivided {
        NotShort(node);
        return;
      }
      var totalPoints := |nw.points| + |ne.points| + |sw.points| + |se.points|;
      if totalPoints <= capacity {
        CollapseShort(node);
        TryCollapse(node.parent);
      } else {
        NotShort(node);
      }
    }

    // ---- The operations of the TypeScript engine ----

    method Remove(id: Id) returns (ok: bool)
      requires Valid()
      modifies this`driverMap, this`driverLeaves, this`at, this`home, this`nodes, nodes
      ensures Valid() && nodes <= old(nodes) && driverMap == old(driverMap) - {id}
      ensures ok == (id in old(Contents())) && Contents() == old(Contents()) - {id}
    {
      if id !in driverLeaves {
        return false;
      }
      var leaf := driverLeaves[id];
      assert Housed(id) && Linked(leaf);
      TakeOut(id);
      ShortAfterTakeOut(old(home), leaf, id);
      TryCollapse(leaf.parent);
      FewerPoints(id);
      return true;
    }

    twostate lemma FewerPoints(id: Id)
      requires driverMap == old(driverMap) - {id} && forall d | d in driverMap :: unchanged(driverMap[d])
      ensures Contents() == old(Contents()) - {id}
    {
    }

    lemma ShortAfterTakeOut(h0: map<Id, Node>, leaf: Node, id: Id)
      requires home == h0 - {id} && id in h0 && h0[id] == leaf && leaf in nodes && !leaf.isDivided
      requires leaf.parent != null ==> leaf.parent.depth + 1 == leaf.depth
      requires forall n | n in DividedNodes() :: capacity < |Under(h0, n)|
      ensures ShortOnlyAbove(leaf.parent)
    {
      forall n | n in nodes && n.isDivided && |Under(home, n)| <= capacity
        ensures leaf.parent != null && Above(n, leaf.parent)
      {
        assert n in DividedNodes();
        assert Under(home, n) == Under(h0, n) - {id};
      }
    }

    /** Stores a driver that is not in the tree. */
    method Add(point: Point) returns (leaf: Node?)
      requires Indexed() && point.id !in driverMap
      modifies this`driverMap, this`driverLeaves, this`at, this`home, this`nodes, nodes
      ensures Indexed() && fresh(nodes - old(nodes)) && (old(Canonical()) ==> Canonical())
      ensures leaf != null <==> InBox(root.bounds, point.At())
      ensures driverMap == if leaf != null then old(driverMap)[point.id := point] else old(driverMap)
      ensures Contents() == if leaf != null then old(Contents())[point.id := point.At()] else old(Contents())
    {
      ghost var was := Look();
      leaf := InsertNode(root, point);
      SamePoints();
      if leaf != null {
        if old(Canonical()) {
          StillCanonical(was, Look());
        }
        CacheComplete(was, Look(), point.id);
        Cache(point, leaf);
      }
    }

    /** Nodes may change as they like: the index as a map depends on the points only. */
    twostate lemma SamePoints()
      requires driverMap == old(driverMap) && forall id | id in driverMap :: unchanged(driverMap[id])
      ensures Contents() == old(Contents())
    {
    }

    /** Enters a stored driver into the caches. */
    method Cache(point: Point, leaf: Node)
      requires Structured() && at == driverMap[point.id := point] && home == driverLeaves[point.id := leaf]
      modifies this`driverMap, this`driverLeaves
      ensures Indexed() && (old(Canonical()) ==> Canonical())
      ensures driverMap == old(driverMap)[point.id := point] && Contents() == old(Contents())[point.id := point.At()]
    {
      driverMap, driverLeaves := driverMap[point.id := point], driverLeaves[point.id := leaf];
    }

    lemma CacheComplete(v0: View, v1: View, id: Id)
      requires Descended(capacity, v0, v1, {}) && v0.leaves == v0.home
      requires id !in v0.home && v1.home.Keys == v0.home.Keys + {id}
      ensures v1.leaves[id := v1.home[id]] == v1.home
    {
      assert forall d | d in v0.home :: v1.home[d] == v1.leaves[d];
    }

    lemma StillCanonical(v0: View, v1: View)
      requires Descended(capacity, v0, v1, {}) && v0.home.Keys <= v1.home.Keys
      requires v0.Overflowing(capacity, v0.divided)
      ensures v1.Overflowing(capacity, v1.divided)
    {
      forall n | n in v1.divided ensures capacity < |Under(v1.home, n)| {
        if n in v0.divided {
          UnderGrows(v0.home, v1.home, n);
        } else {
          assert n in v1.divided - v0.divided - {};
        }
      }
    }

    /** A position outside the region is refused, but only after the driver's old entry is gone. */
    method Insert(id: Id, lat: real, lng: real) returns (ok: bool)
      requires Valid()
      modifies this`driverMap, this`driverLeaves, this`at, this`home, this`nodes, nodes
      ensures Valid() && fresh(nodes - old(nodes)) && fresh(at.Values - old(at.Values))
      ensures ok == InBox(root.bounds, Pos(lat, lng))
      ensures Contents() == if ok then old(Contents())[id := Pos(lat, lng)] else old(Contents()) - {id}
      ensures fresh(Entry(id) - old(Entry(id)))
    {
      Displace(id);
      PutAfterRemove(old(Contents()), id, Pos(lat, lng));
      ok := AddNew(id, lat, lng);
    }

    method AddNew(id: Id, lat: real, lng: real) returns (ok: bool)
      requires Indexed() && id !in driverMap
      modifies this`driverMap, this`driverLeaves, this`at, this`home, this`nodes, nodes
      ensures Indexed() && (old(Canonical()) ==> Canonical()) && fresh(nodes - old(nodes))
      ensures fresh(at.Values - old(at.Values))
      ensures ok == InBox(root.bounds, Pos(lat, lng)) && fresh(Entry(id))
      ensures Contents() == if ok then old(Contents())[id := Pos(lat, lng)] else old(Contents())
    {
      var point := new Point(id, lat, lng);
      SamePoints();
      var leaf := Add(point);
      ok := leaf != null;
      assert at == driverMap;
    }

    method Displace(id: Id)
      requires Valid()
      modifies this`driverMap, this`driverLeaves, this`at, this`home, this`nodes, nodes
      ensures Valid() && nodes <= old(nodes) && driverMap == old(driverMap) - {id}
      ensures Contents() == old(Contents()) - {id}
    {
      if id in driverMap {
        var _ := Remove(id);
      }
    }

    /** Every leaf lies inside the region, whatever its depth. */
    lemma {:induction false} InsideRegion(n: Node, p: Pos)
      requires AllLinked() && n in nodes && InBox(n.bounds, p)
      ensures InBox(root.bounds, p)
      decreases n.depth
    {
      assert Linked(n);
      if n != root {
        QuadrantInside(n.parent.bounds, n.slot, p);
        InsideRegion(n.parent, p);
      }
    }

    /** Moves a driver in place when it stays in its leaf, and re-inserts it otherwise; a driver that
        leaves the region is lost from the index. */
    method Update(id: Id, lat: real, lng: real) returns (ok: bool)
      requires Valid()
      modifies this`driverMap, this`driverLeaves, this`at, this`home, this`nodes, nodes, Entry(id)
      ensures Valid() && fresh(nodes - old(nodes)) && fresh(at.Values - old(at.Values))
      ensures ok == (id in old(Contents()) && InBox(root.bounds, Pos(lat, lng)))
      ensures Contents() == if ok then old(Contents())[id := Pos(lat, lng)] else old(Contents()) - {id}
    {
      if id !in driverMap {
        return false;
      }
      if InBox(driverLeaves[id].bounds, Pos(lat, lng)) {
        assert Housed(id);
        InsideRegion(driverLeaves[id], Pos(lat, lng));
        MoveInPlace(id, lat, lng);
        return true;
      }
      ok := Relocate(id, lat, lng);
    }

    method Relocate(id: Id, lat: real, lng: real) returns (ok: bool)
      requires Valid()
      modifies this`driverMap, this`driverLeaves, this`at, this`home, this`nodes, nodes
      ensures Valid() && fresh(nodes - old(nodes)) && fresh(at.Values - old(at.Values))
      ensures ok == InBox(root.bounds, Pos(lat, lng))
      ensures Contents() == if ok then old(Contents())[id := Pos(lat, lng)] else old(Contents()) - {id}
    {
      var _ := Remove(id);
      PutAfterRemove(old(Contents()), id, Pos(lat, lng));
      ok := Insert(id, lat, lng);
    }

    method MoveInPlace(id: Id, lat: real, lng: real)
      requires Indexed() && id in driverMap && InBox(driverLeaves[id].bounds, Pos(lat, lng))
      modifies driverMap[id]
      ensures Indexed() && Contents() == old(Contents())[id := Pos(lat, lng)]
      ensures Canonical() == old(Canonical())
    {
      var point := driverMap[id];
      assert Housed(id);
      point.lat := lat;
      point.lng := lng;
      assert AllHoused() by {
        forall d | d in home ensures Housed(d) {
          assert old(Housed(d));
        }
      }
      assert forall d | d in driverMap && d != id :: old(Housed(d)) && driverMap[d] != point;
    }

    // ---- How large the tree can get ----

    /** Two nodes of one depth share no driver. */
    lemma {:induction false} SameDepthDisjoint(m: Node, n: Node, x: Node)
      requires m.depth == n.depth && Above(m, x) && Above(n, x)
      ensures m == n
      decreases x.depth
    {
      if x == m || x == n {
        if m != n {
          AboveIsShallower(if x == m then n else m, x);
        }
      } else {
        SameDepthDisjoint(m, n, x.parent);
      }
    }

    /** Overflowing nodes of one depth are few, because their drivers are different ones. */
    lemma {:induction false} FewPerDepth(ns: set<Node>, drivers: map<Id, Node>, depth: nat)
      requires forall n | n in ns :: n.depth == depth && capacity < |Under(drivers, n)|
      ensures |ns| * (capacity + 1) <= |drivers.Keys|
      decreases |ns|
    {
      if ns != {} {
        var n :| n in ns;
        var rest := drivers - Under(drivers, n);
        forall m | m in ns - {n} ensures Under(rest, m) == Under(drivers, m) {
          forall id | id in Under(drivers, m) ensures id in Under(rest, m) {
            if id in Under(drivers, n) {
              SameDepthDisjoint(m, n, drivers[id]);
            }
          }
        }
        FewPerDepth(ns - {n}, rest, depth);
        assert |drivers.Keys| == |rest.Keys| + |Under(drivers, n)| by {
          assert drivers.Keys == rest.Keys + Under(drivers, n) && rest.Keys !! Under(drivers, n);
        }
        OneMore(|ns| - 1, capacity + 1);
      }
    }

    lemma OneMore(x: int, d: int)
      ensures (x + 1) * d == x * d + d
    {
    }

    lemma {:induction false} FewAbove(depth: nat)
      requires Canonical()
      ensures |set n | n in DividedNodes() && n.depth < depth| <= depth * (|home.Keys| / (capacity + 1))
    {
      var below := set n | n in DividedNodes() && n.depth < depth;
      if depth == 0 {
        assert below == {};
      } else {
        var here := set n | n in DividedNodes() && n.depth == depth - 1;
        var above := set n | n in DividedNodes() && n.depth < depth - 1;
        assert below == above + here;
        FewAbove(depth - 1);
        FewPerDepth(here, home, depth - 1);
        QuotientBound(|here|, capacity + 1, |home.Keys|);
        assert depth * (|home.Keys| / (capacity + 1)) ==
          (depth - 1) * (|home.Keys| / (capacity + 1)) + |home.Keys| / (capacity + 1);
      }
    }

    lemma QuotientBound(x: nat, d: nat, n: nat)
      requires 0 < d && x * d <= n
      ensures x <= n / d
    {
      var q := n / d;
      assert n == q * d + n % d;
      Product(q, d);
      SmallerFactor(x, q + 1, d);
    }

    lemma Product(q: int, d: int)
      ensures (q + 1) * d == q * d + d
    {
    }

    lemma SmallerFactor(x: int, y: int, d: int)
      requires 0 < d && x * d < y * d
      ensures x < y
    {
      if y <= x {
        LargerProduct(y, x, d);
      }
    }

    lemma LargerProduct(x: int, y: int, d: int)
      requires 0 < d && x <= y
      ensures x * d <= y * d
    {
    }

    /** Each quadrant of each divided node is one node. */
    lemma {:induction false} QuadrantsCounted(ns: set<Node>, divided: set<Node>, s: Slot)
      requires AllLinked() && ns <= nodes
      requires forall n | n in ns :: n.parent != null && n.parent in divided && n.slot == s
      ensures |ns| <= |divided|
      decreases |ns|
    {
      if ns != {} {
        var n :| n in ns;
        forall m | m in ns - {n} ensures m.parent in divided - {n.parent} {
          assert Linked(m) && Linked(n);
        }
        QuadrantsCounted(ns - {n}, divided - {n.parent}, s);
      }
    }

    lemma UnionBound<T>(a: set<T>, b: set<T>, c: set<T>, d: set<T>, e: set<T>)
      ensures |a + b + c + d + e| <= |a| + |b| + |c| + |d| + |e|
    {
    }

    /** The number of nodes is bounded by the drivers stored, however long the run that stored them. */
    lemma NodeBound()
      requires Valid()
      ensures |nodes| <= 1 + 4 * (maxDepth * (|driverMap| / (capacity + 1)))
    {
      FewQuadrants(NW);
      FewQuadrants(NE);
      FewQuadrants(SW);
      FewQuadrants(SE);
      AllQuadrants();
      UnionBound({root}, Quadrants(NW), Quadrants(NE), Quadrants(SW), Quadrants(SE));
      FewDivided();
    }

    lemma AllQuadrants()
      requires root in nodes
      ensures nodes == {root} + Quadrants(NW) + Quadrants(NE) + Quadrants(SW) + Quadrants(SE)
    {
    }

    ghost function Quadrants(s: Slot): set<Node>
      reads this`nodes
    {
      set n | n in nodes && n != root && n.slot == s
    }

    lemma FewQuadrants(s: Slot)
      requires AllLinked()
      ensures |Quadrants(s)| <= |DividedNodes()|
    {
      assert forall n | n in Quadrants(s) :: Linked(n);
      QuadrantsCounted(Quadrants(s), DividedNodes(), s);
    }

    lemma FewDivided()
      requires Valid()
      ensures |DividedNodes()| <= maxDepth * (|driverMap| / (capacity + 1))
    {
      forall n | n in DividedNodes() ensures n.depth < maxDepth {
        assert Linked(n) && Linked(n.nw);
      }
      assert DividedNodes() == set n | n in DividedNodes() && n.depth < maxDepth;
      FewAbove(maxDepth);
      assert |driverMap| == |home.Keys|;
    }

    // ---- Nearest neighbours ----

    /** A leaf below a divided node is below one of its quadrants. */
    lemma {:induction false} BelowAQuadrant(n: Node, leaf: Node) returns (c: Node)
      requires AllLinked() && n in nodes && leaf in nodes && Above(n, leaf) && n != leaf
      ensures c in nodes && c.parent == n && Above(c, leaf)
      decreases leaf.depth
    {
      assert Linked(leaf);
      if leaf.parent == n {
        c := leaf;
      } else {
        c := BelowAQuadrant(n, leaf.parent);
      }
    }

    /** A driver lies inside every box above its leaf. */
    lemma {:induction false} InsideAncestor(a: Node, n: Node, p: Pos)
      requires AllLinked() && n in nodes && Above(a, n) && InBox(n.bounds, p)
      ensures InBox(a.bounds, p)
      decreases n.depth
    {
      assert Linked(n);
      if a != n {
        QuadrantInside(n.parent.bounds, n.slot, p);
        InsideAncestor(a, n.parent, p);
      }
    }

    /** No driver under a node is nearer than the node's box, up to the slack. */
    lemma BoxIsNearer(q: Query, n: Node, id: Id, slack: real)
      requires Indexed() && id in home && Above(n, home[id]) && n in nodes
      requires BoundsWithin(q.metric, q.from, root.bounds, slack)
      ensures id in Contents() && BoxDistance(q.metric, q.from, n.bounds) <= q.metric(q.from, Contents()[id]) + slack
    {
      assert Housed(id);
      InsideAncestor(n, home[id], at[id].At());
      forall p | InBox(n.bounds, p) ensures InBox(root.bounds, p) {
        InsideRegion(n, p);
      }
    }

    /** A driver may be dismissed with a node whose box is out of radius or beaten. */
    lemma BoxDismissed(q: Query, n: Node, id: Id, r: seq<Candidate>)
      requires Indexed() && id in home && n in nodes && Above(n, home[id])
      requires q.radius < BoxDistance(q.metric, q.from, n.bounds)
          || Beaten(r, q.k, BoxDistance(q.metric, q.from, n.bounds))
      ensures id in Contents() && Dismissible(q, root.bounds, r, q.metric(q.from, Contents()[id]))
    {
      forall slack | 0.0 <= slack && BoundsWithin(q.metric, q.from, root.bounds, slack)
        ensures Beaten(r, q.k, q.metric(q.from, Contents()[id]) + slack)
            || q.radius < q.metric(q.from, Contents()[id]) + slack
      {
        BoxIsNearer(q, n, id, slack);
      }
    }

    /** The queue holds unvisited nodes whose parents have been visited, once each, by box distance. */
    ghost predicate Frontier(q: Query, queue: multiset<NodeCandidate>, visited: set<Node>)
      reads this`nodes
    {
      && visited <= nodes
      && (forall n {:trigger n in visited} | n in visited :: n.parent == null || n.parent in visited)
      && (forall c {:trigger queue[c]} | c in queue ::
            && c.node in nodes && c.node !in visited && queue[c] == 1
            && (c.node.parent == null || c.node.parent in visited)
            && c.minDist == BoxDistance(q.metric, q.from, c.node.bounds))
    }

    ghost function StoredIn(visited: set<Node>): set<Id>
      reads this`home
    {
      set id | id in home && home[id] in visited
    }

    /** Looks at the drivers of one leaf. */
    method EvaluateLeaf(q: Query, leaf: Node, candidates: seq<Candidate>, ghost seen: set<Id>)
      returns (r: seq<Candidate>)
      requires Indexed() && leaf in nodes && !leaf.isDivided && 0 < q.k && |candidates| <= q.k
      requires BestOf(seen, Contents(), q, candidates) && seen !! StoredIn({leaf})
      ensures |r| <= q.k && BestOf(seen + StoredIn({leaf}), Contents(), q, r) && StaysBeaten(candidates, r, q.k)
    {
      PointsOfLeaf(leaf);
      IdsStored(leaf);
      r := candidates;
      for i := 0 to |leaf.points|
        invariant |r| <= q.k && BestOf(seen + IdsOf(leaf.points[..i]), Contents(), q, r)
        invariant StaysBeaten(candidates, r, q.k)
      {
        var pt := leaf.points[i];
        NextId(leaf.points, i, seen);
        r := Consider(Contents(), seen + IdsOf(leaf.points[..i]), q, r, pt.id, pt.lat, pt.lng);
      }
      assert leaf.points[..|leaf.points|] == leaf.points;
    }

    lemma IdsStored(leaf: Node)
      requires Structured() && leaf in nodes
      ensures IdsOf(leaf.points) == StoredIn({leaf})
    {
      PointsOfLeaf(leaf);
      forall id | id in StoredIn({leaf}) ensures id in IdsOf(leaf.points) {
        assert Housed(id);
      }
    }

    /** Queues a quadrant unless its box is out of reach. */
    method PushIfNear(q: Query, pq: MinHeap<NodeCandidate>, child: Node, ghost visited: set<Node>)
      requires pq.Valid() && pq.compare == CompareNodes && Frontier(q, multiset(pq.heap), visited)
      requires child in nodes && child !in visited && child.parent != null && child.parent in visited
      requires forall c | c in multiset(pq.heap) :: c.node != child
      modifies pq
      ensures pq.Valid() && Frontier(q, multiset(pq.heap), visited)
      ensures multiset(pq.heap) == old(multiset(pq.heap)) + Queued(q, child)
    {
      var dist := BoxDistance(q.metric, q.from, child.bounds);
      if dist <= q.radius {
        CompareOrders(pq, multiset(pq.heap) + multiset{NodeCandidate(child, dist)});
        pq.Push(NodeCandidate(child, dist));
      }
    }

    /** Replaces a visited node by its quadrants. */
    method PushChildren(q: Query, pq: MinHeap<NodeCandidate>, node: Node, ghost visited: set<Node>)
      requires AllLinked() && node in nodes && node.isDivided
      requires pq.Valid() && pq.compare == CompareNodes && Frontier(q, multiset(pq.heap), visited)
      requires node in visited && (forall n | n in visited :: n.parent != node)
          && forall c | c in multiset(pq.heap) :: c.node.parent != node
      modifies pq
      ensures pq.Valid() && Frontier(q, multiset(pq.heap), visited)
      ensures multiset(pq.heap) ==
          old(multiset(pq.heap)) + Queued(q, node.nw) + Queued(q, node.ne) + Queued(q, node.sw) + Queued(q, node.se)
    {
      assert Linked(node);
      PushIfNear(q, pq, node.nw, visited);
      PushIfNear(q, pq, node.ne, visited);
      PushIfNear(q, pq, node.sw, visited);
      PushIfNear(q, pq, node.se, visited);
    }

    /** A driver below a queue that cannot improve a full list may be dismissed. */
    lemma PrunedDismissed(
        q: Query, queue: multiset<NodeCandidate>, visited: set<Node>, r: seq<Candidate>, least: real, id: Id)
      requires Indexed() && Frontier(q, queue, visited)
      requires forall c | c in queue :: least <= c.minDist
      requires 0 < q.k <= |r| && r[|r| - 1].distance <= least
      requires id in home && Waiting(queue, home[id])
      ensures id in Contents() && Dismissible(q, root.bounds, r, q.metric(q.from, Contents()[id]))
    {
      var c :| c in queue && Above(c.node, home[id]);
      BoxDismissed(q, c.node, id, r);
    }

    /** Dropping a node whose box is out of radius drops only drivers that may be dismissed. */
    lemma DropFar(q: Query, queue: multiset<NodeCandidate>, far: NodeCandidate, visited: set<Node>, seen: set<Id>,
      r: seq<Candidate>)
      requires Indexed() && Frontier(q, queue, visited) && far in queue && q.radius < far.minDist
      requires Covered(Contents(), home, q, root.bounds, queue, seen, r)
      ensures Covered(Contents(), home, q, root.bounds, queue - multiset{far}, seen, r)
    {
      forall id | InRadius(Contents(), q, id) && id !in seen
        ensures Dismissible(q, root.bounds, r, q.metric(q.from, Contents()[id]))
            || Waiting(queue - multiset{far}, home[id])
      {
        if !Dismissible(q, root.bounds, r, q.metric(q.from, Contents()[id])) {
          var c :| c in queue && Above(c.node, home[id]);
          if c == far {
            BoxDismissed(q, c.node, id, r);
          } else {
            assert c in queue - multiset{far};
          }
        }
      }
    }

    /** A leaf above another leaf is that leaf. */
    lemma OnlyLeafAbove(leaf: Node, above: Node, n: Node)
      requires AllLinked() && leaf in nodes && n in nodes && !leaf.isDivided && leaf != n && Above(above, n)
      ensures above != leaf
    {
      if above == leaf {
        var below := BelowAQuadrant(leaf, n);
        ParentIsDivided(below);
        assert false;
      }
    }

    lemma ParentIsDivided(n: Node)
      requires AllLinked() && n in nodes && n.parent != null
      ensures n.parent.isDivided
    {
      assert Linked(n);
    }

    /** Dropping a leaf whose drivers have been looked at. */
    lemma DropLeaf(q: Query, queue: multiset<NodeCandidate>, leaf: NodeCandidate, seen: set<Id>, r: seq<Candidate>,
      r': seq<Candidate>)
      requires Indexed() && leaf in queue && leaf.node in nodes && !leaf.node.isDivided
      requires Covered(Contents(), home, q, root.bounds, queue, seen, r) && StaysBeaten(r, r', q.k)
      ensures Covered(Contents(), home, q, root.bounds, queue - multiset{leaf}, seen + StoredIn({leaf.node}), r')
    {
      forall id | InRadius(Contents(), q, id) && id !in seen + StoredIn({leaf.node})
        ensures Dismissible(q, root.bounds, r', q.metric(q.from, Contents()[id]))
            || Waiting(queue - multiset{leaf}, home[id])
      {
        if Dismissible(q, root.bounds, r, q.metric(q.from, Contents()[id])) {
          StaysDismissible(q, root.bounds, r, r', q.metric(q.from, Contents()[id]));
        } else {
          var c :| c in queue && Above(c.node, home[id]);
          assert Housed(id);
          OnlyLeafAbove(leaf.node, c.node, home[id]);
          assert c in queue - multiset{leaf};
        }
      }
    }

    /** Replacing a divided node by its quadrants. */
    lemma Expand(q: Query, queue: multiset<NodeCandidate>, top: NodeCandidate, seen: set<Id>, r: seq<Candidate>)
      requires Indexed() && top in queue && top.node in nodes && top.node.isDivided
      requires Covered(Contents(), home, q, root.bounds, queue, seen, r)
      ensures
        var n := top.node;
        var queue' := queue - multiset{top} + Queued(q, n.nw) + Queued(q, n.ne) + Queued(q, n.sw) + Queued(q, n.se);
        Covered(Contents(), home, q, root.bounds, queue', seen, r)
    {
      var n := top.node;
      var queue' := queue - multiset{top} + Queued(q, n.nw) + Queued(q, n.ne) + Queued(q, n.sw) + Queued(q, n.se);
      forall id | InRadius(Contents(), q, id) && id !in seen
        ensures Dismissible(q, root.bounds, r, q.metric(q.from, Contents()[id])) || Waiting(queue', home[id])
      {
        if !Dismissible(q, root.bounds, r, q.metric(q.from, Contents()[id])) {
          var c :| c in queue && Above(c.node, home[id]);
          if c == top {
            c := QueuedQuadrant(q, n, id, r);
          }
          assert c in queue';
        }
      }
    }

    /** A driver under a divided node that cannot be dismissed is under one of the quadrants that are queued. */
    lemma QueuedQuadrant(q: Query, n: Node, id: Id, r: seq<Candidate>) returns (c: NodeCandidate)
      requires Indexed() && n in nodes && n.isDivided && InRadius(Contents(), q, id) && Above(n, home[id])
      requires !Dismissible(q, root.bounds, r, q.metric(q.from, Contents()[id]))
      ensures Above(c.node, home[id])
      ensures c in Queued(q, n.nw) || c in Queued(q, n.ne) || c in Queued(q, n.sw) || c in Queued(q, n.se)
    {
      assert Housed(id);
      var below := BelowAQuadrant(n, home[id]);
      assert Linked(below);
      c := NodeCandidate(below, BoxDistance(q.metric, q.from, below.bounds));
      if q.radius < c.minDist {
        BoxDismissed(q, below, id, r);
        assert false;
      }
      assert c in Queued(q, below);
    }

    /** The state of a search between two visits. */
    ghost predicate Searching(
        q: Query, queue: multiset<NodeCandidate>, visited: set<Node>, seen: set<Id>, r: seq<Candidate>)
      requires Indexed()
      reads this, nodes, at.Values
    {
      && 0 < q.k && |r| <= q.k && Frontier(q, queue, visited)
      && seen <= StoredIn(visited) && BestOf(seen, Contents(), q, r)
      && Covered(Contents(), home, q, root.bounds, queue, seen, r)
    }

    lemma FrontierAfterPop(q: Query, queue: multiset<NodeCandidate>, visited: set<Node>, c: NodeCandidate)
      requires Frontier(q, queue, visited) && c in queue
      ensures Frontier(q, queue - multiset{c}, visited + {c.node})
      ensures forall n | n in visited + {c.node} :: n.parent == null || n.parent in visited
      ensures forall x {:trigger (queue - multiset{c})[x]} | x in queue - multiset{c} :: x.node.parent != c.node
    {
      forall x {:trigger (queue - multiset{c})[x]} | x in queue - multiset{c} ensures x.node != c.node {
        assert queue[x] == 1 && queue[c] == 1;
      }
    }

    method PopNearest(q: Query, pq: MinHeap<NodeCandidate>, ghost queue: multiset<NodeCandidate>,
      ghost visited: set<Node>, ghost seen: set<Id>, ghost r: seq<Candidate>)
      returns (current: NodeCandidate)
      requires Indexed() && Searching(q, queue, visited, seen, r)
      requires pq.Valid() && pq.compare == CompareNodes && pq.heap != [] && queue == multiset(pq.heap)
      modifies pq
      ensures Indexed() && Searching(q, queue, visited, seen, r)
      ensures pq.Valid() && current in queue && multiset(pq.heap) == queue - multiset{current}
      ensures forall c {:trigger queue[c]} | c in queue :: current.minDist <= c.minDist
    {
      var popped := pq.Pop();
      current := popped.value;
      forall c | c in queue ensures current.minDist <= c.minDist {
        assert c in old(pq.heap);
        assert pq.compare(current, c) == CompareNodes(current, c);
      }
    }

    lemma SkipFar(q: Query, queue: multiset<NodeCandidate>, far: NodeCandidate, visited: set<Node>, seen: set<Id>,
      r: seq<Candidate>)
      requires Indexed() && Searching(q, queue, visited, seen, r) && far in queue && q.radius < far.minDist
      ensures Searching(q, queue - multiset{far}, visited + {far.node}, seen, r)
    {
      FrontierAfterPop(q, queue, visited, far);
      DropFar(q, queue, far, visited, seen, r);
    }

    method VisitLeaf(q: Query, ghost queue: multiset<NodeCandidate>, current: NodeCandidate, ghost visited: set<Node>,
      ghost seen: set<Id>, r: seq<Candidate>)
      returns (r': seq<Candidate>)
      requires Indexed() && Searching(q, queue, visited, seen, r) && current in queue && !current.node.isDivided
      ensures Searching(q, queue - multiset{current}, visited + {current.node}, seen + StoredIn({current.node}), r')
    {
      FrontierAfterPop(q, queue, visited, current);
      r' := EvaluateLeaf(q, current.node, r, seen);
      DropLeaf(q, queue, current, seen, r, r');
    }

    method VisitDivided(q: Query, pq: MinHeap<NodeCandidate>, ghost queue: multiset<NodeCandidate>,
      current: NodeCandidate, ghost visited: set<Node>, ghost seen: set<Id>, ghost r: seq<Candidate>)
      requires Indexed() && Searching(q, queue, visited, seen, r) && current in queue && current.node.isDivided
      requires pq.Valid() && pq.compare == CompareNodes && multiset(pq.heap) == queue - multiset{current}
      modifies pq
      ensures pq.Valid() && Searching(q, multiset(pq.heap), visited + {current.node}, seen, r)
    {
      FrontierAfterPop(q, queue, visited, current);
      PushChildren(q, pq, current.node, visited + {current.node});
      Expand(q, queue, current, seen, r);
    }

    lemma StartFrontier(q: Query)
      requires Indexed() && 0 < q.k
      ensures Searching(q, multiset{NodeCandidate(root, BoxDistance(q.metric, q.from, root.bounds))}, {}, {}, [])
    {
      var first := NodeCandidate(root, BoxDistance(q.metric, q.from, root.bounds));
      assert Linked(root);
      forall id | InRadius(Contents(), q, id) ensures id in home && Waiting(multiset{first}, home[id]) {
        assert Housed(id);
        RootAbove(home[id]);
        assert first in multiset{first};
      }
    }

    method StartSearch(q: Query) returns (pq: MinHeap<NodeCandidate>)
      requires Indexed() && 0 < q.k
      ensures fresh(pq) && pq.Valid() && pq.compare == CompareNodes
      ensures Searching(q, multiset(pq.heap), {}, {}, [])
    {
      StartFrontier(q);
      pq := new MinHeap<NodeCandidate>(CompareNodes);
      var first := NodeCandidate(root, BoxDistance(q.metric, q.from, root.bounds));
      CompareOrders(pq, multiset{first});
      pq.Push(first);
      assert multiset(pq.heap) == multiset{first};
    }

    lemma {:induction false} RootAbove(n: Node)
      requires AllLinked() && n in nodes
      ensures Above(root, n)
      decreases n.depth
    {
      assert Linked(n);
      if n != root {
        RootAbove(n.parent);
      }
    }

    /** One turn of the search: visits the nearest queued node, or stops if it cannot improve the answer. */
    method Turn(q: Query, pq: MinHeap<NodeCandidate>, ghost visited: set<Node>, ghost seen: set<Id>, r: seq<Candidate>)
      returns (stop: bool, ghost visited': set<Node>, ghost seen': set<Id>, r': seq<Candidate>)
      requires Indexed() && pq.Valid() && pq.compare == CompareNodes && pq.heap != []
      requires Searching(q, multiset(pq.heap), visited, seen, r)
      modifies pq
      ensures pq.Valid()
      ensures !stop ==> |nodes - visited'| < |nodes - visited| && Searching(q, multiset(pq.heap), visited', seen', r')
      ensures stop ==> NearlyKnn(Contents(), q, root.bounds, r')
    {
      ghost var queue := multiset(pq.heap);
      var current := PopNearest(q, pq, queue, visited, seen, r);
      stop, visited', seen', r' := false, visited + {current.node}, seen, r;
      if |r| >= q.k && current.minDist >= r[q.k - 1].distance {
        AllPruned(q, queue, visited, seen, r, current.minDist);
        stop := true;
        return;
      }
      Shrinks(nodes, visited, current.node);
      if current.minDist > q.radius {
        SkipFar(q, queue, current, visited, seen, r);
      } else if !current.node.isDivided {
        r' := VisitLeaf(q, queue, current, visited, seen, r);
        seen' := seen + StoredIn({current.node});
      } else {
        VisitDivided(q, pq, queue, current, visited, seen, r);
      }
    }

    /** Best-first search. It never answers with a wrong driver; it answers with the nearest ones if, from this
        position, no point of a box inside the region is nearer than the box, and with nearly the nearest ones if
        the boxes are nearly right. */
    method KNearestNeighbors(q: Query) returns (r: seq<Candidate>)
      requires Indexed()
      ensures NearlyKnn(Contents(), q, root.bounds, r)
      ensures BoundsWithin(q.metric, q.from, root.bounds, 0.0) ==> IsKnn(Contents(), q, r)
    {
      r := BestFirst(q);
      if BoundsWithin(q.metric, q.from, root.bounds, 0.0) {
        NearlyKnnExact(Contents(), q, root.bounds, r);
      }
    }

    method BestFirst(q: Query) returns (r: seq<Candidate>)
      requires Indexed()
      ensures NearlyKnn(Contents(), q, root.bounds, r)
    {
      if q.k <= 0 {
        return [];
      }
      r := [];
      var pq := StartSearch(q);
      var stop := false;
      ghost var visited: set<Node>, seen: set<Id> := {}, {};
      while pq.heap != [] && !stop
        invariant fresh(pq) && pq.Valid() && pq.compare == CompareNodes
        invariant !stop ==> Searching(q, multiset(pq.heap), visited, seen, r)
        invariant stop ==> NearlyKnn(Contents(), q, root.bounds, r)
        decreases !stop, |nodes - visited|
      {
        stop, visited, seen, r := Turn(q, pq, visited, seen, r);
      }
      if !stop {
        NothingQueued(q, visited, seen, r);
      }
    }

    /** An empty queue leaves only drivers that were looked at or dismissed. */
    lemma NothingQueued(q: Query, visited: set<Node>, seen: set<Id>, r: seq<Candidate>)
      requires Indexed() && Searching(q, multiset{}, visited, seen, r)
      ensures NearlyKnn(Contents(), q, root.bounds, r)
    {
      forall id | InRadius(Contents(), q, id)
        ensures id in Ids(r) || Dismissible(q, root.bounds, r, q.metric(q.from, Contents()[id]))
      {
        if id in seen && id !in Ids(r) {
          BeatenDismissible(q, root.bounds, r, q.metric(q.from, Contents()[id]));
        }
      }
    }

    lemma Shrinks(all: set<Node>, visited: set<Node>, n: Node)
      requires n in all && n !in visited
      ensures |all - (visited + {n})| < |all - visited|
    {
      assert all - visited == all - (visited + {n}) + {n};
    }

    /** A full list that no queued node can improve leaves out only drivers that may be dismissed. */
    lemma AllPruned(
        q: Query, queue: multiset<NodeCandidate>, visited: set<Node>, seen: set<Id>, r: seq<Candidate>, least: real)
      requires Indexed() && Frontier(q, queue, visited)
      requires forall c | c in queue :: least <= c.minDist
      requires 0 < q.k <= |r| && r[|r| - 1].distance <= least
      requires BestOf(seen, Contents(), q, r) && Covered(Contents(), home, q, root.bounds, queue, seen, r)
      ensures NearlyKnn(Contents(), q, root.bounds, r)
    {
      forall id | InRadius(Contents(), q, id)
        ensures id in Ids(r) || Dismissible(q, root.bounds, r, q.metric(q.from, Contents()[id]))
      {
        if id in seen && id !in Ids(r) {
          BeatenDismissible(q, root.bounds, r, q.metric(q.from, Contents()[id]));
        } else if id !in seen && Waiting(queue, home[id]) {
          PrunedDismissed(q, queue, visited, r, least, id);
        }
      }
    }
  }

  ghost predicate Waiting(queue: multiset<NodeCandidate>, leaf: Node) {
    exists c {:trigger queue[c]} :: c in queue && Above(c.node, leaf)
  }

  /** Every driver in the radius that has not been looked at may be dismissed or is below a queued node. */
  ghost predicate Covered(
    index: map<Id, Pos>, home: map<Id, Node>, q: Query, region: Box, queue: multiset<NodeCandidate>, seen: set<Id>,
      r: seq<Candidate>)
  {
    forall id {:trigger InRadius(index, q, id)} | InRadius(index, q, id) && id !in seen ::
      id in home && (Dismissible(q, region, r, q.metric(q.from, index[id])) || Waiting(queue, home[id]))
  }

  /** What a quadrant adds to the queue. */
  ghost function Queued(q: Query, child: Node?): multiset<NodeCandidate> {
    if child == null then multiset{} else
    var dist := BoxDistance(q.metric, q.from, child.bounds);
    if dist <= q.radius then multiset{NodeCandidate(child, dist)} else multiset{}
  }

  function CompareNodes(a: NodeCandidate, b: NodeCandidate): real {
    a.minDist - b.minDist
  }

  lemma CompareOrders(pq: MinHeap<NodeCandidate>, bag: multiset<NodeCandidate>)
    requires pq.compare == CompareNodes
    ensures pq.Orders(bag)
  {
  }

  lemma NextId(points: seq<Point>, i: nat, seen: set<Id>)
    requires i < |points| && seen !! IdsOf(points)
    requires forall j, k | 0 <= j < k < |points| :: points[j].id != points[k].id
    ensures points[i].id !in seen + IdsOf(points[..i])
    ensures seen + IdsOf(points[..i + 1]) == seen + IdsOf(points[..i]) + {points[i].id}
  {
    assert points[..i + 1] == points[..i] + [points[i]];
    assert points[i] in points;
  }

  datatype NodeCandidate = NodeCandidate(node: Node, minDist: real)
}
