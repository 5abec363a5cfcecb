/** What a k-nearest-neighbours answer is, independently of how an engine finds it. */
module Candidates {
  import opened Geometry

  datatype Candidate = Candidate(id: Id, lat: real, lng: real, distance: real) {
    function At(): Pos { Pos(lat, lng) }
  }

  datatype Query = Query(metric: Metric, from: Pos, k: int, radius: real)

  ghost predicate Sorted(r: seq<Candidate>) {
    forall i, j | 0 <= i < j < |r| :: r[i].distance <= r[j].distance
  }

  ghost predicate DistinctIds(r: seq<Candidate>) {
    forall i, j | 0 <= i < j < |r| :: r[i].id != r[j].id
  }

  ghost function Ids(r: seq<Candidate>): set<Id> {
    set i | 0 <= i < |r| :: r[i].id
  }

  /** The list is full and nothing at distance `d` would improve it. */
  predicate Beaten(r: seq<Candidate>, k: int, d: real) {
    k <= |r| && (r != [] ==> r[|r| - 1].distance <= d)
  }

  /** Every entry tells the truth about a stored driver inside the radius. */
  ghost predicate Sound(index: map<Id, Pos>, q: Query, r: seq<Candidate>) {
    && Sorted(r) && DistinctIds(r) && (|r| <= q.k || r == [])
    && forall c | c in r ::
         c.id in index && index[c.id] == c.At() && c.distance == q.metric(q.from, c.At()) && c.distance <= q.radius
  }

  ghost predicate InRadius(index: map<Id, Pos>, q: Query, id: Id) {
    id in index && q.metric(q.from, index[id]) <= q.radius
  }

  /** The answer over the drivers in `seen`: each is listed, out of radius, or beaten by a full list. */
  ghost predicate BestOf(seen: set<Id>, index: map<Id, Pos>, q: Query, r: seq<Candidate>) {
    && Sound(index, q, r) && Ids(r) <= seen
    && forall id | id in seen && InRadius(index, q, id) ::
         id in Ids(r) || Beaten(r, q.k, q.metric(q.from, index[id]))
  }

  /** The k nearest drivers within the radius. */
  ghost predicate IsKnn(index: map<Id, Pos>, q: Query, r: seq<Candidate>) {
    BestOf(index.Keys, index, q, r)
  }

  // ---- The answer is determined ----

  function Distances(r: seq<Candidate>): seq<real> {
    seq(|r|, i requires 0 <= i < |r| => r[i].distance)
  }

  lemma {:induction false} IdsCardinality(r: seq<Candidate>)
    requires DistinctIds(r)
    ensures |Ids(r)| == |r|
  {
    if r != [] {
      var front, last := r[..|r| - 1], r[|r| - 1];
      IdsCardinality(front);
      IdsAppend(front, last);
      assert r == front + [last];
    }
  }

  lemma IdsAppend(front: seq<Candidate>, last: Candidate)
    ensures Ids(front + [last]) == Ids(front) + {last.id}
  {
    var r := front + [last];
    assert forall i | 0 <= i < |front| :: r[i] == front[i];
    assert r[|front|] == last;
  }

  ghost function DriversInRadius(index: map<Id, Pos>, q: Query): set<Id> {
    set id | id in index && InRadius(index, q, id)
  }

  lemma SubsetSmaller<T>(a: set<T>, b: set<T>)
    requires a <= b
    ensures |a| <= |b| && (|a| == |b| ==> a == b)
  {
    assert b == a + (b - a);
  }

  /** A k-NN answer lists min(k, drivers in radius) drivers. */
  lemma KnnLength(index: map<Id, Pos>, q: Query, r: seq<Candidate>)
    requires IsKnn(index, q, r) && 0 <= q.k
    ensures |r| == if q.k <= |DriversInRadius(index, q)| then q.k else |DriversInRadius(index, q)|
  {
    var all := DriversInRadius(index, q);
    IdsCardinality(r);
    assert Ids(r) <= all;
    SubsetSmaller(Ids(r), all);
    if |r| < q.k {
      assert all == Ids(r);
    }
  }

  /** If one answer were nearer at rank `i`, what it lists up to there would be strictly before `i` in the other. */
  lemma ListedEarlier(index: map<Id, Pos>, q: Query, r1: seq<Candidate>, r2: seq<Candidate>, i: nat, j: nat)
    requires Sound(index, q, r1) && IsKnn(index, q, r2) && j <= i < |r1| && i < |r2|
    requires r1[i].distance < r2[i].distance
    ensures r1[j].id in Ids(r2[..i])
  {
    assert r1[j] in r1 && r1[j].distance <= r1[i].distance;
    assert r2[i].distance <= r2[|r2| - 1].distance;
    assert r1[j].id in Ids(r2);
    var m :| 0 <= m < |r2| && r2[m].id == r1[j].id;
    assert r2[m] in r2;
    assert m < i && r2[..i][m] == r2[m];
  }

  /** No sound list is nearer than the exact one at any rank. */
  lemma SoundNotNearer(index: map<Id, Pos>, q: Query, r: seq<Candidate>, exact: seq<Candidate>, i: nat)
    requires Sound(index, q, r) && IsKnn(index, q, exact) && i < |r| && i < |exact|
    ensures exact[i].distance <= r[i].distance
  {
    if r[i].distance < exact[i].distance {
      IdsCardinality(r[..i + 1]);
      IdsCardinality(exact[..i]);
      forall id | id in Ids(r[..i + 1]) ensures id in Ids(exact[..i]) {
        var j :| 0 <= j < i + 1 && r[..i + 1][j].id == id;
        ListedEarlier(index, q, r, exact, i, j);
      }
      SubsetSmaller(Ids(r[..i + 1]), Ids(exact[..i]));
    }
  }

  /** Two k-NN answers over the same drivers have the same distances, whatever found them. */
  lemma KnnUnique(index: map<Id, Pos>, q: Query, r1: seq<Candidate>, r2: seq<Candidate>)
    requires IsKnn(index, q, r1) && IsKnn(index, q, r2)
    ensures Distances(r1) == Distances(r2)
  {
    if 0 <= q.k {
      KnnLength(index, q, r1);
      KnnLength(index, q, r2);
    }
    forall i | 0 <= i < |r1| ensures r1[i].distance == r2[i].distance {
      SoundNotNearer(index, q, r1, r2, i);
      SoundNotNearer(index, q, r2, r1, i);
    }
  }

  /** Brute force: list every driver in the radius, sort, and keep the first k. */
  lemma KnnIsBruteForce(index: map<Id, Pos>, q: Query, all: seq<Candidate>, r: seq<Candidate>)
    requires IsKnn(index, q, r) && 0 <= q.k
    requires Sound(index, q.(k := |all|), all) && Ids(all) == DriversInRadius(index, q)
    ensures Distances(r) == Distances(if q.k <= |all| then all[..q.k] else all)
  {
    var first := if q.k <= |all| then all[..q.k] else all;
    assert Ids(first) <= index.Keys;
    forall id | id in index && InRadius(index, q, id)
      ensures id in Ids(first) || Beaten(first, q.k, q.metric(q.from, index[id]))
    {
      assert id in Ids(all);
      var i :| 0 <= i < |all| && all[i].id == id;
      assert all[i] in all;
      if i < |first| {
        assert first[i].id == id;
      }
    }
    KnnUnique(index, q, r, first);
  }

  // ---- When box distances are only nearly right ----

  /** However loose the box distances are, a driver at distance `d` plus that slack is beaten or out of radius. */
  ghost predicate Dismissible(q: Query, region: Box, r: seq<Candidate>, d: real) {
    forall slack {:trigger BoundsWithin(q.metric, q.from, region, slack)}
      | 0.0 <= slack && BoundsWithin(q.metric, q.from, region, slack) ::
      Beaten(r, q.k, d + slack) || q.radius < d + slack
  }

  /** A sound answer that leaves out only drivers it may dismiss. */
  ghost predicate NearlyKnn(index: map<Id, Pos>, q: Query, region: Box, r: seq<Candidate>) {
    Sound(index, q, r) &&
    forall id {:trigger InRadius(index, q, id)} | InRadius(index, q, id) ::
      id in Ids(r) || Dismissible(q, region, r, q.metric(q.from, index[id]))
  }

  lemma BeatenDismissible(q: Query, region: Box, r: seq<Candidate>, d: real)
    requires Beaten(r, q.k, d)
    ensures Dismissible(q, region, r, d)
  {
  }

  lemma StaysDismissible(q: Query, region: Box, r: seq<Candidate>, r': seq<Candidate>, d: real)
    requires Dismissible(q, region, r, d) && StaysBeaten(r, r', q.k)
    ensures Dismissible(q, region, r', d)
  {
    forall slack | 0.0 <= slack && BoundsWithin(q.metric, q.from, region, slack)
      ensures Beaten(r', q.k, d + slack) || q.radius < d + slack
    {
      assert Beaten(r, q.k, d + slack) ==> Beaten(r', q.k, d + slack);
    }
  }

  /** Without slack it is the answer. */
  lemma NearlyKnnExact(index: map<Id, Pos>, q: Query, region: Box, r: seq<Candidate>)
    requires NearlyKnn(index, q, region, r) && BoundsWithin(q.metric, q.from, region, 0.0)
    ensures IsKnn(index, q, r)
  {
    forall id | id in index.Keys && InRadius(index, q, id)
      ensures id in Ids(r) || Beaten(r, q.k, q.metric(q.from, index[id]))
    {
      var d := q.metric(q.from, index[id]);
      assert d + 0.0 == d;
    }
    forall id | id in Ids(r) ensures id in index.Keys {
      var i :| 0 <= i < |r| && r[i].id == id;
      assert r[i] in r;
    }
  }

  /** With slack every listed distance is within the slack of the one at its rank in the exact answer, and no
      driver that is clear of the radius by the slack is missing from a list that is not full. */
  lemma NearlyKnnSlack(
      index: map<Id, Pos>, q: Query, region: Box, slack: real, r: seq<Candidate>, exact: seq<Candidate>)
    requires NearlyKnn(index, q, region, r) && IsKnn(index, q, exact) && 0 <= q.k
    requires 0.0 <= slack && BoundsWithin(q.metric, q.from, region, slack)
    ensures |r| <= |exact|
    ensures forall i | 0 <= i < |r| :: exact[i].distance <= r[i].distance <= exact[i].distance + slack
    ensures |r| < q.k ==>
        forall id | InRadius(index, q, id) && q.metric(q.from, index[id]) + slack <= q.radius :: id in Ids(r)
  {
    NotLonger(index, q, r, exact);
    forall i | 0 <= i < |r| ensures exact[i].distance <= r[i].distance <= exact[i].distance + slack {
      SoundNotNearer(index, q, r, exact, i);
      if exact[i].distance + slack < r[i].distance {
        IdsCardinality(exact[..i + 1]);
        IdsCardinality(r[..i]);
        forall id | id in Ids(exact[..i + 1]) ensures id in Ids(r[..i]) {
          var j :| 0 <= j < i + 1 && exact[..i + 1][j].id == id;
          ListedBefore(index, q, region, slack, r, exact, i, j);
        }
        SubsetSmaller(Ids(exact[..i + 1]), Ids(r[..i]));
      }
    }
  }

  lemma NotLonger(index: map<Id, Pos>, q: Query, r: seq<Candidate>, exact: seq<Candidate>)
    requires Sound(index, q, r) && IsKnn(index, q, exact) && 0 <= q.k
    ensures |r| <= |exact|
  {
    KnnLength(index, q, exact);
    IdsCardinality(r);
    forall id | id in Ids(r) ensures id in DriversInRadius(index, q) {
      var i :| 0 <= i < |r| && r[i].id == id;
      assert r[i] in r;
    }
    SubsetSmaller(Ids(r), DriversInRadius(index, q));
  }

  lemma ListedBefore(
    index: map<Id, Pos>, q: Query, region: Box, slack: real, r: seq<Candidate>, exact: seq<Candidate>, i: nat, j: nat)
    requires NearlyKnn(index, q, region, r) && IsKnn(index, q, exact) && j <= i < |r| && i < |exact|
    requires 0.0 <= slack && BoundsWithin(q.metric, q.from, region, slack) && exact[i].distance + slack < r[i].distance
    ensures exact[j].id in Ids(r[..i])
  {
    assert exact[j] in exact && exact[j].distance <= exact[i].distance;
    assert r[i] in r && r[i].distance <= r[|r| - 1].distance;
    assert InRadius(index, q, exact[j].id);
    assert exact[j].id in Ids(r);
    var m :| 0 <= m < |r| && r[m].id == exact[j].id;
    assert r[m] in r;
    assert m < i && r[..i][m] == r[m];
  }

  // ---- How a candidate enters the list ----

  /** The list with `c` at rank `i`, cut back to `k` entries. */
  function Kept(r: seq<Candidate>, c: Candidate, i: nat, k: nat): seq<Candidate>
    requires i <= |r|
  {
    var t := r[..i] + [c] + r[i..];
    if |t| > k then t[..k] else t
  }

  /** Rank `i` keeps the list sorted. */
  ghost predicate FitsAt(r: seq<Candidate>, d: real, i: nat) {
    && i <= |r|
    && (forall j | 0 <= j < i :: r[j].distance <= d)
    && (forall j | i <= j < |r| :: d <= r[j].distance)
  }

  /** The rank behind all equal distances, and the rank before them. */
  function RankAfter(r: seq<Candidate>, d: real): (i: nat)
    ensures i <= |r|
  {
    if r != [] && r[0].distance <= d then 1 + RankAfter(r[1..], d) else 0
  }

  function RankBefore(r: seq<Candidate>, d: real): (i: nat)
    ensures i <= |r|
  {
    if r != [] && r[0].distance < d then 1 + RankBefore(r[1..], d) else 0
  }

  lemma {:induction false} RanksFit(r: seq<Candidate>, d: real)
    requires Sorted(r)
    ensures FitsAt(r, d, RankAfter(r, d)) && FitsAt(r, d, RankBefore(r, d))
    ensures forall j | RankAfter(r, d) <= j < |r| :: d < r[j].distance
    ensures forall j | 0 <= j < RankBefore(r, d) :: r[j].distance < d
  {
    if r != [] {
      RanksFit(r[1..], d);
      forall j | 0 < j < |r| ensures r[j] == r[1..][j - 1] && r[0].distance <= r[j].distance {
      }
    }
  }

  lemma {:induction false} RankAfterIs(r: seq<Candidate>, d: real, i: nat)
    requires i <= |r| && (forall j | 0 <= j < i :: r[j].distance <= d) && (i < |r| ==> d < r[i].distance)
    ensures RankAfter(r, d) == i
  {
    if i > 0 {
      RankAfterIs(r[1..], d, i - 1);
    }
  }

  /** The TypeScript engine's insertion: behind equal distances. */
  method InsertSortedCandidate(candidates: seq<Candidate>, candidate: Candidate, k: nat) returns (r: seq<Candidate>)
    requires 0 < k && |candidates| <= k && Sorted(candidates)
    ensures r == Kept(candidates, candidate, RankAfter(candidates, candidate.distance), k)
  {
    if |candidates| == k && candidate.distance >= candidates[k - 1].distance {
      RankAfterIs(candidates, candidate.distance, k);
      assert Kept(candidates, candidate, k, k) == candidates;
      return candidates;
    }
    var idx := 0;
    while idx < |candidates| && candidates[idx].distance <= candidate.distance
      invariant 0 <= idx <= |candidates|
      invariant forall j | 0 <= j < idx :: candidates[j].distance <= candidate.distance
    {
      idx := idx + 1;
    }
    RankAfterIs(candidates, candidate.distance, idx);
    r := candidates[..idx] + [candidate] + candidates[idx..];
    if |r| > k {
      r := r[..|r| - 1];
    }
  }

  // ---- What insertion keeps ----

  ghost predicate Truthful(index: map<Id, Pos>, q: Query, c: Candidate) {
    c.id in index && index[c.id] == c.At() && c.distance == q.metric(q.from, c.At()) && c.distance <= q.radius
  }

  /** Sorted, with one truthful entry for each of these drivers. */
  ghost predicate Lists(index: map<Id, Pos>, q: Query, r: seq<Candidate>, ids: set<Id>) {
    Sorted(r) && DistinctIds(r) && Ids(r) == ids <= index.Keys && forall c | c in r :: Truthful(index, q, c)
  }

  lemma InsertedLists(index: map<Id, Pos>, q: Query, r: seq<Candidate>, c: Candidate, i: nat)
    requires Sorted(r) && DistinctIds(r) && forall x | x in r :: Truthful(index, q, x)
    requires Truthful(index, q, c) && c.id !in Ids(r) && FitsAt(r, c.distance, i)
    ensures Lists(index, q, r[..i] + [c] + r[i..], Ids(r) + {c.id})
  {
    IdsInsert(r, c, i);
    var t := r[..i] + [c] + r[i..];
    forall j, m | 0 <= j < m < |t| ensures t[j].distance <= t[m].distance && t[j].id != t[m].id {
      assert t[j] == if j < i then r[j] else if j == i then c else r[j - 1];
      assert t[m] == if m < i then r[m] else if m == i then c else r[m - 1];
      assert j != i && m != i ==> t[j].id != t[m].id;
      assert j == i ==> t[m].id in Ids(r);
      assert m == i ==> t[j].id in Ids(r);
    }
    forall x | x in t ensures Truthful(index, q, x) {
      assert x in r || x == c;
    }
    forall id | id in Ids(t) ensures id in index {
      if id != c.id {
        var j :| 0 <= j < |r| && r[j].id == id;
        assert r[j] in r;
      }
    }
  }

  /** Cutting a list loses only drivers that cannot improve what is left. */
  lemma CutLists(index: map<Id, Pos>, q: Query, t: seq<Candidate>, ids: set<Id>)
    requires Lists(index, q, t, ids) && 0 < q.k <= |t|
    ensures Sound(index, q, t[..q.k]) && Ids(t[..q.k]) <= ids
    ensures forall id | id in ids :: id in Ids(t[..q.k]) || Beaten(t[..q.k], q.k, q.metric(q.from, index[id]))
  {
    var kept := t[..q.k];
    forall x | x in kept ensures Truthful(index, q, x) {
      assert x in t;
    }
    forall id | id in Ids(kept) ensures id in ids {
      var j :| 0 <= j < |kept| && kept[j].id == id;
      assert t[j] == kept[j];
    }
    forall id | id in ids ensures id in Ids(kept) || Beaten(kept, q.k, q.metric(q.from, index[id])) {
      assert id in Ids(t);
      var j :| 0 <= j < |t| && t[j].id == id;
      assert t[j] in t && kept[q.k - 1] == t[q.k - 1];
      assert j < q.k ==> kept[j] == t[j];
    }
  }

  /** A list with one more truthful entry at a fitting rank is the best of one more driver. */
  lemma KeptKeepsBest(seen: set<Id>, index: map<Id, Pos>, q: Query, r: seq<Candidate>, c: Candidate, i: nat)
    requires BestOf(seen, index, q, r) && 0 < q.k && |r| <= q.k
    requires Truthful(index, q, c) && c.id !in seen && FitsAt(r, c.distance, i)
    ensures BestOf(seen + {c.id}, index, q, Kept(r, c, i, q.k))
  {
    var t, kept := r[..i] + [c] + r[i..], Kept(r, c, i, q.k);
    InsertedLists(index, q, r, c, i);
    if q.k <= |t| {
      CutLists(index, q, t, Ids(r) + {c.id});
      assert t[..q.k] == kept;
    }
    forall id | id in seen && InRadius(index, q, id) && id !in Ids(r)
      ensures Beaten(kept, q.k, q.metric(q.from, index[id]))
    {
      assert kept[q.k - 1] == t[q.k - 1] && t[q.k - 1].distance <= r[q.k - 1].distance;
    }
  }

  lemma IdsInsert(r: seq<Candidate>, c: Candidate, i: nat)
    requires i <= |r|
    ensures Ids(r[..i] + [c] + r[i..]) == Ids(r) + {c.id}
  {
    var t := r[..i] + [c] + r[i..];
    forall id | id in Ids(t) ensures id in Ids(r) + {c.id} {
      var j :| 0 <= j < |t| && t[j].id == id;
      assert t[j] == if j < i then r[j] else if j == i then c else r[j - 1];
    }
    forall id | id in Ids(r) + {c.id} ensures id in Ids(t) {
      if id == c.id {
        assert t[i] == c;
      } else {
        var j :| 0 <= j < |r| && r[j].id == id;
        assert t[if j < i then j else j + 1] == r[j];
      }
    }
  }

  /** A driver that is out of radius, or cannot improve a full list, may be skipped. */
  lemma SkipKeepsBest(seen: set<Id>, index: map<Id, Pos>, q: Query, r: seq<Candidate>, id: Id)
    requires BestOf(seen, index, q, r)
    requires InRadius(index, q, id) ==> Beaten(r, q.k, q.metric(q.from, index[id]))
    ensures BestOf(seen + {id}, index, q, r)
  {
  }

  /** Nothing that was beaten stops being beaten when a list takes in another candidate. */
  ghost predicate StaysBeaten(r: seq<Candidate>, r': seq<Candidate>, k: int) {
    forall d: real {:trigger Beaten(r, k, d)} {:trigger Beaten(r', k, d)} :: Beaten(r, k, d) ==> Beaten(r', k, d)
  }

  lemma KeptStaysBeaten(r: seq<Candidate>, c: Candidate, i: nat, k: nat)
    requires Sorted(r) && FitsAt(r, c.distance, i) && 0 < k && |r| <= k
    ensures StaysBeaten(r, Kept(r, c, i, k), k)
  {
    var t := r[..i] + [c] + r[i..];
    if |r| == k {
      assert t[k - 1].distance <= r[k - 1].distance;
    }
  }

  /** One driver of a leaf, as the TypeScript engine looks at it. */
  method Consider(ghost index: map<Id, Pos>, ghost seen: set<Id>, q: Query, candidates: seq<Candidate>, id: Id,
    lat: real, lng: real)
    returns (r: seq<Candidate>)
    requires 0 < q.k && |candidates| <= q.k && BestOf(seen, index, q, candidates)
    requires id in index && index[id] == Pos(lat, lng) && id !in seen
    ensures |r| <= q.k && BestOf(seen + {id}, index, q, r) && StaysBeaten(candidates, r, q.k)
  {
    var dist := q.metric(q.from, Pos(lat, lng));
    if dist <= q.radius {
      var c := Candidate(id, lat, lng, dist);
      RanksFit(candidates, dist);
      KeptKeepsBest(seen, index, q, candidates, c, RankAfter(candidates, dist));
      KeptStaysBeaten(candidates, c, RankAfter(candidates, dist), q.k);
      r := InsertSortedCandidate(candidates, c, q.k);
    } else {
      SkipKeepsBest(seen, index, q, candidates, id);
      r := candidates;
    }
  }

  /** One driver of a leaf, as the C++ engine looks at it. */
  method CppConsider(ghost index: map<Id, Pos>, ghost seen: set<Id>, q: Query, candidates: seq<Candidate>, id: Id,
    lat: real, lng: real)
    returns (r: seq<Candidate>)
    requires 0 < q.k && |candidates| <= q.k && BestOf(seen, index, q, candidates)
    requires id in index && index[id] == Pos(lat, lng) && id !in seen
    ensures |r| <= q.k && BestOf(seen + {id}, index, q, r) && StaysBeaten(candidates, r, q.k)
  {
    var d := q.metric(q.from, Pos(lat, lng));
    r := candidates;
    if d <= q.radius && (|candidates| < q.k || (candidates != [] && d < candidates[|candidates| - 1].distance)) {
      var c := Candidate(id, lat, lng, d);
      RanksFit(candidates, d);
      KeptKeepsBest(seen, index, q, candidates, c, RankBefore(candidates, d));
      KeptStaysBeaten(candidates, c, RankBefore(candidates, d), q.k);
      r := Kept(candidates, c, RankBefore(candidates, d), q.k);
    } else {
      SkipKeepsBest(seen, index, q, candidates, id);
    }
  }
}
