/** The binary heap behind best-first search: an array-backed heap over any comparison function. */
module MinHeap {

  datatype Option<+T> = None | Some(value: T)

  class MinHeap<T> {
    const compare: (T, T) -> real
    var heap: seq<T>

    constructor (compare: (T, T) -> real)
      ensures Valid() && heap == [] && this.compare == compare
    {
      this.compare := compare;
      heap := [];
    }

    /** The comparison orders these values: its sign is antisymmetric and it is transitive. */
    ghost predicate Orders(bag: multiset<T>) {
      forall a, b, c {:trigger Related(a, b, c)} | a in bag && b in bag && c in bag ::
        && (compare(a, b) >= 0.0 <==> compare(b, a) <= 0.0)
        && (compare(a, b) <= 0.0 && compare(b, c) <= 0.0 ==> compare(a, c) <= 0.0)
    }

    /** Names three values the order is to be used on. */
    ghost predicate Related(a: T, b: T, c: T) {
      true
    }

    lemma Order(xs: seq<T>, i: nat, j: nat, k: nat)
      requires Orders(multiset(xs)) && i < |xs| && j < |xs| && k < |xs|
      ensures compare(xs[i], xs[i]) <= 0.0
      ensures compare(xs[i], xs[j]) >= 0.0 ==> compare(xs[j], xs[i]) <= 0.0
      ensures compare(xs[i], xs[j]) <= 0.0 && compare(xs[j], xs[k]) <= 0.0 ==> compare(xs[i], xs[k]) <= 0.0
    {
      assert xs[i] in multiset(xs) && xs[j] in multiset(xs) && xs[k] in multiset(xs);
      assert Related(xs[i], xs[j], xs[k]) && Related(xs[i], xs[i], xs[i]);
    }

    lemma OrdersFewer(bag: multiset<T>, fewer: multiset<T>)
      requires Orders(bag) && fewer <= bag
      ensures Orders(fewer)
    {
      forall a, b, c | a in fewer && b in fewer && c in fewer
        ensures compare(a, b) >= 0.0 <==> compare(b, a) <= 0.0
        ensures compare(a, b) <= 0.0 && compare(b, c) <= 0.0 ==> compare(a, c) <= 0.0
      {
        assert Related(a, b, c);
      }
    }

    /** Dropping the first element and moving the last one to its place. */
    static lemma LastToFront(xs: seq<T>)
      requires |xs| > 0
      ensures multiset(xs[1..]) == multiset(xs) - multiset{xs[0]}
      ensures |xs| > 1 ==> multiset([xs[|xs| - 1]] + xs[1..|xs| - 1]) == multiset(xs) - multiset{xs[0]}
    {
      assert xs == [xs[0]] + xs[1..];
      if |xs| > 1 {
        assert xs[1..] == xs[1..|xs| - 1] + [xs[|xs| - 1]];
      }
    }

    static function Parent(j: nat): nat
      requires 0 < j
    {
      (j - 1) / 2
    }

    ghost predicate Edge(xs: seq<T>, j: nat)
      requires 0 < j < |xs|
    {
      compare(xs[Parent(j)], xs[j]) <= 0.0
    }

    /** A heap but for the edge above `hole`. */
    ghost predicate HeapBelow(xs: seq<T>, hole: nat) {
      && (forall j: nat {:trigger Edge(xs, j)} | 0 < j < |xs| && j != hole :: Edge(xs, j))
      && (forall j: nat {:trigger Bridge(xs, hole, j)} | 0 < j < |xs| && Parent(j) == hole < |xs| && 0 < hole ::
        Bridge(xs, hole, j))
    }

    /** A heap but for the edges below `hole`. */
    ghost predicate HeapAbove(xs: seq<T>, hole: nat) {
      && (forall j: nat {:trigger Edge(xs, j)} | 0 < j < |xs| && Parent(j) != hole :: Edge(xs, j))
      && (forall j: nat {:trigger Bridge(xs, hole, j)} | 0 < j < |xs| && Parent(j) == hole < |xs| && 0 < hole ::
        Bridge(xs, hole, j))
    }

    /** The parent of the hole is in order with a child of the hole. */
    ghost predicate Bridge(xs: seq<T>, hole: nat, j: nat)
      requires 0 < hole < |xs| && j < |xs|
    {
      compare(xs[Parent(hole)], xs[j]) <= 0.0
    }

    ghost predicate IsHeap(xs: seq<T>) {
      forall j: nat {:trigger Edge(xs, j)} | 0 < j < |xs| :: Edge(xs, j)
    }

    ghost predicate Valid()
      reads this
    {
      Orders(multiset(heap)) && IsHeap(heap)
    }

    /** The first element of a heap is a least one. */
    lemma {:induction false} FirstIsLeast(xs: seq<T>, j: nat)
      requires Orders(multiset(xs)) && IsHeap(xs) && j < |xs|
      ensures compare(xs[0], xs[j]) <= 0.0
    {
      if j == 0 {
        Order(xs, 0, 0, 0);
      } else {
        FirstIsLeast(xs, Parent(j));
        assert Edge(xs, j);
        Order(xs, 0, Parent(j), j);
      }
    }

    static function Swap(xs: seq<T>, i: nat, j: nat): (ys: seq<T>)
      requires i < |xs| && j < |xs|
      ensures multiset(ys) == multiset(xs)
    {
      xs[i := xs[j]][j := xs[i]]
    }

    lemma LiftStep(xs: seq<T>, i: nat)
      requires Orders(multiset(xs)) && 0 < i < |xs| && HeapBelow(xs, i) && compare(xs[i], xs[Parent(i)]) < 0.0
      ensures HeapBelow(Swap(xs, i, Parent(i)), Parent(i))
    {
      var p, ys := Parent(i), Swap(xs, i, Parent(i));
      forall j: nat | 0 < j < |ys| && j != p ensures Edge(ys, j) {
        if j != i && Parent(j) == i {
          assert Bridge(xs, i, j);
        } else if j != i {
          assert Edge(xs, j);
          Order(xs, i, p, j);
        }
      }
      forall j: nat | 0 < j < |ys| && Parent(j) == p < |ys| && 0 < p ensures Bridge(ys, p, j) {
        assert Edge(xs, p);
        if j != i {
          assert Edge(xs, j);
          Order(xs, Parent(p), p, j);
        }
      }
    }

    lemma SinkStep(xs: seq<T>, i: nat, c: nat)
      requires Orders(multiset(xs)) && 0 < c < |xs| && Parent(c) == i && HeapAbove(xs, i)
      requires compare(xs[c], xs[i]) <= 0.0
      requires forall j: nat | 0 < j < |xs| && Parent(j) == i :: compare(xs[c], xs[j]) <= 0.0
      ensures HeapAbove(Swap(xs, i, c), c)
    {
      var ys := Swap(xs, i, c);
      forall j: nat | 0 < j < |ys| && Parent(j) != c ensures Edge(ys, j) {
        if j == i {
          assert Bridge(xs, i, c);
        } else if Parent(j) != i {
          assert Edge(xs, j);
        }
      }
      forall j: nat | 0 < j < |ys| && Parent(j) == c < |ys| && 0 < c ensures Bridge(ys, c, j) {
        assert Edge(xs, j);
      }
    }

    method Push(value: T)
      requires Valid() && Orders(multiset(heap) + multiset{value})
      modifies this
      ensures Valid() && multiset(heap) == old(multiset(heap)) + multiset{value}
    {
      heap := heap + [value];
      forall j: nat | 0 < j < |heap| && j != |heap| - 1 ensures Edge(heap, j) {
        assert old(Edge(heap, j));
      }
      BubbleUp(|heap| - 1);
    }

    method Pop() returns (top: Option<T>)
      requires Valid()
      modifies this
      ensures Valid() && (top == None <==> old(heap) == []) && (top == None ==> heap == [])
      ensures top.Some? ==>
                && top.value in old(heap) && multiset(heap) == old(multiset(heap)) - multiset{top.value}
                && forall x | x in old(heap) :: compare(top.value, x) <= 0.0
    {
      if |heap| == 0 {
        return None;
      }
      forall x | x in heap ensures compare(heap[0], x) <= 0.0 {
        var j :| 0 <= j < |heap| && heap[j] == x;
        FirstIsLeast(heap, j);
      }
      top := Some(heap[0]);
      RemoveFirst();
    }

    /** The last element takes the place of the first and sinks. */
    method RemoveFirst()
      requires Valid() && heap != []
      modifies this
      ensures Valid() && multiset(heap) == old(multiset(heap)) - multiset{old(heap[0])}
    {
      LastToFront(heap);
      OrdersFewer(multiset(heap), multiset(heap) - multiset{heap[0]});
      var last := heap[|heap| - 1];
      if |heap| == 1 {
        heap := [];
      } else {
        heap := [last] + heap[1..|heap| - 1];
        EdgesBelowFirst(old(heap), heap);
        BubbleDown();
      }
    }

    /** Away from its first element the shortened list is the old one. */
    lemma EdgesBelowFirst(xs: seq<T>, ys: seq<T>)
      requires 1 < |xs| && ys == [xs[|xs| - 1]] + xs[1..|xs| - 1]
      requires forall j: nat {:trigger Edge(xs, j)} | 0 < j < |xs| :: Edge(xs, j)
      ensures forall j: nat {:trigger Edge(ys, j)} | 0 < j < |ys| && Parent(j) != 0 :: Edge(ys, j)
    {
      forall j: nat | 0 < j < |ys| && Parent(j) != 0 ensures Edge(ys, j) {
        assert Edge(xs, j);
      }
    }

    method BubbleUp(start: nat)
      requires start == |heap| - 1 && Orders(multiset(heap))
      requires forall j: nat {:trigger Edge(heap, j)} | 0 < j < |heap| && j != start :: Edge(heap, j)
      modifies this
      ensures Valid() && multiset(heap) == old(multiset(heap))
    {
      var index := start;
      while index > 0
        invariant 0 <= index < |heap| && multiset(heap) == old(multiset(heap)) && HeapBelow(heap, index)
      {
        var parent := (index - 1) / 2;
        Order(heap, index, parent, parent);
        if compare(heap[index], heap[parent]) >= 0.0 {
          break;
        }
        LiftStep(heap, index);
        heap := Swap(heap, index, parent);
        index := parent;
      }
    }

    method BubbleDown()
      requires heap != [] && Orders(multiset(heap))
      requires forall j: nat {:trigger Edge(heap, j)} | 0 < j < |heap| && Parent(j) != 0 :: Edge(heap, j)
      modifies this
      ensures Valid() && multiset(heap) == old(multiset(heap))
    {
      var index, length := 0, |heap|;
      while true
        invariant 0 <= index < length == |heap| && multiset(heap) == old(multiset(heap)) && HeapAbove(heap, index)
        decreases length - index
      {
        var left, right, smallest := index * 2 + 1, index * 2 + 2, index;
        if left < length && compare(heap[left], heap[smallest]) < 0.0 {
          smallest := left;
        }
        if right < length && compare(heap[right], heap[smallest]) < 0.0 {
          smallest := right;
        }
        SmallestOfThree(heap, index, smallest);
        if smallest == index {
          break;
        }
        SinkStep(heap, index, smallest);
        heap := Swap(heap, index, smallest);
        index := smallest;
      }
    }

    /** The two comparisons find the least of a node and its children. */
    lemma SmallestOfThree(xs: seq<T>, i: nat, c: nat)
      requires Orders(multiset(xs)) && i < |xs|
      requires
        var left, right := i * 2 + 1, i * 2 + 2;
        var first := if left < |xs| && compare(xs[left], xs[i]) < 0.0 then left else i;
        c == if right < |xs| && compare(xs[right], xs[first]) < 0.0 then right else first
      ensures c < |xs| && compare(xs[c], xs[i]) <= 0.0 && (c == i || (0 < c && Parent(c) == i))
      ensures forall j: nat | 0 < j < |xs| && Parent(j) == i :: compare(xs[c], xs[j]) <= 0.0
    {
      forall j: nat | 0 < j < |xs| && Parent(j) == i ensures compare(xs[c], xs[j]) <= 0.0 {
        var left := i * 2 + 1;
        assert j == left || j == left + 1;
        Order(xs, left, i, i);
        Order(xs, c, j, i);
        Order(xs, j, c, i);
        if c == left + 1 {
          Order(xs, c, left, i);
          Order(xs, c, i, left);
        }
        if left + 1 < |xs| {
          Order(xs, left + 1, left, i);
          Order(xs, left + 1, i, i);
        }
      }
      Order(xs, i, i, i);
      if c == i * 2 + 2 {
        Order(xs, c, i * 2 + 1, i);
      }
    }
  }
}
