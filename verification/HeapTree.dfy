/** The ranking contract of LocRankable: rank > 0 means "ranks higher than". */
module Ranking {
  predicate OutRanks<T>(rk: (T, T) -> int, a: T, b: T) {
    rk(a, b) > 0
  }

  /** What a heap needs of its ranking: "is not outranked by" is a total preorder. */
  ghost predicate WeakOrder<T(!new)>(rk: (T, T) -> int) {
    && (forall a, b :: OutRanks(rk, a, b) ==> !OutRanks(rk, b, a))
    && (forall a, b, c :: !OutRanks(rk, b, a) && !OutRanks(rk, c, b) ==> !OutRanks(rk, c, a))
  }

  /** No later entry outranks an earlier one. */
  ghost predicate RankSorted<T>(rk: (T, T) -> int, s: seq<T>) {
    forall i, j :: 0 <= i < j < |s| ==> !OutRanks(rk, s[j], s[i])
  }
}

/**
 The heap as a value. A node carries the identity `at` of the object that holds it, so that a
 statement about trees is also a statement about which object sits where.
 */
module HeapTree {
  import opened Ranking

  datatype Tree<N, T> = Nil | Node(at: N, left: Tree<N, T>, data: T, size: int, right: Tree<N, T>)

  // ---------- what a tree holds ----------

  function Count<N, T>(t: Tree<N, T>): nat {
    if t.Nil? then 0 else Count(t.left) + 1 + Count(t.right)
  }

  ghost function Contents<N, T>(t: Tree<N, T>): multiset<T> {
    if t.Nil? then multiset{} else Contents(t.left) + multiset{t.data} + Contents(t.right)
  }

  ghost function Nodes<N, T>(t: Tree<N, T>): set<N> {
    if t.Nil? then {} else Nodes(t.left) + {t.at} + Nodes(t.right)
  }

  lemma SubNodes<N, T>(t: Tree<N, T>)
    requires t.Node?
    ensures Nodes(t.left) <= Nodes(t) && Nodes(t.right) <= Nodes(t) && t.at in Nodes(t)
  {
  }

  function Height<N, T>(t: Tree<N, T>): nat {
    if t.Nil? then 0 else 1 + if Height(t.left) >= Height(t.right) then Height(t.left) else Height(t.right)
  }

  /** The subtree reached by a path; false goes left, true goes right. */
  function Sub<N, T>(t: Tree<N, T>, path: seq<bool>): Tree<N, T> {
    if t.Nil? || path == [] then t else Sub(if path[0] then t.right else t.left, path[1..])
  }

  // ---------- what a tree has to satisfy ----------

  /** The top of t, if any, does not outrank d. */
  predicate Under<N, T>(rk: (T, T) -> int, t: Tree<N, T>, d: T) {
    t.Node? ==> !OutRanks(rk, t.data, d)
  }

  predicate IsHeap<N, T>(rk: (T, T) -> int, t: Tree<N, T>) {
    t.Node? ==>
      && Under(rk, t.left, t.data) && Under(rk, t.right, t.data)
      && IsHeap(rk, t.left) && IsHeap(rk, t.right)
  }

  predicate SizesOk<N, T>(t: Tree<N, T>) {
    t.Node? ==> t.size == Count(t) && SizesOk(t.left) && SizesOk(t.right)
  }

  /** At every node the left subtree has as many nodes as the right one, or one more. */
  predicate Balanced<N, T>(t: Tree<N, T>) {
    t.Node? ==>
      && 0 <= Count(t.left) - Count(t.right) <= 1
      && Balanced(t.left) && Balanced(t.right)
  }

  /** No object occurs twice as a node. */
  ghost predicate NodesDistinct<N, T>(t: Tree<N, T>) {
    t.Node? ==>
      && t.at !in Nodes(t.left) && t.at !in Nodes(t.right) && Nodes(t.left) !! Nodes(t.right)
      && NodesDistinct(t.left) && NodesDistinct(t.right)
  }

  /** What every operation keeps. */
  ghost predicate Proper<N, T>(rk: (T, T) -> int, t: Tree<N, T>) {
    IsHeap(rk, t) && SizesOk(t) && NodesDistinct(t)
  }

  // ---------- the four operations ----------

  function Push<N, T>(rk: (T, T) -> int, t: Tree<N, T>, n: N, d: T): (r: Tree<N, T>)
    ensures r.Node?
  {
    if t.Nil? then Node(n, Nil, d, 1, Nil)
    else
      var up := OutRanks(rk, d, t.data);
      var hi := if up then d else t.data;
      var lo := if up then t.data else d;
      if t.left.Nil? || (t.right.Node? && t.left.size <= t.right.size)
      then Node(t.at, Push(rk, t.left, n, lo), hi, t.size + 1, t.right)
      else Node(t.at, t.left, hi, t.size + 1, Push(rk, t.right, n, lo))
  }

  /** Whether pop continues in the left subtree. */
  predicate GoesLeft<N, T>(rk: (T, T) -> int, t: Tree<N, T>)
    requires t.Node? && (t.left.Node? || t.right.Node?)
  {
    t.left.Node? && (t.right.Nil? || OutRanks(rk, t.left.data, t.right.data))
  }

  /** The subtree pop continues in, once the data on its way out has been swapped into its top. */
  function Swapped<N, T>(rk: (T, T) -> int, t: Tree<N, T>): (r: Tree<N, T>)
    requires t.Node? && (t.left.Node? || t.right.Node?)
    ensures r.Node? && r.data == t.data
    ensures Count(r) == Count(if GoesLeft(rk, t) then t.left else t.right) < Count(t)
  {
    if GoesLeft(rk, t) then t.left.(data := t.data) else t.right.(data := t.data)
  }

  /** What is left of t when its top data is swapped down to a leaf and that leaf is cut off. */
  function Pop<N, T>(rk: (T, T) -> int, t: Tree<N, T>): (r: Tree<N, T>)
    requires t.Node?
    ensures Count(r) == Count(t) - 1
    decreases Count(t)
  {
    if t.left.Nil? && t.right.Nil? then Nil
    else if GoesLeft(rk, t)
    then Node(t.at, Pop(rk, Swapped(rk, t)), t.left.data, t.size - 1, t.right)
    else Node(t.at, t.left, t.right.data, t.size - 1, Pop(rk, Swapped(rk, t)))
  }

  /** The way to the leaf that Pop cuts off. */
  function PopPath<N, T>(rk: (T, T) -> int, t: Tree<N, T>): seq<bool>
    requires t.Node?
    decreases Count(t)
  {
    if t.left.Nil? && t.right.Nil? then []
    else [!GoesLeft(rk, t)] + PopPath(rk, Swapped(rk, t))
  }

  /** The node object that Pop cuts off. */
  function PopNode<N, T>(rk: (T, T) -> int, t: Tree<N, T>): N
    requires t.Node?
    decreases Count(t)
  {
    if t.left.Nil? && t.right.Nil? then t.at
    else PopNode(rk, Swapped(rk, t))
  }

  /** The identity search of remove: whether it finds d, given that it skips what d outranks. */
  predicate Finds<N, T(==)>(rk: (T, T) -> int, t: Tree<N, T>, d: T) {
    t.Node? &&
    (t.data == d || (!OutRanks(rk, d, t.data) && (Finds(rk, t.left, d) || Finds(rk, t.right, d))))
  }

  function Remove<N, T(==)>(rk: (T, T) -> int, t: Tree<N, T>, d: T): Tree<N, T> {
    if !Finds(rk, t, d) then t
    else if t.data == d then Pop(rk, t)
    else if Finds(rk, t.left, d) then Node(t.at, Remove(rk, t.left, d), t.data, t.size - 1, t.right)
    else Node(t.at, t.left, t.data, t.size - 1, Remove(rk, t.right, d))
  }

  /** The node object that Remove cuts off. */
  function RemovedNode<N, T(==)>(rk: (T, T) -> int, t: Tree<N, T>, d: T): N
    requires Finds(rk, t, d)
  {
    if t.data == d then PopNode(rk, t)
    else if Finds(rk, t.left, d) then RemovedNode(rk, t.left, d)
    else RemovedNode(rk, t.right, d)
  }

  function CheckNodes<N, T>(rk: (T, T) -> int, t: Tree<N, T>): bool
    requires t.Node?
  {
    && (t.left.Node? ==> !OutRanks(rk, t.left.data, t.data) && CheckNodes(rk, t.left))
    && (t.right.Node? ==> !OutRanks(rk, t.right.data, t.data) && CheckNodes(rk, t.right))
    && t.size - (if t.left.Node? then t.left.size else 0)
              - (if t.right.Node? then t.right.size else 0) == 1
  }

  // ---------- the top ----------

  /** The top of a heap is outranked by nothing in it. */
  lemma {:induction false} TopIsHighest<N, T(!new)>(rk: (T, T) -> int, t: Tree<N, T>, x: T)
    requires WeakOrder(rk) && IsHeap(rk, t) && x in Contents(t)
    ensures !OutRanks(rk, x, t.data)
  {
    if x in Contents(t.left) {
      TopIsHighest(rk, t.left, x);
    } else if x in Contents(t.right) {
      TopIsHighest(rk, t.right, x);
    }
  }

  // ---------- push ----------

  lemma {:induction false} PushKeepsHeap<N, T(!new)>(rk: (T, T) -> int, t: Tree<N, T>, n: N, d: T)
    requires WeakOrder(rk) && IsHeap(rk, t)
    ensures IsHeap(rk, Push(rk, t, n, d))
    ensures Push(rk, t, n, d).data == if t.Node? && !OutRanks(rk, d, t.data) then t.data else d
  {
    if t.Node? {
      var lo := if OutRanks(rk, d, t.data) then t.data else d;
      PushKeepsHeap(rk, t.left, n, lo);
      PushKeepsHeap(rk, t.right, n, lo);
    }
  }

  /** How often x occurs in t. */
  ghost function Occurs<N, T>(t: Tree<N, T>, x: T): nat {
    if t.Nil? then 0
    else Occurs(t.left, x) + (if x == t.data then 1 else 0) + Occurs(t.right, x)
  }

  lemma {:induction false} OccursIsMultiplicity<N, T>(t: Tree<N, T>, x: T)
    ensures Contents(t)[x] == Occurs(t, x)
  {
    if t.Node? {
      OccursIsMultiplicity(t.left, x);
      OccursIsMultiplicity(t.right, x);
    }
  }

  lemma {:induction false} PushOccurs<N, T>(rk: (T, T) -> int, t: Tree<N, T>, n: N, d: T, x: T)
    ensures Occurs(Push(rk, t, n, d), x) == Occurs(t, x) + (if x == d then 1 else 0)
    ensures Count(Push(rk, t, n, d)) == Count(t) + 1
  {
    if t.Node? {
      var lo := if OutRanks(rk, d, t.data) then t.data else d;
      PushOccurs(rk, t.left, n, lo, x);
      PushOccurs(rk, t.right, n, lo, x);
    }
  }

  lemma SameMultiplicities<T>(a: multiset<T>, b: multiset<T>)
    requires forall x :: a[x] == b[x]
    ensures a == b
  {
  }

  lemma PushAddsOne<N, T>(rk: (T, T) -> int, t: Tree<N, T>, n: N, d: T)
    ensures Count(Push(rk, t, n, d)) == Count(t) + 1
    ensures Contents(Push(rk, t, n, d)) == Contents(t) + multiset{d}
  {
    PushOccurs(rk, t, n, d, d);
    var before, after := Contents(t), Contents(Push(rk, t, n, d));
    forall x ensures after[x] == (before + multiset{d})[x] {
      PushOccurs(rk, t, n, d, x);
      OccursIsMultiplicity(t, x);
      OccursIsMultiplicity(Push(rk, t, n, d), x);
    }
    SameMultiplicities(after, before + multiset{d});
  }

  lemma {:induction false} PushKeepsNodes<N, T>(rk: (T, T) -> int, t: Tree<N, T>, n: N, d: T)
    requires NodesDistinct(t) && n !in Nodes(t)
    ensures Nodes(Push(rk, t, n, d)) == Nodes(t) + {n}
    ensures NodesDistinct(Push(rk, t, n, d))
  {
    if t.Node? {
      var lo := if OutRanks(rk, d, t.data) then t.data else d;
      PushKeepsNodes(rk, t.left, n, lo);
      PushKeepsNodes(rk, t.right, n, lo);
    }
  }

  lemma {:induction false} PushKeepsSizes<N, T>(rk: (T, T) -> int, t: Tree<N, T>, n: N, d: T)
    requires SizesOk(t)
    ensures SizesOk(Push(rk, t, n, d))
  {
    PushAddsOne(rk, t, n, d);
    if t.Node? {
      var lo := if OutRanks(rk, d, t.data) then t.data else d;
      PushKeepsSizes(rk, t.left, n, lo);
      PushKeepsSizes(rk, t.right, n, lo);
    }
  }

  /** Push changes no link: every node stays at its place, and one new place holds n. */
  lemma {:induction false} PushKeepsPlaces<N, T>(rk: (T, T) -> int, t: Tree<N, T>, n: N, d: T, path: seq<bool>)
    requires Sub(t, path).Node?
    ensures Sub(Push(rk, t, n, d), path).Node?
    ensures Sub(Push(rk, t, n, d), path).at == Sub(t, path).at
  {
    if path != [] {
      var lo := if OutRanks(rk, d, t.data) then t.data else d;
      PushKeepsPlaces(rk, if path[0] then t.right else t.left, n, lo, path[1..]);
    }
  }

  lemma {:induction false} PushKeepsBalance<N, T>(rk: (T, T) -> int, t: Tree<N, T>, n: N, d: T)
    requires SizesOk(t) && Balanced(t)
    ensures Balanced(Push(rk, t, n, d))
  {
    if t.Node? {
      var lo := if OutRanks(rk, d, t.data) then t.data else d;
      PushAddsOne(rk, t.left, n, lo);
      PushAddsOne(rk, t.right, n, lo);
      PushKeepsBalance(rk, t.left, n, lo);
      PushKeepsBalance(rk, t.right, n, lo);
    }
  }

  function Pow2(n: nat): (p: nat)
    ensures p >= 1
  {
    if n == 0 then 1 else 2 * Pow2(n - 1)
  }

  lemma {:induction false} Pow2Monotone(a: nat, b: nat)
    requires a <= b
    ensures Pow2(a) <= Pow2(b)
  {
    if a < b {
      Pow2Monotone(a, b - 1);
    }
  }

  /** A balanced tree is as low as its size allows: height is floor(log2 size) + 1. */
  lemma {:induction false} BalancedIsLow<N, T>(t: Tree<N, T>)
    requires Balanced(t) && t.Node?
    ensures Pow2(Height(t) - 1) <= Count(t) < Pow2(Height(t))
  {
    if t.left.Node? {
      BalancedIsLow(t.left);
    }
    if t.right.Node? {
      BalancedIsLow(t.right);
      if Height(t.left) < Height(t.right) {
        Pow2Monotone(Height(t.left), Height(t.right) - 1);
      }
    }
  }

  // ---------- pop ----------

  /**
   The subtrees have to be heaps, the top may hold any data: that is the situation in the
   recursive calls, where the data on its way out has just been swapped into the top.
   */
  lemma {:induction false} PopKeepsHeap<N, T(!new)>(rk: (T, T) -> int, t: Tree<N, T>)
    requires WeakOrder(rk) && t.Node? && IsHeap(rk, t.left) && IsHeap(rk, t.right)
    ensures IsHeap(rk, Pop(rk, t))
    ensures Pop(rk, t).Node? ==>
              && (t.left.Node? ==> !OutRanks(rk, t.left.data, Pop(rk, t).data))
              && (t.right.Node? ==> !OutRanks(rk, t.right.data, Pop(rk, t).data))
              && ((t.left.Node? && Pop(rk, t).data == t.left.data)
                  || (t.right.Node? && Pop(rk, t).data == t.right.data))
    decreases Count(t)
  {
    if t.left.Nil? && t.right.Nil? {
    } else {
      PopKeepsHeap(rk, Swapped(rk, t));
    }
  }

  lemma {:induction false} PopOccurs<N, T>(rk: (T, T) -> int, t: Tree<N, T>, x: T)
    requires t.Node?
    ensures Occurs(Pop(rk, t), x) == Occurs(t.left, x) + Occurs(t.right, x)
    decreases Count(t)
  {
    if t.left.Nil? && t.right.Nil? {
    } else {
      PopOccurs(rk, Swapped(rk, t), x);
    }
  }

  lemma PopRemovesTop<N, T>(rk: (T, T) -> int, t: Tree<N, T>)
    requires t.Node?
    ensures Contents(t) == Contents(Pop(rk, t)) + multiset{t.data}
  {
    var before, after := Contents(t), Contents(Pop(rk, t));
    forall x ensures before[x] == (after + multiset{t.data})[x] {
      PopOccurs(rk, t, x);
      OccursIsMultiplicity(t, x);
      OccursIsMultiplicity(Pop(rk, t), x);
    }
    SameMultiplicities(before, after + multiset{t.data});
  }

  lemma {:induction false} PopKeepsSizes<N, T>(rk: (T, T) -> int, t: Tree<N, T>)
    requires t.Node? && SizesOk(t)
    ensures SizesOk(Pop(rk, t))
    decreases Count(t)
  {
    if t.left.Nil? && t.right.Nil? {
    } else {
      PopKeepsSizes(rk, Swapped(rk, t));
    }
  }

  /** The place that pop empties is a leaf, and the node there is the one handed out. */
  lemma {:induction false} PopCutsALeaf<N, T>(rk: (T, T) -> int, t: Tree<N, T>)
    requires t.Node?
    ensures var leaf := Sub(t, PopPath(rk, t));
            leaf.Node? && leaf.left.Nil? && leaf.right.Nil? && leaf.at == PopNode(rk, t)
    ensures Sub(Pop(rk, t), PopPath(rk, t)).Nil?
    decreases Count(t)
  {
    if t.left.Nil? && t.right.Nil? {
    } else {
      var sub := if GoesLeft(rk, t) then t.left else t.right;
      var moved := Swapped(rk, t);
      PopCutsALeaf(rk, moved);
      SubIgnoresTopData(sub, t.data, PopPath(rk, moved));
      assert PopPath(rk, t)[1..] == PopPath(rk, moved);
    }
  }

  /** Overwriting the top data changes neither the shape nor the objects. */
  lemma {:induction false} SubIgnoresTopData<N, T>(t: Tree<N, T>, d: T, path: seq<bool>)
    requires t.Node?
    ensures path != [] ==> Sub(t.(data := d), path) == Sub(t, path)
    ensures path == [] ==> Sub(t.(data := d), path) == t.(data := d) && Sub(t, path) == t
  {
  }

  /** Every other node keeps its place. */
  lemma {:induction false} PopKeepsPlaces<N, T>(rk: (T, T) -> int, t: Tree<N, T>, path: seq<bool>)
    requires t.Node? && Sub(t, path).Node? && path != PopPath(rk, t)
    ensures Sub(Pop(rk, t), path).Node? && Sub(Pop(rk, t), path).at == Sub(t, path).at
    decreases Count(t)
  {
    if t.left.Nil? && t.right.Nil? {
      assert Sub(if path[0] then t.right else t.left, path[1..]).Nil?;
    } else if path != [] && path[0] == !GoesLeft(rk, t) {
      var sub := if GoesLeft(rk, t) then t.left else t.right;
      SubIgnoresTopData(sub, t.data, path[1..]);
      var moved := Swapped(rk, t);
      assert path == [path[0]] + path[1..];
      PopKeepsPlaces(rk, moved, path[1..]);
    }
  }

  /** The node cut off was part of the tree and no longer is; the others still are. */
  lemma {:induction false} PopKeepsNodes<N, T>(rk: (T, T) -> int, t: Tree<N, T>)
    requires t.Node? && NodesDistinct(t)
    ensures PopNode(rk, t) in Nodes(t)
    ensures Nodes(Pop(rk, t)) == Nodes(t) - {PopNode(rk, t)}
    ensures NodesDistinct(Pop(rk, t))
    decreases Count(t)
  {
    if t.left.Nil? && t.right.Nil? {
    } else {
      PopKeepsNodes(rk, Swapped(rk, t));
    }
  }

  // ---------- remove ----------

  /** The pruned search finds exactly what the heap holds. */
  lemma {:induction false} FindsIffHeld<N, T(!new)>(rk: (T, T) -> int, t: Tree<N, T>, d: T)
    requires WeakOrder(rk) && IsHeap(rk, t)
    ensures Finds(rk, t, d) <==> d in Contents(t)
  {
    if t.Node? {
      FindsIffHeld(rk, t.left, d);
      FindsIffHeld(rk, t.right, d);
      if d in Contents(t) {
        TopIsHighest(rk, t, d);
      }
    }
  }

  /** Without heap order the pruning can miss an entry that is there. */
  lemma PruningNeedsHeapOrder()
    ensures var rk := (a: int, b: int) => a - b;
            var t := Node(0, Node(1, Nil, 7, 1, Nil), 5, 2, Nil);
            WeakOrder(rk) && 7 in Contents(t) && !Finds(rk, t, 7)
  {
    var t := Node(0, Node(1, Nil, 7, 1, Nil), 5, 2, Nil);
    assert Contents(t.left) == multiset{7};
  }

  lemma {:induction false} RemoveKeepsHeap<N, T(!new)>(rk: (T, T) -> int, t: Tree<N, T>, d: T)
    requires WeakOrder(rk) && IsHeap(rk, t)
    ensures IsHeap(rk, Remove(rk, t, d))
    ensures t.Node? && t.data != d ==> Remove(rk, t, d).Node? && Remove(rk, t, d).data == t.data
    ensures t.Node? && Remove(rk, t, d).Node? ==> !OutRanks(rk, Remove(rk, t, d).data, t.data)
  {
    if Finds(rk, t, d) {
      if t.data == d {
        PopKeepsHeap(rk, t);
      } else {
        RemoveKeepsHeap(rk, t.left, d);
        RemoveKeepsHeap(rk, t.right, d);
      }
    }
  }

  lemma {:induction false} RemoveTakesOne<N, T>(rk: (T, T) -> int, t: Tree<N, T>, d: T)
    requires Finds(rk, t, d)
    ensures Contents(t) == Contents(Remove(rk, t, d)) + multiset{d}
    ensures Count(Remove(rk, t, d)) == Count(t) - 1
  {
    if t.data == d {
      PopRemovesTop(rk, t);
    } else if Finds(rk, t.left, d) {
      RemoveTakesOne(rk, t.left, d);
    } else {
      RemoveTakesOne(rk, t.right, d);
    }
  }

  lemma {:induction false} RemoveKeepsSizes<N, T>(rk: (T, T) -> int, t: Tree<N, T>, d: T)
    requires SizesOk(t)
    ensures SizesOk(Remove(rk, t, d))
  {
    if Finds(rk, t, d) {
      RemoveTakesOne(rk, t, d);
      if t.data == d {
        PopKeepsSizes(rk, t);
      } else if Finds(rk, t.left, d) {
        RemoveKeepsSizes(rk, t.left, d);
      } else {
        RemoveKeepsSizes(rk, t.right, d);
      }
    }
  }

  lemma {:induction false} RemoveKeepsNodes<N, T>(rk: (T, T) -> int, t: Tree<N, T>, d: T)
    requires Finds(rk, t, d) && NodesDistinct(t)
    ensures RemovedNode(rk, t, d) in Nodes(t)
    ensures Nodes(Remove(rk, t, d)) == Nodes(t) - {RemovedNode(rk, t, d)}
    ensures NodesDistinct(Remove(rk, t, d))
  {
    if t.data == d {
      PopKeepsNodes(rk, t);
    } else if Finds(rk, t.left, d) {
      RemoveKeepsNodes(rk, t.left, d);
    } else {
      RemoveKeepsNodes(rk, t.right, d);
    }
  }

  /**
   Removal in one statement: an object that is in the heap goes, once; one that is not
   leaves the tree as it was; order and sizes survive either way.
   */
  lemma RemoveIsComplete<N, T(!new)>(rk: (T, T) -> int, t: Tree<N, T>, d: T)
    requires WeakOrder(rk) && IsHeap(rk, t) && SizesOk(t)
    ensures d !in Contents(t) ==> Remove(rk, t, d) == t
    ensures Contents(Remove(rk, t, d)) == Contents(t) - multiset{d}
    ensures IsHeap(rk, Remove(rk, t, d)) && SizesOk(Remove(rk, t, d))
  {
    FindsIffHeld(rk, t, d);
    RemoveKeepsHeap(rk, t, d);
    RemoveKeepsSizes(rk, t, d);
    if d in Contents(t) {
      RemoveTakesOne(rk, t, d);
    }
    OneLess(Contents(t), Contents(Remove(rk, t, d)), d);
  }

  lemma OneLess<T>(a: multiset<T>, b: multiset<T>, d: T)
    requires if d in a then a == b + multiset{d} else a == b
    ensures b == a - multiset{d}
  {
  }

  // ---------- what every operation keeps ----------

  lemma PushKeepsProper<N, T(!new)>(rk: (T, T) -> int, t: Tree<N, T>, n: N, d: T)
    requires WeakOrder(rk) && Proper(rk, t) && n !in Nodes(t)
    ensures Proper(rk, Push(rk, t, n, d)) && Nodes(Push(rk, t, n, d)) == Nodes(t) + {n}
  {
    PushKeepsHeap(rk, t, n, d);
    PushKeepsSizes(rk, t, n, d);
    PushKeepsNodes(rk, t, n, d);
  }

  lemma PopKeepsProper<N, T(!new)>(rk: (T, T) -> int, t: Tree<N, T>)
    requires WeakOrder(rk) && Proper(rk, t) && t.Node?
    ensures Proper(rk, Pop(rk, t)) && Nodes(Pop(rk, t)) == Nodes(t) - {PopNode(rk, t)}
  {
    PopKeepsHeap(rk, t);
    PopKeepsSizes(rk, t);
    PopKeepsNodes(rk, t);
  }

  lemma RemoveKeepsProper<N, T(!new)>(rk: (T, T) -> int, t: Tree<N, T>, d: T)
    requires WeakOrder(rk) && Proper(rk, t) && Finds(rk, t, d)
    ensures Proper(rk, Remove(rk, t, d)) && Nodes(Remove(rk, t, d)) == Nodes(t) - {RemovedNode(rk, t, d)}
  {
    RemoveKeepsHeap(rk, t, d);
    RemoveKeepsSizes(rk, t, d);
    RemoveKeepsNodes(rk, t, d);
  }

  // ---------- self check ----------

  lemma {:induction false} CheckNodesIsExact<N, T>(rk: (T, T) -> int, t: Tree<N, T>)
    requires t.Node?
    ensures CheckNodes(rk, t) <==> IsHeap(rk, t) && SizesOk(t)
  {
    assert t.left.Nil? ==> Count(t.left) == 0;
    assert t.right.Nil? ==> Count(t.right) == 0;
    if t.left.Node? {
      CheckNodesIsExact(rk, t.left);
    }
    if t.right.Node? {
      CheckNodesIsExact(rk, t.right);
    }
  }

  // ---------- whole runs ----------

  /** Pushing a sequence of data, one new node object each, into an empty heap. */
  function PushAll<N, T>(rk: (T, T) -> int, xs: seq<(N, T)>): Tree<N, T> {
    if xs == [] then Nil
    else Push(rk, PushAll(rk, xs[..|xs| - 1]), xs[|xs| - 1].0, xs[|xs| - 1].1)
  }

  ghost function Datas<N, T>(xs: seq<(N, T)>): multiset<T> {
    if xs == [] then multiset{} else Datas(xs[..|xs| - 1]) + multiset{xs[|xs| - 1].1}
  }

  /** Popping until the heap is empty. */
  function Drain<N, T>(rk: (T, T) -> int, t: Tree<N, T>): seq<T>
    decreases Count(t)
  {
    if t.Nil? then [] else [t.data] + Drain(rk, Pop(rk, t))
  }

  lemma {:induction false} PushAllGood<N, T(!new)>(rk: (T, T) -> int, xs: seq<(N, T)>)
    requires WeakOrder(rk)
    ensures IsHeap(rk, PushAll(rk, xs)) && SizesOk(PushAll(rk, xs)) && Balanced(PushAll(rk, xs))
    ensures Count(PushAll(rk, xs)) == |xs| && Contents(PushAll(rk, xs)) == Datas(xs)
  {
    if xs != [] {
      var t, x := PushAll(rk, xs[..|xs| - 1]), xs[|xs| - 1];
      PushAllGood(rk, xs[..|xs| - 1]);
      PushKeepsHeap(rk, t, x.0, x.1);
      PushKeepsSizes(rk, t, x.0, x.1);
      PushKeepsBalance(rk, t, x.0, x.1);
      PushAddsOne(rk, t, x.0, x.1);
    }
  }

  /** After pushes only, the tree is no higher than floor(log2 n) + 1. */
  lemma PushOnlyHeight<N, T(!new)>(rk: (T, T) -> int, xs: seq<(N, T)>, t: Tree<N, T>)
    requires WeakOrder(rk) && xs != [] && t == PushAll(rk, xs)
    ensures Balanced(t)
    ensures Height(t) > 0 && Pow2(Height(t) - 1) <= |xs| < Pow2(Height(t))
  {
    PushAllGood(rk, xs);
    BalancedIsLow(t);
  }

  /** The top of a heap goes before any sorted sequence of the data below it. */
  lemma SortedCons<N, T(!new)>(rk: (T, T) -> int, t: Tree<N, T>, rest: seq<T>)
    requires WeakOrder(rk) && IsHeap(rk, t) && t.Node?
    requires RankSorted(rk, rest) && Contents(t) == multiset(rest) + multiset{t.data}
    ensures RankSorted(rk, [t.data] + rest) && multiset([t.data] + rest) == Contents(t)
  {
    forall j | 0 <= j < |rest| ensures !OutRanks(rk, rest[j], t.data) {
      assert rest[j] in multiset(rest);
      TopIsHighest(rk, t, rest[j]);
    }
  }

  lemma {:induction false} DrainSorts<N, T(!new)>(rk: (T, T) -> int, t: Tree<N, T>)
    requires WeakOrder(rk) && IsHeap(rk, t)
    ensures RankSorted(rk, Drain(rk, t)) && multiset(Drain(rk, t)) == Contents(t)
    decreases Count(t)
  {
    if t.Node? {
      PopKeepsHeap(rk, t);
      PopRemovesTop(rk, t);
      DrainSorts(rk, Pop(rk, t));
      SortedCons(rk, t, Drain(rk, Pop(rk, t)));
    }
  }

  /** Repeated pops hand out what was pushed, highest rank first. */
  lemma PushThenDrainSorts<N, T(!new)>(rk: (T, T) -> int, xs: seq<(N, T)>)
    requires WeakOrder(rk)
    ensures RankSorted(rk, Drain(rk, PushAll(rk, xs)))
    ensures multiset(Drain(rk, PushAll(rk, xs))) == Datas(xs)
  {
    PushAllGood(rk, xs);
    DrainSorts(rk, PushAll(rk, xs));
  }
}
