/** The pointer-based heap, each method proved against its function in HeapTree. */
module LocHeap {
  import opened Options
  import opened Ranking
  import HT = HeapTree

  type Shape<T> = HT.Tree<LocHeapNode<T>, T>

  /** The nodes reachable from n are exactly those of t, with t's sizes, data and links. */
  ghost predicate Holds<T>(n: LocHeapNode?<T>, t: Shape<T>)
    reads HT.Nodes(t)
  {
    if t.Nil? then n == null
    else
      && n == t.at && n.mSize == t.size && n.mData == t.data
      && Holds(n.mLeft, t.left) && Holds(n.mRight, t.right)
  }

  /** A node dropped into the smaller subtree of t, below t's top. */
  function Dropped<T>(rk: (T, T) -> int, t: Shape<T>, n: LocHeapNode<T>, lo: T): Shape<T>
    requires t.Node?
  {
    if t.left.Nil? || (t.right.Node? && t.left.size <= t.right.size)
    then HT.Node(t.at, HT.Push(rk, t.left, n, lo), t.data, t.size + 1, t.right)
    else HT.Node(t.at, t.left, t.data, t.size + 1, HT.Push(rk, t.right, n, lo))
  }

  class LocHeapNode<T(==)> {
    var mSize: int
    var mLeft: LocHeapNode?<T>
    var mRight: LocHeapNode?<T>
    var mData: T

    constructor (data: T)
      ensures mSize == 1 && mLeft == null && mRight == null && mData == data
    {
      mSize := 1;
      mLeft, mRight := null, null;
      mData := data;
    }

    method Swap(node: LocHeapNode<T>)
      modifies this`mData, node`mData
      ensures mData == old(node.mData) && node.mData == old(mData)
    {
      var tmp := node.mData;
      node.mData := mData;
      mData := tmp;
    }

    method Push(rk: (T, T) -> int, node: LocHeapNode<T>, ghost t: Shape<T>)
      requires t.Node? && Holds(this, t) && HT.NodesDistinct(t)
      requires node !in HT.Nodes(t) && node.mSize == 1 && node.mLeft == null && node.mRight == null
      modifies HT.Nodes(t), node
      ensures Holds(this, HT.Push(rk, t, node, old(node.mData)))
      decreases HT.Count(t), 1
    {
      ghost var nodes :| nodes == HT.Nodes(t);  // a local variable's objects are known to be allocated
      if OutRanks(rk, node.mData, mData) {
        Swap(node);
      }
      Drop(rk, node, t.(data := mData));
    }

    /** The second part of push: the node goes into the smaller subtree. */
    method Drop(rk: (T, T) -> int, node: LocHeapNode<T>, ghost t: Shape<T>)
      requires t.Node? && Holds(this, t) && HT.NodesDistinct(t)
      requires node !in HT.Nodes(t) && node.mSize == 1 && node.mLeft == null && node.mRight == null
      modifies HT.Nodes(t), node
      ensures Holds(this, Dropped(rk, t, node, old(node.mData)))
      decreases HT.Count(t), 0
    {
      ghost var nodes :| nodes == HT.Nodes(t);
      if mLeft == null {
        mLeft := node;
      } else if mRight == null {
        mRight := node;
      } else if mLeft.mSize <= mRight.mSize {
        HT.PushKeepsNodes(rk, t.left, node, node.mData);
        mLeft.Push(rk, node, t.left);
      } else {
        HT.PushKeepsNodes(rk, t.right, node, node.mData);
        mRight.Push(rk, node, t.right);
      }
      mSize := mSize + 1;
    }

    /** The source passes the link to top by reference; here its new value is returned. */
    static method Pop(rk: (T, T) -> int, top: LocHeapNode<T>, ghost t: Shape<T>)
      returns (link: LocHeapNode?<T>, popped: LocHeapNode<T>)
      requires t.Node? && Holds(top, t) && HT.NodesDistinct(t)
      modifies HT.Nodes(t)
      ensures Holds(link, HT.Pop(rk, t))
      ensures popped == HT.PopNode(rk, t) && popped.mData == t.data
      ensures popped.mLeft == null && popped.mRight == null
      decreases HT.Count(t), 2
    {
      link, popped := top, top;
      if top.mLeft != null || top.mRight != null {
        popped := top.PopBelow(rk, t);
      } else {
        top.mSize := top.mSize - 1;
        link := null;
      }
    }

    /** The data on its way out is swapped into the higher ranking subtree and popped from there. */
    method PopBelow(rk: (T, T) -> int, ghost t: Shape<T>) returns (popped: LocHeapNode<T>)
      requires t.Node? && Holds(this, t) && HT.NodesDistinct(t) && (t.left.Node? || t.right.Node?)
      modifies HT.Nodes(t)
      ensures Holds(this, HT.Pop(rk, t))
      ensures popped == HT.PopNode(rk, t) && popped.mData == t.data
      ensures popped.mLeft == null && popped.mRight == null
      decreases HT.Count(t), 1
    {
      if mRight == null || (mLeft != null && OutRanks(rk, mLeft.mData, mRight.mData)) {
        popped := PopLeft(rk, t);
      } else {
        popped := PopRight(rk, t);
      }
    }

    method PopLeft(rk: (T, T) -> int, ghost t: Shape<T>) returns (popped: LocHeapNode<T>)
      requires t.Node? && Holds(this, t) && HT.NodesDistinct(t) && t.left.Node?
      modifies HT.Nodes(t)
      ensures var below := t.left.(data := t.data);
        && Holds(this, HT.Node(t.at, HT.Pop(rk, below), t.left.data, t.size - 1, t.right))
        && popped == HT.PopNode(rk, below) && popped.mData == t.data
      ensures popped.mLeft == null && popped.mRight == null
      decreases HT.Count(t), 0
    {
      ghost var nodes :| nodes == HT.Nodes(t);  // a local variable's objects are known to be allocated
      mSize := mSize - 1;
      Swap(mLeft);
      assert HT.Count(t.left.(data := t.data)) == HT.Count(t.left);
      mLeft, popped := Pop(rk, mLeft, t.left.(data := t.data));
    }

    method PopRight(rk: (T, T) -> int, ghost t: Shape<T>) returns (popped: LocHeapNode<T>)
      requires t.Node? && Holds(this, t) && HT.NodesDistinct(t) && t.right.Node?
      modifies HT.Nodes(t)
      ensures var below := t.right.(data := t.data);
        && Holds(this, HT.Node(t.at, t.left, t.right.data, t.size - 1, HT.Pop(rk, below)))
        && popped == HT.PopNode(rk, below) && popped.mData == t.data
      ensures popped.mLeft == null && popped.mRight == null
      decreases HT.Count(t), 0
    {
      ghost var nodes :| nodes == HT.Nodes(t);
      mSize := mSize - 1;
      Swap(mRight);
      assert HT.Count(t.right.(data := t.data)) == HT.Count(t.right);
      mRight, popped := Pop(rk, mRight, t.right.(data := t.data));
    }

    static method Remove(rk: (T, T) -> int, top: LocHeapNode<T>, data: T, ghost t: Shape<T>)
      returns (link: LocHeapNode?<T>, removed: LocHeapNode?<T>)
      requires t.Node? && Holds(top, t) && HT.NodesDistinct(t)
      modifies HT.Nodes(t)
      ensures Holds(link, HT.Remove(rk, t, data))
      ensures removed != null <==> HT.Finds(rk, t, data)
      ensures removed != null ==> removed == HT.RemovedNode(rk, t, data) && removed.mData == data
      ensures removed == null ==> link == top
      decreases HT.Count(t), 2
    {
      link, removed := top, null;
      if data == top.mData {
        link, removed := Pop(rk, top, t);
      } else if !OutRanks(rk, data, top.mData) {
        removed := top.RemoveBelow(rk, data, t);
      }
    }

    /** The search in the subtrees, left first. */
    method RemoveBelow(rk: (T, T) -> int, data: T, ghost t: Shape<T>) returns (removed: LocHeapNode?<T>)
      requires t.Node? && Holds(this, t) && HT.NodesDistinct(t)
      requires data != t.data && !OutRanks(rk, data, t.data)
      modifies HT.Nodes(t)
      ensures Holds(this, HT.Remove(rk, t, data))
      ensures removed != null <==> HT.Finds(rk, t, data)
      ensures removed != null ==> removed == HT.RemovedNode(rk, t, data) && removed.mData == data
      decreases HT.Count(t), 1
    {
      removed := null;
      if mLeft != null {
        removed := RemoveLeft(rk, data, t);
      }
      if removed == null && mRight != null {
        removed := RemoveRight(rk, data, t);
      }
    }

    method RemoveLeft(rk: (T, T) -> int, data: T, ghost t: Shape<T>) returns (removed: LocHeapNode?<T>)
      requires t.Node? && Holds(this, t) && HT.NodesDistinct(t) && t.left.Node?
      modifies HT.Nodes(t)
      ensures removed == null ==> Holds(this, t)
      ensures removed != null ==> Holds(this, HT.Node(t.at, HT.Remove(rk, t.left, data), t.data, t.size - 1, t.right))
      ensures removed != null <==> HT.Finds(rk, t.left, data)
      ensures removed != null ==> removed == HT.RemovedNode(rk, t.left, data) && removed.mData == data
      decreases HT.Count(t), 0
    {
      ghost var nodes :| nodes == HT.Nodes(t);  // a local variable's objects are known to be allocated
      mLeft, removed := Remove(rk, mLeft, data, t.left);
      if removed != null {
        HT.RemoveKeepsNodes(rk, t.left, data);
        mSize := mSize - 1;
      }
    }

    method RemoveRight(rk: (T, T) -> int, data: T, ghost t: Shape<T>) returns (removed: LocHeapNode?<T>)
      requires t.Node? && Holds(this, t) && HT.NodesDistinct(t) && t.right.Node?
      modifies HT.Nodes(t)
      ensures removed == null ==> Holds(this, t)
      ensures removed != null ==> Holds(this, HT.Node(t.at, t.left, t.data, t.size - 1, HT.Remove(rk, t.right, data)))
      ensures removed != null <==> HT.Finds(rk, t.right, data)
      ensures removed != null ==> removed == HT.RemovedNode(rk, t.right, data) && removed.mData == data
      decreases HT.Count(t), 0
    {
      ghost var nodes :| nodes == HT.Nodes(t);
      mRight, removed := Remove(rk, mRight, data, t.right);
      if removed != null {
        HT.RemoveKeepsNodes(rk, t.right, data);
        mSize := mSize - 1;
      }
    }

    method CheckNodes(rk: (T, T) -> int, ghost t: Shape<T>) returns (ok: bool)
      requires t.Node? && Holds(this, t)
      ensures ok <==> HT.IsHeap(rk, t) && HT.SizesOk(t)
      decreases HT.Count(t)
    {
      ghost var nodes :| nodes == HT.Nodes(t);  // a local variable's objects are known to be allocated
      HT.CheckNodesIsExact(rk, t);
      HT.SubNodes(t);
      var totalSize := mSize;
      if mLeft != null {
        if OutRanks(rk, mLeft.mData, mData) { return false; }
        ok := mLeft.CheckNodes(rk, t.left);
        HT.CheckNodesIsExact(rk, t.left);
        if !ok { return false; }
        totalSize := totalSize - mLeft.mSize;
      }
      if mRight != null {
        if OutRanks(rk, mRight.mData, mData) { return false; }
        ok := mRight.CheckNodes(rk, t.right);
        HT.CheckNodesIsExact(rk, t.right);
        if !ok { return false; }
        totalSize := totalSize - mRight.mSize;
      }
      return totalSize == 1;
    }
  }

  /** The heap object: a ranking, the root link, and (ghost) the tree that hangs there. */
  class LocHeap<T(==, !new)> {
    const rk: (T, T) -> int
    var mTree: LocHeapNode?<T>
    ghost var tree: Shape<T>
    ghost var repr: set<LocHeapNode<T>>

    ghost predicate Valid()
      reads this, repr
    {
      && repr == HT.Nodes(tree)
      && WeakOrder(rk)
      && Holds(mTree, tree) && HT.Proper(rk, tree)
    }

    constructor (rk: (T, T) -> int)
      requires WeakOrder(rk)
      ensures Valid() && this.rk == rk && tree == HT.Nil
    {
      this.rk := rk;
      mTree := null;
      tree, repr := HT.Nil, {};
    }

    /** Makes t the heap's tree. */
    method SetTree(root: LocHeapNode?<T>, ghost t: Shape<T>)
      requires WeakOrder(rk) && Holds(root, t) && HT.Proper(rk, t)
      modifies this
      ensures Valid() && tree == t && repr == HT.Nodes(t)
    {
      ghost var nodes :| nodes == HT.Nodes(t);
      mTree, tree, repr := root, t, nodes;
    }

    method Push(x: T)
      requires Valid()
      modifies this, repr
      ensures Valid()
      ensures fresh(repr - old(repr))
      ensures exists n :: tree == HT.Push(rk, old(tree), n, x)
      ensures HT.Contents(tree) == HT.Contents(old(tree)) + multiset{x}
    {
      var heapNode := new LocHeapNode(x);
      HT.PushKeepsProper(rk, tree, heapNode, x);
      HT.PushAddsOne(rk, tree, heapNode, x);
      var root := heapNode;
      if mTree != null {
        mTree.Push(rk, heapNode, tree);
        root := mTree;
      }
      SetTree(root, HT.Push(rk, tree, heapNode, x));
    }

    method Peek() returns (top: Option<T>)
      requires Valid()
      ensures top.None? <==> HT.Contents(tree) == multiset{}
      ensures top.Some? ==> tree.Node? && top.value == tree.data && top.value in HT.Contents(tree)
      ensures top.Some? ==> forall x :: x in HT.Contents(tree) ==> !OutRanks(rk, x, top.value)
    {
      top := None;
      if mTree != null {
        top := Some(mTree.mData);
        forall x | x in HT.Contents(tree) ensures !OutRanks(rk, x, top.value) {
          HT.TopIsHighest(rk, tree, x);
        }
      }
    }

    method Pop() returns (x: Option<T>)
      requires Valid()
      modifies this, repr
      ensures Valid() && repr <= old(repr)
      ensures x.None? <==> old(tree).Nil?
      ensures x.None? ==> tree == old(tree)
      ensures x.Some? ==> x.value == old(tree).data && tree == HT.Pop(rk, old(tree))
      ensures x.Some? ==> HT.Contents(old(tree)) == HT.Contents(tree) + multiset{x.value}
    {
      x := None;
      if mTree != null {
        HT.PopKeepsProper(rk, tree);
        HT.PopRemovesTop(rk, tree);
        var link, heapNode := LocHeapNode.Pop(rk, mTree, tree);
        x := Some(heapNode.mData);
        SetTree(link, HT.Pop(rk, tree));
      }
    }

    method Remove(rankable: T) returns (x: Option<T>)
      requires Valid()
      modifies this, repr
      ensures Valid() && repr <= old(repr)
      ensures x == if rankable in HT.Contents(old(tree)) then Some(rankable) else None
      ensures tree == HT.Remove(rk, old(tree), rankable)
      ensures HT.Contents(tree) == HT.Contents(old(tree)) - multiset{rankable}
    {
      x := None;
      HT.RemoveIsComplete(rk, tree, rankable);
      HT.FindsIffHeld(rk, tree, rankable);
      if mTree != null {
        var link, heapNode := LocHeapNode.Remove(rk, mTree, rankable, tree);
        if heapNode != null {
          HT.RemoveKeepsProper(rk, tree, rankable);
          x := Some(heapNode.mData);
          SetTree(link, HT.Remove(rk, tree, rankable));
        }
      }
    }

    method CheckTree() returns (ok: bool)
      requires repr == HT.Nodes(tree) && Holds(mTree, tree)
      ensures ok <==> HT.IsHeap(rk, tree) && HT.SizesOk(tree)
    {
      ok := true;
      if mTree != null {
        ok := mTree.CheckNodes(rk, tree);
      }
    }
  }
}
