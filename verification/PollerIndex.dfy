/**
  The deadline index of src/poller/poller.c: every node with a timeout is either in the
  sorted list timeo_list or in the red-black tree timeo_tree, whose two ends are cached;
  the timer descriptor is armed with a time no later than any of their deadlines.
 */
module PollerIndex {
  import opened Collections
  import opened RbShape
  import opened RbTree

  // The deadlines of a sequence of nodes.
  ghost function Dues(s: seq<RbNode>): (ts: seq<Timespec>)
    reads s
    ensures |ts| == |s| && forall i :: 0 <= i < |s| ==> ts[i] == s[i].timeout
  {
    seq(|s|, i requires 0 <= i < |s| reads s => s[i].timeout)
  }

  ghost predicate Ascending(ts: seq<Timespec>) {
    forall i, j :: 0 <= i < j < |ts| ==> Cmp(ts[i], ts[j]) <= 0
  }

  // Where a deadline belongs among ascending ones: after everything due no later.
  ghost predicate Belongs(ts: seq<Timespec>, k: nat, due: Timespec)
    requires k <= |ts|
  {
    DueBefore(ts, k, due) && DueAfter(ts, k, due)
  }

  ghost predicate DueBefore(ts: seq<Timespec>, k: nat, due: Timespec)
    requires k <= |ts|
  {
    forall i :: 0 <= i < k ==> Cmp(ts[i], due) <= 0
  }

  ghost predicate DueAfter(ts: seq<Timespec>, k: nat, due: Timespec)
    requires k <= |ts|
  {
    forall i :: k <= i < |ts| ==> Cmp(due, ts[i]) < 0
  }

  lemma AppendBelongs(ts: seq<Timespec>, due: Timespec)
    requires Ascending(ts) && ts != [] && Cmp(due, ts[|ts| - 1]) >= 0
    ensures Belongs(ts, |ts|, due)
  {
    assert forall i :: 0 <= i < |ts| - 1 ==> Cmp(ts[i], ts[|ts| - 1]) <= 0;
  }

  lemma InsertedAscending(ts: seq<Timespec>, k: nat, due: Timespec)
    requires Ascending(ts) && k <= |ts| && Belongs(ts, k, due)
    ensures Ascending(ts[..k] + [due] + ts[k..])
  {
  }

  lemma Descend(ts: seq<Timespec>, k: nat, due: Timespec)
    requires Ascending(ts) && k < |ts|
    ensures Cmp(due, ts[k]) < 0 ==> DueAfter(ts, k, due)
    ensures Cmp(due, ts[k]) >= 0 ==> DueBefore(ts, k + 1, due)
  {
    assert forall i :: k < i < |ts| ==> Cmp(ts[k], ts[i]) <= 0;
    assert forall i :: 0 <= i < k ==> Cmp(ts[i], ts[k]) <= 0;
  }

  lemma {:induction false} InOrderInside<N>(t: Tree<N>)
    ensures forall n :: n in InOrder(t) ==> n in Nodes(t)
  {
    if t.Fork? { InOrderInside(t.left); InOrderInside(t.right); }
  }

  // The place after the last node of a tree.
  ghost function LastPlace<N>(ctx: Context<N>, t: Tree<N>): Context<N>
    decreases t
  {
    if t.Empty? then ctx else LastPlace(In(ctx, OnRight, t.node, t.color, t.left), t.right)
  }

  lemma {:induction false} LastPlacePlug<N>(ctx: Context<N>, t: Tree<N>)
    requires After(ctx) == []
    ensures Plug(LastPlace(ctx, t), Empty) == Plug(ctx, t)
    ensures After(LastPlace(ctx, t)) == [] && Before(LastPlace(ctx, t)) == Before(ctx) + InOrder(t)
    ensures t.Fork? ==> LastPlace(ctx, t).In? && LastPlace(ctx, t).side.OnRight?
    ensures t.Fork? ==> LastPlace(ctx, t).node == InOrder(t)[|InOrder(t)| - 1]
    decreases t
  {
    if t.Fork? {
      var ctx' := In(ctx, OnRight, t.node, t.color, t.left);
      LastPlacePlug(ctx', t.right);
      assert Before(ctx') + InOrder(t.right) == Before(ctx) + InOrder(t);
      if t.right.Empty? { assert LastPlace(ctx', t.right) == ctx'; }
    }
  }

  // Splitting a tree at a given node.
  lemma {:induction false} SplitAt<N>(ctx: Context<N>, t: Tree<N>, n: N) returns (c: Context<N>, u: Tree<N>)
    requires n in Nodes(t)
    ensures Plug(c, u) == Plug(ctx, t) && u.Fork? && u.node == n
    decreases t
  {
    if n == t.node {
      return ctx, t;
    } else if n in Nodes(t.left) {
      c, u := SplitAt(In(ctx, OnLeft, t.node, t.color, t.right), t.left, n);
    } else {
      c, u := SplitAt(In(ctx, OnRight, t.node, t.color, t.left), t.right, n);
    }
  }

  // struct __poller (poller.c:43-63), the part that keeps the deadlines
  class Poller {
    const timeoTree: Root
    var treeFirst: RbNode?
    var treeLast: RbNode?
    var timeoList: seq<RbNode>
    var noTimeoList: seq<RbNode>
    var timer: Timespec
    var nodes: map<int, RbNode>
    ghost var tree: Tree<RbNode>

    constructor ()
      ensures Inv() && Linked() == {} && timer == DISARMED
    {
      timeoTree := new Root();
      treeFirst, treeLast, timeoList, noTimeoList, timer := null, null, [], [], DISARMED;
      nodes := map[];
      tree := Empty;
    }

    ghost predicate TreeValid()
      reads this`treeFirst, this`treeLast, this`tree, timeoTree, Nodes(tree)
    {
      && Holds(tree, timeoTree) && RedBlack(tree)
      && (InOrderInside(tree); Ascending(Dues(InOrder(tree))))
      && treeFirst == FirstOf(InOrder(tree)) && treeLast == LastOf(InOrder(tree))
    }

    // __poller_tree_insert (poller.c:150-187)
    method TreeInsert(node: RbNode) returns (ghost k: nat)
      requires TreeValid() && node !in Nodes(tree)
      modifies timeoTree, this`treeFirst, this`treeLast, this`tree, node`inTree
      modifies (Nodes(tree) + {node})`parent, (Nodes(tree) + {node})`left,
               (Nodes(tree) + {node})`right, (Nodes(tree) + {node})`color
      ensures TreeValid() && node.inTree
      ensures k <= |old(InOrder(tree))| && Belongs(old(Dues(InOrder(tree))), k, node.timeout)
      ensures InOrder(tree) == old(InOrder(tree))[..k] + [node] + old(InOrder(tree))[k..]
      ensures Nodes(tree) == old(Nodes(tree)) + {node}
    {
      hide Ascending, Holds, Belongs;
      ghost var s, ts := InOrder(tree), Dues(InOrder(tree));
      var parent, side;
      ghost var ctx;
      parent, side, ctx := ChoosePlace(node);
      k := |Before(ctx)|;
      PlaceFits(ctx, node);
      node.inTree := true;
      tree := LinkColored(node, parent, side, timeoTree, ctx, s);
      InsertedValid(ctx, s, ts, node);
    }

    lemma PlaceFits(ctx: Context<RbNode>, node: RbNode)
      requires Plug(ctx, Empty) == tree && RedBlack(tree)
      ensures NeedsFix(ctx, Fork(Empty, node, Red, Empty))
      ensures InOrder(tree) == Before(ctx) + After(ctx)
    {
      PlugRedBlack(ctx, Empty);
      PlugInOrder(ctx, Empty);
    }

    lemma InsertedValid(ctx: Context<RbNode>, s: seq<RbNode>, ts: seq<Timespec>, node: RbNode)
      requires Holds(tree, timeoTree) && RedBlack(tree)
      requires s == Before(ctx) + After(ctx) && Dues(s) == ts && Ascending(ts) && Belongs(ts, |Before(ctx)|, node.timeout)
      requires InOrder(tree) == Before(ctx) + [node] + After(ctx)
      requires treeFirst == FirstOf(Before(ctx) + [node]) && treeLast == LastOf([node] + After(ctx))
      ensures TreeValid()
      ensures InOrder(tree) == s[..|Before(ctx)|] + [node] + s[|Before(ctx)|..]
    {
      InsertedAscending(ts, |Before(ctx)|, node.timeout);
      assert Dues(InOrder(tree)) == ts[..|Before(ctx)|] + [node.timeout] + ts[|Before(ctx)|..];
    }

    // poller.c:152-182: the place of the node, and the cached ends as they will be.
    method ChoosePlace(node: RbNode) returns (parent: RbNode?, side: Side, ghost ctx: Context<RbNode>)
      requires TreeValid()
      modifies this`treeFirst, this`treeLast
      ensures Plug(ctx, Empty) == tree && parent == CtxTop(ctx) && (ctx.In? ==> ctx.side == side)
      ensures |Before(ctx)| <= |InOrder(tree)| && Belongs(Dues(InOrder(tree)), |Before(ctx)|, node.timeout)
      ensures treeFirst == FirstOf(Before(ctx) + [node]) && treeLast == LastOf([node] + After(ctx))
      ensures Holds(tree, timeoTree) && Dues(InOrder(tree)) == old(Dues(InOrder(tree)))
    {
      ghost var ts := Dues(InOrder(tree));
      if timeoTree.top == null {
        parent, side, ctx := null, OnLeft, Hole;
        treeFirst, treeLast := node, node;
      } else if Cmp(node.timeout, treeLast.timeout) >= 0 {
        parent, side, ctx := treeLast, OnRight, LastPlace(Hole, tree);
        LastPlacePlug(Hole, tree);
        AppendBelongs(ts, node.timeout);
        treeLast := node;
      } else {
        parent, side, ctx := FindPlace(node);
        EndsMeet(ctx);
        PlugInOrder(ctx, Empty);
        EndsStay(ctx, InOrder(tree), ts, node);
        if parent == treeFirst && side.OnLeft? {
          treeFirst := node;
        }
      }
    }

    lemma EndsStay(ctx: Context<RbNode>, s: seq<RbNode>, ts: seq<Timespec>, node: RbNode)
      requires s == Before(ctx) + After(ctx) && s != [] && |ts| == |s|
      requires DueBefore(ts, |Before(ctx)|, node.timeout) && Cmp(node.timeout, ts[|s| - 1]) < 0
      ensures After(ctx) != [] && LastOf([node] + After(ctx)) == LastOf(s)
      ensures Before(ctx) != [] ==> FirstOf(Before(ctx) + [node]) == FirstOf(s)
    {
      assert |Before(ctx)| < |s|;
    }

    // rb_link_node and rb_insert_color (poller.c:185-186)
    static method LinkColored(node: RbNode, parent: RbNode?, side: Side, root: Root, ghost ctx: Context<RbNode>,
                              ghost s: seq<RbNode>)
      returns (ghost w: Tree<RbNode>)
      requires Holds(Plug(ctx, Empty), root) && node !in Nodes(Plug(ctx, Empty))
      requires parent == CtxTop(ctx) && (ctx.In? ==> ctx.side == side)
      requires NeedsFix(ctx, Fork(Empty, node, Red, Empty))
      modifies root, (Nodes(Plug(ctx, Empty)) + {node})`parent, (Nodes(Plug(ctx, Empty)) + {node})`left,
               (Nodes(Plug(ctx, Empty)) + {node})`right, (Nodes(Plug(ctx, Empty)) + {node})`color
      ensures Holds(w, root) && RedBlack(w)
      ensures Nodes(w) == Nodes(Plug(ctx, Empty)) + {node} && InOrder(w) == Before(ctx) + [node] + After(ctx)
      ensures Dues(s) == old(Dues(s))
    {
      LinkNode(node, parent, side, root, ctx);
      w := InsertColor(node, root, ctx, Fork(Empty, node, Red, Empty));
    }

    // The place found is before the first node exactly when it is to the left of it.
    lemma EndsMeet(ctx: Context<RbNode>)
      requires TreeValid() && ctx.In? && Plug(ctx, Empty) == tree
      ensures CtxTop(ctx) == treeFirst && ctx.side.OnLeft? <==> Before(ctx) == []
    {
      PlugInOrder(ctx, Empty);
      DistinctInOrder(tree);
      var s := InOrder(tree);
      assert s == Before(ctx) + After(ctx);
      if ctx.side.OnLeft? {
        assert s[|Before(ctx)|] == After(ctx)[0] == ctx.node;
      } else {
        assert Before(ctx)[|Before(ctx)| - 1] == ctx.node;
      }
    }

    // The descent of poller.c:169-178: where the node goes, ties to the right.
    method FindPlace(node: RbNode) returns (parent: RbNode?, side: Side, ghost ctx: Context<RbNode>)
      requires TreeValid() && treeFirst != null
      ensures Holds(tree, timeoTree) && Dues(InOrder(tree)) == old(Dues(InOrder(tree)))
      ensures Plug(ctx, Empty) == tree && parent == CtxTop(ctx) && ctx.In? && ctx.side == side
      ensures |Before(ctx)| <= |InOrder(tree)| && Belongs(Dues(InOrder(tree)), |Before(ctx)|, node.timeout)
    {
      var p := timeoTree.top;
      ghost var t, s, ts := tree, InOrder(tree), Dues(InOrder(tree));
      ctx := Hole;
      assert Plug(ctx, t) == tree;
      ReadNode(ctx, t);
      assert LinkOf(p) == Layout(tree)[p];
      parent := p;
      while true
        invariant Holds(tree, timeoTree) && Dues(s) == ts && Plug(ctx, t) == tree && t.Fork? && p == t.node
        invariant p.left == Top(t.left) && p.right == Top(t.right)
        invariant |Before(ctx)| + |InOrder(t)| <= |s|
        invariant DueBefore(ts, |Before(ctx)|, node.timeout) && DueAfter(ts, |Before(ctx)| + |InOrder(t)|, node.timeout)
        decreases t
      {
        parent := p;
        var next;
        SplitPosition(ctx, t);
        Descend(ts, |Before(ctx)| + |InOrder(t.left)|, node.timeout);
        if Cmp(node.timeout, p.timeout) < 0 {
          side, next := OnLeft, p.left;
          ctx, t := In(ctx, OnLeft, t.node, t.color, t.right), t.left;
        } else {
          side, next := OnRight, p.right;
          ctx, t := In(ctx, OnRight, t.node, t.color, t.left), t.right;
        }
        assert Plug(ctx, t) == tree;
        if next == null {
          return;
        }
        p := next;
        ReadNode(ctx, t);
        assert LinkOf(p) == Layout(tree)[p];
      }
    }

    // Where the top of a subtree stands in the in-order sequence.
    static lemma SplitPosition<N>(ctx: Context<N>, t: Tree<N>)
      requires t.Fork?
      ensures var s, b := InOrder(Plug(ctx, t)), |Before(ctx)|;
        && b + |InOrder(t)| <= |s| && |InOrder(t)| == |InOrder(t.left)| + 1 + |InOrder(t.right)|
        && s[b + |InOrder(t.left)|] == t.node
      ensures |Before(In(ctx, OnLeft, t.node, t.color, t.right))| == |Before(ctx)|
      ensures |Before(In(ctx, OnRight, t.node, t.color, t.left))| == |Before(ctx)| + |InOrder(t.left)| + 1
    {
      PlugInOrder(ctx, t);
    }

    // __poller_tree_erase (poller.c:189-200)
    method TreeErase(node: RbNode) returns (ghost a: seq<RbNode>, ghost z: seq<RbNode>)
      requires TreeValid() && node in Nodes(tree)
      modifies timeoTree, this`treeFirst, this`treeLast, this`tree, node`inTree
      modifies Nodes(tree)`parent, Nodes(tree)`left, Nodes(tree)`right, Nodes(tree)`color
      ensures TreeValid() && !node.inTree
      ensures old(InOrder(tree)) == a + [node] + z && InOrder(tree) == a + z
      ensures Nodes(tree) == old(Nodes(tree)) - {node}
    {
      hide Ascending, RedBlack, Holds, InOrder, Before, After;
      ghost var s, ts := InOrder(tree), Dues(InOrder(tree));
      assert Ascending(ts);
      ghost var ctx, t := SplitAt(Hole, tree, node);
      a, z := Before(ctx) + InOrder(t.left), InOrder(t.right) + After(ctx);
      assert s == a + [node] + z by { SplitOrder(ctx, t); }
      assert Dues(a + [node] + z) == ts;
      MoveEnds(node, ctx, t, a, z);
      tree := EraseKeeping(node, timeoTree, ctx, t, a, z, []);
      node.inTree := false;
      assert Dues(a + [node] + z) == ts;
      ErasedAscending(a, node, z);
    }

    // poller.c:192-196
    method MoveEnds(node: RbNode, ghost ctx: Context<RbNode>, ghost t: Tree<RbNode>, ghost a: seq<RbNode>, ghost z: seq<RbNode>)
      requires TreeValid() && Plug(ctx, t) == tree && t.Fork? && t.node == node
      requires InOrder(tree) == a + [node] + z && z == InOrder(t.right) + After(ctx) && a == Before(ctx) + InOrder(t.left)
      modifies this`treeFirst, this`treeLast
      ensures Holds(tree, timeoTree)
      ensures Dues(a + [node] + z) == old(Dues(a + [node] + z))
      ensures treeFirst == FirstOf(a + z) && treeLast == LastOf(a + z)
    {
      DistinctInOrder(tree);
      EndsWithout(a, node, z);
      if node == treeFirst {
        treeFirst := Next(node, timeoTree, ctx, t);
      }
      if node == treeLast {
        treeLast := Prev(node, timeoTree, ctx, t);
      }
    }

    static lemma EndsWithout(a: seq<RbNode>, x: RbNode, z: seq<RbNode>)
      requires NoDuplicates(a + [x] + z)
      ensures FirstOf(a + z) == if x == FirstOf(a + [x] + z) then FirstOf(z) else FirstOf(a + [x] + z)
      ensures LastOf(a + z) == if x == LastOf(a + [x] + z) then LastOf(a) else LastOf(a + [x] + z)
    {
      var s := a + [x] + z;
      assert s[|a|] == x;
    }

    static lemma SplitOrder<N>(ctx: Context<N>, t: Tree<N>)
      requires t.Fork?
      ensures InOrder(Plug(ctx, t)) == (Before(ctx) + InOrder(t.left)) + [t.node] + (InOrder(t.right) + After(ctx))
    {
      PlugInOrder(ctx, t);
      Regroup(Before(ctx), InOrder(t.left), [t.node], InOrder(t.right), After(ctx));
    }

    static lemma Regroup<T>(a: seq<T>, b: seq<T>, x: seq<T>, c: seq<T>, d: seq<T>)
      ensures a + (b + x + c) + d == (a + b) + x + (c + d)
      ensures a + (b + c) + d == (a + b) + (c + d)
    {
    }

    static method EraseKeeping(node: RbNode, root: Root, ghost ctx: Context<RbNode>, ghost t: Tree<RbNode>,
                               ghost a: seq<RbNode>, ghost z: seq<RbNode>, ghost watched: seq<RbNode>)
      returns (ghost w: Tree<RbNode>)
      requires Holds(Plug(ctx, t), root) && RedBlack(Plug(ctx, t)) && t.Fork? && t.node == node
      requires z == InOrder(t.right) + After(ctx) && a == Before(ctx) + InOrder(t.left)
      modifies root, Nodes(Plug(ctx, t))`parent, Nodes(Plug(ctx, t))`left,
               Nodes(Plug(ctx, t))`right, Nodes(Plug(ctx, t))`color
      ensures Holds(w, root) && RedBlack(w) && Nodes(w) == Nodes(Plug(ctx, t)) - {node}
      ensures InOrder(w) == a + z && Dues(a + [node] + z) == old(Dues(a + [node] + z))
      ensures Dues(watched) == old(Dues(watched))
    {
      w := Erase(node, root, ctx, t);
      Regroup(Before(ctx), InOrder(t.left), [node], InOrder(t.right), After(ctx));
    }

    static lemma ErasedAscending(a: seq<RbNode>, x: RbNode, z: seq<RbNode>)
      requires Ascending(Dues(a + [x] + z))
      ensures Ascending(Dues(a + z))
    {
      var s, s', ts, ts' := a + [x] + z, a + z, Dues(a + [x] + z), Dues(a + z);
      assert forall i :: 0 <= i < |a| ==> ts'[i] == ts[i];
      assert forall i :: |a| <= i < |ts'| ==> s'[i] == s[i + 1] && ts'[i] == ts[i + 1];
    }

    // ---------------------------------------------------------------------------------
    // The whole index

    ghost function Pending(): set<RbNode>
      reads this`timeoList, this`tree
    {
      Elements(timeoList) + Nodes(tree)
    }

    ghost function Linked(): set<RbNode>
      reads this`timeoList, this`noTimeoList, this`tree
    {
      Pending() + Elements(noTimeoList)
    }

    ghost predicate ListsValid()
      reads this`timeoList, this`noTimeoList, this`tree, timeoList, noTimeoList
    {
      && Ascending(Dues(timeoList)) && NoDuplicates(timeoList) && NoDuplicates(noTimeoList)
      && (forall n :: n in timeoList ==> n !in Nodes(tree) && n !in noTimeoList && !n.inTree)
      && (forall n :: n in noTimeoList ==> n !in Nodes(tree) && !n.inTree)
    }

    ghost predicate Valid()
      reads this`treeFirst, this`treeLast, this`tree, this`timeoList, this`noTimeoList
      reads timeoTree, Nodes(tree), timeoList, noTimeoList
    {
      TreeValid() && ListsValid() && forall n :: n in Nodes(tree) ==> n.inTree
    }

    // The timer is armed, and early enough, for the node; deadlines are times of a running
    // clock, so the zero that disarms is none of them.
    ghost predicate EarlyFor(n: RbNode?)
      reads this`timer, n
    {
      n != null ==> Cmp(DISARMED, timer) < 0 && Cmp(timer, n.timeout) <= 0
    }

    ghost predicate TimerEarly()
      reads this`timer, this`timeoList, this`treeFirst, timeoList, treeFirst
    {
      EarlyFor(treeFirst) && EarlyFor(FirstOf(timeoList))
    }

    // At every time the armed timer is no later than any pending deadline.
    lemma TimerNeverLate(n: RbNode)
      requires Valid() && TimerEarly() && n in Pending()
      ensures DISARMED.Nanos() < timer.Nanos() <= n.timeout.Nanos()
    {
      TreeHeadLeast();
      ListHeadLeast(timeoList);
      CmpIsTime(DISARMED, timer);
      CmpIsTime(timer, n.timeout);
    }

    // The earliest deadlines of the two tiers are at their heads.
    static lemma ListHeadLeast(s: seq<RbNode>)
      requires Ascending(Dues(s))
      ensures forall n :: n in s ==> Cmp(s[0].timeout, n.timeout) <= 0
    {
      forall n | n in s ensures Cmp(s[0].timeout, n.timeout) <= 0 {
        var i :| 0 <= i < |s| && s[i] == n;
        assert Dues(s)[i] == n.timeout && Dues(s)[0] == s[0].timeout;
      }
    }

    lemma TreeHead()
      requires TreeValid()
      ensures treeFirst == FirstOf(InOrder(tree)) && forall n :: n in InOrder(tree) ==> n in Nodes(tree)
    {
      InOrderInside(tree);
    }

    lemma TreeHeadLeast()
      requires TreeValid()
      ensures forall n :: n in Nodes(tree) ==> treeFirst != null && Cmp(treeFirst.timeout, n.timeout) <= 0
      ensures treeFirst == null <==> Nodes(tree) == {}
      ensures treeFirst != null ==> treeFirst in Nodes(tree)
    {
      InOrderInside(tree);
      ListHeadLeast(InOrder(tree));
      forall n | n in Nodes(tree) ensures n in InOrder(tree) {
        InOrderNodes(tree, n);
      }
    }

    // list_add to the empty list or list_add_tail (poller.c:1068 and 1073)
    method ListAppend(node: RbNode)
      requires Valid() && node !in Linked() && !node.inTree
      requires timeoList == [] || Cmp(node.timeout, timeoList[|timeoList| - 1].timeout) >= 0
      modifies this`timeoList
      ensures Valid() && timeoList == old(timeoList) + [node] && Pending() == old(Pending()) + {node}
    {
      ghost var s, ts := timeoList, Dues(timeoList);
      timeoList := timeoList + [node];
      assert Dues(timeoList) == ts + [node.timeout];
      if s != [] { AppendBelongs(ts, node.timeout); }
    }

    // poller.c:1078
    method TreeAdd(node: RbNode, ghost members: set<RbNode>)
      requires Valid() && node !in Linked() && members == Nodes(tree)
      modifies timeoTree, this`treeFirst, this`treeLast, this`tree, node`inTree
      modifies (Nodes(tree) + {node})`parent, (Nodes(tree) + {node})`left,
               (Nodes(tree) + {node})`right, (Nodes(tree) + {node})`color
      ensures Valid() && Nodes(tree) == members + {node}
      ensures treeFirst != node ==> treeFirst == old(treeFirst) && EarlyFor(treeFirst) == old(EarlyFor(treeFirst))
      ensures treeFirst != null
    {
      hide TreeValid, Ascending, Belongs;
      ghost var ts := Dues(timeoList);
      TreeHead();
      ghost var k := TreeInsert(node);
      TreeHead();
      assert Dues(timeoList) == ts;
      assert forall n :: n in members && n != node ==> n.inTree == old(n.inTree);
    }

    // __poller_insert_node (poller.c:1060-1087)
    method InsertNode(node: RbNode)
      requires Valid() && TimerEarly() && node !in Linked() && !node.inTree
      requires Cmp(DISARMED, node.timeout) < 0
      modifies timeoTree, this`treeFirst, this`treeLast, this`tree, this`timeoList, this`timer, node`inTree
      modifies (Nodes(tree) + {node})`parent, (Nodes(tree) + {node})`left,
               (Nodes(tree) + {node})`right, (Nodes(tree) + {node})`color
      ensures Valid() && TimerEarly()
      ensures Pending() == old(Pending()) + {node}
    {
      var end: RbNode?;
      if timeoList == [] {
        ListAppend(node);
        end := treeFirst;
      } else if Cmp(node.timeout, timeoList[|timeoList| - 1].timeout) >= 0 {
        ListAppend(node);
        return;
      } else {
        TreeAdd(node, Nodes(tree));
        if node != treeFirst {
          return;
        }
        end := timeoList[0];
      }
      Rearm(node, end);
    }

    // poller.c:1085-1086
    method Rearm(node: RbNode, end: RbNode?)
      requires Valid() && Cmp(DISARMED, node.timeout) < 0 && EarlyFor(end)
      requires (node == FirstOf(timeoList) && end == treeFirst) || (node == treeFirst && end == FirstOf(timeoList) != null)
      modifies this`timer
      ensures Valid() && TimerEarly()
    {
      if treeFirst == null || Cmp(node.timeout, end.timeout) < 0 {
        timer := node.timeout;
      }
    }

    // "if in_rbtree then tree_erase else list_del" (poller.c:212-215, 1215-1218, 1284-1287, 1343-1346)
    method Detach(node: RbNode, ghost members: set<RbNode>)
      requires Valid() && TimerEarly() && node in Linked() && members == Nodes(tree)
      modifies timeoTree, this`treeFirst, this`treeLast, this`tree, this`timeoList, this`noTimeoList, node`inTree
      modifies Nodes(tree)`parent, Nodes(tree)`left, Nodes(tree)`right, Nodes(tree)`color
      ensures Valid() && TimerEarly() && !node.inTree
      ensures Pending() == old(Pending()) - {node} && Linked() == old(Linked()) - {node}
      ensures forall n :: n in members ==> n.timeout == old(n.timeout)
      ensures Nodes(tree) <= members
    {
      hide TreeValid, Ascending;
      if node.inTree {
        EraseMember(node, members);
      } else if node in timeoList {
        TimeoListErase(node);
      } else {
        NoTimeoListErase(node);
      }
    }

    method EraseMember(node: RbNode, ghost members: set<RbNode>)
      requires Valid() && TimerEarly() && node in Nodes(tree) && members == Nodes(tree)
      modifies timeoTree, this`treeFirst, this`treeLast, this`tree, node`inTree
      modifies Nodes(tree)`parent, Nodes(tree)`left, Nodes(tree)`right, Nodes(tree)`color
      ensures Valid() && TimerEarly() && !node.inTree && Nodes(tree) == members - {node}
      ensures forall n :: n in members ==> n.timeout == old(n.timeout)
    {
      hide TreeValid, Ascending;
      TreeHeadLeast();
      assert forall n :: n in members ==> EarlyFor(n);
      ghost var ts := Dues(timeoList);
      ghost var a, z := TreeErase(node);
      assert Dues(timeoList) == ts;
      assert forall n :: n in members && n != node ==> n.inTree == old(n.inTree);
      StillValid(members);
    }

    // The tree has lost nodes; the lists are as they were.
    lemma StillValid(members: set<RbNode>)
      requires TreeValid() && Nodes(tree) <= members
      requires Ascending(Dues(timeoList)) && NoDuplicates(timeoList) && NoDuplicates(noTimeoList)
      requires forall n :: n in timeoList ==> n !in members && n !in noTimeoList && !n.inTree
      requires forall n :: n in noTimeoList ==> n !in members && !n.inTree
      requires EarlyFor(FirstOf(timeoList)) && forall n :: n in Nodes(tree) ==> n.inTree && EarlyFor(n)
      ensures Valid() && TimerEarly()
    {
      TreeHeadLeast();
      hide TreeValid, Ascending;
    }

    // list_del of a node on timeo_list
    method TimeoListErase(node: RbNode)
      requires Valid() && TimerEarly() && node in timeoList
      modifies this`timeoList
      ensures Valid() && TimerEarly() && timeoList == Without(old(timeoList), node)
      ensures Pending() == old(Pending()) - {node} && Linked() == old(Linked()) - {node}
    {
      hide TreeValid, Ascending;
      ghost var s := Without(timeoList, node);
      WithoutFacts(timeoList, node);
      WithoutAscending(timeoList, node);
      ListHeadLeast(timeoList);
      assert forall n :: n in s ==> n in Elements(s) && n in timeoList;
      timeoList := Without(timeoList, node);
    }

    // list_del of a node on no_timeo_list
    method NoTimeoListErase(node: RbNode)
      requires Valid() && TimerEarly() && node in noTimeoList
      modifies this`noTimeoList
      ensures Valid() && TimerEarly()
      ensures Pending() == old(Pending()) - {node} && Linked() == old(Linked()) - {node}
    {
      ghost var s := Without(noTimeoList, node);
      WithoutFacts(noTimeoList, node);
      assert forall n :: n in s ==> n in Elements(s) && n in noTimeoList;
      noTimeoList := Without(noTimeoList, node);
    }

    static lemma WithoutAscending(s: seq<RbNode>, x: RbNode)
      requires Ascending(Dues(s))
      ensures Ascending(Dues(Without(s, x)))
    {
      var a, z := WithoutSplit(s, x);
      if x in s { ErasedAscending(a, x, z); }
    }
    // ---------------------------------------------------------------------------------
    // The lock-protected regions

    // nodes[fd] leads to a node exactly while it is linked.
    static ghost predicate Indexes(nodes: map<int, RbNode>, linked: set<RbNode>) {
      && (forall fd :: fd in nodes ==> fd >= 0 && nodes[fd] in linked && nodes[fd].fd == fd)
      && (forall n :: n in linked && n.fd >= 0 ==> n.fd in nodes && nodes[n.fd] == n)
    }

    static lemma IndexesWithout(nodes: map<int, RbNode>, linked: set<RbNode>, node: RbNode)
      requires Indexes(nodes, linked) && node in linked
      ensures Indexes(if node.fd >= 0 then nodes - {node.fd} else nodes, linked - {node})
    {
    }

    ghost predicate Inv()
      reads this, timeoTree, Nodes(tree), timeoList, noTimeoList, treeFirst
    {
      Valid() && TimerEarly() && Indexes(nodes, Linked())
    }

    // __poller_set_timer (poller.c:819-846)
    method SetTimer()
      requires Inv()
      modifies this`timer
      ensures Inv()
      ensures Pending() == {} ==> timer == DISARMED
      ensures Pending() != {} ==> exists n :: n in Pending() && n.timeout == timer
      ensures forall n :: n in Pending() ==> timer.Nanos() <= n.timeout.Nanos()
    {
      hide TreeValid, Indexes, Ascending;
      TreeHeadLeast();
      ListHeadLeast(timeoList);
      var node: RbNode? := null;
      if timeoList != [] {
        node := timeoList[0];
      }
      if treeFirst != null {
        var first := treeFirst;
        if node == null || Cmp(first.timeout, node.timeout) < 0 {
          node := first;
        }
      }
      assert node == null <==> Pending() == {} by {
        if timeoList != [] { assert timeoList[0] in Pending(); }
      }
      assert node != null ==> node in Pending();
      if node != null {
        timer := node.timeout;
      } else {
        timer := Timespec(0, 0);
      }
      forall n | n in Pending() ensures timer.Nanos() <= n.timeout.Nanos() { CmpIsTime(timer, n.timeout); }
    }

    // poller.c:763-778: the due head of timeo_list.
    method ExpireList(now: Timespec) returns (out: seq<RbNode>)
      requires Inv()
      modifies this`timeoList, this`nodes
      ensures Inv() && old(timeoList) == out + timeoList && Linked() == old(Linked()) - Elements(out)
      ensures forall n :: n in out ==> Cmp(n.timeout, now) <= 0
      ensures forall n :: n in timeoList ==> Cmp(n.timeout, now) > 0
    {
      hide TreeValid, Indexes;
      ghost var l0, i := timeoList, 0;
      out := [];
      while timeoList != [] && Cmp(timeoList[0].timeout, now) <= 0
        invariant Inv() && i <= |l0| && out == l0[..i] && timeoList == l0[i..]
        invariant Linked() == old(Linked()) - Elements(out)
        invariant forall j :: 0 <= j < i ==> Cmp(l0[j].timeout, now) <= 0
        decreases |timeoList|
      {
        var node := ExpireHead();
        assert Elements(out + [node]) == Elements(out) + {node};
        out := out + [node];
        i := i + 1;
      }
      ListHeadLeast(timeoList);
    }

    // poller.c:768-774
    method ExpireHead() returns (node: RbNode)
      requires Inv() && timeoList != []
      modifies this`timeoList, this`nodes
      ensures Inv() && node == old(timeoList)[0] && timeoList == old(timeoList)[1..]
      ensures Linked() == old(Linked()) - {node}
    {
      node := timeoList[0];
      IndexesWithout(nodes, Linked(), node);
      if node.fd >= 0 {
        nodes := nodes - {node.fd};
      }
      TimeoListErase(node);
    }

    // rb_next and rb_erase of tree_first (poller.c:793-799)
    method PopFirst(node: RbNode, ghost watched: seq<RbNode>) returns (ghost a: seq<RbNode>, ghost z: seq<RbNode>)
      requires TreeValid() && node == treeFirst
      modifies timeoTree, this`treeFirst, this`treeLast, this`tree
      modifies Nodes(tree)`parent, Nodes(tree)`left, Nodes(tree)`right, Nodes(tree)`color
      ensures TreeValid() && a == [] && old(InOrder(tree)) == a + [node] + z && InOrder(tree) == a + z
      ensures Nodes(tree) == old(Nodes(tree)) - {node}
      ensures Dues(watched) == old(Dues(watched))
    {
      ghost var ctx, t;
      a, z, ctx, t := SplitAtFirst(node);
      MoveFirst(node, ctx, t, a, z, watched);
      tree := EraseKeeping(node, timeoTree, ctx, t, a, z, watched);
      ErasedAscending(a, node, z);
    }

    method MoveFirst(node: RbNode, ghost ctx: Context<RbNode>, ghost t: Tree<RbNode>, ghost a: seq<RbNode>, ghost z: seq<RbNode>,
                     ghost watched: seq<RbNode>)
      requires TreeValid() && Plug(ctx, t) == tree && t.Fork? && t.node == node && node == treeFirst
      requires a == [] && InOrder(tree) == a + [node] + z && z == InOrder(t.right) + After(ctx)
      modifies this`treeFirst, this`treeLast
      ensures Holds(tree, timeoTree)
      ensures Dues(a + [node] + z) == old(Dues(a + [node] + z)) && Dues(watched) == old(Dues(watched))
      ensures treeFirst == FirstOf(a + z) && treeLast == LastOf(a + z)
    {
      assert a + z == z;
      treeFirst := Next(node, timeoTree, ctx, t);
      if treeFirst == null {
        treeLast := null;
      }
    }

    lemma SplitAtFirst(node: RbNode) returns (a: seq<RbNode>, z: seq<RbNode>, ctx: Context<RbNode>, t: Tree<RbNode>)
      requires TreeValid() && node == treeFirst
      ensures Plug(ctx, t) == tree && t.Fork? && t.node == node
      ensures a == Before(ctx) + InOrder(t.left) && z == InOrder(t.right) + After(ctx)
      ensures a == [] && InOrder(tree) == a + [node] + z
    {
      InOrderInside(tree);
      ctx, t := SplitAt(Hole, tree, node);
      a, z := Before(ctx) + InOrder(t.left), InOrder(t.right) + After(ctx);
      SplitOrder(ctx, t);
      DistinctInOrder(tree);
      assert InOrder(tree)[|a|] == node;
    }

    // The first i nodes s0[..i] of what was the tree are taken out; ts are their deadlines.
    ghost predicate ExpiredSoFar(now: Timespec, s0: seq<RbNode>, ts: seq<Timespec>, i: nat,
                                 members: set<RbNode>, linked: set<RbNode>)
      reads this`treeFirst, this`treeLast, this`tree, this`nodes, timeoTree, Nodes(tree), s0
    {
      && TreeValid() && i <= |s0| && InOrder(tree) == s0[i..]
      && Nodes(tree) == members - Elements(s0[..i]) && Indexes(nodes, linked - Elements(s0[..i]))
      && Dues(s0) == ts && forall j :: 0 <= j < i ==> Cmp(ts[j], now) < 0
    }

    // poller.c:780-804: the nodes of the tree that are overdue.
    method ExpireTree(now: Timespec, ghost s0: seq<RbNode>, ghost ts: seq<Timespec>) returns (out: seq<RbNode>)
      requires TreeValid() && s0 == InOrder(tree) && ts == Dues(s0) && Indexes(nodes, Linked())
      modifies timeoTree, this`treeFirst, this`treeLast, this`tree, this`nodes
      modifies Nodes(tree)`parent, Nodes(tree)`left, Nodes(tree)`right, Nodes(tree)`color
      ensures ExpiredSoFar(now, s0, ts, |out|, old(Nodes(tree)), old(Linked())) && out == s0[..|out|]
      ensures |out| < |s0| ==> Cmp(ts[|out|], now) >= 0
    {
      hide TreeValid, ExpiredSoFar, Indexes, Linked;
      out := [];
      ghost var i, members, linked := 0, Nodes(tree), Linked();
      NoneExpired(now, s0, ts);
      while treeFirst != null && Cmp(treeFirst.timeout, now) < 0
        invariant ExpiredSoFar(now, s0, ts, i, members, linked) && i <= |s0| && out == s0[..i]
        invariant Nodes(tree) <= members <= linked
        decreases |s0| - i
      {
        var node: RbNode := treeFirst;
        ExpireFirst(now, node, s0, ts, i, members, linked);
        out := out + [node];
        i := i + 1;
      }
      RestPending(now, s0, ts, i, members, linked);
    }

    lemma NoneExpired(now: Timespec, s0: seq<RbNode>, ts: seq<Timespec>)
      requires TreeValid() && s0 == InOrder(tree) && ts == Dues(s0) && Indexes(nodes, Linked())
      ensures ExpiredSoFar(now, s0, ts, 0, Nodes(tree), Linked()) && Nodes(tree) <= Linked()
    {
      hide Holds, RedBlack, Ascending, Indexes;
      assert s0[0..] == s0 && Elements(s0[..0]) == {};
      assert Nodes(tree) - {} == Nodes(tree) && Linked() - {} == Linked();
    }

    lemma RestPending(now: Timespec, s0: seq<RbNode>, ts: seq<Timespec>, i: nat, members: set<RbNode>, linked: set<RbNode>)
      requires ExpiredSoFar(now, s0, ts, i, members, linked) && (treeFirst != null ==> Cmp(treeFirst.timeout, now) >= 0)
      ensures i <= |s0| == |ts| && (i < |s0| ==> Cmp(ts[i], now) >= 0)
    {
      hide Holds, RedBlack, Ascending, Indexes;
    }

    // poller.c:787-794
    method ExpireFirst(now: Timespec, node: RbNode, ghost s0: seq<RbNode>, ghost ts: seq<Timespec>, ghost i: nat,
                       ghost members: set<RbNode>, ghost linked: set<RbNode>)
      requires ExpiredSoFar(now, s0, ts, i, members, linked) && members <= linked
      requires node == treeFirst && Cmp(node.timeout, now) < 0
      modifies timeoTree, this`treeFirst, this`treeLast, this`tree, this`nodes
      modifies Nodes(tree)`parent, Nodes(tree)`left, Nodes(tree)`right, Nodes(tree)`color
      ensures ExpiredSoFar(now, s0, ts, i + 1, members, linked)
      ensures i < |s0| && s0[..i + 1] == s0[..i] + [node] && Nodes(tree) <= old(Nodes(tree))
    {
      TreeHeadLeast();
      assert node.timeout == ts[i];
      IndexesWithout(nodes, linked - Elements(s0[..i]), node);
      if node.fd >= 0 {
        nodes := nodes - {node.fd};
      }
      hide Indexes, Ascending, Holds, RedBlack;
      ghost var a, z := PopFirst(node, s0);
      OneMoreExpired(now, s0, ts, i, members, linked, node, a, z);
    }

    lemma OneMoreExpired(now: Timespec, s0: seq<RbNode>, ts: seq<Timespec>, i: nat, members: set<RbNode>, linked: set<RbNode>,
                         node: RbNode, a: seq<RbNode>, z: seq<RbNode>)
      requires TreeValid() && InOrder(tree) == a + z && i < |s0| && a == [] && s0[i..] == a + [node] + z && Dues(s0) == ts
      requires Nodes(tree) == members - Elements(s0[..i]) - {node} && Indexes(nodes, linked - Elements(s0[..i]) - {node})
      requires Cmp(ts[i], now) < 0 && forall j :: 0 <= j < i ==> Cmp(ts[j], now) < 0
      ensures ExpiredSoFar(now, s0, ts, i + 1, members, linked) && s0[..i + 1] == s0[..i] + [node]
    {
      hide TreeValid, Indexes;
      Popped(s0, i, a, node, z);
      assert members - Elements(s0[..i]) - {node} == members - Elements(s0[..i + 1]);
      assert linked - Elements(s0[..i]) - {node} == linked - Elements(s0[..i + 1]);
    }

    static lemma Popped<T>(s: seq<T>, i: nat, a: seq<T>, x: T, z: seq<T>)
      requires i <= |s| && a == [] && s[i..] == a + [x] + z
      ensures i < |s| && s[i] == x && a + z == s[i + 1..] && s[..i] + [x] == s[..i + 1]
      ensures Elements(s[..i + 1]) == Elements(s[..i]) + {x}
    {
      assert s[i..] == [x] + z;
      assert s[i + 1..] == s[i..][1..];
    }

    // The locked half of __poller_handle_timeout (poller.c:762-806): what has expired, in the
    // order in which it is delivered: a beginning of the list, then one of the tree.
    method HandleTimeout(now: Timespec, ghost members: set<RbNode>) returns (expired: seq<RbNode>)
      requires Inv() && members == Nodes(tree)
      modifies timeoTree, this`treeFirst, this`treeLast, this`tree, this`timeoList, this`nodes
      modifies Nodes(tree)`parent, Nodes(tree)`left, Nodes(tree)`right, Nodes(tree)`color
      ensures Inv() && Linked() == old(Linked()) - Elements(expired)
      ensures forall n :: n in expired <==>
        || (n in old(timeoList) && n.timeout.Nanos() <= now.Nanos())
        || (n in members && n.timeout.Nanos() < now.Nanos())
      ensures var k := |old(timeoList)| - |timeoList|;
        0 <= k <= |expired| && expired[..k] + timeoList == old(timeoList) && expired[k..] <= old(InOrder(tree))
      ensures timer == old(timer) && noTimeoList == old(noTimeoList)
    {
      hide Valid, TimerEarly, Indexes;
      var fromList := ExpireList(now);
      var fromTree := ExpireTreePart(now, InOrder(tree), members);
      expired := fromList + fromTree;
      forall n: RbNode ensures Cmp(n.timeout, now) < 0 <==> n.timeout.Nanos() < now.Nanos()
        ensures Cmp(n.timeout, now) == 0 <==> n.timeout.Nanos() == now.Nanos()
      {
        CmpIsTime(n.timeout, now);
      }
      assert Elements(expired) == Elements(fromList) + Elements(fromTree);
      assert expired[..|fromList|] == fromList && expired[|fromList|..] == fromTree;
    }

    method ExpireTreePart(now: Timespec, ghost s0: seq<RbNode>, ghost members: set<RbNode>) returns (out: seq<RbNode>)
      requires Inv() && members == Nodes(tree) && s0 == InOrder(tree)
      modifies timeoTree, this`treeFirst, this`treeLast, this`tree, this`nodes
      modifies Nodes(tree)`parent, Nodes(tree)`left, Nodes(tree)`right, Nodes(tree)`color
      ensures Inv() && Linked() == old(Linked()) - Elements(out)
      ensures forall n :: n in out <==> n in members && Cmp(n.timeout, now) < 0
      ensures out <= s0 && timeoList == old(timeoList)
    {
      ghost var ts, ls, ns := Dues(s0), Elements(timeoList), Elements(noTimeoList);
      SameMembers(tree);
      assert ls !! members && ns !! members && Linked() == ls + members + ns;
      out := ExpireFramed(now, s0, ts, members);
      ExpiredExactly(now, s0, ts, |out|, members);
      Shrink(ls, members, ns, Elements(out));
    }

    static lemma Shrink<T>(a: set<T>, b: set<T>, c: set<T>, x: set<T>)
      requires a !! b && c !! b && x <= b
      ensures a + (b - x) + c == a + b + c - x
    {
    }

    method ExpireFramed(now: Timespec, ghost s0: seq<RbNode>, ghost ts: seq<Timespec>, ghost members: set<RbNode>)
      returns (out: seq<RbNode>)
      requires Inv() && members == Nodes(tree) && s0 == InOrder(tree) && ts == Dues(s0)
      modifies timeoTree, this`treeFirst, this`treeLast, this`tree, this`nodes
      modifies Nodes(tree)`parent, Nodes(tree)`left, Nodes(tree)`right, Nodes(tree)`color
      ensures ExpiredSoFar(now, s0, ts, |out|, members, old(Linked())) && out == s0[..|out|]
      ensures |out| < |s0| ==> Cmp(ts[|out|], now) >= 0
      ensures Valid() && TimerEarly()
    {
      hide TreeValid, Ascending, Indexes;
      ghost var tl := Dues(timeoList);
      TreeHeadLeast();
      assert forall n :: n in members ==> EarlyFor(n);
      out := ExpireTree(now, s0, ts);
      assert Dues(timeoList) == tl;
      assert forall n :: n in members ==> n.inTree == old(n.inTree);
      StillValid(members);
    }

    static lemma SameMembers<N>(t: Tree<N>)
      ensures Elements(InOrder(t)) == Nodes(t)
    {
      InOrderInside(t);
      forall n | n in Nodes(t) ensures n in InOrder(t) { InOrderNodes(t, n); }
    }

    lemma ExpiredExactly(now: Timespec, s0: seq<RbNode>, ts: seq<Timespec>, k: nat, members: set<RbNode>)
      requires k <= |s0| && Dues(s0) == ts && Ascending(ts) && Elements(s0) == members
      requires forall j :: 0 <= j < k ==> Cmp(ts[j], now) < 0
      requires k < |s0| ==> Cmp(ts[k], now) >= 0
      ensures forall n :: n in s0[..k] <==> n in members && Cmp(n.timeout, now) < 0
    {
      forall n | n in s0 ensures n in s0[..k] <==> Cmp(n.timeout, now) < 0 {
        var i :| 0 <= i < |s0| && s0[i] == n;
        assert ts[i] == n.timeout;
        if i < k { assert s0[..k][i] == n; }
        if n in s0[..k] { var j :| 0 <= j < k && s0[..k][j] == n; assert ts[j] == n.timeout; }
      }
    }

    // "insert_node or list_add_tail to no_timeo_list" (poller.c:1178-1181, 1302-1305, 1348-1354)
    method Link(node: RbNode, timed: bool)
      requires Valid() && TimerEarly() && node !in Linked() && !node.inTree
      requires timed ==> Cmp(DISARMED, node.timeout) < 0
      modifies timeoTree, this`treeFirst, this`treeLast, this`tree, this`timeoList, this`noTimeoList, this`timer, node`inTree
      modifies (Nodes(tree) + {node})`parent, (Nodes(tree) + {node})`left,
               (Nodes(tree) + {node})`right, (Nodes(tree) + {node})`color
      ensures Valid() && TimerEarly()
      ensures Pending() == old(Pending()) + (if timed then {node} else {}) && Linked() == old(Linked()) + {node}
    {
      if timed {
        InsertNode(node);
      } else {
        NoTimeoAppend(node);
      }
    }

    method NoTimeoAppend(node: RbNode)
      requires Valid() && TimerEarly() && node !in Linked() && !node.inTree
      modifies this`noTimeoList
      ensures Valid() && TimerEarly() && noTimeoList == old(noTimeoList) + [node]
      ensures Pending() == old(Pending()) && Linked() == old(Linked()) + {node}
    {
      noTimeoList := noTimeoList + [node];
    }

    static lemma IndexesWith(nodes: map<int, RbNode>, linked: set<RbNode>, node: RbNode)
      requires Indexes(nodes, linked) && node !in linked && (node.fd >= 0 ==> node.fd !in nodes)
      ensures Indexes(if node.fd >= 0 then nodes[node.fd := node] else nodes, linked + {node})
    {
    }

    // poller_add (poller.c:1173-1188), the registration with epoll succeeding
    method Add(node: RbNode, timed: bool) returns (ok: bool)
      requires Inv() && node !in Linked() && !node.inTree && node.fd >= 0
      requires timed ==> Cmp(DISARMED, node.timeout) < 0
      modifies timeoTree, this`treeFirst, this`treeLast, this`tree, this`timeoList, this`noTimeoList, this`timer,
               this`nodes, node`inTree
      modifies (Nodes(tree) + {node})`parent, (Nodes(tree) + {node})`left,
               (Nodes(tree) + {node})`right, (Nodes(tree) + {node})`color
      ensures Inv() && (ok <==> node.fd !in old(nodes))
      ensures nodes == if ok then old(nodes)[node.fd := node] else old(nodes)
      ensures Linked() == old(Linked()) + if ok then {node} else {}
      ensures Pending() == old(Pending()) + if ok && timed then {node} else {}
    {
      ok := node.fd !in nodes;
      if ok {
        IndexesWith(nodes, Linked(), node);
        Link(node, timed);
        nodes := nodes[node.fd := node];
      }
    }

    // poller_add_timer (poller.c:1388-1390): no descriptor, so no entry in nodes
    method AddTimer(node: RbNode)
      requires Inv() && node !in Linked() && !node.inTree && node.fd == -1 && Cmp(DISARMED, node.timeout) < 0
      modifies timeoTree, this`treeFirst, this`treeLast, this`tree, this`timeoList, this`noTimeoList, this`timer,
               this`nodes, node`inTree
      modifies (Nodes(tree) + {node})`parent, (Nodes(tree) + {node})`left,
               (Nodes(tree) + {node})`right, (Nodes(tree) + {node})`color
      ensures Inv() && nodes == old(nodes)
      ensures Linked() == old(Linked()) + {node} && Pending() == old(Pending()) + {node}
    {
      IndexesWith(nodes, Linked(), node);
      InsertNode(node);
    }

    // poller_del (poller.c:1209-1236): the node taken out is what goes into the pipe
    method Del(fd: int, ghost members: set<RbNode>) returns (node: RbNode?)
      requires Inv() && members == Nodes(tree)
      modifies timeoTree, this`treeFirst, this`treeLast, this`tree, this`timeoList, this`noTimeoList, this`nodes
      modifies (if fd in nodes then {nodes[fd]} else {})`inTree
      modifies Nodes(tree)`parent, Nodes(tree)`left, Nodes(tree)`right, Nodes(tree)`color
      ensures Inv() && node == (if fd in old(nodes) then old(nodes)[fd] else null)
      ensures nodes == old(nodes) - {fd}
      ensures Linked() == old(Linked()) - {node} && Pending() == old(Pending()) - {node}
      ensures node != null ==> node in old(Linked()) && !node.inTree
    {
      hide Valid, TimerEarly;
      node := if fd in nodes then nodes[fd] else null;
      if node != null {
        IndexesWithout(nodes, Linked(), node);
        Detach(node, members);
      }
      nodes := nodes - {fd};
    }

    // poller_mod (poller.c:1278-1314): the new node takes the place of the old one
    method Mod(node: RbNode, timed: bool, ghost members: set<RbNode>) returns (old_: RbNode?)
      requires Inv() && node !in Linked() && !node.inTree && node.fd >= 0 && members == Nodes(tree)
      requires timed ==> Cmp(DISARMED, node.timeout) < 0
      modifies timeoTree, this`treeFirst, this`treeLast, this`tree, this`timeoList, this`noTimeoList, this`timer,
               this`nodes, node`inTree
      modifies (if node.fd in nodes then {nodes[node.fd]} else {})`inTree
      modifies (Nodes(tree) + {node})`parent, (Nodes(tree) + {node})`left,
               (Nodes(tree) + {node})`right, (Nodes(tree) + {node})`color
      ensures Inv() && old_ == (if node.fd in old(nodes) then old(nodes)[node.fd] else null)
      ensures nodes == if old_ == null then old(nodes) else old(nodes)[node.fd := node]
      ensures Linked() == if old_ == null then old(Linked()) else old(Linked()) - {old_} + {node}
      ensures old_ != null ==> Pending() == old(Pending()) - {old_} + if timed then {node} else {}
    {
      hide Valid, TimerEarly;
      old_ := if node.fd in nodes then nodes[node.fd] else null;
      if old_ != null {
        IndexesWithout(nodes, Linked(), old_);
        IndexesWith(nodes - {node.fd}, Linked() - {old_}, node);
        Detach(old_, members);
        Link(node, timed);
        nodes := nodes[node.fd := node];
      }
    }

    // poller.c:1350: a detached node gets its new deadline
    method Retime(node: RbNode, timeout: Timespec)
      requires Valid() && TimerEarly() && node !in Linked()
      modifies node`timeout
      ensures Valid() && TimerEarly() && node.timeout == timeout
    {
      hide Holds, RedBlack, Ascending;
      ghost var ts, tl := Dues(InOrder(tree)), Dues(timeoList);
      TreeHeadLeast();
      SameMembers(tree);
      assert timeoList != [] ==> timeoList[0] in Elements(timeoList);
      assert forall n :: n in timeoList ==> n in Elements(timeoList);
      assert forall n :: n in InOrder(tree) ==> n in Elements(InOrder(tree));
      node.timeout := timeout;
      assert Dues(InOrder(tree)) == ts && Dues(timeoList) == tl;
    }

    // poller_set_timeout (poller.c:1339-1357)
    method SetTimeout(fd: int, timed: bool, timeout: Timespec, ghost members: set<RbNode>) returns (node: RbNode?)
      requires Inv() && members == Nodes(tree) && (timed ==> Cmp(DISARMED, timeout) < 0)
      modifies timeoTree, this`treeFirst, this`treeLast, this`tree, this`timeoList, this`noTimeoList, this`timer
      modifies (if fd in nodes then {nodes[fd]} else {})`timeout, (if fd in nodes then {nodes[fd]} else {})`inTree
      modifies (if fd in nodes then {nodes[fd]} else {})`parent, (if fd in nodes then {nodes[fd]} else {})`left
      modifies (if fd in nodes then {nodes[fd]} else {})`right, (if fd in nodes then {nodes[fd]} else {})`color
      modifies Nodes(tree)`parent, Nodes(tree)`left, Nodes(tree)`right, Nodes(tree)`color
      ensures Inv() && node == (if fd in nodes then nodes[fd] else null) && Linked() == old(Linked())
      ensures node == null ==> Pending() == old(Pending())
      ensures node != null ==> Pending() == old(Pending()) - {node} + if timed then {node} else {}
      ensures node != null && timed ==> node.timeout == timeout
    {
      hide Valid, TimerEarly;
      node := if fd in nodes then nodes[fd] else null;
      if node != null {
        Detach(node, members);
        if timed {
          Retime(node, timeout);
        }
        Link(node, timed);
      }
    }
  }

  // list_del as seen on the list as a whole
  function Without<T(==)>(s: seq<T>, x: T): seq<T> {
    if s == [] then [] else if s[0] == x then s[1..] else [s[0]] + Without(s[1..], x)
  }

  lemma {:induction false} WithoutSplit<T>(s: seq<T>, x: T) returns (a: seq<T>, z: seq<T>)
    ensures x in s ==> s == a + [x] + z && Without(s, x) == a + z
    ensures x !in s ==> Without(s, x) == s
  {
    if s == [] {
      a, z := [], [];
    } else if s[0] == x {
      a, z := [], s[1..];
    } else {
      a, z := WithoutSplit(s[1..], x);
      a := [s[0]] + a;
      assert s == [s[0]] + s[1..];
    }
  }

  lemma WithoutFacts<T>(s: seq<T>, x: T)
    requires NoDuplicates(s)
    ensures NoDuplicates(Without(s, x))
    ensures Elements(Without(s, x)) == Elements(s) - {x}
  {
    hide Without, NoDuplicates;
    var a, z := WithoutSplit(s, x);
    if x in s { ApartWithout(a, x, z); }
  }

  lemma ApartWithout<T>(a: seq<T>, x: T, z: seq<T>)
    requires NoDuplicates(a + [x] + z)
    ensures NoDuplicates(a + z) && Elements(a + z) == Elements(a + [x] + z) - {x}
  {
    var s := a + [x] + z;
    forall i | 0 <= i < |a + z| ensures (a + z)[i] == s[if i < |a| then i else i + 1] && (a + z)[i] != x {
      assert s[|a|] == x;
    }
    forall y | y in s && y != x ensures y in a + z {
      var i :| 0 <= i < |s| && s[i] == y;
      assert (a + z)[if i < |a| then i else i - 1] == y;
    }
  }

  const DISARMED := Timespec(0, 0)
}
