/**
  src/struct/rbtree.c: a red-black tree with parent pointers, rebalanced in place.
  A ghost tree shadows the links: `Layout` says which four fields every node of a tree
  must hold, and `Holds(t, root)` that the heap holds exactly those.
 */
module RbTree {
  import opened RbShape

  const SECOND := 1_000_000_000

  // A struct timespec as the clock and the source leave it, with less than a second in nsec
  type Nsec = n: int | 0 <= n < SECOND

  datatype Timespec = Timespec(sec: int, nsec: Nsec) {
    // The time in nanoseconds
    function Nanos(): int {
      sec * SECOND + nsec
    }
  }

  // poller.c:139-148
  function Cmp(a: Timespec, b: Timespec): int {
    if a.sec - b.sec == 0 then a.nsec - b.nsec else a.sec - b.sec
  }

  // Seconds first, then nanoseconds: that is the order of time.
  lemma CmpIsTime(a: Timespec, b: Timespec)
    ensures Cmp(a, b) < 0 <==> a.Nanos() < b.Nanos()
    ensures Cmp(a, b) == 0 <==> a.Nanos() == b.Nanos()
  {
    if a.sec < b.sec {
      assert a.sec + 1 <= b.sec;
    } else if b.sec < a.sec {
      assert b.sec + 1 <= a.sec;
    }
  }

  // poller.c:1380-1386: so long from now
  function Later(now: Timespec, sec: int, nsec: Nsec): (due: Timespec)
    ensures due.Nanos() == now.Nanos() + Timespec(sec, nsec).Nanos()
  {
    if now.nsec + nsec >= SECOND then Timespec(now.sec + sec + 1, now.nsec + nsec - SECOND)
    else Timespec(now.sec + sec, now.nsec + nsec)
  }

  // __poller_node_set_timeout (poller.c:1089-1099): so many milliseconds from now
  function Deadline(now: Timespec, timeout: nat): (due: Timespec)
    ensures due.Nanos() == now.Nanos() + timeout * 1_000_000
  {
    Later(now, timeout / 1000, timeout % 1000 * 1_000_000)
  }

  // A struct rb_node together with the fields of the struct __poller_node around it
  // (poller.c:24-41); rb_entry goes from the one to the other.
  class RbNode {
    var parent: RbNode?
    var right: RbNode?
    var left: RbNode?
    var color: Color
    var timeout: Timespec
    const fd: int
    var inTree: bool

    constructor (fd: int, timeout: Timespec)
      ensures this.fd == fd && this.timeout == timeout && !inTree
    {
      this.fd, this.timeout, inTree := fd, timeout, false;
      parent, right, left, color := null, null, null, Red;
    }
  }

  class Root {
    var top: RbNode?

    constructor ()
      ensures top == null
    {
      top := null;
    }
  }

  // The contents of one struct rb_node.
  datatype Link = Link(parent: RbNode?, left: RbNode?, right: RbNode?, color: Color) {
    ghost function Child(side: Side): RbNode? {
      if side.OnLeft? then left else right
    }

    ghost function WithChild(side: Side, n: RbNode?): Link {
      if side.OnLeft? then this.(left := n) else this.(right := n)
    }
  }

  type Memory = map<RbNode, Link>

  ghost function LinkOf(n: RbNode): Link
    reads n
  {
    Link(n.parent, n.left, n.right, n.color)
  }

  ghost function Top(t: Tree<RbNode>): RbNode? {
    if t.Fork? then t.node else null
  }

  ghost function CtxTop(ctx: Context<RbNode>): RbNode? {
    if ctx.Hole? then null else ctx.node
  }

  // What the node n of t must hold when t hangs from p.
  ghost function Field(t: Tree<RbNode>, p: RbNode?, n: RbNode): Link
    requires n in Nodes(t)
  {
    if n == t.node then Link(p, Top(t.left), Top(t.right), t.color)
    else if n in Nodes(t.left) then Field(t.left, t.node, n)
    else Field(t.right, t.node, n)
  }

  // The same for the nodes of a context whose hole holds a tree with the given top.
  ghost function CtxField(ctx: Context<RbNode>, child: RbNode?, n: RbNode): Link
    requires n in CtxNodes(ctx)
  {
    var In(up, side, x, c, sib) := ctx;
    if n == x then
      if side.OnLeft? then Link(CtxTop(up), child, Top(sib), c) else Link(CtxTop(up), Top(sib), child, c)
    else if n in Nodes(sib) then Field(sib, x, n)
    else CtxField(up, x, n)
  }

  // The fields of all nodes of a tree; outside it the values are fixed, so that maps that agree are one.
  ghost function Layout(t: Tree<RbNode>): Memory {
    map n | n in Nodes(t) :: if n in Nodes(t) then Field(t, null, n) else Link(null, null, null, Red)
  }

  lemma {:induction false} PlugField(ctx: Context<RbNode>, t: Tree<RbNode>, n: RbNode)
    requires Distinct(Plug(ctx, t)) && n in Nodes(Plug(ctx, t))
    ensures n in Nodes(t) || n in CtxNodes(ctx)
    ensures Field(Plug(ctx, t), null, n) ==
            if n in Nodes(t) then Field(t, CtxTop(ctx), n) else CtxField(ctx, Top(t), n)
  {
    PlugNodes(ctx, t);
    if !ctx.Hole? { PlugField(ctx.up, Join(ctx.side, t, ctx.node, ctx.color, ctx.sibling), n); }
  }

  lemma {:induction false} PlugTop(ctx: Context<RbNode>, t: Tree<RbNode>, t': Tree<RbNode>)
    ensures ctx.Hole? ==> Plug(ctx, t) == t
    ensures !ctx.Hole? ==> Top(Plug(ctx, t)) == Top(Plug(ctx, t'))
  {
    if !ctx.Hole? {
      PlugTop(ctx.up, Join(ctx.side, t, ctx.node, ctx.color, ctx.sibling),
              Join(ctx.side, t', ctx.node, ctx.color, ctx.sibling));
    }
  }

  // The heap agrees with a memory on every node the memory knows.
  ghost predicate Stores(m: Memory)
    reads m.Keys
  {
    forall n :: n in m ==> LinkOf(n) == m[n]
  }

  ghost predicate Holds(t: Tree<RbNode>, root: Root)
    reads root, Nodes(t)
  {
    Distinct(t) && root.top == Top(t) && Stores(Layout(t))
  }

  // Reading the links of one node of a split tree.
  lemma ReadNode(ctx: Context<RbNode>, t: Tree<RbNode>)
    requires Distinct(Plug(ctx, t)) && t.Fork?
    ensures t.node in Layout(Plug(ctx, t))
    ensures Layout(Plug(ctx, t))[t.node] == Link(CtxTop(ctx), Top(t.left), Top(t.right), t.color)
  {
    PlugNodes(ctx, t);
    PlugField(ctx, t, t.node);
  }

  // ---------------------------------------------------------------------------------
  // Recolouring

  lemma Recolor(ctx: Context<RbNode>, t: Tree<RbNode>, c: Color)
    requires Distinct(Plug(ctx, t)) && t.Fork?
    ensures var w, w' := Plug(ctx, t), Plug(ctx, t.(color := c));
      && Distinct(w') && Nodes(w') == Nodes(w) && InOrder(w') == InOrder(w) && Top(w') == Top(w)
      && t.node in Nodes(w) && Layout(w') == Layout(w)[t.node := Layout(w)[t.node].(color := c)]
  {
    var w, w' := Plug(ctx, t), Plug(ctx, t.(color := c));
    PlugNodes(ctx, t);
    PlugNodes(ctx, t.(color := c));
    PlugInOrder(ctx, t);
    PlugInOrder(ctx, t.(color := c));
    PlugTop(ctx, t, t.(color := c));
    ReadNode(ctx, t);
    forall n | n in Nodes(w) && n != t.node ensures Layout(w')[n] == Layout(w)[n] {
      PlugField(ctx, t, n);
      PlugField(ctx, t.(color := c), n);
    }
    PlugField(ctx, t.(color := c), t.node);
  }

  // ---------------------------------------------------------------------------------
  // Rotation towards a side

  // Storing to the parent field of n, or to nothing when n is null.
  ghost function SetParent(m: Memory, n: RbNode?, p: RbNode?): Memory
    requires Known(m, n)
  {
    if n == null then m else m[n := m[n].(parent := p)]
  }

  // Redirecting the link of p that led to n; the link on `side` is the one compared.
  ghost function Relink(m: Memory, p: RbNode?, n: RbNode, n': RbNode?, side: Side): Memory
    requires Known(m, p)
  {
    if p == null then m
    else if m[p].Child(side) == n then m[p := m[p].WithChild(side, n')]
    else m[p := m[p].WithChild(side.Other(), n')]
  }

  ghost predicate Known(m: Memory, n: RbNode?) {
    n != null ==> n in m
  }

  ghost predicate CanRotate(m: Memory, x: RbNode, side: Side) {
    x in m &&
    var y, p := m[x].Child(side.Other()), m[x].parent;
    && y != null && y in m && y != x && p != x && p != y && Known(m, p)
    && var b := m[y].Child(side);
    && Known(m, b) && (b != null ==> b !in {x, y, p})
  }

  // The memory after x has been rotated down to the given side.
  ghost function Rotation(m: Memory, x: RbNode, side: Side): Memory
    requires CanRotate(m, x, side)
  {
    var y, p := m[x].Child(side.Other()), m[x].parent;
    var b := m[y].Child(side);
    var m1 := SetParent(m[x := m[x].WithChild(side.Other(), b)], b, x);
    var m2 := m1[y := m1[y].WithChild(side, x).(parent := p)];
    var m3 := Relink(m2, p, x, y, side);
    m3[x := m3[x].(parent := y)]
  }

  lemma RotationAt(m: Memory, x: RbNode, side: Side)
    requires CanRotate(m, x, side)
    ensures var m', y, p := Rotation(m, x, side), m[x].Child(side.Other()), m[x].parent;
      var b := m[y].Child(side);
      && m'.Keys == m.Keys
      && m'[x] == m[x].WithChild(side.Other(), b).(parent := y)
      && m'[y] == m[y].WithChild(side, x).(parent := p)
      && (b != null ==> m'[b] == m[b].(parent := x))
      && (p != null ==> m'[p] == m[p].WithChild(if m[p].Child(side) == x then side else side.Other(), y))
      && forall n :: n in m && n !in {x, y, b, p} ==> m'[n] == m[n]
  {
  }

  // Only the top of a subtree sees the node it hangs from.
  lemma FieldReparent(t: Tree<RbNode>, p: RbNode?, q: RbNode?, n: RbNode)
    requires n in Nodes(t)
    ensures Field(t, q, n) == if n == Top(t) then Field(t, p, n).(parent := q) else Field(t, p, n)
  {
  }

  // Only the node above the hole sees what fills it.
  lemma CtxFieldRelink(ctx: Context<RbNode>, child: RbNode?, child': RbNode?, n: RbNode)
    requires n in CtxNodes(ctx)
    ensures CtxField(ctx, child', n) ==
            if n != CtxTop(ctx) then CtxField(ctx, child, n)
            else CtxField(ctx, child, n).WithChild(ctx.side, child')
  {
  }

  ghost function Rotated<N>(t: Tree<N>, side: Side): Tree<N>
    requires t.Fork? && Far(t, side).Fork?
  {
    var u := Far(t, side);
    Join(side, Join(side, Near(t, side), t.node, t.color, Near(u, side)), u.node, u.color, Far(u, side))
  }

  lemma RotatedShape<N>(t: Tree<N>, side: Side)
    requires t.Fork? && Far(t, side).Fork?
    ensures Nodes(Rotated(t, side)) == Nodes(t)
    ensures Distinct(t) ==> Distinct(Rotated(t, side))
    ensures InOrder(Rotated(t, side)) == InOrder(t)
  {
    assert Distinct(t) ==> Distinct(Far(t, side));
    var u := Far(t, side);
    if side.OnLeft? {
      Reassociate(InOrder(t.left), [t.node], InOrder(u.left), [u.node], InOrder(u.right));
    } else {
      Reassociate(InOrder(u.left), [u.node], InOrder(u.right), [t.node], InOrder(t.right));
    }
  }

  lemma RotatedField(t: Tree<RbNode>, side: Side, p: RbNode?, n: RbNode)
    requires Distinct(t) && t.Fork? && Far(t, side).Fork? && n in Nodes(t)
    ensures n in Nodes(Rotated(t, side))
    ensures var x, y, b := t.node, Far(t, side).node, Near(Far(t, side), side);
      Field(Rotated(t, side), p, n) ==
        if n == x then Field(t, p, n).WithChild(side.Other(), Top(b)).(parent := y)
        else if n == y then Field(t, p, n).WithChild(side, x).(parent := p)
        else if n == Top(b) then Field(t, p, n).(parent := x)
        else Field(t, p, n)
  {
    var u := Far(t, side);
    assert Distinct(u);
    RotatedShape(t, side);
    if n in Nodes(Near(u, side)) {
      FieldReparent(Near(u, side), u.node, t.node, n);
    } else if n in Nodes(Near(t, side)) {
    } else if n in Nodes(Far(u, side)) {
    }
  }

  lemma RotateEnabled(ctx: Context<RbNode>, t: Tree<RbNode>, side: Side)
    requires Distinct(Plug(ctx, t)) && t.Fork? && Far(t, side).Fork?
    ensures var m := Layout(Plug(ctx, t));
      && CanRotate(m, t.node, side)
      && m[t.node].parent == CtxTop(ctx) && m[t.node].Child(side.Other()) == Far(t, side).node
      && m[Far(t, side).node].Child(side) == Top(Near(Far(t, side), side))
  {
    var u := Far(t, side);
    PlugNodes(ctx, t);
    PlugField(ctx, t, t.node);
    PlugField(ctx, t, u.node);
    assert Distinct(u);
    assert Top(Near(u, side)) != null ==> Top(Near(u, side)) in Nodes(Near(u, side));
    assert CtxTop(ctx) != null ==> CtxTop(ctx) in CtxNodes(ctx);
  }

  // The rotation of a subtree, seen from the whole tree.
  lemma RotateLayout(ctx: Context<RbNode>, t: Tree<RbNode>, side: Side)
    requires Distinct(Plug(ctx, t)) && t.Fork? && Far(t, side).Fork?
    ensures var w, w' := Plug(ctx, t), Plug(ctx, Rotated(t, side));
      && Distinct(w') && Nodes(w') == Nodes(w) && InOrder(w') == InOrder(w)
      && Top(w') == (if ctx.Hole? then Far(t, side).node else Top(w))
      && CanRotate(Layout(w), t.node, side)
      && Layout(w)[t.node].parent == CtxTop(ctx) && Layout(w)[t.node].Child(side.Other()) == Far(t, side).node
      && Layout(w') == Rotation(Layout(w), t.node, side)
  {
    var w, w' := Plug(ctx, t), Plug(ctx, Rotated(t, side));
    RotatedShape(t, side);
    PlugNodes(ctx, t);
    PlugNodes(ctx, Rotated(t, side));
    PlugInOrder(ctx, t);
    PlugInOrder(ctx, Rotated(t, side));
    PlugTop(ctx, t, Rotated(t, side));
    PlugTop(ctx, Rotated(t, side), t);
    RotateEnabled(ctx, t, side);
    RotateLayoutEverywhere(ctx, t, side);
    RotationAt(Layout(w), t.node, side);
    assert Layout(w').Keys == Rotation(Layout(w), t.node, side).Keys;
  }

  lemma RotateLayoutEverywhere(ctx: Context<RbNode>, t: Tree<RbNode>, side: Side)
    requires Distinct(Plug(ctx, t)) && t.Fork? && Far(t, side).Fork?
    requires Distinct(Plug(ctx, Rotated(t, side))) && Nodes(Plug(ctx, Rotated(t, side))) == Nodes(Plug(ctx, t))
    requires CanRotate(Layout(Plug(ctx, t)), t.node, side)
    ensures forall n :: n in Nodes(Plug(ctx, t)) ==>
      n in Rotation(Layout(Plug(ctx, t)), t.node, side) &&
      Layout(Plug(ctx, Rotated(t, side)))[n] == Rotation(Layout(Plug(ctx, t)), t.node, side)[n]
  {
    var w, w' := Plug(ctx, t), Plug(ctx, Rotated(t, side));
    PlugNodes(ctx, t);
    PlugNodes(ctx, Rotated(t, side));
    RotateEnabled(ctx, t, side);
    RotationAt(Layout(w), t.node, side);
    forall n | n in Nodes(w)
      ensures n in Rotation(Layout(w), t.node, side) && Layout(w')[n] == Rotation(Layout(w), t.node, side)[n]
    {
      PlugField(ctx, t, n);
      PlugField(ctx, Rotated(t, side), n);
      if n in Nodes(t) {
        RotatedField(t, side, CtxTop(ctx), n);
      } else {
        CtxFieldRelink(ctx, t.node, Far(t, side).node, n);
      }
    }
  }

  method RotateLeft(node: RbNode, root: Root, ghost m: Memory)
    requires Stores(m) && CanRotate(m, node, OnLeft)
    modifies root, m.Keys`parent, m.Keys`left, m.Keys`right
    ensures Stores(Rotation(m, node, OnLeft))
    ensures root.top == if m[node].parent == null then m[node].right else old(root.top)
  {
    RotationAt(m, node, OnLeft);
    ghost var y, p := m[node].right, m[node].parent;
    ghost var b := m[y].left;
    assert LinkOf(node) == m[node] && LinkOf(y) == m[y];
    assert b != null ==> LinkOf(b) == m[b];
    assert p != null ==> LinkOf(p) == m[p];
    var right := node.right;
    node.right := right.left;
    if node.right != null {
      right.left.parent := node;
    }
    assert LinkOf(node) == m[node].(right := b) && LinkOf(y) == m[y];
    assert b != null ==> LinkOf(b) == m[b].(parent := node);
    assert forall n :: n in m && n != node && n != b ==> LinkOf(n) == m[n];
    right.left := node;
    right.parent := node.parent;
    if right.parent != null {
      if node == node.parent.left {
        node.parent.left := right;
      } else {
        node.parent.right := right;
      }
    } else {
      root.top := right;
    }
    node.parent := right;
    forall n | n in m ensures LinkOf(n) == Rotation(m, node, OnLeft)[n] {
      if n == node || n == y || n == b || n == p {
      } else {
      }
    }
  }

  method RotateRight(node: RbNode, root: Root, ghost m: Memory)
    requires Stores(m) && CanRotate(m, node, OnRight)
    modifies root, m.Keys`parent, m.Keys`left, m.Keys`right
    ensures Stores(Rotation(m, node, OnRight))
    ensures root.top == if m[node].parent == null then m[node].left else old(root.top)
  {
    RotationAt(m, node, OnRight);
    ghost var y, p := m[node].left, m[node].parent;
    ghost var b := m[y].right;
    assert LinkOf(node) == m[node] && LinkOf(y) == m[y];
    assert b != null ==> LinkOf(b) == m[b];
    assert p != null ==> LinkOf(p) == m[p];
    var left := node.left;
    node.left := left.right;
    if node.left != null {
      left.right.parent := node;
    }
    assert LinkOf(node) == m[node].(left := b) && LinkOf(y) == m[y];
    assert b != null ==> LinkOf(b) == m[b].(parent := node);
    assert forall n :: n in m && n != node && n != b ==> LinkOf(n) == m[n];
    left.right := node;
    left.parent := node.parent;
    if left.parent != null {
      if node == node.parent.right {
        node.parent.right := left;
      } else {
        node.parent.left := left;
      }
    } else {
      root.top := left;
    }
    node.parent := left;
    forall n | n in m ensures LinkOf(n) == Rotation(m, node, OnRight)[n] {
      if n == node || n == y || n == b || n == p {
      } else {
      }
    }
  }

  ghost predicate SameNodes<N>(w: Tree<N>, w0: Tree<N>) {
    InOrder(w) == InOrder(w0) && Nodes(w) == Nodes(w0)
  }

  // Colouring the two nodes of a rotation first, as every caller does.
  ghost function Painted<N>(t: Tree<N>, dir: Side, cx: Color, cy: Color): Tree<N>
    requires t.Fork? && Far(t, dir).Fork?
  {
    Join(dir, Near(t, dir), t.node, cx, Far(t, dir).(color := cy))
  }

  ghost function PaintedMemory(m: Memory, x: RbNode, y: RbNode, cx: Color, cy: Color): Memory
    requires x in m && y in m
  {
    m[y := m[y].(color := cy)][x := m[x].(color := cx)]
  }

  lemma PaintedLayout(ctx: Context<RbNode>, t: Tree<RbNode>, dir: Side, cx: Color, cy: Color)
    requires Distinct(Plug(ctx, t)) && t.Fork? && Far(t, dir).Fork?
    ensures var w, w', x, y := Plug(ctx, t), Plug(ctx, Painted(t, dir, cx, cy)), t.node, Far(t, dir).node;
      && Distinct(w') && SameNodes(w', w) && Top(w') == Top(w)
      && x in Layout(w) && y in Layout(w) && x != y
      && Layout(w') == PaintedMemory(Layout(w), x, y, cx, cy)
  {
    var u, c := Far(t, dir), In(ctx, dir.Other(), t.node, t.color, Near(t, dir));
    assert Plug(ctx, t) == Plug(c, u);
    Recolor(c, u, cy);
    var t' := Join(dir, Near(t, dir), t.node, t.color, u.(color := cy));
    assert Plug(c, u.(color := cy)) == Plug(ctx, t');
    Recolor(ctx, t', cx);
    assert t'.(color := cx) == Painted(t, dir, cx, cy);
    PlugNodes(ctx, t);
    assert u.node in Nodes(u);
  }

  lemma PaintRotateLayout(ctx: Context<RbNode>, t: Tree<RbNode>, dir: Side, cx: Color, cy: Color)
    requires Distinct(Plug(ctx, t)) && t.Fork? && Far(t, dir).Fork?
    ensures var w, w', x, y := Plug(ctx, t), Plug(ctx, Rotated(Painted(t, dir, cx, cy), dir)), t.node, Far(t, dir).node;
      && Distinct(w') && SameNodes(w', w) && Top(w') == (if ctx.Hole? then y else Top(w))
      && x in Layout(w) && y in Layout(w) && x != y
      && var m' := PaintedMemory(Layout(w), x, y, cx, cy);
      && CanRotate(m', x, dir) && m'[x].parent == CtxTop(ctx) && m'[x].Child(dir.Other()) == y
      && Layout(w') == Rotation(m', x, dir)
  {
    PaintedLayout(ctx, t, dir, cx, cy);
    RotateLayout(ctx, Painted(t, dir, cx, cy), dir);
  }

  method PaintRotateLeft(x: RbNode, y: RbNode, cx: Color, cy: Color, root: Root,
                         ghost ctx: Context<RbNode>, ghost t: Tree<RbNode>)
    requires Holds(Plug(ctx, t), root) && t.Fork? && Far(t, OnLeft).Fork?
    requires x == t.node && y == Far(t, OnLeft).node
    modifies root, Nodes(Plug(ctx, t))`parent, Nodes(Plug(ctx, t))`left,
             Nodes(Plug(ctx, t))`right, Nodes(Plug(ctx, t))`color
    ensures Holds(Plug(ctx, Rotated(Painted(t, OnLeft, cx, cy), OnLeft)), root)
    ensures SameNodes(Plug(ctx, Rotated(Painted(t, OnLeft, cx, cy), OnLeft)), Plug(ctx, t))
  {
    ghost var m := Layout(Plug(ctx, t));
    assert x in m && y in m && x != y by { PaintRotateLayout(ctx, t, OnLeft, cx, cy); }
    ghost var m' := PaintedMemory(m, x, y, cx, cy);
    assert CanRotate(m', x, OnLeft) by { PaintRotateLayout(ctx, t, OnLeft, cx, cy); }
    y.color := cy;
    x.color := cx;
    assert Stores(m');
    RotateLeft(x, root, m');
    PaintRotateLayout(ctx, t, OnLeft, cx, cy);
  }

  method PaintRotateRight(x: RbNode, y: RbNode, cx: Color, cy: Color, root: Root,
                         ghost ctx: Context<RbNode>, ghost t: Tree<RbNode>)
    requires Holds(Plug(ctx, t), root) && t.Fork? && Far(t, OnRight).Fork?
    requires x == t.node && y == Far(t, OnRight).node
    modifies root, Nodes(Plug(ctx, t))`parent, Nodes(Plug(ctx, t))`left,
             Nodes(Plug(ctx, t))`right, Nodes(Plug(ctx, t))`color
    ensures Holds(Plug(ctx, Rotated(Painted(t, OnRight, cx, cy), OnRight)), root)
    ensures SameNodes(Plug(ctx, Rotated(Painted(t, OnRight, cx, cy), OnRight)), Plug(ctx, t))
  {
    ghost var m := Layout(Plug(ctx, t));
    assert x in m && y in m && x != y by { PaintRotateLayout(ctx, t, OnRight, cx, cy); }
    ghost var m' := PaintedMemory(m, x, y, cx, cy);
    assert CanRotate(m', x, OnRight) by { PaintRotateLayout(ctx, t, OnRight, cx, cy); }
    y.color := cy;
    x.color := cx;
    assert Stores(m');
    RotateRight(x, root, m');
    PaintRotateLayout(ctx, t, OnRight, cx, cy);
  }

  // ---------------------------------------------------------------------------------
  // Insertion

  // t has a red top, fits its place by black height, and may have a red parent: the one
  // violation rb_insert_color moves up.
  ghost predicate NeedsFix<N>(ctx: Context<N>, t: Tree<N>) {
    t.Fork? && t.color.Red? && Balanced(t) && Accepts(ctx, BlackHeight(t))
  }

  ghost predicate RedParent<N>(ctx: Context<N>) {
    ctx.In? && ctx.color.Red? && ctx.up.In?
  }

  // The three nodes rb_insert_color looks at, and the fourth it looks for.
  lemma ReadFamily(ctx: Context<RbNode>, t: Tree<RbNode>)
    requires Distinct(Plug(ctx, t)) && t.Fork?
    ensures var m := Layout(Plug(ctx, t));
      && t.node in m && m[t.node].parent == CtxTop(ctx)
      && (ctx.In? ==>
            && ctx.node in m && m[ctx.node].color == ctx.color && m[ctx.node].parent == CtxTop(ctx.up)
            && m[ctx.node].Child(ctx.side) == t.node
            && m[ctx.node].Child(ctx.side.Other()) == Top(ctx.sibling) && Top(ctx.sibling) != t.node)
  {
    ReadNode(ctx, t);
    PlugNodes(ctx, t);
    if ctx.In? {
      ReadNode(ctx.up, Join(ctx.side, t, ctx.node, ctx.color, ctx.sibling));
      assert Top(ctx.sibling) != null ==> Top(ctx.sibling) in Nodes(ctx.sibling);
    }
  }

  lemma ReadSibling(ctx: Context<RbNode>, t: Tree<RbNode>)
    requires Distinct(Plug(ctx, t)) && ctx.In? && ctx.sibling.Fork?
    ensures var m, sib := Layout(Plug(ctx, t)), ctx.sibling;
      && sib.node in m && m[sib.node] == Link(ctx.node, Top(sib.left), Top(sib.right), sib.color)
  {
    assert Plug(ctx, t) == Plug(In(ctx.up, ctx.side.Other(), ctx.node, ctx.color, t), ctx.sibling);
    ReadNode(In(ctx.up, ctx.side.Other(), ctx.node, ctx.color, t), ctx.sibling);
  }

  // Uncle red: recolour and climb two levels.
  ghost function Recolored<N>(ctx: Context<N>, t: Tree<N>): Tree<N>
    requires RedParent(ctx) && ctx.up.sibling.Fork?
  {
    Join(ctx.up.side, Join(ctx.side, t, ctx.node, Black, ctx.sibling), ctx.up.node, Red, ctx.up.sibling.(color := Black))
  }

  lemma RecoloredFits<N>(ctx: Context<N>, t: Tree<N>)
    requires NeedsFix(ctx, t) && RedParent(ctx) && ctx.up.sibling.Fork? && ctx.up.sibling.color.Red?
    ensures NeedsFix(ctx.up.up, Recolored(ctx, t)) && Depth(ctx.up.up) < Depth(ctx)
  {
    assert Accepts(ctx.up, BlackHeight(t));
    var P, u' := Join(ctx.side, t, ctx.node, Black, ctx.sibling), ctx.up.sibling.(color := Black);
    assert Balanced(P) && Balanced(u') && BlackHeight(P) == BlackHeight(u') == BlackHeight(t) + 1;
  }

  lemma RecoloredLayout(ctx: Context<RbNode>, t: Tree<RbNode>)
    requires RedParent(ctx) && ctx.up.sibling.Fork? && Distinct(Plug(ctx, t)) && t.Fork?
    ensures var w, w' := Plug(ctx, t), Plug(ctx.up.up, Recolored(ctx, t));
      var m, u, p, g := Layout(w), ctx.up.sibling.node, ctx.node, ctx.up.node;
      && Distinct(w') && Nodes(w') == Nodes(w) && InOrder(w') == InOrder(w) && Top(w') == Top(w)
      && u in m && p in m && g in m && u != p && u != g && p != g
      && Layout(w') == m[u := m[u].(color := Black)][p := m[p].(color := Black)][g := m[g].(color := Red)]
  {
    var In(In(up, s, g, gc, u), s1, p, pc, sib) := ctx;
    PlugNodes(ctx, t);
    PlugNodes(ctx.up, Join(s1, t, p, pc, sib));
    assert u.node in Nodes(u);
    var P := Join(s1, t, p, pc, sib);
    assert Plug(ctx, t) == Plug(In(up, s.Other(), g, gc, P), u);
    Recolor(In(up, s.Other(), g, gc, P), u, Black);
    var u' := u.(color := Black);
    assert Plug(In(up, s.Other(), g, gc, P), u') == Plug(In(up, s, g, gc, u'), P);
    Recolor(In(up, s, g, gc, u'), P, Black);
    var P' := P.(color := Black);
    Recolor(up, Join(s, P', g, gc, u'), Red);
  }

  // Uncle black: the last rotation, after the parent was made black and the grandparent red.
  lemma OuterFits<N>(ctx: Context<N>, t: Tree<N>)
    requires NeedsFix(ctx, t) && RedParent(ctx) && TopColor(ctx.up.sibling).Black? && ctx.side == ctx.up.side
    ensures NeedsFix(OuterTurned(ctx), t) && Depth(OuterTurned(ctx)) < Depth(ctx)
    ensures var G, dir := Grandparent(ctx, t), ctx.side.Other();
      Plug(OuterTurned(ctx), t) == Plug(ctx.up.up, Rotated(Painted(G, dir, Red, Black), dir))
    ensures Plug(ctx, t) == Plug(ctx.up.up, Grandparent(ctx, t))
  {
    assert Accepts(ctx.up, BlackHeight(t));
    var G := Join(ctx.side.Other(), ctx.up.sibling, ctx.up.node, Red, ctx.sibling);
    assert Balanced(G) && BlackHeight(G) == BlackHeight(t);
  }

  // Uncle black and the node an inner grandchild: rotating the parent makes it an outer one.
  ghost function InnerTurned<N>(ctx: Context<N>, t: Tree<N>): (Context<N>, Tree<N>)
    requires RedParent(ctx) && t.Fork?
  {
    var s := ctx.up.side;
    (In(ctx.up, s, t.node, Red, Far(t, s)), Join(s, ctx.sibling, ctx.node, Red, Near(t, s)))
  }

  lemma InnerFits<N>(ctx: Context<N>, t: Tree<N>)
    requires NeedsFix(ctx, t) && RedParent(ctx) && ctx.side != ctx.up.side
    ensures var (ctx', t') := InnerTurned(ctx, t);
      && NeedsFix(ctx', t') && RedParent(ctx') && ctx'.up == ctx.up && ctx'.side == ctx.up.side
      && Depth(ctx') == Depth(ctx)
      && Plug(ctx', t') == Plug(ctx.up, Rotated(Join(ctx.side, t, ctx.node, Red, ctx.sibling), ctx.up.side))
  {
  }

  ghost function Grandparent<N>(ctx: Context<N>, t: Tree<N>): Tree<N>
    requires RedParent(ctx)
  {
    Join(ctx.up.side, Join(ctx.side, t, ctx.node, ctx.color, ctx.sibling), ctx.up.node, ctx.up.color, ctx.up.sibling)
  }

  ghost function OuterTurned<N>(ctx: Context<N>): Context<N>
    requires RedParent(ctx)
  {
    var In(In(up, s, g, _, u), _, p, _, sib) := ctx;
    In(up, s, p, Black, Join(s.Other(), u, g, Red, sib))
  }

  // rbtree.c:79-81 and 104-106: the uncle is red too.
  method Repaint(uncle: RbNode, parent: RbNode, gparent: RbNode, root: Root,
                 ghost ctx: Context<RbNode>, ghost t: Tree<RbNode>)
    requires RedParent(ctx) && ctx.up.sibling.Fork? && t.Fork? && Holds(Plug(ctx, t), root)
    requires uncle == ctx.up.sibling.node && parent == ctx.node && gparent == ctx.up.node
    modifies Nodes(Plug(ctx, t))`color
    ensures Holds(Plug(ctx.up.up, Recolored(ctx, t)), root)
    ensures SameNodes(Plug(ctx.up.up, Recolored(ctx, t)), Plug(ctx, t))
  {
    RecoloredLayout(ctx, t);
    uncle.color := Black;
    parent.color := Black;
    gparent.color := Red;
  }

  // rbtree.c:87-94: turn an inner grandchild into an outer one.
  method TurnInnerLeft(node0: RbNode, parent0: RbNode, root: Root, ghost ctx: Context<RbNode>, ghost t: Tree<RbNode>)
    returns (node: RbNode, parent: RbNode)
    requires Holds(Plug(ctx, t), root) && NeedsFix(ctx, t) && RedParent(ctx) && ctx.up.side.OnLeft? && ctx.side.OnRight?
    requires t.node == node0 && ctx.node == parent0
    modifies root, Nodes(Plug(ctx, t))`parent, Nodes(Plug(ctx, t))`left, Nodes(Plug(ctx, t))`right
    ensures var (ctx', t') := InnerTurned(ctx, t);
      && NeedsFix(ctx', t') && RedParent(ctx') && ctx'.up == ctx.up && ctx'.side == ctx.up.side && Depth(ctx') == Depth(ctx)
      && Holds(Plug(ctx', t'), root) && t'.node == node && ctx'.node == parent
      && SameNodes(Plug(ctx', t'), Plug(ctx, t))
  {
    RotateLayout(ctx.up, Join(ctx.side, t, ctx.node, ctx.color, ctx.sibling), OnLeft);
    InnerFits(ctx, t);
    node, parent := node0, parent0;
    RotateLeft(parent, root, Layout(Plug(ctx, t)));
    var tmp := parent;
    parent := node;
    node := tmp;
  }

  // rbtree.c:75-98: the parent is a left child.
  method InsertArmLeft(node0: RbNode, parent0: RbNode, gparent: RbNode, root: Root,
                       ghost ctx0: Context<RbNode>, ghost t0: Tree<RbNode>)
    returns (node: RbNode, ghost ctx: Context<RbNode>, ghost t: Tree<RbNode>)
    requires Holds(Plug(ctx0, t0), root) && NeedsFix(ctx0, t0) && RedParent(ctx0) && ctx0.up.side.OnLeft?
    requires t0.node == node0 && ctx0.node == parent0 && ctx0.up.node == gparent
    modifies root, Nodes(Plug(ctx0, t0))`parent, Nodes(Plug(ctx0, t0))`left,
             Nodes(Plug(ctx0, t0))`right, Nodes(Plug(ctx0, t0))`color
    ensures Holds(Plug(ctx, t), root) && NeedsFix(ctx, t) && t.node == node && Depth(ctx) < Depth(ctx0)
    ensures SameNodes(Plug(ctx, t), Plug(ctx0, t0))
  {
    node, ctx, t := node0, ctx0, t0;
    var parent := parent0;
    ReadFamily(ctx, t);
    ReadFamily(ctx.up, Join(ctx.side, t, ctx.node, ctx.color, ctx.sibling));
    if ctx.up.sibling.Fork? {
      ReadSibling(ctx.up, Join(ctx.side, t, ctx.node, ctx.color, ctx.sibling));
    }
    var uncle := gparent.right;
    if uncle != null && uncle.color.Red? {
      RecoloredFits(ctx, t);
      Repaint(uncle, parent, gparent, root, ctx, t);
      return gparent, ctx.up.up, Recolored(ctx, t);
    }
    if parent.right == node {
      node, parent := TurnInnerLeft(node, parent, root, ctx, t);
      ctx, t := InnerTurned(ctx, t).0, InnerTurned(ctx, t).1;
    }
    OuterFits(ctx, t);
    PaintRotateRight(gparent, parent, Red, Black, root, ctx.up.up, Grandparent(ctx, t));
    ctx := OuterTurned(ctx);
  }

  // rbtree.c:112-119: turn an inner grandchild into an outer one.
  method TurnInnerRight(node0: RbNode, parent0: RbNode, root: Root, ghost ctx: Context<RbNode>, ghost t: Tree<RbNode>)
    returns (node: RbNode, parent: RbNode)
    requires Holds(Plug(ctx, t), root) && NeedsFix(ctx, t) && RedParent(ctx) && ctx.up.side.OnRight? && ctx.side.OnLeft?
    requires t.node == node0 && ctx.node == parent0
    modifies root, Nodes(Plug(ctx, t))`parent, Nodes(Plug(ctx, t))`left, Nodes(Plug(ctx, t))`right
    ensures var (ctx', t') := InnerTurned(ctx, t);
      && NeedsFix(ctx', t') && RedParent(ctx') && ctx'.up == ctx.up && ctx'.side == ctx.up.side && Depth(ctx') == Depth(ctx)
      && Holds(Plug(ctx', t'), root) && t'.node == node && ctx'.node == parent
      && SameNodes(Plug(ctx', t'), Plug(ctx, t))
  {
    RotateLayout(ctx.up, Join(ctx.side, t, ctx.node, ctx.color, ctx.sibling), OnRight);
    InnerFits(ctx, t);
    node, parent := node0, parent0;
    RotateRight(parent, root, Layout(Plug(ctx, t)));
    var tmp := parent;
    parent := node;
    node := tmp;
  }

  // rbtree.c:100-123: the parent is a right child.
  method InsertArmRight(node0: RbNode, parent0: RbNode, gparent: RbNode, root: Root,
                       ghost ctx0: Context<RbNode>, ghost t0: Tree<RbNode>)
    returns (node: RbNode, ghost ctx: Context<RbNode>, ghost t: Tree<RbNode>)
    requires Holds(Plug(ctx0, t0), root) && NeedsFix(ctx0, t0) && RedParent(ctx0) && ctx0.up.side.OnRight?
    requires t0.node == node0 && ctx0.node == parent0 && ctx0.up.node == gparent
    modifies root, Nodes(Plug(ctx0, t0))`parent, Nodes(Plug(ctx0, t0))`left,
             Nodes(Plug(ctx0, t0))`right, Nodes(Plug(ctx0, t0))`color
    ensures Holds(Plug(ctx, t), root) && NeedsFix(ctx, t) && t.node == node && Depth(ctx) < Depth(ctx0)
    ensures SameNodes(Plug(ctx, t), Plug(ctx0, t0))
  {
    node, ctx, t := node0, ctx0, t0;
    var parent := parent0;
    ReadFamily(ctx, t);
    ReadFamily(ctx.up, Join(ctx.side, t, ctx.node, ctx.color, ctx.sibling));
    if ctx.up.sibling.Fork? {
      ReadSibling(ctx.up, Join(ctx.side, t, ctx.node, ctx.color, ctx.sibling));
    }
    var uncle := gparent.left;
    if uncle != null && uncle.color.Red? {
      RecoloredFits(ctx, t);
      Repaint(uncle, parent, gparent, root, ctx, t);
      return gparent, ctx.up.up, Recolored(ctx, t);
    }
    if parent.left == node {
      node, parent := TurnInnerRight(node, parent, root, ctx, t);
      ctx, t := InnerTurned(ctx, t).0, InnerTurned(ctx, t).1;
    }
    OuterFits(ctx, t);
    PaintRotateLeft(gparent, parent, Red, Black, root, ctx.up.up, Grandparent(ctx, t));
    ctx := OuterTurned(ctx);
  }

  // rb_insert_color (rbtree.c:65-128) on a tree whose only fault is that the red node t.node
  // may hang under a red parent.
  method InsertColor(node0: RbNode, root: Root, ghost ctx0: Context<RbNode>, ghost t0: Tree<RbNode>)
    returns (ghost w: Tree<RbNode>)
    requires Holds(Plug(ctx0, t0), root) && NeedsFix(ctx0, t0) && t0.node == node0
    modifies root, Nodes(Plug(ctx0, t0))`parent, Nodes(Plug(ctx0, t0))`left,
             Nodes(Plug(ctx0, t0))`right, Nodes(Plug(ctx0, t0))`color
    ensures Holds(w, root) && RedBlack(w) && SameNodes(w, Plug(ctx0, t0))
  {
    var node := node0;
    ghost var ctx, t := ctx0, t0;
    ReadFamily(ctx, t);
    while node.parent != null && node.parent.color.Red?
      invariant Holds(Plug(ctx, t), root) && NeedsFix(ctx, t) && t.node == node
      invariant SameNodes(Plug(ctx, t), Plug(ctx0, t0))
      invariant node.parent == CtxTop(ctx) && (ctx.In? ==> ctx.node.color == ctx.color)
      decreases Depth(ctx)
    {
      ReadFamily(ctx, t);
      ReadFamily(ctx.up, Join(ctx.side, t, ctx.node, ctx.color, ctx.sibling));
      var parent := node.parent;
      var gparent := parent.parent;
      if parent == gparent.left {
        node, ctx, t := InsertArmLeft(node, parent, gparent, root, ctx, t);
      } else {
        node, ctx, t := InsertArmRight(node, parent, gparent, root, ctx, t);
      }
      ReadFamily(ctx, t);
    }
    w := Plug(ctx, t);
    FixedAtRoot(ctx, t);
    BlackenRoot(root, w);
    w := w.(color := Black);
  }

  // rbtree.c:127
  method BlackenRoot(root: Root, ghost w: Tree<RbNode>)
    requires Holds(w, root) && w.Fork?
    modifies Nodes(w)`color
    ensures Holds(w.(color := Black), root) && SameNodes(w.(color := Black), w)
  {
    assert Plug(Hole, w) == w && Plug(Hole, w.(color := Black)) == w.(color := Black);
    Recolor(Hole, w, Black);
    root.top.color := Black;
  }

  lemma FixedAtRoot<N>(ctx: Context<N>, t: Tree<N>)
    requires NeedsFix(ctx, t) && CtxColor(ctx).Black?
    ensures Plug(ctx, t).Fork? && RedBlack(Plug(ctx, t).(color := Black))
  {
    if ctx.Hole? {
      assert Plug(ctx, t) == t;
    } else {
      PlugRedBlack(ctx, t);
      PlugNodes(ctx, t);
      assert ctx.node in Nodes(Plug(ctx, t));
      assert Plug(ctx, t).(color := Black) == Plug(ctx, t);
    }
  }

  // rb_link_node (rbtree.h:140-148): hang a fresh red leaf at the empty place of a context.
  method LinkNode(node: RbNode, parent: RbNode?, side: Side, root: Root, ghost ctx: Context<RbNode>)
    requires Holds(Plug(ctx, Empty), root) && node !in Nodes(Plug(ctx, Empty))
    requires parent == CtxTop(ctx) && (ctx.In? ==> ctx.side == side)
    modifies root, node`parent, node`left, node`right, node`color
    modifies Nodes(Plug(ctx, Empty))`left, Nodes(Plug(ctx, Empty))`right
    ensures Holds(Plug(ctx, Fork(Empty, node, Red, Empty)), root)
    ensures Nodes(Plug(ctx, Fork(Empty, node, Red, Empty))) == Nodes(Plug(ctx, Empty)) + {node}
    ensures InOrder(Plug(ctx, Fork(Empty, node, Red, Empty))) == Before(ctx) + [node] + After(ctx)
  {
    LinkLayout(ctx, node);
    node.parent := parent;
    node.color := Red;
    node.left := null;
    node.right := null;
    if parent == null {
      root.top := node;
    } else if side.OnLeft? {
      parent.left := node;
    } else {
      parent.right := node;
    }
  }

  lemma LinkLayout(ctx: Context<RbNode>, node: RbNode)
    requires Distinct(Plug(ctx, Empty)) && node !in Nodes(Plug(ctx, Empty))
    ensures var w, w' := Plug(ctx, Empty), Plug(ctx, Fork(Empty, node, Red, Empty));
      var m, p := Layout(w), CtxTop(ctx);
      && Distinct(w') && Nodes(w') == Nodes(w) + {node} && InOrder(w') == Before(ctx) + [node] + After(ctx)
      && Top(w') == (if ctx.Hole? then node else Top(w))
      && Known(m, p)
      && var m1 := if p == null then m else m[p := m[p].WithChild(ctx.side, node)];
      Layout(w') == m1[node := Link(p, null, null, Red)]
  {
    var leaf := Fork(Empty, node, Red, Empty);
    var w, w' := Plug(ctx, Empty), Plug(ctx, leaf);
    PlugNodes(ctx, Empty);
    PlugNodes(ctx, leaf);
    PlugInOrder(ctx, leaf);
    PlugTop(ctx, leaf, Empty);
    PlugTop(ctx, Empty, leaf);
    LinkFields(ctx, node);
    assert CtxTop(ctx) != null ==> CtxTop(ctx) in CtxNodes(ctx);
    PlugField(ctx, leaf, node);
  }

  lemma LinkFields(ctx: Context<RbNode>, node: RbNode)
    requires Distinct(Plug(ctx, Empty)) && Distinct(Plug(ctx, Fork(Empty, node, Red, Empty)))
    requires node !in Nodes(Plug(ctx, Empty))
    ensures forall n :: n in Nodes(Plug(ctx, Empty)) ==>
      && n in Nodes(Plug(ctx, Fork(Empty, node, Red, Empty)))
      && Field(Plug(ctx, Fork(Empty, node, Red, Empty)), null, n) ==
         if n == CtxTop(ctx) then Field(Plug(ctx, Empty), null, n).WithChild(ctx.side, node)
         else Field(Plug(ctx, Empty), null, n)
  {
    var leaf := Fork(Empty, node, Red, Empty);
    PlugNodes(ctx, Empty);
    PlugNodes(ctx, leaf);
    forall n | n in Nodes(Plug(ctx, Empty))
      ensures n in Nodes(Plug(ctx, leaf))
      ensures Field(Plug(ctx, leaf), null, n) ==
        if n == CtxTop(ctx) then Field(Plug(ctx, Empty), null, n).WithChild(ctx.side, node)
        else Field(Plug(ctx, Empty), null, n)
    {
      PlugField(ctx, Empty, n);
      PlugField(ctx, leaf, n);
      CtxFieldRelink(ctx, null, node, n);
    }
  }

  // ---------------------------------------------------------------------------------
  // Deletion

  ghost function Blackened<N>(t: Tree<N>): Tree<N> {
    if t.Fork? then t.(color := Black) else t
  }

  // The subtree at the hole is one black node short; painting its top black would do if
  // the top is red.
  ghost predicate Short<N>(ctx: Context<N>, t: Tree<N>) {
    Balanced(Blackened(t)) && Accepts(ctx, BlackHeight(t) + 1)
  }

  // The context of the sibling.
  ghost function Turned<N>(ctx: Context<N>, t: Tree<N>): Context<N>
    requires ctx.In?
  {
    In(ctx.up, ctx.side.Other(), ctx.node, ctx.color, t)
  }

  ghost function Parent<N>(ctx: Context<N>, t: Tree<N>): Tree<N>
    requires ctx.In?
  {
    Join(ctx.side, t, ctx.node, ctx.color, ctx.sibling)
  }

  // Sibling red: rotate it above the parent.
  ghost function Lowered<N>(ctx: Context<N>): Context<N>
    requires ctx.In? && ctx.sibling.Fork?
  {
    var In(up, s, p, _, o) := ctx;
    In(In(up, s, o.node, Black, Far(o, s)), s, p, Red, Near(o, s))
  }

  lemma LoweredFits<N>(ctx: Context<N>, t: Tree<N>)
    requires Short(ctx, t) && TopColor(t).Black? && ctx.In? && TopColor(ctx.sibling).Red?
    ensures Short(Lowered(ctx), t) && Lowered(ctx).sibling.Fork? && Lowered(ctx).sibling.color.Black?
    ensures var s := ctx.side;
      Plug(Lowered(ctx), t) == Plug(ctx.up, Rotated(Painted(Parent(ctx, t), s, Red, Black), s))
    ensures Plug(ctx, t) == Plug(ctx.up, Parent(ctx, t)) && Depth(Lowered(ctx)) == Depth(ctx) + 1
  {
    assert Accepts(ctx.up, BlackHeight(t) + 2);
    var s, o := ctx.side, ctx.sibling;
    assert Balanced(Far(o, s)) && BlackHeight(Far(o, s)) == BlackHeight(t) + 1;
    assert Balanced(Near(o, s)) && BlackHeight(Near(o, s)) == BlackHeight(t) + 1;
    assert Accepts(Lowered(ctx).up, BlackHeight(t) + 1);
  }

  ghost predicate RedChild<N>(t: Tree<N>)
    requires t.Fork?
  {
    TopColor(t.left).Red? || TopColor(t.right).Red?
  }

  // Sibling and nephews black: paint the sibling red and move the shortage up.
  ghost function Shortened<N>(ctx: Context<N>, t: Tree<N>): Tree<N>
    requires ctx.In? && ctx.sibling.Fork?
  {
    Join(ctx.side, t, ctx.node, ctx.color, ctx.sibling.(color := Red))
  }

  lemma ShortenedFits<N>(ctx: Context<N>, t: Tree<N>)
    requires Short(ctx, t) && TopColor(t).Black? && ctx.In? && ctx.sibling.Fork? && ctx.sibling.color.Black?
    requires !RedChild(ctx.sibling)
    ensures Short(ctx.up, Shortened(ctx, t))
    ensures Plug(Turned(ctx, t), ctx.sibling) == Plug(ctx, t)
    ensures Plug(Turned(ctx, t), ctx.sibling.(color := Red)) == Plug(ctx.up, Shortened(ctx, t))
  {
  }

  // Only the near nephew red: turn it into the sibling.
  ghost function NephewTurned<N>(ctx: Context<N>): Context<N>
    requires ctx.In? && ctx.sibling.Fork? && Near(ctx.sibling, ctx.side).Fork?
  {
    var dir := ctx.side.Other();
    ctx.(sibling := Rotated(Painted(ctx.sibling, dir, Red, Black), dir))
  }

  lemma NephewFits<N>(ctx: Context<N>, t: Tree<N>)
    requires Short(ctx, t) && TopColor(t).Black? && ctx.In? && ctx.sibling.Fork? && ctx.sibling.color.Black?
    requires TopColor(Near(ctx.sibling, ctx.side)).Red? && TopColor(Far(ctx.sibling, ctx.side)).Black?
    ensures var ctx' := NephewTurned(ctx);
      && Short(ctx', t) && ctx'.sibling.color.Black? && TopColor(Far(ctx'.sibling, ctx.side)).Red?
      && Plug(ctx', t) == Plug(Turned(ctx, t), ctx'.sibling)
    ensures Plug(Turned(ctx, t), ctx.sibling) == Plug(ctx, t)
  {
    var s, o := ctx.side, ctx.sibling;
    var n := Near(o, s);
    assert Balanced(n) && BlackHeight(Near(n, s)) == BlackHeight(Far(n, s)) == BlackHeight(Far(o, s));
    var d := Join(s, Far(n, s), o.node, Red, Far(o, s));
    assert Balanced(d) && BlackHeight(d) == BlackHeight(Near(n, s));
    assert NephewTurned(ctx).sibling == Join(s, Near(n, s), n.node, Black, d);
  }

  // The far nephew red: the rotation that ends the repair.
  ghost function Refilled<N>(ctx: Context<N>, t: Tree<N>): Tree<N>
    requires ctx.In? && ctx.sibling.Fork? && Far(ctx.sibling, ctx.side).Fork?
  {
    var In(_, s, p, c, o) := ctx;
    Join(s, Join(s, t, p, Black, Near(o, s)), o.node, c, Far(o, s).(color := Black))
  }

  lemma RefilledFits<N>(ctx: Context<N>, t: Tree<N>)
    requires Short(ctx, t) && TopColor(t).Black? && ctx.In? && ctx.sibling.Fork? && ctx.sibling.color.Black?
    requires TopColor(Far(ctx.sibling, ctx.side)).Red?
    ensures RedBlack(Plug(ctx.up, Refilled(ctx, t)))
  {
    var s, o, R := ctx.side, ctx.sibling, Refilled(ctx, t);
    assert Balanced(Far(o, s)) && BlackHeight(Near(o, s)) == BlackHeight(Far(o, s)) == BlackHeight(t);
    assert Balanced(Near(R, s)) && BlackHeight(Near(R, s)) == BlackHeight(t) + 1;
    assert Balanced(Far(R, s)) && BlackHeight(Far(R, s)) == BlackHeight(t) + 1;
    if ctx.up.Hole? {
      assert Plug(ctx.up, R) == R;
    } else {
      PlugRedBlack(ctx.up, R);
    }
  }

  lemma RefilledLayout(ctx: Context<RbNode>, t: Tree<RbNode>)
    requires Distinct(Plug(ctx, t)) && ctx.In? && ctx.sibling.Fork? && Far(ctx.sibling, ctx.side).Fork?
    ensures var w, w' := Plug(ctx, t), Plug(ctx.up, Refilled(ctx, t));
      var m, p, o, f := Layout(w), ctx.node, ctx.sibling.node, Far(ctx.sibling, ctx.side).node;
      && Distinct(w') && SameNodes(w', w) && Top(w') == (if ctx.up.Hole? then o else Top(w))
      && p in m && o in m && f in m && p != o && p != f && o != f
      && m[p].color == ctx.color && m[o].Child(ctx.side.Other()) == f
      && var m' := RefillPainted(m, p, o, f, ctx.color);
      && CanRotate(m', p, ctx.side) && m'[p].parent == CtxTop(ctx.up) && m'[p].Child(ctx.side.Other()) == o
      && Layout(w') == Rotation(m', p, ctx.side)
  {
    var In(up, s, p, c, o) := ctx;
    var f := Far(o, s);
    var cf := In(Turned(ctx, t), s.Other(), o.node, o.color, Near(o, s));
    PlugNodes(ctx, t);
    assert Distinct(o) && f.node in Nodes(f);
    assert Plug(cf, f) == Plug(ctx, t);
    Recolor(cf, f, Black);
    var ctx1 := ctx.(sibling := Join(s, Near(o, s), o.node, o.color, f.(color := Black)));
    assert Plug(cf, f.(color := Black)) == Plug(ctx1, t);
    var P := Parent(ctx1, t);
    assert Plug(up, P) == Plug(ctx1, t);
    PaintRotateLayout(up, P, s, Black, c);
    assert Rotated(Painted(P, s, Black, c), s) == Refilled(ctx, t);
    ReadNode(up, Parent(ctx, t));
    ReadSibling(ctx, t);
  }

  ghost function RefillPainted(m: Memory, p: RbNode, o: RbNode, f: RbNode, c: Color): Memory
    requires p in m && o in m && f in m
  {
    PaintedMemory(m[f := m[f].(color := Black)], p, o, Black, c)
  }

  lemma ReadParent(ctx: Context<RbNode>, t: Tree<RbNode>)
    requires Distinct(Plug(ctx, t)) && ctx.In?
    ensures var m := Layout(Plug(ctx, t));
      && ctx.node in m && m[ctx.node].parent == CtxTop(ctx.up) && m[ctx.node].color == ctx.color
      && m[ctx.node].Child(ctx.side) == Top(t) && m[ctx.node].Child(ctx.side.Other()) == Top(ctx.sibling)
  {
    ReadNode(ctx.up, Parent(ctx, t));
  }

  lemma ReadNephews(ctx: Context<RbNode>, t: Tree<RbNode>)
    requires Distinct(Plug(ctx, t)) && ctx.In? && ctx.sibling.Fork?
    ensures var m, o := Layout(Plug(ctx, t)), ctx.sibling;
      && o.node in m && m[o.node].left == Top(o.left) && m[o.node].right == Top(o.right)
      && (o.left.Fork? ==> o.left.node in m && m[o.left.node].color == o.left.color)
      && (o.right.Fork? ==> o.right.node in m && m[o.right.node].color == o.right.color)
  {
    ReadSibling(ctx, t);
    var o, c := ctx.sibling, Turned(ctx, t);
    assert Plug(c, o) == Plug(ctx, t);
    assert Plug(In(c, OnLeft, o.node, o.color, o.right), o.left) == Plug(c, o);
    assert Plug(In(c, OnRight, o.node, o.color, o.left), o.right) == Plug(c, o);
    if o.left.Fork? { ReadNode(In(c, OnLeft, o.node, o.color, o.right), o.left); }
    if o.right.Fork? { ReadNode(In(c, OnRight, o.node, o.color, o.left), o.right); }
  }

  // rbtree.c:152 and 192
  method Shorten(other: RbNode, root: Root, ghost ctx: Context<RbNode>, ghost t: Tree<RbNode>)
    requires Holds(Plug(ctx, t), root) && ctx.In? && ctx.sibling.Fork? && other == ctx.sibling.node
    requires Plug(Turned(ctx, t), ctx.sibling) == Plug(ctx, t)
    requires Plug(Turned(ctx, t), ctx.sibling.(color := Red)) == Plug(ctx.up, Shortened(ctx, t))
    modifies Nodes(Plug(ctx, t))`color
    ensures Holds(Plug(ctx.up, Shortened(ctx, t)), root) && SameNodes(Plug(ctx.up, Shortened(ctx, t)), Plug(ctx, t))
  {
    Recolor(Turned(ctx, t), ctx.sibling, Red);
    other.color := Red;
  }

  // How far __rb_erase_color still is from the end.
  ghost function Effort<N>(ctx: Context<N>, t: Tree<N>): nat {
    2 * Depth(ctx) + if TopColor(t).Black? then 1 else 0
  }

  // rbtree.c:168-172
  method RefillLeft(parent: RbNode, other: RbNode, root: Root, ghost ctx: Context<RbNode>, ghost t: Tree<RbNode>)
    requires Holds(Plug(ctx, t), root) && ctx.In? && ctx.side.OnLeft?
    requires ctx.sibling.Fork? && Far(ctx.sibling, ctx.side).Fork?
    requires parent == ctx.node && other == ctx.sibling.node
    modifies root, Nodes(Plug(ctx, t))`parent, Nodes(Plug(ctx, t))`left,
             Nodes(Plug(ctx, t))`right, Nodes(Plug(ctx, t))`color
    ensures Holds(Plug(ctx.up, Refilled(ctx, t)), root)
    ensures SameNodes(Plug(ctx.up, Refilled(ctx, t)), Plug(ctx, t))
  {
    ghost var m, f := Layout(Plug(ctx, t)), Far(ctx.sibling, ctx.side).node;
    assert parent in m && other in m && f in m && parent != other && parent != f && other != f
        && m[parent].color == ctx.color && m[other].right == f by { RefilledLayout(ctx, t); }
    ghost var m' := RefillPainted(m, parent, other, f, ctx.color);
    assert CanRotate(m', parent, OnLeft) by { RefilledLayout(ctx, t); }
    other.color := parent.color;
    parent.color := Black;
    if other.right != null {
      other.right.color := Black;
    }
    assert Stores(m');
    RotateLeft(parent, root, m');
    RefilledLayout(ctx, t);
  }

  // rbtree.c:156-175: the sibling has a red child; after this the tree is whole again.
  method RepairLeft(parent: RbNode, other0: RbNode, root: Root, ghost ctx0: Context<RbNode>, ghost t: Tree<RbNode>)
    returns (ghost w: Tree<RbNode>)
    requires Holds(Plug(ctx0, t), root) && Short(ctx0, t) && TopColor(t).Black? && ctx0.In? && ctx0.side.OnLeft?
    requires ctx0.sibling.Fork? && ctx0.sibling.color.Black? && RedChild(ctx0.sibling)
    requires parent == ctx0.node && other0 == ctx0.sibling.node
    modifies root, Nodes(Plug(ctx0, t))`parent, Nodes(Plug(ctx0, t))`left,
             Nodes(Plug(ctx0, t))`right, Nodes(Plug(ctx0, t))`color
    ensures Holds(w, root) && RedBlack(w) && SameNodes(w, Plug(ctx0, t))
  {
    var other := other0;
    ghost var ctx := ctx0;
    ReadNephews(ctx, t);
    if other.right == null || other.right.color.Black? {
      NephewFits(ctx, t);
      var nephew := other.left;
      PaintRotateRight(other, nephew, Red, Black, root, Turned(ctx, t), ctx.sibling);
      ctx := NephewTurned(ctx);
      ReadParent(ctx, t);
      other := parent.right;
    }
    RefilledFits(ctx, t);
    RefillLeft(parent, other, root, ctx, t);
    w := Plug(ctx.up, Refilled(ctx, t));
  }

  // rbtree.c:139-175: the short subtree is a left child.
  method EraseArmLeft(parent: RbNode, root: Root, ghost ctx0: Context<RbNode>, ghost t0: Tree<RbNode>)
    returns (stop: bool, ghost ctx: Context<RbNode>, ghost t: Tree<RbNode>, ghost w: Tree<RbNode>)
    requires Holds(Plug(ctx0, t0), root) && Short(ctx0, t0) && TopColor(t0).Black? && ctx0.In? && ctx0.side.OnLeft?
    requires parent == ctx0.node
    modifies root, Nodes(Plug(ctx0, t0))`parent, Nodes(Plug(ctx0, t0))`left,
             Nodes(Plug(ctx0, t0))`right, Nodes(Plug(ctx0, t0))`color
    ensures Holds(w, root) && SameNodes(w, Plug(ctx0, t0))
    ensures stop ==> RedBlack(w)
    ensures !stop ==> w == Plug(ctx, t) && Short(ctx, t) && Top(t) == parent && Effort(ctx, t) < Effort(ctx0, t0)
  {
    ctx, t := ctx0, t0;
    ReadParent(ctx, t);
    ReadSibling(ctx, t);
    var other := parent.right;
    if other.color.Red? {
      LoweredFits(ctx, t);
      PaintRotateLeft(parent, other, Red, Black, root, ctx.up, Parent(ctx, t));
      ctx := Lowered(ctx);
      ReadParent(ctx, t);
      other := parent.right;
    }
    ReadNephews(ctx, t);
    if (other.left == null || other.left.color.Black?) && (other.right == null || other.right.color.Black?) {
      ShortenedFits(ctx, t);
      Shorten(other, root, ctx, t);
      stop, ctx, t := false, ctx.up, Shortened(ctx, t);
      w := Plug(ctx, t);
    } else {
      w := RepairLeft(parent, other, root, ctx, t);
      stop := true;
    }
  }

  // rbtree.c:208-212
  method RefillRight(parent: RbNode, other: RbNode, root: Root, ghost ctx: Context<RbNode>, ghost t: Tree<RbNode>)
    requires Holds(Plug(ctx, t), root) && ctx.In? && ctx.side.OnRight?
    requires ctx.sibling.Fork? && Far(ctx.sibling, ctx.side).Fork?
    requires parent == ctx.node && other == ctx.sibling.node
    modifies root, Nodes(Plug(ctx, t))`parent, Nodes(Plug(ctx, t))`left,
             Nodes(Plug(ctx, t))`right, Nodes(Plug(ctx, t))`color
    ensures Holds(Plug(ctx.up, Refilled(ctx, t)), root)
    ensures SameNodes(Plug(ctx.up, Refilled(ctx, t)), Plug(ctx, t))
  {
    ghost var m, f := Layout(Plug(ctx, t)), Far(ctx.sibling, ctx.side).node;
    assert parent in m && other in m && f in m && parent != other && parent != f && other != f
        && m[parent].color == ctx.color && m[other].left == f by { RefilledLayout(ctx, t); }
    ghost var m' := RefillPainted(m, parent, other, f, ctx.color);
    assert CanRotate(m', parent, OnRight) by { RefilledLayout(ctx, t); }
    other.color := parent.color;
    parent.color := Black;
    if other.left != null {
      other.left.color := Black;
    }
    assert Stores(m');
    RotateRight(parent, root, m');
    RefilledLayout(ctx, t);
  }

  // rbtree.c:196-215: the sibling has a red child; after this the tree is whole again.
  method RepairRight(parent: RbNode, other0: RbNode, root: Root, ghost ctx0: Context<RbNode>, ghost t: Tree<RbNode>)
    returns (ghost w: Tree<RbNode>)
    requires Holds(Plug(ctx0, t), root) && Short(ctx0, t) && TopColor(t).Black? && ctx0.In? && ctx0.side.OnRight?
    requires ctx0.sibling.Fork? && ctx0.sibling.color.Black? && RedChild(ctx0.sibling)
    requires parent == ctx0.node && other0 == ctx0.sibling.node
    modifies root, Nodes(Plug(ctx0, t))`parent, Nodes(Plug(ctx0, t))`left,
             Nodes(Plug(ctx0, t))`right, Nodes(Plug(ctx0, t))`color
    ensures Holds(w, root) && RedBlack(w) && SameNodes(w, Plug(ctx0, t))
  {
    var other := other0;
    ghost var ctx := ctx0;
    ReadNephews(ctx, t);
    if other.left == null || other.left.color.Black? {
      NephewFits(ctx, t);
      var nephew := other.right;
      PaintRotateLeft(other, nephew, Red, Black, root, Turned(ctx, t), ctx.sibling);
      ctx := NephewTurned(ctx);
      ReadParent(ctx, t);
      other := parent.left;
    }
    RefilledFits(ctx, t);
    RefillRight(parent, other, root, ctx, t);
    w := Plug(ctx.up, Refilled(ctx, t));
  }

  // rbtree.c:179-215: the short subtree is a right child.
  method EraseArmRight(parent: RbNode, root: Root, ghost ctx0: Context<RbNode>, ghost t0: Tree<RbNode>)
    returns (stop: bool, ghost ctx: Context<RbNode>, ghost t: Tree<RbNode>, ghost w: Tree<RbNode>)
    requires Holds(Plug(ctx0, t0), root) && Short(ctx0, t0) && TopColor(t0).Black? && ctx0.In? && ctx0.side.OnRight?
    requires parent == ctx0.node
    modifies root, Nodes(Plug(ctx0, t0))`parent, Nodes(Plug(ctx0, t0))`left,
             Nodes(Plug(ctx0, t0))`right, Nodes(Plug(ctx0, t0))`color
    ensures Holds(w, root) && SameNodes(w, Plug(ctx0, t0))
    ensures stop ==> RedBlack(w)
    ensures !stop ==> w == Plug(ctx, t) && Short(ctx, t) && Top(t) == parent && Effort(ctx, t) < Effort(ctx0, t0)
  {
    ctx, t := ctx0, t0;
    ReadParent(ctx, t);
    ReadSibling(ctx, t);
    var other := parent.left;
    if other.color.Red? {
      LoweredFits(ctx, t);
      PaintRotateRight(parent, other, Red, Black, root, ctx.up, Parent(ctx, t));
      ctx := Lowered(ctx);
      ReadParent(ctx, t);
      other := parent.left;
    }
    ReadNephews(ctx, t);
    if (other.left == null || other.left.color.Black?) && (other.right == null || other.right.color.Black?) {
      ShortenedFits(ctx, t);
      Shorten(other, root, ctx, t);
      stop, ctx, t := false, ctx.up, Shortened(ctx, t);
      w := Plug(ctx, t);
    } else {
      w := RepairRight(parent, other, root, ctx, t);
      stop := true;
    }
  }

  // __rb_erase_color (rbtree.c:130-220)
  method EraseColor(node0: RbNode?, parent0: RbNode?, root: Root, ghost ctx0: Context<RbNode>, ghost t0: Tree<RbNode>)
    returns (ghost w: Tree<RbNode>)
    requires Holds(Plug(ctx0, t0), root) && Short(ctx0, t0)
    requires node0 == Top(t0) && parent0 == CtxTop(ctx0)
    modifies root, Nodes(Plug(ctx0, t0))`parent, Nodes(Plug(ctx0, t0))`left,
             Nodes(Plug(ctx0, t0))`right, Nodes(Plug(ctx0, t0))`color
    ensures Holds(w, root) && RedBlack(w) && SameNodes(w, Plug(ctx0, t0))
  {
    var node, parent := node0, parent0;
    ghost var ctx, t, whole := ctx0, t0, false;
    w := Plug(ctx, t);
    ReadShort(ctx, t);
    while (node == null || node.color.Black?) && node != root.top
      invariant Holds(w, root) && SameNodes(w, Plug(ctx0, t0))
      invariant !whole && w == Plug(ctx, t) && Short(ctx, t) && node == Top(t) && parent == CtxTop(ctx)
      invariant t.Fork? ==> node.color == t.color
      invariant root.top == node <==> ctx.Hole?
      decreases Effort(ctx, t)
    {
      ReadParent(ctx, t);
      ReadSides(ctx, t);
      var stop;
      if parent.left == node {
        stop, ctx, t, w := EraseArmLeft(parent, root, ctx, t);
      } else {
        stop, ctx, t, w := EraseArmRight(parent, root, ctx, t);
      }
      if stop {
        node := root.top;
        whole := true;
        break;
      }
      ReadShort(ctx, t);
      node := parent;
      parent := node.parent;
    }
    w := BlackenNode(node, root, whole, ctx, t, w);
  }

  lemma ReadShort(ctx: Context<RbNode>, t: Tree<RbNode>)
    requires Distinct(Plug(ctx, t))
    ensures var m := Layout(Plug(ctx, t));
      && (t.Fork? ==> t.node in m && m[t.node].color == t.color && m[t.node].parent == CtxTop(ctx))
      && (Top(Plug(ctx, t)) == Top(t) <==> ctx.Hole?)
  {
    if t.Fork? { ReadNode(ctx, t); }
    PlugNodes(ctx, t);
    if ctx.Hole? {
      PlugTop(ctx, t, t);
    } else {
      TopIsOutside(ctx, t);
      if t.Fork? { assert t.node in Nodes(t); }
    }
  }

  lemma {:induction false} TopIsOutside(ctx: Context<RbNode>, t: Tree<RbNode>)
    requires ctx.In?
    ensures Top(Plug(ctx, t)) != null && Top(Plug(ctx, t)) in CtxNodes(ctx)
  {
    var t' := Join(ctx.side, t, ctx.node, ctx.color, ctx.sibling);
    if ctx.up.In? { TopIsOutside(ctx.up, t'); } else { assert Plug(ctx.up, t') == t'; }
  }

  // With a node missing on one side the other side cannot be empty, so comparing the left
  // child with a null node still tells the side.
  lemma ReadSides(ctx: Context<RbNode>, t: Tree<RbNode>)
    requires Distinct(Plug(ctx, t)) && Short(ctx, t) && ctx.In?
    ensures ctx.sibling.Fork? && Top(ctx.sibling) != Top(t)
  {
    PlugNodes(ctx, t);
    assert Top(ctx.sibling) in Nodes(ctx.sibling);
    if t.Fork? { assert t.node in Nodes(t); }
  }

  // rbtree.c:218-219: after a rotation the node is the root, else it is where the loop stopped.
  method BlackenNode(node: RbNode?, root: Root, ghost whole: bool,
                     ghost ctx: Context<RbNode>, ghost t: Tree<RbNode>, ghost w0: Tree<RbNode>)
    returns (ghost w: Tree<RbNode>)
    requires Holds(w0, root)
    requires if whole then RedBlack(w0) && node == Top(w0)
             else w0 == Plug(ctx, t) && Short(ctx, t) && node == Top(t) && (TopColor(t).Red? || ctx.Hole?)
    modifies Nodes(w0)`color
    ensures Holds(w, root) && RedBlack(w) && SameNodes(w, w0)
  {
    if whole {
      w := w0;
      assert Plug(Hole, w0) == w0 && Blackened(w0) == w0;
    } else {
      w := Plug(ctx, Blackened(t));
      BlackenedFits(ctx, t);
    }
    if node != null {
      if whole { Recolor(Hole, w0, Black); } else { Recolor(ctx, t, Black); }
      node.color := Black;
    }
  }

  lemma BlackenedFits<N>(ctx: Context<N>, t: Tree<N>)
    requires Short(ctx, t) && (TopColor(t).Red? || ctx.Hole?)
    ensures RedBlack(Plug(ctx, Blackened(t)))
  {
    if ctx.Hole? {
      assert Plug(ctx, Blackened(t)) == Blackened(t);
    } else {
      PlugRedBlack(ctx, Blackened(t));
    }
  }

  // The only child, if any, of a node that lacks the other one.
  ghost function OnlyChild<N>(t: Tree<N>): Tree<N>
    requires t.Fork?
  {
    if t.left.Empty? then t.right else t.left
  }

  lemma UnlinkField(ctx: Context<RbNode>, t: Tree<RbNode>, n: RbNode)
    requires Distinct(Plug(ctx, t)) && t.Fork? && (t.left.Empty? || t.right.Empty?)
    requires n in Nodes(Plug(ctx, t)) && n != t.node
    ensures var kid := OnlyChild(t);
      var w, w' := Plug(ctx, t), Plug(ctx, kid);
      && n in Nodes(w')
      && Field(w', null, n) ==
         if n == CtxTop(ctx) then Field(w, null, n).WithChild(ctx.side, Top(kid))
         else if n == Top(kid) then Field(w, null, n).(parent := CtxTop(ctx))
         else Field(w, null, n)
  {
    var kid := OnlyChild(t);
    PlugNodes(ctx, t);
    PlugNodes(ctx, kid);
    PlugField(ctx, t, n);
    PlugField(ctx, kid, n);
    assert CtxTop(ctx) != null ==> CtxTop(ctx) in CtxNodes(ctx);
    assert Top(kid) != null ==> Top(kid) in Nodes(kid);
    if n in Nodes(kid) {
      FieldReparent(kid, t.node, CtxTop(ctx), n);
    } else {
      CtxFieldRelink(ctx, t.node, Top(kid), n);
    }
  }

  lemma UnlinkShape(ctx: Context<RbNode>, t: Tree<RbNode>)
    requires Distinct(Plug(ctx, t)) && t.Fork? && (t.left.Empty? || t.right.Empty?)
    ensures var kid, p := OnlyChild(t), CtxTop(ctx);
      var w, w' := Plug(ctx, t), Plug(ctx, kid);
      && Distinct(w') && Nodes(w') == Nodes(w) - {t.node} && t.node in Nodes(w)
      && InOrder(w') == Before(ctx) + (InOrder(t.left) + InOrder(t.right)) + After(ctx)
      && Top(w') == (if ctx.Hole? then Top(kid) else Top(w))
      && (p != null ==> p in Nodes(w')) && (kid.Fork? ==> kid.node in Nodes(w') && p != kid.node)
  {
    var kid := OnlyChild(t);
    PlugNodes(ctx, t);
    PlugNodes(ctx, kid);
    PlugInOrder(ctx, kid);
    assert InOrder(kid) == InOrder(t.left) + InOrder(t.right) by {
      if t.left.Empty? { assert [] + InOrder(t.right) == InOrder(t.right); }
      else { assert InOrder(t.left) + [] == InOrder(t.left); }
    }
    PlugTop(ctx, t, kid);
    PlugTop(ctx, kid, t);
    assert CtxTop(ctx) != null ==> CtxTop(ctx) in CtxNodes(ctx);
    assert Top(kid) != null ==> Top(kid) in Nodes(kid);
  }

  // The links of the top of t and of the node above it.
  lemma ReadPlace(ctx: Context<RbNode>, t: Tree<RbNode>)
    requires Distinct(Plug(ctx, t)) && t.Fork?
    ensures var m, p := Layout(Plug(ctx, t)), CtxTop(ctx);
      && t.node in m && m[t.node] == Link(p, Top(t.left), Top(t.right), t.color)
      && (p != null ==> p in m && m[p].Child(ctx.side) == t.node && m[p].Child(ctx.side.Other()) != t.node)
  {
    ReadNode(ctx, t);
    ReadFamily(ctx, t);
  }

  // Taking out a node with at most one child (rbtree.c:242-252 and 279-289).
  method Unlink(node: RbNode, child: RbNode?, root: Root, ghost ctx: Context<RbNode>, ghost t: Tree<RbNode>)
    returns (parent: RbNode?, color: Color)
    requires Holds(Plug(ctx, t), root) && t.Fork? && (t.left.Empty? || t.right.Empty?)
    requires node == t.node && child == Top(OnlyChild(t))
    modifies root, Nodes(Plug(ctx, OnlyChild(t)))`parent, Nodes(Plug(ctx, OnlyChild(t)))`left,
             Nodes(Plug(ctx, OnlyChild(t)))`right
    ensures Holds(Plug(ctx, OnlyChild(t)), root) && parent == CtxTop(ctx) && color == t.color
    ensures LinkOf(node) == old(LinkOf(node)) == Link(CtxTop(ctx), Top(t.left), Top(t.right), t.color)
  {
    ghost var w, w' := Plug(ctx, t), Plug(ctx, OnlyChild(t));
    UnlinkShape(ctx, t);
    ReadPlace(ctx, t);
    assert LinkOf(node) == Layout(w)[node];
    parent := node.parent;
    color := node.color;
    if child != null {
      child.parent := parent;
    }
    if parent != null {
      assert LinkOf(parent).WithChild(OnLeft, null) == Layout(w)[parent].WithChild(OnLeft, null);
      if parent.left == node {
        parent.left := child;
      } else {
        parent.right := child;
      }
    } else {
      root.top := child;
    }
    forall n | n in Nodes(w') ensures LinkOf(n) == Layout(w')[n] {
      UnlinkField(ctx, t, n);
      assert n in Layout(w) && Layout(w)[n] == Field(w, null, n);
    }
  }

  lemma DeleteFits<N>(ctx: Context<N>, t: Tree<N>)
    requires RedBlack(Plug(ctx, t)) && t.Fork? && (t.left.Empty? || t.right.Empty?)
    ensures t.color.Red? ==> RedBlack(Plug(ctx, OnlyChild(t)))
    ensures t.color.Black? ==> Short(ctx, OnlyChild(t))
  {
    if ctx.Hole? {
      assert Plug(ctx, t) == t && Plug(ctx, OnlyChild(t)) == OnlyChild(t);
      assert Balanced(OnlyChild(t));
    } else {
      PlugRedBlack(ctx, t);
      PlugRedBlack(ctx, OnlyChild(t));
    }
  }

  // Putting x in the place of the top of t.
  lemma ReplaceField(ctx: Context<RbNode>, t: Tree<RbNode>, x: RbNode, n: RbNode)
    requires Distinct(Plug(ctx, t)) && t.Fork? && x !in Nodes(Plug(ctx, t))
    requires n in Nodes(Plug(ctx, t)) && n != t.node
    ensures var w, w' := Plug(ctx, t), Plug(ctx, t.(node := x));
      && Distinct(w') && n in Nodes(w')
      && Field(w', null, n) ==
         if n == CtxTop(ctx) then Field(w, null, n).WithChild(ctx.side, x)
         else if n == Top(t.left) || n == Top(t.right) then Field(w, null, n).(parent := x)
         else Field(w, null, n)
  {
    PlugNodes(ctx, t);
    PlugNodes(ctx, t.(node := x));
    PlugField(ctx, t, n);
    PlugField(ctx, t.(node := x), n);
    assert CtxTop(ctx) != null ==> CtxTop(ctx) in CtxNodes(ctx);
    assert Top(t.left) != null ==> Top(t.left) in Nodes(t.left);
    assert Top(t.right) != null ==> Top(t.right) in Nodes(t.right);
    if n in Nodes(t.left) {
      FieldReparent(t.left, t.node, x, n);
    } else if n in Nodes(t.right) {
      FieldReparent(t.right, t.node, x, n);
    } else {
      CtxFieldRelink(ctx, t.node, x, n);
    }
  }

  lemma ReplaceShape(ctx: Context<RbNode>, t: Tree<RbNode>, x: RbNode)
    requires Distinct(Plug(ctx, t)) && t.Fork? && x !in Nodes(Plug(ctx, t))
    ensures var w, w', p := Plug(ctx, t), Plug(ctx, t.(node := x)), CtxTop(ctx);
      && Distinct(w') && Nodes(w') == Nodes(w) - {t.node} + {x} && t.node in Nodes(w)
      && InOrder(w') == Before(ctx) + (InOrder(t.left) + [x] + InOrder(t.right)) + After(ctx)
      && Top(w') == (if ctx.Hole? then x else Top(w))
      && (p != null ==> p in Nodes(w) && p != t.node && p != Top(t.left) && p != Top(t.right))
      && (t.left.Fork? ==> t.left.node in Nodes(w) && t.left.node != t.node)
      && (t.right.Fork? ==> t.right.node in Nodes(w) && t.right.node != t.node && Top(t.left) != t.right.node)
  {
    PlugNodes(ctx, t);
    PlugNodes(ctx, t.(node := x));
    PlugInOrder(ctx, t.(node := x));
    PlugTop(ctx, t, t.(node := x));
    PlugTop(ctx, t.(node := x), t);
    assert CtxTop(ctx) != null ==> CtxTop(ctx) in CtxNodes(ctx);
    assert Top(t.left) != null ==> Top(t.left) in Nodes(t.left);
    assert Top(t.right) != null ==> Top(t.right) in Nodes(t.right);
  }

  // rbtree.c:256-268: node gets the links of old_ and the link that led to old_.
  method TakePlace(old_: RbNode, node: RbNode, root: Root, ghost m: Memory)
    requires Stores(m) && old_ in m && node !in m && Known(m, m[old_].parent) && m[old_].parent != old_
    modifies root, (m.Keys + {node})`parent, (m.Keys + {node})`left, (m.Keys + {node})`right, node`color
    ensures LinkOf(node) == m[old_]
    ensures var p := m[old_].parent;
      && root.top == (if p == null then node else old(root.top))
      && (p != null ==> LinkOf(p) == m[p].WithChild(if m[p].left == old_ then OnLeft else OnRight, node))
      && forall n :: n in m && n != p ==> LinkOf(n) == m[n]
  {
    ghost var p := m[old_].parent;
    assert LinkOf(old_) == m[old_];
    assert p != null ==> LinkOf(p) == m[p];
    node.parent := old_.parent;
    node.color := old_.color;
    node.right := old_.right;
    node.left := old_.left;
    if old_.parent != null {
      if old_.parent.left == old_ {
        old_.parent.left := node;
      } else {
        old_.parent.right := node;
      }
    } else {
      root.top := node;
    }
  }

  // rbtree.c:256-272: the successor, already taken out, moves into the place of the node
  // that is deleted.
  method Replace(old_: RbNode, node: RbNode, root: Root, ghost ctx: Context<RbNode>, ghost t: Tree<RbNode>)
    requires Holds(Plug(ctx, t), root) && t.Fork? && t.left.Fork? && t.node == old_
    requires node !in Nodes(Plug(ctx, t))
    modifies root, (Nodes(Plug(ctx, t)) + {node})`parent, (Nodes(Plug(ctx, t)) + {node})`left,
             (Nodes(Plug(ctx, t)) + {node})`right, node`color
    ensures Holds(Plug(ctx, t.(node := node)), root)
  {
    ghost var w, w' := Plug(ctx, t), Plug(ctx, t.(node := node));
    ghost var m, p, l, r := Layout(w), CtxTop(ctx), Top(t.left), Top(t.right);
    assert Distinct(w') && Nodes(w') == Nodes(w) - {old_} + {node} && Top(w') == (if ctx.Hole? then node else Top(w))
        && old_ in Nodes(w) && (p != null ==> p in Nodes(w) && p != old_ && p != l && p != r)
        && l in Nodes(w) && l != old_ && l != r && (r != null ==> r in Nodes(w) && r != old_)
        by { ReplaceShape(ctx, t, node); }
    assert m[old_] == Link(p, l, r, t.color) && Layout(w')[node] == Link(p, l, r, t.color)
        && (p != null ==> m[p].Child(ctx.side) == old_ && m[p].Child(ctx.side.Other()) != old_)
        by { ReadPlace(ctx, t); ReadPlace(ctx, t.(node := node)); ReplaceShape(ctx, t, node); }
    assert LinkOf(old_) == m[old_];
    assert forall n :: n in Nodes(w) ==> LinkOf(n) == m[n];
    TakePlace(old_, node, root, m);
    old_.left.parent := node;
    if old_.right != null {
      old_.right.parent := node;
    }
    forall n | n in Nodes(w') ensures LinkOf(n) == Layout(w')[n] {
      if n != node {
        var f := if n == p then m[n].WithChild(ctx.side, node)
                 else if n == l || n == r then m[n].(parent := node)
                 else m[n];
        assert Layout(w')[n] == f by { ReplaceField(ctx, t, node, n); }
      }
    }
  }

  // What is left of a tree when its top is deleted, up to colours.
  lemma ErasedOrder<N>(ctx: Context<N>, t: Tree<N>)
    requires t.Fork? && t.right.Fork?
    ensures Before(ctx) + (InOrder(t.left) + [Leftmost(t.right).node] + InOrder(DropLeftmost(t.right))) + After(ctx)
         == Before(ctx) + (InOrder(t.left) + InOrder(t.right)) + After(ctx)
  {
    LeftmostInOrder(t.right);
    var x, r := [Leftmost(t.right).node], InOrder(DropLeftmost(t.right));
    assert InOrder(t.left) + x + r == InOrder(t.left) + (x + r);
  }

  // The place of the successor, before and after it has moved into the place of the top of t.
  lemma SuccessorPlace(ctx: Context<RbNode>, t: Tree<RbNode>)
    requires Distinct(Plug(ctx, t)) && t.Fork? && t.right.Fork?
    ensures var d, m := LeftmostCtx(In(ctx, OnRight, t.node, t.color, t.left), t.right), Leftmost(t.right);
      var t1 := Fork(t.left, t.node, t.color, DropLeftmost(t.right));
      var d' := CtxSwapIn(d, t.node, m.node);
      && Plug(d, m) == Plug(ctx, t) && Plug(d, m.right) == Plug(ctx, t1)
      && Distinct(Plug(ctx, t1)) && m.node !in Nodes(Plug(ctx, t1))
      && m.node in Nodes(Plug(ctx, t)) && t.node in Nodes(Plug(ctx, t)) && m.node != t.node
      && Nodes(Plug(ctx, t1)) == Nodes(Plug(ctx, t)) - {m.node}
      && Plug(d', m.right) == Plug(ctx, t1.(node := m.node))
      && CtxTop(d') == (if CtxTop(d) == t.node then m.node else CtxTop(d))
  {
    var d, m := LeftmostCtx(In(ctx, OnRight, t.node, t.color, t.left), t.right), Leftmost(t.right);
    var t1 := Fork(t.left, t.node, t.color, DropLeftmost(t.right));
    LeftmostPlug(In(ctx, OnRight, t.node, t.color, t.left), t.right);
    assert Plug(d, m) == Plug(ctx, t) && Plug(d, m.right) == Plug(ctx, t1);
    UnlinkShape(d, m);
    PlugNodes(d, m);
    PlugNodes(ctx, t1);
    assert t.node in Nodes(Plug(ctx, t1));
    SwapInPlug(d, m.right, t.node, m.node);
    SwapInPlug(ctx, t1, t.node, m.node);
    CtxSwapInAbsent(ctx, t.node, m.node);
    SwapInAbsent(t.left, t.node, m.node);
    SwapInAbsent(DropLeftmost(t.right), t.node, m.node);
    SuccessorApart(ctx, t);
    SwapInAbsent(m.right, t.node, m.node);
  }

  lemma SuccessorApart(ctx: Context<RbNode>, t: Tree<RbNode>)
    requires Distinct(Plug(ctx, t)) && t.Fork? && t.right.Fork?
    ensures t.node !in Nodes(Leftmost(t.right))
  {
    PlugNodes(ctx, t);
    LeftmostInside(t.right);
  }

  lemma {:induction false} LeftmostInside<N>(t: Tree<N>)
    requires t.Fork?
    ensures Nodes(Leftmost(t)) <= Nodes(t)
  {
    if t.left.Fork? { LeftmostInside(t.left); }
  }

  lemma SwappedFits(d: Context<RbNode>, kid: Tree<RbNode>, old_: RbNode, new_: RbNode)
    requires old_ !in Nodes(kid)
    ensures RedBlack(Plug(CtxSwapIn(d, old_, new_), kid)) <==> RedBlack(Plug(d, kid))
    ensures Short(CtxSwapIn(d, old_, new_), kid) <==> Short(d, kid)
  {
    SwapInPlug(d, kid, old_, new_);
    SwapInAbsent(kid, old_, new_);
    SwapInShape(Plug(d, kid), old_, new_);
    CtxSwapInShape(d, old_, new_, BlackHeight(kid) + 1);
  }

  // rbtree.c:235-237
  method Successor(old_: RbNode, root: Root, ghost ctx: Context<RbNode>, ghost t: Tree<RbNode>)
    returns (node: RbNode)
    requires Holds(Plug(ctx, t), root) && t.Fork? && t.right.Fork? && old_ == t.node
    ensures Holds(Plug(ctx, t), root)
    ensures node == Leftmost(t.right).node && node.right == Top(Leftmost(t.right).right)
  {
    ghost var w := Plug(ctx, t);
    ghost var d, cur := In(ctx, OnRight, t.node, t.color, t.left), t.right;
    assert Plug(d, cur) == w;
    ReadNode(ctx, t);
    assert LinkOf(old_) == Layout(w)[old_];
    node := old_.right;
    ReadNode(d, cur);
    assert LinkOf(node) == Layout(w)[node];
    while node.left != null
      invariant Holds(w, root)
      invariant cur.Fork? && Plug(d, cur) == w && Leftmost(cur) == Leftmost(t.right)
      invariant node == cur.node && node.left == Top(cur.left) && node.right == Top(cur.right)
      decreases cur
    {
      d, cur := In(d, OnLeft, cur.node, cur.color, cur.right), cur.left;
      assert Plug(d, cur) == w;
      node := node.left;
      ReadNode(d, cur);
      assert LinkOf(node) == Layout(w)[node];
    }
  }

  // rb_erase (rbtree.c:222-294)
  method Erase(node0: RbNode, root: Root, ghost ctx: Context<RbNode>, ghost t: Tree<RbNode>)
    returns (ghost w: Tree<RbNode>)
    requires Holds(Plug(ctx, t), root) && RedBlack(Plug(ctx, t)) && t.Fork? && t.node == node0
    modifies root, Nodes(Plug(ctx, t))`parent, Nodes(Plug(ctx, t))`left,
             Nodes(Plug(ctx, t))`right, Nodes(Plug(ctx, t))`color
    ensures Holds(w, root) && RedBlack(w)
    ensures InOrder(w) == Before(ctx) + (InOrder(t.left) + InOrder(t.right)) + After(ctx)
    ensures Nodes(w) == Nodes(Plug(ctx, t)) - {node0}
  {
    var node := node0;
    var child: RbNode?;
    var parent: RbNode?, color;
    ghost var d, kid;
    ReadNode(ctx, t);
    if node.left == null || node.right == null {
      child := if node.left == null then node.right else node.left;
      DeleteFits(ctx, t);
      UnlinkShape(ctx, t);
      parent, color := Unlink(node, child, root, ctx, t);
      d, kid := ctx, OnlyChild(t);
    } else {
      d, kid, parent, child, color := EraseInner(node, root, ctx, t);
    }
    w := Plug(d, kid);
    if color.Black? {
      w := EraseColor(child, parent, root, d, kid);
    }
  }

  // rbtree.c:232-274: both children present.
  method EraseInner(old_: RbNode, root: Root, ghost ctx: Context<RbNode>, ghost t: Tree<RbNode>)
    returns (ghost d: Context<RbNode>, ghost kid: Tree<RbNode>, parent: RbNode?, child: RbNode?, color: Color)
    requires Holds(Plug(ctx, t), root) && RedBlack(Plug(ctx, t))
    requires t.Fork? && t.left.Fork? && t.right.Fork? && t.node == old_
    modifies root, Nodes(Plug(ctx, t))`parent, Nodes(Plug(ctx, t))`left,
             Nodes(Plug(ctx, t))`right, Nodes(Plug(ctx, t))`color
    ensures Holds(Plug(d, kid), root) && child == Top(kid) && parent == CtxTop(d)
    ensures if color.Black? then Short(d, kid) else RedBlack(Plug(d, kid))
    ensures InOrder(Plug(d, kid)) == Before(ctx) + (InOrder(t.left) + InOrder(t.right)) + After(ctx)
    ensures Nodes(Plug(d, kid)) == Nodes(Plug(ctx, t)) - {old_}
  {
    ghost var m := Leftmost(t.right);
    ghost var t1 := Fork(t.left, old_, t.color, DropLeftmost(t.right));
    d, kid := LeftmostCtx(In(ctx, OnRight, old_, t.color, t.left), t.right), m.right;
    assert Plug(d, m) == Plug(ctx, t) && Plug(d, kid) == Plug(ctx, t1)
        && old_ in Nodes(Plug(ctx, t)) && m.node in Nodes(Plug(ctx, t)) && m.node !in Nodes(Plug(ctx, t1))
        && Nodes(Plug(ctx, t1)) == Nodes(Plug(ctx, t)) - {m.node} by { SuccessorPlace(ctx, t); }
    var node := Successor(old_, root, ctx, t);
    assert Holds(Plug(d, m), root);
    child := node.right;
    parent, color := Unlink(node, child, root, d, m);
    if node.parent == old_ {
      parent := node;
    }
    Replace(old_, node, root, ctx, t1);
    InnerErased(ctx, t);
    d := CtxSwapIn(d, old_, node);
  }

  lemma InnerErased(ctx: Context<RbNode>, t: Tree<RbNode>)
    requires Distinct(Plug(ctx, t)) && RedBlack(Plug(ctx, t)) && t.Fork? && t.right.Fork?
    ensures var d0, m := LeftmostCtx(In(ctx, OnRight, t.node, t.color, t.left), t.right), Leftmost(t.right);
      var d, t1 := CtxSwapIn(d0, t.node, m.node), Fork(t.left, t.node, t.color, DropLeftmost(t.right));
      && Plug(d, m.right) == Plug(ctx, t1.(node := m.node))
      && CtxTop(d) == (if CtxTop(d0) == t.node then m.node else CtxTop(d0))
      && (if m.color.Black? then Short(d, m.right) else RedBlack(Plug(d, m.right)))
      && InOrder(Plug(d, m.right)) == Before(ctx) + (InOrder(t.left) + InOrder(t.right)) + After(ctx)
      && Nodes(Plug(d, m.right)) == Nodes(Plug(ctx, t)) - {t.node}
  {
    var d, m := LeftmostCtx(In(ctx, OnRight, t.node, t.color, t.left), t.right), Leftmost(t.right);
    SuccessorPlace(ctx, t);
    SuccessorApart(ctx, t);
    DeleteFits(d, m);
    SwappedFits(d, m.right, t.node, m.node);
    ReplaceShape(ctx, Fork(t.left, t.node, t.color, DropLeftmost(t.right)), m.node);
    ErasedOrder(ctx, t);
  }

  // ---------------------------------------------------------------------------------
  // Walking the tree

  ghost function FirstOf(s: seq<RbNode>): RbNode? {
    if s == [] then null else s[0]
  }

  ghost function LastOf(s: seq<RbNode>): RbNode? {
    if s == [] then null else s[|s| - 1]
  }

  // rb_first (rbtree.c:299-309)
  method First(root: Root, ghost w: Tree<RbNode>) returns (n: RbNode?)
    requires Holds(w, root)
    ensures Holds(w, root) && n == FirstOf(InOrder(w))
  {
    n := root.top;
    if n == null {
      return null;
    }
    ghost var c, u := Hole, w;
    assert Plug(c, u) == w;
    ReadNode(c, u);
    assert LinkOf(n) == Layout(w)[n];
    while n.left != null
      invariant n != null && Holds(w, root) && Plug(c, u) == w && u.Fork? && n == u.node
      invariant n.left == Top(u.left) && n.right == Top(u.right)
      invariant FirstOf(InOrder(u)) == FirstOf(InOrder(w))
      decreases u
    {
      c, u := In(c, OnLeft, u.node, u.color, u.right), u.left;
      assert Plug(c, u) == w;
      n := n.left;
      ReadNode(c, u);
      assert LinkOf(n) == Layout(w)[n];
    }
  }

  // rb_last (rbtree.c:311-321)
  method Last(root: Root, ghost w: Tree<RbNode>) returns (n: RbNode?)
    requires Holds(w, root)
    ensures Holds(w, root) && n == LastOf(InOrder(w))
  {
    n := root.top;
    if n == null {
      return null;
    }
    ghost var c, u := Hole, w;
    assert Plug(c, u) == w;
    ReadNode(c, u);
    assert LinkOf(n) == Layout(w)[n];
    while n.right != null
      invariant n != null && Holds(w, root) && Plug(c, u) == w && u.Fork? && n == u.node
      invariant n.left == Top(u.left) && n.right == Top(u.right)
      invariant LastOf(InOrder(u)) == LastOf(InOrder(w))
      decreases u
    {
      c, u := In(c, OnRight, u.node, u.color, u.left), u.right;
      assert Plug(c, u) == w;
      n := n.right;
      ReadNode(c, u);
      assert LinkOf(n) == Layout(w)[n];
    }
  }

  // rb_next (rbtree.c:323-344): the in-order neighbour.
  method Next(node0: RbNode, ghost root: Root, ghost ctx: Context<RbNode>, ghost t: Tree<RbNode>)
    returns (n: RbNode?)
    requires Holds(Plug(ctx, t), root) && t.Fork? && t.node == node0
    ensures Holds(Plug(ctx, t), root) && n == FirstOf(InOrder(t.right) + After(ctx))
  {
    ghost var w := Plug(ctx, t);
    var node := node0;
    ReadNode(ctx, t);
    assert LinkOf(node) == Layout(w)[node];
    if node.right != null {
      node := node.right;
      ghost var c, u := In(ctx, OnRight, t.node, t.color, t.left), t.right;
      assert Plug(c, u) == w;
      ReadNode(c, u);
      assert LinkOf(node) == Layout(w)[node];
      while node.left != null
        invariant Holds(w, root) && Plug(c, u) == w && u.Fork? && node == u.node
        invariant node.left == Top(u.left) && node.right == Top(u.right)
        invariant FirstOf(InOrder(u)) == FirstOf(InOrder(t.right))
        decreases u
      {
        c, u := In(c, OnLeft, u.node, u.color, u.right), u.left;
        assert Plug(c, u) == w;
        node := node.left;
        ReadNode(c, u);
        assert LinkOf(node) == Layout(w)[node];
      }
      return node;
    }
    ghost var c, u := ctx, t;
    ReadFamily(c, u);
    while node.parent != null && node == node.parent.right
      invariant Holds(w, root) && Plug(c, u) == w && u.Fork? && node == u.node
      invariant node.parent == CtxTop(c) && After(c) == After(ctx)
      invariant c.In? ==> (node == c.node.right <==> c.side.OnRight?)
      decreases Depth(c)
    {
      c, u := c.up, Parent(c, u);
      assert Plug(c, u) == w;
      ReadFamily(c, u);
      node := node.parent;
      assert LinkOf(node) == Layout(w)[node];
      if c.In? { assert LinkOf(c.node) == Layout(w)[c.node]; }
    }
    
    return node.parent;
  }

  // rb_prev (rbtree.c:346-363): the in-order neighbour.
  method Prev(node0: RbNode, ghost root: Root, ghost ctx: Context<RbNode>, ghost t: Tree<RbNode>)
    returns (n: RbNode?)
    requires Holds(Plug(ctx, t), root) && t.Fork? && t.node == node0
    ensures Holds(Plug(ctx, t), root) && n == LastOf(Before(ctx) + InOrder(t.left))
  {
    ghost var w := Plug(ctx, t);
    var node := node0;
    ReadNode(ctx, t);
    assert LinkOf(node) == Layout(w)[node];
    if node.left != null {
      node := node.left;
      ghost var c, u := In(ctx, OnLeft, t.node, t.color, t.right), t.left;
      assert Plug(c, u) == w;
      ReadNode(c, u);
      assert LinkOf(node) == Layout(w)[node];
      while node.right != null
        invariant Holds(w, root) && Plug(c, u) == w && u.Fork? && node == u.node
        invariant node.left == Top(u.left) && node.right == Top(u.right)
        invariant LastOf(InOrder(u)) == LastOf(InOrder(t.left))
        decreases u
      {
        c, u := In(c, OnRight, u.node, u.color, u.left), u.right;
        assert Plug(c, u) == w;
        node := node.right;
        ReadNode(c, u);
        assert LinkOf(node) == Layout(w)[node];
      }
      return node;
    }
    ghost var c, u := ctx, t;
    ReadFamily(c, u);
    while node.parent != null && node == node.parent.left
      invariant Holds(w, root) && Plug(c, u) == w && u.Fork? && node == u.node
      invariant node.parent == CtxTop(c) && Before(c) == Before(ctx)
      invariant c.In? ==> (node == c.node.left <==> c.side.OnLeft?)
      decreases Depth(c)
    {
      c, u := c.up, Parent(c, u);
      assert Plug(c, u) == w;
      ReadFamily(c, u);
      node := node.parent;
      assert LinkOf(node) == Layout(w)[node];
      if c.In? { assert LinkOf(c.node) == Layout(w)[c.node]; }
    }
    assert Before(ctx) + InOrder(t.left) == Before(ctx);
    return node.parent;
  }
}
