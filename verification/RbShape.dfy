/**
  The mathematical side of src/struct/rbtree.c: coloured binary trees, the context of a
  subtree (the path to the root with the siblings hanging off it), and the red-black
  balance facts that the pointer code in RbTree relies on. Nothing here reads the heap.
 */
module RbShape {
  import opened Collections

  datatype Color = Red | Black

  datatype Side = OnLeft | OnRight {
    function Other(): Side {
      if OnLeft? then OnRight else OnLeft
    }
  }

  datatype Tree<N> = Empty | Fork(left: Tree<N>, node: N, color: Color, right: Tree<N>)

  // The child on the given side, the child on the other side, and the fork with these two.
  function Near<N>(t: Tree<N>, side: Side): Tree<N>
    requires t.Fork?
  {
    if side.OnLeft? then t.left else t.right
  }

  function Far<N>(t: Tree<N>, side: Side): Tree<N>
    requires t.Fork?
  {
    if side.OnLeft? then t.right else t.left
  }

  function Join<N>(side: Side, near: Tree<N>, n: N, c: Color, far: Tree<N>): Tree<N> {
    if side.OnLeft? then Fork(near, n, c, far) else Fork(far, n, c, near)
  }

  // A tree with one hole: the hole is the child of `node` on `side`, `sibling` its other
  // child, and `up` the context of that whole fork.
  datatype Context<N> =
    | Hole
    | In(up: Context<N>, side: Side, node: N, color: Color, sibling: Tree<N>)

  function Plug<N>(ctx: Context<N>, t: Tree<N>): Tree<N> {
    match ctx
    case Hole => t
    case In(up, side, n, c, sib) => Plug(up, Join(side, t, n, c, sib))
  }

  function Depth<N>(ctx: Context<N>): nat {
    if ctx.Hole? then 0 else 1 + Depth(ctx.up)
  }

  function InOrder<N>(t: Tree<N>): seq<N> {
    match t
    case Empty => []
    case Fork(l, n, _, r) => InOrder(l) + [n] + InOrder(r)
  }

  // What the in-order walk meets before and after the hole of a context.
  function Before<N>(ctx: Context<N>): seq<N> {
    if ctx.Hole? then []
    else if ctx.side.OnLeft? then Before(ctx.up)
    else Before(ctx.up) + InOrder(ctx.sibling) + [ctx.node]
  }

  function After<N>(ctx: Context<N>): seq<N> {
    if ctx.Hole? then []
    else if ctx.side.OnLeft? then [ctx.node] + InOrder(ctx.sibling) + After(ctx.up)
    else After(ctx.up)
  }

  ghost function Nodes<N>(t: Tree<N>): set<N> {
    match t
    case Empty => {}
    case Fork(l, n, _, r) => {n} + Nodes(l) + Nodes(r)
  }

  ghost function CtxNodes<N>(ctx: Context<N>): set<N> {
    if ctx.Hole? then {} else {ctx.node} + Nodes(ctx.sibling) + CtxNodes(ctx.up)
  }

  // No node occurs twice.
  ghost predicate Distinct<N>(t: Tree<N>) {
    match t
    case Empty => true
    case Fork(l, n, _, r) =>
      n !in Nodes(l) && n !in Nodes(r) && Nodes(l) !! Nodes(r) && Distinct(l) && Distinct(r)
  }

  ghost predicate CtxDistinct<N>(ctx: Context<N>) {
    ctx.Hole? ||
    (&& ctx.node !in Nodes(ctx.sibling) && ctx.node !in CtxNodes(ctx.up)
     && Nodes(ctx.sibling) !! CtxNodes(ctx.up)
     && Distinct(ctx.sibling) && CtxDistinct(ctx.up))
  }

  lemma {:induction false} PlugInOrder<N>(ctx: Context<N>, t: Tree<N>)
    ensures InOrder(Plug(ctx, t)) == Before(ctx) + InOrder(t) + After(ctx)
  {
    match ctx
    case Hole =>
    case In(up, side, n, c, sib) =>
      PlugInOrder(up, Join(side, t, n, c, sib));
      if side.OnLeft? {
        Reassociate(Before(up), InOrder(t), [n], InOrder(sib), After(up));
      } else {
        Reassociate(Before(up), InOrder(sib), [n], InOrder(t), After(up));
      }
  }

  lemma Reassociate<T>(a: seq<T>, b: seq<T>, c: seq<T>, d: seq<T>, e: seq<T>)
    ensures a + (b + c + d) + e == a + b + (c + d + e)
    ensures a + (b + c + d) + e == (a + b + c) + d + e
  {
  }

  lemma {:induction false} PlugNodes<N>(ctx: Context<N>, t: Tree<N>)
    ensures Nodes(Plug(ctx, t)) == CtxNodes(ctx) + Nodes(t)
    ensures Distinct(Plug(ctx, t)) <==> CtxDistinct(ctx) && Distinct(t) && CtxNodes(ctx) !! Nodes(t)
  {
    if !ctx.Hole? { PlugNodes(ctx.up, Join(ctx.side, t, ctx.node, ctx.color, ctx.sibling)); }
  }

  lemma {:induction false} InOrderNodes<N>(t: Tree<N>, x: N)
    ensures x in InOrder(t) <==> x in Nodes(t)
  {
    match t
    case Empty =>
    case Fork(l, n, c, r) => InOrderNodes(l, x); InOrderNodes(r, x);
  }

  lemma {:induction false} DistinctInOrder<N>(t: Tree<N>)
    requires Distinct(t)
    ensures NoDuplicates(InOrder(t))
  {
    match t
    case Empty =>
    case Fork(l, n, c, r) =>
      DistinctInOrder(l);
      DistinctInOrder(r);
      var a, b := InOrder(l), InOrder(r);
      var s := InOrder(t);
      forall i, j | 0 <= i < j < |s| ensures s[i] != s[j] {
        if i < |a| { assert s[i] == a[i]; InOrderNodes(l, s[i]); InOrderNodes(r, s[i]); }
        if |a| < j { assert s[j] == b[j - |a| - 1]; InOrderNodes(r, s[j]); }
        if |a| < i { assert s[i] == b[i - |a| - 1]; }
        if j < |a| { assert s[j] == a[j]; }
      }
  }

  // ---------------------------------------------------------------------------------
  // Red-black balance

  function TopColor<N>(t: Tree<N>): Color {
    if t.Fork? then t.color else Black
  }

  function BlackHeight<N>(t: Tree<N>): nat {
    if t.Empty? then 0
    else BlackHeight(t.left) + if t.color.Black? then 1 else 0
  }

  // Equal black heights everywhere and no red node with a red child. The root may be red.
  ghost predicate Balanced<N>(t: Tree<N>) {
    t.Fork? ==>
      && Balanced(t.left) && Balanced(t.right)
      && BlackHeight(t.left) == BlackHeight(t.right)
      && (t.color.Red? ==> TopColor(t.left).Black? && TopColor(t.right).Black?)
  }

  // The red-black property of a whole tree.
  ghost predicate RedBlack<N>(t: Tree<N>) {
    Balanced(t) && TopColor(t).Black?
  }

  function CtxColor<N>(ctx: Context<N>): Color {
    if ctx.Hole? then Black else ctx.color
  }

  // Plugging in a balanced tree of black height h (with a black top if the hole hangs
  // under a red node) gives a red-black tree.
  ghost predicate Accepts<N>(ctx: Context<N>, h: nat) {
    ctx.Hole? ||
    (&& Balanced(ctx.sibling) && BlackHeight(ctx.sibling) == h
     && (ctx.color.Red? ==> TopColor(ctx.sibling).Black? && ctx.up != Hole && CtxColor(ctx.up).Black?)
     && Accepts(ctx.up, h + if ctx.color.Black? then 1 else 0))
  }

  lemma {:induction false} PlugRedBlack<N>(ctx: Context<N>, t: Tree<N>)
    requires ctx.Hole? ==> TopColor(t).Black?
    ensures RedBlack(Plug(ctx, t)) <==>
            Balanced(t) && Accepts(ctx, BlackHeight(t)) && (CtxColor(ctx).Red? ==> TopColor(t).Black?)
  {
    if !ctx.Hole? {
      var t' := Join(ctx.side, t, ctx.node, ctx.color, ctx.sibling);
      if ctx.up.Hole? {
        assert Plug(ctx.up, t') == t';
        assert Accepts(ctx.up, BlackHeight(t'));
      } else {
        PlugRedBlack(ctx.up, t');
      }
    }
  }

  function Pow2(n: nat): nat {
    if n == 0 then 1 else 2 * Pow2(n - 1)
  }

  lemma {:induction false} Pow2Add(a: nat, b: nat)
    ensures Pow2(a + b) == Pow2(a) * Pow2(b)
  {
    if b == 0 {
    } else {
      Pow2Add(a, b - 1);
      calc {
        Pow2(a + b);
        2 * Pow2(a + b - 1);
        { assert a + b - 1 == a + (b - 1); }
        2 * (Pow2(a) * Pow2(b - 1));
        Pow2(a) * (2 * Pow2(b - 1));
      }
    }
  }

  lemma {:induction false} Pow2Monotone(a: nat, b: nat)
    requires a <= b
    ensures Pow2(a) <= Pow2(b)
  {
    if a < b { Pow2Monotone(a, b - 1); }
  }

  function Height<N>(t: Tree<N>): nat {
    if t.Empty? then 0
    else 1 + if Height(t.left) >= Height(t.right) then Height(t.left) else Height(t.right)
  }

  lemma {:induction false} BalancedBounds<N>(t: Tree<N>)
    requires Balanced(t)
    ensures Pow2(BlackHeight(t)) <= |InOrder(t)| + 1
    ensures Height(t) <= 2 * BlackHeight(t) + if TopColor(t).Red? then 1 else 0
  {
    if t.Fork? {
      BalancedBounds(t.left);
      BalancedBounds(t.right);
    }
  }

  // height <= 2 * log2(n + 1), written without the logarithm
  lemma HeightBound<N>(t: Tree<N>)
    requires RedBlack(t)
    ensures Pow2(Height(t)) <= (|InOrder(t)| + 1) * (|InOrder(t)| + 1)
  {
    BalancedBounds(t);
    var b := BlackHeight(t);
    Pow2Monotone(Height(t), b + b);
    Pow2Add(b, b);
    MulLe(Pow2(b), |InOrder(t)| + 1);
  }

  lemma MulLe(a: nat, b: nat)
    requires a <= b
    ensures a * a <= b * b
  {
    assert a * a <= a * b <= b * b;
  }

  // ---------------------------------------------------------------------------------
  // The leftmost node of a subtree, and the tree without it

  function LeftmostCtx<N>(ctx: Context<N>, t: Tree<N>): Context<N>
    requires t.Fork?
    decreases t
  {
    if t.left.Empty? then ctx else LeftmostCtx(In(ctx, OnLeft, t.node, t.color, t.right), t.left)
  }

  function Leftmost<N>(t: Tree<N>): Tree<N>
    requires t.Fork?
    ensures Leftmost(t).Fork? && Leftmost(t).left.Empty?
  {
    if t.left.Empty? then t else Leftmost(t.left)
  }

  function DropLeftmost<N>(t: Tree<N>): Tree<N>
    requires t.Fork?
  {
    if t.left.Empty? then t.right else Fork(DropLeftmost(t.left), t.node, t.color, t.right)
  }

  lemma {:induction false} LeftmostPlug<N>(ctx: Context<N>, t: Tree<N>)
    requires t.Fork?
    ensures Plug(LeftmostCtx(ctx, t), Leftmost(t)) == Plug(ctx, t)
    ensures Plug(LeftmostCtx(ctx, t), Leftmost(t).right) == Plug(ctx, DropLeftmost(t))
    decreases t
  {
    if t.left.Fork? { LeftmostPlug(In(ctx, OnLeft, t.node, t.color, t.right), t.left); }
  }

  lemma {:induction false} LeftmostInOrder<N>(t: Tree<N>)
    requires t.Fork?
    ensures InOrder(t) == [Leftmost(t).node] + InOrder(DropLeftmost(t))
    ensures Nodes(t) == {Leftmost(t).node} + Nodes(DropLeftmost(t))
    ensures Distinct(t) ==> Leftmost(t).node !in Nodes(DropLeftmost(t))
  {
    if t.left.Fork? { LeftmostInOrder(t.left); }
  }

  // ---------------------------------------------------------------------------------
  // Replacing one node by another, keeping shape and colours

  function Swap<N(==)>(n: N, old_: N, new_: N): N {
    if n == old_ then new_ else n
  }

  function SwapIn<N(==)>(t: Tree<N>, old_: N, new_: N): Tree<N> {
    match t
    case Empty => Empty
    case Fork(l, n, c, r) => Fork(SwapIn(l, old_, new_), Swap(n, old_, new_), c, SwapIn(r, old_, new_))
  }

  function CtxSwapIn<N(==)>(ctx: Context<N>, old_: N, new_: N): Context<N> {
    match ctx
    case Hole => Hole
    case In(up, side, n, c, sib) =>
      In(CtxSwapIn(up, old_, new_), side, Swap(n, old_, new_), c, SwapIn(sib, old_, new_))
  }

  lemma {:induction false} SwapInAbsent<N>(t: Tree<N>, old_: N, new_: N)
    requires old_ !in Nodes(t)
    ensures SwapIn(t, old_, new_) == t
  {
    if t.Fork? { SwapInAbsent(t.left, old_, new_); SwapInAbsent(t.right, old_, new_); }
  }

  lemma {:induction false} CtxSwapInAbsent<N>(ctx: Context<N>, old_: N, new_: N)
    requires old_ !in CtxNodes(ctx)
    ensures CtxSwapIn(ctx, old_, new_) == ctx
  {
    if !ctx.Hole? { CtxSwapInAbsent(ctx.up, old_, new_); SwapInAbsent(ctx.sibling, old_, new_); }
  }

  lemma {:induction false} SwapInPlug<N>(ctx: Context<N>, t: Tree<N>, old_: N, new_: N)
    ensures SwapIn(Plug(ctx, t), old_, new_) == Plug(CtxSwapIn(ctx, old_, new_), SwapIn(t, old_, new_))
  {
    if !ctx.Hole? { SwapInPlug(ctx.up, Join(ctx.side, t, ctx.node, ctx.color, ctx.sibling), old_, new_); }
  }

  lemma {:induction false} SwapInShape<N>(t: Tree<N>, old_: N, new_: N)
    ensures TopColor(SwapIn(t, old_, new_)) == TopColor(t)
    ensures BlackHeight(SwapIn(t, old_, new_)) == BlackHeight(t)
    ensures Balanced(SwapIn(t, old_, new_)) <==> Balanced(t)
  {
    if t.Fork? { SwapInShape(t.left, old_, new_); SwapInShape(t.right, old_, new_); }
  }

  lemma {:induction false} CtxSwapInShape<N>(ctx: Context<N>, old_: N, new_: N, h: nat)
    ensures Accepts(CtxSwapIn(ctx, old_, new_), h) <==> Accepts(ctx, h)
    ensures CtxColor(CtxSwapIn(ctx, old_, new_)) == CtxColor(ctx)
    ensures Depth(CtxSwapIn(ctx, old_, new_)) == Depth(ctx)
  {
    if !ctx.Hole? {
      SwapInShape(ctx.sibling, old_, new_);
      CtxSwapInShape(ctx.up, old_, new_, h + if ctx.color.Black? then 1 else 0);
    }
  }
}
