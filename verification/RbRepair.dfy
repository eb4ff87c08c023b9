/** What each repair case does to the shape, and why that restores the red-black rules. */
module RbRepair {
  import opened RbModel

  /** Entries and nodes are the same in both positions. */
  ghost predicate Same(ctx: Ctx, t: Tree, ctx': Ctx, t': Tree) {
    Content(ctx', t') == Content(ctx, t) && All(ctx', t') == All(ctx, t)
  }

  lemma FillSame(ctx: Ctx, t: Tree)
    requires !ctx.Top?
    ensures Same(ctx, t, ctx.up, Fill(ctx, t))
  {
    FillContent(ctx, t);
    FillNodes(ctx, t);
  }

  lemma PlugSame(ctx: Ctx, t: Tree)
    ensures Inorder(Plug(ctx, t)) == Content(ctx, t) && Nodes(Plug(ctx, t)) == All(ctx, t)
  {
    PlugContent(ctx, t);
    PlugNodes(ctx, t);
  }

  lemma {:induction false} PlugNodes(ctx: Ctx, t: Tree)
    ensures Nodes(Plug(ctx, t)) == All(ctx, t)
  {
    if !ctx.Top? {
      PlugNodes(ctx.up, Fill(ctx, t));
      FillNodes(ctx, t);
    }
  }

  /** Changing only what is in the hole, keeping its entries and nodes. */
  lemma HoleSame(ctx: Ctx, t: Tree, u: Tree)
    requires Inorder(u) == Inorder(t) && Nodes(u) == Nodes(t)
    ensures Same(ctx, t, ctx, u)
  {
    SameContent(ctx, t, u);
  }

  lemma PaintedSame(ctx: Ctx, t: Tree, c: Color)
    requires t.Bin?
    ensures Same(ctx, t, ctx, Painted(t, c))
  {
    HoleSame(ctx, t, Painted(t, c));
  }

  lemma PaintedAboveSame(ctx: Ctx, t: Tree, c: Color)
    requires !ctx.Top?
    ensures Same(ctx, t, WithColor(ctx, c), t)
  {
    FillSame(ctx, t);
    FillSame(WithColor(ctx, c), t);
    PaintedSame(ctx.up, Fill(ctx, t), c);
  }

  lemma BesideSame(ctx: Ctx, t: Tree, s: Tree)
    requires !ctx.Top? && Inorder(s) == Inorder(Sib(ctx)) && Nodes(s) == Nodes(Sib(ctx))
    ensures Same(ctx, t, WithSib(ctx, s), t)
  {
    FillSame(ctx, t);
    FillSame(WithSib(ctx, s), t);
    FillNodes(ctx, t);
    FillNodes(WithSib(ctx, s), t);
    HoleSame(ctx.up, Fill(ctx, t), Fill(WithSib(ctx, s), t));
  }

  lemma TurnSame(ctx: Ctx, t: Tree)
    requires t.Bin?
    ensures t.right.Bin? ==> Same(ctx, t, ctx, LeftTurn(t))
    ensures t.left.Bin? ==> Same(ctx, t, ctx, RightTurn(t))
  {
    TurnContent(t);
    TurnNodes(t);
    if t.right.Bin? {
      HoleSame(ctx, t, LeftTurn(t));
    }
    if t.left.Bin? {
      HoleSame(ctx, t, RightTurn(t));
    }
  }

  // ---------------------------------------------------------------- insertion

  /** A red node in the hole; the only rule that may be broken is that its parent is red. */
  predicate Ready(ctx: Ctx, t: Tree) { IsRed(t) && Sound(t) && Fits(ctx, BlackHeight(t)) }

  /** A red node in an empty place of a red-black tree ... */
  lemma InsertableShape(ctx: Ctx, n: Node, i: Item)
    requires RedBlack(Plug(ctx, Leaf))
    ensures var t := Bin(Leaf, n, Red, i, Leaf);
      && Ready(ctx, t) && All(ctx, t) == Nodes(Plug(ctx, Leaf)) + {n} && CtxNodes(ctx) == Nodes(Plug(ctx, Leaf))
  {
    PlugNodes(ctx, Leaf);
    PlugRedBlack(ctx, Leaf);
  }

  /** ... where its key belongs. */
  lemma InsertableOrder(less: (Key, Key) -> bool, ctx: Ctx, t: Tree)
    requires StrictWeakOrder(less) && Sorted(less, Content(ctx, Leaf))
    requires t.Bin? && t.left.Leaf? && t.right.Leaf?
    requires NoneAbove(less, Before(ctx), t.item.key) && AllAbove(less, After(ctx), t.item.key)
    ensures Sorted(less, Content(ctx, t)) && Inserted(less, Content(ctx, Leaf), t.item, Content(ctx, t))
  {
    assert Inorder(t) == [t.item];
    assert Content(ctx, Leaf) == Before(ctx) + After(ctx);
    InsertedSorted(less, Before(ctx), t.item, After(ctx));
    InsertedBetween(less, Before(ctx), t.item, After(ctx));
  }

  /** With a red parent and a red uncle: both painted black, the grandparent red. */
  function Recolored(ctx: Ctx, t: Tree): Tree
    requires !ctx.Top? && !ctx.up.Top? && Sib(ctx.up).Bin?
  {
    var parent := Painted(Fill(ctx, t), Black);
    Painted(Fill(WithSib(ctx.up, Painted(Sib(ctx.up), Black)), parent), Red)
  }

  lemma RecoloredReady(ctx: Ctx, t: Tree)
    requires Ready(ctx, t) && !ctx.Top? && ctx.color.Red? && !ctx.up.Top? && IsRed(Sib(ctx.up))
    ensures Ready(ctx.up.up, Recolored(ctx, t))
    ensures Same(ctx, t, ctx.up.up, Recolored(ctx, t))
  {
    var parent := Painted(Fill(ctx, t), Black);
    var beside := WithSib(ctx.up, Painted(Sib(ctx.up), Black));
    assert Fits(ctx.up, BlackHeight(t)) && Fits(ctx.up.up, BlackHeight(t) + 1);
    assert Sound(parent) && Sound(Sib(ctx.up)) && Sound(Sib(beside));
    FillSame(ctx, t);
    PaintedSame(ctx.up, Fill(ctx, t), Black);
    BesideSame(ctx.up, parent, Painted(Sib(ctx.up), Black));
    FillSame(beside, parent);
    PaintedSame(ctx.up.up, Fill(beside, parent), Red);
  }

  /** Parent and grandparent lie on the same side. */
  predicate Straight(ctx: Ctx) { !ctx.Top? && !ctx.up.Top? && (ctx.InLeft? <==> ctx.up.InLeft?) }

  predicate Bent(ctx: Ctx) { !ctx.Top? && !ctx.up.Top? && (ctx.InLeft? <==> ctx.up.InRight?) }

  /** The parent rotated under `t`, seen from the parent. */
  function Unbent(ctx: Ctx, t: Tree): (r: (Ctx, Tree))
    requires Bent(ctx) && t.Bin?
  {
    if ctx.InRight? then
      var u := LeftTurn(Fill(ctx, t));
      (InLeft(ctx.up, u.node, u.color, u.item, u.right), u.left)
    else
      var u := RightTurn(Fill(ctx, t));
      (InRight(ctx.up, u.left, u.node, u.color, u.item), u.right)
  }

  lemma UnbentReady(ctx: Ctx, t: Tree)
    requires Ready(ctx, t) && Bent(ctx) && ctx.color.Red?
    ensures var (ctx', t') := Unbent(ctx, t);
      Ready(ctx', t') && Straight(ctx') && ctx'.color.Red? && ctx'.up == ctx.up && Same(ctx, t, ctx', t')
  {
    var (ctx', t') := Unbent(ctx, t);
    FillSame(ctx, t);
    TurnSame(ctx.up, Fill(ctx, t));
    FillSame(ctx', t');
  }

  /** Parent black, grandparent red, and the grandparent rotated down. */
  function Settled(ctx: Ctx, t: Tree): Tree
    requires Straight(ctx)
  {
    var parent := Painted(Fill(ctx, t), Black);
    var grand := Painted(Fill(ctx.up, parent), Red);
    if ctx.InLeft? then RightTurn(grand) else LeftTurn(grand)
  }

  /** The turned subtree is red-black and as high as the grandparent was. */
  lemma SettledShape(ctx: Ctx, t: Tree)
    requires Ready(ctx, t) && Straight(ctx) && ctx.color.Red? && !IsRed(Sib(ctx.up))
    ensures var u := Settled(ctx, t); RedBlack(u) && BlackHeight(u) == BlackHeight(t) + 1
    ensures Fits(ctx.up.up, BlackHeight(t) + 1)
  {
    var u, h := Settled(ctx, t), BlackHeight(t);
    assert Sound(Sib(ctx)) && BlackHeight(Sib(ctx)) == h && !IsRed(Sib(ctx));
    assert ctx.up.color.Black? && Fits(ctx.up, h);
    assert Sound(Sib(ctx.up)) && BlackHeight(Sib(ctx.up)) == h;
    if ctx.InLeft? {
      assert u.left == t && u.right == Bin(Sib(ctx), ctx.up.node, Red, ctx.up.item, Sib(ctx.up));
      assert Sound(u.right) && BlackHeight(u.right) == h;
    } else {
      assert u.right == t && u.left == Bin(Sib(ctx.up), ctx.up.node, Red, ctx.up.item, Sib(ctx));
      assert Sound(u.left) && BlackHeight(u.left) == h;
    }
  }

  lemma SettledRedBlack(ctx: Ctx, t: Tree)
    requires Ready(ctx, t) && Straight(ctx) && ctx.color.Red? && !IsRed(Sib(ctx.up))
    ensures RedBlack(Plug(ctx.up.up, Settled(ctx, t)))
    ensures Same(ctx, t, ctx.up.up, Settled(ctx, t))
  {
    var parent := Painted(Fill(ctx, t), Black);
    var grand := Painted(Fill(ctx.up, parent), Red);
    SettledShape(ctx, t);
    PlugRedBlack(ctx.up.up, Settled(ctx, t));
    FillSame(ctx, t);
    PaintedSame(ctx.up, Fill(ctx, t), Black);
    FillSame(ctx.up, parent);
    PaintedSame(ctx.up.up, Fill(ctx.up, parent), Red);
    TurnSame(ctx.up.up, grand);
  }

  // ---------------------------------------------------------------- deletion

  /** The hole wants one black node more than `t` has on its paths. */
  predicate Short(ctx: Ctx, t: Tree) { Sound(t) && !IsRed(t) && Fits(ctx, BlackHeight(t) + 1) }

  /** The children of the sibling, near to the hole and far from it. */
  function Near(ctx: Ctx): Tree
    requires !ctx.Top? && Sib(ctx).Bin?
  {
    if ctx.InLeft? then Sib(ctx).left else Sib(ctx).right
  }

  function Far(ctx: Ctx): Tree
    requires !ctx.Top? && Sib(ctx).Bin?
  {
    if ctx.InLeft? then Sib(ctx).right else Sib(ctx).left
  }

  function WithNear(ctx: Ctx, t: Tree): Ctx
    requires !ctx.Top? && Sib(ctx).Bin?
  {
    WithSib(ctx, if ctx.InLeft? then Sib(ctx).(left := t) else Sib(ctx).(right := t))
  }

  function WithFar(ctx: Ctx, t: Tree): Ctx
    requires !ctx.Top? && Sib(ctx).Bin?
  {
    WithSib(ctx, if ctx.InLeft? then Sib(ctx).(right := t) else Sib(ctx).(left := t))
  }

  lemma NiecesSame(ctx: Ctx, t: Tree, c: Color)
    requires !ctx.Top? && Sib(ctx).Bin?
    ensures Near(ctx).Bin? ==> Same(ctx, t, WithNear(ctx, Painted(Near(ctx), c)), t)
    ensures Far(ctx).Bin? ==> Same(ctx, t, WithFar(ctx, Painted(Far(ctx), c)), t)
  {
    if Near(ctx).Bin? {
      var n := Painted(Near(ctx), c);
      assert Inorder(n) == Inorder(Near(ctx)) && Nodes(n) == Nodes(Near(ctx));
      BesideSame(ctx, t, Sib(WithNear(ctx, n)));
    }
    if Far(ctx).Bin? {
      var f := Painted(Far(ctx), c);
      assert Inorder(f) == Inorder(Far(ctx)) && Nodes(f) == Nodes(Far(ctx));
      BesideSame(ctx, t, Sib(WithFar(ctx, f)));
    }
  }

  /** The parent rotated down on the side of the hole. */
  function TurnToward(ctx: Ctx, t: Tree): Tree
    requires !ctx.Top? && Sib(ctx).Bin?
  {
    if ctx.InLeft? then LeftTurn(Fill(ctx, t)) else RightTurn(Fill(ctx, t))
  }

  /** The context of the same hole after that rotation. */
  function Lowered(ctx: Ctx): Ctx
    requires !ctx.Top? && Sib(ctx).Bin?
  {
    var s := Sib(ctx);
    if ctx.InLeft? then
      InLeft(InLeft(ctx.up, s.node, s.color, s.item, s.right), ctx.node, ctx.color, ctx.item, s.left)
    else
      InRight(InRight(ctx.up, s.left, s.node, s.color, s.item), s.right, ctx.node, ctx.color, ctx.item)
  }

  lemma LoweredFills(ctx: Ctx, t: Tree)
    requires !ctx.Top? && Sib(ctx).Bin?
    ensures Fill(Lowered(ctx).up, Fill(Lowered(ctx), t)) == TurnToward(ctx, t)
    ensures Same(ctx, t, Lowered(ctx), t) && Same(ctx, t, ctx.up, TurnToward(ctx, t))
  {
    FillSame(ctx, t);
    TurnSame(ctx.up, Fill(ctx, t));
    FillSame(Lowered(ctx), t);
    FillSame(Lowered(ctx).up, Fill(Lowered(ctx), t));
  }

  /** A short hole below the root always has a sibling. */
  lemma SiblingExists(ctx: Ctx, t: Tree)
    requires Short(ctx, t) && !ctx.Top?
    ensures Sib(ctx).Bin?
  {
  }

  /** Case 2: parent painted red, sibling black, parent rotated toward the hole. */
  function SiblingRaised(ctx: Ctx): Ctx
    requires !ctx.Top? && Sib(ctx).Bin?
  {
    Lowered(WithSib(WithColor(ctx, Red), Painted(Sib(ctx), Black)))
  }

  lemma SiblingRaisedShort(ctx: Ctx, t: Tree)
    requires Short(ctx, t) && !ctx.Top? && IsRed(Sib(ctx))
    ensures var ctx' := SiblingRaised(ctx);
      && Short(ctx', t) && !ctx'.Top? && !IsRed(Sib(ctx')) && ctx'.color.Red?
      && Same(ctx, t, ctx', t)
  {
    var red := WithColor(ctx, Red);
    PaintedAboveSame(ctx, t, Red);
    BesideSame(red, t, Painted(Sib(ctx), Black));
    LoweredFills(WithSib(red, Painted(Sib(ctx), Black)), t);
  }

  /** The sibling has no red child. */
  predicate Plain(ctx: Ctx) {
    !ctx.Top? && Sib(ctx).Bin? && !IsRed(Sib(ctx)) && !IsRed(Near(ctx)) && !IsRed(Far(ctx))
  }

  /** Case 3: the sibling painted red moves the shortage one level up. */
  function Lifted(ctx: Ctx, t: Tree): Tree
    requires !ctx.Top? && Sib(ctx).Bin?
  {
    Fill(WithSib(ctx, Painted(Sib(ctx), Red)), t)
  }

  lemma LiftedShort(ctx: Ctx, t: Tree)
    requires Short(ctx, t) && Plain(ctx) && ctx.color.Black?
    ensures Short(ctx.up, Lifted(ctx, t)) && Same(ctx, t, ctx.up, Lifted(ctx, t))
  {
    BesideSame(ctx, t, Painted(Sib(ctx), Red));
    FillSame(WithSib(ctx, Painted(Sib(ctx), Red)), t);
  }

  /** Case 4: a red parent trades colors with a plain sibling. */
  lemma TradedRedBlack(ctx: Ctx, t: Tree)
    requires Short(ctx, t) && Plain(ctx) && ctx.color.Red?
    ensures var ctx' := WithSib(WithColor(ctx, Black), Painted(Sib(ctx), Red));
      RedBlack(Plug(ctx', t)) && Same(ctx, t, ctx', t)
  {
    var black := WithColor(ctx, Black);
    PaintedAboveSame(ctx, t, Black);
    BesideSame(black, t, Painted(Sib(ctx), Red));
    PlugRedBlack(WithSib(black, Painted(Sib(ctx), Red)), t);
  }

  /** Case 5: sibling painted red and its near child black ... */
  function NearRaised(ctx: Ctx): Ctx
    requires !ctx.Top? && Sib(ctx).Bin? && Near(ctx).Bin?
  {
    WithNear(WithSib(ctx, Painted(Sib(ctx), Red)), Painted(Near(ctx), Black))
  }

  /** ... and the sibling rotated away from the hole, so that the far child is red. */
  function Outward(ctx: Ctx): Ctx
    requires !ctx.Top? && Sib(ctx).Bin? && Near(ctx).Bin?
  {
    var s := Sib(NearRaised(ctx));
    WithSib(ctx, if ctx.InLeft? then RightTurn(s) else LeftTurn(s))
  }

  lemma OutwardSame(ctx: Ctx, t: Tree)
    requires !ctx.Top? && Sib(ctx).Bin? && Near(ctx).Bin?
    ensures Same(ctx, t, Outward(ctx), t)
  {
    var red, raised := WithSib(ctx, Painted(Sib(ctx), Red)), NearRaised(ctx);
    BesideSame(ctx, t, Painted(Sib(ctx), Red));
    NiecesSame(red, t, Black);
    TurnContent(Sib(raised));
    TurnNodes(Sib(raised));
    BesideSame(raised, t, Sib(Outward(ctx)));
  }

  lemma OutwardShort(ctx: Ctx, t: Tree)
    requires Short(ctx, t) && !ctx.Top? && Sib(ctx).Bin? && !IsRed(Sib(ctx))
    requires IsRed(Near(ctx)) && !IsRed(Far(ctx))
    ensures var ctx' := Outward(ctx);
      Short(ctx', t) && Sib(ctx').Bin? && !IsRed(Sib(ctx')) && IsRed(Far(ctx'))
  {
    assert Sound(Sib(ctx)) && Sound(Near(ctx)) && Sound(Far(ctx));
    assert Sound(Near(ctx).left) && Sound(Near(ctx).right);
    var s := Sib(Outward(ctx));
    assert BlackHeight(Near(ctx)) == BlackHeight(Near(ctx).left) == BlackHeight(Near(ctx).right);
    if ctx.InLeft? {
      assert Sound(s.left) && Sound(s.right);
    } else {
      assert Sound(s.right) && Sound(s.left);
    }
    assert Sound(s) && BlackHeight(s) == BlackHeight(Sib(ctx));
  }

  /** Case 6: the sibling takes the parent's color, parent and far child turn black, and the
      parent is rotated toward the hole. */
  function Filled(ctx: Ctx): Ctx
    requires !ctx.Top? && Sib(ctx).Bin? && Far(ctx).Bin?
  {
    WithFar(WithColor(WithSib(ctx, Painted(Sib(ctx), ctx.color)), Black), Painted(Far(ctx), Black))
  }

  lemma FilledSame(ctx: Ctx, t: Tree)
    requires !ctx.Top? && Sib(ctx).Bin? && Far(ctx).Bin?
    ensures Same(ctx, t, ctx.up, TurnToward(Filled(ctx), t))
  {
    var c1 := WithSib(ctx, Painted(Sib(ctx), ctx.color));
    var c2 := WithColor(c1, Black);
    BesideSame(ctx, t, Painted(Sib(ctx), ctx.color));
    PaintedAboveSame(c1, t, Black);
    NiecesSame(c2, t, Black);
    LoweredFills(Filled(ctx), t);
  }

  lemma FilledRedBlack(ctx: Ctx, t: Tree)
    requires Short(ctx, t) && !ctx.Top? && Sib(ctx).Bin? && !IsRed(Sib(ctx)) && IsRed(Far(ctx))
    ensures RedBlack(Plug(ctx.up, TurnToward(Filled(ctx), t)))
  {
    assert Sound(Sib(ctx)) && Sound(Near(ctx)) && Sound(Far(ctx));
    PlugRedBlack(ctx.up, TurnToward(Filled(ctx), t));
  }

  // ---------------------------------------------------------------- removing a node

  /** The subtree that takes the place of a node with at most one child. */
  function OnlyChild(t: Tree): Tree
    requires t.Bin?
  {
    if t.right.Leaf? then t.left else t.right
  }

  lemma OnlyChildFits(ctx: Ctx, t: Tree)
    requires t.Bin? && (t.left.Leaf? || t.right.Leaf?) && RedBlack(Plug(ctx, t))
    ensures var c := OnlyChild(t);
      if t.color.Red? then RedBlack(Plug(ctx, c))
      else if IsRed(c) then RedBlack(Plug(ctx, Painted(c, Black)))
      else c.Leaf? && Short(ctx, c)
  {
    var c := OnlyChild(t);
    PlugRedBlack(ctx, t);
    PlugRedBlack(ctx, c);
    if IsRed(c) {
      PlugRedBlack(ctx, Painted(c, Black));
    }
  }

  /** The leftmost node of a subtree and its context. */
  function Leftmost(t: Tree): (r: Tree)
    requires t.Bin?
    ensures r.Bin? && r.left.Leaf?
  {
    if t.left.Leaf? then t else Leftmost(t.left)
  }

  function LeftmostCtx(ctx: Ctx, t: Tree): Ctx
    requires t.Bin?
    decreases t
  {
    if t.left.Leaf? then ctx else LeftmostCtx(InLeft(ctx, t.node, t.color, t.item, t.right), t.left)
  }

  /** Going down to the leftmost node passes no entry on the left. */
  lemma {:induction false} LeftmostSame(ctx: Ctx, t: Tree)
    requires t.Bin?
    ensures Plug(LeftmostCtx(ctx, t), Leftmost(t)) == Plug(ctx, t)
    ensures Same(ctx, t, LeftmostCtx(ctx, t), Leftmost(t))
    ensures Before(LeftmostCtx(ctx, t)) == Before(ctx)
    decreases t
  {
    if t.left.Bin? {
      var down := InLeft(ctx, t.node, t.color, t.item, t.right);
      LeftmostSame(down, t.left);
      FillSame(down, t.left);
      assert Fill(down, t.left) == t;
    }
  }

  /** Position of the successor of a node with two children, after the node took over its entry. */
  function Successor(ctx: Ctx, t: Tree): (r: (Ctx, Tree))
    requires t.Bin? && t.right.Bin?
    ensures r.1.Bin? && r.1.left.Leaf?
  {
    var u := Leftmost(t.right);
    (LeftmostCtx(InRight(ctx, t.left, t.node, t.color, u.item), t.right), u)
  }

  lemma SuccessorFits(ctx: Ctx, t: Tree)
    requires t.Bin? && t.right.Bin? && RedBlack(Plug(ctx, t))
    ensures var (c, u) := Successor(ctx, t);
      && RedBlack(Plug(c, u)) && All(c, u) == All(ctx, t)
      && Content(c, OnlyChild(u)) == (Before(ctx) + Inorder(t.left)) + (Inorder(t.right) + After(ctx))
  {
    var u := Leftmost(t.right);
    var side := InRight(ctx, t.left, t.node, t.color, u.item);
    var t' := t.(item := u.item);
    LeftmostSame(side, t.right);
    assert Fill(side, t.right) == t';
    FillNodes(side, t.right);
    PlugRedBlack(ctx, t);
    PlugRedBlack(ctx, t');
    SuccessorContent(ctx, t);
  }

  lemma SuccessorContent(ctx: Ctx, t: Tree)
    requires t.Bin? && t.right.Bin?
    ensures var (c, u) := Successor(ctx, t);
      Content(c, OnlyChild(u)) == (Before(ctx) + Inorder(t.left)) + (Inorder(t.right) + After(ctx))
  {
    var (c, u) := Successor(ctx, t);
    var side := InRight(ctx, t.left, t.node, t.color, u.item);
    LeftmostSame(side, t.right);
    assert Inorder(u) == [u.item] + Inorder(u.right);
    assert Before(side) == (Before(ctx) + Inorder(t.left)) + [u.item];
    DropHead(Before(ctx) + Inorder(t.left), u.item, Inorder(u.right), After(c), Inorder(t.right), After(ctx));
  }

  lemma DropHead(a: seq<Item>, i: Item, rest: seq<Item>, after: seq<Item>, right: seq<Item>, after': seq<Item>)
    requires (a + [i]) + ([i] + rest) + after == (a + [i]) + right + after'
    ensures (a + [i]) + rest + after == a + (right + after')
  {
    assert ((a + [i]) + ([i] + rest) + after)[|a| + 1..] == [i] + rest + after;
    assert ((a + [i]) + right + after')[|a| + 1..] == right + after';
    assert (a + [i]) + rest + after == a + ([i] + rest + after);
  }
}
