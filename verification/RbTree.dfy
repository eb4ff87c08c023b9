/** The red-black tree container: nodes with parent pointers, repaired after every insertion and
    deletion by mutually calling cases. */
module RedBlackTree {
  import opened RbModel
  import opened RbRepair

  /** Parent links included, `tree` is the shape the nodes in memory have. */
  class RbTree {
    var root: Node?
    const less: (Key, Key) -> bool
    ghost var tree: Tree

    ghost predicate Valid()
      reads this, Nodes(tree)
    {
      StrictWeakOrder(less) && At(Top, tree) && RedBlack(tree) && Sorted(less, Inorder(tree))
    }

    /** The entries in order. */
    ghost function Contents(): seq<Item>
      reads this
    {
      Inorder(tree)
    }

    constructor (less: (Key, Key) -> bool)
      requires StrictWeakOrder(less)
      ensures Valid() && Contents() == [] && this.less == less && tree == Leaf
    {
      this.less, root, tree := less, null, Leaf;
    }

    // ---------------------------------------------------------------- representation

    /** The nodes under `p` are linked as `t` says. */
    static ghost predicate Linked(t: Tree, p: Node?)
      reads Nodes(t)
    {
      t.Bin? ==>
        var n := t.node;
        && n.parent == p && n.color == t.color && n.key == t.item.key && n.value == t.item.value
        && n.left == Ref(t.left) && n.right == Ref(t.right)
        && Linked(t.left, n) && Linked(t.right, n)
    }

    /** The nodes around the hole are linked as `ctx` says, with `hole` in the hole. */
    ghost predicate Held(ctx: Ctx, hole: Node?)
      reads this, CtxNodes(ctx)
    {
      if ctx.Top? then root == hole
      else
        var n := ctx.node;
        && n.parent == Above(ctx.up) && n.color == ctx.color
        && n.key == ctx.item.key && n.value == ctx.item.value
        && n.left == (if ctx.InLeft? then hole else Ref(ctx.left))
        && n.right == (if ctx.InLeft? then Ref(ctx.right) else hole)
        && Linked(Sib(ctx), n) && Held(ctx.up, n)
    }

    /** The tree in memory, seen from a hole filled by `t`. */
    ghost predicate At(ctx: Ctx, t: Tree)
      reads this, CtxNodes(ctx), Nodes(t)
    {
      && Distinct(t) && CtxDistinct(ctx) && CtxNodes(ctx) !! Nodes(t)
      && Linked(t, Above(ctx)) && Held(ctx, Ref(t))
    }

    lemma Zip(ctx: Ctx, t: Tree)
      requires !ctx.Top?
      ensures At(ctx, t) <==> At(ctx.up, Fill(ctx, t))
    {
    }

    lemma SwapAt(ctx: Ctx, t: Tree)
      requires !ctx.Top?
      ensures At(ctx, t) <==> At(Swap(ctx, t), Sib(ctx))
    {
      Zip(ctx, t);
      Zip(Swap(ctx, t), Sib(ctx));
    }

    lemma {:induction false} ZipUp(ctx: Ctx, t: Tree)
      requires At(ctx, t)
      ensures At(Top, Plug(ctx, t))
    {
      if !ctx.Top? {
        Zip(ctx, t);
        ZipUp(ctx.up, Fill(ctx, t));
      }
    }

    lemma WhichSide(ctx: Ctx, t: Tree)
      requires At(ctx, t) && !ctx.Top? && (t.Bin? || Sib(ctx).Bin?)
      ensures ctx.InLeft? <==> ctx.node.left == Ref(t)
      ensures ctx.InRight? <==> ctx.node.right == Ref(t)
    {
    }

    static lemma {:induction false} TreeAllocated(t: Tree)
      ensures forall o | o in Nodes(t) :: allocated(o)
    {
      if t.Bin? {
        TreeAllocated(t.left);
        TreeAllocated(t.right);
      }
    }

    static lemma {:induction false} CtxAllocated(ctx: Ctx)
      ensures forall o | o in CtxNodes(ctx) :: allocated(o)
    {
      if !ctx.Top? {
        CtxAllocated(ctx.up);
        TreeAllocated(Sib(ctx));
      }
    }

    // ---------------------------------------------------------------- painting

    method Paint(n: Node, c: Color, ghost ctx: Ctx, ghost t: Tree)
      requires At(ctx, t) && n == Ref(t)
      modifies n`color
      ensures At(ctx, Painted(t, c))
    {
      n.color := c;
    }

    method PaintAbove(n: Node, c: Color, ghost ctx: Ctx, ghost t: Tree)
      requires At(ctx, t) && n == Above(ctx)
      modifies n`color
      ensures At(WithColor(ctx, c), t)
    {
      n.color := c;
    }

    method PaintBeside(n: Node, c: Color, ghost ctx: Ctx, ghost t: Tree)
      requires At(ctx, t) && !ctx.Top? && n == Ref(Sib(ctx))
      modifies n`color
      ensures At(WithSib(ctx, Painted(Sib(ctx), c)), t)
    {
      SwapAt(ctx, t);
      Paint(n, c, Swap(ctx, t), Sib(ctx));
      SwapAt(WithSib(ctx, Painted(Sib(ctx), c)), t);
    }

    method PaintNear(n: Node, c: Color, ghost ctx: Ctx, ghost t: Tree)
      requires At(ctx, t) && !ctx.Top? && Sib(ctx).Bin? && n == Ref(Near(ctx))
      modifies n`color
      ensures At(WithNear(ctx, Painted(Near(ctx), c)), t)
    {
      ghost var s, aside := Sib(ctx), Swap(ctx, t);
      ghost var down := if ctx.InLeft? then InLeft(aside, s.node, s.color, s.item, s.right)
                        else InRight(aside, s.left, s.node, s.color, s.item);
      SwapAt(ctx, t);
      Zip(down, Near(ctx));
      Paint(n, c, down, Near(ctx));
      Zip(down, Painted(Near(ctx), c));
      SwapAt(WithNear(ctx, Painted(Near(ctx), c)), t);
    }

    method PaintFar(n: Node, c: Color, ghost ctx: Ctx, ghost t: Tree)
      requires At(ctx, t) && !ctx.Top? && Sib(ctx).Bin? && n == Ref(Far(ctx))
      modifies n`color
      ensures At(WithFar(ctx, Painted(Far(ctx), c)), t)
    {
      ghost var s, aside := Sib(ctx), Swap(ctx, t);
      ghost var down := if ctx.InLeft? then InRight(aside, s.left, s.node, s.color, s.item)
                        else InLeft(aside, s.node, s.color, s.item, s.right);
      SwapAt(ctx, t);
      Zip(down, Far(ctx));
      Paint(n, c, down, Far(ctx));
      Zip(down, Painted(Far(ctx), c));
      SwapAt(WithFar(ctx, Painted(Far(ctx), c)), t);
    }

    // ---------------------------------------------------------------- rotations

    /** A subtree becomes the left child of `n`. */
    static method SetLeft(n: Node, child: Node?, ghost t: Tree, ghost was: Node?)
      requires Linked(t, was) && Distinct(t) && child == Ref(t) && n !in Nodes(t)
      modifies n`left, Nodes(t)`parent
      ensures n.left == child && Linked(t, n)
    {
      n.left := child;
      if child != null {
        child.parent := n;
      }
    }

    /** A subtree becomes the right child of `n`. */
    static method SetRight(n: Node, child: Node?, ghost t: Tree, ghost was: Node?)
      requires Linked(t, was) && Distinct(t) && child == Ref(t) && n !in Nodes(t)
      modifies n`right, Nodes(t)`parent
      ensures n.right == child && Linked(t, n)
    {
      n.right := child;
      if child != null {
        child.parent := n;
      }
    }

    /** The hole of `ctx` is filled by `child`. */
    method Attach(parent: Node?, left: bool, child: Node?, ghost ctx: Ctx, ghost was: Node?)
      requires CtxDistinct(ctx) && Held(ctx, was) && parent == Above(ctx)
      requires !ctx.Top? ==> (left <==> ctx.InLeft?)
      modifies this`root, CtxNodes(ctx)
      ensures Held(ctx, child)
    {
      if parent == null {
        root := child;
      } else if left {
        parent.left := child;
      } else {
        parent.right := child;
      }
    }

    /** Below `parent`, the right child `p` of `n` takes its place. */
    static method TurnLeft(n: Node, p: Node, ghost t: Tree)
      requires Linked(t, n.parent) && Distinct(t) && t.Bin? && n == t.node && p == Ref(t.right)
      modifies Nodes(t)
      ensures Linked(LeftTurn(t), old(n.parent))
    {
      ghost var a, b, c, u := t.left, t.right.left, t.right.right, LeftTurn(t);
      assert Linked(t.right, n);
      TurnNodes(t);
      TreeAllocated(t);
      var parent := n.parent;
      SetRight(n, p.left, b, p);
      assert old(Linked(a, n)) == Linked(a, n);
      SetLeft(p, n, u.left, parent);
      assert old(Linked(c, p)) == Linked(c, p);
      p.parent := parent;
    }

    static method TurnRight(n: Node, p: Node, ghost t: Tree)
      requires Linked(t, n.parent) && Distinct(t) && t.Bin? && n == t.node && p == Ref(t.left)
      modifies Nodes(t)
      ensures Linked(RightTurn(t), old(n.parent))
    {
      ghost var a, b, c, u := t.left.left, t.left.right, t.right, RightTurn(t);
      assert Linked(t.left, n);
      TurnNodes(t);
      TreeAllocated(t);
      var parent := n.parent;
      SetLeft(n, p.right, b, p);
      assert old(Linked(c, n)) == Linked(c, n);
      SetRight(p, n, u.right, parent);
      assert old(Linked(a, p)) == Linked(a, p);
      p.parent := parent;
    }

    method RotateLeft(n: Node, ghost ctx: Ctx, ghost t: Tree)
      requires At(ctx, t) && n == Ref(t) && t.right.Bin?
      modifies this`root, All(ctx, t)
      ensures At(ctx, LeftTurn(t))
    {
      ghost var u := LeftTurn(t);
      TurnNodes(t);
      CtxAllocated(ctx);
      var p := n.right;
      var parent := n.parent;
      var left := parent != null && parent.left == n;
      TurnLeft(n, p, t);
      assert old(Held(ctx, n)) == Held(ctx, n);
      TreeAllocated(u);
      label Turned:
      Attach(parent, left, p, ctx, n);
      assert old@Turned(Linked(u, parent)) == Linked(u, parent);
    }

    method RotateRight(n: Node, ghost ctx: Ctx, ghost t: Tree)
      requires At(ctx, t) && n == Ref(t) && t.left.Bin?
      modifies this`root, All(ctx, t)
      ensures At(ctx, RightTurn(t))
    {
      ghost var u := RightTurn(t);
      TurnNodes(t);
      CtxAllocated(ctx);
      var p := n.left;
      var parent := n.parent;
      var left := parent != null && parent.left == n;
      TurnRight(n, p, t);
      assert old(Held(ctx, n)) == Held(ctx, n);
      TreeAllocated(u);
      label Turned:
      Attach(parent, left, p, ctx, n);
      assert old@Turned(Linked(u, parent)) == Linked(u, parent);
    }

    // ---------------------------------------------------------------- relatives

    static function Grandparent(n: Node?): Node?
      reads n, if n == null then null else n.parent
    {
      if n == null || n.parent == null then null else n.parent.parent
    }

    static function Uncle(n: Node): Node?
      reads n, n.parent, if n.parent == null then null else n.parent.parent
    {
      var g := Grandparent(n);
      if g == null then null else if n.parent == g.left then g.right else g.left
    }

    static function Sibling(parent: Node?, n: Node?): Node?
      reads parent
    {
      if parent == null then null else if n == parent.left then parent.right else parent.left
    }

    lemma Relatives(ctx: Ctx, t: Tree)
      requires At(ctx, t) && t.Bin? && !ctx.Top? && !ctx.up.Top?
      ensures var n := t.node;
        && n.parent == ctx.node && Grandparent(n) == ctx.up.node && Uncle(n) == Ref(Sib(ctx.up))
      ensures Sib(ctx.up).Bin? ==> Sib(ctx.up).node.color == Sib(ctx.up).color
    {
      Zip(ctx, t);
      WhichSide(ctx.up, Fill(ctx, t));
    }

    // ---------------------------------------------------------------- insertion

    /** What every repair of an insertion achieves. */
    ghost predicate Repaired(out: Tree, entries: seq<Item>, nodes: set<Node>)
      reads this, Nodes(out)
    {
      At(Top, out) && RedBlack(out) && Inorder(out) == entries && Nodes(out) == nodes
    }

    method InsertCase1(n: Node, ghost ctx: Ctx, ghost t: Tree) returns (ghost out: Tree)
      requires At(ctx, t) && n == Ref(t) && Ready(ctx, t)
      modifies this`root, All(ctx, t)
      ensures Repaired(out, Content(ctx, t), All(ctx, t))
      decreases Depth(ctx), 5
    {
      if n.parent == null {
        Paint(n, Black, ctx, t);
        out := Painted(t, Black);
        PaintedSame(ctx, t, Black);
      } else {
        out := InsertCase2(n, ctx, t);
      }
    }

    method InsertCase2(n: Node, ghost ctx: Ctx, ghost t: Tree) returns (ghost out: Tree)
      requires At(ctx, t) && n == Ref(t) && Ready(ctx, t) && !ctx.Top?
      modifies this`root, All(ctx, t)
      ensures Repaired(out, Content(ctx, t), All(ctx, t))
      decreases Depth(ctx), 4
    {
      if n.parent.color == Red {
        out := InsertCase3(n, ctx, t);
      } else {
        out := Plug(ctx, t);
        ZipUp(ctx, t);
        PlugSame(ctx, t);
        PlugRedBlack(ctx, t);
      }
    }

    method Recolor(p: Node, u: Node, g: Node, ghost ctx: Ctx, ghost t: Tree)
      requires At(ctx, t) && !ctx.Top? && !ctx.up.Top?
      requires p == Above(ctx) && g == Above(ctx.up) && u == Ref(Sib(ctx.up))
      modifies p`color, u`color, g`color
      ensures At(ctx.up.up, Recolored(ctx, t))
    {
      ghost var tp, beside := Painted(Fill(ctx, t), Black), WithSib(ctx.up, Painted(Sib(ctx.up), Black));
      PaintAbove(p, Black, ctx, t);
      Zip(WithColor(ctx, Black), t);
      PaintBeside(u, Black, ctx.up, tp);
      Zip(beside, tp);
      Paint(g, Red, ctx.up.up, Fill(beside, tp));
    }

    method InsertCase3(n: Node, ghost ctx: Ctx, ghost t: Tree) returns (ghost out: Tree)
      requires At(ctx, t) && n == Ref(t) && Ready(ctx, t) && !ctx.Top? && ctx.color.Red?
      modifies this`root, All(ctx, t)
      ensures Repaired(out, Content(ctx, t), All(ctx, t))
      decreases Depth(ctx), 3
    {
      Relatives(ctx, t);
      var u := Uncle(n);
      if u != null && u.color == Red {
        var p, g := n.parent, Grandparent(n);
        RecoloredReady(ctx, t);
        FillNodes(ctx, t);
        FillNodes(ctx.up, Fill(ctx, t));
        Recolor(p, u, g, ctx, t);
        assert Depth(ctx) == Depth(ctx.up) + 1 == Depth(ctx.up.up) + 2;
        out := InsertCase1(g, ctx.up.up, Recolored(ctx, t));
      } else {
        out := InsertCase4(n, ctx, t);
      }
    }

    method InsertCase4(n: Node, ghost ctx: Ctx, ghost t: Tree) returns (ghost out: Tree)
      requires At(ctx, t) && n == Ref(t) && Ready(ctx, t) && !ctx.Top? && ctx.color.Red?
      requires !IsRed(Sib(ctx.up))
      modifies this`root, All(ctx, t)
      ensures Repaired(out, Content(ctx, t), All(ctx, t))
      decreases Depth(ctx), 2
    {
      Zip(ctx, t);
      WhichSide(ctx, t);
      WhichSide(ctx.up, Fill(ctx, t));
      var p := n.parent;
      var g := Grandparent(n);
      if n == p.right && p == g.left {
        UnbentReady(ctx, t);
        RotateLeft(p, ctx.up, Fill(ctx, t));
        Zip(Unbent(ctx, t).0, Unbent(ctx, t).1);
        out := InsertCase5(p, Unbent(ctx, t).0, Unbent(ctx, t).1);
      } else if n == p.left && p == g.right {
        UnbentReady(ctx, t);
        RotateRight(p, ctx.up, Fill(ctx, t));
        Zip(Unbent(ctx, t).0, Unbent(ctx, t).1);
        out := InsertCase5(p, Unbent(ctx, t).0, Unbent(ctx, t).1);
      } else {
        out := InsertCase5(n, ctx, t);
      }
    }

    method InsertCase5(n: Node, ghost ctx: Ctx, ghost t: Tree) returns (ghost out: Tree)
      requires At(ctx, t) && n == Ref(t) && Ready(ctx, t) && !ctx.Top? && ctx.color.Red?
      requires !IsRed(Sib(ctx.up)) && Straight(ctx)
      modifies this`root, All(ctx, t)
      ensures Repaired(out, Content(ctx, t), All(ctx, t))
      decreases Depth(ctx), 1
    {
      Zip(ctx, t);
      WhichSide(ctx, t);
      SettledRedBlack(ctx, t);
      PlugSame(ctx.up.up, Settled(ctx, t));
      out := Plug(ctx.up.up, Settled(ctx, t));
      var g := Grandparent(n);
      var p := n.parent;
      PaintAbove(p, Black, ctx, t);
      ghost var tp := Painted(Fill(ctx, t), Black);
      Zip(WithColor(ctx, Black), t);
      PaintAbove(g, Red, ctx.up, tp);
      ghost var tg := Painted(Fill(ctx.up, tp), Red);
      Zip(WithColor(ctx.up, Red), tp);
      FillNodes(ctx, t);
      FillNodes(ctx.up, tp);
      if n == n.parent.left {
        RotateRight(g, ctx.up.up, tg);
      } else {
        RotateLeft(g, ctx.up.up, tg);
      }
      ZipUp(ctx.up.up, Settled(ctx, t));
    }

    // ---------------------------------------------------------------- deletion

    static function ColorOf(n: Node?): Color
      reads n
    {
      if n == null then Black else n.color
    }

    /** A short hole below the root: its sibling exists, and pointers tell the two sides apart even
        when the hole is empty. */
    lemma SiblingIs(ctx: Ctx, t: Tree)
      requires At(ctx, t) && Short(ctx, t) && !ctx.Top?
      ensures Sib(ctx).Bin? && Sibling(ctx.node, Ref(t)) == Sib(ctx).node
      ensures (ctx.node.left == Ref(t) <==> ctx.InLeft?) && (ctx.node.right == Ref(t) <==> ctx.InRight?)
      ensures ctx.node.color == ctx.color && ctx.node.parent == Above(ctx.up)
      ensures var s, n := Sib(ctx), Sib(ctx).node;
        && n.color == s.color && n.left == Ref(s.left) && n.right == Ref(s.right)
        && (ColorOf(n.left) == Red <==> IsRed(s.left)) && (ColorOf(n.right) == Red <==> IsRed(s.right))
    {
      SiblingExists(ctx, t);
      WhichSide(ctx, t);
      ghost var s := Sib(ctx);
      assert Linked(s, ctx.node) && Linked(s.left, s.node) && Linked(s.right, s.node);
    }

    method DeleteCase6(parent: Node, n: Node?, ghost ctx: Ctx, ghost t: Tree) returns (ghost out: Tree)
      requires At(ctx, t) && n == Ref(t) && parent == Above(ctx) && Short(ctx, t)
      requires Sib(ctx).Bin? && !IsRed(Sib(ctx)) && IsRed(Far(ctx))
      modifies this`root, All(ctx, t)
      ensures Repaired(out, Content(ctx, t), All(ctx, t))
    {
      SiblingIs(ctx, t);
      FillNodes(ctx, t);
      FilledSame(ctx, t);
      FilledRedBlack(ctx, t);
      ghost var c1 := WithSib(ctx, Painted(Sib(ctx), ctx.color));
      ghost var c3, turned := Filled(ctx), TurnToward(Filled(ctx), t);
      FillNodes(c3, t);
      PlugSame(ctx.up, turned);
      out := Plug(ctx.up, turned);
      var s := Sibling(parent, n);
      PaintBeside(s, parent.color, ctx, t);
      PaintAbove(parent, Black, c1, t);
      if n == parent.left {
        PaintFar(s.right, Black, WithColor(c1, Black), t);
        Zip(c3, t);
        RotateLeft(parent, ctx.up, Fill(c3, t));
      } else {
        PaintFar(s.left, Black, WithColor(c1, Black), t);
        Zip(c3, t);
        RotateRight(parent, ctx.up, Fill(c3, t));
      }
      ZipUp(ctx.up, turned);
    }

    method DeleteCase5(parent: Node, n: Node?, ghost ctx: Ctx, ghost t: Tree) returns (ghost out: Tree)
      requires At(ctx, t) && n == Ref(t) && parent == Above(ctx) && Short(ctx, t)
      requires Sib(ctx).Bin? && !IsRed(Sib(ctx)) && (IsRed(Near(ctx)) || IsRed(Far(ctx)))
      modifies this`root, All(ctx, t)
      ensures Repaired(out, Content(ctx, t), All(ctx, t))
    {
      SiblingIs(ctx, t);
      ghost var c := ctx;
      var s := Sibling(parent, n);
      if s.color == Black {
        var sLeft := s.left;
        var sRight := s.right;
        if n == parent.left && ColorOf(sRight) == Black && ColorOf(sLeft) == Red {
          NearOut(s, sLeft, true, ctx, t);
          c := Outward(ctx);
        } else if n == parent.right && ColorOf(sLeft) == Black && ColorOf(sRight) == Red {
          NearOut(s, sRight, false, ctx, t);
          c := Outward(ctx);
        }
      }
      out := DeleteCase6(parent, n, c, t);
    }

    /** The part of case 5 that moves the red to the far side. */
    method NearOut(s: Node, near: Node, left: bool, ghost ctx: Ctx, ghost t: Tree)
      requires At(ctx, t) && !ctx.Top? && Sib(ctx).Bin? && s == Ref(Sib(ctx)) && near == Ref(Near(ctx))
      requires Short(ctx, t) && !IsRed(Sib(ctx)) && IsRed(Near(ctx)) && !IsRed(Far(ctx)) && (left <==> ctx.InLeft?)
      modifies this`root, All(ctx, t)
      ensures var c := Outward(ctx);
        && At(c, t) && Short(c, t) && Sib(c).Bin? && !IsRed(Sib(c)) && IsRed(Far(c))
        && Same(ctx, t, c, t) && c.node == ctx.node
    {
      ghost var red, raised := WithSib(ctx, Painted(Sib(ctx), Red)), NearRaised(ctx);
      OutwardSame(ctx, t);
      OutwardShort(ctx, t);
      PaintBeside(s, Red, ctx, t);
      PaintNear(near, Black, red, t);
      SwapAt(raised, t);
      if left {
        RotateRight(s, Swap(raised, t), Sib(raised));
      } else {
        RotateLeft(s, Swap(raised, t), Sib(raised));
      }
      SwapAt(Outward(ctx), t);
    }

    method DeleteCase4(parent: Node, n: Node?, ghost ctx: Ctx, ghost t: Tree) returns (ghost out: Tree)
      requires At(ctx, t) && n == Ref(t) && parent == Above(ctx) && Short(ctx, t)
      requires Sib(ctx).Bin? && !IsRed(Sib(ctx)) && (ctx.color.Red? || !Plain(ctx))
      modifies this`root, All(ctx, t)
      ensures Repaired(out, Content(ctx, t), All(ctx, t))
    {
      SiblingIs(ctx, t);
      var s := Sibling(parent, n);
      if parent.color == Red && s.color == Black && ColorOf(s.left) == Black && ColorOf(s.right) == Black {
        ghost var c1 := WithSib(ctx, Painted(Sib(ctx), Red));
        ghost var c2 := WithColor(c1, Black);
        TradedRedBlack(ctx, t);
        FillNodes(ctx, t);
        PaintBeside(s, Red, ctx, t);
        PaintAbove(parent, Black, c1, t);
        out := Plug(c2, t);
        PlugSame(c2, t);
        ZipUp(c2, t);
      } else {
        out := DeleteCase5(parent, n, ctx, t);
      }
    }

    method DeleteCase3(parent: Node, n: Node?, ghost ctx: Ctx, ghost t: Tree) returns (ghost out: Tree)
      requires At(ctx, t) && n == Ref(t) && parent == Above(ctx) && Short(ctx, t) && !IsRed(Sib(ctx))
      modifies this`root, All(ctx, t)
      ensures Repaired(out, Content(ctx, t), All(ctx, t))
      decreases if ctx.color.Red? then 0 else Depth(ctx), 3
    {
      SiblingIs(ctx, t);
      var s := Sibling(parent, n);
      if parent.color == Black && ColorOf(s) == Black && (s == null || ColorOf(s.left) == Black)
         && (s == null || ColorOf(s.right) == Black)
      {
        LiftedShort(ctx, t);
        FillNodes(ctx, t);
        PaintBeside(s, Red, ctx, t);
        Zip(WithSib(ctx, Painted(Sib(ctx), Red)), t);
        out := DeleteCase1(parent.parent, parent, ctx.up, Lifted(ctx, t));
      } else {
        out := DeleteCase4(parent, n, ctx, t);
      }
    }

    method DeleteCase2(parent: Node, n: Node?, ghost ctx: Ctx, ghost t: Tree) returns (ghost out: Tree)
      requires At(ctx, t) && n == Ref(t) && parent == Above(ctx) && Short(ctx, t)
      modifies this`root, All(ctx, t)
      ensures Repaired(out, Content(ctx, t), All(ctx, t))
      decreases Depth(ctx), 4
    {
      SiblingIs(ctx, t);
      var s := Sibling(parent, n);
      if ColorOf(s) == Red {
        RaiseSibling(parent, s, n, ctx, t);
        out := DeleteCase3(parent, n, SiblingRaised(ctx), t);
      } else {
        out := DeleteCase3(parent, n, ctx, t);
      }
    }

    /** The part of case 2 that makes a red sibling the new grandparent. */
    method RaiseSibling(parent: Node, s: Node, n: Node?, ghost ctx: Ctx, ghost t: Tree)
      requires At(ctx, t) && n == Ref(t) && parent == Above(ctx) && Short(ctx, t)
      requires s == Ref(Sib(ctx)) && IsRed(Sib(ctx))
      modifies this`root, All(ctx, t)
      ensures var c := SiblingRaised(ctx);
        && At(c, t) && Short(c, t) && !c.Top? && c.node == parent && !IsRed(Sib(c)) && c.color.Red?
        && Same(ctx, t, c, t)
    {
      SiblingIs(ctx, t);
      SiblingRaisedShort(ctx, t);
      FillNodes(ctx, t);
      ghost var c1 := WithColor(ctx, Red);
      ghost var c2 := WithSib(c1, Painted(Sib(ctx), Black));
      FillNodes(c2, t);
      LoweredFills(c2, t);
      PaintAbove(parent, Red, ctx, t);
      PaintBeside(s, Black, c1, t);
      Zip(c2, t);
      if n == parent.left {
        RotateLeft(parent, ctx.up, Fill(c2, t));
      } else {
        RotateRight(parent, ctx.up, Fill(c2, t));
      }
      ghost var c := SiblingRaised(ctx);
      Zip(c.up, Fill(c, t));
      Zip(c, t);
    }

    method DeleteCase1(parent: Node?, n: Node?, ghost ctx: Ctx, ghost t: Tree) returns (ghost out: Tree)
      requires At(ctx, t) && n == Ref(t) && parent == Above(ctx) && Short(ctx, t)
      modifies this`root, All(ctx, t)
      ensures Repaired(out, Content(ctx, t), All(ctx, t))
      decreases Depth(ctx), 5
    {
      if parent != null {
        out := DeleteCase2(parent, n, ctx, t);
      } else {
        out := t;
        PlugSame(ctx, t);
      }
    }

    method ReplaceNode(n: Node, child: Node?, ghost ctx: Ctx, ghost t: Tree)
      requires At(ctx, t) && n == Ref(t) && (t.left.Leaf? || t.right.Leaf?) && child == Ref(OnlyChild(t))
      modifies this`root, CtxNodes(ctx), Nodes(OnlyChild(t))
      ensures At(ctx, OnlyChild(t))
      ensures n.parent == Above(ctx) && n.color == t.color
    {
      ghost var c := OnlyChild(t);
      TreeAllocated(t);
      CtxAllocated(ctx);
      if !ctx.Top? {
        WhichSide(ctx, t);
      }
      var parent := n.parent;
      Attach(parent, parent != null && parent.left == n, child, ctx, n);
      assert old(Linked(c, n)) == Linked(c, n);
      label Attached:
      if child != null {
        child.parent := parent;
      }
      assert old@Attached(Held(ctx, child)) == Held(ctx, child);
    }

    /** Unlinks a node with at most one child. */
    method DeleteOneChild(n: Node, ghost ctx: Ctx, ghost t: Tree) returns (ghost out: Tree)
      requires At(ctx, t) && n == Ref(t) && (t.left.Leaf? || t.right.Leaf?) && RedBlack(Plug(ctx, t))
      modifies this`root, All(ctx, t)
      ensures Repaired(out, Content(ctx, OnlyChild(t)), All(ctx, t) - {n})
    {
      ghost var c := OnlyChild(t);
      OnlyChildFits(ctx, t);
      assert All(ctx, c) == All(ctx, t) - {n};
      var right := n.right;
      var child := if right == null then n.left else right;
      ReplaceNode(n, child, ctx, t);
      if n.color == Black {
        if ColorOf(child) == Red {
          Paint(child, Black, ctx, c);
          PaintedSame(ctx, c, Black);
          out := Plug(ctx, Painted(c, Black));
          PlugSame(ctx, Painted(c, Black));
          ZipUp(ctx, Painted(c, Black));
        } else {
          out := DeleteCase1(n.parent, child, ctx, c);
        }
      } else {
        out := Plug(ctx, c);
        PlugSame(ctx, c);
        ZipUp(ctx, c);
      }
    }

    static method MinNode(current: Node, ghost t: Tree, ghost p: Node?) returns (r: Node)
      requires Linked(t, p) && current == Ref(t)
      ensures r == Leftmost(t).node && r.key == Leftmost(t).item.key && r.value == Leftmost(t).item.value
    {
      r := current;
      var next := r.left;
      ghost var u, q := t, p;
      while next != null
        invariant Linked(u, q) && r == Ref(u) && next == r.left && Leftmost(u) == Leftmost(t)
        decreases u
      {
        u, q := u.left, u.node;
        r := next;
        next := r.left;
      }
    }

    lemma {:induction false} DescendAt(ctx: Ctx, t: Tree)
      requires At(ctx, t) && t.Bin?
      ensures At(LeftmostCtx(ctx, t), Leftmost(t))
      decreases t
    {
      if t.left.Bin? {
        ghost var down := InLeft(ctx, t.node, t.color, t.item, t.right);
        Zip(down, t.left);
        DescendAt(down, t.left);
      }
    }

    method TakeOver(n: Node, key: Key, value: Value, ghost ctx: Ctx, ghost t: Tree)
      requires At(ctx, t) && n == Ref(t)
      modifies n`key, n`value
      ensures At(ctx, t.(item := Item(key, value)))
    {
      n.key := key;
      n.value := value;
    }

    /** A node with two children takes over the entry of its successor, which is returned. */
    method TakeSuccessor(n: Node, ghost ctx: Ctx, ghost t: Tree) returns (temp: Node)
      requires At(ctx, t) && n == Ref(t) && t.right.Bin?
      modifies n`key, n`value
      ensures var (c, u) := Successor(ctx, t); At(c, u) && temp == u.node
    {
      TreeAllocated(t);
      CtxAllocated(ctx);
      ghost var (c, u) := Successor(ctx, t);
      ghost var side := InRight(ctx, t.left, n, t.color, u.item);
      temp := MinNode(n.right, t.right, n);
      assert old(At(ctx, t)) == At(ctx, t);
      TakeOver(n, temp.key, temp.value, ctx, t);
      Zip(side, t.right);
      DescendAt(side, t.right);
    }

    /** Removes the entry of a node: a node with two children takes over the entry of its
        successor, whose node is unlinked instead. */
    method EraseImpl(toErase: Node, ghost ctx: Ctx, ghost t: Tree) returns (ghost out: Tree, ghost gone: Node)
      requires At(ctx, t) && toErase == Ref(t) && RedBlack(Plug(ctx, t))
      modifies this`root, All(ctx, t)
      ensures gone in All(ctx, t)
      ensures Repaired(out, (Before(ctx) + Inorder(t.left)) + (Inorder(t.right) + After(ctx)), All(ctx, t) - {gone})
    {
      if toErase.left != null && toErase.right != null {
        SuccessorFits(ctx, t);
        ghost var (c, u) := Successor(ctx, t);
        var temp := TakeSuccessor(toErase, ctx, t);
        gone := temp;
        out := DeleteOneChild(temp, c, u);
      } else {
        gone := toErase;
        out := DeleteOneChild(toErase, ctx, t);
      }
    }

    // ---------------------------------------------------------------- operations

    /** The descent of a search, one step: the hole keeps everything that could match. */
    ghost predicate Searching(ctx: Ctx, t: Tree)
      reads this, CtxNodes(ctx), Nodes(t)
    {
      At(ctx, t) && Plug(ctx, t) == tree && Content(ctx, t) == Contents()
    }

    lemma StepLeft(ctx: Ctx, t: Tree)
      requires Searching(ctx, t) && t.Bin?
      ensures Searching(InLeft(ctx, t.node, t.color, t.item, t.right), t.left)
    {
      ghost var down := InLeft(ctx, t.node, t.color, t.item, t.right);
      Zip(down, t.left);
      FillContent(down, t.left);
    }

    lemma StepRight(ctx: Ctx, t: Tree)
      requires Searching(ctx, t) && t.Bin?
      ensures Searching(InRight(ctx, t.left, t.node, t.color, t.item), t.right)
    {
      ghost var down := InRight(ctx, t.left, t.node, t.color, t.item);
      Zip(down, t.right);
      FillContent(down, t.right);
    }

    /** The empty place below the last entry not above `key`. */
    method InsertionPoint(key: Key) returns (parent: Node?, left: bool, ghost ctx: Ctx)
      requires Valid()
      ensures Searching(ctx, Leaf) && parent == Above(ctx) && (!ctx.Top? ==> (left <==> ctx.InLeft?))
      ensures NoneAbove(less, Before(ctx), key) && AllAbove(less, After(ctx), key)
    {
      parent, left := null, false;
      var next := root;
      ghost var t := tree;
      ctx := Top;
      while next != null
        invariant Searching(ctx, t) && next == Ref(t) && parent == Above(ctx)
        invariant !ctx.Top? ==> (left <==> ctx.InLeft?)
        invariant NoneAbove(less, Before(ctx), key) && AllAbove(less, After(ctx), key)
        decreases t
      {
        GoRight(less, ctx, t, key);
        left := less(key, next.key);
        parent := next;
        if left {
          GoLeft(less, ctx, t, key);
          StepLeft(ctx, t);
          ctx, t := InLeft(ctx, t.node, t.color, t.item, t.right), t.left;
          next := next.left;
        } else {
          StepRight(ctx, t);
          ctx, t := InRight(ctx, t.left, t.node, t.color, t.item), t.right;
          next := next.right;
        }
      }
    }

    method Hang(newNode: Node, parent: Node?, left: bool, ghost ctx: Ctx)
      requires At(ctx, Leaf) && parent == Above(ctx) && (!ctx.Top? ==> (left <==> ctx.InLeft?))
      requires newNode !in CtxNodes(ctx) && newNode.color == Red && newNode.left == null && newNode.right == null
      modifies this`root, CtxNodes(ctx), newNode`parent
      ensures At(ctx, Bin(Leaf, newNode, Red, Item(newNode.key, newNode.value), Leaf))
    {
      CtxAllocated(ctx);
      newNode.parent := parent;
      Attach(parent, left, newNode, ctx, null);
    }

    method PushImpl(newNode: Node)
      requires Valid() && newNode !in Nodes(tree) && newNode.color == Red
      requires newNode.left == null && newNode.right == null
      modifies this, Nodes(tree), newNode
      ensures Valid() && Nodes(tree) == old(Nodes(tree)) + {newNode}
      ensures Inserted(less, old(Contents()), Item(old(newNode.key), old(newNode.value)), Contents())
    {
      ghost var item, was := Item(newNode.key, newNode.value), Contents();
      var parent, left, ctx := InsertionPoint(newNode.key);
      ghost var t := Bin(Leaf, newNode, Red, item, Leaf);
      InsertableShape(ctx, newNode, item);
      InsertableOrder(less, ctx, t);
      Hang(newNode, parent, left, ctx);
      tree := InsertCase1(newNode, ctx, t);
    }

    /** Adds one entry; equal keys are allowed. */
    method Emplace(key: Key, value: Value)
      requires Valid()
      modifies this, Nodes(tree)
      ensures Valid() && fresh(Nodes(tree) - old(Nodes(tree)))
      ensures Inserted(less, old(Contents()), Item(key, value), Contents())
    {
      TreeAllocated(tree);
      var n := new Node(key, value);
      assert old(At(Top, tree)) == At(Top, tree);
      PushImpl(n);
    }

    /** Finds a node with an equal key exactly if there is one, although equal keys may sit on
        either side of each other. */
    method Find(u: Key) returns (cur: Node?, ghost ctx: Ctx, ghost t: Tree)
      requires Valid()
      ensures cur != null <==> Holds(less, Contents(), u)
      ensures cur != null ==> cur in Nodes(tree) && Equal(less, cur.key, u)
      ensures Searching(ctx, t) && cur == Ref(t)
    {
      cur := root;
      ctx, t := Top, tree;
      while cur != null
        invariant Searching(ctx, t) && cur == Ref(t)
        invariant AllBelow(less, Before(ctx), u) && AllAbove(less, After(ctx), u)
        decreases t
      {
        var key := cur.key;
        if less(u, key) {
          GoLeft(less, ctx, t, u);
          StepLeft(ctx, t);
          cur := cur.left;
          ctx, t := InLeft(ctx, t.node, t.color, t.item, t.right), t.left;
        } else if less(key, u) {
          GoRight(less, ctx, t, u);
          StepRight(ctx, t);
          cur := cur.right;
          ctx, t := InRight(ctx, t.left, t.node, t.color, t.item), t.right;
        } else {
          NodeParts(ctx, t);
          PlugSame(ctx, t);
          assert Contents()[|Before(ctx) + Inorder(t.left)|] == t.item;
          return;
        }
      }
      assert Contents() == Before(ctx) + After(ctx);
    }

    /** Removes one entry with an equal key if there is one. */
    method EraseOne(key: Key) returns (erased: bool)
      requires Valid()
      modifies this, Nodes(tree)
      ensures Valid() && Nodes(tree) <= old(Nodes(tree))
      ensures erased <==> Holds(less, old(Contents()), key)
      ensures if erased then Removed(less, old(Contents()), key, Contents()) else tree == old(tree)
    {
      TreeAllocated(tree);
      ghost var was := Contents();
      var toErase, ctx, t := Find(key);
      assert old(At(Top, tree)) == At(Top, tree);
      if toErase == null {
        return false;
      }
      PlugSame(ctx, t);
      NodeParts(ctx, t);
      ghost var a, b := Before(ctx) + Inorder(t.left), Inorder(t.right) + After(ctx);
      RemovedSorted(less, a, t.item, b);
      RemovedBetween(less, a, t.item, b, key);
      ghost var gone;
      tree, gone := EraseImpl(toErase, ctx, t);
      return true;
    }

    /** The heights the debug check computes, every one of its assertions included. */
    function MinmaxHeight(node: Node?, ghost ctx: Ctx, ghost t: Tree): (h: HeightInfo)
      requires StrictWeakOrder(less) && At(ctx, t) && node == Ref(t) && Sound(t) && Sorted(less, Content(ctx, t))
      reads this, CtxNodes(ctx), Nodes(t)
      ensures h == HeightInfo(MinHeight(t), MaxHeight(t), BlackHeight(t))
      decreases t
    {
      if node == null then HeightInfo(0, 0, 0)
      else
        ghost var toLeft := InLeft(ctx, t.node, t.color, t.item, t.right);
        ghost var toRight := InRight(ctx, t.left, t.node, t.color, t.item);
        Zip(toLeft, t.left);
        Zip(toRight, t.right);
        FillContent(toLeft, t.left);
        FillContent(toRight, t.right);
        ChildrenOrdered(less, ctx, t);
        var left := node.left;
        var right := node.right;
        var l := MinmaxHeight(left, toLeft, t.left);
        var r := MinmaxHeight(right, toRight, t.right);
        assert l.black == r.black;
        assert left == null || left.parent == node;
        assert right == null || right.parent == node;
        assert left == null || !less(node.key, left.key);
        assert right == null || !less(right.key, node.key);
        assert node.color == Red ==> ColorOf(left) == Black && ColorOf(right) == Black;
        HeightInfo(Min(l.min, r.min) + 1, Max(l.max, r.max) + 1, l.black + Weight(node.color))
    }

    method Verify()
      requires Valid()
    {
      assert root != null ==> root.color == Black;
      assert Content(Top, tree) == Contents();
      var h := MinmaxHeight(root, Top, tree);
      VerifyHolds(tree);
      assert h.min * 2 >= h.max;
    }
  }
}
