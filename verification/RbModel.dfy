/** Red-black trees as values: shapes over node references, contexts with a hole, the
    red-black rules, and the sequence of entries a tree holds. */
module RbModel {
  type Key(!new, ==)
  type Value(!new, ==)

  datatype Color = Red | Black

  datatype Item = Item(key: Key, value: Value)

  /** `rb_node_`: the fields the code updates through its transactional variables. */
  class Node {
    var key: Key
    var value: Value
    var parent: Node?
    var left: Node?
    var right: Node?
    var color: Color

    constructor (key: Key, value: Value)
      ensures this.key == key && this.value == value && this.color == Red
      ensures this.parent == null && this.left == null && this.right == null
    {
      this.key, this.value, this.color := key, value, Red;
      parent, left, right := null, null, null;
    }
  }

  datatype Tree = Leaf | Bin(left: Tree, node: Node, color: Color, item: Item, right: Tree)

  /** A tree with a hole, seen from the hole. */
  datatype Ctx =
    | Top
    | InLeft(up: Ctx, node: Node, color: Color, item: Item, right: Tree)
    | InRight(up: Ctx, left: Tree, node: Node, color: Color, item: Item)

  function Ref(t: Tree): Node? { if t.Leaf? then null else t.node }

  function Above(ctx: Ctx): Node? { if ctx.Top? then null else ctx.node }

  /** The subtree beside the hole. */
  function Sib(ctx: Ctx): Tree
    requires !ctx.Top?
  {
    if ctx.InLeft? then ctx.right else ctx.left
  }

  function WithSib(ctx: Ctx, s: Tree): Ctx
    requires !ctx.Top?
  {
    if ctx.InLeft? then InLeft(ctx.up, ctx.node, ctx.color, ctx.item, s)
    else InRight(ctx.up, s, ctx.node, ctx.color, ctx.item)
  }

  function WithColor(ctx: Ctx, c: Color): Ctx
    requires !ctx.Top?
  {
    if ctx.InLeft? then InLeft(ctx.up, ctx.node, c, ctx.item, ctx.right)
    else InRight(ctx.up, ctx.left, ctx.node, c, ctx.item)
  }

  /** The tree one level up, with the hole filled by `t`. */
  function Fill(ctx: Ctx, t: Tree): Tree
    requires !ctx.Top?
  {
    if ctx.InLeft? then Bin(t, ctx.node, ctx.color, ctx.item, ctx.right)
    else Bin(ctx.left, ctx.node, ctx.color, ctx.item, t)
  }

  /** The context of the subtree beside the hole. */
  function Swap(ctx: Ctx, t: Tree): Ctx
    requires !ctx.Top?
  {
    if ctx.InLeft? then InRight(ctx.up, t, ctx.node, ctx.color, ctx.item)
    else InLeft(ctx.up, ctx.node, ctx.color, ctx.item, t)
  }

  function Plug(ctx: Ctx, t: Tree): Tree {
    if ctx.Top? then t else Plug(ctx.up, Fill(ctx, t))
  }

  function Depth(ctx: Ctx): nat { if ctx.Top? then 0 else 1 + Depth(ctx.up) }

  // ---------------------------------------------------------------- rotations

  function LeftTurn(t: Tree): Tree
    requires t.Bin? && t.right.Bin?
  {
    var s := t.right;
    Bin(Bin(t.left, t.node, t.color, t.item, s.left), s.node, s.color, s.item, s.right)
  }

  function RightTurn(t: Tree): Tree
    requires t.Bin? && t.left.Bin?
  {
    var s := t.left;
    Bin(s.left, s.node, s.color, s.item, Bin(s.right, t.node, t.color, t.item, t.right))
  }

  function Painted(t: Tree, c: Color): Tree
    requires t.Bin?
  {
    t.(color := c)
  }

  // ---------------------------------------------------------------- entries

  function Inorder(t: Tree): seq<Item> {
    if t.Leaf? then [] else Inorder(t.left) + [t.item] + Inorder(t.right)
  }

  function Before(ctx: Ctx): seq<Item> {
    match ctx
    case Top => []
    case InLeft(up, _, _, _, _) => Before(up)
    case InRight(up, l, _, _, i) => Before(up) + (Inorder(l) + [i])
  }

  function After(ctx: Ctx): seq<Item> {
    match ctx
    case Top => []
    case InLeft(up, _, _, i, r) => [i] + Inorder(r) + After(up)
    case InRight(up, _, _, _, _) => After(up)
  }

  function Content(ctx: Ctx, t: Tree): seq<Item> { Before(ctx) + Inorder(t) + After(ctx) }

  lemma FillContent(ctx: Ctx, t: Tree)
    requires !ctx.Top?
    ensures Content(ctx.up, Fill(ctx, t)) == Content(ctx, t)
  {
    if ctx.InLeft? {
      assert Inorder(Fill(ctx, t)) == Inorder(t) + ([ctx.item] + Inorder(ctx.right));
    } else {
      assert Inorder(Fill(ctx, t)) == (Inorder(ctx.left) + [ctx.item]) + Inorder(t);
    }
  }

  lemma {:induction false} PlugContent(ctx: Ctx, t: Tree)
    ensures Inorder(Plug(ctx, t)) == Content(ctx, t)
  {
    if !ctx.Top? {
      PlugContent(ctx.up, Fill(ctx, t));
      FillContent(ctx, t);
    }
  }

  lemma SameContent(ctx: Ctx, t: Tree, u: Tree)
    requires Inorder(t) == Inorder(u)
    ensures Content(ctx, t) == Content(ctx, u)
  {
  }

  lemma Regroup(a: seq<Item>, x: seq<Item>, b: seq<Item>, y: seq<Item>, c: seq<Item>)
    ensures a + x + (b + y + c) == (a + x + b) + y + c
  {
  }

  lemma TurnContent(t: Tree)
    requires t.Bin?
    ensures t.right.Bin? ==> Inorder(LeftTurn(t)) == Inorder(t)
    ensures t.left.Bin? ==> Inorder(RightTurn(t)) == Inorder(t)
  {
    if t.right.Bin? {
      var s, u := t.right, LeftTurn(t);
      assert Inorder(t) == Inorder(t.left) + [t.item] + (Inorder(s.left) + [s.item] + Inorder(s.right));
      assert Inorder(u.left) == Inorder(t.left) + [t.item] + Inorder(s.left);
      Regroup(Inorder(t.left), [t.item], Inorder(s.left), [s.item], Inorder(s.right));
    }
    if t.left.Bin? {
      var s, u := t.left, RightTurn(t);
      assert Inorder(t) == (Inorder(s.left) + [s.item] + Inorder(s.right)) + [t.item] + Inorder(t.right);
      assert Inorder(u.right) == Inorder(s.right) + [t.item] + Inorder(t.right);
      Regroup(Inorder(s.left), [s.item], Inorder(s.right), [t.item], Inorder(t.right));
    }
  }

  // ---------------------------------------------------------------- nodes

  ghost function Nodes(t: Tree): set<Node> {
    if t.Leaf? then {} else Nodes(t.left) + {t.node} + Nodes(t.right)
  }

  ghost function CtxNodes(ctx: Ctx): set<Node> {
    if ctx.Top? then {} else CtxNodes(ctx.up) + {ctx.node} + Nodes(Sib(ctx))
  }

  ghost function All(ctx: Ctx, t: Tree): set<Node> { CtxNodes(ctx) + Nodes(t) }

  ghost predicate Distinct(t: Tree) {
    t.Bin? ==>
      && Distinct(t.left) && Distinct(t.right)
      && t.node !in Nodes(t.left) && t.node !in Nodes(t.right) && Nodes(t.left) !! Nodes(t.right)
  }

  ghost predicate CtxDistinct(ctx: Ctx) {
    !ctx.Top? ==>
      && CtxDistinct(ctx.up) && Distinct(Sib(ctx)) && ctx.node !in Nodes(Sib(ctx))
      && ctx.node !in CtxNodes(ctx.up) && CtxNodes(ctx.up) !! Nodes(Sib(ctx))
  }

  lemma FillNodes(ctx: Ctx, t: Tree)
    requires !ctx.Top?
    ensures Nodes(Fill(ctx, t)) == {ctx.node} + Nodes(Sib(ctx)) + Nodes(t)
    ensures All(ctx.up, Fill(ctx, t)) == All(ctx, t)
  {
  }

  lemma TurnNodes(t: Tree)
    requires t.Bin?
    ensures t.right.Bin? ==> Nodes(LeftTurn(t)) == Nodes(t) && (Distinct(LeftTurn(t)) <==> Distinct(t))
    ensures t.left.Bin? ==> Nodes(RightTurn(t)) == Nodes(t) && (Distinct(RightTurn(t)) <==> Distinct(t))
  {
    if t.right.Bin? {
      var u := LeftTurn(t);
      assert Nodes(t.right) == Nodes(t.right.left) + {u.node} + Nodes(u.right);
      assert Nodes(u.left) == Nodes(t.left) + {t.node} + Nodes(t.right.left);
    }
    if t.left.Bin? {
      var u := RightTurn(t);
      assert Nodes(t.left) == Nodes(u.left) + {u.node} + Nodes(t.left.right);
      assert Nodes(u.right) == Nodes(t.left.right) + {t.node} + Nodes(t.right);
    }
  }

  // ---------------------------------------------------------------- red-black rules

  function Weight(c: Color): nat { if c.Black? then 1 else 0 }

  function BlackHeight(t: Tree): nat { if t.Leaf? then 0 else BlackHeight(t.left) + Weight(t.color) }

  predicate IsRed(t: Tree) { t.Bin? && t.color.Red? }

  /** Equal black heights everywhere and no red node with a red child. */
  predicate Sound(t: Tree) {
    t.Bin? ==>
      && Sound(t.left) && Sound(t.right) && BlackHeight(t.left) == BlackHeight(t.right)
      && (t.color.Red? ==> !IsRed(t.left) && !IsRed(t.right))
  }

  predicate RedBlack(t: Tree) { Sound(t) && !IsRed(t) }

  predicate BlackAbove(ctx: Ctx) { !ctx.Top? && ctx.color.Black? }

  /** A sound black tree of black height `h` in the hole makes a red-black tree. */
  predicate Fits(ctx: Ctx, h: nat) {
    !ctx.Top? ==>
      && Sound(Sib(ctx)) && BlackHeight(Sib(ctx)) == h
      && (ctx.color.Red? ==> !IsRed(Sib(ctx)) && BlackAbove(ctx.up))
      && Fits(ctx.up, h + Weight(ctx.color))
  }

  /** The rules can be checked at a hole: a tree is red-black exactly if what surrounds the hole
      and what fills it fit together. */
  lemma {:induction false} PlugRedBlack(ctx: Ctx, t: Tree)
    ensures RedBlack(Plug(ctx, t)) <==>
              Sound(t) && Fits(ctx, BlackHeight(t)) && (IsRed(t) ==> BlackAbove(ctx))
  {
    if !ctx.Top? {
      PlugRedBlack(ctx.up, Fill(ctx, t));
    }
  }

  // ---------------------------------------------------------------- heights

  datatype HeightInfo = HeightInfo(min: nat, max: nat, black: nat)

  function Min(a: nat, b: nat): nat { if a < b then a else b }
  function Max(a: nat, b: nat): nat { if a < b then b else a }

  function MinHeight(t: Tree): nat { if t.Leaf? then 0 else Min(MinHeight(t.left), MinHeight(t.right)) + 1 }

  function MaxHeight(t: Tree): nat { if t.Leaf? then 0 else Max(MaxHeight(t.left), MaxHeight(t.right)) + 1 }

  lemma {:induction false} HeightBounds(t: Tree)
    requires Sound(t)
    ensures BlackHeight(t) <= MinHeight(t)
    ensures MaxHeight(t) <= 2 * BlackHeight(t) + (if IsRed(t) then 1 else 0)
  {
    if t.Bin? {
      HeightBounds(t.left);
      HeightBounds(t.right);
    }
  }

  /** The longest path is at most twice the shortest, as `verify` asserts. */
  lemma VerifyHolds(t: Tree)
    requires RedBlack(t)
    ensures MinHeight(t) * 2 >= MaxHeight(t)
  {
    HeightBounds(t);
  }

  // ---------------------------------------------------------------- order

  /** What a comparator has to satisfy. */
  ghost predicate StrictWeakOrder(less: (Key, Key) -> bool) {
    && (forall a :: !less(a, a))
    && (forall a, b, c :: less(a, b) && less(b, c) ==> less(a, c))
    && (forall a, b, c :: !less(a, b) && !less(b, c) ==> !less(a, c))
  }

  /** No entry is below an earlier one; equal keys are allowed. */
  ghost predicate Sorted(less: (Key, Key) -> bool, s: seq<Item>) {
    forall i, j | 0 <= i < j < |s| :: !less(s[j].key, s[i].key)
  }

  predicate Equal(less: (Key, Key) -> bool, a: Key, b: Key) { !less(a, b) && !less(b, a) }

  ghost predicate AllBelow(less: (Key, Key) -> bool, s: seq<Item>, u: Key) {
    forall k | 0 <= k < |s| :: less(s[k].key, u)
  }

  ghost predicate NoneAbove(less: (Key, Key) -> bool, s: seq<Item>, u: Key) {
    forall k | 0 <= k < |s| :: !less(u, s[k].key)
  }

  ghost predicate AllAbove(less: (Key, Key) -> bool, s: seq<Item>, u: Key) {
    forall k | 0 <= k < |s| :: less(u, s[k].key)
  }

  lemma SortedParts(less: (Key, Key) -> bool, a: seq<Item>, i: Item, b: seq<Item>)
    requires Sorted(less, a + [i] + b)
    ensures forall k | 0 <= k < |a| :: !less(i.key, a[k].key)
    ensures forall k | 0 <= k < |b| :: !less(b[k].key, i.key)
  {
    var s := a + [i] + b;
    forall k | 0 <= k < |a| ensures !less(i.key, a[k].key) {
      assert s[k] == a[k] && s[|a|] == i;
    }
    forall k | 0 <= k < |b| ensures !less(b[k].key, i.key) {
      assert s[|a| + 1 + k] == b[k] && s[|a|] == i;
    }
  }

  /** The entries around a node in the hole. */
  lemma NodeParts(ctx: Ctx, t: Tree)
    requires t.Bin?
    ensures Content(ctx, t)
         == (Before(ctx) + Inorder(t.left)) + [t.item] + (Inorder(t.right) + After(ctx))
    ensures Before(InRight(ctx, t.left, t.node, t.color, t.item)) == Before(ctx) + Inorder(t.left) + [t.item]
    ensures After(InLeft(ctx, t.node, t.color, t.item, t.right)) == [t.item] + (Inorder(t.right) + After(ctx))
  {
  }

  lemma ChildrenOrdered(less: (Key, Key) -> bool, ctx: Ctx, t: Tree)
    requires t.Bin? && Sorted(less, Content(ctx, t))
    ensures t.left.Bin? ==> !less(t.item.key, t.left.item.key)
    ensures t.right.Bin? ==> !less(t.right.item.key, t.item.key)
  {
    NodeParts(ctx, t);
    SortedParts(less, Before(ctx) + Inorder(t.left), t.item, Inorder(t.right) + After(ctx));
    if t.left.Bin? {
      var a := Before(ctx) + Inorder(t.left.left);
      assert (Before(ctx) + Inorder(t.left))[|a|] == t.left.item;
    }
    if t.right.Bin? {
      assert (Inorder(t.right) + After(ctx))[|Inorder(t.right.left)|] == t.right.item;
    }
  }

  /** If the key sought is below a node's key, everything from the node on is above it. */
  lemma GoLeft(less: (Key, Key) -> bool, ctx: Ctx, t: Tree, u: Key)
    requires StrictWeakOrder(less) && t.Bin? && Sorted(less, Content(ctx, t)) && less(u, t.item.key)
    ensures AllAbove(less, After(InLeft(ctx, t.node, t.color, t.item, t.right)), u)
  {
    NodeParts(ctx, t);
    SortedParts(less, Before(ctx) + Inorder(t.left), t.item, Inorder(t.right) + After(ctx));
  }

  lemma GoRight(less: (Key, Key) -> bool, ctx: Ctx, t: Tree, u: Key)
    requires StrictWeakOrder(less) && t.Bin? && Sorted(less, Content(ctx, t))
    ensures less(t.item.key, u) ==> AllBelow(less, Before(InRight(ctx, t.left, t.node, t.color, t.item)), u)
    ensures !less(u, t.item.key) ==> NoneAbove(less, Before(InRight(ctx, t.left, t.node, t.color, t.item)), u)
  {
    NodeParts(ctx, t);
    SortedParts(less, Before(ctx) + Inorder(t.left), t.item, Inorder(t.right) + After(ctx));
  }

  /** An entry put after everything not above it and before everything above it keeps the order. */
  lemma InsertedSorted(less: (Key, Key) -> bool, a: seq<Item>, i: Item, b: seq<Item>)
    requires StrictWeakOrder(less) && Sorted(less, a + b) && NoneAbove(less, a, i.key) && AllAbove(less, b, i.key)
    ensures Sorted(less, a + [i] + b)
  {
    var s, s' := a + b, a + [i] + b;
    forall j, k | 0 <= j < k < |s'| ensures !less(s'[k].key, s'[j].key) {
      var j0, k0 := if j <= |a| then j else j - 1, if k <= |a| then k else k - 1;
      if j != |a| && k != |a| {
        assert s'[j] == s[j0] && s'[k] == s[k0];
      } else if j == |a| {
        assert s'[k] == b[k - |a| - 1];
      }
    }
  }

  lemma RemovedSorted(less: (Key, Key) -> bool, a: seq<Item>, i: Item, b: seq<Item>)
    requires Sorted(less, a + [i] + b)
    ensures Sorted(less, a + b)
  {
    var s, s' := a + [i] + b, a + b;
    forall j, k | 0 <= j < k < |s'| ensures !less(s'[k].key, s'[j].key) {
      assert s'[j] == s[if j < |a| then j else j + 1] && s'[k] == s[if k < |a| then k else k + 1];
    }
  }

  // ---------------------------------------------------------------- what the operations promise

  ghost predicate Holds(less: (Key, Key) -> bool, s: seq<Item>, u: Key) {
    exists k :: 0 <= k < |s| && Equal(less, s[k].key, u)
  }

  /** One entry more, put after the last entry not above it. */
  ghost predicate Inserted(less: (Key, Key) -> bool, s: seq<Item>, i: Item, s': seq<Item>) {
    exists k :: 0 <= k <= |s| && s' == s[..k] + [i] + s[k..]
                && NoneAbove(less, s[..k], i.key) && AllAbove(less, s[k..], i.key)
  }

  /** One entry with an equal key less, everything else in its place. */
  ghost predicate Removed(less: (Key, Key) -> bool, s: seq<Item>, u: Key, s': seq<Item>) {
    exists k :: 0 <= k < |s| && Equal(less, s[k].key, u) && s' == s[..k] + s[k + 1..]
  }

  lemma InsertedCounts(less: (Key, Key) -> bool, s: seq<Item>, i: Item, s': seq<Item>)
    requires Inserted(less, s, i, s')
    ensures multiset(s') == multiset(s) + multiset{i}
  {
    var k :| 0 <= k <= |s| && s' == s[..k] + [i] + s[k..];
    assert s == s[..k] + s[k..];
  }

  lemma RemovedCounts(less: (Key, Key) -> bool, s: seq<Item>, u: Key, s': seq<Item>) returns (i: Item)
    requires Removed(less, s, u, s')
    ensures i in s && Equal(less, i.key, u) && multiset(s') == multiset(s) - multiset{i}
  {
    var k :| 0 <= k < |s| && Equal(less, s[k].key, u) && s' == s[..k] + s[k + 1..];
    i := s[k];
    assert s == s[..k] + [i] + s[k + 1..];
  }

  lemma InsertedBetween(less: (Key, Key) -> bool, a: seq<Item>, i: Item, b: seq<Item>)
    requires NoneAbove(less, a, i.key) && AllAbove(less, b, i.key)
    ensures Inserted(less, a + b, i, a + [i] + b)
  {
    assert (a + b)[..|a|] == a && (a + b)[|a|..] == b;
  }

  lemma RemovedBetween(less: (Key, Key) -> bool, a: seq<Item>, i: Item, b: seq<Item>, u: Key)
    requires Equal(less, i.key, u)
    ensures Removed(less, a + [i] + b, u, a + b) && Holds(less, a + [i] + b, u)
  {
    var s := a + [i] + b;
    assert s[..|a|] == a && s[|a|] == i && s[|a| + 1..] == b;
  }
}
