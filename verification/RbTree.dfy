/**
 Intrusive red-black tree with parent pointers (src/lib/rbtree.c).

 The memory of the nodes is mirrored by a map from node to Cell, kept equal to the heap by
 the four field setters. Formed(c, root, p, t) says that these cells form the path `p` with
 the tree `t` in its hole. Every relinking step of the program rewrites such a description.
 */
module RbTree {
  import opened RbShape

  datatype Cell = Cell(parent: Node?, red: bool, left: Node?, right: Node?)

  type Cells = map<Node, Cell>

  function Root(t: Tree): Node? {
    if t.Leaf? then null else t.node
  }

  /** The node above the hole of a path. */
  function Hook(p: Path): Node? {
    if p.Top? then null else p.node
  }

  ghost predicate Linked(c: Cells, t: Tree, parent: Node?)
    decreases t
  {
    t.Branch? ==>
      && t.node in c
      && c[t.node] == Cell(parent, t.color.Red?, Root(t.left), Root(t.right))
      && Linked(c, t.left, t.node)
      && Linked(c, t.right, t.node)
  }

  function FrameCell(p: Path, hole: Node?): Cell
    requires p.Step?
  {
    if p.onLeft then Cell(Hook(p.up), p.color.Red?, hole, Root(p.sib))
    else Cell(Hook(p.up), p.color.Red?, Root(p.sib), hole)
  }

  ghost predicate PathLinked(c: Cells, p: Path, hole: Node?, root: Node?)
    decreases p
  {
    match p
    case Top => root == hole
    case Step(up, _, n, _, sib) =>
      && n in c
      && c[n] == FrameCell(p, hole)
      && Linked(c, sib, n)
      && PathLinked(c, up, n, root)
  }

  ghost predicate Formed(c: Cells, root: Node?, p: Path, t: Tree) {
    && Distinct(t) && PathDistinct(p) && Nodes(t) !! PathNodes(p)
    && Linked(c, t, Hook(p))
    && PathLinked(c, p, Root(t), root)
  }

  // ----- framing and moving the focus -----

  ghost predicate SameOn(c: Cells, c': Cells, s: set<Node>) {
    forall m :: m in s && m in c ==> m in c' && c'[m] == c[m]
  }

  lemma {:induction false} LinkedFrame(c: Cells, c': Cells, t: Tree, parent: Node?)
    requires Linked(c, t, parent) && SameOn(c, c', Nodes(t))
    ensures Linked(c', t, parent)
  {
    if t.Branch? {
      LinkedFrame(c, c', t.left, t.node);
      LinkedFrame(c, c', t.right, t.node);
    }
  }

  lemma {:induction false} PathFrame(c: Cells, c': Cells, p: Path, hole: Node?, root: Node?)
    requires PathLinked(c, p, hole, root) && SameOn(c, c', PathNodes(p))
    ensures PathLinked(c', p, hole, root)
  {
    if p.Step? {
      LinkedFrame(c, c', p.sib, p.node);
      PathFrame(c, c', p.up, p.node, root);
    }
  }

  /** A subtree whose root only changes its parent. */
  lemma Reparented(c: Cells, c': Cells, t: Tree, parent: Node?, parent': Node?)
    requires Linked(c, t, parent) && Distinct(t)
    requires SameOn(c, c', Nodes(t) - {Root(t)})
    requires t.Branch? ==> t.node in c' && c'[t.node] == c[t.node].(parent := parent')
    ensures Linked(c', t, parent')
  {
    if t.Branch? {
      LinkedFrame(c, c', t.left, t.node);
      LinkedFrame(c, c', t.right, t.node);
    }
  }

  /** A path whose innermost frame only changes what its hole holds. */
  lemma Rehung(c: Cells, c': Cells, p: Path, hole: Node?, hole': Node?, root: Node?, root': Node?)
    requires PathLinked(c, p, hole, root) && PathDistinct(p)
    requires SameOn(c, c', PathNodes(p) - {Hook(p)})
    requires if p.Top? then root' == hole' else p.node in c' && c'[p.node] == FrameCell(p, hole') && root' == root
    ensures PathLinked(c', p, hole', root')
  {
    if p.Step? {
      LinkedFrame(c, c', p.sib, p.node);
      PathFrame(c, c', p.up, p.node, root);
    }
  }

  function Fill(p: Path, t: Tree): Tree
    requires p.Step?
  {
    if p.onLeft then Branch(t, p.node, p.color, p.sib) else Branch(p.sib, p.node, p.color, t)
  }

  /** Moving the focus one node up does not change what is described. */
  lemma MoveUp(c: Cells, root: Node?, p: Path, t: Tree)
    requires p.Step? && Formed(c, root, p, t)
    ensures Formed(c, root, p.up, Fill(p, t))
    ensures Whole(p, t) == Whole(p.up, Fill(p, t))
    ensures Nodes(Fill(p, t)) + PathNodes(p.up) == Nodes(t) + PathNodes(p)
  {
    SetsOfFill(p, t);
    WholeOfFill(p, t);
  }

  lemma SetsOfFill(p: Path, t: Tree)
    requires p.Step?
    ensures Nodes(Fill(p, t)) == Nodes(t) + {p.node} + Nodes(p.sib)
    ensures PathNodes(p) == PathNodes(p.up) + {p.node} + Nodes(p.sib)
  {
  }

  lemma WholeOfFill(p: Path, t: Tree)
    requires p.Step?
    ensures Whole(p, t) == Whole(p.up, Fill(p, t))
  {
  }

  /** Moving the focus from a node to one of its children. */
  lemma MoveDown(c: Cells, root: Node?, p: Path, t: Tree)
    requires p.Step? && Formed(c, root, p.up, Fill(p, t))
    ensures Formed(c, root, p, t)
    ensures Whole(p, t) == Whole(p.up, Fill(p, t))
  {
    SetsOfFill(p, t);
    WholeOfFill(p, t);
    assert Distinct(Fill(p, t));
    assert PathLinked(c, p.up, p.node, root);
  }

  // ----- rotations, on cells -----

  ghost predicate RotatedLeft(c: Cells, c': Cells, n: Node, p: Node, y: Node?, hook: Node?) {
    && n in c && p in c && n in c' && p in c'
    && c'[n] == c[n].(parent := c[p].parent, left := p)
    && c'[p] == c[p].(parent := n, right := y)
    && (y != null ==> y in c && y in c' && c'[y] == c[y].(parent := p))
    && SameOn(c, c', c.Keys - {n, p, y, hook})
  }

  lemma RotateLeftForms(c: Cells, root: Node?, c': Cells, root': Node?, up: Path, x: Tree, p: Node, pc: Color,
                        y: Tree, n: Node, nc: Color, z: Tree)
    requires Formed(c, root, up, Branch(x, p, pc, Branch(y, n, nc, z)))
    requires RotatedLeft(c, c', n, p, Root(y), Hook(up))
    requires if up.Top? then root' == n else up.node in c' && c'[up.node] == FrameCell(up, n) && root' == root
    ensures Formed(c', root', up, Branch(Branch(x, p, pc, y), n, nc, z))
  {
    var inner := Branch(y, n, nc, z);
    var inner' := Branch(x, p, pc, y);
    var t := Branch(x, p, pc, inner);
    assert Linked(c, inner, p) && Distinct(inner);
    assert Nodes(inner) == Nodes(y) + {n} + Nodes(z);
    assert Nodes(inner') == Nodes(x) + {p} + Nodes(y);
    assert Nodes(t) == Nodes(x) + {p} + Nodes(inner);
    assert Nodes(Branch(inner', n, nc, z)) == Nodes(t);
    assert Root(y) != null ==> Root(y) in Nodes(y);
    assert Hook(up) != null ==> Hook(up) in PathNodes(up);
    LinkedFrame(c, c', x, p);
    LinkedFrame(c, c', z, n);
    Reparented(c, c', y, n, p);
    Rehung(c, c', up, p, n, root, root');
  }

  lemma RootCell(c: Cells, root: Node?, p: Path, t: Tree)
    requires Formed(c, root, p, t) && t.Branch?
    ensures t.node in c && c[t.node] == Cell(Hook(p), t.color.Red?, Root(t.left), Root(t.right))
  {
  }

  lemma FrameFacts(c: Cells, root: Node?, p: Path, t: Tree)
    requires Formed(c, root, p, t)
    ensures if p.Top? then root == Root(t) else p.node in c && c[p.node] == FrameCell(p, Root(t))
    ensures p.Step? && p.sib.Branch? ==> p.sib.node in c && c[p.sib.node].red == p.sib.color.Red? && Root(t) != Root(p.sib)
  {
    assert p.Step? && p.sib.Branch? ==> p.sib.node in Nodes(p.sib) && Nodes(p.sib) <= PathNodes(p);
    assert t.Branch? ==> t.node in Nodes(t);
  }

  // ----- recolouring -----

  lemma RecolorForms(c: Cells, c': Cells, root: Node?, p: Path, t: Tree, col: Color)
    requires t.Branch? && Formed(c, root, p, t)
    requires c' == c[t.node := c[t.node].(red := col.Red?)]
    ensures Formed(c', root, p, t.(color := col))
  {
    var t' := t.(color := col);
    assert Nodes(t') == Nodes(t);
    LinkedFrame(c, c', t.left, t.node);
    LinkedFrame(c, c', t.right, t.node);
    PathFrame(c, c', p, t.node, root);
  }

  lemma {:induction false} ZipForms(c: Cells, root: Node?, p: Path, t: Tree)
    requires Formed(c, root, p, t)
    ensures Formed(c, root, Top, Zip(p, t))
    decreases p
  {
    if p.Step? {
      MoveUp(c, root, p, t);
      ZipForms(c, root, p.up, Fill(p, t));
    }
  }

  /** The cells form the red-black tree `t`, whose nodes come in the given order. */
  ghost predicate Repaired(c: Cells, root: Node?, t: Tree, order: seq<Node>, f: Node?) {
    && Formed(c, root, Top, t)
    && Balanced(t, f) && !IsRed(t)
    && InOrder(t) == order
  }

  /** Closing a repaired subtree into the whole tree. */
  lemma FinishAt(c: Cells, root: Node?, p: Path, t: Tree, f: Node?) returns (done: Tree)
    requires Formed(c, root, p, t)
    requires Balanced(t, f) && PathBalanced(p, Bh(t), f) && (IsRed(t) ==> p.Step? && !TopRed(p))
    ensures done == Zip(p, t) && Repaired(c, root, done, Whole(p, t), f)
  {
    done := Zip(p, t);
    ZipForms(c, root, p, t);
    ZipInOrder(p, t);
    ZipBalanced(p, t, f);
  }

  // ----- insertion cases, as rewritings of the shape -----

  function Blacken(t: Tree): Tree
    requires t.Branch?
  {
    t.(color := Black)
  }

  function Redden(t: Tree): Tree
    requires t.Branch?
  {
    t.(color := Red)
  }

  ghost predicate RedRed(p: Path, t: Tree, f: Node?) {
    && Balanced(t, f) && IsRed(t) && PathBalanced(p, Bh(t), f)
    && p.Step? && p.color.Red? && p.up.Step?
  }

  lemma BlackenRoot(c: Cells, root: Node?, t: Tree, f: Node?)
    requires Balanced(t, f) && IsRed(t) && Formed(c, root, Top, Blacken(t))
    ensures Repaired(c, root, Blacken(t), Whole(Top, t), f)
  {
  }

  /** A red parent is not the root, and the grandparent is black. */
  lemma RedParent(p: Path, h: nat, f: Node?)
    requires PathBalanced(p, h, f) && TopRed(p)
    ensures p.up.Step? && p.up.color.Black?
    ensures Balanced(p.sib, f) && Bh(p.sib) == h && !IsRed(p.sib)
    ensures Balanced(p.up.sib, f) && Bh(p.up.sib) == h && PathBalanced(p.up.up, h + 1, f)
  {
    assert PathBalanced(p.up, h, f);
  }

  /** The grandparent of the hole after parent and uncle turned black and it turned red. */
  ghost function PushBlackDown(p: Path, t: Tree): Tree
    requires p.Step? && p.up.Step? && p.up.sib.Branch?
  {
    Redden(Fill(p.up.(sib := Blacken(p.up.sib)), Blacken(Fill(p, t))))
  }

  lemma PushBlackDownKeeps(p: Path, t: Tree, f: Node?)
    requires RedRed(p, t, f) && IsRed(p.up.sib)
    ensures var t' := PushBlackDown(p, t);
            && IsRed(t') && t'.node == p.up.node && Balanced(t', f) && PathBalanced(p.up.up, Bh(t'), f)
            && Whole(p.up.up, t') == Whole(p, t)
  {
    var up := p.up;
    assert Whole(p, t) == Whole(up, Fill(p, t)) by { WholeOfFill(p, t); }
    assert Whole(up, Fill(p, t)) == Whole(up.up, Fill(up, Fill(p, t))) by { WholeOfFill(up, Fill(p, t)); }
    assert InOrder(PushBlackDown(p, t)) == InOrder(Fill(up, Fill(p, t)));
    assert PathBalanced(up, Bh(t), f) && up.color.Black?;
    var tp := Blacken(Fill(p, t));
    assert Balanced(tp, f) && Bh(tp) == Bh(t) + 1;
    var u := Blacken(up.sib);
    assert Balanced(u, f) && Bh(u) == Bh(t) + 1;
  }

  /** A rotation keeps the order of the nodes. */
  lemma TurnOrder(up: Path, a: Tree, p: Node, x: Tree, g: Node, u: Tree, c0: Color, c1: Color, c2: Color, c3: Color)
    ensures Whole(up, Branch(a, p, c0, Branch(x, g, c1, u))) == Whole(up, Branch(Branch(a, p, c2, x), g, c3, u))
  {
    var right := Branch(x, g, c1, u);
    var left := Branch(a, p, c2, x);
    assert InOrder(right) == InOrder(x) + [g] + InOrder(u);
    assert InOrder(left) == InOrder(a) + [p] + InOrder(x);
    assert InOrder(Branch(a, p, c0, right)) == InOrder(a) + [p] + (InOrder(x) + [g] + InOrder(u));
    assert InOrder(Branch(left, g, c3, u)) == (InOrder(a) + [p] + InOrder(x)) + [g] + InOrder(u);
    assert InOrder(Branch(a, p, c0, right)) == InOrder(Branch(left, g, c3, u));
  }

  /** `n` above `g`, black above red: the end of insertion on the left side, and its mirror. */
  lemma RotatedKeeps(up: Path, a: Tree, p: Node, x: Tree, g: Node, u: Tree, f: Node?)
    requires Balanced(a, f) && Balanced(x, f) && Balanced(u, f) && Bh(a) == Bh(x) == Bh(u)
    requires PathBalanced(up, Bh(a) + 1, f)
    ensures IsRed(a) && !IsRed(x) && !IsRed(u) ==> Balanced(Branch(a, p, Black, Branch(x, g, Red, u)), f)
    ensures IsRed(u) && !IsRed(a) && !IsRed(x) ==> Balanced(Branch(Branch(a, p, Red, x), g, Black, u), f)
    ensures Bh(Branch(a, p, Black, Branch(x, g, Red, u))) == Bh(a) + 1
    ensures Bh(Branch(Branch(a, p, Red, x), g, Black, u)) == Bh(a) + 1
  {
  }

  // ----- removal cases, as rewritings of the shape -----

  /** A subtree that is balanced but for its root, which may be red below or above red. */
  ghost predicate Fixable(t: Tree, f: Node?) {
    && t.Branch?
    && Balanced(t.left, f) && Balanced(t.right, f) && Bh(t.left) == Bh(t.right)
    && (t.color.Fake? ==> t.node == f && t.left.Leaf? && t.right.Leaf?)
  }

  /** The focus on the sibling of the hole once the hole holds `t`. */
  function SibPath(p: Path, t: Tree): Path
    requires p.Step?
  {
    Step(p.up, !p.onLeft, p.node, p.color, t)
  }

  lemma SibFill(p: Path, t: Tree)
    requires p.Step?
    ensures Fill(SibPath(p, t), p.sib) == Fill(p, t)
  {
  }

  /** The hole is one black node short, so it has a black or red sibling. */
  ghost predicate Short(p: Path, t: Tree, f: Node?) {
    p.Step? && Balanced(t, f) && t.Branch? && !IsRed(t) && PathBalanced(p, Bh(t) + 1, f)
  }

  lemma ShortSibling(p: Path, t: Tree, f: Node?)
    requires Short(p, t, f)
    ensures p.sib.Branch? && !p.sib.color.Fake? && !p.color.Fake?
    ensures Balanced(p.sib, f) && Bh(p.sib) == Bh(t) + 1
    ensures Balanced(p.sib.left, f) && Balanced(p.sib.right, f) && Bh(p.sib.left) == Bh(p.sib.right)
    ensures IsRed(p.sib) ==> p.color.Black? && !IsRed(p.sib.left) && !IsRed(p.sib.right)
    ensures PathBalanced(p.up, Bh(t) + if p.color.Black? then 2 else 1, f)
    ensures p.color.Red? ==> p.up.Step? && !TopRed(p.up)
  {
  }

  /** Case 1 on the left: the red sibling has been rotated above the parent. */
  function AfterCase1(p: Path): Path
    requires p.Step? && p.sib.Branch?
  {
    if p.onLeft then Step(Step(p.up, true, p.sib.node, Black, p.sib.right), true, p.node, Red, p.sib.left)
    else Step(Step(p.up, false, p.sib.node, Black, p.sib.left), false, p.node, Red, p.sib.right)
  }

  lemma Case1Keeps(p: Path, t: Tree, f: Node?)
    requires Short(p, t, f) && IsRed(p.sib)
    ensures Short(AfterCase1(p), t, f) && !IsRed(AfterCase1(p).sib)
    ensures Whole(AfterCase1(p), t) == Whole(p, t)
  {
    hide Whole, InOrder;
    ShortSibling(p, t, f);
    assert PathBalanced(AfterCase1(p).up, Bh(t) + 1, f);
    Case1Order(p, t);
  }

  lemma Case1Order(p: Path, t: Tree)
    requires p.Step? && p.sib.Branch?
    ensures Whole(AfterCase1(p), t) == Whole(p, t)
  {
    var q, s := AfterCase1(p), p.sib;
    var l, r := InOrder(s.left), InOrder(s.right);
    assert InOrder(s) == l + [s.node] + r;
    if p.onLeft {
      assert After(p) == [p.node] + (l + [s.node] + r) + After(p.up);
      assert After(q) == [p.node] + l + ([s.node] + r + After(p.up));
      assert After(q) == After(p);
      assert Before(q) == Before(q.up) && Before(q.up) == Before(p);
    } else {
      assert Before(p) == Before(p.up) + (l + [s.node] + r) + [p.node];
      assert Before(q.up) == Before(p.up) + l + [s.node];
      assert Before(q) == (Before(p.up) + l + [s.node]) + r + [p.node];
      assert Before(q) == Before(p);
      assert After(q) == After(q.up);
      assert After(q) == After(p);
    }
    assert Whole(q, t) == Before(q) + InOrder(t) + After(q);
  }

  /** Case 2: the sibling turns red and the shortage moves up to the parent. */
  function AfterCase2(p: Path, t: Tree): Tree
    requires p.Step? && p.sib.Branch?
  {
    Fill(SibPath(p, t), Redden(p.sib))
  }

  lemma Case2Keeps(p: Path, t: Tree, f: Node?)
    requires Short(p, t, f) && !IsRed(p.sib) && !IsRed(p.sib.left) && !IsRed(p.sib.right)
    ensures Fixable(AfterCase2(p, t), f) && PathBalanced(p.up, Bh(AfterCase2(p, t)) + 1, f)
    ensures Whole(p.up, AfterCase2(p, t)) == Whole(p, t)
  {
    ShortSibling(p, t, f);
    assert Balanced(Redden(p.sib), f) && Bh(Redden(p.sib)) == Bh(t);
    assert InOrder(Redden(p.sib)) == InOrder(p.sib);
    WholeOfFill(p, t);
    assert InOrder(AfterCase2(p, t)) == InOrder(Fill(p, t));
  }

  /** Case 3: the sibling's red inner child has been rotated above it. */
  function AfterCase3(p: Path): Path
    requires p.Step? && p.sib.Branch? && (if p.onLeft then p.sib.left else p.sib.right).Branch?
  {
    var s := p.sib;
    p.(sib := if p.onLeft
      then Branch(s.left.left, s.left.node, Black, Branch(s.left.right, s.node, Red, s.right))
      else Branch(Branch(s.left, s.node, Red, s.right.left), s.right.node, Black, s.right.right))
  }

  function Inner(p: Path): Tree
    requires p.Step? && p.sib.Branch?
  {
    if p.onLeft then p.sib.left else p.sib.right
  }

  function Outer(p: Path): Tree
    requires p.Step? && p.sib.Branch?
  {
    if p.onLeft then p.sib.right else p.sib.left
  }

  lemma Case3Keeps(p: Path, t: Tree, f: Node?)
    requires Short(p, t, f) && !IsRed(p.sib) && IsRed(Inner(p)) && !IsRed(Outer(p))
    ensures Short(AfterCase3(p), t, f) && !IsRed(AfterCase3(p).sib) && IsRed(Outer(AfterCase3(p)))
    ensures Whole(AfterCase3(p), t) == Whole(p, t)
  {
    hide Whole, InOrder, Before, After;
    ShortSibling(p, t, f);
    var q, x := AfterCase3(p), Inner(p);
    assert Balanced(x.left, f) && Balanced(x.right, f);
    assert Balanced(Outer(q), f) && Bh(Outer(q)) == Bh(t);
    assert Balanced(q.sib, f) && Bh(q.sib) == Bh(t) + 1;
    Case3Order(p, t);
  }

  lemma Case3Order(p: Path, t: Tree)
    requires p.Step? && p.sib.Branch? && Inner(p).Branch?
    ensures Whole(AfterCase3(p), t) == Whole(p, t)
  {
    var q, s, x := AfterCase3(p), p.sib, Inner(p);
    assert InOrder(q.sib) == InOrder(s) by {
      hide InOrder, Whole;
      WholeTop(q.sib);
      WholeTop(s);
      if p.onLeft {
        TurnOrder(Top, x.left, x.node, x.right, s.node, s.right, Black, Red, x.color, s.color);
      } else {
        TurnOrder(Top, s.left, s.node, x.left, x.node, x.right, s.color, x.color, Red, Black);
      }
    }
    hide InOrder;
  }

  /** Case 4: the sibling, with a red outer child, has been rotated above the parent. */
  function AfterCase4(p: Path, t: Tree): Tree
    requires p.Step? && p.sib.Branch? && Outer(p).Branch?
  {
    var s := p.sib;
    if p.onLeft then Branch(Branch(t, p.node, Black, s.left), s.node, p.color, Blacken(s.right))
    else Branch(Blacken(s.left), s.node, p.color, Branch(s.right, p.node, Black, t))
  }

  lemma Case4Keeps(p: Path, t: Tree, f: Node?)
    requires Short(p, t, f) && !IsRed(p.sib) && IsRed(Outer(p))
    ensures var r := AfterCase4(p, t);
            && Balanced(r, f) && PathBalanced(p.up, Bh(r), f) && (IsRed(r) ==> p.up.Step? && !TopRed(p.up))
            && Whole(p.up, r) == Whole(p, t)
  {
    ShortSibling(p, t, f);
    var s, y := p.sib, Outer(p);
    assert Balanced(Blacken(y), f) && Bh(Blacken(y)) == Bh(t) + 1;
    var low := if p.onLeft then Branch(t, p.node, Black, s.left) else Branch(s.right, p.node, Black, t);
    assert Balanced(low, f) && Bh(low) == Bh(t) + 1;
    WholeOfFill(p, t);
    assert InOrder(Blacken(y)) == InOrder(y);
    if p.onLeft {
      TurnOrder(p.up, t, p.node, s.left, s.node, y, p.color, s.color, Black, p.color);
      assert InOrder(AfterCase4(p, t)) == InOrder(Branch(low, s.node, p.color, y));
    } else {
      TurnOrder(p.up, y, s.node, s.right, p.node, t, p.color, Black, s.color, p.color);
      assert InOrder(AfterCase4(p, t)) == InOrder(Branch(y, s.node, p.color, low));
    }
  }

  /** `s` hangs directly below the node `q` somewhere in `t`. */
  ghost predicate Under(t: Tree, q: Node, s: Tree)
    decreases t
  {
    t.Branch? && ((t.node == q && (t.left == s || t.right == s)) || Under(t.left, q, s) || Under(t.right, q, s))
  }

  lemma {:induction false} UnderUnder(t: Tree, q: Node, s: Tree, q': Node, s': Tree)
    requires Under(t, q, s) && Under(s, q', s')
    ensures Under(t, q', s')
    decreases t
  {
    if t.node == q && (t.left == s || t.right == s) {
    } else if Under(t.left, q, s) {
      UnderUnder(t.left, q, s, q', s');
    } else {
      UnderUnder(t.right, q, s, q', s');
    }
  }

  lemma {:induction false} UnderZip(p: Path, t: Tree, q: Node, s: Tree)
    requires Under(t, q, s)
    ensures Under(Zip(p, t), q, s)
    decreases p
  {
    if p.Step? {
      UnderZip(p.up, Fill(p, t), q, s);
    }
  }

  function Depth(p: Path): nat {
    if p.Top? then 0 else 1 + Depth(p.up)
  }

  /** One round of rb_remove_fixup: either the shortage moved up to `p`, or it is paid. */
  ghost predicate Stepped(c: Cells, root: Node?, again: bool, p: Node, path: Path, t: Tree, path': Path, t': Tree, f: Node?) {
    && Formed(c, root, path', t') && Whole(path', t') == Whole(path, t)
    && Under(t', p, t)
    && (again ==> t'.Branch? && t'.node == p && Fixable(t', f) && PathBalanced(path', Bh(t') + 1, f)
                  && (IsRed(t') || Depth(path') < Depth(path)))
    && (!again ==> Balanced(t', f) && PathBalanced(path', Bh(t'), f) && (IsRed(t') ==> path'.Step? && !TopRed(path')))
  }

  lemma SteppedBy(c: Cells, root: Node?, again: bool, p: Node, path: Path, q: Path, t: Tree, path': Path, t': Tree, f: Node?)
    requires path.Step? && q.Step? && p == q.node && q.sib.Branch? && path' == q.up && Formed(c, root, path', t')
    requires Whole(path', t') == Whole(q, t) == Whole(path, t)
    requires again ==> t' == AfterCase2(q, t) && Fixable(t', f) && PathBalanced(path', Bh(t') + 1, f)
                       && (IsRed(t') || q.up == path.up)
    requires !again ==> Outer(q).Branch? && t' == AfterCase4(q, t) && Balanced(t', f) && PathBalanced(path', Bh(t'), f)
                        && (IsRed(t') ==> path'.Step? && !TopRed(path'))
    ensures Stepped(c, root, again, p, path, t, path', t', f)
  {
    if again {
      assert (if q.onLeft then t'.left else t'.right) == t;
    } else {
      var s := q.sib;
      if q.onLeft {
        assert Under(t'.left, p, t);
      } else {
        assert Under(t'.right, p, t);
      }
    }
  }

  lemma FixableBranch(t: Tree, f: Node?)
    requires Fixable(t, f)
    ensures t.Branch?
  {
  }

  lemma FixableShort(p: Path, t: Tree, f: Node?)
    requires p.Step? && Fixable(t, f) && !IsRed(t) && PathBalanced(p, Bh(t) + 1, f)
    ensures Short(p, t, f)
  {
  }

  lemma SiblingCells(c: Cells, root: Node?, p: Path, t: Tree)
    requires Formed(c, root, p, t) && p.Step? && p.sib.Branch?
    ensures p.sib.node in c
    ensures c[p.sib.node] == Cell(p.node, p.sib.color.Red?, Root(p.sib.left), Root(p.sib.right))
    ensures p.sib.left.Branch? ==> p.sib.left.node in c && c[p.sib.left.node].red == p.sib.left.color.Red?
    ensures p.sib.right.Branch? ==> p.sib.right.node in c && c[p.sib.right.node].red == p.sib.right.color.Red?
  {
    assert Linked(c, p.sib, p.node);
    assert Linked(c, p.sib.left, p.sib.node) && Linked(c, p.sib.right, p.sib.node);
  }

  lemma FinishRed(c: Cells, root: Node?, p: Path, t: Tree, f: Node?) returns (done: Tree)
    requires t.Branch? && Formed(c, root, p, Blacken(t)) && Fixable(t, f) && IsRed(t) && PathBalanced(p, Bh(t) + 1, f)
    ensures done == Zip(p, Blacken(t)) && Repaired(c, root, done, Whole(p, t), f)
  {
    done := FinishAt(c, root, p, Blacken(t), f);
    assert InOrder(Blacken(t)) == InOrder(t);
  }

  lemma FinishTop(c: Cells, root: Node?, t: Tree, f: Node?)
    requires Formed(c, root, Top, t) && Fixable(t, f) && !IsRed(t)
    ensures Repaired(c, root, t, Whole(Top, t), f)
  {
    assert Whole(Top, t) == InOrder(t);
  }

  lemma FinishUnder(p: Path, t: Tree, path0: Path, t0: Tree)
    requires path0.Step? && t.Branch? && IsRed(t)
    requires t0.Branch? && t0.color.Fake? ==> (p == path0 && t == t0) || Under(t, path0.node, t0)
    ensures t0.Branch? && t0.color.Fake? ==> Under(Zip(p, Blacken(t)), path0.node, t0)
  {
    if t0.Branch? && t0.color.Fake? {
      assert Under(Blacken(t), path0.node, t0);
      UnderZip(p, Blacken(t), path0.node, t0);
    }
  }

  lemma AfterStep(c: Cells, root: Node?, again: bool, p: Node, path: Path, t: Tree, path': Path, t': Tree,
                  path0: Path, t0: Tree, f: Node?) returns (done: Tree)
    requires Stepped(c, root, again, p, path, t, path', t', f)
    requires path.Step? && p == path.node && path0.Step? && t0.Branch?
    requires t0.color.Fake? ==> (path == path0 && t == t0) || Under(t, path0.node, t0)
    ensures again ==> Formed(c, root, path', t') && Whole(path', t') == Whole(path, t)
                      && t'.Branch? && t'.node == p && Fixable(t', f) && PathBalanced(path', Bh(t') + 1, f)
                      && (IsRed(t') || Depth(path') < Depth(path))
                      && (t0.color.Fake? ==> Under(t', path0.node, t0))
    ensures !again ==> Repaired(c, root, done, Whole(path, t), f) && (t0.color.Fake? ==> Under(done, path0.node, t0))
  {
    done := t';
    if t0.color.Fake? && !(path == path0 && t == t0) {
      UnderUnder(t', p, t, path0.node, t0);
    }
    if !again {
      done := FinishAt(c, root, path', t', f);
      if t0.color.Fake? {
        UnderZip(path', t', path0.node, t0);
      }
    }
  }

  /** What the program reads before it rotates `n` above `p`: `y` is the subtree that changes sides. */
  ghost predicate RotationFacts(c: Cells, up: Path, p: Node, n: Node, y: Node?) {
    && p in c && n in c && p != n
    && c[p].parent == Hook(up) && c[n].parent == p
    && (y != null ==> y in c && y != n && y != p && y != Hook(up))
    && (up.Step? ==> up.node in c && up.node != n && up.node != p
                     && c[up.node] == FrameCell(up, p) && Root(up.sib) != p)
  }

  lemma RotationReads(c: Cells, up: Path, p: Node, n: Node, y: Node?)
    requires RotationFacts(c, up, p, n, y)
    ensures p in c && n in c && p != n && c[n].parent == p && c[p].parent == Hook(up)
    ensures up.Step? ==> up.node in c && up.node != n && up.node != p && c[up.node] == FrameCell(up, p) && Root(up.sib) != p
    ensures y != null ==> y in c && y != n && y != p
  {
  }

  /** The cells after the upper half of a rotation. */
  ghost predicate HalfRotated(c: Cells, c': Cells, up: Path, p: Node, n: Node)
    requires n in c
  {
    var d := c[n := c[n].(parent := Hook(up))];
    c' == if up.Top? then d else d[up.node := FrameCell(up, n)]
  }

  lemma RelinkHalf(c: Cells, c': Cells, up: Path, p: Node, n: Node, y: Node?)
    requires RotationFacts(c, up, p, n, y) && HalfRotated(c, c', up, p, n)
    ensures c'.Keys == c.Keys && c'[p] == c[p] && c'[n] == c[n].(parent := Hook(up))
    ensures y != null ==> c'[y] == c[y]
  {
  }

  lemma RelinkDoneLeft(c: Cells, c1: Cells, c': Cells, up: Path, p: Node, n: Node, y: Node?)
    requires RotationFacts(c, up, p, n, y) && HalfRotated(c, c1, up, p, n) && c'.Keys == c1.Keys == c.Keys
    requires c'[n] == c1[n].(left := p) && c'[p] == c1[p].(parent := n, right := y)
    requires y != null ==> c'[y] == c1[y].(parent := p)
    requires SameOn(c1, c', c'.Keys - {n, p, y})
    ensures RotatedLeft(c, c', n, p, y, Hook(up))
    ensures up.Step? ==> c'[up.node] == FrameCell(up, n)
  {
  }

  lemma RelinkDoneRight(c: Cells, c1: Cells, c': Cells, up: Path, p: Node, n: Node, y: Node?)
    requires RotationFacts(c, up, p, n, y) && HalfRotated(c, c1, up, p, n) && c'.Keys == c1.Keys == c.Keys
    requires c'[n] == c1[n].(right := p) && c'[p] == c1[p].(parent := n, left := y)
    requires y != null ==> c'[y] == c1[y].(parent := p)
    requires SameOn(c1, c', c'.Keys - {n, p, y})
    ensures RotatedRight(c, c', n, p, y, Hook(up))
    ensures up.Step? ==> c'[up.node] == FrameCell(up, n)
  {
  }

  lemma LeftFacts(c: Cells, root: Node?, up: Path, x: Tree, p: Node, pc: Color, y: Tree, n: Node, nc: Color, z: Tree)
    requires Formed(c, root, up, Branch(x, p, pc, Branch(y, n, nc, z)))
    ensures RotationFacts(c, up, p, n, Root(y))
    ensures c[n].left == Root(y) && (up.Top? ==> root == p)
  {
    var inner := Branch(y, n, nc, z);
    assert Linked(c, inner, p) && Distinct(inner);
    assert n in Nodes(inner) && Nodes(y) <= Nodes(inner);
    assert Root(y) != null ==> Root(y) in Nodes(y) && Linked(c, y, n);
    assert Hook(up) != null ==> Hook(up) in PathNodes(up);
    assert up.Step? && up.sib.Branch? ==> Root(up.sib) in Nodes(up.sib) && Nodes(up.sib) <= PathNodes(up);
  }

  lemma RightFacts(c: Cells, root: Node?, up: Path, x: Tree, n: Node, nc: Color, y: Tree, p: Node, pc: Color, z: Tree)
    requires Formed(c, root, up, Branch(Branch(x, n, nc, y), p, pc, z))
    ensures RotationFacts(c, up, p, n, Root(y))
    ensures c[n].right == Root(y) && (up.Top? ==> root == p)
  {
    var inner := Branch(x, n, nc, y);
    assert Linked(c, inner, p) && Distinct(inner);
    assert n in Nodes(inner) && Nodes(y) <= Nodes(inner);
    assert Root(y) != null ==> Root(y) in Nodes(y) && Linked(c, y, n);
    assert Hook(up) != null ==> Hook(up) in PathNodes(up);
    assert up.Step? && up.sib.Branch? ==> Root(up.sib) in Nodes(up.sib) && Nodes(up.sib) <= PathNodes(up);
  }

  ghost predicate RotatedRight(c: Cells, c': Cells, n: Node, p: Node, y: Node?, hook: Node?) {
    && n in c && p in c && n in c' && p in c'
    && c'[n] == c[n].(parent := c[p].parent, right := p)
    && c'[p] == c[p].(parent := n, left := y)
    && (y != null ==> y in c && y in c' && c'[y] == c[y].(parent := p))
    && SameOn(c, c', c.Keys - {n, p, y, hook})
  }

  lemma RotateRightForms(c: Cells, root: Node?, c': Cells, root': Node?, up: Path, x: Tree, n: Node, nc: Color,
                         y: Tree, p: Node, pc: Color, z: Tree)
    requires Formed(c, root, up, Branch(Branch(x, n, nc, y), p, pc, z))
    requires RotatedRight(c, c', n, p, Root(y), Hook(up))
    requires if up.Top? then root' == n else up.node in c' && c'[up.node] == FrameCell(up, n) && root' == root
    ensures Formed(c', root', up, Branch(x, n, nc, Branch(y, p, pc, z)))
  {
    var inner := Branch(x, n, nc, y);
    var inner' := Branch(y, p, pc, z);
    var t := Branch(inner, p, pc, z);
    assert Linked(c, inner, p) && Distinct(inner);
    assert Nodes(inner) == Nodes(x) + {n} + Nodes(y);
    assert Nodes(inner') == Nodes(y) + {p} + Nodes(z);
    assert Nodes(t) == Nodes(inner) + {p} + Nodes(z);
    assert Nodes(Branch(x, n, nc, inner')) == Nodes(t);
    assert Root(y) != null ==> Root(y) in Nodes(y);
    assert Hook(up) != null ==> Hook(up) in PathNodes(up);
    LinkedFrame(c, c', x, n);
    LinkedFrame(c, c', z, p);
    Reparented(c, c', y, n, p);
    Rehung(c, c', up, p, n, root, root');
  }

  // ----- exchanging two nodes: a renaming of the whole structure -----

  function Swap(m: Node, a: Node, b: Node): Node {
    if m == a then b else if m == b then a else m
  }

  function SwapRef(m: Node?, a: Node, b: Node): Node? {
    if m == null then null else Swap(m, a, b)
  }

  function SwapCell(c: Cell, a: Node, b: Node): Cell {
    Cell(SwapRef(c.parent, a, b), c.red, SwapRef(c.left, a, b), SwapRef(c.right, a, b))
  }

  ghost function SwapTree(t: Tree, a: Node, b: Node): Tree {
    match t
    case Leaf => Leaf
    case Branch(l, n, c, r) => Branch(SwapTree(l, a, b), Swap(n, a, b), c, SwapTree(r, a, b))
  }

  ghost function SwapPath(p: Path, a: Node, b: Node): Path {
    match p
    case Top => Top
    case Step(up, d, n, c, sib) => Step(SwapPath(up, a, b), d, Swap(n, a, b), c, SwapTree(sib, a, b))
  }

  ghost function SwapSeq(s: seq<Node>, a: Node, b: Node): (r: seq<Node>)
    ensures |r| == |s| && forall i :: 0 <= i < |s| ==> r[i] == Swap(s[i], a, b)
  {
    if s == [] then [] else [Swap(s[0], a, b)] + SwapSeq(s[1..], a, b)
  }

  /** The cells with the two nodes in each other's place. */
  ghost predicate Exchanged(c: Cells, c': Cells, a: Node, b: Node) {
    forall m :: m in c ==> Swap(m, a, b) in c' && c'[Swap(m, a, b)] == SwapCell(c[m], a, b)
  }

  lemma {:induction false} SwapNodes(t: Tree, a: Node, b: Node)
    ensures forall m :: m in Nodes(t) <==> Swap(m, a, b) in Nodes(SwapTree(t, a, b))
    ensures Distinct(t) ==> Distinct(SwapTree(t, a, b))
  {
    if t.Branch? {
      SwapNodes(t.left, a, b);
      SwapNodes(t.right, a, b);
      var t' := SwapTree(t, a, b);
      if Distinct(t) {
        forall m | m in Nodes(t'.left) ensures m !in Nodes(t'.right) && m != t'.node {
          assert Swap(Swap(m, a, b), a, b) == m;
        }
        forall m | m in Nodes(t'.right) ensures m != t'.node {
          assert Swap(Swap(m, a, b), a, b) == m;
        }
      }
    }
  }

  lemma {:induction false} SwapPathNodes(p: Path, a: Node, b: Node)
    ensures forall m :: m in PathNodes(p) <==> Swap(m, a, b) in PathNodes(SwapPath(p, a, b))
    ensures PathDistinct(p) ==> PathDistinct(SwapPath(p, a, b))
  {
    if p.Step? {
      SwapPathNodes(p.up, a, b);
      SwapNodes(p.sib, a, b);
      var p' := SwapPath(p, a, b);
      if PathDistinct(p) {
        forall m | m in Nodes(p'.sib) ensures m !in PathNodes(p'.up) && m != p'.node {
          assert Swap(Swap(m, a, b), a, b) == m;
        }
        forall m | m in PathNodes(p'.up) ensures m != p'.node {
          assert Swap(Swap(m, a, b), a, b) == m;
        }
      }
    }
  }

  lemma {:induction false} SwapLinked(c: Cells, c': Cells, t: Tree, parent: Node?, a: Node, b: Node)
    requires Exchanged(c, c', a, b) && Linked(c, t, parent)
    ensures Linked(c', SwapTree(t, a, b), SwapRef(parent, a, b))
  {
    if t.Branch? {
      SwapLinked(c, c', t.left, t.node, a, b);
      SwapLinked(c, c', t.right, t.node, a, b);
    }
  }

  lemma {:induction false} SwapPathLinked(c: Cells, c': Cells, p: Path, hole: Node?, root: Node?, a: Node, b: Node)
    requires Exchanged(c, c', a, b) && PathLinked(c, p, hole, root)
    ensures PathLinked(c', SwapPath(p, a, b), SwapRef(hole, a, b), SwapRef(root, a, b))
  {
    if p.Step? {
      SwapLinked(c, c', p.sib, p.node, a, b);
      SwapPathLinked(c, c', p.up, p.node, root, a, b);
    }
  }

  lemma ExchangeForms(c: Cells, c': Cells, root: Node?, p: Path, t: Tree, a: Node, b: Node)
    requires Formed(c, root, p, t) && Exchanged(c, c', a, b)
    ensures Formed(c', SwapRef(root, a, b), SwapPath(p, a, b), SwapTree(t, a, b))
  {
    SwapNodes(t, a, b);
    SwapPathNodes(p, a, b);
    SwapLinked(c, c', t, Hook(p), a, b);
    SwapPathLinked(c, c', p, Root(t), root, a, b);
    forall m | m in Nodes(SwapTree(t, a, b)) ensures m !in PathNodes(SwapPath(p, a, b)) {
      assert Swap(Swap(m, a, b), a, b) == m;
    }
  }

  lemma {:induction false} SwapBalanced(t: Tree, a: Node, b: Node)
    requires Balanced(t, null)
    ensures Balanced(SwapTree(t, a, b), null) && Bh(SwapTree(t, a, b)) == Bh(t) && IsRed(SwapTree(t, a, b)) == IsRed(t)
  {
    if t.Branch? {
      SwapBalanced(t.left, a, b);
      SwapBalanced(t.right, a, b);
    }
  }

  lemma {:induction false} SwapPathBalanced(p: Path, h: nat, a: Node, b: Node)
    requires PathBalanced(p, h, null)
    ensures PathBalanced(SwapPath(p, a, b), h, null) && TopRed(SwapPath(p, a, b)) == TopRed(p)
  {
    if p.Step? {
      SwapBalanced(p.sib, a, b);
      SwapPathBalanced(p.up, h + if p.color.Black? then 1 else 0, a, b);
    }
  }

  lemma SwapSeqAppend(s: seq<Node>, t: seq<Node>, a: Node, b: Node)
    ensures SwapSeq(s + t, a, b) == SwapSeq(s, a, b) + SwapSeq(t, a, b)
  {
  }

  lemma {:induction false} SwapInOrder(t: Tree, a: Node, b: Node)
    ensures InOrder(SwapTree(t, a, b)) == SwapSeq(InOrder(t), a, b)
  {
    if t.Branch? {
      SwapInOrder(t.left, a, b);
      SwapInOrder(t.right, a, b);
      SwapSeqAppend(InOrder(t.left) + [t.node], InOrder(t.right), a, b);
      SwapSeqAppend(InOrder(t.left), [t.node], a, b);
    }
  }

  lemma {:induction false} SwapOrder(p: Path, a: Node, b: Node)
    ensures Before(SwapPath(p, a, b)) == SwapSeq(Before(p), a, b)
    ensures After(SwapPath(p, a, b)) == SwapSeq(After(p), a, b)
  {
    if p.Step? {
      SwapOrder(p.up, a, b);
      SwapInOrder(p.sib, a, b);
      if p.onLeft {
        SwapSeqAppend([p.node] + InOrder(p.sib), After(p.up), a, b);
        SwapSeqAppend([p.node], InOrder(p.sib), a, b);
      } else {
        SwapSeqAppend(Before(p.up) + InOrder(p.sib), [p.node], a, b);
        SwapSeqAppend(Before(p.up), InOrder(p.sib), a, b);
      }
    }
  }

  // ----- pointers agree in both directions -----

  ghost predicate ChildBack(c: Cells, m: Node, child: Node?)
  {
    child != null ==> child in c && c[child].parent == m && child != m
  }

  ghost predicate ParentBack(c: Cells, m: Node)
    requires m in c
  {
    var p := c[m].parent;
    p != null ==> p in c && p != m && (c[p].left == m || c[p].right == m)
  }

  ghost predicate Consistent(c: Cells, root: Node?) {
    forall m :: m in c ==>
      && ChildBack(c, m, c[m].left) && ChildBack(c, m, c[m].right) && ParentBack(c, m)
      && (c[m].left != null ==> c[m].left != c[m].right)
      && (root == m <==> c[m].parent == null)
  }

  lemma {:induction false} LinkedConsistent(c: Cells, t: Tree, parent: Node?)
    requires Linked(c, t, parent) && Distinct(t) && parent !in Nodes(t)
    ensures Nodes(t) <= c.Keys
    ensures forall m :: m in Nodes(t) ==>
              && ChildBack(c, m, c[m].left) && ChildBack(c, m, c[m].right)
              && (c[m].left != null ==> c[m].left != c[m].right)
              && (m != Root(t) ==> ParentBack(c, m) && c[m].parent != null)
  {
    if t.Branch? {
      LinkedConsistent(c, t.left, t.node);
      LinkedConsistent(c, t.right, t.node);
      assert Nodes(t) == Nodes(t.left) + {t.node} + Nodes(t.right);
      assert t.left.Branch? ==> t.left.node in Nodes(t.left) && c[t.left.node].parent == t.node;
      assert t.right.Branch? ==> t.right.node in Nodes(t.right) && c[t.right.node].parent == t.node;
    }
  }

  lemma ShapeConsistent(c: Cells, root: Node?, t: Tree)
    requires Formed(c, root, Top, t) && c.Keys == Nodes(t)
    ensures Consistent(c, root)
  {
    LinkedConsistent(c, t, null);
  }

  // ----- rb_exchange on cells -----

  /** `c` where the link of `p` to `from` leads to `to`. */
  function Redirected(c: Cell, from: Node, to: Node): Cell {
    if c.left == from then c.(left := to) else c.(right := to)
  }

  /** The nodes are in the situation in which rb_remove exchanges them: `s` lies below `v`'s right child. */
  ghost predicate ToExchange(c: Cells, root: Node?, v: Node, s: Node) {
    && Consistent(c, root) && v in c && s in c && v != s
    && c[v].left != null && c[v].right != null && c[s].left == null
    && c[s].parent != null && c[s].parent != c[v].parent
    && c[v].left != s && c[v].parent != s && c[s].right != v
  }

  /** The cell of `m` after the links from above have been redirected. */
  function HalfCell(c: Cells, v: Node, s: Node, m: Node): Cell
    requires v in c && s in c && m in c
  {
    if m == c[v].parent then Redirected(c[m], v, s)
    else if m == c[s].parent then Redirected(c[m], s, v)
    else c[m]
  }

  ghost predicate HalfExchanged(c: Cells, root: Node?, c1: Cells, root1: Node?, v: Node, s: Node) {
    && v in c && s in c && c1.Keys == c.Keys
    && root1 == (if c[v].parent == null then s else root)
    && forall m :: m in c ==> c1[m] == HalfCell(c, v, s, m)
  }

  /** The cell of `m` after `k` has taken over the fields `f` and re-parented its children. */
  function Adopted(c: Cells, k: Node, f: Cell, m: Node): Cell
    requires m in c
  {
    if m == k then f else if m == f.left || m == f.right then c[m].(parent := k) else c[m]
  }

  lemma AdoptedBySteps(c: Cells, c0: Cells, c1: Cells, c2: Cells, m: Node, f: Cell)
    requires m in c && (f.left != null ==> f.left in c && f.left != m && f.left != f.right)
    requires f.right != null ==> f.right in c && f.right != m
    requires c0 == c[m := c[m].(parent := f.parent, red := f.red)]
    requires var d := c0[m := c0[m].(left := f.left)];
             c1 == if f.left == null then d else d[f.left := d[f.left].(parent := m)]
    requires var d := c1[m := c1[m].(right := f.right)];
             c2 == if f.right == null then d else d[f.right := d[f.right].(parent := m)]
    ensures c2.Keys == c.Keys
    ensures forall k :: k in c ==> c2[k] == Adopted(c, m, f, k)
  {
  }

  /** One node seen before and after the exchange: `h` cells half way, `x` after `v` took over. */
  ghost predicate FieldsSwapped(c1: Cells, c2: Cells, v: Node, s: Node) {
    && v in c1 && s in c1 && c2.Keys == c1.Keys
    && forall m :: m in c1 ==> c2[m] == SwappedCell(c1, v, s, m)
  }

  function SwappedCell(c1: Cells, v: Node, s: Node, m: Node): Cell
    requires v in c1 && s in c1 && m in c1
  {
    if m == s then c1[v]
    else
      var k := Adopted(c1, v, c1[s], m);
      if m == c1[v].left || m == c1[v].right then k.(parent := s) else k
  }

  lemma ExchangeFacts(c: Cells, root: Node?, v: Node, s: Node)
    requires ToExchange(c, root, v, s)
    ensures c[s].parent == v <==> c[v].right == s
    ensures c[v].left in c && c[v].right in c && c[v].left != v && c[v].left != c[v].right && c[v].right != v
    ensures c[s].right != null ==> c[s].right in c && c[s].right != s && c[s].right != c[v].left && c[s].right != c[v].right
    ensures c[s].parent in c && (c[v].parent != null ==> c[v].parent in c)
    ensures c[v].parent != v && c[s].parent != s
    ensures c[v].parent != null ==> c[c[v].parent].left == v || c[c[v].parent].right == v
    ensures c[c[s].parent].left == s || c[c[s].parent].right == s
    ensures v != s && v in c && s in c && c[s].left == null && c[v].left != null && c[v].right != null
    ensures c[s].right != v && c[v].left != s && c[s].parent != c[v].parent && c[v].parent != s
  {
    assert ChildBack(c, v, c[v].left) && ChildBack(c, v, c[v].right) && ParentBack(c, v);
    assert ChildBack(c, s, c[s].right) && ParentBack(c, s);
  }

  /** Which links of another node `m` lead to `v` or `s`. */
  ghost predicate Neighbour(c: Cells, v: Node, s: Node, m: Node)
    requires v in c && s in c && m in c
  {
    var k := c[m];
    && (k.left != null ==> k.left != k.right)
    && (m == c[v].parent <==> k.left == v || k.right == v)
    && (m == c[s].parent <==> k.left == s || k.right == s)
    && (k.parent == v <==> m == c[v].left || m == c[v].right)
    && (k.parent == s <==> m == c[s].right)
  }

  lemma ExchangeNeighbour(c: Cells, root: Node?, v: Node, s: Node, m: Node)
    requires ToExchange(c, root, v, s) && m in c && m != v && m != s
    ensures Neighbour(c, v, s, m)
  {
    ExchangeFacts(c, root, v, s);
    var k := c[m];
    assert ChildBack(c, m, k.left) && ChildBack(c, m, k.right) && ParentBack(c, m);
    assert ChildBack(c, v, c[v].left) && ChildBack(c, v, c[v].right) && ParentBack(c, v);
    assert ChildBack(c, s, c[s].right) && ParentBack(c, s);
  }

  lemma ExchangeAt(c: Cells, root: Node?, c1: Cells, v: Node, s: Node, m: Node)
    requires ToExchange(c, root, v, s) && m in c && m != v && m != s
    requires v in c1 && s in c1 && m in c1 && c1[m] == HalfCell(c, v, s, m)
    requires c1[s] == c[s] && c1[v] == if c[s].parent == v then c[v].(right := v) else c[v]
    ensures SwappedCell(c1, v, s, m) == SwapCell(c[m], v, s)
  {
    hide ToExchange, Consistent;
    ExchangeFacts(c, root, v, s);
    ExchangeNeighbour(c, root, v, s, m);
  }

  lemma HalvesMakeExchange(c: Cells, root: Node?, c1: Cells, root1: Node?, c2: Cells, v: Node, s: Node)
    requires ToExchange(c, root, v, s)
    requires HalfExchanged(c, root, c1, root1, v, s) && FieldsSwapped(c1, c2, v, s)
    ensures Exchanged(c, c2, v, s) && root1 == SwapRef(root, v, s)
  {
    hide ToExchange, HalfCell, SwappedCell, ChildBack, ParentBack, Adopted, SwapCell;
    ExchangeReady(c, root, c1, root1, v, s);
    forall m | m in c ensures Swap(m, v, s) in c2 && c2[Swap(m, v, s)] == SwapCell(c[m], v, s) {
      if m == v {
        ExchangeAtEnds(c, root, c1, v, s);
      } else if m == s {
        ExchangeAtEnds(c, root, c1, v, s);
      } else {
        ExchangeAt(c, root, c1, v, s, m);
      }
    }
    ExchangeRoot(c, root, v, s);
  }

  lemma ExchangeRoot(c: Cells, root: Node?, v: Node, s: Node)
    requires ToExchange(c, root, v, s)
    ensures (if c[v].parent == null then s else root) == SwapRef(root, v, s)
  {
  }

  lemma ExchangeAtEnds(c: Cells, root: Node?, c1: Cells, v: Node, s: Node)
    requires ToExchange(c, root, v, s) && v in c1 && s in c1
    requires c1[s] == c[s] && c1[v] == if c[s].parent == v then c[v].(right := v) else c[v]
    ensures SwappedCell(c1, v, s, s) == SwapCell(c[v], v, s)
    ensures SwappedCell(c1, v, s, v) == SwapCell(c[s], v, s)
  {
    ExchangeFacts(c, root, v, s);
  }

  lemma ExchangeReady(c: Cells, root: Node?, c1: Cells, root1: Node?, v: Node, s: Node)
    requires ToExchange(c, root, v, s) && HalfExchanged(c, root, c1, root1, v, s)
    ensures v in c1 && s in c1
    ensures c1[s] == c[s]
    ensures c1[v] == if c[s].parent == v then c[v].(right := v) else c[v]
  {
    ExchangeFacts(c, root, v, s);
    assert c1[s] == HalfCell(c, v, s, s);
    assert c1[v] == HalfCell(c, v, s, v);
  }

  // ----- finding a place in the tree -----

  /** A focus on a red-black tree. */
  ghost predicate At(c: Cells, root: Node?, p: Path, t: Tree, f: Node?) {
    && Formed(c, root, p, t)
    && Balanced(t, f) && PathBalanced(p, Bh(t), f) && (IsRed(t) ==> p.Step? && !TopRed(p))
  }

  lemma AtChildren(c: Cells, root: Node?, p: Path, t: Tree, f: Node?)
    requires At(c, root, p, t, f) && t.Branch? && !t.color.Fake?
    ensures var l := Step(p, true, t.node, t.color, t.right);
            At(c, root, l, t.left, f) && Whole(l, t.left) == Whole(p, t)
            && PathNodes(l) + Nodes(t.left) == PathNodes(p) + Nodes(t)
    ensures var r := Step(p, false, t.node, t.color, t.left);
            At(c, root, r, t.right, f) && Whole(r, t.right) == Whole(p, t)
            && PathNodes(r) + Nodes(t.right) == PathNodes(p) + Nodes(t)
  {
    hide Formed;
    var l := Step(p, true, t.node, t.color, t.right);
    var r := Step(p, false, t.node, t.color, t.left);
    MoveDown(c, root, l, t.left);
    MoveDown(c, root, r, t.right);
  }

  lemma {:induction false} Locate(c: Cells, root: Node?, p: Path, t: Tree, n: Node) returns (q: Path, sub: Tree)
    requires At(c, root, p, t, null) && n in Nodes(t)
    ensures At(c, root, q, sub, null) && sub.Branch? && sub.node == n && Whole(q, sub) == Whole(p, t)
    ensures PathNodes(q) + Nodes(sub) == PathNodes(p) + Nodes(t)
    decreases t
  {
    hide Formed, PathBalanced, Whole, PathNodes;
    if t.node == n {
      q, sub := p, t;
    } else {
      AtChildren(c, root, p, t, null);
      if n in Nodes(t.left) {
        q, sub := Locate(c, root, Step(p, true, t.node, t.color, t.right), t.left, n);
      } else {
        q, sub := Locate(c, root, Step(p, false, t.node, t.color, t.left), t.right, n);
      }
    }
  }

  /** The leftmost node of a subtree is the first in order. */
  lemma {:induction false} Leftmost(c: Cells, root: Node?, p: Path, t: Tree) returns (q: Path, sub: Tree)
    requires At(c, root, p, t, null) && t.Branch?
    ensures At(c, root, q, sub, null) && sub.Branch? && sub.left.Leaf? && Whole(q, sub) == Whole(p, t)
    ensures PathNodes(q) + Nodes(sub) == PathNodes(p) + Nodes(t)
    ensures Before(q) == Before(p) && sub.node == InOrder(t)[0] && sub.node in Nodes(t)
    ensures Nodes(sub) <= Nodes(t) && q.Step? == (p.Step? || q != p)
    ensures Hook(q) == Hook(p) || Hook(q) in Nodes(t)
    decreases t
  {
    hide Formed, PathBalanced, Whole, PathNodes;
    if t.left.Leaf? {
      q, sub := p, t;
    } else {
      AtChildren(c, root, p, t, null);
      q, sub := Leftmost(c, root, Step(p, true, t.node, t.color, t.right), t.left);
    }
  }

  lemma {:induction false} LocateUnder(c: Cells, root: Node?, p: Path, t: Tree, n: Node, s: Tree, f: Node?) returns (q: Path)
    requires At(c, root, p, t, f) && Under(t, n, s) && s.Branch?
    ensures At(c, root, q, s, f) && q.Step? && q.node == n && Whole(q, s) == Whole(p, t)
    ensures PathNodes(q) + Nodes(s) == PathNodes(p) + Nodes(t)
    decreases t
  {
    hide Formed, PathBalanced, Whole, PathNodes;
    assert !t.color.Fake?;
    AtChildren(c, root, p, t, f);
    var l := Step(p, true, t.node, t.color, t.right);
    var r := Step(p, false, t.node, t.color, t.left);
    if t.node == n && t.left == s {
      q := l;
    } else if t.node == n && t.right == s {
      q := r;
    } else if Under(t.left, n, s) {
      q := LocateUnder(c, root, l, t.left, n, s, f);
    } else {
      q := LocateUnder(c, root, r, t.right, n, s, f);
    }
  }

  function FirstOf(s: seq<Node>): Node? {
    if s == [] then null else s[0]
  }

  function LastOf(s: seq<Node>): Node? {
    if s == [] then null else s[|s| - 1]
  }

  lemma AtNotFake(c: Cells, root: Node?, p: Path, t: Tree)
    requires At(c, root, p, t, null) && t.Branch?
    ensures !t.color.Fake?
  {
  }

  lemma {:induction false} InOrderAt(t: Tree, i: nat)
    requires i < |InOrder(t)|
    ensures InOrder(t)[i] in Nodes(t)
  {
    var k := |InOrder(t.left)|;
    if i < k {
      InOrderAt(t.left, i);
    } else if i > k {
      InOrderAt(t.right, i - k - 1);
    }
  }

  lemma {:induction false} InOrderDistinct(t: Tree)
    requires Distinct(t)
    ensures forall i, j :: 0 <= i < j < |InOrder(t)| ==> InOrder(t)[i] != InOrder(t)[j]
  {
    if t.Branch? {
      InOrderDistinct(t.left);
      InOrderDistinct(t.right);
      var l, r := InOrder(t.left), InOrder(t.right);
      assert InOrder(t) == l + [t.node] + r;
      forall i, j | 0 <= i < j < |InOrder(t)| ensures InOrder(t)[i] != InOrder(t)[j] {
        if i < |l| { InOrderAt(t.left, i); }
        if j > |l| { InOrderAt(t.right, j - |l| - 1); }
      }
    }
  }

  lemma ContentsDistinct(c: Cells, root: Node?, t: Tree)
    requires Formed(c, root, Top, t)
    ensures forall i, j :: 0 <= i < j < |InOrder(t)| ==> InOrder(t)[i] != InOrder(t)[j]
  {
    InOrderDistinct(t);
  }

  /** Around a node of a sorted tree, earlier keys are not greater and later keys are not smaller. */
  lemma SortedAround(s: seq<Node>, p: Path, t: Tree)
    requires s == Whole(p, t) && Sorted(s) && t.Branch?
    ensures forall m :: m in Before(p) + InOrder(t.left) ==> m.key <= t.node.key
    ensures forall m :: m in InOrder(t.right) + After(p) ==> t.node.key <= m.key
    ensures t.node in s
  {
    var a := Before(p) + InOrder(t.left);
    var b := InOrder(t.right) + After(p);
    assert s == a + [t.node] + b;
    assert s[|a|] == t.node;
    forall m | m in a ensures m.key <= t.node.key {
      var i :| 0 <= i < |a| && a[i] == m;
      assert s[i] == m;
    }
    forall m | m in b ensures t.node.key <= m.key {
      var i :| 0 <= i < |b| && b[i] == m;
      assert s[|a| + 1 + i] == m;
    }
  }

  lemma WholeTop(t: Tree)
    ensures Whole(Top, t) == InOrder(t) && Before(Top) == [] && After(Top) == []
  {
  }

  /** `r` is the element after the `i`-th, which is `n`; null at the end. */
  ghost predicate Follows(s: seq<Node>, n: Node, i: int, r: Node?) {
    0 <= i < |s| && s[i] == n && r == if i + 1 < |s| then s[i + 1] else null
  }

  lemma FollowsIn(s: seq<Node>, q: Path, t: Tree)
    requires t.Branch? && s == Whole(q, t)
    ensures Follows(s, t.node, |Before(q) + InOrder(t.left)|, FirstOf(InOrder(t.right) + After(q)))
  {
    var a := Before(q) + InOrder(t.left);
    var b := InOrder(t.right) + After(q);
    assert s == a + [t.node] + b;
  }

  lemma LowerMiss(s: seq<Node>, p: Path, key: int)
    requires s == Whole(p, Leaf) && Sorted(s) && forall m :: m in Before(p) ==> m.key < key
    ensures var r := FirstOf(After(p));
            if r == null then forall m :: m in s ==> m.key < key
            else r in s && forall m :: m in s && key <= m.key ==> r.key <= m.key
  {
    assert s == Before(p) + After(p);
    if After(p) != [] {
      assert s[|Before(p)|] == After(p)[0];
      assert forall k :: 0 <= k < |Before(p)| ==> s[k] == Before(p)[k] && s[k].key < key;
      forall m | m in s && key <= m.key ensures After(p)[0].key <= m.key {
        var i :| 0 <= i < |s| && s[i] == m;
      }
    }
  }

  lemma UpperMiss(s: seq<Node>, p: Path, key: int)
    requires s == Whole(p, Leaf) && Sorted(s) && forall m :: m in After(p) ==> key < m.key
    ensures var r := LastOf(Before(p));
            if r == null then forall m :: m in s ==> key < m.key
            else r in s && forall m :: m in s && m.key <= key ==> m.key <= r.key
  {
    assert s == Before(p) + After(p);
    var b := Before(p);
    if b != [] {
      assert s[|b| - 1] == b[|b| - 1];
      assert forall k :: |b| <= k < |s| ==> s[k] == After(p)[k - |b|] && key < s[k].key;
      forall m | m in s && m.key <= key ensures m.key <= b[|b| - 1].key {
        var i :| 0 <= i < |s| && s[i] == m;
      }
    }
  }

  // ----- what the updates do to the sequence of nodes -----

  ghost function Elems(s: seq<Node>): set<Node> {
    set i | 0 <= i < |s| :: s[i]
  }

  lemma ElemsAppend(a: seq<Node>, b: seq<Node>)
    ensures Elems(a + b) == Elems(a) + Elems(b)
  {
    forall i | 0 <= i < |b| ensures b[i] in Elems(a + b) {
      assert (a + b)[|a| + i] == b[i];
    }
    forall i | 0 <= i < |a| ensures a[i] in Elems(a + b) {
      assert (a + b)[i] == a[i];
    }
  }

  lemma {:induction false} InOrderElems(t: Tree)
    ensures Nodes(t) == Elems(InOrder(t))
  {
    if t.Branch? {
      InOrderElems(t.left);
      InOrderElems(t.right);
      ElemsAppend(InOrder(t.left), [t.node]);
      ElemsAppend(InOrder(t.left) + [t.node], InOrder(t.right));
      assert Elems([t.node]) == {t.node} by { assert [t.node][0] == t.node; }
    }
  }

  /** The sequence with and without one node, and the sets of the two trees. */
  lemma OneMore(a: seq<Node>, n: Node, b: seq<Node>, big: Tree, small: Tree)
    requires InOrder(big) == a + [n] + b && InOrder(small) == a + b
    ensures Nodes(big) == Nodes(small) + {n}
  {
    InOrderElems(big);
    InOrderElems(small);
    ElemsAppend(a, [n]);
    ElemsAppend(a + [n], b);
    ElemsAppend(a, b);
    assert Elems([n]) == {n} by { assert [n][0] == n; }
  }

  lemma RemovedOnce(c: Cells, root: Node?, order: seq<Node>, a: seq<Node>, n: Node, b: seq<Node>, t: Tree, done: Tree)
    requires Formed(c, root, Top, t) && InOrder(t) == order == a + [n] + b
    requires InOrder(done) == a + b && Sorted(order)
    ensures Nodes(done) == Nodes(t) - {n}
    ensures InOrder(done) == Without(order, n) && Sorted(InOrder(done))
  {
    hide Formed, Nodes, InOrder, Elems, Sorted, Without;
    ContentsDistinctFrom(c, root, t, a, n, b);
    WithoutSplit(a, n, b);
    OneMore(a, n, b, t, done);
    assert n !in Nodes(done) by {
      InOrderElems(done);
      ElemsAppend(a, b);
    }
    assert order[|a|] == n;
    WithoutSorted(order, n);
  }

  lemma ContentsDistinctFrom(c: Cells, root: Node?, t: Tree, a: seq<Node>, n: Node, b: seq<Node>)
    requires Formed(c, root, Top, t) && InOrder(t) == a + [n] + b
    ensures n !in a && n !in b && n !in Elems(a) && n !in Elems(b)
  {
    InOrderDistinct(t);
    var s := InOrder(t);
    forall i | 0 <= i < |a| ensures a[i] != n {
      assert s[i] == a[i] && s[|a|] == n;
    }
    forall i | 0 <= i < |b| ensures b[i] != n {
      assert s[|a| + 1 + i] == b[i] && s[|a|] == n;
    }
  }

  lemma SplitAtUnary(q: Path, t: Tree) returns (a: seq<Node>, b: seq<Node>)
    requires t.Branch? && (t.left.Leaf? || t.right.Leaf?)
    ensures Whole(q, t) == a + [t.node] + b
    ensures Before(q) + InOrder(OnlyChild(t)) + After(q) == a + b
  {
    a, b := Before(q) + InOrder(t.left), InOrder(t.right) + After(q);
    assert Whole(q, t) == a + [t.node] + b;
  }

  lemma NextInSubtree(r: Tree, after: seq<Node>)
    requires r.Branch?
    ensures InOrder(r) != [] && FirstOf(InOrder(r) + after) == InOrder(r)[0]
  {
  }

  /** The successor found below the right child is one that rb_remove may exchange with. */
  lemma SuccessorApart(c: Cells, root: Node?, q: Path, sub: Tree, w: Path, t: Tree)
    requires Consistent(c, root) && At(c, root, q, sub, null) && sub.Branch? && sub.left.Branch? && sub.right.Branch?
    requires At(c, root, w, t, null) && t.Branch? && t.left.Leaf?
    requires t.node in Nodes(sub.right) && Nodes(t) <= Nodes(sub.right) && w.Step?
    requires Hook(w) == sub.node || Hook(w) in Nodes(sub.right)
    ensures ToExchange(c, root, sub.node, t.node)
  {
    var v, s := sub.node, t.node;
    RootCell(c, root, q, sub);
    RootCell(c, root, w, t);
    assert Nodes(sub) == Nodes(sub.left) + {v} + Nodes(sub.right);
    assert sub.left.node in Nodes(sub.left);
    assert Hook(q) != null ==> Hook(q) in PathNodes(q);
    assert t.right.Branch? ==> t.right.node in Nodes(t.right) && t.right.node in Nodes(t);
  }

  lemma {:induction false} SwapIdle(t: Tree, a: Node, b: Node)
    requires a !in Nodes(t) && b !in Nodes(t)
    ensures SwapTree(t, a, b) == t
  {
    if t.Branch? {
      SwapIdle(t.left, a, b);
      SwapIdle(t.right, a, b);
    }
  }

  lemma SwapSeqIdle(s: seq<Node>, a: Node, b: Node)
    requires a !in Elems(s) && b !in Elems(s)
    ensures SwapSeq(s, a, b) == s
  {
    forall i | 0 <= i < |s| ensures SwapSeq(s, a, b)[i] == s[i] {
      assert s[i] in Elems(s);
    }
  }

  lemma {:induction false} PathOrderElems(p: Path)
    ensures Elems(Before(p)) <= PathNodes(p) && Elems(After(p)) <= PathNodes(p)
  {
    if p.Step? {
      PathOrderElems(p.up);
      InOrderElems(p.sib);
      assert Elems([p.node]) == {p.node} by { assert [p.node][0] == p.node; }
      if p.onLeft {
        ElemsAppend([p.node], InOrder(p.sib));
        ElemsAppend([p.node] + InOrder(p.sib), After(p.up));
      } else {
        ElemsAppend(Before(p.up), InOrder(p.sib));
        ElemsAppend(Before(p.up) + InOrder(p.sib), [p.node]);
      }
    }
  }

  /** The focus on the node after it took its successor's place. */
  lemma SuccessorSwapped(c: Cells, root: Node?, c': Cells, root': Node?, q: Path, sub: Tree, w: Path, t: Tree)
    requires At(c, root, q, sub, null) && sub.Branch?
    requires At(c, root, w, t, null) && t.Branch? && t.left.Leaf? && Nodes(t) <= Nodes(sub.right)
    requires Whole(w, t) == Whole(q, sub) && Before(w) == Before(q) + InOrder(sub.left) + [sub.node]
    requires Exchanged(c, c', sub.node, t.node) && root' == SwapRef(root, sub.node, t.node)
    ensures var q', sub' := SwapPath(w, sub.node, t.node), SwapTree(t, sub.node, t.node);
            && At(c', root', q', sub', null) && sub'.Branch? && sub'.node == sub.node && sub'.left.Leaf?
            && Whole(q, sub) == Before(q) + InOrder(sub.left) + [sub.node] + ([t.node] + InOrder(sub'.right) + After(q'))
            && Before(q') == Before(q) + InOrder(sub.left) + [t.node]
  {
    var v, s := sub.node, t.node;
    var q', sub' := SwapPath(w, v, s), SwapTree(t, v, s);
    hide Formed, Nodes, PathNodes, Whole, Before, After, InOrder;
    SuccessorFacts(c, root, q, sub, w, t);
    ExchangeForms(c, c', root, w, t, v, s);
    SwapBalanced(t, v, s);
    SwapPathBalanced(w, Bh(t), v, s);
    SwapIdle(t.right, v, s);
    SwapOrder(w, v, s);
    SuccessorOrder(c, root, q, sub, w, t);
  }

  /** The two nodes occur nowhere else. */
  lemma SuccessorFacts(c: Cells, root: Node?, q: Path, sub: Tree, w: Path, t: Tree)
    requires Formed(c, root, q, sub) && sub.Branch?
    requires Formed(c, root, w, t) && t.Branch?
    requires Nodes(t) <= Nodes(sub.right)
    ensures sub.node !in Nodes(t) && t.node != sub.node && t.node in Nodes(sub.right)
    ensures sub.node !in PathNodes(q) && sub.node !in Nodes(sub.left)
    ensures t.node !in PathNodes(q) && t.node !in Nodes(sub.left)
    ensures t.node !in PathNodes(w) && t.node !in Nodes(t.right) && sub.node !in Nodes(t.right)
  {
    assert Nodes(sub) == Nodes(sub.left) + {sub.node} + Nodes(sub.right);
    assert Nodes(t) == Nodes(t.left) + {t.node} + Nodes(t.right);
  }

  lemma SuccessorOrder(c: Cells, root: Node?, q: Path, sub: Tree, w: Path, t: Tree)
    requires Formed(c, root, q, sub) && sub.Branch?
    requires Formed(c, root, w, t) && t.Branch? && t.left.Leaf?
    requires Whole(w, t) == Whole(q, sub) && Before(w) == Before(q) + InOrder(sub.left) + [sub.node]
    requires Nodes(t) <= Nodes(sub.right)
    ensures SwapSeq(Before(w), sub.node, t.node) == Before(q) + InOrder(sub.left) + [t.node]
    ensures SwapSeq(After(w), sub.node, t.node) == After(w)
    ensures Whole(q, sub) == Before(q) + InOrder(sub.left) + [sub.node] + ([t.node] + InOrder(t.right) + After(w))
  {
    hide Formed, Nodes, PathNodes, Elems, Before, After, SwapSeq, InOrder;
    var v, s := sub.node, t.node;
    var a := Before(q) + InOrder(sub.left);
    SuccessorFacts(c, root, q, sub, w, t);
    PathOrderElems(q);
    InOrderElems(sub.left);
    ElemsAppend(Before(q), InOrder(sub.left));
    SwapSeqIdle(a, v, s);
    SwapSeqAppend(a, [v], v, s);
    SwapOne(v, s);
    LeftlessOrder(t);
    Regroup(a + [v], [s] + InOrder(t.right), After(w));
    PathOrderElems(w);
    VNotAfter(c, root, q, sub, w, t);
    SwapSeqIdle(After(w), v, s);
  }

  lemma LeftlessOrder(t: Tree)
    requires t.Branch? && t.left.Leaf?
    ensures InOrder(t) == [t.node] + InOrder(t.right)
  {
    assert InOrder(t.left) == [];
  }

  lemma SwapOne(v: Node, s: Node)
    ensures SwapSeq([v], v, s) == [s]
  {
  }

  lemma VNotAfter(c: Cells, root: Node?, q: Path, sub: Tree, w: Path, t: Tree)
    requires Formed(c, root, q, sub) && sub.Branch?
    requires Whole(w, t) == Whole(q, sub) && Before(w) == Before(q) + InOrder(sub.left) + [sub.node]
    ensures sub.node !in Elems(After(w))
  {
    var v := sub.node;
    var b, b' := InOrder(t) + After(w), InOrder(sub.right) + After(q);
    assert v !in Nodes(sub.right) && v !in PathNodes(q);
    hide Formed, Nodes, PathNodes, Elems, Before, After, InOrder, Whole;
    InOrderOf(sub);
    SameTail(Before(q) + InOrder(sub.left) + [v], b, b', w, t, q, sub);
    PathOrderElems(q);
    InOrderElems(sub.right);
    ElemsAppend(InOrder(sub.right), After(q));
    ElemsAppend(InOrder(t), After(w));
  }

  lemma InOrderOf(t: Tree)
    requires t.Branch?
    ensures InOrder(t) == InOrder(t.left) + [t.node] + InOrder(t.right)
  {
  }

  lemma SameTail(a: seq<Node>, b: seq<Node>, b': seq<Node>, w: Path, t: Tree, q: Path, sub: Tree)
    requires Whole(w, t) == Whole(q, sub) && Before(w) == a && b == InOrder(t) + After(w)
    requires sub.Branch? && InOrder(sub) == InOrder(sub.left) + [sub.node] + InOrder(sub.right)
    requires a == Before(q) + InOrder(sub.left) + [sub.node] && b' == InOrder(sub.right) + After(q)
    ensures b == b'
  {
    hide Before, After, InOrder;
    Regroup(a, InOrder(t), After(w));
    Regroup(Before(q), InOrder(sub.left) + [sub.node], InOrder(sub.right));
    Regroup(Before(q), InOrder(sub.left), [sub.node]);
    Regroup(a, InOrder(sub.right), After(q));
    CancelHead(a, b, b');
  }

  lemma Regroup(a: seq<Node>, b: seq<Node>, c: seq<Node>)
    ensures a + b + c == a + (b + c)
  {
  }

  lemma CancelHead(a: seq<Node>, b: seq<Node>, b': seq<Node>)
    requires a + b == a + b'
    ensures b == b'
  {
    assert (a + b)[|a|..] == b;
    assert (a + b')[|a|..] == b';
  }

  lemma RegroupNext(a: seq<Node>, n: Node, x: seq<Node>, y: seq<Node>)
    ensures (a + [n]) + x + y == a + ([n] + x + y)
  {
  }

  lemma HookIn(p: Path)
    requires p.Step?
    ensures p.node in PathNodes(p)
  {
  }

  lemma TopNodes()
    ensures PathNodes(Top) == {} && AllAtMost(Before(Top), 0) && AllAbove(After(Top), 0)
  {
  }

  /** A new node outside the tree does not disturb it. */
  lemma EnlistedAt(c: Cells, c': Cells, root: Node?, t: Tree)
    requires At(c, root, Top, t, null) && forall m :: m in c ==> m in c' && c'[m] == c[m]
    ensures At(c', root, Top, t, null)
  {
    LinkedFrame(c, c', t, null);
  }

  /** The first node of a tree. */
  lemma FirstNode(c: Cells, c': Cells, t: Tree, n: Node)
    requires At(c, null, Top, t, null) && n in c' && c'[n] == Cell(null, false, null, null)
    ensures var s := Branch(Leaf, n, Black, Leaf);
            && Nodes(t) == {} && Nodes(s) == {n}
            && InOrder(s) == Inserted(InOrder(t), n) && Sorted(InOrder(s)) && At(c', n, Top, s, null)
  {
    var s := Branch(Leaf, n, Black, Leaf);
    assert Linked(c', s, null) && PathLinked(c', Top, n, n);
    assert InOrder(s) == [n];
  }

  lemma AttachForms(c: Cells, c': Cells, root: Node?, p: Path, n: Node)
    requires Formed(c, root, p, Leaf) && p.Step? && n !in PathNodes(p)
    requires p.node in c' && c'[p.node] == FrameCell(p, n) && n in c' && c'[n] == Cell(p.node, true, null, null)
    requires SameOn(c, c', c.Keys - {p.node, n})
    ensures Formed(c', root, p, Branch(Leaf, n, Red, Leaf))
  {
    Rehung(c, c', p, null, n, root, root);
  }

  lemma HoleBalanced(c: Cells, root: Node?, p: Path)
    requires At(c, root, p, Leaf, null)
    ensures PathBalanced(p, 0, null)
  {
  }

  lemma FreshBalanced(p: Path, n: Node)
    requires PathBalanced(p, 0, null)
    ensures var t := Branch(Leaf, n, Red, Leaf);
            Balanced(t, null) && PathBalanced(p, Bh(t), null)
  {
  }

  /** Going down by the key keeps smaller keys before and greater keys after the hole. */
  lemma DescentOrder(order: seq<Node>, p: Path, t: Tree, key: int)
    requires t.Branch? && Whole(p, t) == order && Sorted(order)
    requires AllAtMost(Before(p), key) && AllAbove(After(p), key)
    ensures key < t.node.key ==> AllAbove(After(Step(p, true, t.node, t.color, t.right)), key)
                                 && Before(Step(p, true, t.node, t.color, t.right)) == Before(p)
    ensures t.node.key <= key ==> AllAtMost(Before(Step(p, false, t.node, t.color, t.left)), key)
                                  && After(Step(p, false, t.node, t.color, t.left)) == After(p)
  {
    SortedAround(order, p, t);
  }

  lemma AddedOnce(c: Cells, root: Node?, order: seq<Node>, p: Path, n: Node, t: Tree, done: Tree)
    requires Repaired(c, root, done, Whole(p, Branch(Leaf, n, Red, Leaf)), null)
    requires InOrder(t) == order == Whole(p, Leaf) && Sorted(order)
    requires AllAtMost(Before(p), n.key) && AllAbove(After(p), n.key)
    ensures At(c, root, Top, done, null) && Nodes(done) == Nodes(t) + {n}
    ensures InOrder(done) == Inserted(order, n) && Sorted(InOrder(done))
  {
    hide Nodes, Sorted, Inserted, AllAtMost, AllAbove, At, Repaired, InOrder, Before, After, Whole;
    var a, b := Before(p), After(p);
    RepairedOrder(c, root, done, Whole(p, Branch(Leaf, n, Red, Leaf)));
    LeafWholes(p, n);
    InsertedSplit(a, b, n);
    OneMore(a, n, b, done, t);
    InsertedSorted(order, n);
  }

  lemma RepairedOrder(c: Cells, root: Node?, t: Tree, order: seq<Node>)
    requires Repaired(c, root, t, order, null)
    ensures At(c, root, Top, t, null) && InOrder(t) == order
  {
  }

  lemma LeafWholes(p: Path, n: Node)
    ensures Whole(p, Leaf) == Before(p) + After(p)
    ensures Whole(p, Branch(Leaf, n, Red, Leaf)) == Before(p) + [n] + After(p)
  {
    assert InOrder(Branch(Leaf, n, Red, Leaf)) == [n];
    assert Whole(p, Leaf) == Before(p) + [] + After(p);
  }

  // ----- taking the stand-in back -----

  lemma {:induction false} BalancedWithStandIn(t: Tree, f: Node?)
    requires Balanced(t, null)
    ensures Balanced(t, f)
  {
    if t.Branch? {
      BalancedWithStandIn(t.left, f);
      BalancedWithStandIn(t.right, f);
    }
  }

  lemma {:induction false} PathWithStandIn(p: Path, h: nat, f: Node?)
    requires PathBalanced(p, h, null)
    ensures PathBalanced(p, h, f)
  {
    if p.Step? {
      BalancedWithStandIn(p.sib, f);
      PathWithStandIn(p.up, h + if p.color.Black? then 1 else 0, f);
    }
  }

  lemma {:induction false} BalancedWithout(t: Tree, f: Node)
    requires Balanced(t, f) && f !in Nodes(t)
    ensures Balanced(t, null)
  {
    if t.Branch? {
      BalancedWithout(t.left, f);
      BalancedWithout(t.right, f);
    }
  }

  lemma {:induction false} PathWithout(p: Path, h: nat, f: Node)
    requires PathBalanced(p, h, f) && f !in PathNodes(p)
    ensures PathBalanced(p, h, null)
  {
    if p.Step? {
      BalancedWithout(p.sib, f);
      PathWithout(p.up, h + if p.color.Black? then 1 else 0, f);
    }
  }

  // ----- unlinking a node with at most one child -----

  function OnlyChild(t: Tree): Tree
    requires t.Branch?
  {
    if t.left.Branch? then t.left else t.right
  }

  lemma UnlinkForms(c: Cells, c': Cells, root: Node?, root': Node?, q: Path, t: Tree)
    requires Formed(c, root, q, t) && t.Branch? && (t.left.Leaf? || t.right.Leaf?)
    requires SameOn(c, c', c.Keys - {t.node, Hook(q), Root(OnlyChild(t))})
    requires if q.Top? then root' == Root(OnlyChild(t))
             else q.node in c' && c'[q.node] == FrameCell(q, Root(OnlyChild(t))) && root' == root
    requires var ch := OnlyChild(t);
             ch.Branch? ==> ch.node in c && ch.node in c' && c'[ch.node] == c[ch.node].(parent := Hook(q))
    ensures Formed(c', root', q, OnlyChild(t))
  {
    var ch := OnlyChild(t);
    assert Nodes(t) == Nodes(t.left) + {t.node} + Nodes(t.right);
    assert Linked(c, ch, t.node) && Distinct(ch);
    assert Hook(q) != null ==> Hook(q) in PathNodes(q);
    assert ch.Branch? ==> ch.node in Nodes(ch);
    Reparented(c, c', ch, t.node, Hook(q));
    Rehung(c, c', q, t.node, Root(ch), root, root');
  }

  lemma RepairedAt(c: Cells, root: Node?, t: Tree, order: seq<Node>, f: Node?)
    requires Repaired(c, root, t, order, f)
    ensures At(c, root, Top, t, f) && Whole(Top, t) == order
  {
  }

  lemma AtForms(c: Cells, root: Node?, q: Path, t: Tree)
    requires At(c, root, q, t, null)
    ensures Formed(c, root, q, t)
  {
  }

  lemma StandInOutside(c: Cells, root: Node?, q: Path, fake: Tree)
    requires fake.Branch? && fake.color.Fake? && At(c, root, q, fake, fake.node)
    ensures fake.node !in PathNodes(q) && PathBalanced(q, 0, fake.node)
  {
    assert fake.node in Nodes(fake);
  }

  lemma WholeOfStandIn(q: Path, q2: Path, n: Node)
    requires Whole(q2, Branch(Leaf, n, Fake, Leaf)) == Whole(q, Branch(Leaf, n, Fake, Leaf))
    requires n !in PathNodes(q) && n !in PathNodes(q2)
    ensures Whole(q2, Leaf) == Before(q) + After(q)
  {
    hide Before, After, PathNodes, Nodes;
    PathOrderNodes(q);
    PathOrderNodes(q2);
    assert InOrder(Branch(Leaf, n, Fake, Leaf)) == [n];
    SameWithout(Before(q), After(q), Before(q2), After(q2), n);
    assert Whole(q2, Leaf) == Before(q2) + After(q2);
  }

  lemma SameWithout(a: seq<Node>, b: seq<Node>, a': seq<Node>, b': seq<Node>, n: Node)
    requires a + [n] + b == a' + [n] + b' && n !in a && n !in a'
    ensures a + b == a' + b'
  {
    WithoutSplit(a, n, b);
    WithoutSplit(a', n, b');
  }

  lemma BlackenBalanced(t: Tree)
    requires t.Branch? && Balanced(t, null)
    ensures Balanced(Blacken(t), null) && InOrder(Blacken(t)) == InOrder(t)
  {
  }

  /** What rb_remove finds at a node with at most one child. */
  lemma UnaryFacts(c: Cells, root: Node?, q: Path, t: Tree)
    requires At(c, root, q, t, null) && t.Branch? && (t.left.Leaf? || t.right.Leaf?)
    ensures var ch := OnlyChild(t);
            && t.node in c && c[t.node] == Cell(Hook(q), t.color.Red?, Root(t.left), Root(t.right))
            && (ch.Branch? ==> ch.node in c && ch.node != t.node && ch.node != Hook(q) && IsRed(ch) && t.color.Black?
                               && c[ch.node].parent == t.node)
            && Balanced(ch, null) && !t.color.Fake?
            && Bh(t) == Bh(ch) + (if t.color.Black? then 1 else 0)
            && (q.Step? ==> q.node in c && q.node != t.node && c[q.node] == FrameCell(q, t.node) && Root(q.sib) != t.node)
            && (q.Top? ==> root == t.node)
            && (ch.Branch? ==> Fixable(ch, null))
            && (t.color.Red? ==> !IsRed(ch) && q.Step?)
            && PathBalanced(q, Bh(t), null)
  {
    var ch := OnlyChild(t);
    assert Balanced(t.left, null) && Balanced(t.right, null) && Bh(t.left) == Bh(t.right);
    assert Linked(c, t.left, t.node) && Linked(c, t.right, t.node);
    assert Hook(q) != null ==> Hook(q) in PathNodes(q);
    assert t.node in Nodes(t);
    assert ch.Branch? ==> ch.node in Nodes(ch) && ch.node in Nodes(t);
    assert q.Step? && q.sib.Branch? ==> q.sib.node in Nodes(q.sib) && Nodes(q.sib) <= PathNodes(q);
  }

  /** Forgetting a node that is no longer linked. */
  lemma ForgetForms(c: Cells, root: Node?, p: Path, t: Tree, n: Node)
    requires Formed(c, root, p, t) && n !in Nodes(t) && n !in PathNodes(p)
    ensures Formed(c - {n}, root, p, t)
  {
    LinkedFrame(c, c - {n}, t, Hook(p));
    PathFrame(c, c - {n}, p, Root(t), root);
  }

  class RbTree {
    var root: Node?
    ghost var cells: Cells
    ghost var shape: Tree

    ghost predicate Match()
      reads this, cells.Keys
    {
      forall m :: m in cells ==> cells[m] == Cell(m.parent, m.red, m.left, m.right)
    }

    // ----- field updates -----

    method SetParent(m: Node, v: Node?)
      requires Match() && m in cells
      modifies this`cells, m`parent
      ensures Match() && cells == old(cells[m := cells[m].(parent := v)])
    {
      m.parent := v;
      cells := cells[m := cells[m].(parent := v)];
    }

    method SetColor(m: Node, v: bool)
      requires Match() && m in cells
      modifies this`cells, m`red
      ensures Match() && cells == old(cells[m := cells[m].(red := v)])
    {
      m.red := v;
      cells := cells[m := cells[m].(red := v)];
    }

    method SetParentAndColor(m: Node, v: Node?, red: bool)
      requires Match() && m in cells
      modifies this`cells, m`parent, m`red
      ensures Match() && cells == old(cells[m := cells[m].(parent := v, red := red)])
    {
      SetParent(m, v);
      SetColor(m, red);
    }

    method SetLeft(m: Node, v: Node?)
      requires Match() && m in cells
      modifies this`cells, m`left
      ensures Match() && cells == old(cells[m := cells[m].(left := v)])
    {
      m.left := v;
      cells := cells[m := cells[m].(left := v)];
    }

    method SetRight(m: Node, v: Node?)
      requires Match() && m in cells
      modifies this`cells, m`right
      ensures Match() && cells == old(cells[m := cells[m].(right := v)])
    {
      m.right := v;
      cells := cells[m := cells[m].(right := v)];
    }

    // ----- rotations -----

    /** Makes the pointer that leads to `from`, the root or a link of its parent `g`, lead to `to`. */
    method ReplaceChild(g: Node?, from: Node, to: Node?, ghost up: Path)
      requires Match() && g == Hook(up)
      requires up.Step? ==> up.node in cells && cells[up.node] == FrameCell(up, from) && Root(up.sib) != from
      modifies this`root, this`cells, cells.Keys
      ensures Match()
      ensures cells == if up.Top? then old(cells) else old(cells)[up.node := FrameCell(up, to)]
      ensures root == if up.Top? then to else old(root)
    {
      if g == null {
        root := to;
      } else {
        if from == g.left {
          SetLeft(g, to);
        } else {
          SetRight(g, to);
        }
      }
    }

    /** rb_left_rotate: `n`, the right child of `p`, moves above it. */
    method RelinkLeft(n: Node, ghost pn: Node, ghost y: Node?, ghost up: Path)
      requires Match() && RotationFacts(cells, up, pn, n, y)
      requires cells[n].left == y && (up.Top? ==> root == pn)
      modifies this`root, this`cells, cells.Keys
      ensures Match() && cells.Keys == old(cells.Keys)
      ensures RotatedLeft(old(cells), cells, n, pn, y, Hook(up))
      ensures if up.Top? then root == n else cells[up.node] == FrameCell(up, n) && root == old(root)
    {
      var p := n.parent;
      var g := p.parent;
      hide RotatedLeft, FrameCell, SameOn, RotationFacts;
      ghost var c0 := cells;
      RotationReads(cells, up, pn, n, y);
      SetParent(n, g);
      ReplaceChild(g, p, n, up);
      ghost var c2 := cells;
      RelinkHalf(c0, c2, up, pn, n, y);
      SwingLeft(n, p, y);
      RelinkDoneLeft(c0, c2, cells, up, pn, n, y);
    }

    /** The lower half of the rotation: `y` changes sides and `p` goes below `n`. */
    method SwingLeft(n: Node, p: Node, ghost y: Node?)
      requires Match() && n in cells && p in cells && n != p
      requires cells[n].left == y && (y != null ==> y in cells && y != n && y != p)
      modifies this`cells, cells.Keys
      ensures Match() && cells.Keys == old(cells.Keys)
      ensures cells[n] == old(cells)[n].(left := p)
      ensures cells[p] == old(cells)[p].(parent := n, right := y)
      ensures y != null ==> cells[y] == old(cells)[y].(parent := p)
      ensures SameOn(old(cells), cells, cells.Keys - {n, p, y})
    {
      SetRight(p, n.left);
      if p.right != null {
        SetParent(p.right, p);
      }
      SetLeft(n, p);
      SetParent(p, n);
    }

    method RotateLeft(n: Node, ghost up: Path, ghost x: Tree, ghost pn: Node, ghost pc: Color,
                      ghost y: Tree, ghost nc: Color, ghost z: Tree)
      requires Match() && Formed(cells, root, up, Branch(x, pn, pc, Branch(y, n, nc, z)))
      modifies this`root, this`cells, cells.Keys
      ensures Match() && cells.Keys == old(cells.Keys)
      ensures Formed(cells, root, up, Branch(Branch(x, pn, pc, y), n, nc, z))
      ensures SameOn(old(cells), cells, cells.Keys - {n, pn, Root(y), Hook(up)})
    {
      LeftFacts(cells, root, up, x, pn, pc, y, n, nc, z);
      RelinkLeft(n, pn, Root(y), up);
      RotateLeftForms(old(cells), old(root), cells, root, up, x, pn, pc, y, n, nc, z);
    }

    /** rb_right_rotate: `n`, the left child of `p`, moves above it. */
    method RelinkRight(n: Node, ghost pn: Node, ghost y: Node?, ghost up: Path)
      requires Match() && RotationFacts(cells, up, pn, n, y)
      requires cells[n].right == y && (up.Top? ==> root == pn)
      modifies this`root, this`cells, cells.Keys
      ensures Match() && cells.Keys == old(cells.Keys)
      ensures RotatedRight(old(cells), cells, n, pn, y, Hook(up))
      ensures if up.Top? then root == n else cells[up.node] == FrameCell(up, n) && root == old(root)
    {
      var p := n.parent;
      var g := p.parent;
      hide RotatedRight, FrameCell, SameOn, RotationFacts;
      ghost var c0 := cells;
      RotationReads(cells, up, pn, n, y);
      SetParent(n, g);
      ReplaceChild(g, p, n, up);
      ghost var c2 := cells;
      RelinkHalf(c0, c2, up, pn, n, y);
      SwingRight(n, p, y);
      RelinkDoneRight(c0, c2, cells, up, pn, n, y);
    }

    /** The lower half of the rotation: `y` changes sides and `p` goes below `n`. */
    method SwingRight(n: Node, p: Node, ghost y: Node?)
      requires Match() && n in cells && p in cells && n != p
      requires cells[n].right == y && (y != null ==> y in cells && y != n && y != p)
      modifies this`cells, cells.Keys
      ensures Match() && cells.Keys == old(cells.Keys)
      ensures cells[n] == old(cells)[n].(right := p)
      ensures cells[p] == old(cells)[p].(parent := n, left := y)
      ensures y != null ==> cells[y] == old(cells)[y].(parent := p)
      ensures SameOn(old(cells), cells, cells.Keys - {n, p, y})
    {
      SetLeft(p, n.right);
      if p.left != null {
        SetParent(p.left, p);
      }
      SetRight(n, p);
      SetParent(p, n);
    }

    method RotateRight(n: Node, ghost up: Path, ghost x: Tree, ghost nc: Color, ghost y: Tree,
                       ghost pn: Node, ghost pc: Color, ghost z: Tree)
      requires Match() && Formed(cells, root, up, Branch(Branch(x, n, nc, y), pn, pc, z))
      modifies this`root, this`cells, cells.Keys
      ensures Match() && cells.Keys == old(cells.Keys)
      ensures Formed(cells, root, up, Branch(x, n, nc, Branch(y, pn, pc, z)))
      ensures SameOn(old(cells), cells, cells.Keys - {n, pn, Root(y), Hook(up)})
    {
      RightFacts(cells, root, up, x, n, nc, y, pn, pc, z);
      RelinkRight(n, pn, Root(y), up);
      RotateRightForms(old(cells), old(root), cells, root, up, x, n, nc, y, pn, pc, z);
    }

    /** rb_set_parent_and_color where only the colour changes. */
    method Recolor(m: Node, v: Node?, red: bool, ghost path: Path, ghost t: Tree, ghost col: Color)
      requires Match() && Formed(cells, root, path, t)
      requires t.Branch? && t.node == m && v == Hook(path) && red == col.Red?
      modifies this`cells, cells.Keys
      ensures Match() && cells.Keys == old(cells.Keys)
      ensures Formed(cells, root, path, t.(color := col))
      ensures SameOn(old(cells), cells, cells.Keys - {m})
    {
      SetParentAndColor(m, v, red);
      RecolorForms(old(cells), cells, root, path, t, col);
    }

    /** rb_set_color. */
    method Repaint(m: Node, red: bool, ghost path: Path, ghost t: Tree, ghost col: Color)
      requires Match() && Formed(cells, root, path, t)
      requires t.Branch? && t.node == m && red == col.Red?
      modifies this`cells, cells.Keys
      ensures Match() && cells.Keys == old(cells.Keys)
      ensures Formed(cells, root, path, t.(color := col))
      ensures SameOn(old(cells), cells, cells.Keys - {m})
    {
      SetColor(m, red);
      RecolorForms(old(cells), cells, root, path, t, col);
    }

    // ----- insertion -----

    /** Case 1: parent and uncle are red; they turn black and the grandparent red. */
    method AddCase1(p: Node, g: Node, u: Node, ghost path: Path, ghost t: Tree)
      requires Match() && Formed(cells, root, path, t)
      requires path.Step? && path.up.Step? && path.up.sib.Branch?
      requires p == path.node && g == path.up.node && u == path.up.sib.node
      modifies this`cells, cells.Keys
      ensures Match() && cells.Keys == old(cells.Keys)
      ensures Formed(cells, root, path.up.up, PushBlackDown(path, t))
    {
      hide Formed, Linked, PathLinked;
      ghost var pg := path.up;
      MoveUp(cells, root, path, t);
      ghost var tp := Fill(path, t);
      Recolor(p, g, false, pg, tp, Black);
      tp := Blacken(tp);
      MoveUp(cells, root, pg, tp);
      ghost var pu := Step(pg.up, !pg.onLeft, g, pg.color, tp);
      MoveDown(cells, root, pu, pg.sib);
      Recolor(u, g, false, pu, pg.sib, Black);
      ghost var tu := Blacken(pg.sib);
      MoveUp(cells, root, pu, tu);
      ghost var tg := Fill(pu, tu);
      RootCell(cells, root, pg.up, tg);
      var n := g;
      Recolor(n, n.parent, true, pg.up, tg, Red);
    }

    /** Case 3: the parent is rotated above the grandparent, and they swap colours. */
    method AddCase3Left(p: Node, g: Node, ghost up: Path, ghost a: Tree, ghost x: Tree, ghost u: Tree)
      requires Match() && Formed(cells, root, up, Branch(Branch(a, p, Red, x), g, Black, u))
      modifies this`root, this`cells, cells.Keys
      ensures Match() && cells.Keys == old(cells.Keys)
      ensures Formed(cells, root, up, Branch(a, p, Black, Branch(x, g, Red, u)))
    {
      hide Formed, Linked, PathLinked;
      RotateRight(p, up, a, Red, x, g, Black, u);
      ghost var tg := Branch(x, g, Black, u);
      Repaint(p, false, up, Branch(a, p, Red, tg), Black);
      ghost var pp := Step(up, false, p, Black, a);
      MoveDown(cells, root, pp, tg);
      Recolor(g, p, true, pp, tg, Red);
      MoveUp(cells, root, pp, Redden(tg));
    }

    method AddCase3Right(p: Node, g: Node, ghost up: Path, ghost u: Tree, ghost x: Tree, ghost a: Tree)
      requires Match() && Formed(cells, root, up, Branch(u, g, Black, Branch(x, p, Red, a)))
      modifies this`root, this`cells, cells.Keys
      ensures Match() && cells.Keys == old(cells.Keys)
      ensures Formed(cells, root, up, Branch(Branch(u, g, Red, x), p, Black, a))
    {
      hide Formed, Linked, PathLinked;
      RotateLeft(p, up, u, g, Black, x, Red, a);
      ghost var tg := Branch(u, g, Black, x);
      Repaint(p, false, up, Branch(tg, p, Red, a), Black);
      ghost var pp := Step(up, true, p, Black, a);
      MoveDown(cells, root, pp, tg);
      Recolor(g, p, true, pp, tg, Red);
      MoveUp(cells, root, pp, Redden(tg));
    }

    /** rb_add_fixup. The tree is red-black except that the red `node` may have a red parent. */
    method AddFixup(node: Node, ghost path0: Path, ghost t0: Tree, ghost f: Node?) returns (ghost done: Tree)
      requires Match() && Formed(cells, root, path0, t0)
      requires IsRed(t0) && t0.node == node && Balanced(t0, f) && PathBalanced(path0, Bh(t0), f)
      modifies this`root, this`cells, cells.Keys
      ensures Match() && cells.Keys == old(cells.Keys)
      ensures Repaired(cells, root, done, Whole(path0, t0), f)
    {
      hide Formed, Linked, PathLinked, Balanced, PathBalanced, Whole, Bh, InOrder, Repaired;
      var n := node;
      RootCell(cells, root, path0, t0);
      var p := n.parent;
      ghost var path, t := path0, t0;
      while true
        invariant Match() && cells.Keys == old(cells.Keys)
        invariant Formed(cells, root, path, t) && Whole(path, t) == Whole(path0, t0)
        invariant IsRed(t) && t.node == n && p == Hook(path)
        invariant Balanced(t, f) && PathBalanced(path, Bh(t), f)
        decreases path
      {
        if p == null {
          Recolor(n, null, false, path, t, Black);
          done := Blacken(t);
          BlackenRoot(cells, root, t, f);
          break;
        }
        FrameFacts(cells, root, path, t);
        if !p.red {
          done := FinishAt(cells, root, path, t, f);
          break;
        }
        RedParent(path, Bh(t), f);
        var again, g;
        again, g, done := AddStep(n, p, path, t, f);
        if !again {
          break;
        }
        PushBlackDownKeeps(path, t, f);
        path, t := path.up.up, PushBlackDown(path, t);
        n := g;
        RootCell(cells, root, path, t);
        p := n.parent;
      }
    }

    /** One round below a red parent: the uncle decides between case 1, which goes on from the
        grandparent, and the rotations, which end the repair. */
    method AddStep(n: Node, p: Node, ghost path: Path, ghost t: Tree, ghost f: Node?) returns (again: bool, g: Node, ghost done: Tree)
      requires Match() && Formed(cells, root, path, t) && RedRed(path, t, f)
      requires n == t.node && p == path.node
      modifies this`root, this`cells, cells.Keys
      ensures Match() && cells.Keys == old(cells.Keys)
      ensures g == path.up.node
      ensures again ==> IsRed(path.up.sib) && Formed(cells, root, path.up.up, PushBlackDown(path, t))
      ensures !again ==> Repaired(cells, root, done, Whole(path, t), f)
    {
      hide Formed, Linked, PathLinked, Whole, InOrder, Repaired, PathBalanced, Balanced;
      done := Leaf;
      FrameFacts(cells, root, path, t);
      MoveUp(cells, root, path, t);
      FrameFacts(cells, root, path.up, Fill(path, t));
      g := p.parent;
      var u: Node?;
      if p == g.left {
        u := g.right;
      } else {
        u := g.left;
      }
      if u != null && u.red {
        again := true;
        AddCase1(p, g, u, path, t);
      } else {
        again := false;
        if p == g.left {
          done := AddCase23Left(n, p, g, path, t, f);
        } else {
          done := AddCase23Right(n, p, g, path, t, f);
        }
      }
    }

    /** Cases 2 and 3: one or two rotations end the repair. */
    method AddCase23Left(n0: Node, p0: Node, g: Node, ghost path: Path, ghost t: Tree, ghost f: Node?) returns (ghost done: Tree)
      requires Match() && Formed(cells, root, path, t) && RedRed(path, t, f) && !IsRed(path.up.sib)
      requires n0 == t.node && p0 == path.node && g == path.up.node && path.up.onLeft
      modifies this`root, this`cells, cells.Keys
      ensures Match() && cells.Keys == old(cells.Keys)
      ensures Repaired(cells, root, done, Whole(path, t), f)
    {
      hide Formed, Linked, PathLinked, InOrder, Whole, Repaired, Before, After;
      RedParent(path, Bh(t), f);
      var n, p := n0, p0;
      ghost var pg := path.up;
      FrameFacts(cells, root, path, t);
      MoveUp(cells, root, path, t);
      ghost var a, x := t, path.sib;
      if n == p.right {
        RotateLeft(n, pg, path.sib, p, Red, t.left, Red, t.right);
        a, x := Branch(path.sib, p, Red, t.left), t.right;
        TurnOrder(pg, path.sib, p, t.left, n, t.right, Red, Red, Red, Red);
        p := n;
        RootCell(cells, root, pg, Branch(a, p, Red, x));
        n := n.left;
      }
      MoveUp(cells, root, pg, Branch(a, p, Red, x));
      TurnOrder(pg.up, a, p, x, g, pg.sib, Black, Red, Red, Black);
      RotatedKeeps(pg.up, a, p, x, g, pg.sib, f);
      AddCase3Left(p, g, pg.up, a, x, pg.sib);
      done := FinishAt(cells, root, pg.up, Branch(a, p, Black, Branch(x, g, Red, pg.sib)), f);
    }

    method AddCase23Right(n0: Node, p0: Node, g: Node, ghost path: Path, ghost t: Tree, ghost f: Node?) returns (ghost done: Tree)
      requires Match() && Formed(cells, root, path, t) && RedRed(path, t, f) && !IsRed(path.up.sib)
      requires n0 == t.node && p0 == path.node && g == path.up.node && !path.up.onLeft
      modifies this`root, this`cells, cells.Keys
      ensures Match() && cells.Keys == old(cells.Keys)
      ensures Repaired(cells, root, done, Whole(path, t), f)
    {
      hide Formed, Linked, PathLinked, InOrder, Whole, Repaired;
      RedParent(path, Bh(t), f);
      var n, p := n0, p0;
      ghost var pg := path.up;
      FrameFacts(cells, root, path, t);
      MoveUp(cells, root, path, t);
      ghost var a, x := t, path.sib;
      if n == p.left {
        RotateRight(n, pg, t.left, Red, t.right, p, Red, path.sib);
        a, x := Branch(t.right, p, Red, path.sib), t.left;
        TurnOrder(pg, t.left, n, t.right, p, path.sib, Red, Red, Red, Red);
        p := n;
        RootCell(cells, root, pg, Branch(x, p, Red, a));
        n := n.right;
      }
      MoveUp(cells, root, pg, Branch(x, p, Red, a));
      AddCase3Right(p, g, pg.up, pg.sib, x, a);
      TurnOrder(pg.up, pg.sib, g, x, p, a, Black, Red, Red, Black);
      RotatedKeeps(pg.up, pg.sib, g, x, p, a, f);
      done := FinishAt(cells, root, pg.up, Branch(Branch(pg.sib, g, Red, x), p, Black, a), f);
    }

    // ----- removal -----

    /** Case 1: a red sibling is rotated above the parent, so that the new sibling is black. */
    method RemoveCase1Left(p: Node, s: Node, ghost path: Path, ghost t: Tree)
      requires Match() && Formed(cells, root, path, t)
      requires path.Step? && path.onLeft && path.sib.Branch? && p == path.node && s == path.sib.node
      modifies this`root, this`cells, cells.Keys
      ensures Match() && cells.Keys == old(cells.Keys)
      ensures Formed(cells, root, AfterCase1(path), t)
    {
      hide Formed, Linked, PathLinked;
      ghost var up, x, y := path.up, path.sib.left, path.sib.right;
      MoveUp(cells, root, path, t);
      RotateLeft(s, up, t, p, path.color, x, path.sib.color, y);
      Repaint(s, false, up, Branch(Branch(t, p, path.color, x), s, path.sib.color, y), Black);
      ghost var q := Step(up, true, s, Black, y);
      MoveDown(cells, root, q, Branch(t, p, path.color, x));
      Recolor(p, s, true, q, Branch(t, p, path.color, x), Red);
      MoveDown(cells, root, AfterCase1(path), t);
    }

    method RemoveCase1Right(p: Node, s: Node, ghost path: Path, ghost t: Tree)
      requires Match() && Formed(cells, root, path, t)
      requires path.Step? && !path.onLeft && path.sib.Branch? && p == path.node && s == path.sib.node
      modifies this`root, this`cells, cells.Keys
      ensures Match() && cells.Keys == old(cells.Keys)
      ensures Formed(cells, root, AfterCase1(path), t)
    {
      hide Formed, Linked, PathLinked;
      ghost var up, x, y := path.up, path.sib.right, path.sib.left;
      MoveUp(cells, root, path, t);
      RotateRight(s, up, y, path.sib.color, x, p, path.color, t);
      Repaint(s, false, up, Branch(y, s, path.sib.color, Branch(x, p, path.color, t)), Black);
      ghost var q := Step(up, false, s, Black, y);
      MoveDown(cells, root, q, Branch(x, p, path.color, t));
      Recolor(p, s, true, q, Branch(x, p, path.color, t), Red);
      MoveDown(cells, root, AfterCase1(path), t);
    }

    /** Case 2: the sibling turns red. */
    method RemoveCase2(p: Node, s: Node, ghost path: Path, ghost t: Tree)
      requires Match() && Formed(cells, root, path, t)
      requires path.Step? && path.sib.Branch? && p == path.node && s == path.sib.node
      modifies this`cells, cells.Keys
      ensures Match() && cells.Keys == old(cells.Keys)
      ensures Formed(cells, root, path.up, AfterCase2(path, t))
    {
      hide Formed, Linked, PathLinked;
      MoveUp(cells, root, path, t);
      SibFill(path, t);
      ghost var q := SibPath(path, t);
      MoveDown(cells, root, q, path.sib);
      Recolor(s, p, true, q, path.sib, Red);
      MoveUp(cells, root, q, Redden(path.sib));
    }

    /** Case 3: the sibling's red inner child is rotated above it. */
    method RemoveCase3Left(p: Node, s: Node, x: Node, ghost path: Path, ghost t: Tree)
      requires Match() && Formed(cells, root, path, t)
      requires path.Step? && path.onLeft && path.sib.Branch? && path.sib.left.Branch?
      requires p == path.node && s == path.sib.node && x == path.sib.left.node
      modifies this`root, this`cells, cells.Keys
      ensures Match() && cells.Keys == old(cells.Keys)
      ensures Formed(cells, root, AfterCase3(path), t)
    {
      hide Formed, Linked, PathLinked;
      MoveUp(cells, root, path, t);
      SibFill(path, t);
      ghost var q, sib := SibPath(path, t), path.sib;
      MoveDown(cells, root, q, sib);
      ghost var low := Branch(sib.left.right, s, sib.color, sib.right);
      RotateRight(x, q, sib.left.left, sib.left.color, sib.left.right, s, sib.color, sib.right);
      Recolor(x, p, false, q, Branch(sib.left.left, x, sib.left.color, low), Black);
      ghost var r := Step(q, false, x, Black, sib.left.left);
      MoveDown(cells, root, r, low);
      Recolor(s, x, true, r, low, Red);
      MoveUp(cells, root, r, Redden(low));
      SibFill(AfterCase3(path), t);
      MoveUp(cells, root, q, AfterCase3(path).sib);
      MoveDown(cells, root, AfterCase3(path), t);
    }

    method RemoveCase3Right(p: Node, s: Node, x: Node, ghost path: Path, ghost t: Tree)
      requires Match() && Formed(cells, root, path, t)
      requires path.Step? && !path.onLeft && path.sib.Branch? && path.sib.right.Branch?
      requires p == path.node && s == path.sib.node && x == path.sib.right.node
      modifies this`root, this`cells, cells.Keys
      ensures Match() && cells.Keys == old(cells.Keys)
      ensures Formed(cells, root, AfterCase3(path), t)
    {
      hide Formed, Linked, PathLinked;
      MoveUp(cells, root, path, t);
      SibFill(path, t);
      ghost var q, sib := SibPath(path, t), path.sib;
      MoveDown(cells, root, q, sib);
      ghost var low := Branch(sib.left, s, sib.color, sib.right.left);
      RotateLeft(x, q, sib.left, s, sib.color, sib.right.left, sib.right.color, sib.right.right);
      Recolor(x, p, false, q, Branch(low, x, sib.right.color, sib.right.right), Black);
      ghost var r := Step(q, true, x, Black, sib.right.right);
      MoveDown(cells, root, r, low);
      Recolor(s, x, true, r, low, Red);
      MoveUp(cells, root, r, Redden(low));
      SibFill(AfterCase3(path), t);
      MoveUp(cells, root, q, AfterCase3(path).sib);
      MoveDown(cells, root, AfterCase3(path), t);
    }

    /** Case 4: the sibling is rotated above the parent; the red outer child pays the shortage. */
    method RemoveCase4Left(p: Node, s: Node, y: Node, ghost path: Path, ghost t: Tree)
      requires Match() && Formed(cells, root, path, t)
      requires path.Step? && path.onLeft && path.sib.Branch? && path.sib.right.Branch?
      requires p == path.node && s == path.sib.node && y == path.sib.right.node
      modifies this`root, this`cells, cells.Keys
      ensures Match() && cells.Keys == old(cells.Keys)
      ensures Formed(cells, root, path.up, AfterCase4(path, t))
    {
      hide Formed, Linked, PathLinked;
      ghost var up, sib := path.up, path.sib;
      MoveUp(cells, root, path, t);
      RotateLeft(s, up, t, p, path.color, sib.left, sib.color, sib.right);
      ghost var low := Branch(t, p, path.color, sib.left);
      MoveDown(cells, root, Step(up, true, s, sib.color, sib.right), low);
      RootCell(cells, root, Step(up, true, s, sib.color, sib.right), low);
      Repaint(s, p.red, up, Branch(low, s, sib.color, sib.right), path.color);
      ghost var q := Step(up, true, s, path.color, sib.right);
      MoveDown(cells, root, q, low);
      Recolor(p, s, false, q, low, Black);
      low := Blacken(low);
      MoveUp(cells, root, q, low);
      ghost var r := Step(up, false, s, path.color, low);
      MoveDown(cells, root, r, sib.right);
      Recolor(y, s, false, r, sib.right, Black);
      MoveUp(cells, root, r, Blacken(sib.right));
    }

    method RemoveCase4Right(p: Node, s: Node, y: Node, ghost path: Path, ghost t: Tree)
      requires Match() && Formed(cells, root, path, t)
      requires path.Step? && !path.onLeft && path.sib.Branch? && path.sib.left.Branch?
      requires p == path.node && s == path.sib.node && y == path.sib.left.node
      modifies this`root, this`cells, cells.Keys
      ensures Match() && cells.Keys == old(cells.Keys)
      ensures Formed(cells, root, path.up, AfterCase4(path, t))
    {
      hide Formed, Linked, PathLinked;
      ghost var up, sib := path.up, path.sib;
      MoveUp(cells, root, path, t);
      RotateRight(s, up, sib.left, sib.color, sib.right, p, path.color, t);
      ghost var low := Branch(sib.right, p, path.color, t);
      MoveDown(cells, root, Step(up, false, s, sib.color, sib.left), low);
      RootCell(cells, root, Step(up, false, s, sib.color, sib.left), low);
      Repaint(s, p.red, up, Branch(sib.left, s, sib.color, low), path.color);
      ghost var q := Step(up, false, s, path.color, sib.left);
      MoveDown(cells, root, q, low);
      Recolor(p, s, false, q, low, Black);
      low := Blacken(low);
      MoveUp(cells, root, q, low);
      ghost var r := Step(up, true, s, path.color, low);
      MoveDown(cells, root, r, sib.left);
      Recolor(y, s, false, r, sib.left, Black);
      MoveUp(cells, root, r, Blacken(sib.left));
    }

    /** One round for a left child that is one black node short. */
    method RemoveStepLeft(p: Node, ghost path: Path, ghost t: Tree, ghost f: Node?)
      returns (again: bool, ghost path': Path, ghost t': Tree)
      requires Match() && Formed(cells, root, path, t) && Short(path, t, f)
      requires path.Step? && p == path.node && path.onLeft
      modifies this`root, this`cells, cells.Keys
      ensures Match() && cells.Keys == old(cells.Keys)
      ensures Stepped(cells, root, again, p, path, t, path', t', f)
    {
      hide Formed, Linked, PathLinked, Short, Whole, PathBalanced, Balanced, Fixable, Under;
      ghost var q := path;
      FrameFacts(cells, root, path, t);
      ShortSibling(path, t, f);
      var s := p.right;
      SiblingCells(cells, root, path, t);
      if s.red {
        Case1Keeps(path, t, f);
        RemoveCase1Left(p, s, path, t);
        q := AfterCase1(path);
        FrameFacts(cells, root, q, t);
        s := p.right;
      }
      again, path', t' := BlackSiblingLeft(p, s, path, q, t, f);
    }

    /** Cases 2, 3 and 4. */
    method BlackSiblingLeft(p: Node, s0: Node?, ghost path: Path, ghost q0: Path, ghost t: Tree, ghost f: Node?)
      returns (again: bool, ghost path': Path, ghost t': Tree)
      requires Match() && Formed(cells, root, q0, t) && Short(q0, t, f) && Whole(q0, t) == Whole(path, t)
      requires q0.Step? && path.Step? && p == q0.node && q0.onLeft && s0 == Root(q0.sib) && !IsRed(q0.sib)
      requires q0.color.Red? || q0 == path
      modifies this`root, this`cells, cells.Keys
      ensures Match() && cells.Keys == old(cells.Keys)
      ensures Stepped(cells, root, again, p, path, t, path', t', f)
    {
      hide Formed, Linked, PathLinked, Short, Whole, PathBalanced, Balanced, Fixable, Under, Stepped;
      ghost var q := q0;
      ShortSibling(q, t, f);
      SiblingCells(cells, root, q, t);
      var s: Node := s0;
      var x := s.left;
      var y := s.right;
      if (x == null || !x.red) && (y == null || !y.red) {
        Case2Keeps(q, t, f);
        RemoveCase2(p, s, q, t);
        again, path', t' := true, q.up, AfterCase2(q, t);
      } else {
        if y == null || !y.red {
          Case3Keeps(q, t, f);
          RemoveCase3Left(p, s, x, q, t);
          q := AfterCase3(q);
          y := s;
          s := x;
          x := x.left;
        }
        Case4Keeps(q, t, f);
        RemoveCase4Left(p, s, y, q, t);
        again, path', t' := false, q.up, AfterCase4(q, t);
      }
      SteppedBy(cells, root, again, p, path, q, t, path', t', f);
    }

    /** One round for a right child that is one black node short. */
    method RemoveStepRight(p: Node, ghost path: Path, ghost t: Tree, ghost f: Node?)
      returns (again: bool, ghost path': Path, ghost t': Tree)
      requires Match() && Formed(cells, root, path, t) && Short(path, t, f)
      requires path.Step? && p == path.node && !path.onLeft
      modifies this`root, this`cells, cells.Keys
      ensures Match() && cells.Keys == old(cells.Keys)
      ensures Stepped(cells, root, again, p, path, t, path', t', f)
    {
      hide Formed, Linked, PathLinked, Short, Whole, PathBalanced, Balanced, Fixable, Under;
      ghost var q := path;
      FrameFacts(cells, root, path, t);
      ShortSibling(path, t, f);
      var s := p.left;
      SiblingCells(cells, root, path, t);
      if s.red {
        Case1Keeps(path, t, f);
        RemoveCase1Right(p, s, path, t);
        q := AfterCase1(path);
        FrameFacts(cells, root, q, t);
        s := p.left;
      }
      again, path', t' := BlackSiblingRight(p, s, path, q, t, f);
    }

    /** Cases 2, 3 and 4. */
    method BlackSiblingRight(p: Node, s0: Node?, ghost path: Path, ghost q0: Path, ghost t: Tree, ghost f: Node?)
      returns (again: bool, ghost path': Path, ghost t': Tree)
      requires Match() && Formed(cells, root, q0, t) && Short(q0, t, f) && Whole(q0, t) == Whole(path, t)
      requires q0.Step? && path.Step? && p == q0.node && !q0.onLeft && s0 == Root(q0.sib) && !IsRed(q0.sib)
      requires q0.color.Red? || q0 == path
      modifies this`root, this`cells, cells.Keys
      ensures Match() && cells.Keys == old(cells.Keys)
      ensures Stepped(cells, root, again, p, path, t, path', t', f)
    {
      hide Formed, Linked, PathLinked, Short, Whole, PathBalanced, Balanced, Fixable, Under, Stepped;
      ghost var q := q0;
      ShortSibling(q, t, f);
      SiblingCells(cells, root, q, t);
      var s: Node := s0;
      var x := s.right;
      var y := s.left;
      if (x == null || !x.red) && (y == null || !y.red) {
        Case2Keeps(q, t, f);
        RemoveCase2(p, s, q, t);
        again, path', t' := true, q.up, AfterCase2(q, t);
      } else {
        if y == null || !y.red {
          Case3Keeps(q, t, f);
          RemoveCase3Right(p, s, x, q, t);
          q := AfterCase3(q);
          y := s;
          s := x;
          x := x.right;
        }
        Case4Keeps(q, t, f);
        RemoveCase4Right(p, s, y, q, t);
        again, path', t' := false, q.up, AfterCase4(q, t);
      }
      SteppedBy(cells, root, again, p, path, q, t, path', t', f);
    }

    /** One round: the cases on the side of `n`. */
    method RemoveRound(n: Node, p: Node, ghost path: Path, ghost t: Tree, ghost path0: Path, ghost t0: Tree, ghost f: Node?)
      returns (again: bool, ghost path': Path, ghost t': Tree, ghost done: Tree)
      requires Match() && Formed(cells, root, path, t) && t.Branch? && n == t.node && !IsRed(t)
      requires path.Step? && p == path.node && Fixable(t, f) && PathBalanced(path, Bh(t) + 1, f)
      requires path0.Step? && t0.Branch?
      requires t0.color.Fake? ==> (path == path0 && t == t0) || Under(t, path0.node, t0)
      modifies this`root, this`cells, cells.Keys
      ensures Match() && cells.Keys == old(cells.Keys)
      ensures again ==> Formed(cells, root, path', t') && Whole(path', t') == Whole(path, t)
                        && t'.Branch? && t'.node == p && Fixable(t', f) && PathBalanced(path', Bh(t') + 1, f)
                        && (IsRed(t') || Depth(path') < Depth(path))
                        && (t0.color.Fake? ==> Under(t', path0.node, t0))
      ensures !again ==> Repaired(cells, root, done, Whole(path, t), f) && (t0.color.Fake? ==> Under(done, path0.node, t0))
    {
      hide Formed, Linked, PathLinked, PathBalanced, Balanced, Fixable, Whole, Under, Repaired, InOrder, Stepped, Bh, Depth, Short;
      FrameFacts(cells, root, path, t);
      FixableShort(path, t, f);
      if n == p.left {
        again, path', t' := RemoveStepLeft(p, path, t, f);
      } else {
        again, path', t' := RemoveStepRight(p, path, t, f);
      }
      done := AfterStep(cells, root, again, p, path, t, path', t', path0, t0, f);
    }

    /** rb_remove_fixup. Every path through `node` has one black node too few. */
    method RemoveFixup(node: Node, ghost path0: Path, ghost t0: Tree, ghost f: Node?) returns (ghost done: Tree)
      requires Match() && Formed(cells, root, path0, t0)
      requires Fixable(t0, f) && t0.node == node && path0.Step? && PathBalanced(path0, Bh(t0) + 1, f)
      modifies this`root, this`cells, cells.Keys
      ensures Match() && cells.Keys == old(cells.Keys)
      ensures Repaired(cells, root, done, Whole(path0, t0), f)
      ensures t0.color.Fake? ==> Under(done, path0.node, t0)
    {
      hide Formed, Linked, PathLinked, PathBalanced, Balanced, Fixable, Whole, Under, Repaired, InOrder, Stepped, Bh;
      var n := node;
      FixableBranch(t0, f);
      RootCell(cells, root, path0, t0);
      var p := n.parent;
      ghost var path, t := path0, t0;
      while true
        invariant Match() && cells.Keys == old(cells.Keys)
        invariant Formed(cells, root, path, t) && Whole(path, t) == Whole(path0, t0)
        invariant t.Branch? && t.node == n && p == Hook(path)
        invariant Fixable(t, f) && PathBalanced(path, Bh(t) + 1, f)
        invariant t0.color.Fake? ==> (path == path0 && t == t0) || Under(t, path0.node, t0)
        decreases if IsRed(t) then 0 else 1 + Depth(path)
      {
        RootCell(cells, root, path, t);
        if n.red {
          Repaint(n, false, path, t, Black);
          done := FinishRed(cells, root, path, t, f);
          FinishUnder(path, t, path0, t0);
          break;
        }
        if p == null {
          done := t;
          FinishTop(cells, root, t, f);
          break;
        }
        ghost var path', t';
        var again;
        again, path', t', done := RemoveRound(n, p, path, t, path0, t0, f);
        if !again {
          break;
        }
        path, t := path', t';
        RootCell(cells, root, path, t);
        n := p;
        p := n.parent;
      }
    }

    /** Makes the link from above that leads to `from` lead to `to`. */
    method Redirect(g: Node?, from: Node, to: Node)
      requires Match() && (g != null ==> g in cells && (cells[g].left == from || cells[g].right == from))
      modifies this`root, this`cells, cells.Keys
      ensures Match()
      ensures cells == if g == null then old(cells) else old(cells)[g := Redirected(old(cells)[g], from, to)]
      ensures root == if g == null then to else old(root)
    {
      if g == null {
        root := to;
      } else if g.left == from {
        SetLeft(g, to);
      } else {
        SetRight(g, to);
      }
    }

    method AdoptLeft(m: Node, l: Node?)
      requires Match() && m in cells && (l != null ==> l in cells && l != m)
      modifies this`cells, cells.Keys
      ensures Match()
      ensures cells == var c := old(cells)[m := old(cells)[m].(left := l)];
                       if l == null then c else c[l := c[l].(parent := m)]
    {
      SetLeft(m, l);
      if m.left != null {
        SetParent(m.left, m);
      }
    }

    method AdoptRight(m: Node, r: Node?)
      requires Match() && m in cells && (r != null ==> r in cells && r != m)
      modifies this`cells, cells.Keys
      ensures Match()
      ensures cells == var c := old(cells)[m := old(cells)[m].(right := r)];
                       if r == null then c else c[r := c[r].(parent := m)]
    {
      SetRight(m, r);
      if m.right != null {
        SetParent(m.right, m);
      }
    }

    /** `m` takes over the given fields and becomes the parent of its new children. */
    method TakeOver(m: Node, parent: Node?, red: bool, l: Node?, r: Node?)
      requires Match() && m in cells
      requires l != null ==> l in cells && l != m && l != r
      requires r != null ==> r in cells && r != m
      modifies this`cells, cells.Keys
      ensures Match() && cells.Keys == old(cells.Keys)
      ensures forall k :: k in cells ==> (cells[k] == Adopted(old(cells), m, Cell(parent, red, l, r), k))
    {
      ghost var c := cells;
      SetParentAndColor(m, parent, red);
      ghost var c0 := cells;
      AdoptLeft(m, l);
      ghost var c1 := cells;
      AdoptRight(m, r);
      AdoptedBySteps(c, c0, c1, cells, m, Cell(parent, red, l, r));
    }

    /** rb_exchange. */
    method Exchange(victim: Node, replacement: Node)
      requires Match() && ToExchange(cells, root, victim, replacement)
      modifies this`root, this`cells, cells.Keys
      ensures Match() && cells.Keys == old(cells.Keys)
      ensures Exchanged(old(cells), cells, victim, replacement) && root == SwapRef(old(root), victim, replacement)
    {
      hide ToExchange, SwapCell, Exchanged, SwapRef, HalfExchanged, FieldsSwapped;
      ghost var c := cells;
      ExchangeFacts(c, root, victim, replacement);
      RedirectBoth(victim, replacement);
      ghost var c1, root1 := cells, root;
      ExchangeReady(c, old(root), c1, root1, victim, replacement);
      SwapFields(victim, replacement);
      HalvesMakeExchange(c, old(root), c1, root1, cells, victim, replacement);
    }

    /** The first half: the links from above. */
    method RedirectBoth(victim: Node, replacement: Node)
      requires Match() && ToExchange(cells, root, victim, replacement)
      modifies this`root, this`cells, cells.Keys
      ensures Match() && cells.Keys == old(cells.Keys)
      ensures HalfExchanged(old(cells), old(root), cells, root, victim, replacement)
    {
      hide ToExchange, ChildBack, Consistent, ParentBack;
      ExchangeFacts(cells, root, victim, replacement);
      ghost var c := cells;
      Redirect(victim.parent, victim, replacement);
      assert replacement.parent == c[replacement].parent;
      Redirect(replacement.parent, replacement, victim);
    }

    /** The second half: the nodes' own fields. */
    method SwapFields(victim: Node, replacement: Node)
      requires Match() && victim in cells && replacement in cells && victim != replacement
      requires cells[replacement].left == null
      requires cells[victim].left != null && cells[victim].left in cells && cells[victim].left != replacement
      requires cells[victim].left != victim && cells[victim].left != cells[victim].right
      requires cells[victim].right != null && cells[victim].right in cells && cells[victim].right != replacement
      requires cells[replacement].right != null ==> cells[replacement].right in cells
      requires cells[replacement].right !in {victim, replacement}
      requires cells[replacement].right != null ==> cells[replacement].right !in {cells[victim].left, cells[victim].right}
      modifies this`cells, cells.Keys
      ensures Match() && cells.Keys == old(cells.Keys)
      ensures FieldsSwapped(old(cells), cells, victim, replacement)
    {
      var p, red := victim.parent, victim.red;
      var l := victim.left;
      var r := victim.right;
      TakeOver(victim, replacement.parent, replacement.red, replacement.left, replacement.right);
      TakeOver(replacement, p, red, l, r);
    }

    // ----- the object invariant -----

    ghost predicate Valid()
      reads this, cells.Keys
    {
      && Match()
      && At(cells, root, Top, shape, null) && cells.Keys == Nodes(shape)
      && Sorted(InOrder(shape))
    }

    /** The nodes of the tree in order. */
    ghost function Contents(): seq<Node>
      reads this
    {
      InOrder(shape)
    }

    constructor ()
      ensures Valid() && Contents() == [] && cells == map[]
    {
      root := null;
      cells := map[];
      shape := Leaf;
    }

    // ----- removal of a node with at most one child -----

    /** A black node without children: rebalance around it, then cut it off. */
    method RemoveBlackLeaf(node: Node, p: Node, ghost q: Path, ghost sub: Tree) returns (ghost done: Tree)
      requires Match() && At(cells, root, q, sub, null) && sub == Branch(Leaf, node, Black, Leaf)
      requires q.Step? && p == q.node
      modifies this`root, this`cells, cells.Keys
      ensures Match() && cells.Keys == old(cells.Keys)
      ensures Formed(cells, root, Top, done) && Balanced(done, null) && !IsRed(done)
      ensures InOrder(done) == Before(q) + After(q)
    {
      hide Formed, Linked, PathLinked, PathBalanced, Whole, Repaired, Under, Before, After, PathNodes;
      ghost var fake := Branch(Leaf, node, Fake, Leaf);
      RootCell(cells, root, q, sub);
      RecolorForms(cells, cells[node := cells[node].(red := Color.Fake.Red?)], root, q, sub, Fake);
      assert cells[node := cells[node].(red := Color.Fake.Red?)] == cells;
      PathWithStandIn(q, 1, node);
      ghost var whole := RemoveFixup(node, q, fake, node);
      RepairedAt(cells, root, whole, Whole(q, fake), node);
      ghost var q2 := LocateUnder(cells, root, Top, whole, p, fake, node);
      FrameFacts(cells, root, q2, fake);
      ghost var c := cells;
      if p.left == node {
        SetLeft(p, null);
      } else {
        SetRight(p, null);
      }
      UnlinkForms(c, cells, root, root, q2, fake);
      StandInOutside(c, root, q2, fake);
      PathWithout(q2, 0, node);
      done := FinishAt(cells, root, q2, Leaf, null);
      WholeOfStandIn(q, q2, node);
    }

    /** Removal at the root: the only child, if any, becomes a black root. */
    method RemoveTop(node: Node, n: Node?, ghost sub: Tree) returns (ghost done: Tree)
      requires Match() && At(cells, root, Top, sub, null)
      requires sub.Branch? && sub.node == node && (sub.left.Leaf? || sub.right.Leaf?) && n == Root(OnlyChild(sub))
      modifies this`root, this`cells, cells.Keys
      ensures Match() && cells.Keys == old(cells.Keys)
      ensures Formed(cells, root, Top, done) && Balanced(done, null) && !IsRed(done)
      ensures InOrder(done) == InOrder(OnlyChild(sub))
    {
      hide Formed, Linked, PathLinked, PathBalanced, Balanced;
      UnaryFacts(cells, root, Top, sub);
      ghost var c := cells;
      ghost var ch := OnlyChild(sub);
      root := n;
      if n != null {
        SetParent(n, null);
        UnlinkForms(c, cells, old(root), root, Top, sub);
        Repaint(n, false, Top, ch, Black);
        done := Blacken(ch);
        BlackenBalanced(ch);
      } else {
        UnlinkForms(c, cells, old(root), root, Top, sub);
        done := ch;
      }
    }

    /** The only child, if any, takes the node's place below `p`. */
    method LinkAround(node: Node, p: Node, n: Node?, ghost q: Path, ghost sub: Tree)
      requires Match() && At(cells, root, q, sub, null) && q.Step? && p == q.node
      requires sub.Branch? && sub.node == node && (sub.left.Leaf? || sub.right.Leaf?) && n == Root(OnlyChild(sub))
      modifies this`root, this`cells, cells.Keys
      ensures Match() && cells.Keys == old(cells.Keys)
      ensures Formed(cells, root, q, OnlyChild(sub))
    {
      hide Formed, Linked, PathLinked, PathBalanced, Balanced, At;
      UnaryFacts(cells, root, q, sub);
      ghost var c := cells;
      if n != null {
        SetParent(n, p);
      }
      ReplaceChild(p, node, n, q);
      AtForms(c, old(root), q, sub);
      UnlinkForms(c, cells, old(root), root, q, sub);
    }

    /** rb_remove once the node has at most one child. */
    method RemoveUnary(node: Node, ghost q: Path, ghost sub: Tree) returns (ghost done: Tree)
      requires Match() && At(cells, root, q, sub, null)
      requires sub.Branch? && sub.node == node && (sub.left.Leaf? || sub.right.Leaf?)
      modifies this`root, this`cells, cells.Keys
      ensures Match() && cells.Keys == old(cells.Keys)
      ensures Formed(cells, root, Top, done) && Balanced(done, null) && !IsRed(done)
      ensures InOrder(done) == Before(q) + InOrder(OnlyChild(sub)) + After(q)
    {
      hide Formed, Linked, PathLinked, PathBalanced, Balanced;
      UnaryFacts(cells, root, q, sub);
      var p := node.parent;
      var n := if node.left != null then node.left else node.right;
      if p == null {
        done := RemoveTop(node, n, sub);
      } else if !node.red {
        if n == null {
          done := RemoveBlackLeaf(node, p, q, sub);
        } else {
          LinkAround(node, p, n, q, sub);
          done := RemoveFixup(n, q, OnlyChild(sub), null);
        }
      } else {
        LinkAround(node, p, n, q, sub);
        done := FinishAt(cells, root, q, OnlyChild(sub), null);
      }
    }

    // ----- walking -----

    /** rb_next, at a known place in the tree. */
    method NextAt(node: Node, ghost q: Path, ghost sub: Tree) returns (r: Node?)
      requires Match() && At(cells, root, q, sub, null) && sub.Branch? && sub.node == node
      ensures r == FirstOf(InOrder(sub.right) + After(q))
    {
      hide PathBalanced, Balanced, Linked, PathLinked;
      AtForms(cells, root, q, sub);
      RootCell(cells, root, q, sub);
      if node.right != null {
        r := node.right;
        AtNotFake(cells, root, q, sub);
        AtChildren(cells, root, q, sub, null);
        ghost var p, t := Step(q, false, node, sub.color, sub.left), sub.right;
        RootCell(cells, root, p, t);
        while r.left != null
          invariant At(cells, root, p, t, null) && t.Branch? && t.node == r
          invariant r in cells && cells[r].left == Root(t.left)
          invariant InOrder(t)[0] == InOrder(sub.right)[0]
          decreases t
        {
          AtNotFake(cells, root, p, t);
          AtChildren(cells, root, p, t, null);
          r := r.left;
          p, t := Step(p, true, t.node, t.color, t.right), t.left;
          RootCell(cells, root, p, t);
        }
      } else {
        var cur := node;
        r := cur.parent;
        ghost var p, t := q, sub;
        FrameFacts(cells, root, p, t);
        while r != null && cur == r.right
          invariant Formed(cells, root, p, t) && t.Branch? && t.node == cur && r == Hook(p)
          invariant p.Step? ==> p.node in cells && cells[p.node] == FrameCell(p, cur) && cur != Root(p.sib)
          invariant After(p) == After(q)
          decreases p
        {
          MoveUp(cells, root, p, t);
          cur := r;
          p, t := p.up, Fill(p, t);
          RootCell(cells, root, p, t);
          FrameFacts(cells, root, p, t);
          r := cur.parent;
        }
      }
    }

    /** rb_next: the node that follows in order, or null. */
    method Next(node: Node) returns (r: Node?)
      requires Valid() && node in cells
      ensures exists i :: Follows(Contents(), node, i, r)
    {
      hide PathBalanced, Balanced, Formed, Sorted, Linked, PathLinked, InOrder, Before, After, Nodes, PathNodes;
      ghost var q, sub := Locate(cells, root, Top, shape, node);
      r := NextAt(node, q, sub);
      WholeTop(shape);
      FollowsIn(Contents(), q, sub);
    }

    /** rb_first. */
    method First() returns (r: Node?)
      requires Valid()
      ensures r == FirstOf(Contents())
    {
      r := null;
      if root != null {
        r := root;
        ghost var p, t := Top, shape;
        RootCell(cells, root, p, t);
        while r.left != null
          invariant At(cells, root, p, t, null) && t.Branch? && t.node == r
          invariant r in cells && cells[r].left == Root(t.left)
          invariant InOrder(t)[0] == InOrder(shape)[0]
          decreases t
        {
          AtNotFake(cells, root, p, t);
          AtChildren(cells, root, p, t, null);
          r := r.left;
          p, t := Step(p, true, t.node, t.color, t.right), t.left;
          RootCell(cells, root, p, t);
        }
      }
    }

    /** The loop `for (cur = rb_first(tree); cur; cur = rb_next(cur))` meets every node once, in order. */
    method Walk() returns (visited: seq<Node>)
      requires Valid()
      ensures visited == Contents()
    {
      hide At, Formed, Sorted, InOrder, Nodes;
      visited := [];
      AtForms(cells, root, Top, shape);
      ContentsDistinct(cells, root, shape);
      var cur := First();
      if cur != null {
        InOrderAt(shape, 0);
      }
      while cur != null
        invariant |visited| <= |Contents()| && visited == Contents()[..|visited|]
        invariant cur == if |visited| < |Contents()| then Contents()[|visited|] else null
        invariant cur != null ==> cur in cells
        decreases |Contents()| - |visited|
      {
        visited := visited + [cur];
        cur := Next(cur);
        if cur != null {
          InOrderAt(shape, |visited|);
        }
      }
    }

    // ----- searching -----

    /** rb_lower_bound: the node with the least key that is not below `key`. */
    method LowerBound(key: int) returns (r: Node?)
      requires Valid()
      ensures r == null ==> forall m :: m in cells ==> m.key < key
      ensures r != null ==> r in cells && key <= r.key
                            && forall m :: m in cells && key <= m.key ==> r.key <= m.key
    {
      hide PathBalanced, Balanced, Formed, At, Sorted, Whole, InOrder, Nodes, Linked, PathLinked;
      AtForms(cells, root, Top, shape);
      var cur := root;
      r := null;
      ghost var p, t := Top, shape;
      FrameFacts(cells, root, p, t);
      InOrderNodes(shape);
      WholeTop(shape);
      while cur != null
        invariant At(cells, root, p, t, null) && cur == Root(t) && Whole(p, t) == Contents()
        invariant r == FirstOf(After(p))
        invariant forall m :: m in Before(p) ==> m.key < key
        invariant r != null ==> r in cells && key < r.key
        decreases t
      {
        AtForms(cells, root, p, t);
        AtNotFake(cells, root, p, t);
        AtChildren(cells, root, p, t, null);
        RootCell(cells, root, p, t);
        SortedAround(Contents(), p, t);
        if key < cur.key {
          r := cur;
          cur := cur.left;
          p, t := Step(p, true, t.node, t.color, t.right), t.left;
        } else if key > cur.key {
          cur := cur.right;
          p, t := Step(p, false, t.node, t.color, t.left), t.right;
        } else {
          r := cur;
          return;
        }
      }
      LowerMiss(Contents(), p, key);
    }

    /** rb_upper_bound: the node with the greatest key that is not above `key`. */
    method UpperBound(key: int) returns (r: Node?)
      requires Valid()
      ensures r == null ==> forall m :: m in cells ==> key < m.key
      ensures r != null ==> r in cells && r.key <= key
                            && forall m :: m in cells && m.key <= key ==> m.key <= r.key
    {
      hide PathBalanced, Balanced, Formed, At, Sorted, Whole, InOrder, Nodes, Linked, PathLinked;
      AtForms(cells, root, Top, shape);
      var cur := root;
      r := null;
      ghost var p, t := Top, shape;
      FrameFacts(cells, root, p, t);
      InOrderNodes(shape);
      WholeTop(shape);
      while cur != null
        invariant At(cells, root, p, t, null) && cur == Root(t) && Whole(p, t) == Contents()
        invariant r == LastOf(Before(p))
        invariant forall m :: m in After(p) ==> key < m.key
        invariant r != null ==> r in cells && r.key < key
        decreases t
      {
        AtForms(cells, root, p, t);
        AtNotFake(cells, root, p, t);
        AtChildren(cells, root, p, t, null);
        RootCell(cells, root, p, t);
        SortedAround(Contents(), p, t);
        if key < cur.key {
          cur := cur.left;
          p, t := Step(p, true, t.node, t.color, t.right), t.left;
        } else if key > cur.key {
          r := cur;
          cur := cur.right;
          p, t := Step(p, false, t.node, t.color, t.left), t.right;
        } else {
          r := cur;
          return;
        }
      }
      UpperMiss(Contents(), p, key);
    }

    // ----- the two updates -----

    /** A node with two children changes places with its successor, which has no left child. */
    method ExchangeWithNext(node: Node, next: Node, ghost q: Path, ghost sub: Tree) returns (ghost q': Path, ghost sub': Tree)
      requires Match() && At(cells, root, q, sub, null) && sub.Branch? && sub.node == node
      requires sub.left.Branch? && sub.right.Branch? && next == InOrder(sub.right)[0]
      requires Consistent(cells, root)
      modifies this`root, this`cells, cells.Keys
      ensures Match() && cells.Keys == old(cells.Keys)
      ensures At(cells, root, q', sub', null) && sub'.Branch? && sub'.node == node && sub'.left.Leaf?
      ensures Whole(q, sub) == Before(q) + InOrder(sub.left) + [node] + ([next] + InOrder(sub'.right) + After(q'))
      ensures Before(q') == Before(q) + InOrder(sub.left) + [next]
    {
      hide At, Formed, Exchanged, ToExchange, Consistent, Whole, InOrder, Nodes, PathNodes, After;
      ghost var c := cells;
      ghost var r := Step(q, false, node, sub.color, sub.left);
      AtNotFake(c, root, q, sub);
      AtChildren(c, root, q, sub, null);
      ghost var w, t := Leftmost(c, root, r, sub.right);
      SuccessorApart(c, root, q, sub, w, t);
      Exchange(node, next);
      SuccessorSwapped(c, old(root), cells, root, q, sub, w, t);
      q', sub' := SwapPath(w, node, next), SwapTree(t, node, next);
    }

    /** The first step of rb_remove: afterwards the node has at most one child. */
    method Isolate(node: Node) returns (ghost q: Path, ghost sub: Tree, ghost a: seq<Node>, ghost b: seq<Node>)
      requires Valid() && node in cells
      modifies this`root, this`cells, cells.Keys
      ensures Match() && cells.Keys == old(cells.Keys)
      ensures At(cells, root, q, sub, null) && sub.Branch? && sub.node == node && (sub.left.Leaf? || sub.right.Leaf?)
      ensures old(Contents()) == a + [node] + b
      ensures Before(q) + InOrder(OnlyChild(sub)) + After(q) == a + b
    {
      hide At, Formed, Whole, InOrder, Nodes, PathNodes, Before, After, Sorted, Consistent;
      q, sub := Locate(cells, root, Top, shape, node);
      WholeTop(shape);
      AtForms(cells, root, Top, shape);
      AtForms(cells, root, q, sub);
      RootCell(cells, root, q, sub);
      if node.left != null && node.right != null {
        var next := NextAt(node, q, sub);
        ShapeConsistent(cells, root, shape);
        NextInSubtree(sub.right, After(q));
        a := Before(q) + InOrder(sub.left);
        q, sub := ExchangeWithNext(node, next, q, sub);
        b := [next] + InOrder(sub.right) + After(q);
        RegroupNext(a, next, InOrder(sub.right), After(q));
      } else {
        a, b := SplitAtUnary(q, sub);
      }
    }

    /** rb_remove. */
    method Remove(node: Node)
      requires Valid() && node in cells
      modifies this, cells.Keys
      ensures Valid() && cells.Keys == old(cells.Keys) - {node}
      ensures Contents() == Without(old(Contents()), node)
    {
      hide At, Formed, Whole, InOrder, Nodes, PathNodes, Before, After, Sorted, Without, Balanced;
      ghost var order := Contents();
      AtForms(cells, root, Top, shape);
      ghost var q, sub, a, b := Isolate(node);
      ghost var done := RemoveUnary(node, q, sub);
      RemovedOnce(old(cells), old(root), order, a, node, b, old(shape), done);
      Forget(node, done);
    }

    /** The removed node no longer belongs to the tree. */
    ghost method Forget(node: Node, done: Tree)
      requires Match() && node in cells && node !in Nodes(done)
      requires Formed(cells, root, Top, done) && Balanced(done, null) && !IsRed(done)
      modifies this`cells, this`shape
      ensures Match() && cells.Keys == old(cells.Keys) - {node} && shape == done
      ensures At(cells, root, Top, shape, null)
    {
      hide Formed, Balanced;
      ForgetForms(cells, root, Top, done, node);
      cells := cells - {node};
      shape := done;
    }

    // ----- insertion -----

    /** From here on the node's memory is part of what the tree describes. */
    ghost method Enlist(node: Node)
      requires Match() && node !in cells && At(cells, root, Top, shape, null) && cells.Keys == Nodes(shape)
      modifies this`cells
      ensures Match() && cells.Keys == old(cells.Keys) + {node}
      ensures forall m :: m in old(cells) ==> cells[m] == old(cells)[m]
    {
      cells := cells[node := Cell(node.parent, node.red, node.left, node.right)];
    }

    /** The new node as a red leaf in the hole of `p`. */
    method Attach(cur: Node, node: Node, left: bool, ghost p: Path)
      requires Match() && Formed(cells, root, p, Leaf) && node in cells
      requires cells[node].left == null && cells[node].right == null
      requires p.Step? && p.node == cur && p.onLeft == left && node !in PathNodes(p)
      modifies this`cells, cells.Keys
      ensures Match() && cells.Keys == old(cells.Keys)
      ensures Formed(cells, root, p, Branch(Leaf, node, Red, Leaf))
    {
      hide Formed, Linked, PathLinked;
      FrameFacts(cells, root, p, Leaf);
      HookIn(p);
      ghost var c := cells;
      if left {
        SetLeft(cur, node);
      } else {
        SetRight(cur, node);
      }
      SetParentAndColor(node, cur, true);
      AttachForms(c, cells, root, p, node);
    }

    /** The descent of rb_add: the node goes behind all nodes whose key is not greater. */
    method Descend(node: Node) returns (ghost p: Path)
      requires Match() && root != null && At(cells, root, Top, shape, null) && Sorted(InOrder(shape))
      requires node in cells && node !in Nodes(shape) && cells[node].left == null && cells[node].right == null
      modifies this`cells, cells.Keys
      ensures Match() && cells.Keys == old(cells.Keys)
      ensures Formed(cells, root, p, Branch(Leaf, node, Red, Leaf))
      ensures PathBalanced(p, 0, null) && Whole(p, Leaf) == InOrder(shape)
      ensures AllAtMost(Before(p), node.key) && AllAbove(After(p), node.key)
    {
      hide At, Formed, Whole, InOrder, Nodes, PathNodes, Before, After, Sorted, PathBalanced, Balanced, Linked, PathLinked, Bh;
      WholeTop(shape);
      AtForms(cells, root, Top, shape);
      FrameFacts(cells, root, Top, shape);
      var cur := root;
      p := Top;
      ghost var t := shape;
      RootCell(cells, root, p, t);
      TopNodes();
      while true
        invariant cells == old(cells) && Match()
        invariant At(cells, root, p, t, null) && t.Branch? && cur == t.node && Whole(p, t) == InOrder(shape)
        invariant cur in cells && cells[cur] == Cell(Hook(p), t.color.Red?, Root(t.left), Root(t.right))
        invariant PathNodes(p) + Nodes(t) == Nodes(shape)
        invariant AllAtMost(Before(p), node.key) && AllAbove(After(p), node.key)
        decreases t
      {
        AtNotFake(cells, root, p, t);
        AtChildren(cells, root, p, t, null);
        DescentOrder(InOrder(shape), p, t, node.key);
        ghost var left := node.key < cur.key;
        if node.key < cur.key {
          p, t := Step(p, true, t.node, t.color, t.right), t.left;
          AtForms(cells, root, p, t);
          if cur.left == null {
            Attach(cur, node, true, p);
            break;
          }
          cur := cur.left;
        } else {
          p, t := Step(p, false, t.node, t.color, t.left), t.right;
          AtForms(cells, root, p, t);
          if cur.right == null {
            Attach(cur, node, false, p);
            break;
          }
          cur := cur.right;
        }
        RootCell(cells, root, p, t);
      }
      HoleBalanced(old(cells), root, p);
    }

    /** The new node loses its old links. */
    method Prepare(node: Node)
      requires Valid() && node !in cells
      modifies this`cells, node
      ensures Match() && cells.Keys == old(cells.Keys) + {node}
      ensures cells[node].left == null && cells[node].right == null
      ensures At(cells, root, Top, shape, null)
    {
      hide At;
      Enlist(node);
      SetLeft(node, null);
      SetRight(node, null);
      EnlistedAt(old(cells), cells, root, shape);
    }

    /** Insertion into the empty tree. */
    method AddFirst(node: Node)
      requires Match() && root == null && At(cells, root, Top, shape, null) && node in cells
      requires cells[node].left == null && cells[node].right == null
      modifies this, cells.Keys
      ensures Match() && cells.Keys == old(cells.Keys)
      ensures Nodes(old(shape)) == {} && Nodes(shape) == {node}
      ensures Contents() == Inserted(old(Contents()), node) && Sorted(Contents())
      ensures At(cells, root, Top, shape, null)
    {
      hide At, Sorted, Inserted, InOrder, Nodes;
      root := node;
      SetParentAndColor(node, null, false);
      FirstNode(old(cells), cells, shape, node);
      shape := Branch(Leaf, node, Black, Leaf);
    }

    /** rb_add. */
    method Add(node: Node)
      requires Valid() && node !in cells
      modifies this, cells.Keys, node
      ensures Valid() && cells.Keys == old(cells.Keys) + {node}
      ensures Contents() == Inserted(old(Contents()), node)
    {
      hide At, Formed, Whole, InOrder, Nodes, PathNodes, Before, After, Sorted, PathBalanced, Balanced, Inserted,
        Linked, PathLinked, Repaired, Bh, AllAtMost, AllAbove;
      Prepare(node);
      if root == null {
        AddFirst(node);
        return;
      }
      ghost var p := Descend(node);
      FreshBalanced(p, node);
      ghost var done := AddFixup(node, p, Branch(Leaf, node, Red, Leaf), null);
      AddedOnce(cells, root, InOrder(shape), p, node, shape, done);
      shape := done;
    }

    /** A tree of n nodes is at most 2*log2(n+1) high. */
    lemma HeightIsLogarithmic()
      requires Valid()
      ensures Pow2(Height(shape)) <= (|Contents()| + 1) * (|Contents()| + 1)
    {
      HeightBound(shape);
      InOrderLength(shape);
    }
  }
}
