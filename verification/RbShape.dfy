/**
 The shape of an intrusive red-black tree, seen as a value.

 A Tree is what hangs below a pointer; a Path is what lies above it (a zipper, innermost
 frame first). The fixup loops of the tree walk upwards, so their invariants are stated on
 a Path and the Tree that fills its hole.
 */
module RbShape {

  /** An intrusive node. The packed `_parent` word of the program is split into its two parts. */
  class Node {
    const key: int
    var parent: Node?
    var red: bool
    var left: Node?
    var right: Node?

    constructor (key: int)
      ensures this.key == key
    {
      this.key := key;
      parent, left, right, red := null, null, null, false;
    }
  }

  /** Fake is the colour of the childless black node that stands in for an absent leaf while
      removal rebalances: black in memory, but not counted in the black height. */
  datatype Color = Red | Black | Fake

  datatype Tree = Leaf | Branch(left: Tree, node: Node, color: Color, right: Tree)

  datatype Path = Top | Step(up: Path, onLeft: bool, node: Node, color: Color, sib: Tree)

  // ----- nodes and order -----

  ghost function Nodes(t: Tree): set<Node> {
    match t
    case Leaf => {}
    case Branch(l, n, _, r) => Nodes(l) + {n} + Nodes(r)
  }

  ghost function PathNodes(p: Path): set<Node> {
    match p
    case Top => {}
    case Step(up, _, n, _, sib) => PathNodes(up) + {n} + Nodes(sib)
  }

  ghost predicate Distinct(t: Tree) {
    t.Branch? ==>
      && t.node !in Nodes(t.left) && t.node !in Nodes(t.right)
      && Nodes(t.left) !! Nodes(t.right)
      && Distinct(t.left) && Distinct(t.right)
  }

  ghost predicate PathDistinct(p: Path) {
    p.Step? ==>
      && p.node !in PathNodes(p.up) && p.node !in Nodes(p.sib)
      && PathNodes(p.up) !! Nodes(p.sib)
      && PathDistinct(p.up) && Distinct(p.sib)
  }

  ghost function InOrder(t: Tree): seq<Node> {
    match t
    case Leaf => []
    case Branch(l, n, _, r) => InOrder(l) + [n] + InOrder(r)
  }

  /** Nodes that come before the hole of a path, in order. */
  ghost function Before(p: Path): seq<Node> {
    match p
    case Top => []
    case Step(up, onLeft, n, _, sib) => if onLeft then Before(up) else Before(up) + InOrder(sib) + [n]
  }

  /** Nodes that come after the hole of a path, in order. */
  ghost function After(p: Path): seq<Node> {
    match p
    case Top => []
    case Step(up, onLeft, n, _, sib) => if onLeft then [n] + InOrder(sib) + After(up) else After(up)
  }

  ghost function Whole(p: Path, t: Tree): seq<Node> {
    Before(p) + InOrder(t) + After(p)
  }

  /** The tree obtained by filling the hole of `p` with `t`. */
  ghost function Zip(p: Path, t: Tree): Tree
    decreases p
  {
    match p
    case Top => t
    case Step(up, onLeft, n, c, sib) =>
      Zip(up, if onLeft then Branch(t, n, c, sib) else Branch(sib, n, c, t))
  }

  lemma WholeStep(p: Path, t: Tree, t': Tree)
    requires p.Step?
    requires t' == if p.onLeft then Branch(t, p.node, p.color, p.sib) else Branch(p.sib, p.node, p.color, t)
    ensures Whole(p.up, t') == Whole(p, t)
  {
    if p.onLeft {
      assert InOrder(t') == InOrder(t) + ([p.node] + InOrder(p.sib));
    } else {
      assert InOrder(t') == InOrder(p.sib) + [p.node] + InOrder(t);
    }
  }

  lemma {:induction false} ZipInOrder(p: Path, t: Tree)
    ensures InOrder(Zip(p, t)) == Whole(p, t)
    decreases p
  {
    match p
    case Top =>
    case Step(up, onLeft, n, c, sib) =>
      var t' := if onLeft then Branch(t, n, c, sib) else Branch(sib, n, c, t);
      ZipInOrder(up, t');
      WholeStep(p, t, t');
  }

  lemma {:induction false} InOrderNodes(t: Tree)
    ensures forall n :: n in InOrder(t) <==> n in Nodes(t)
  {
    if t.Branch? {
      InOrderNodes(t.left);
      InOrderNodes(t.right);
    }
  }

  lemma {:induction false} PathOrderNodes(p: Path)
    ensures forall n :: n in Before(p) || n in After(p) <==> n in PathNodes(p)
  {
    if p.Step? {
      PathOrderNodes(p.up);
      InOrderNodes(p.sib);
    }
  }

  // ----- balance -----

  ghost predicate IsRed(t: Tree) { t.Branch? && t.color.Red? }

  ghost function Bh(t: Tree): nat {
    match t
    case Leaf => 0
    case Branch(l, _, c, _) => Bh(l) + if c.Black? then 1 else 0
  }

  /** No red node has a red child, all paths have the same number of black nodes, and only a
      childless `f` may be a stand-in. */
  ghost predicate Balanced(t: Tree, f: Node?) {
    t.Branch? ==>
      && Balanced(t.left, f) && Balanced(t.right, f) && Bh(t.left) == Bh(t.right)
      && (t.color.Red? ==> !IsRed(t.left) && !IsRed(t.right))
      && (t.color.Fake? ==> t.node == f && t.left.Leaf? && t.right.Leaf?)
  }

  ghost predicate TopRed(p: Path) { p.Step? && p.color.Red? }

  /** The path is balanced once its hole holds a tree of black height `h`. */
  ghost predicate PathBalanced(p: Path, h: nat, f: Node?) {
    p.Step? ==>
      && !p.color.Fake?
      && Balanced(p.sib, f) && Bh(p.sib) == h
      && (p.color.Red? ==> !IsRed(p.sib) && !TopRed(p.up) && p.up.Step?)
      && PathBalanced(p.up, h + if p.color.Black? then 1 else 0, f)
  }

  /** Filling a balanced path with a balanced tree of the expected height gives a red-black tree. */
  lemma {:induction false} ZipBalanced(p: Path, t: Tree, f: Node?)
    requires PathBalanced(p, Bh(t), f) && Balanced(t, f)
    requires IsRed(t) ==> p.Step? && !TopRed(p)
    ensures Balanced(Zip(p, t), f) && !IsRed(Zip(p, t))
    decreases p
  {
    match p
    case Top =>
    case Step(up, onLeft, n, c, sib) =>
      ZipBalanced(up, if onLeft then Branch(t, n, c, sib) else Branch(sib, n, c, t), f);
  }

  // ----- size and height -----

  ghost function Size(t: Tree): nat {
    match t
    case Leaf => 0
    case Branch(l, _, _, r) => Size(l) + 1 + Size(r)
  }

  ghost function Height(t: Tree): nat {
    match t
    case Leaf => 0
    case Branch(l, _, _, r) => 1 + if Height(l) < Height(r) then Height(r) else Height(l)
  }

  ghost function Pow2(n: nat): nat {
    if n == 0 then 1 else 2 * Pow2(n - 1)
  }

  lemma {:induction false} Pow2Add(a: nat, b: nat)
    ensures Pow2(a + b) == Pow2(a) * Pow2(b)
  {
    if a > 0 {
      Pow2Add(a - 1, b);
    }
  }

  lemma {:induction false} Pow2Monotone(a: nat, b: nat)
    requires a <= b
    ensures Pow2(a) <= Pow2(b)
    decreases b
  {
    if a < b {
      Pow2Monotone(a, b - 1);
    }
  }

  lemma {:induction false} HeightByBlacks(t: Tree)
    requires Balanced(t, null)
    ensures Height(t) <= 2 * Bh(t) + if IsRed(t) then 1 else 0
    ensures Pow2(Bh(t)) <= Size(t) + 1
  {
    if t.Branch? {
      HeightByBlacks(t.left);
      HeightByBlacks(t.right);
    }
  }

  /** A red-black tree of n nodes is at most 2*log2(n+1) high: 2^height <= (n+1)^2. */
  lemma HeightBound(t: Tree)
    requires Balanced(t, null) && !IsRed(t)
    ensures Pow2(Height(t)) <= (Size(t) + 1) * (Size(t) + 1)
  {
    HeightByBlacks(t);
    var b := Bh(t);
    Pow2Monotone(Height(t), b + b);
    Pow2Add(b, b);
    assert Pow2(b) * Pow2(b) <= (Size(t) + 1) * (Size(t) + 1) by {
      MulMonotone(Pow2(b), Size(t) + 1);
    }
  }

  lemma MulMonotone(a: nat, b: nat)
    requires a <= b
    ensures a * a <= b * b
  {
    assert a * a <= a * b;
    assert a * b <= b * b;
  }

  lemma {:induction false} InOrderLength(t: Tree)
    ensures |InOrder(t)| == Size(t)
  {
    if t.Branch? {
      InOrderLength(t.left);
      InOrderLength(t.right);
    }
  }

  // ----- search order -----

  ghost predicate Sorted(s: seq<Node>) {
    forall i, j :: 0 <= i < j < |s| ==> s[i].key <= s[j].key
  }

  ghost predicate AllAtMost(s: seq<Node>, k: int) { forall n :: n in s ==> n.key <= k }

  ghost predicate AllAbove(s: seq<Node>, k: int) { forall n :: n in s ==> k < n.key }

  /** `s` with `n` put behind every element whose key is not greater. */
  ghost function Inserted(s: seq<Node>, n: Node): (r: seq<Node>) {
    if s == [] || n.key < s[0].key then [n] + s else [s[0]] + Inserted(s[1..], n)
  }

  lemma {:induction false} InsertedSplit(a: seq<Node>, b: seq<Node>, n: Node)
    requires AllAtMost(a, n.key) && AllAbove(b, n.key)
    ensures Inserted(a + b, n) == a + [n] + b
  {
    if a == [] {
      assert a + b == b;
      if b != [] { assert b[0] in b; }
    } else {
      assert a[0] in a;
      assert AllAtMost(a[1..], n.key);
      InsertedSplit(a[1..], b, n);
      HeadOfSum(a, b);
      HeadOfSum(a, [n]);
      HeadOfSum(a + [n], b);
      assert [a[0]] + (a[1..] + [n] + b) == a + [n] + b;
    }
  }

  lemma HeadOfSum(a: seq<Node>, b: seq<Node>)
    requires a != []
    ensures (a + b)[0] == a[0] && (a + b)[1..] == a[1..] + b
  {
  }

  lemma SortedCons(x: Node, s: seq<Node>)
    requires Sorted(s) && forall m :: m in s ==> x.key <= m.key
    ensures Sorted([x] + s)
  {
  }

  lemma SortedTail(s: seq<Node>)
    requires Sorted(s) && s != []
    ensures Sorted(s[1..]) && forall m :: m in s[1..] ==> s[0].key <= m.key
    ensures multiset(s) == multiset{s[0]} + multiset(s[1..])
  {
    assert s == [s[0]] + s[1..];
  }

  lemma {:induction false} InsertedMultiset(s: seq<Node>, n: Node)
    ensures multiset(Inserted(s, n)) == multiset(s) + multiset{n}
  {
    if s != [] {
      assert s == [s[0]] + s[1..];
      if s[0].key <= n.key {
        InsertedMultiset(s[1..], n);
      }
    }
  }

  /** Insertion keeps a sorted sequence sorted and adds exactly the one node. */
  lemma {:induction false} InsertedSorted(s: seq<Node>, n: Node)
    requires Sorted(s)
    ensures Sorted(Inserted(s, n))
    ensures multiset(Inserted(s, n)) == multiset(s) + multiset{n}
  {
    InsertedMultiset(s, n);
    if s == [] {
    } else if n.key < s[0].key {
      SortedTail(s);
      assert forall m :: m in s ==> m == s[0] || m in s[1..];
      SortedCons(n, s);
    } else {
      SortedTail(s);
      InsertedSorted(s[1..], n);
      forall m | m in Inserted(s[1..], n) ensures s[0].key <= m.key {
        assert m in multiset(Inserted(s[1..], n));
        assert m == n || m in multiset(s[1..]);
      }
      SortedCons(s[0], Inserted(s[1..], n));
    }
  }

  /** `s` without the first occurrence of `n`. */
  ghost function Without(s: seq<Node>, n: Node): seq<Node> {
    if s == [] then [] else if s[0] == n then s[1..] else [s[0]] + Without(s[1..], n)
  }

  lemma {:induction false} WithoutSplit(a: seq<Node>, n: Node, b: seq<Node>)
    requires n !in a
    ensures Without(a + [n] + b, n) == a + b
  {
    if a == [] {
      assert a + [n] + b == [n] + b;
      assert a + b == b;
    } else {
      assert (a + [n] + b)[1..] == a[1..] + [n] + b;
      WithoutSplit(a[1..], n, b);
      assert a + b == [a[0]] + (a[1..] + b);
    }
  }

  lemma {:induction false} WithoutMultiset(s: seq<Node>, n: Node)
    requires n in s
    ensures multiset(Without(s, n)) == multiset(s) - multiset{n}
  {
    assert s == [s[0]] + s[1..];
    if s[0] != n {
      WithoutMultiset(s[1..], n);
    }
  }

  /** Removing a node keeps a sorted sequence sorted and takes away exactly that node. */
  lemma {:induction false} WithoutSorted(s: seq<Node>, n: Node)
    requires Sorted(s) && n in s
    ensures Sorted(Without(s, n))
    ensures multiset(Without(s, n)) == multiset(s) - multiset{n}
  {
    WithoutMultiset(s, n);
    SortedTail(s);
    if s[0] != n {
      WithoutSorted(s[1..], n);
      forall m | m in Without(s[1..], n) ensures s[0].key <= m.key {
        assert m in multiset(Without(s[1..], n));
        assert m in multiset(s[1..]);
      }
      SortedCons(s[0], Without(s[1..], n));
    }
  }
}
