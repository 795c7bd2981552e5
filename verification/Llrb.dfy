/** The left-leaning red-black tree behind liveness sets and register maps,
    as a value.  Each function follows one C function; LlrbHeap runs the same
    steps in place and proves that they compute these functions. */
module Llrb {
  import opened Bits

  datatype Color = Red | Black

  datatype Tree<V> =
    | Leaf
    | Node(left: Tree<V>, color: Color, key: int, value: V, right: Tree<V>)

  predicate IsRed<V>(t: Tree<V>) {
    t.Node? && t.color == Red
  }

  function Flip(c: Color): Color {
    if c == Red then Black else Red
  }

  function Size<V>(t: Tree<V>): nat {
    if t.Leaf? then 0 else Size(t.left) + Size(t.right) + 1
  }

  /** What the tree stores. */
  function Contents<V>(t: Tree<V>): map<int, V> {
    if t.Leaf? then map[] else Contents(t.left) + map[t.key := t.value] + Contents(t.right)
  }

  ghost predicate Below<V>(t: Tree<V>, key: int) {
    forall k :: k in Contents(t) ==> k < key
  }

  ghost predicate Above<V>(key: int, t: Tree<V>) {
    forall k :: k in Contents(t) ==> key < k
  }

  /** The search-tree order. */
  ghost predicate Ordered<V>(t: Tree<V>) {
    t.Node? ==> Ordered(t.left) && Ordered(t.right) && Below(t.left, t.key) && Above(t.key, t.right)
  }

  /** Same keys, values and order, perhaps another shape. */
  ghost predicate SameEntries<V>(t: Tree<V>, u: Tree<V>) {
    Size(t) == Size(u) && Contents(t) == Contents(u) && (Ordered(t) ==> Ordered(u))
  }

  /** Both ways to hang three subtrees under two nodes hold the same entries, in
      the same order. */
  lemma Reassociate<V>(a: Tree<V>, c0: Color, k: int, v: V, b: Tree<V>, c1: Color, l: int, w: V, c: Tree<V>)
    ensures var t := Node(Node(a, c0, k, v, b), c1, l, w, c);
            var u := Node(a, c1, k, v, Node(b, c0, l, w, c));
            SameEntries(t, u) && SameEntries(u, t)
  {
    var t0, u0 := Node(a, c0, k, v, b), Node(b, c0, l, w, c);
    var t, u := Node(t0, c1, l, w, c), Node(a, c1, k, v, u0);
    assert Contents(t0) == Contents(a) + map[k := v] + Contents(b);
    assert Contents(u0) == Contents(b) + map[l := w] + Contents(c);
    MapReassociate(Contents(a), k, v, Contents(b), l, w, Contents(c));
    ReassociateOrder(a, c0, k, v, b, c1, l, w, c);
  }

  lemma MapReassociate<V>(a: map<int, V>, k: int, v: V, b: map<int, V>, l: int, w: V, c: map<int, V>)
    ensures (a + map[k := v] + b) + map[l := w] + c == a + map[k := v] + (b + map[l := w] + c)
  {
  }

  lemma ReassociateOrder<V>(a: Tree<V>, c0: Color, k: int, v: V, b: Tree<V>, c1: Color, l: int, w: V, c: Tree<V>)
    ensures Ordered(Node(Node(a, c0, k, v, b), c1, l, w, c)) <==> Ordered(Node(a, c1, k, v, Node(b, c0, l, w, c)))
  {
    var t0, u0 := Node(a, c0, k, v, b), Node(b, c0, l, w, c);
    var t, u := Node(t0, c1, l, w, c), Node(a, c1, k, v, u0);
    NodeOrder(a, c0, k, v, b);
    NodeOrder(b, c0, l, w, c);
    NodeOrder(t0, c1, l, w, c);
    NodeOrder(a, c1, k, v, u0);
  }

  lemma NodeOrder<V>(a: Tree<V>, c: Color, k: int, v: V, b: Tree<V>)
    ensures var t := Node(a, c, k, v, b);
      && (Ordered(t) <==> Ordered(a) && Ordered(b) && Below(a, k) && Above(k, b))
      && (forall j :: Below(t, j) <==> Below(a, j) && k < j && Below(b, j))
      && (forall j :: Above(j, t) <==> Above(j, a) && j < k && Above(j, b))
  {
    var t := Node(a, c, k, v, b);
    assert k in Contents(t);
    assert forall x :: x in Contents(t) <==> x in Contents(a) || x == k || x in Contents(b);
  }

  function RotateLeft<V>(h: Tree<V>): (r: Tree<V>)
    requires h.Node? && h.right.Node?
    ensures SameEntries(h, r)
  {
    var x := h.right;
    var l := Node(h.left, Red, h.key, h.value, x.left);
    Reassociate(h.left, Red, h.key, h.value, x.left, h.color, x.key, x.value, x.right);
    assert SameEntries(h, h.(right := Recolored(x, Red)));
    Node(l, h.color, x.key, x.value, x.right)
  }

  function RotateRight<V>(h: Tree<V>): (g: Tree<V>)
    requires h.Node? && h.left.Node?
    ensures SameEntries(h, g)
  {
    var x := h.left;
    var r := Node(x.right, Red, h.key, h.value, h.right);
    Reassociate(x.left, Red, x.key, x.value, x.right, h.color, h.key, h.value, h.right);
    assert SameEntries(h, h.(left := Recolored(x, Red)));
    Node(x.left, h.color, x.key, x.value, r)
  }

  function Recolored<V>(h: Tree<V>, c: Color): (r: Tree<V>)
    requires h.Node?
    ensures r.Node? && SameEntries(h, r)
  {
    h.(color := c)
  }

  function ColorFlip<V>(h: Tree<V>): (r: Tree<V>)
    requires h.Node? && h.left.Node? && h.right.Node?
    ensures SameEntries(h, r)
  {
    h.(color := Flip(h.color),
       left := Recolored(h.left, Flip(h.left.color)),
       right := Recolored(h.right, Flip(h.right.color)))
  }

  function Fixup<V>(h: Tree<V>): (r: Tree<V>)
    requires h.Node?
    ensures r.Node? && SameEntries(h, r)
  {
    var h1 := if IsRed(h.right) then RotateLeft(h) else h;
    var h2 := if IsRed(h1.left) && IsRed(h1.left.left) then ColorFlip(RotateRight(h1)) else h1;
    if IsRed(h2.left) && IsRed(h2.right) then ColorFlip(h2) else h2
  }

  function NodeInsert<V>(h: Tree<V>, key: int, value: V): (r: Tree<V>)
    ensures r.Node?
    decreases Size(h)
  {
    if h.Leaf? then
      Node(Leaf, Red, key, value, Leaf)
    else
      var g := if IsRed(h.left) && IsRed(h.right) then ColorFlip(h) else h;
      assert Size(g.left) == Size(h.left) && Size(g.right) == Size(h.right);
      if g.key == key then Fixup(g.(value := value))
      else if g.key > key then Fixup(g.(left := NodeInsert(g.left, key, value)))
      else Fixup(g.(right := NodeInsert(g.right, key, value)))
  }

  /** The `found` flag of `node_insert`. */
  predicate InsertFinds<V>(h: Tree<V>, key: int)
    decreases Size(h)
  {
    h.Node? &&
    var g := if IsRed(h.left) && IsRed(h.right) then ColorFlip(h) else h;
    assert Size(g.left) == Size(h.left) && Size(g.right) == Size(h.right);
    g.key == key || if g.key > key then InsertFinds(g.left, key) else InsertFinds(g.right, key)
  }

  function Insert<V>(root: Tree<V>, key: int, value: V): Tree<V>
  {
    var r := NodeInsert(root, key, value);
    r.(color := Black)
  }

  /** The node holding `key`, or Leaf. */
  function Search<V>(h: Tree<V>, key: int): (r: Tree<V>)
    ensures Ordered(h) ==> (r.Node? <==> key in Contents(h))
    ensures Ordered(h) && r.Node? ==> r.key == key && r.value == Contents(h)[key]
  {
    if h.Leaf? || h.key == key then h
    else if h.key > key then Search(h.left, key)
    else Search(h.right, key)
  }

  function MoveRedLeft<V>(h: Tree<V>): (r: Tree<V>)
    requires h.Node? && h.left.Node? && h.right.Node?
    ensures r.Node? && SameEntries(h, r)
  {
    var g := ColorFlip(h);
    if IsRed(g.right.left) then ColorFlip(RotateLeft(g.(right := RotateRight(g.right)))) else g
  }

  function MoveRedRight<V>(h: Tree<V>): (r: Tree<V>)
    requires h.Node? && h.left.Node? && h.right.Node?
    ensures r.Node? && SameEntries(h, r)
  {
    var g := ColorFlip(h);
    if IsRed(g.left.left) then ColorFlip(RotateRight(g)) else g
  }

  function NodeMin<V>(x: Tree<V>): (m: int)
    requires x.Node?
    ensures Ordered(x) ==> m in Contents(x) && forall k :: k in Contents(x) ==> m <= k
  {
    if x.left.Leaf? then x.key else NodeMin(x.left)
  }

  // ---- Shape ------------------------------------------------------------

  /** Black nodes on the left spine; every path has as many in a balanced tree. */
  function BlackHeight<V>(t: Tree<V>): nat {
    if t.Leaf? then 0 else BlackHeight(t.left) + if t.color == Black then 1 else 0
  }

  /** No red link leans right, none follows another, and black heights agree. */
  predicate Balanced<V>(t: Tree<V>) {
    t.Node? ==>
      && Balanced(t.left) && Balanced(t.right)
      && !IsRed(t.right)
      && BlackHeight(t.left) == BlackHeight(t.right)
      && (t.color == Red ==> !IsRed(t.left))
  }

  /** Balanced below the top node.  Nothing is said about the top node's own
      colour: deletion recolours it freely and never looks at it again. */
  predicate KidsBalanced<V>(t: Tree<V>)
    requires t.Node?
  {
    && Balanced(t.left) && Balanced(t.right)
    && !IsRed(t.right)
    && BlackHeight(t.left) == BlackHeight(t.right)
  }

  /** As KidsBalanced, but the one red child may also be the right one. */
  predicate KidsEven<V>(t: Tree<V>)
    requires t.Node?
  {
    && Balanced(t.left) && Balanced(t.right)
    && !(IsRed(t.left) && IsRed(t.right))
    && BlackHeight(t.left) == BlackHeight(t.right)
  }

  /** A node a key can be taken from without losing a black level: it is red, or
      one of its children is. */
  predicate Heavy<V>(t: Tree<V>) {
    t.Node? && KidsEven(t) && (t.color == Black <==> IsRed(t.left) || IsRed(t.right))
  }

  /** What a deletion below `h` may return.  If the top colour is kept, so is the
      black height of the children, and no red child appears; if it changed,
      the children lost one black level, which happens only when there was no
      red child to take the node from. */
  predicate AfterDelete<V>(h: Tree<V>, r: Tree<V>)
    requires h.Node?
  {
    if r.Leaf? then h.left.Leaf? && h.right.Leaf?
    else
      && KidsBalanced(r)
      && (r.color == h.color ==>
            BlackHeight(r.left) == BlackHeight(h.left) && (IsRed(r.left) ==> IsRed(h.left) || IsRed(h.right)))
      && (r.color != h.color ==>
            BlackHeight(r.left) + 1 == BlackHeight(h.left) && !IsRed(h.left) && !IsRed(h.right))
  }

  /** What Fixup makes of a node whose children are balanced. */
  predicate FixedUp<V>(g: Tree<V>, r: Tree<V>)
    requires g.Node?
  {
    && r.Node? && KidsBalanced(r)
    && (r.color == g.color ==>
          && BlackHeight(r.left) == BlackHeight(g.left)
          && (IsRed(r.left) ==> IsRed(g.left) || IsRed(g.right)))
    && (r.color != g.color ==> BlackHeight(r.left) == BlackHeight(g.left) + 1 && !IsRed(r.left))
  }

  /** Fixup repairs a red right child, whatever the top colour is. */
  lemma FixupBalanced<V>(g: Tree<V>)
    requires g.Node? && Balanced(g.left) && Balanced(g.right)
    requires BlackHeight(g.left) == BlackHeight(g.right)
    ensures FixedUp(g, Fixup(g))
  {
  }

  lemma MoveRedLeftReady<V>(h: Tree<V>)
    requires h.Node? && KidsBalanced(h)
    requires h.left.Node? && !IsRed(h.left) && !IsRed(h.left.left)
    ensures h.right.Node?
    ensures var g := MoveRedLeft(h);
      && Heavy(g.left) && Balanced(g.left) && Balanced(g.right) && BlackHeight(g.left) == BlackHeight(g.right)
      && (g.color == h.color ==> BlackHeight(g.left) == BlackHeight(h.left) && !IsRed(g.left) && !IsRed(g.right))
      && (g.color != h.color ==> BlackHeight(g.left) + 1 == BlackHeight(h.left))
      && (Ordered(h) ==> h.key <= g.key)
      && Size(g.left) < Size(h)
  {
    var rl := h.right.left;
    if IsRed(rl) {
      assert rl.key in Contents(rl) && rl.key in Contents(h.right);
      assert Balanced(rl) && Balanced(rl.left) && Balanced(rl.right) && !IsRed(rl.left);
      var g := MoveRedLeft(h);
      assert g.left == Node(h.left.(color := Red), Black, h.key, h.value, rl.left);
      assert g.right == Node(rl.right, Black, h.right.key, h.right.value, h.right.right);
      assert Balanced(h.left.(color := Red));
      assert Size(g.left) == Size(h.left.(color := Red)) + Size(rl.left) + 1;
    }
  }

  lemma MoveRedRightReady<V>(h: Tree<V>)
    requires h.Node? && KidsBalanced(h)
    requires h.right.Node? && !IsRed(h.right.left) && !IsRed(h.left)
    ensures h.left.Node?
    ensures var g := MoveRedRight(h);
      && Heavy(g.right) && Balanced(g.left) && BlackHeight(g.left) == BlackHeight(g.right)
      && (g.color == h.color ==> BlackHeight(g.left) == BlackHeight(h.left) && !IsRed(g.left) && !IsRed(g.right))
      && (g.color != h.color ==> BlackHeight(g.left) + 1 == BlackHeight(h.left))
      && (KidsBalanced(g.right) || (g.right.key == h.key && (Ordered(h) ==> g.key < h.key)))
      && (Ordered(h) ==> g.key <= h.key)
      && Size(g.right) < Size(h)
  {
    var ll := h.left.left;
    assert h.left.key in Contents(h.left);
    if IsRed(ll) {
      assert Balanced(ll) && Balanced(ll.left) && Balanced(ll.right) && Balanced(h.left.right);
      var g := MoveRedRight(h);
      assert g.left == ll.(color := Black);
      assert g.right == Node(h.left.right, Black, h.key, h.value, h.right.(color := Red));
      assert Balanced(h.right.(color := Red));
      assert Size(g.right) == Size(h.left.right) + Size(h.right.(color := Red)) + 1;
    }
  }

  /** Rotating a red left child up leaves a heavy right child, never a leaf. */
  lemma RotateRightReady<V>(h: Tree<V>)
    requires h.Node? && KidsBalanced(h) && IsRed(h.left)
    ensures var g := RotateRight(h);
      && Heavy(g.right) && KidsBalanced(g.right) && Balanced(g.left) && !IsRed(g.left)
      && BlackHeight(g.left) == BlackHeight(g.right) == BlackHeight(h.left)
      && g.color == h.color
      && (Ordered(h) ==> g.key < h.key)
      && Size(g.right) < Size(h)
  {
    assert h.left.key in Contents(h.left);
  }

  /** Deleting below a heavy node costs no black level. */
  lemma DeleteKeepsHeight<V>(h: Tree<V>, r: Tree<V>)
    requires if h.Node? then Heavy(h) && AfterDelete(h, r) else r.Leaf?
    ensures Balanced(r) && BlackHeight(r) == BlackHeight(h)
    ensures IsRed(r) ==> IsRed(h)
  {
  }

  /** Puts a smaller left subtree back. */
  function RefitLeft<V>(g: Tree<V>, l: Tree<V>): (r: Tree<V>)
    requires g.Node? && Balanced(l) && Balanced(g.right) && BlackHeight(l) == BlackHeight(g.right)
    requires IsRed(l) ==> IsRed(g.left)
    requires BlackHeight(l) == BlackHeight(g.left)
    ensures FixedUp(g, r)
  {
    var n := g.(left := l);
    FixupBalanced(n);
    Fixup(n)
  }

  function RefitRight<V>(g: Tree<V>, d: Tree<V>): (r: Tree<V>)
    requires g.Node? && Balanced(g.left) && Balanced(d) && BlackHeight(g.left) == BlackHeight(d)
    requires IsRed(d) ==> IsRed(g.right)
    ensures FixedUp(g, r)
  {
    var n := g.(right := d);
    FixupBalanced(n);
    Fixup(n)
  }

  function DeleteMin<V>(h: Tree<V>): (r: Tree<V>)
    requires h.Node? && KidsBalanced(h)
    ensures AfterDelete(h, r)
    decreases Size(h)
  {
    if h.left.Leaf? then
      Leaf
    else if !IsRed(h.left) && !IsRed(h.left.left) then
      MoveRedLeftReady(h);
      DeleteMinLeft(MoveRedLeft(h))
    else
      DeleteMinLeft(h)
  }

  function DeleteMinLeft<V>(g: Tree<V>): (r: Tree<V>)
    requires g.Node? && g.left.Node? && Heavy(g.left) && KidsBalanced(g.left)
    requires Balanced(g.right) && BlackHeight(g.left) == BlackHeight(g.right)
    ensures FixedUp(g, r)
    decreases Size(g), 0
  {
    var l := DeleteMin(g.left);
    DeleteKeepsHeight(g.left, l);
    RefitLeft(g, l)
  }

  /** `delete_node`.  The second form of the precondition is the node left behind
      by MoveRedRight: its red child is on the right, and the key is known not
      to be on the left. */
  function DeleteNode<V>(h: Tree<V>, key: int): (r: Tree<V>)
    requires h.Node? ==> KidsBalanced(h) || (KidsEven(h) && h.key <= key)
    requires Ordered(h)
    ensures h.Leaf? ==> r.Leaf?
    ensures h.Node? ==> AfterDelete(h, r)
    decreases Size(h)
  {
    if h.Leaf? then Leaf
    else if key < h.key then DeleteBelow(h, key)
    else DeleteFromHere(h, key)
  }

  function DeleteBelow<V>(h: Tree<V>, key: int): (r: Tree<V>)
    requires h.Node? && Ordered(h) && KidsBalanced(h)
    ensures AfterDelete(h, r)
    decreases Size(h), 1
  {
    if !IsRed(h.left) && h.left.Node? && !IsRed(h.left.left) then
      MoveRedLeftReady(h);
      DeleteLeft(MoveRedLeft(h), key)
    else
      DeleteLeft(h, key)
  }

  function DeleteFromHere<V>(h: Tree<V>, key: int): (r: Tree<V>)
    requires h.Node? && Ordered(h) && KidsEven(h) && h.key <= key
    ensures AfterDelete(h, r)
    decreases Size(h), 1
  {
    if IsRed(h.left) then
      RotateRightReady(h);
      DeleteRight(RotateRight(h), key)
    else if key == h.key && h.right.Leaf? then
      Leaf
    else if !IsRed(h.right) && h.right.Node? && !IsRed(h.right.left) then
      MoveRedRightReady(h);
      DeleteRight(MoveRedRight(h), key)
    else
      DeleteRight(h, key)
  }

  function DeleteLeft<V>(g: Tree<V>, key: int): (r: Tree<V>)
    requires g.Node? && Ordered(g)
    requires g.left.Node? ==> Heavy(g.left) && KidsBalanced(g.left)
    requires Balanced(g.right) && BlackHeight(g.left) == BlackHeight(g.right)
    ensures FixedUp(g, r)
    decreases Size(g), 0
  {
    var l := DeleteNode(g.left, key);
    DeleteKeepsHeight(g.left, l);
    RefitLeft(g, l)
  }

  /** The tail of `delete_node`, once the right child is heavy. */
  function DeleteRight<V>(k: Tree<V>, key: int): (r: Tree<V>)
    requires k.Node? && Ordered(k)
    requires Balanced(k.left) && BlackHeight(k.left) == BlackHeight(k.right)
    requires k.right.Leaf? ==> key != k.key
    requires k.right.Node? ==> Heavy(k.right) && (KidsBalanced(k.right) || (key != k.key && k.right.key <= key))
    ensures FixedUp(k, r)
    decreases Size(k), 0
  {
    if key == k.key then
      var m := NodeMin(k.right);
      var d := DeleteMin(k.right);
      DeleteKeepsHeight(k.right, d);
      RefitRight(k.(key := m, value := Search(k.right, m).value), d)
    else
      var d := DeleteNode(k.right, key);
      DeleteKeepsHeight(k.right, d);
      RefitRight(k, d)
  }

  /** `jit_tree_delete`. */
  function Delete<V>(root: Tree<V>, key: int): Tree<V>
    requires Valid(root)
  {
    var r := DeleteNode(root, key);
    if r.Node? then Recolored(r, Black) else r
  }

  /** The invariant of every tree the library builds. */
  ghost predicate Valid<V>(t: Tree<V>) {
    Ordered(t) && Balanced(t) && !IsRed(t)
  }

  // ---- Insertion is map update -------------------------------------------

  lemma {:induction false} NodeInsertContents<V>(h: Tree<V>, key: int, value: V)
    requires Ordered(h)
    ensures var r := NodeInsert(h, key, value); Ordered(r) && Contents(r) == Contents(h)[key := value]
    ensures InsertFinds(h, key) <==> key in Contents(h)
    decreases Size(h)
  {
    if h.Node? {
      var g := if IsRed(h.left) && IsRed(h.right) then ColorFlip(h) else h;
      assert SameEntries(h, g) && Size(g.left) == Size(h.left) && Size(g.right) == Size(h.right);
      assert Ordered(g.left) && Ordered(g.right);
      if g.key > key {
        NodeInsertContents(g.left, key, value);
        UpdateLeft(g, NodeInsert(g.left, key, value), key, value);
      } else if g.key < key {
        NodeInsertContents(g.right, key, value);
        UpdateRight(g, NodeInsert(g.right, key, value), key, value);
      } else {
        UpdateHere(g, value);
      }
    }
  }

  // The four ways a step changes one node, first as facts about maps.

  lemma MapUpdate<V>(l: map<int, V>, k: int, w: V, r: map<int, V>, key: int, v: V)
    requires key !in r
    ensures key != k ==> l[key := v] + map[k := w] + r == (l + map[k := w] + r)[key := v]
    ensures key == k ==> l + map[k := v] + r == (l + map[k := w] + r)[key := v]
  {
  }

  lemma MapUpdateRight<V>(l: map<int, V>, k: int, w: V, r: map<int, V>, key: int, v: V)
    ensures l + map[k := w] + r[key := v] == (l + map[k := w] + r)[key := v]
  {
  }

  lemma MapRemove<V>(l: map<int, V>, k: int, w: V, r: map<int, V>, key: int)
    requires key !in map[k := w]
    ensures key !in r ==> (l - {key}) + map[k := w] + r == (l + map[k := w] + r) - {key}
    ensures key !in l ==> l + map[k := w] + (r - {key}) == (l + map[k := w] + r) - {key}
  {
  }

  lemma MapPullUp<V>(l: map<int, V>, k: int, w: V, r: map<int, V>, m: int)
    requires m in r && k !in l && k !in r
    ensures l + map[m := r[m]] + (r - {m}) == (l + map[k := w] + r) - {k}
  {
  }

  lemma UpdateHere<V>(g: Tree<V>, value: V)
    requires g.Node? && Ordered(g)
    ensures var n := g.(value := value); Ordered(n) && Contents(n) == Contents(g)[g.key := value]
  {
    MapUpdate(Contents(g.left), g.key, g.value, Contents(g.right), g.key, value);
  }

  lemma UpdateLeft<V>(g: Tree<V>, l: Tree<V>, key: int, value: V)
    requires g.Node? && Ordered(g) && Ordered(l) && key < g.key
    requires Contents(l) == Contents(g.left)[key := value]
    ensures var n := g.(left := l); Ordered(n) && Contents(n) == Contents(g)[key := value]
  {
    MapUpdate(Contents(g.left), g.key, g.value, Contents(g.right), key, value);
  }

  lemma UpdateRight<V>(g: Tree<V>, r: Tree<V>, key: int, value: V)
    requires g.Node? && Ordered(g) && Ordered(r) && key > g.key
    requires Contents(r) == Contents(g.right)[key := value]
    ensures var n := g.(right := r); Ordered(n) && Contents(n) == Contents(g)[key := value]
  {
    MapUpdateRight(Contents(g.left), g.key, g.value, Contents(g.right), key, value);
  }

  lemma RemoveLeft<V>(g: Tree<V>, l: Tree<V>, key: int)
    requires g.Node? && Ordered(g) && Ordered(l) && key < g.key
    requires Contents(l) == Contents(g.left) - {key}
    ensures var n := g.(left := l); Ordered(n) && Contents(n) == Contents(g) - {key}
  {
    MapRemove(Contents(g.left), g.key, g.value, Contents(g.right), key);
  }

  lemma RemoveRight<V>(g: Tree<V>, r: Tree<V>, key: int)
    requires g.Node? && Ordered(g) && Ordered(r) && key > g.key
    requires Contents(r) == Contents(g.right) - {key}
    ensures var n := g.(right := r); Ordered(n) && Contents(n) == Contents(g) - {key}
  {
    MapRemove(Contents(g.left), g.key, g.value, Contents(g.right), key);
  }

  /** Moving the least entry of the right subtree up in place of the node's own. */
  lemma PullUpMin<V>(g: Tree<V>, m: int, v: V, r: Tree<V>)
    requires g.Node? && Ordered(g) && Ordered(r)
    requires m in Contents(g.right) && v == Contents(g.right)[m] && forall k :: k in Contents(g.right) ==> m <= k
    requires Contents(r) == Contents(g.right) - {m}
    ensures var n := g.(key := m, value := v, right := r); Ordered(n) && Contents(n) == Contents(g) - {g.key}
  {
    MapPullUp(Contents(g.left), g.key, g.value, Contents(g.right), m);
  }

  /** Only a red node may come back with a red left child, and then it is still red. */
  lemma {:induction false} NodeInsertBalanced<V>(h: Tree<V>, key: int, value: V)
    requires Balanced(h)
    ensures var r := NodeInsert(h, key, value);
      && KidsBalanced(r) && BlackHeight(r) == BlackHeight(h)
      && if IsRed(h) then r.color == Red else Balanced(r)
    decreases h
  {
    if h.Node? {
      if h.key > key {
        NodeInsertBalanced(h.left, key, value);
        FixupAfterInsert(h, NodeInsert(h.left, key, value));
      } else if h.key < key {
        NodeInsertBalanced(h.right, key, value);
      }
    }
  }

  lemma FixupAfterInsert<V>(h: Tree<V>, l: Tree<V>)
    requires h.Node? && Balanced(h)
    requires l.Node? && KidsBalanced(l) && BlackHeight(l) == BlackHeight(h.left)
    requires if IsRed(h.left) then l.color == Red else Balanced(l)
    ensures var r := Fixup(h.(left := l));
      && KidsBalanced(r) && BlackHeight(r) == BlackHeight(h)
      && if IsRed(h) then r.color == Red else Balanced(r)
  {
  }

  /** `jit_tree_insert` keeps the invariant and denotes map update. */
  lemma InsertIsUpdate<V>(t: Tree<V>, key: int, value: V)
    requires Valid(t)
    ensures Valid(Insert(t, key, value))
    ensures Contents(Insert(t, key, value)) == Contents(t)[key := value]
    ensures InsertFinds(t, key) <==> key in Contents(t)
  {
    NodeInsertContents(t, key, value);
    NodeInsertBalanced(t, key, value);
    assert SameEntries(NodeInsert(t, key, value), Recolored(NodeInsert(t, key, value), Black));
  }

  // ---- Deletion is map removal -------------------------------------------

  lemma {:induction false} DeleteMinContents<V>(h: Tree<V>)
    requires h.Node? && KidsBalanced(h) && Ordered(h)
    ensures var r := DeleteMin(h); Ordered(r) && Contents(r) == Contents(h) - {NodeMin(h)}
    decreases Size(h)
  {
    if h.left.Node? {
      if !IsRed(h.left) && !IsRed(h.left.left) {
        MoveRedLeftReady(h);
        var g := MoveRedLeft(h);
        SameMin(h, g);
        DeleteMinLeftContents(g);
      } else {
        DeleteMinLeftContents(h);
      }
    }
  }

  lemma {:induction false} DeleteMinLeftContents<V>(g: Tree<V>)
    requires g.Node? && Ordered(g) && g.left.Node? && Heavy(g.left) && KidsBalanced(g.left)
    requires Balanced(g.right) && BlackHeight(g.left) == BlackHeight(g.right)
    ensures var r := DeleteMinLeft(g); Ordered(r) && Contents(r) == Contents(g) - {NodeMin(g)}
    decreases Size(g), 0
  {
    DeleteMinContents(g.left);
    RemoveLeft(g, DeleteMin(g.left), NodeMin(g.left));
  }

  /** Which side of a node a key can be on. */
  lemma KeySide<V>(g: Tree<V>, key: int)
    requires g.Node? && Ordered(g)
    ensures key < g.key ==> (key in Contents(g) <==> key in Contents(g.left))
    ensures key > g.key ==> (key in Contents(g) <==> key in Contents(g.right))
    ensures g.key in Contents(g)
  {
  }

  lemma SameMin<V>(h: Tree<V>, g: Tree<V>)
    requires h.Node? && g.Node? && Ordered(h) && Ordered(g) && Contents(h) == Contents(g)
    ensures NodeMin(h) == NodeMin(g)
  {
    var m, n := NodeMin(h), NodeMin(g);
    assert m in Contents(g) && n in Contents(h);
  }

  lemma {:induction false} DeleteNodeContents<V>(h: Tree<V>, key: int)
    requires h.Node? ==> KidsBalanced(h) || (KidsEven(h) && h.key <= key)
    requires Ordered(h)
    ensures var r := DeleteNode(h, key); Ordered(r) && Contents(r) == Contents(h) - {key}
    decreases Size(h)
  {
    if h.Leaf? {
    } else if key < h.key {
      DeleteBelowContents(h, key);
    } else {
      DeleteFromHereContents(h, key);
    }
  }

  lemma {:induction false} DeleteBelowContents<V>(h: Tree<V>, key: int)
    requires h.Node? && Ordered(h) && KidsBalanced(h) && key < h.key
    ensures var r := DeleteBelow(h, key); Ordered(r) && Contents(r) == Contents(h) - {key}
    decreases Size(h), 1
  {
    if !IsRed(h.left) && h.left.Node? && !IsRed(h.left.left) {
      MoveRedLeftReady(h);
      DeleteLeftContents(MoveRedLeft(h), key);
    } else {
      DeleteLeftContents(h, key);
    }
  }

  lemma {:induction false} DeleteLeftContents<V>(g: Tree<V>, key: int)
    requires g.Node? && Ordered(g) && key < g.key
    requires g.left.Node? ==> Heavy(g.left) && KidsBalanced(g.left)
    requires Balanced(g.right) && BlackHeight(g.left) == BlackHeight(g.right)
    ensures var r := DeleteLeft(g, key); Ordered(r) && Contents(r) == Contents(g) - {key}
    decreases Size(g), 0
  {
    DeleteNodeContents(g.left, key);
    RemoveLeft(g, DeleteNode(g.left, key), key);
  }

  lemma {:induction false} DeleteFromHereContents<V>(h: Tree<V>, key: int)
    requires h.Node? && Ordered(h) && KidsEven(h) && h.key <= key
    ensures var r := DeleteFromHere(h, key); Ordered(r) && Contents(r) == Contents(h) - {key}
    decreases Size(h), 1
  {
    if IsRed(h.left) {
      RotateRightReady(h);
      DeleteRightContents(RotateRight(h), key);
    } else if key == h.key && h.right.Leaf? {
      assert h.left.Leaf?;
    } else if !IsRed(h.right) && h.right.Node? && !IsRed(h.right.left) {
      MoveRedRightReady(h);
      DeleteRightContents(MoveRedRight(h), key);
    } else {
      DeleteRightContents(h, key);
    }
  }

  lemma {:induction false} DeleteRightContents<V>(k: Tree<V>, key: int)
    requires k.Node? && Ordered(k) && k.key <= key
    requires Balanced(k.left) && BlackHeight(k.left) == BlackHeight(k.right)
    requires k.right.Leaf? ==> key != k.key
    requires k.right.Node? ==> Heavy(k.right) && (KidsBalanced(k.right) || (key != k.key && k.right.key <= key))
    ensures var r := DeleteRight(k, key); Ordered(r) && Contents(r) == Contents(k) - {key}
    decreases Size(k), 0
  {
    if key == k.key {
      DeleteMinContents(k.right);
      var m := NodeMin(k.right);
      PullUpMin(k, m, Search(k.right, m).value, DeleteMin(k.right));
    } else {
      DeleteNodeContents(k.right, key);
      RemoveRight(k, DeleteNode(k.right, key), key);
    }
  }

  /** `jit_tree_delete` keeps the invariant and removes exactly the one key,
      whether or not it was there. */
  lemma DeleteIsRemoval<V>(t: Tree<V>, key: int)
    requires Valid(t)
    ensures Valid(Delete(t, key))
    ensures Contents(Delete(t, key)) == Contents(t) - {key}
  {
    DeleteNodeContents(t, key);
    var r := DeleteNode(t, key);
    if r.Node? {
      assert SameEntries(r, Recolored(r, Black));
    }
  }

  // ---- Whole trees ---------------------------------------------------------

  function AddAll<V>(target: Tree<V>, n: Tree<V>): Tree<V>
    decreases n
  {
    if n.Leaf? then target
    else AddAll(Insert(AddAll(target, n.left), n.key, n.value), n.right)
  }

  function Clone<V>(root: Tree<V>): Tree<V> {
    AddAll(Leaf, root)
  }

  predicate Subset<V>(root: Tree<V>, n: Tree<V>) {
    n.Leaf? || (Search(root, n.key).Node? && Subset(root, n.left) && Subset(root, n.right))
  }

  predicate Equal<V>(r1: Tree<V>, r2: Tree<V>) {
    Subset(r1, r2) && Subset(r2, r1)
  }

  function Height<V>(t: Tree<V>): nat {
    if t.Leaf? then 0
    else 1 + if Height(t.left) > Height(t.right) then Height(t.left) else Height(t.right)
  }

  /** `jit_tree_addall` denotes map union, the added tree winning. */
  lemma {:induction false} AddAllIsUnion<V>(target: Tree<V>, n: Tree<V>)
    requires Valid(target)
    ensures Valid(AddAll(target, n)) && Contents(AddAll(target, n)) == Contents(target) + Contents(n)
    decreases n
  {
    if n.Node? {
      AddAllIsUnion(target, n.left);
      var t1 := AddAll(target, n.left);
      InsertIsUpdate(t1, n.key, n.value);
      var t2 := Insert(t1, n.key, n.value);
      AddAllIsUnion(t2, n.right);
      MapUnion(Contents(target), Contents(n.left), n.key, n.value, Contents(n.right));
    } else {
      assert Contents(target) + map[] == Contents(target);
    }
  }

  lemma MapUnion<V>(t: map<int, V>, l: map<int, V>, k: int, v: V, r: map<int, V>)
    ensures (t + l)[k := v] + r == t + (l + map[k := v] + r)
  {
  }

  /** A clone holds the same entries, though its shape may differ. */
  lemma CloneIsCopy<V>(t: Tree<V>)
    ensures Valid(Clone(t)) && Contents(Clone(t)) == Contents(t)
  {
    AddAllIsUnion(Leaf, t);
  }

  lemma {:induction false} SubsetDecides<V>(root: Tree<V>, n: Tree<V>)
    requires Ordered(root)
    ensures Subset(root, n) <==> Contents(n).Keys <= Contents(root).Keys
    decreases n
  {
    if n.Node? {
      SubsetDecides(root, n.left);
      SubsetDecides(root, n.right);
      assert Contents(n).Keys == Contents(n.left).Keys + {n.key} + Contents(n.right).Keys;
    }
  }

  /** `jit_tree_equal` decides equality of key sets. */
  lemma EqualDecides<V>(r1: Tree<V>, r2: Tree<V>)
    requires Ordered(r1) && Ordered(r2)
    ensures Equal(r1, r2) <==> Contents(r1).Keys == Contents(r2).Keys
  {
    SubsetDecides(r1, r2);
    SubsetDecides(r2, r1);
  }

  /** `jit_tree_size` counts the entries. */
  lemma {:induction false} SizeIsCardinality<V>(t: Tree<V>)
    requires Ordered(t)
    ensures Size(t) == |Contents(t)|
  {
    if t.Node? {
      SizeIsCardinality(t.left);
      SizeIsCardinality(t.right);
      forall k | k in Contents(t.left) ensures k !in Contents(t.right) {
        assert k < t.key;
      }
      MapCardinality(Contents(t.left), t.key, t.value, Contents(t.right));
    }
  }

  lemma MapCardinality<V>(l: map<int, V>, k: int, v: V, r: map<int, V>)
    requires k !in l && k !in r && l.Keys !! r.Keys
    ensures |l + map[k := v] + r| == |l| + 1 + |r|
  {
    var m := l + map[k := v] + r;
    assert m.Keys == l.Keys + {k} + r.Keys;
    assert |m.Keys| == |l.Keys| + 1 + |r.Keys|;
    assert |m| == |m.Keys| && |l| == |l.Keys| && |r| == |r.Keys|;
  }

  lemma {:induction false} BlackHeightBounds<V>(t: Tree<V>)
    requires Balanced(t)
    ensures Pow2(BlackHeight(t)) <= Size(t) + 1
    ensures Height(t) <= 2 * BlackHeight(t) + if IsRed(t) then 1 else 0
  {
    if t.Node? {
      BlackHeightBounds(t.left);
      BlackHeightBounds(t.right);
    }
  }

  /** A tree of n keys is at most 2 * log2(n + 1) high. */
  lemma HeightIsLogarithmic<V>(t: Tree<V>, n: nat)
    requires Valid(t) && n == |Contents(t)|
    ensures Pow2(Height(t)) <= Square(n + 1)
  {
    HeightBounds(t);
    SquareBound(Height(t), BlackHeight(t), n + 1);
  }

  function Square(n: nat): nat {
    n * n
  }

  lemma HeightBounds<V>(t: Tree<V>)
    requires Valid(t)
    ensures Height(t) <= 2 * BlackHeight(t) && Pow2(BlackHeight(t)) <= |Contents(t)| + 1
  {
    SizeIsCardinality(t);
    BlackHeightBounds(t);
  }

  lemma SquareBound(h: nat, b: nat, n: nat)
    requires h <= 2 * b && Pow2(b) <= n
    ensures Pow2(h) <= Square(n)
  {
    Pow2Monotone(h, b + b);
    Pow2Adds(b, b);
    SquareMonotone(Pow2(b), n);
  }

  lemma SquareMonotone(p: nat, n: nat)
    requires p <= n
    ensures p * p <= n * n
  {
    assert p * p <= p * n <= n * n;
  }

  // ---- Every reachable tree ------------------------------------------------

  datatype Step<V> = Ins(key: int, value: V) | Del(key: int)

  function Denote<V>(steps: seq<Step<V>>): map<int, V> {
    if steps == [] then map[]
    else
      var m := Denote(steps[..|steps| - 1]);
      match steps[|steps| - 1]
      case Ins(k, v) => m[k := v]
      case Del(k) => m - {k}
  }

  /** The tree after any sequence of insertions and deletions, deletions of
      absent keys included: it is a valid tree, and it is the map that the
      same sequence denotes. */
  function Run<V>(steps: seq<Step<V>>): (t: Tree<V>)
    ensures Valid(t)
    ensures Contents(t) == Denote(steps)
  {
    if steps == [] then Leaf
    else
      var t := Run(steps[..|steps| - 1]);
      match steps[|steps| - 1]
      case Ins(k, v) =>
        InsertIsUpdate(t, k, v);
        Insert(t, k, v)
      case Del(k) =>
        DeleteIsRemoval(t, k);
        Delete(t, k)
  }

  /** Search answers as the map would, in every reachable tree, and the search
      path is logarithmic in the number of entries. */
  lemma ReachableTreeAnswersAsMap<V>(steps: seq<Step<V>>, key: int)
    ensures var found := Search(Run(steps), key);
      && (found.Node? <==> key in Denote(steps))
      && (found.Node? ==> found.key == key && found.value == Denote(steps)[key])
    ensures var n := |Denote(steps)|; Pow2(Height(Run(steps))) <= Square(n + 1)
  {
    var t := Run(steps);
    HeightIsLogarithmic(t, |Denote(steps)|);
  }

  /** The entries of a node are its own and those of its subtrees. */
  lemma ChildEntries<V>(t: Tree<V>)
    requires t.Node? && Ordered(t)
    ensures var c, l, r := Contents(t), Contents(t.left), Contents(t.right);
      && t.key in c && c[t.key] == t.value
      && (forall v :: v in l ==> v in c && c[v] == l[v] && v < t.key)
      && (forall v :: v in r ==> v in c && c[v] == r[v] && t.key < v)
      && (forall v :: v in c ==> v == t.key || v in l || v in r)
  {
  }
}
