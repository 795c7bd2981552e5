/** The tree of `myjit/llrb.c` as linked nodes rewritten in place.  Every method
    computes the function of the same name in module Llrb, and says which nodes
    its result is made of. */
module LlrbHeap {
  import opened Llrb

  ghost function ShapeOf<V>(n: TreeNode?<V>): Tree<V>
    reads n
  {
    if n == null then Leaf else n.shape
  }

  ghost function NodesOf<V>(n: TreeNode?<V>): set<object>
    reads n
  {
    if n == null then {} else n.nodes
  }

  ghost predicate Sound<V>(n: TreeNode?<V>)
    reads n, NodesOf(n)
  {
    n == null || n.Sound()
  }

  class TreeNode<V> {
    var left: TreeNode?<V>
    var right: TreeNode?<V>
    var color: Color
    var key: int
    var value: V

    ghost var shape: Tree<V>
    ghost var nodes: set<object>

    ghost predicate Sound()
      reads this, nodes
      ensures Sound() ==> this in nodes && shape.Node? && (left == null <==> shape.left.Leaf?) && (right == null <==> shape.right.Leaf?)
      decreases nodes
    {
      && this in nodes
      && (left != null ==> left in nodes && left.nodes <= nodes && this !in left.nodes && left.Sound())
      && (right != null ==> right in nodes && right.nodes <= nodes && this !in right.nodes && right.Sound())
      && NodesOf(left) !! NodesOf(right)
      && nodes == {this} + NodesOf(left) + NodesOf(right)
      && shape == Node(ShapeOf(left), color, key, value, ShapeOf(right))
    }

    /** `node_new`. */
    constructor (key: int, value: V)
      ensures Sound() && fresh(nodes) && nodes == {this}
      ensures shape == Node(Leaf, Red, key, value, Leaf)
    {
      this.key, this.value, this.color := key, value, Red;
      left, right := null, null;
      shape, nodes := Node(Leaf, Red, key, value, Leaf), {this};
    }
  }

  predicate IsRedNode<V>(n: TreeNode?<V>): (r: bool)
    requires Sound(n)
    reads n, NodesOf(n)
    ensures r == IsRed(ShapeOf(n))
  {
    n != null && n.color == Red
  }

  /** `h->left = l`, with the ghost record of the new subtree. */
  method SetLeft<V>(h: TreeNode<V>, l: TreeNode?<V>)
    requires Sound(l) && Sound(h.right) && NodesOf(l) !! NodesOf(h.right)
    requires h !in NodesOf(l) && h !in NodesOf(h.right)
    modifies h
    ensures h.Sound() && h.nodes == {h} + NodesOf(l) + NodesOf(h.right)
    ensures h.left == l && h.right == old(h.right)
    ensures h.shape == Node(ShapeOf(l), old(h.color), old(h.key), old(h.value), ShapeOf(h.right))
  {
    h.left := l;
    h.nodes := {h} + NodesOf(l) + NodesOf(h.right);
    h.shape := Node(ShapeOf(l), h.color, h.key, h.value, ShapeOf(h.right));
  }

  method SetRight<V>(h: TreeNode<V>, r: TreeNode?<V>)
    requires Sound(r) && Sound(h.left) && NodesOf(h.left) !! NodesOf(r)
    requires h !in NodesOf(r) && h !in NodesOf(h.left)
    modifies h
    ensures h.Sound() && h.nodes == {h} + NodesOf(h.left) + NodesOf(r)
    ensures h.right == r && h.left == old(h.left)
    ensures h.shape == Node(ShapeOf(h.left), old(h.color), old(h.key), old(h.value), ShapeOf(r))
  {
    h.right := r;
    h.nodes := {h} + NodesOf(h.left) + NodesOf(r);
    h.shape := Node(ShapeOf(h.left), h.color, h.key, h.value, ShapeOf(r));
  }

  /** Overwrites the fields of a node other than its links. */
  method SetTop<V>(h: TreeNode<V>, color: Color, key: int, value: V)
    requires h.Sound()
    modifies h`color, h`key, h`value, h`shape
    ensures h.Sound() && h.shape == old(h.shape).(color := color, key := key, value := value)
  {
    h.color, h.key, h.value := color, key, value;
    h.shape := h.shape.(color := color, key := key, value := value);
  }

  /** A node and its two subtrees. */
  lemma Parts<V>(h: TreeNode<V>)
    requires h.Sound()
    ensures Sound(h.left) && Sound(h.right) && NodesOf(h.left) !! NodesOf(h.right)
    ensures h !in NodesOf(h.left) && h !in NodesOf(h.right) && h.nodes == {h} + NodesOf(h.left) + NodesOf(h.right)
    ensures h.shape == Node(ShapeOf(h.left), h.color, h.key, h.value, ShapeOf(h.right))
    ensures ChildrenIn(h.left) && ChildrenIn(h.right)
  {
  }

  method RotateLeft<V>(h: TreeNode<V>) returns (x: TreeNode<V>)
    requires h.Sound() && h.right != null
    modifies h, h.right
    ensures x.Sound() && x.nodes == old(h.nodes)
    ensures x.shape == Llrb.RotateLeft(old(h.shape))
  {
    hide TreeNode.Sound;
    RightParts(h);
    x := h.right;
    x.color, h.color := h.color, Red;
    SetRight(h, x.left);
    SetLeft(x, h);
  }

  /** A node, its right child and the three subtrees below them. */
  lemma RightParts<V>(h: TreeNode<V>)
    requires h.Sound() && h.right != null
    ensures var x := h.right;
      && x != h && Sound(h.left) && Sound(x.left) && Sound(x.right)
      && h !in NodesOf(h.left) && h !in NodesOf(x.left) && h !in NodesOf(x.right)
      && x !in NodesOf(h.left) && x !in NodesOf(x.left) && x !in NodesOf(x.right)
      && NodesOf(h.left) !! NodesOf(x.left) && NodesOf(h.left) !! NodesOf(x.right) && NodesOf(x.left) !! NodesOf(x.right)
      && h.nodes == {h, x} + NodesOf(h.left) + NodesOf(x.left) + NodesOf(x.right)
      && h.shape == Node(ShapeOf(h.left), h.color, h.key, h.value, Node(ShapeOf(x.left), x.color, x.key, x.value, ShapeOf(x.right)))
      && ChildrenIn(h.left) && ChildrenIn(x.left) && ChildrenIn(x.right)
  {
  }

  ghost predicate ChildrenIn<V>(n: TreeNode?<V>)
    reads n
  {
    n != null ==> n in n.nodes && n.shape.Node? && n.shape.key == n.key && n.shape.color == n.color
  }

  method RotateRight<V>(h: TreeNode<V>) returns (x: TreeNode<V>)
    requires h.Sound() && h.left != null
    modifies h, h.left
    ensures x.Sound() && x.nodes == old(h.nodes)
    ensures x.shape == Llrb.RotateRight(old(h.shape))
  {
    hide TreeNode.Sound;
    LeftParts(h);
    x := h.left;
    x.color, h.color := h.color, Red;
    SetLeft(h, x.right);
    SetRight(x, h);
  }

  /** The same on the left. */
  lemma LeftParts<V>(h: TreeNode<V>)
    requires h.Sound() && h.left != null
    ensures var x := h.left;
      && x != h && Sound(h.right) && Sound(x.left) && Sound(x.right)
      && h !in NodesOf(h.right) && h !in NodesOf(x.left) && h !in NodesOf(x.right)
      && x !in NodesOf(h.right) && x !in NodesOf(x.left) && x !in NodesOf(x.right)
      && NodesOf(h.right) !! NodesOf(x.left) && NodesOf(h.right) !! NodesOf(x.right) && NodesOf(x.left) !! NodesOf(x.right)
      && h.nodes == {h, x} + NodesOf(h.right) + NodesOf(x.left) + NodesOf(x.right)
      && h.shape == Node(Node(ShapeOf(x.left), x.color, x.key, x.value, ShapeOf(x.right)), h.color, h.key, h.value, ShapeOf(h.right))
      && ChildrenIn(h.right) && ChildrenIn(x.left) && ChildrenIn(x.right)
  {
  }

  method SetColor<V>(h: TreeNode<V>, color: Color)
    requires h.Sound()
    modifies h`color, h`shape
    ensures h.Sound() && h.color == color && h.shape == old(h.shape).(color := color)
  {
    h.color := color;
    h.shape := h.shape.(color := color);
  }

  /** What makes a node sound. */
  lemma Whole<V>(h: TreeNode<V>)
    requires Sound(h.left) && Sound(h.right) && NodesOf(h.left) !! NodesOf(h.right)
    requires h !in NodesOf(h.left) && h !in NodesOf(h.right) && h.nodes == {h} + NodesOf(h.left) + NodesOf(h.right)
    requires h.shape == Node(ShapeOf(h.left), h.color, h.key, h.value, ShapeOf(h.right))
    ensures h.Sound()
  {
  }

  method ColorFlip<V>(h: TreeNode<V>)
    requires h.Sound() && h.left != null && h.right != null
    modifies h, h.left, h.right
    ensures h.Sound() && h.nodes == old(h.nodes)
    ensures h.shape == Llrb.ColorFlip(old(h.shape))
  {
    hide TreeNode.Sound;
    Parts(h);
    SetColor(h.left, Flip(h.left.color));
    SetColor(h.right, Flip(h.right.color));
    h.color := Flip(h.color);
    h.shape := Node(h.left.shape, h.color, h.key, h.value, h.right.shape);
    Whole(h);
  }

  method Fixup<V>(h: TreeNode<V>) returns (r: TreeNode<V>)
    requires h.Sound()
    modifies h.nodes
    ensures r.Sound() && r.nodes == old(h.nodes)
    ensures r.shape == Llrb.Fixup(old(h.shape))
  {
    r := h;
    if IsRedNode(r.right) {
      r := RotateLeft(r);
    }
    if IsRedNode(r.left) && IsRedNode(r.left.left) {
      r := RotateRight(r);
      ColorFlip(r);
    }
    if IsRedNode(r.left) && IsRedNode(r.right) {
      ColorFlip(r);
    }
  }

  method MoveRedLeft<V>(h: TreeNode<V>) returns (r: TreeNode<V>)
    requires h.Sound() && h.left != null && h.right != null
    modifies h.nodes
    ensures r.Sound() && r.nodes == old(h.nodes)
    ensures r.shape == Llrb.MoveRedLeft(old(h.shape))
  {
    hide TreeNode.Sound;
    Parts(h);
    r := h;
    ColorFlip(r);
    Parts(r);
    RightParts(r);
    if IsRedNode(r.right.left) {
      var x := RotateRight(r.right);
      SetRight(r, x);
      r := RotateLeft(r);
      Parts(r);
      ColorFlip(r);
    }
  }

  method MoveRedRight<V>(h: TreeNode<V>) returns (r: TreeNode<V>)
    requires h.Sound() && h.left != null && h.right != null
    modifies h.nodes
    ensures r.Sound() && r.nodes == old(h.nodes)
    ensures r.shape == Llrb.MoveRedRight(old(h.shape))
  {
    r := h;
    ColorFlip(r);
    if IsRedNode(r.left.left) {
      r := RotateRight(r);
      ColorFlip(r);
    }
  }

  method NodeInsert<V>(h: TreeNode?<V>, key: int, value: V) returns (r: TreeNode<V>, found: bool)
    requires Sound(h)
    modifies NodesOf(h)
    ensures r.Sound() && r.shape == Llrb.NodeInsert(old(ShapeOf(h)), key, value)
    ensures found <==> InsertFinds(old(ShapeOf(h)), key)
    ensures old(NodesOf(h)) <= r.nodes && fresh(r.nodes - old(NodesOf(h)))
    decreases Size(ShapeOf(h)), 1
  {
    hide Llrb.Fixup, TreeNode.Sound;
    if h == null {
      r := new TreeNode(key, value);
      found := false;
    } else {
      Parts(h);
      if IsRedNode(h.left) && IsRedNode(h.right) {
        ColorFlip(h);
      }
      found := InsertBelow(h, key, value);
      r := Fixup(h);
    }
  }

  /** The three branches of `node_insert` on the key, before its `fixup`. */
  method InsertBelow<V>(h: TreeNode<V>, key: int, value: V) returns (found: bool)
    requires h.Sound()
    modifies h.nodes
    ensures h.Sound()
    ensures h.shape == var g := old(h.shape);
      if g.key == key then g.(value := value)
      else if g.key > key then g.(left := Llrb.NodeInsert(g.left, key, value))
      else g.(right := Llrb.NodeInsert(g.right, key, value))
    ensures found <==> var g := old(h.shape);
      g.key == key || if g.key > key then InsertFinds(g.left, key) else InsertFinds(g.right, key)
    ensures old(h.nodes) <= h.nodes && fresh(h.nodes - old(h.nodes))
    decreases Size(h.shape), 0
  {
    if h.key == key {
      h.value, found := value, true;
      h.shape := h.shape.(value := value);
    } else if h.key > key {
      var l;
      l, found := NodeInsert(h.left, key, value);
      SetLeft(h, l);
    } else {
      var d;
      d, found := NodeInsert(h.right, key, value);
      SetRight(h, d);
    }
  }

  method Insert<V>(root: TreeNode?<V>, key: int, value: V) returns (r: TreeNode<V>, found: bool)
    requires Sound(root) && Valid(ShapeOf(root))
    modifies NodesOf(root)
    ensures r.Sound() && r.shape == Llrb.Insert(old(ShapeOf(root)), key, value)
    ensures Valid(r.shape) && Contents(r.shape) == Contents(old(ShapeOf(root)))[key := value]
    ensures found <==> key in Contents(old(ShapeOf(root)))
    ensures old(NodesOf(root)) <= r.nodes && fresh(r.nodes - old(NodesOf(root)))
  {
    InsertIsUpdate(ShapeOf(root), key, value);
    r, found := NodeInsert(root, key, value);
    SetTop(r, Black, r.key, r.value);
  }

  method Search<V>(h: TreeNode?<V>, key: int) returns (r: TreeNode?<V>)
    requires Sound(h)
    ensures ShapeOf(r) == Llrb.Search(ShapeOf(h), key)
    ensures r != null ==> r in NodesOf(h) && r.Sound()
    decreases Size(ShapeOf(h))
  {
    if h == null || h.key == key { r := h; }
    else if h.key > key { r := Search(h.left, key); }
    else { r := Search(h.right, key); }
  }

  /** `h->left = l; return fixup(h)`. */
  method RefitLeft<V>(h: TreeNode<V>, l: TreeNode?<V>) returns (r: TreeNode<V>)
    requires Sound(l) && Sound(h.right) && NodesOf(l) !! NodesOf(h.right)
    requires h !in NodesOf(l) && h !in NodesOf(h.right)
    modifies h, NodesOf(l), NodesOf(h.right)
    ensures r.Sound() && r.nodes == old({h} + NodesOf(l) + NodesOf(h.right))
    ensures r.shape == Llrb.Fixup(old(Node(ShapeOf(l), h.color, h.key, h.value, ShapeOf(h.right))))
  {
    SetLeft(h, l);
    r := Fixup(h);
  }

  method RefitRight<V>(h: TreeNode<V>, d: TreeNode?<V>) returns (r: TreeNode<V>)
    requires Sound(d) && Sound(h.left) && NodesOf(h.left) !! NodesOf(d)
    requires h !in NodesOf(d) && h !in NodesOf(h.left)
    modifies h, NodesOf(d), NodesOf(h.left)
    ensures r.Sound() && r.nodes == old({h} + NodesOf(h.left) + NodesOf(d))
    ensures r.shape == Llrb.Fixup(old(Node(ShapeOf(h.left), h.color, h.key, h.value, ShapeOf(d))))
  {
    SetRight(h, d);
    r := Fixup(h);
  }

  /** `node_min`. */
  method NodeMin<V>(x: TreeNode<V>) returns (m: int)
    requires x.Sound()
    ensures m == Llrb.NodeMin(x.shape)
    decreases Size(x.shape)
  {
    if x.left == null { m := x.key; } else { m := NodeMin(x.left); }
  }

  /** `delete_min`.  The node it frees has no child: its right link is never read,
      so balance must show that it is null. */
  method DeleteMin<V>(h: TreeNode<V>) returns (r: TreeNode?<V>, ghost freed: TreeNode<V>)
    requires h.Sound() && KidsBalanced(h.shape)
    modifies h.nodes
    ensures Sound(r) && ShapeOf(r) == Llrb.DeleteMin(old(h.shape))
    ensures freed in old(h.nodes) && NodesOf(r) == old(h.nodes) - {freed}
    decreases Size(h.shape), 3
  {
    if h.left == null {
      assert h.right == null;
      r, freed := null, h;
    } else if !IsRedNode(h.left) && !IsRedNode(h.left.left) {
      MoveRedLeftReady(h.shape);
      var g := MoveRedLeft(h);
      r, freed := DeleteMinLeft(g);
    } else {
      r, freed := DeleteMinLeft(h);
    }
  }

  method DeleteMinLeft<V>(g: TreeNode<V>) returns (r: TreeNode<V>, ghost freed: TreeNode<V>)
    requires g.Sound() && g.left != null && Heavy(g.left.shape) && KidsBalanced(g.left.shape)
    requires Balanced(g.shape.right) && BlackHeight(g.shape.left) == BlackHeight(g.shape.right)
    modifies g.nodes
    ensures r.Sound() && r.shape == Llrb.DeleteMinLeft(old(g.shape))
    ensures freed in old(g.nodes) && r.nodes == old(g.nodes) - {freed}
    decreases Size(g.shape), 0
  {
    ghost var side, other := NodesOf(g.left), NodesOf(g.right);
    var l;
    l, freed := DeleteMin(g.left);
    FreedBelow(true, freed, g, side, NodesOf(l), other);
    r := RefitLeft(g, l);
  }

  /** `delete_node`: frees one node if the key is there and none if it is not. */
  method DeleteNode<V>(h: TreeNode?<V>, key: int) returns (r: TreeNode?<V>, found: bool, ghost freed: TreeNode?<V>)
    requires Sound(h) && Ordered(ShapeOf(h))
    requires h != null ==> KidsBalanced(h.shape) || (KidsEven(h.shape) && h.key <= key)
    modifies NodesOf(h)
    ensures Sound(r) && ShapeOf(r) == Llrb.DeleteNode(old(ShapeOf(h)), key)
    ensures found <==> key in Contents(old(ShapeOf(h)))
    ensures Freed(found, freed, old(NodesOf(h)), NodesOf(r))
    decreases Size(ShapeOf(h)), 4
  {
    if h == null {
      r, found, freed := null, false, null;
    } else if key < h.key {
      r, found, freed := DeleteBelow(h, key);
    } else {
      r, found, freed := DeleteFromHere(h, key);
    }
  }

  ghost predicate Freed<V>(found: bool, freed: TreeNode?<V>, before: set<object>, after: set<object>) {
    && (found <==> freed != null)
    && after == before - {freed}
    && (freed != null ==> freed in before)
  }

  /** A node freed below `h` on one side is freed from the whole. */
  lemma FreedBelow<V>(found: bool, freed: TreeNode?<V>, h: object, side: set<object>, side': set<object>, other: set<object>)
    requires Freed(found, freed, side, side')
    requires h !in side && side !! other
    ensures Freed(found, freed, {h} + side + other, {h} + side' + other)
  {
  }

  method DeleteBelow<V>(h: TreeNode<V>, key: int) returns (r: TreeNode<V>, found: bool, ghost freed: TreeNode?<V>)
    requires h.Sound() && Ordered(h.shape) && KidsBalanced(h.shape) && key < h.key
    modifies h.nodes
    ensures r.Sound() && r.shape == Llrb.DeleteBelow(old(h.shape), key)
    ensures found <==> key in Contents(old(h.shape))
    ensures Freed(found, freed, old(h.nodes), r.nodes)
    decreases Size(h.shape), 3
  {
    if !IsRedNode(h.left) && h.left != null && !IsRedNode(h.left.left) {
      MoveRedLeftReady(h.shape);
      var g := MoveRedLeft(h);
      r, found, freed := DeleteLeft(g, key);
    } else {
      r, found, freed := DeleteLeft(h, key);
    }
  }

  method DeleteLeft<V>(g: TreeNode<V>, key: int) returns (r: TreeNode<V>, found: bool, ghost freed: TreeNode?<V>)
    requires g.Sound() && Ordered(g.shape) && key < g.key
    requires g.left != null ==> Heavy(g.left.shape) && KidsBalanced(g.left.shape)
    requires Balanced(g.shape.right) && BlackHeight(g.shape.left) == BlackHeight(g.shape.right)
    modifies g.nodes
    ensures r.Sound() && r.shape == Llrb.DeleteLeft(old(g.shape), key)
    ensures found <==> key in Contents(old(g.shape))
    ensures Freed(found, freed, old(g.nodes), r.nodes)
    decreases Size(g.shape), 0
  {
    KeySide(g.shape, key);
    ghost var side, other := NodesOf(g.left), NodesOf(g.right);
    var l;
    l, found, freed := DeleteNode(g.left, key);
    FreedBelow(found, freed, g, side, NodesOf(l), other);
    r := RefitLeft(g, l);
  }

  method DeleteFromHere<V>(h: TreeNode<V>, key: int) returns (r: TreeNode?<V>, found: bool, ghost freed: TreeNode?<V>)
    requires h.Sound() && Ordered(h.shape) && KidsEven(h.shape) && h.key <= key
    modifies h.nodes
    ensures Sound(r) && ShapeOf(r) == Llrb.DeleteFromHere(old(h.shape), key)
    ensures found <==> key in Contents(old(h.shape))
    ensures Freed(found, freed, old(h.nodes), NodesOf(r))
    decreases Size(h.shape), 3
  {
    KeySide(h.shape, key);
    if IsRedNode(h.left) {
      RotateRightReady(h.shape);
      var g := RotateRight(h);
      r, found, freed := DeleteRight(g, key);
    } else if key == h.key && h.right == null {
      assert h.left == null;
      r, found, freed := null, true, h;
    } else if !IsRedNode(h.right) && h.right != null && !IsRedNode(h.right.left) {
      MoveRedRightReady(h.shape);
      var g := MoveRedRight(h);
      r, found, freed := DeleteRight(g, key);
    } else {
      r, found, freed := DeleteRight(h, key);
    }
  }

  method DeleteRight<V>(k: TreeNode<V>, key: int) returns (r: TreeNode<V>, found: bool, ghost freed: TreeNode?<V>)
    requires k.Sound() && Ordered(k.shape) && k.key <= key
    requires Balanced(k.shape.left) && BlackHeight(k.shape.left) == BlackHeight(k.shape.right)
    requires k.right == null ==> key != k.key
    requires k.right != null ==>
      var d := k.shape.right; Heavy(d) && (KidsBalanced(d) || (key != k.key && d.key <= key))
    modifies k.nodes
    ensures r.Sound() && r.shape == Llrb.DeleteRight(old(k.shape), key)
    ensures found <==> key in Contents(old(k.shape))
    ensures Freed(found, freed, old(k.nodes), r.nodes)
    decreases Size(k.shape), 2
  {
    KeySide(k.shape, key);
    if key == k.key {
      found := true;
      r, freed := ReplaceByMin(k);
    } else {
      r, found, freed := DeleteBeyond(k, key);
    }
  }

  method DeleteBeyond<V>(k: TreeNode<V>, key: int) returns (r: TreeNode<V>, found: bool, ghost freed: TreeNode?<V>)
    requires k.Sound() && Ordered(k.shape.right)
    requires k.right != null ==> var d := k.shape.right; KidsBalanced(d) || (KidsEven(d) && d.key <= key)
    modifies k.nodes
    ensures r.Sound()
    ensures r.shape == var g := old(k.shape); Llrb.Fixup(g.(right := Llrb.DeleteNode(g.right, key)))
    ensures found <==> key in Contents(old(k.shape).right)
    ensures Freed(found, freed, old(k.nodes), r.nodes)
    decreases Size(k.shape), 0
  {
    hide TreeNode.Sound;
    Parts(k);
    ghost var side, other := NodesOf(k.right), NodesOf(k.left);
    var d;
    d, found, freed := DeleteNode(k.right, key);
    FreedBelow(found, freed, k, side, NodesOf(d), other);
    assert Sound(k.left);
    r := RefitRight(k, d);
  }

  /** Moves the entry of the least node on the right into `k` and frees that node. */
  method ReplaceByMin<V>(k: TreeNode<V>) returns (r: TreeNode<V>, ghost freed: TreeNode<V>)
    requires k.Sound() && k.right != null && KidsBalanced(k.right.shape) && Ordered(k.right.shape)
    modifies k.nodes
    ensures r.Sound()
    ensures r.shape == var g := old(k.shape); var m := Llrb.NodeMin(g.right);
      Llrb.Fixup(Node(g.left, g.color, m, Llrb.Search(g.right, m).value, Llrb.DeleteMin(g.right)))
    ensures freed in old(k.nodes) && r.nodes == old(k.nodes) - {freed}
    decreases Size(k.shape), 1
  {
    var m := NodeMin(k.right);
    var n := Search(k.right, m);
    SetTop(k, k.color, m, ValueOf(n));
    r, freed := DeleteMinRight(k);
  }

  method DeleteMinRight<V>(k: TreeNode<V>) returns (r: TreeNode<V>, ghost freed: TreeNode<V>)
    requires k.Sound() && k.right != null && KidsBalanced(k.right.shape)
    modifies k.nodes
    ensures r.Sound()
    ensures r.shape == var g := old(k.shape); Llrb.Fixup(g.(right := Llrb.DeleteMin(g.right)))
    ensures freed in old(k.nodes) && r.nodes == old(k.nodes) - {freed}
    decreases Size(k.shape), 0
  {
    hide TreeNode.Sound;
    Parts(k);
    ghost var side, other := NodesOf(k.right), NodesOf(k.left);
    var d;
    d, freed := DeleteMin(k.right);
    FreedBelow(true, freed, k, side, NodesOf(d), other);
    r := RefitRight(k, d);
  }

  function ValueOf<V>(n: TreeNode<V>): (v: V)
    requires n.Sound()
    reads n, n.nodes
    ensures v == n.shape.value
  {
    n.value
  }

  /** `jit_tree_delete`. */
  method Delete<V>(root: TreeNode?<V>, key: int) returns (r: TreeNode?<V>, found: bool, ghost freed: TreeNode?<V>)
    requires Sound(root) && Valid(ShapeOf(root))
    modifies NodesOf(root)
    ensures Sound(r) && ShapeOf(r) == Llrb.Delete(old(ShapeOf(root)), key)
    ensures Valid(ShapeOf(r)) && Contents(ShapeOf(r)) == Contents(old(ShapeOf(root))) - {key}
    ensures found <==> key in Contents(old(ShapeOf(root)))
    ensures Freed(found, freed, old(NodesOf(root)), NodesOf(r))
  {
    DeleteIsRemoval(ShapeOf(root), key);
    r, found, freed := DeleteNode(root, key);
    if r != null {
      SetTop(r, Black, r.key, r.value);
    }
  }
}
