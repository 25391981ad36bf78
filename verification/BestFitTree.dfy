/** Binary search trees kept as linked nodes in a pool, with parent links. */
module BestFitTree {
  const PGSIZE: nat := 4096

  datatype Option<T> = None | Some(value: T)

  datatype Block = Block(addr: nat, size: nat)

  datatype Node = Node(block: Block, left: Option<nat>, right: Option<nat>, parent: Option<nat>)

  type Pool = seq<Node>

  /** The shape of a tree; ids are positions in the pool. */
  datatype Tree = Leaf | Fork(id: nat, left: Tree, right: Tree)

  /** By size, then by address. */
  predicate Less(a: Block, b: Block) {
    a.size < b.size || (a.size == b.size && a.addr < b.addr)
  }

  predicate Leq(a: Block, b: Block) {
    !Less(b, a)
  }

  function Root(t: Tree): Option<nat> {
    if t.Leaf? then None else Some(t.id)
  }

  function Ids(t: Tree): set<nat> {
    if t.Leaf? then {} else Ids(t.left) + {t.id} + Ids(t.right)
  }

  /** No node occurs twice. */
  predicate Proper(t: Tree) {
    t.Fork? ==>
      && t.id !in Ids(t.left) && t.id !in Ids(t.right) && Ids(t.left) !! Ids(t.right)
      && Proper(t.left) && Proper(t.right)
  }

  /** The links of the pool spell out t, hung under par. */
  predicate Mirrors(pool: Pool, t: Tree, par: Option<nat>) {
    t.Fork? ==>
      && t.id < |pool|
      && pool[t.id].left == Root(t.left) && pool[t.id].right == Root(t.right) && pool[t.id].parent == par
      && Mirrors(pool, t.left, Some(t.id)) && Mirrors(pool, t.right, Some(t.id))
  }

  function BlockAt(pool: Pool, i: nat): Block {
    if i < |pool| then pool[i].block else Block(0, 0)
  }

  /** Every node of ids holds a block not after x. */
  ghost predicate AllBefore(pool: Pool, ids: set<nat>, x: Block) {
    forall i :: i in ids ==> Leq(BlockAt(pool, i), x)
  }

  ghost predicate AllAfter(pool: Pool, x: Block, ids: set<nat>) {
    forall i :: i in ids ==> Leq(x, BlockAt(pool, i))
  }

  /** Left subtrees hold what comes before, right subtrees what does not. */
  ghost predicate Ordered(pool: Pool, t: Tree) {
    t.Fork? ==>
      && AllBefore(pool, Ids(t.left), BlockAt(pool, t.id))
      && AllAfter(pool, BlockAt(pool, t.id), Ids(t.right))
      && Ordered(pool, t.left) && Ordered(pool, t.right)
  }

  /** The sum of w over the blocks of the tree.  Equal sums for every w mean the same blocks. */
  function Total(pool: Pool, t: Tree, w: Block -> nat): nat {
    if t.Leaf? then 0 else Total(pool, t.left, w) + w(BlockAt(pool, t.id)) + Total(pool, t.right, w)
  }

  function Contains(b: Block, p: nat): nat {
    if b.addr <= p * PGSIZE < b.addr + b.size then 1 else 0
  }

  function OnPage(p: nat): Block -> nat {
    b => Contains(b, p)
  }

  function Equal(x: Block): Block -> nat {
    b => if b == x then 1 else 0
  }

  /** How many blocks of the tree contain page p. */
  function Count(pool: Pool, t: Tree, p: nat): nat {
    Total(pool, t, OnPage(p))
  }

  /** How many nodes of the tree hold block x. */
  function Copies(pool: Pool, t: Tree, x: Block): nat {
    Total(pool, t, Equal(x))
  }

  function Nodes(t: Tree): nat {
    if t.Leaf? then 0 else Nodes(t.left) + 1 + Nodes(t.right)
  }

  // ---- frames ----

  lemma {:induction false} Untouched(pool: Pool, pool': Pool, t: Tree, par: Option<nat>)
    requires |pool'| == |pool| && forall i :: i in Ids(t) && i < |pool| ==> pool'[i] == pool[i]
    requires Mirrors(pool, t, par)
    ensures Mirrors(pool', t, par)
  {
    if t.Fork? {
      assert t.id in Ids(t);
      Untouched(pool, pool', t.left, Some(t.id));
      Untouched(pool, pool', t.right, Some(t.id));
    }
  }

  /** Relinking leaves contents alone. */
  lemma {:induction false} SameContents(pool: Pool, pool': Pool, t: Tree)
    requires forall i :: i in Ids(t) ==> BlockAt(pool', i) == BlockAt(pool, i)
    ensures Ordered(pool, t) ==> Ordered(pool', t)
  {
    if t.Fork? {
      assert t.id in Ids(t);
      SameContents(pool, pool', t.left);
      SameContents(pool, pool', t.right);
    }
  }

  lemma {:induction false} SameTotal(pool: Pool, pool': Pool, t: Tree, w: Block -> nat)
    requires forall i :: i in Ids(t) ==> BlockAt(pool', i) == BlockAt(pool, i)
    ensures Total(pool', t, w) == Total(pool, t, w)
  {
    if t.Fork? {
      assert t.id in Ids(t);
      SameTotal(pool, pool', t.left, w);
      SameTotal(pool, pool', t.right, w);
    }
  }

  lemma {:induction false} InPool(pool: Pool, t: Tree, par: Option<nat>, i: nat)
    requires Mirrors(pool, t, par) && i in Ids(t)
    ensures i < |pool|
  {
    if i in Ids(t.left) {
      InPool(pool, t.left, Some(t.id), i);
    } else if i in Ids(t.right) {
      InPool(pool, t.right, Some(t.id), i);
    }
  }

  // ---- insertion ----

  /** t with node n, which holds block b, as a new leaf. */
  function Inserted(pool: Pool, t: Tree, n: nat, b: Block): Tree {
    if t.Leaf? then Fork(n, Leaf, Leaf)
    else if Less(b, BlockAt(pool, t.id)) then Fork(t.id, Inserted(pool, t.left, n, b), t.right)
    else Fork(t.id, t.left, Inserted(pool, t.right, n, b))
  }

  /** The node the new leaf hangs under. */
  function LastStep(pool: Pool, t: Tree, b: Block): (r: nat)
    requires t.Fork?
    ensures r in Ids(t)
  {
    if Less(b, BlockAt(pool, t.id)) then if t.left.Leaf? then t.id else LastStep(pool, t.left, b)
    else if t.right.Leaf? then t.id else LastStep(pool, t.right, b)
  }

  /** The pool after the new leaf is linked under node q. */
  function Linked(pool: Pool, q: nat, n: nat, b: Block): Pool
    requires q < |pool| && n < |pool|
  {
    var p := pool[n := Node(b, None, None, Some(q))];
    if Less(b, p[q].block) then p[q := p[q].(left := Some(n))] else p[q := p[q].(right := Some(n))]
  }

  lemma {:induction false} InsertedIds(pool: Pool, t: Tree, n: nat, b: Block)
    requires Proper(t) && n !in Ids(t)
    ensures Proper(Inserted(pool, t, n, b)) && Ids(Inserted(pool, t, n, b)) == Ids(t) + {n}
    ensures Nodes(Inserted(pool, t, n, b)) == Nodes(t) + 1
  {
    if t.Fork? {
      if Less(b, BlockAt(pool, t.id)) {
        InsertedIds(pool, t.left, n, b);
      } else {
        InsertedIds(pool, t.right, n, b);
      }
    }
  }

  /** pool' differs from pool by a new leaf n with block b under node q. */
  predicate NewLeaf(pool: Pool, pool': Pool, q: nat, n: nat, b: Block) {
    && |pool'| == |pool| && q < |pool| && n < |pool| && n != q
    && (forall i :: 0 <= i < |pool| && i != q && i != n ==> pool'[i] == pool[i])
    && pool'[n] == Node(b, None, None, Some(q))
    && pool'[q] == if Less(b, pool[q].block) then pool[q].(left := Some(n)) else pool[q].(right := Some(n))
  }

  lemma LinkedIsNewLeaf(pool: Pool, q: nat, n: nat, b: Block)
    requires q < |pool| && n < |pool| && n != q
    ensures NewLeaf(pool, Linked(pool, q, n, b), q, n, b)
  {
  }

  lemma {:induction false} InsertedMirrors(pool: Pool, pool': Pool, t: Tree, par: Option<nat>, n: nat, b: Block)
    requires t.Fork? && Proper(t) && Mirrors(pool, t, par) && n !in Ids(t)
    requires NewLeaf(pool, pool', LastStep(pool, t, b), n, b)
    ensures Mirrors(pool', Inserted(pool, t, n, b), par)
  {
    hide Less;
    assert t.id in Ids(t) && t.id < |pool|;
    if Less(b, BlockAt(pool, t.id)) {
      Untouched(pool, pool', t.right, Some(t.id));
      if t.left.Fork? {
        InsertedMirrors(pool, pool', t.left, Some(t.id), n, b);
        assert pool'[t.id] == pool[t.id];
      } else {
        assert Mirrors(pool', Inserted(pool, t.left, n, b), Some(t.id));
      }
    } else {
      Untouched(pool, pool', t.left, Some(t.id));
      if t.right.Fork? {
        InsertedMirrors(pool, pool', t.right, Some(t.id), n, b);
        assert pool'[t.id] == pool[t.id];
      } else {
        assert Mirrors(pool', Inserted(pool, t.right, n, b), Some(t.id));
      }
    }
  }

  /** The new tree holds what the old one held and b. */
  lemma {:induction false} InsertedTotal(pool: Pool, pool': Pool, t: Tree, n: nat, b: Block, w: Block -> nat)
    requires n !in Ids(t) && BlockAt(pool', n) == b
    requires forall i :: i in Ids(t) ==> BlockAt(pool', i) == BlockAt(pool, i)
    ensures Total(pool', Inserted(pool, t, n, b), w) == Total(pool, t, w) + w(b)
  {
    hide Less;
    if t.Fork? {
      assert t.id in Ids(t);
      SameTotal(pool, pool', t.left, w);
      SameTotal(pool, pool', t.right, w);
      if Less(b, BlockAt(pool, t.id)) {
        InsertedTotal(pool, pool', t.left, n, b, w);
      } else {
        InsertedTotal(pool, pool', t.right, n, b, w);
      }
    }
  }

  /** The order survives. */
  lemma {:induction false} InsertedOrdered(pool: Pool, pool': Pool, t: Tree, n: nat, b: Block)
    requires Proper(t) && n !in Ids(t) && BlockAt(pool', n) == b && Ordered(pool, t)
    requires forall i :: i in Ids(t) ==> BlockAt(pool', i) == BlockAt(pool, i)
    ensures Ordered(pool', Inserted(pool, t, n, b))
  {
    if t.Fork? {
      assert t.id in Ids(t);
      SameContents(pool, pool', t.left);
      SameContents(pool, pool', t.right);
      if Less(b, BlockAt(pool, t.id)) {
        InsertedOrdered(pool, pool', t.left, n, b);
        InsertedIds(pool, t.left, n, b);
      } else {
        InsertedOrdered(pool, pool', t.right, n, b);
        InsertedIds(pool, t.right, n, b);
      }
    }
  }

  // ---- removing a node with at most one child ----

  /** The subtree of t rooted at node i. */
  function Sub(t: Tree, i: nat): (u: Tree)
    requires i in Ids(t)
    ensures u.Fork? && u.id == i && Ids(u) <= Ids(t)
  {
    if t.id == i then t else if i in Ids(t.left) then Sub(t.left, i) else Sub(t.right, i)
  }

  predicate Thin(t: Tree) {
    t.Fork? && (t.left.Leaf? || t.right.Leaf?)
  }

  /** t without the thin node i. */
  function Cut(t: Tree, i: nat): Tree
    requires i in Ids(t) && Thin(Sub(t, i))
  {
    if t.id == i then if t.left.Leaf? then t.right else t.left
    else if i in Ids(t.left) then Fork(t.id, Cut(t.left, i), t.right)
    else Fork(t.id, t.left, Cut(t.right, i))
  }

  function Child(x: Node): Option<nat> {
    if x.left.Some? then x.left else x.right
  }

  /** The pool after the only child of i, if any, took its place under i's parent. */
  function Bypassed(pool: Pool, i: nat): Pool
    requires i < |pool|
  {
    var c, q := Child(pool[i]), pool[i].parent;
    var p :=
      if q.None? || q.value >= |pool| then pool
      else if pool[q.value].left == Some(i) then pool[q.value := pool[q.value].(left := c)]
      else pool[q.value := pool[q.value].(right := c)];
    if c.Some? && c.value < |p| then p[c.value := p[c.value].(parent := q)] else p
  }

  lemma {:induction false} CutIds(t: Tree, i: nat)
    requires Proper(t) && i in Ids(t) && Thin(Sub(t, i))
    ensures Proper(Cut(t, i)) && Ids(Cut(t, i)) == Ids(t) - {i} && Nodes(Cut(t, i)) + 1 == Nodes(t)
  {
    if t.id != i {
      if i in Ids(t.left) { CutIds(t.left, i); } else { CutIds(t.right, i); }
    }
  }

  /** What the links of node i say about its place in the tree. */
  lemma {:induction false} SubMirrors(pool: Pool, t: Tree, par: Option<nat>, i: nat)
    requires Proper(t) && Mirrors(pool, t, par) && i in Ids(t)
    ensures i < |pool| && Proper(Sub(t, i)) && Mirrors(pool, Sub(t, i), pool[i].parent)
    ensures if t.id == i then pool[i].parent == par
            else pool[i].parent.Some? && pool[i].parent.value in Ids(t) && pool[i].parent.value != i
  {
    if t.id != i {
      if i in Ids(t.left) {
        SubMirrors(pool, t.left, Some(t.id), i);
      } else {
        SubMirrors(pool, t.right, Some(t.id), i);
      }
    }
  }

  /** pool' differs from pool in that the child of i took i's place under i's parent. */
  predicate Bypass(pool: Pool, pool': Pool, i: nat) {
    && |pool'| == |pool| && i < |pool|
    && var c, q := Child(pool[i]), pool[i].parent;
    && (forall j :: 0 <= j < |pool| && Some(j) != q && Some(j) != c ==> pool'[j] == pool[j])
    && (q.Some? && q.value < |pool| && q != c ==>
          pool'[q.value] ==
          if pool[q.value].left == Some(i) then pool[q.value].(left := c) else pool[q.value].(right := c))
    && (c.Some? && c.value < |pool| && q != c ==> pool'[c.value] == pool[c.value].(parent := q))
  }

  lemma BypassedIs(pool: Pool, i: nat)
    requires i < |pool|
    ensures Bypass(pool, Bypassed(pool, i), i)
  {
  }

  lemma {:induction false} CutMirrors(pool: Pool, pool': Pool, t: Tree, par: Option<nat>, i: nat)
    requires Proper(t) && Mirrors(pool, t, par) && i in Ids(t) && Thin(Sub(t, i))
    requires par.Some? ==> par.value !in Ids(t)
    requires Bypass(pool, pool', i)
    ensures Mirrors(pool', Cut(t, i), par)
  {
    if t.id == i {
      CutHere(pool, pool', t, par);
    } else if i in Ids(t.left) {
      CutMirrors(pool, pool', t.left, Some(t.id), i);
      CutLeft(pool, pool', t, par, i);
    } else {
      CutMirrors(pool, pool', t.right, Some(t.id), i);
      CutRight(pool, pool', t, par, i);
    }
  }

  lemma CutHere(pool: Pool, pool': Pool, t: Tree, par: Option<nat>)
    requires Proper(t) && Mirrors(pool, t, par) && Thin(t) && (par.Some? ==> par.value !in Ids(t))
    requires Bypass(pool, pool', t.id)
    ensures Mirrors(pool', if t.left.Leaf? then t.right else t.left, par)
  {
    var u := if t.left.Leaf? then t.right else t.left;
    if u.Fork? {
      Untouched(pool, pool', u.left, Some(u.id));
      Untouched(pool, pool', u.right, Some(u.id));
    }
  }

  lemma ChildWithin(pool: Pool, t: Tree, par: Option<nat>, i: nat)
    requires Proper(t) && Mirrors(pool, t, par) && i in Ids(t)
    ensures i < |pool| && (Child(pool[i]).Some? ==> Child(pool[i]).value in Ids(t))
  {
    SubMirrors(pool, t, par, i);
    var u := Sub(t, i);
    assert Child(pool[i]) == Root(u.left) || Child(pool[i]) == Root(u.right);
  }

  lemma CutLeft(pool: Pool, pool': Pool, t: Tree, par: Option<nat>, i: nat)
    requires t.Fork? && Proper(t) && Mirrors(pool, t, par) && t.id != i && i in Ids(t.left) && Thin(Sub(t.left, i))
    requires Bypass(pool, pool', i) && Mirrors(pool', Cut(t.left, i), Some(t.id))
    ensures Mirrors(pool', Fork(t.id, Cut(t.left, i), t.right), par)
  {
    SubMirrors(pool, t.left, Some(t.id), i);
    ChildWithin(pool, t.left, Some(t.id), i);
    assert t.id in Ids(t) && t.id !in Ids(t.left);
    Untouched(pool, pool', t.right, Some(t.id));
    if t.left.id == i {
      assert pool[i].parent == Some(t.id);
      assert Root(Cut(t.left, i)) == Child(pool[i]);
    } else {
      assert pool'[t.id] == pool[t.id];
    }
  }

  lemma CutRight(pool: Pool, pool': Pool, t: Tree, par: Option<nat>, i: nat)
    requires t.Fork? && Proper(t) && Mirrors(pool, t, par) && t.id != i && i in Ids(t.right) && Thin(Sub(t.right, i))
    requires Bypass(pool, pool', i) && Mirrors(pool', Cut(t.right, i), Some(t.id))
    ensures Mirrors(pool', Fork(t.id, t.left, Cut(t.right, i)), par)
  {
    SubMirrors(pool, t.right, Some(t.id), i);
    ChildWithin(pool, t.right, Some(t.id), i);
    assert t.id in Ids(t) && t.id !in Ids(t.right);
    Untouched(pool, pool', t.left, Some(t.id));
    if t.right.id == i {
      assert pool[i].parent == Some(t.id);
      assert Root(Cut(t.right, i)) == Child(pool[i]);
    } else {
      assert pool'[t.id] == pool[t.id];
    }
  }

  lemma {:induction false} CutTotal(pool: Pool, t: Tree, i: nat, w: Block -> nat)
    requires Proper(t) && i in Ids(t) && Thin(Sub(t, i))
    ensures Total(pool, t, w) == Total(pool, Cut(t, i), w) + w(BlockAt(pool, i))
  {
    if t.id != i {
      if i in Ids(t.left) { CutTotal(pool, t.left, i, w); } else { CutTotal(pool, t.right, i, w); }
    }
  }

  lemma {:induction false} CutOrdered(pool: Pool, t: Tree, i: nat)
    requires Proper(t) && i in Ids(t) && Thin(Sub(t, i)) && Ordered(pool, t)
    ensures Ordered(pool, Cut(t, i))
  {
    hide Leq;
    if t.id != i {
      if i in Ids(t.left) {
        CutOrdered(pool, t.left, i);
        CutIds(t.left, i);
      } else {
        CutOrdered(pool, t.right, i);
        CutIds(t.right, i);
      }
    }
  }

  // ---- the successor ----

  function MinId(t: Tree): (m: nat)
    requires t.Fork?
    ensures m in Ids(t)
  {
    if t.left.Leaf? then t.id else MinId(t.left)
  }

  lemma {:induction false} MinIsThin(t: Tree)
    requires t.Fork? && Proper(t)
    ensures Thin(Sub(t, MinId(t)))
  {
    if t.left.Fork? {
      MinIsThin(t.left);
    }
  }

  lemma {:induction false} MinIsLeast(pool: Pool, t: Tree)
    requires t.Fork? && Ordered(pool, t)
    ensures AllAfter(pool, BlockAt(pool, MinId(t)), Ids(t))
  {
    if t.left.Fork? {
      MinIsLeast(pool, t.left);
      assert Leq(BlockAt(pool, MinId(t)), BlockAt(pool, t.id));
    }
  }

  /** Node i takes over the block b. */
  function Overwritten(pool: Pool, i: nat, b: Block): Pool
    requires i < |pool|
  {
    pool[i := pool[i].(block := b)]
  }

  lemma {:induction false} OverwrittenMirrors(pool: Pool, t: Tree, par: Option<nat>, i: nat, b: Block)
    requires i < |pool|
    ensures Mirrors(Overwritten(pool, i, b), t, par) == Mirrors(pool, t, par)
  {
    if t.Fork? {
      OverwrittenMirrors(pool, t.left, Some(t.id), i, b);
      OverwrittenMirrors(pool, t.right, Some(t.id), i, b);
    }
  }

  lemma {:induction false} OverwrittenTotal(pool: Pool, t: Tree, i: nat, b: Block, w: Block -> nat)
    requires Proper(t) && i in Ids(t) && i < |pool|
    ensures Total(Overwritten(pool, i, b), t, w) + w(BlockAt(pool, i)) == Total(pool, t, w) + w(b)
  {
    var pool' := Overwritten(pool, i, b);
    if t.id == i {
      SameTotal(pool, pool', t.left, w);
      SameTotal(pool, pool', t.right, w);
    } else if i in Ids(t.left) {
      OverwrittenTotal(pool, t.left, i, b, w);
      SameTotal(pool, pool', t.right, w);
    } else {
      SameTotal(pool, pool', t.left, w);
      OverwrittenTotal(pool, t.right, i, b, w);
    }
  }

  lemma SuccessorHere(pool: Pool, pool': Pool, t: Tree, m: nat)
    requires t.Fork? && Proper(t) && Ordered(pool, t) && t.id < |pool| && t.right.Fork? && m == MinId(t.right)
    requires pool' == Overwritten(pool, t.id, BlockAt(pool, m))
    ensures Ordered(pool', t)
  {
    SameContents(pool, pool', t.left);
    SameContents(pool, pool', t.right);
    MinIsLeast(pool, t.right);
    assert Leq(BlockAt(pool, t.id), BlockAt(pool, m));
    assert AllBefore(pool', Ids(t.left), BlockAt(pool', t.id));
    assert AllAfter(pool', BlockAt(pool', t.id), Ids(t.right));
  }

  /** A node may take over its successor's block without upsetting the order. */
  lemma {:induction false} SuccessorOrdered(pool: Pool, pool': Pool, t: Tree, i: nat, m: nat)
    requires Proper(t) && Ordered(pool, t) && i in Ids(t) && i < |pool| && Sub(t, i).right.Fork?
    requires m == MinId(Sub(t, i).right) && pool' == Overwritten(pool, i, BlockAt(pool, m))
    ensures Ordered(pool', t)
  {
    hide Leq, Overwritten, MinId;
    assert forall j :: j != i ==> BlockAt(pool', j) == BlockAt(pool, j) by { OverwrittenAt(pool, i, BlockAt(pool, m)); }
    assert BlockAt(pool', i) == BlockAt(pool, m) by { OverwrittenAt(pool, i, BlockAt(pool, m)); }
    if t.id == i {
      SuccessorHere(pool, pool', t, m);
    } else if i in Ids(t.left) {
      SuccessorOrdered(pool, pool', t.left, i, m);
      SameContents(pool, pool', t.right);
      assert m in Ids(t.left);
    } else {
      SuccessorOrdered(pool, pool', t.right, i, m);
      SameContents(pool, pool', t.left);
      assert m in Ids(t.right);
    }
  }

  lemma OverwrittenAt(pool: Pool, i: nat, b: Block)
    requires i < |pool|
    ensures forall j :: BlockAt(Overwritten(pool, i, b), j) == if j == i then b else BlockAt(pool, j)
  {
  }

  /** The node whose block starts at a, if a descent by address comes upon it. */
  function StartsAt(pool: Pool, t: Tree, a: nat): (r: Option<nat>)
    ensures r.Some? ==> r.value in Ids(t) && BlockAt(pool, r.value).addr == a
  {
    if t.Leaf? then None
    else if BlockAt(pool, t.id).addr == a then Some(t.id)
    else if a < BlockAt(pool, t.id).addr then StartsAt(pool, t.left, a)
    else StartsAt(pool, t.right, a)
  }

  /** Every ancestor of node i lies on the side that the address of i's block says. */
  ghost predicate Sided(pool: Pool, t: Tree, i: nat) {
    forall j :: j in Ids(t) && j != i && i in Ids(Sub(t, j)) ==>
      if i in Ids(Sub(t, j).left) then BlockAt(pool, i).addr < BlockAt(pool, j).addr
      else BlockAt(pool, j).addr < BlockAt(pool, i).addr
  }

  /** A descent by address comes upon node i exactly when all its ancestors lie on their sides. */
  lemma {:induction false} FoundWhenSided(pool: Pool, t: Tree, i: nat)
    requires Proper(t) && i in Ids(t)
    ensures StartsAt(pool, t, BlockAt(pool, i).addr) == Some(i) <==> Sided(pool, t, i)
  {
    if t.id == i {
      forall j | j in Ids(t) && j != i ensures i !in Ids(Sub(t, j)) {
        var u := if j in Ids(t.left) then t.left else t.right;
        assert Ids(Sub(u, j)) <= Ids(u);
      }
    } else if i in Ids(t.left) {
      FoundWhenSided(pool, t.left, i);
      SidedBelow(pool, t, t.left, i);
    } else {
      FoundWhenSided(pool, t.right, i);
      SidedBelow(pool, t, t.right, i);
    }
  }

  /** The ancestors of i in t are the root and those in its subtree u. */
  lemma SidedBelow(pool: Pool, t: Tree, u: Tree, i: nat)
    requires Proper(t) && t.Fork? && i != t.id && i in Ids(u) && (u == t.left || u == t.right)
    ensures Sided(pool, t, i) <==>
              && Sided(pool, u, i)
              && if u == t.left && i in Ids(t.left) then BlockAt(pool, i).addr < BlockAt(pool, t.id).addr
                 else BlockAt(pool, t.id).addr < BlockAt(pool, i).addr
  {
    assert Sub(t, t.id) == t;
    forall j | j in Ids(t) && j != t.id ensures i in Ids(Sub(t, j)) <==> j in Ids(u) && i in Ids(Sub(u, j)) {
    }
    if Sided(pool, t, i) {
      forall j | j in Ids(u) && j != i && i in Ids(Sub(u, j))
        ensures if i in Ids(Sub(u, j).left) then BlockAt(pool, i).addr < BlockAt(pool, j).addr
                else BlockAt(pool, j).addr < BlockAt(pool, i).addr
      {
        assert Sub(t, j) == Sub(u, j);
      }
    }
  }

  /** A free block that starts at a is found exactly when one does and stands where it should. */
  lemma FoundExactly(pool: Pool, t: Tree, a: nat)
    requires Proper(t)
    ensures StartsAt(pool, t, a) != None <==> exists i :: i in Ids(t) && BlockAt(pool, i).addr == a && Sided(pool, t, i)
  {
    hide Sided;
    var c := StartsAt(pool, t, a);
    if c != None {
      FoundWhenSided(pool, t, c.value);
    }
    forall i | i in Ids(t) && BlockAt(pool, i).addr == a && Sided(pool, t, i) ensures c != None {
      FoundWhenSided(pool, t, i);
    }
  }

  // ---- best fit ----

  function SizeAt(pool: Pool, i: nat): nat {
    BlockAt(pool, i).size
  }

  function FindBestFit(pool: Pool, t: Tree, size: nat, best: Option<nat>): Option<nat> {
    if t.Leaf? then best
    else if SizeAt(pool, t.id) >= size then
      FindBestFit(pool, t.left, size,
                  if best.None? || SizeAt(pool, t.id) < SizeAt(pool, best.value) then Some(t.id) else best)
    else FindBestFit(pool, t.right, size, best)
  }

  /** The smallest block may shrink without upsetting the order exactly when it is the leftmost. */
  lemma {:induction false} ShrinkOrdered(pool: Pool, t: Tree, i: nat, r: Block)
    requires Proper(t) && Ordered(pool, t) && i in Ids(t) && i < |pool| && r.size < SizeAt(pool, i)
    requires forall j :: j in Ids(t) ==> SizeAt(pool, i) <= SizeAt(pool, j)
    ensures Ordered(Overwritten(pool, i, r), t) <==> MinId(t) == i
  {
    var pool' := Overwritten(pool, i, r);
    OverwrittenAt(pool, i, r);
    assert t.id in Ids(t);
    if t.id == i {
      SameContents(pool, pool', t.left);
      SameContents(pool, pool', t.right);
      if t.left.Fork? {
        assert MinId(t.left) in Ids(t.left) && !Leq(BlockAt(pool', MinId(t.left)), BlockAt(pool', i));
      }
    } else if i in Ids(t.left) {
      ShrinkOrdered(pool, t.left, i, r);
      SameContents(pool, pool', t.right);
      assert AllBefore(pool', Ids(t.left), BlockAt(pool', t.id));
    } else {
      assert !Leq(BlockAt(pool', t.id), BlockAt(pool', i));
    }
  }

  /** Of blocks that all start at different addresses, the leftmost is the one of a smallest block's
    * size with the lowest address. */
  lemma LeftmostIsLowest(pool: Pool, t: Tree, i: nat)
    requires t.Fork? && Ordered(pool, t) && i in Ids(t)
    requires forall j :: j in Ids(t) ==> SizeAt(pool, i) <= SizeAt(pool, j)
    requires forall j, k :: j in Ids(t) && k in Ids(t) && BlockAt(pool, j).addr == BlockAt(pool, k).addr ==> j == k
    ensures MinId(t) == i <==>
              forall j :: j in Ids(t) && SizeAt(pool, j) == SizeAt(pool, i) ==>
                BlockAt(pool, i).addr <= BlockAt(pool, j).addr
  {
    MinIsLeast(pool, t);
    var m := MinId(t);
    assert Leq(BlockAt(pool, m), BlockAt(pool, i));
    if m == i {
      forall j | j in Ids(t) && SizeAt(pool, j) == SizeAt(pool, i)
        ensures BlockAt(pool, i).addr <= BlockAt(pool, j).addr {
        assert Leq(BlockAt(pool, m), BlockAt(pool, j));
      }
    }
  }

  /** Whatever the order, the result is a node of the tree that fits, or the best so far; and a root
    * that fits is enough to find one. */
  lemma {:induction false} FindFits(pool: Pool, t: Tree, size: nat, best: Option<nat>)
    ensures var r := FindBestFit(pool, t, size, best);
      && (r == best || (r.Some? && r.value in Ids(t) && SizeAt(pool, r.value) >= size))
      && (best.Some? || (t.Fork? && SizeAt(pool, t.id) >= size) ==> r.Some?)
  {
    if t.Fork? {
      if SizeAt(pool, t.id) >= size {
        FindFits(pool, t.left, size,
                 if best.None? || SizeAt(pool, t.id) < SizeAt(pool, best.value) then Some(t.id) else best);
      } else {
        FindFits(pool, t.right, size, best);
      }
    }
  }

  /** x is no larger than any block of ids that fits. */
  ghost predicate Smallest(pool: Pool, ids: set<nat>, size: nat, x: nat) {
    forall i :: i in ids && SizeAt(pool, i) >= size ==> x <= SizeAt(pool, i)
  }

  ghost predicate NoneFits(pool: Pool, ids: set<nat>, size: nat) {
    forall i :: i in ids ==> SizeAt(pool, i) < size
  }

  /** On an ordered tree the search finds a smallest block that fits, if one fits at all. */
  lemma {:induction false} FindIsBest(pool: Pool, t: Tree, size: nat, best: Option<nat>)
    requires Ordered(pool, t)
    ensures var r := FindBestFit(pool, t, size, best);
      && (r.None? <==> best.None? && NoneFits(pool, Ids(t), size))
      && (r.Some? ==> Smallest(pool, Ids(t), size, SizeAt(pool, r.value)))
      && (r.Some? && best.Some? ==> SizeAt(pool, r.value) <= SizeAt(pool, best.value))
  {
    if t.Fork? {
      var r := FindBestFit(pool, t, size, best);
      if SizeAt(pool, t.id) >= size {
        FindIsBest(pool, t.left, size,
                   if best.None? || SizeAt(pool, t.id) < SizeAt(pool, best.value) then Some(t.id) else best);
        assert SizeAt(pool, r.value) <= SizeAt(pool, t.id);
        forall i | i in Ids(t.right) ensures SizeAt(pool, r.value) <= SizeAt(pool, i) {
          assert Leq(BlockAt(pool, t.id), BlockAt(pool, i));
        }
      } else {
        FindIsBest(pool, t.right, size, best);
        forall i | i in Ids(t.left) ensures SizeAt(pool, i) < size {
          assert Leq(BlockAt(pool, i), BlockAt(pool, t.id));
        }
      }
    }
  }
}
