/** The best-fit physical page allocator: free blocks in a binary search tree by size. */
module BestFit {
  import opened BestFitTree

  const POOL: nat := 128
  const WRAP: nat := 0x1_0000_0000

  /** What every free block is: whole pages. */
  predicate Whole(b: Block) {
    b.addr % PGSIZE == 0 && b.size % PGSIZE == 0 && b.size > 0
  }

  ghost predicate AllWhole(pool: Pool, ids: set<nat>) {
    forall i :: i in ids ==> Whole(BlockAt(pool, i))
  }

  ghost predicate SameBlocks(pool: Pool, pool': Pool, ids: set<nat>) {
    forall i :: i in ids ==> BlockAt(pool', i) == BlockAt(pool, i)
  }

  datatype Links = Links(pool: Pool, tree: Tree)

  /** What is left without the block of node i, whose node goes unless it has two children. */
  ghost function Deleted(pool: Pool, t: Tree, i: nat): (r: Links)
    requires Proper(t) && Mirrors(pool, t, None) && i in Ids(t)
    ensures Proper(r.tree) && Mirrors(r.pool, r.tree, None) && Nodes(r.tree) < Nodes(t)
  {
    hide Proper, Mirrors, Cut, Nodes, Ids, Bypassed;
    Children(pool, t, i);
    if Thin(Sub(t, i)) then
      CutWhole(pool, t, i);
      Links(Bypassed(pool, i), Cut(t, i))
    else
      var m := MinId(Sub(t, i).right);
      SuccessorFacts(pool, t, i, m);
      var pool' := Overwritten(pool, i, BlockAt(pool, m));
      OverwrittenMirrors(pool, t, None, i, BlockAt(pool, m));
      CutWhole(pool', t, m);
      Links(Bypassed(pool', m), Cut(t, m))
  }

  /** No block of the size of node i's starts at a lower address. */
  ghost predicate LowestOfSize(pool: Pool, t: Tree, i: nat) {
    forall j :: j in Ids(t) && SizeAt(pool, j) == SizeAt(pool, i) ==> BlockAt(pool, i).addr <= BlockAt(pool, j).addr
  }

  /** The block of node i without its first page. */
  function Rest(pool: Pool, i: nat): Block
    requires SizeAt(pool, i) >= PGSIZE
  {
    Block(BlockAt(pool, i).addr + PGSIZE, SizeAt(pool, i) - PGSIZE)
  }

  datatype Merged = Merged(pool: Pool, tree: Tree, size: nat)

  /** What is left after the blocks that follow on [addr, addr + size) joined it one by one, as long
    * as a descent by address comes upon the next; and the size reached. */
  ghost function Coalesced(pool: Pool, t: Tree, addr: nat, size: nat): Merged
    requires Proper(t) && Mirrors(pool, t, None)
    decreases Nodes(t)
  {
    var c := StartsAt(pool, t, addr + size);
    if c == None then Merged(pool, t, size) else
      var d := Deleted(pool, t, c.value);
      Coalesced(d.pool, d.tree, addr, size + SizeAt(pool, c.value))
  }

  class KMem {
    var nodes: Pool
    var next: nat
    var root: Option<nat>
    var total_free: int
    var num_blocks: nat
    ghost var tree: Tree

    /** The links spell out the tree, whose nodes come from the used part of the pool. */
    ghost predicate Valid()
      reads this
    {
      && |nodes| == POOL && next <= POOL
      && Proper(tree) && Mirrors(nodes, tree, None) && root == Root(tree)
      && (forall i :: i in Ids(tree) ==> i < next)
    }

    /** In use: the blocks are whole and share no page, and are counted. */
    ghost predicate Sound()
      reads this
    {
      && Valid()
      && AllWhole(nodes, Ids(tree))
      && (forall p :: Free(p) <= 1)
      && num_blocks == Nodes(tree)
    }

    /** How many free blocks contain page p: in a sound state 1 if it is free, 0 if it is not. */
    ghost function Free(p: nat): nat
      reads this
    {
      Count(nodes, tree, p)
    }

    ghost function Has(b: Block): nat
      reads this
    {
      Copies(nodes, tree, b)
    }

    constructor ()
      ensures Sound() && next == 0 && total_free == 0 && tree == Leaf
    {
      nodes := seq(POOL, _ => Node(Block(0, 0), None, None, None));
      next, root, total_free, num_blocks, tree := 0, None, 0, 0, Leaf;
    }

    /** Hangs a node with the block under the last node of a descent; 0 when the pool is used up. */
    method BstInsert(b: Block) returns (n: Option<nat>)
      requires Valid()
      modifies this`nodes, this`next, this`root, this`tree
      ensures Valid()
      ensures old(next) >= POOL ==>
                n == None && nodes == old(nodes) && tree == old(tree) && next == old(next)
      ensures old(next) < POOL ==> n == Some(old(next)) && next == old(next) + 1
      ensures old(next) < POOL ==> Ids(tree) == old(Ids(tree)) + {old(next)} && Nodes(tree) == old(Nodes(tree)) + 1
      ensures old(next) < POOL ==> tree == Inserted(old(nodes), old(tree), old(next), b)
      ensures old(next) < POOL ==> BlockAt(nodes, old(next)) == b
      ensures forall i :: i in old(Ids(tree)) ==> BlockAt(nodes, i) == old(BlockAt(nodes, i))
      ensures old(next) < POOL ==> forall x :: Has(x) == old(Has(x)) + (if x == b then 1 else 0)
      ensures old(next) < POOL ==> forall p :: Free(p) == old(Free(p)) + Contains(b, p)
      ensures old(Ordered(nodes, tree)) ==> Ordered(nodes, tree)
    {
      hide Less, Proper, Mirrors, Ordered, Total, Ids, Inserted, Nodes;
      if next >= POOL {
        return None;
      }
      var i := next;
      ghost var pool, t := nodes, tree;
      next := next + 1;
      n := Some(i);
      InsertedIds(pool, t, i, b);
      nodes := nodes[i := Node(b, None, None, None)];
      if root == None {
        root := n;
        tree := Inserted(pool, t, i, b);
        SingleNode(nodes, pool, t, i, b);
      } else {
        var q := Descend(b, i, pool);
        LinkedIsNewLeaf(pool, q, i, b);
        InsertedMirrors(pool, Linked(pool, q, i, b), t, None, i, b);
        nodes := nodes[i := nodes[i].(parent := Some(q))];
        if Less(b, nodes[q].block) {
          nodes := nodes[q := nodes[q].(left := n)];
        } else {
          nodes := nodes[q := nodes[q].(right := n)];
        }
        assert nodes == Linked(pool, q, i, b);
        tree := Inserted(pool, t, i, b);
        RootStays(pool, t, i, b);
      }
      forall x ensures Has(x) == Copies(pool, t, x) + (if x == b then 1 else 0) {
        InsertedTotal(pool, nodes, t, i, b, Equal(x));
      }
      forall p ensures Free(p) == Count(pool, t, p) + Contains(b, p) {
        InsertedTotal(pool, nodes, t, i, b, OnPage(p));
      }
      if Ordered(pool, t) {
        InsertedOrdered(pool, nodes, t, i, b);
      }
    }

    /** Goes down to the node the block belongs under. */
    method Descend(b: Block, ghost i: nat, ghost pool: Pool) returns (q: nat)
      requires tree.Fork? && Proper(tree) && Mirrors(pool, tree, None) && root == Root(tree) && i !in Ids(tree)
      requires |pool| == |nodes| && i < |nodes| && nodes == pool[i := nodes[i]]
      ensures q in Ids(tree) && q < |pool| && q == LastStep(pool, tree, b)
    {
      var current := root;
      ghost var sub, par := tree, None;
      q := current.value;
      while current != None
        invariant current == Root(sub) && Mirrors(pool, sub, par) && Ids(sub) <= Ids(tree) && q < |pool|
        invariant sub.Fork? ==> LastStep(pool, sub, b) == LastStep(pool, tree, b)
        invariant sub.Leaf? ==> q == LastStep(pool, tree, b)
        decreases Nodes(sub)
      {
        q := current.value;
        assert q in Ids(sub);
        par := Some(q);
        if Less(b, nodes[q].block) {
          current := nodes[q].left;
          sub := sub.left;
        } else {
          current := nodes[q].right;
          sub := sub.right;
        }
      }
    }

    /** The leftmost node below i. */
    method BstMinNode(i: nat, ghost t: Tree, ghost par: Option<nat>) returns (m: nat)
      requires t.Fork? && t.id == i && Mirrors(nodes, t, par)
      ensures m == MinId(t) && m in Ids(t)
    {
      m := i;
      ghost var sub, p := t, par;
      while m < |nodes| && nodes[m].left != None
        invariant sub.Fork? && sub.id == m && Mirrors(nodes, sub, p) && MinId(sub) == MinId(t) && Ids(sub) <= Ids(t)
        decreases Nodes(sub)
      {
        p := Some(m);
        m := nodes[m].left.value;
        sub := sub.left;
      }
    }

    /** Removes the block of node i.  The node goes too, or takes over its successor's block and the
      * successor's node goes. */
    method BstDelete(i: nat)
      requires Valid() && i in Ids(tree)
      modifies this`nodes, this`root, this`tree
      ensures Valid()
      ensures Links(nodes, tree) == old(Deleted(nodes, tree, i))
      ensures Nodes(tree) + 1 == old(Nodes(tree)) && Ids(tree) <= old(Ids(tree))
      ensures forall x :: Has(x) + (if x == old(BlockAt(nodes, i)) then 1 else 0) == old(Has(x))
      ensures forall p :: Free(p) + Contains(old(BlockAt(nodes, i)), p) == old(Free(p))
      ensures old(Ordered(nodes, tree)) ==> Ordered(nodes, tree)
      ensures old(AllWhole(nodes, Ids(tree))) ==> AllWhole(nodes, Ids(tree))
      ensures next == old(next)
      decreases if Thin(Sub(tree, i)) then 0 else 1
    {
      hide Ordered, Total, Proper, Mirrors, Cut, Nodes, Ids;
      ghost var pool, t := nodes, tree;
      Children(pool, t, i);
      if nodes[i].left == None || nodes[i].right == None {
        var child := if nodes[i].left != None then nodes[i].left else nodes[i].right;
        var par := nodes[i].parent;
        CutWhole(pool, t, i);
        if par == None {
          root := child;
        } else if nodes[par.value].left == Some(i) {
          nodes := nodes[par.value := nodes[par.value].(left := child)];
        } else {
          nodes := nodes[par.value := nodes[par.value].(right := child)];
        }
        if child != None {
          nodes := nodes[child.value := nodes[child.value].(parent := par)];
        }
        assert nodes == Bypassed(pool, i);
        tree := Cut(t, i);
        CutContents(pool, t, i);
      } else {
        ghost var sub := Sub(t, i);
        var m := BstMinNode(nodes[i].right.value, sub.right, Some(i));
        SuccessorFacts(pool, t, i, m);
        SuccessorContents(pool, t, i, m);
        nodes := nodes[i := nodes[i].(block := nodes[m].block)];
        assert nodes == Overwritten(pool, i, BlockAt(pool, m));
        OverwrittenMirrors(pool, t, None, i, BlockAt(pool, m));
        BstDelete(m);
      }
    }

    /** Absorbs the free block that starts where [addr, addr + size) ends, and the next, as long as
      * a descent by address through the tree, which is ordered by size, comes upon one. */
    method TryCoalesce(addr: nat, size: nat) returns (r: nat)
      requires Sound() && Whole(Block(addr, size))
      requires forall p :: Free(p) + Contains(Block(addr, size), p) <= 1
      modifies this`nodes, this`root, this`tree, this`num_blocks
      ensures Sound() && Whole(Block(addr, r)) && size <= r
      ensures forall p :: Free(p) + Contains(Block(addr, r), p) == old(Free(p)) + Contains(Block(addr, size), p)
      ensures num_blocks <= old(num_blocks) && (r == size <==> num_blocks == old(num_blocks))
      ensures r == size ==> nodes == old(nodes) && tree == old(tree)
      ensures next == old(next) && Ids(tree) <= old(Ids(tree))
      ensures Merged(nodes, tree, r) == old(Coalesced(nodes, tree, addr, size))
      ensures StartsAt(nodes, tree, addr + r) == None
      ensures old(Ordered(nodes, tree)) ==> Ordered(nodes, tree)
      ensures r == size <==> old(StartsAt(nodes, tree, addr + size)) == None
      ensures r > size <==> exists i :: i in old(Ids(tree)) && old(BlockAt(nodes, i)).addr == addr + size
                                        && old(Sided(nodes, tree, i))
      decreases Nodes(tree)
    {
      hide Total, Proper, Mirrors, Ordered, Contains, Count, Nodes, Ids, Coalesced, Deleted, Sided;
      CoalescedStep(nodes, tree, addr, size);
      FoundExactly(nodes, tree, addr + size);
      var next_addr := addr + size;
      var current := root;
      ghost var sub, par := tree, None;
      while current != None
        invariant current == Root(sub) && Mirrors(nodes, sub, par) && Ids(sub) <= Ids(tree)
        invariant nodes == old(nodes) && tree == old(tree) && root == old(root) && num_blocks == old(num_blocks)
        invariant StartsAt(nodes, sub, next_addr) == StartsAt(nodes, tree, next_addr)
        decreases Nodes(sub)
      {
        var c := current.value;
        Top(nodes, sub, par);
        if nodes[c].block.addr == next_addr {
          var new_size := size + nodes[c].block.size;
          Adjoins(Block(addr, size), nodes[c].block);
          BstDelete(c);
          num_blocks := num_blocks - 1;
          assert Valid();
          assert AllWhole(nodes, Ids(tree));
          assert num_blocks == Nodes(tree);
          assert Whole(Block(addr, new_size));
          forall p ensures Free(p) <= 1 && Free(p) + Contains(Block(addr, new_size), p) <= 1 {
            assert old(Free(p)) + Contains(Block(addr, size), p) <= 1;
          }
          assert Sound();
          r := TryCoalesce(addr, new_size);
          return;
        }
        par := current;
        if next_addr < nodes[c].block.addr {
          current := nodes[c].left;
          sub := sub.left;
        } else {
          current := nodes[c].right;
          sub := sub.right;
        }
      }
      return size;
    }

    /** Puts the page at v back.  It is free afterwards exactly when the pool, whose nodes are never
      * given back, still had a node.  The statistic of free bytes is right exactly when no free block
      * was there to be absorbed, and so is, with the pool used up, what was free before: the blocks
      * absorbed go with the page. */
    method Kfree(v: nat)
      requires Sound() && v % PGSIZE == 0 && Free(v / PGSIZE) == 0
      modifies this
      ensures Sound() && (old(Ordered(nodes, tree)) ==> Ordered(nodes, tree))
      ensures old(next) < POOL ==> forall p :: Free(p) == old(Free(p)) + (if p == v / PGSIZE then 1 else 0)
      ensures old(next) >= POOL ==>
                forall p :: Free(p) == if Contains(Block(v, old(After(v)).size), p) == 1 then 0 else old(Free(p))
      ensures old(next) >= POOL ==>
                ((forall p :: Free(p) == old(Free(p))) <==> old(StartsAt(nodes, tree, v + PGSIZE)) == None)
      ensures next == if old(next) < POOL then old(next) + 1 else old(next)
      ensures old(next) < POOL ==> total_free == old(total_free) + old(After(v)).size
      ensures old(next) < POOL ==>
                (total_free == old(total_free) + PGSIZE <==> old(StartsAt(nodes, tree, v + PGSIZE)) == None)
      ensures old(next) >= POOL ==> total_free == old(total_free)
      ensures old(next) < POOL ==>
                var m := old(After(v));
                && tree == Inserted(m.pool, m.tree, old(next), Block(v, m.size))
                && SameBlocks(m.pool, nodes, Ids(m.tree)) && BlockAt(nodes, old(next)) == Block(v, m.size)
      ensures old(next) >= POOL ==> nodes == old(After(v)).pool && tree == old(After(v)).tree
    {
      hide Total, Proper, Mirrors, Ordered, Contains, Count, Nodes, Ids, Coalesced, Inserted, StartsAt;
      OnePage(v);
      var size := TryCoalesce(v, PGSIZE);
      FirstPage(Block(v, size));
      if size > PGSIZE { SecondPage(v, size); }
      ghost var pool, t := nodes, tree;
      var n := BstInsert(Block(v, size));
      if n != None {
        total_free := total_free + size;
        num_blocks := num_blocks + 1;
        forall p ensures Free(p) == old(Free(p)) + (if p == v / PGSIZE then 1 else 0) {
        }
      }
      forall p ensures Free(p) <= 1 {
        assert old(Free(p)) <= 1;
      }
      assert AllWhole(nodes, Ids(tree));
    }

    /** The blocks after those that follow on the page at v have joined it. */
    ghost function After(v: nat): Merged
      reads this
      requires Valid()
    {
      Coalesced(nodes, tree, v, PGSIZE)
    }

    /** bst_find_best_fit, over the links. */
    method Find(node: Option<nat>, size: nat, best: Option<nat>, ghost t: Tree, ghost par: Option<nat>)
      returns (r: Option<nat>)
      requires Mirrors(nodes, t, par) && node == Root(t)
      requires best.Some? ==> best.value < |nodes|
      ensures r == FindBestFit(nodes, t, size, best)
      decreases t
    {
      r := best;
      if node == None {
        return;
      }
      var i := node.value;
      if nodes[i].block.size >= size {
        if best == None || nodes[i].block.size < nodes[best.value].block.size {
          r := node;
        }
        r := Find(nodes[i].left, size, r, t.left, node);
      } else {
        r := Find(nodes[i].right, size, r, t.right, node);
      }
    }

    /** Takes one page.  There is none exactly when no page is free, whatever the order of the tree;
      * and on an ordered tree it comes from node i, a smallest block.  What is left of that block
      * stays where it was: the order survives exactly when nothing is left or no other block of its
      * size lies at a lower address. */
    method Kalloc() returns (a: Option<nat>, ghost i: nat)
      requires Sound()
      modifies this
      ensures Sound() && next == old(next)
      ensures a == None <==> forall p :: old(Free(p)) == 0
      ensures a == None ==> nodes == old(nodes) && tree == old(tree)
      ensures a.Some? ==> a.value % PGSIZE == 0 && old(Free(a.value / PGSIZE)) == 1
      ensures a.Some? ==> forall p :: Free(p) + (if p == a.value / PGSIZE then 1 else 0) == old(Free(p))
      ensures a.Some? ==> i in old(Ids(tree)) && a.value == old(BlockAt(nodes, i).addr)
      ensures a.Some? ==> old(FindBestFit(nodes, tree, PGSIZE, None)) == Some(i)
      ensures a.Some? && old(Ordered(nodes, tree)) ==>
                forall j :: j in old(Ids(tree)) ==> old(SizeAt(nodes, i)) <= old(SizeAt(nodes, j))
      ensures a.Some? && old(Ordered(nodes, tree)) ==>
                (Ordered(nodes, tree) <==>
                   old(SizeAt(nodes, i)) == PGSIZE || LowestOfSize(old(nodes), old(tree), i))
      ensures a.Some? ==> total_free == old(total_free) - PGSIZE
      ensures a.Some? ==>
                Links(nodes, tree) ==
                if old(SizeAt(nodes, i)) > PGSIZE then Links(Overwritten(old(nodes), i, Rest(old(nodes), i)), old(tree))
                else old(Deleted(nodes, tree, i))
    {
      hide Total, Proper, Mirrors, Ordered, Contains, Count, Nodes, Ids;
      ghost var pool, t := nodes, tree;
      i := 0;
      assert forall p :: Count(pool, t, p) == Free(p);
      var best := Find(root, PGSIZE, None, tree, None);
      Chosen(pool, t, best);
      if best == None {
        return None, i;
      }
      i := best.value;
      var n := best.value;
      InPool(pool, t, None, i);
      var block := nodes[n].block;
      FirstPage(block);
      OneOf(pool, t, i, block.addr / PGSIZE);
      if block.size > PGSIZE {
        var rest := Block(block.addr + PGSIZE, block.size - PGSIZE);
        nodes := nodes[n := nodes[n].(block := rest)];
        assert nodes == Overwritten(pool, i, rest);
        OverwrittenMirrors(pool, t, None, i, rest);
        forall p ensures Free(p) + Contains(block, p) == Count(pool, t, p) + Contains(rest, p) {
          CountOverwritten(pool, t, i, rest, p);
        }
        if Ordered(pool, t) { ShrinkKeepsOrder(pool, t, i, rest); }
        total_free := total_free - PGSIZE;
      } else {
        BstDelete(n);
        num_blocks := num_blocks - 1;
        total_free := total_free - PGSIZE;
      }
      a := Some(block.addr);
      assert old(Free(a.value / PGSIZE)) >= 1;
      assert block.size == PGSIZE || block.size > PGSIZE;
      forall p ensures Free(p) + (if p == a.value / PGSIZE then 1 else 0) == old(Free(p)) {
        assert old(Free(p)) == Count(pool, t, p);
        assert block.size > PGSIZE ==>
          Free(p) + Contains(block, p) == old(Free(p)) + Contains(Block(block.addr + PGSIZE, block.size - PGSIZE), p);
        assert block.size == PGSIZE ==> Free(p) + Contains(block, p) == old(Free(p));
      }
    }
  }

  lemma SingleNode(nodes: Pool, pool: Pool, t: Tree, i: nat, b: Block)
    requires t == Leaf && i < |nodes| && nodes[i] == Node(b, None, None, None)
    ensures Inserted(pool, t, i, b) == Fork(i, Leaf, Leaf) && Mirrors(nodes, Fork(i, Leaf, Leaf), None)
  {
  }

  lemma RootStays(pool: Pool, t: Tree, i: nat, b: Block)
    requires t.Fork?
    ensures Root(Inserted(pool, t, i, b)) == Root(t)
  {
  }

  /** What the links of node i say about its children and its place. */
  lemma Children(pool: Pool, t: Tree, i: nat)
    requires Proper(t) && Mirrors(pool, t, None) && i in Ids(t)
    ensures i < |pool|
    ensures var u := Sub(t, i);
      && pool[i].left == Root(u.left) && pool[i].right == Root(u.right)
      && Mirrors(pool, u.left, Some(i)) && Mirrors(pool, u.right, Some(i))
    ensures Thin(Sub(t, i)) <==> pool[i].left == None || pool[i].right == None
    ensures pool[i].parent == None <==> t.id == i
    ensures pool[i].parent.Some? ==> pool[i].parent.value < |pool| && pool[i].parent.value != i
    ensures Child(pool[i]).Some? ==> Child(pool[i]).value < |pool|
  {
    SubMirrors(pool, t, None, i);
    if t.id != i { InPool(pool, t, None, pool[i].parent.value); }
    ChildWithin(pool, t, None, i);
    if Child(pool[i]).Some? { InPool(pool, t, None, Child(pool[i]).value); }
  }

  lemma CutWhole(pool: Pool, t: Tree, i: nat)
    requires Proper(t) && Mirrors(pool, t, None) && i in Ids(t) && Thin(Sub(t, i))
    ensures i < |pool| && Mirrors(Bypassed(pool, i), Cut(t, i), None)
    ensures Proper(Cut(t, i)) && Ids(Cut(t, i)) == Ids(t) - {i} && Nodes(Cut(t, i)) + 1 == Nodes(t)
    ensures Root(Cut(t, i)) == if t.id == i then Child(pool[i]) else Root(t)
  {
    Children(pool, t, i);
    BypassedIs(pool, i);
    CutMirrors(pool, Bypassed(pool, i), t, None, i);
    CutIds(t, i);
  }

  lemma CutContents(pool: Pool, t: Tree, i: nat)
    requires Proper(t) && i in Ids(t) && Thin(Sub(t, i)) && i < |pool|
    ensures var pool', t' := Bypassed(pool, i), Cut(t, i);
      && (forall x :: Copies(pool', t', x) + (if x == BlockAt(pool, i) then 1 else 0) == Copies(pool, t, x))
      && (forall p :: Count(pool', t', p) + Contains(BlockAt(pool, i), p) == Count(pool, t, p))
      && (Ordered(pool, t) ==> Ordered(pool', t'))
      && (AllWhole(pool, Ids(t)) ==> AllWhole(pool', Ids(t')))
  {
    hide Ordered, Total, Cut, Whole;
    var pool', t' := Bypassed(pool, i), Cut(t, i);
    CutIds(t, i);
    forall x ensures Copies(pool', t', x) + (if x == BlockAt(pool, i) then 1 else 0) == Copies(pool, t, x) {
      CutTotal(pool, t, i, Equal(x));
      SameTotal(pool, pool', t', Equal(x));
    }
    forall p ensures Count(pool', t', p) + Contains(BlockAt(pool, i), p) == Count(pool, t, p) {
      CutTotal(pool, t, i, OnPage(p));
      SameTotal(pool, pool', t', OnPage(p));
    }
    if Ordered(pool, t) {
      CutOrdered(pool, t, i);
      SameContents(pool, pool', t');
    }
  }

  lemma {:induction false} SubOfSub(t: Tree, i: nat, m: nat)
    requires Proper(t) && i in Ids(t) && m in Ids(Sub(t, i))
    ensures m in Ids(t) && Sub(t, m) == Sub(Sub(t, i), m)
  {
    if t.id != i {
      if i in Ids(t.left) { SubOfSub(t.left, i, m); } else { SubOfSub(t.right, i, m); }
    }
  }

  lemma SuccessorFacts(pool: Pool, t: Tree, i: nat, m: nat)
    requires Proper(t) && Mirrors(pool, t, None) && i in Ids(t) && Sub(t, i).right.Fork? && m == MinId(Sub(t, i).right)
    ensures i < |pool| && m in Ids(t) && m < |pool| && m != i && Thin(Sub(t, m))
  {
    SubMirrors(pool, t, None, i);
    var u := Sub(t, i);
    MinIsThin(u.right);
    SubOfSub(t, i, m);
    InPool(pool, t, None, m);
    assert u.id == i;
  }

  lemma SuccessorContents(pool: Pool, t: Tree, i: nat, m: nat)
    requires Proper(t) && Mirrors(pool, t, None) && i in Ids(t) && i < |pool| && Sub(t, i).right.Fork?
    requires m == MinId(Sub(t, i).right) && m in Ids(t) && m != i
    ensures var pool' := Overwritten(pool, i, BlockAt(pool, m));
      && BlockAt(pool', m) == BlockAt(pool, m)
      && (forall x :: Copies(pool', t, x) + (if x == BlockAt(pool, i) then 1 else 0)
                      == Copies(pool, t, x) + (if x == BlockAt(pool, m) then 1 else 0))
      && (forall p :: Count(pool', t, p) + Contains(BlockAt(pool, i), p)
                      == Count(pool, t, p) + Contains(BlockAt(pool, m), p))
      && (Ordered(pool, t) ==> Ordered(pool', t))
      && (AllWhole(pool, Ids(t)) ==> AllWhole(pool', Ids(t)))
  {
    hide Ordered, Total, Whole, MinId;
    var b := BlockAt(pool, m);
    var pool' := Overwritten(pool, i, b);
    forall x ensures Copies(pool', t, x) + (if x == BlockAt(pool, i) then 1 else 0)
                      == Copies(pool, t, x) + (if x == b then 1 else 0) {
      OverwrittenTotal(pool, t, i, b, Equal(x));
    }
    forall p ensures Count(pool', t, p) + Contains(BlockAt(pool, i), p) == Count(pool, t, p) + Contains(b, p) {
      OverwrittenTotal(pool, t, i, b, OnPage(p));
    }
    if Ordered(pool, t) {
      SuccessorOrdered(pool, pool', t, i, m);
    }
  }

  lemma Top(pool: Pool, t: Tree, par: Option<nat>)
    requires t.Fork? && Mirrors(pool, t, par)
    ensures t.id in Ids(t) && t.id < |pool|
    ensures pool[t.id].left == Root(t.left) && pool[t.id].right == Root(t.right)
    ensures Mirrors(pool, t.left, Some(t.id)) && Mirrors(pool, t.right, Some(t.id))
    ensures Ids(t.left) <= Ids(t) && Ids(t.right) <= Ids(t)
    ensures Nodes(t.left) < Nodes(t) && Nodes(t.right) < Nodes(t)
  {
  }

  /** Deleting, and so absorbing, adds no block. */
  lemma DeletedCopies(pool: Pool, t: Tree, i: nat, x: Block)
    requires Proper(t) && Mirrors(pool, t, None) && i in Ids(t)
    ensures var d := Deleted(pool, t, i); Copies(d.pool, d.tree, x) <= Copies(pool, t, x)
  {
    hide Total, Cut, Bypassed, Proper, Mirrors, Ids, Nodes, Copies;
    Children(pool, t, i);
    if Thin(Sub(t, i)) {
      CutContents(pool, t, i);
    } else {
      var m := MinId(Sub(t, i).right);
      SuccessorFacts(pool, t, i, m);
      SuccessorContents(pool, t, i, m);
      var pool' := Overwritten(pool, i, BlockAt(pool, m));
      OverwrittenMirrors(pool, t, None, i, BlockAt(pool, m));
      CutContents(pool', t, m);
    }
  }

  lemma {:induction false} CoalescedCopies(pool: Pool, t: Tree, addr: nat, size: nat, x: Block)
    requires Proper(t) && Mirrors(pool, t, None)
    ensures var r := Coalesced(pool, t, addr, size); Copies(r.pool, r.tree, x) <= Copies(pool, t, x)
    decreases Nodes(t)
  {
    hide Total, Proper, Mirrors, Ids, Nodes, Copies, Deleted;
    CoalescedStep(pool, t, addr, size);
    var c := StartsAt(pool, t, addr + size);
    if c != None {
      var d := Deleted(pool, t, c.value);
      DeletedCopies(pool, t, c.value, x);
      CoalescedCopies(d.pool, d.tree, addr, size + SizeAt(pool, c.value), x);
    }
  }

  /** A tree holds a block exactly when a node does. */
  lemma {:induction false} CopiesMeans(pool: Pool, t: Tree, x: Block)
    ensures Copies(pool, t, x) > 0 <==> exists i :: i in Ids(t) && BlockAt(pool, i) == x
  {
    if t.Fork? {
      assert t.id in Ids(t);
      CopiesMeans(pool, t.left, x);
      CopiesMeans(pool, t.right, x);
    }
  }

  lemma CoalescedStep(pool: Pool, t: Tree, addr: nat, size: nat)
    requires Proper(t) && Mirrors(pool, t, None)
    ensures var c := StartsAt(pool, t, addr + size);
      if c == None then Coalesced(pool, t, addr, size) == Merged(pool, t, size)
      else
        var d := Deleted(pool, t, c.value);
        Coalesced(pool, t, addr, size) == Coalesced(d.pool, d.tree, addr, size + SizeAt(pool, c.value))
  {
  }

  lemma Adjoins(a: Block, b: Block)
    requires b.addr == a.addr + a.size
    ensures forall p :: Contains(Block(a.addr, a.size + b.size), p) == Contains(a, p) + Contains(b, p)
    ensures Whole(a) && Whole(b) ==> Whole(Block(a.addr, a.size + b.size))
  {
  }

  lemma OnePage(v: nat)
    requires v % PGSIZE == 0
    ensures Whole(Block(v, PGSIZE))
    ensures forall p :: Contains(Block(v, PGSIZE), p) == if p == v / PGSIZE then 1 else 0
  {
    forall p ensures Contains(Block(v, PGSIZE), p) == if p == v / PGSIZE then 1 else 0 {
      assert v == PGSIZE * (v / PGSIZE);
    }
  }

  /** A block of more than one page has a second one. */
  lemma SecondPage(v: nat, size: nat)
    requires v % PGSIZE == 0 && size % PGSIZE == 0 && size > PGSIZE
    ensures Contains(Block(v, size), v / PGSIZE + 1) == 1 && Contains(Block(v, PGSIZE), v / PGSIZE + 1) == 0
  {
    assert v == PGSIZE * (v / PGSIZE);
  }

  /** A block is its first page and the rest. */
  lemma FirstPage(b: Block)
    requires Whole(b)
    ensures b.addr % PGSIZE == 0 && b.size >= PGSIZE && Contains(b, b.addr / PGSIZE) == 1
    ensures b.size == PGSIZE ==> forall p :: Contains(b, p) == if p == b.addr / PGSIZE then 1 else 0
    ensures b.size > PGSIZE ==> Whole(Block(b.addr + PGSIZE, b.size - PGSIZE))
    ensures b.size > PGSIZE ==> forall p ::
      Contains(b, p) == Contains(Block(b.addr + PGSIZE, b.size - PGSIZE), p) + (if p == b.addr / PGSIZE then 1 else 0)
  {
    OnePage(b.addr);
    if b.size > PGSIZE {
      Adjoins(Block(b.addr, PGSIZE), Block(b.addr + PGSIZE, b.size - PGSIZE));
    }
    assert b == Block(b.addr, b.size);
    assert b.addr == PGSIZE * (b.addr / PGSIZE);
  }

  lemma {:induction false} TwoOf(pool: Pool, t: Tree, i: nat, j: nat, p: nat)
    requires i in Ids(t) && j in Ids(t) && i != j
    ensures Count(pool, t, p) >= Contains(BlockAt(pool, i), p) + Contains(BlockAt(pool, j), p)
  {
    hide Contains;
    if i in Ids(t.left) && j in Ids(t.left) {
      TwoOf(pool, t.left, i, j, p);
    } else if i in Ids(t.right) && j in Ids(t.right) {
      TwoOf(pool, t.right, i, j, p);
    } else {
      if i in Ids(t.left) { OneOf(pool, t.left, i, p); } else if i in Ids(t.right) { OneOf(pool, t.right, i, p); }
      if j in Ids(t.left) { OneOf(pool, t.left, j, p); } else if j in Ids(t.right) { OneOf(pool, t.right, j, p); }
    }
  }

  /** Of a smallest block of an ordered tree, what is left after a page was taken keeps the order
    * exactly when no other block of the same size lies lower. */
  lemma ShrinkKeepsOrder(pool: Pool, t: Tree, i: nat, rest: Block)
    requires Proper(t) && Ordered(pool, t) && i in Ids(t) && i < |pool| && rest.size < SizeAt(pool, i)
    requires AllWhole(pool, Ids(t)) && forall p :: Count(pool, t, p) <= 1
    requires forall j :: j in Ids(t) ==> SizeAt(pool, i) <= SizeAt(pool, j)
    ensures Ordered(Overwritten(pool, i, rest), t) <==> LowestOfSize(pool, t, i)
  {
    hide Proper, Ordered, Overwritten, Total, Whole, Count;
    ShrinkOrdered(pool, t, i, rest);
    forall j, k | j in Ids(t) && k in Ids(t) && BlockAt(pool, j).addr == BlockAt(pool, k).addr ensures j == k {
      FirstPage(BlockAt(pool, j));
      FirstPage(BlockAt(pool, k));
      if j != k { TwoOf(pool, t, j, k, BlockAt(pool, j).addr / PGSIZE); }
    }
    LeftmostIsLowest(pool, t, i);
  }

  lemma CountOverwritten(pool: Pool, t: Tree, i: nat, b: Block, p: nat)
    requires Proper(t) && i in Ids(t) && i < |pool|
    ensures Count(Overwritten(pool, i, b), t, p) + Contains(BlockAt(pool, i), p) == Count(pool, t, p) + Contains(b, p)
  {
    OverwrittenTotal(pool, t, i, b, OnPage(p));
  }

  lemma {:induction false} OneOf(pool: Pool, t: Tree, i: nat, p: nat)
    requires i in Ids(t)
    ensures Count(pool, t, p) >= Contains(BlockAt(pool, i), p)
  {
    if i != t.id {
      if i in Ids(t.left) { OneOf(pool, t.left, i, p); } else { OneOf(pool, t.right, i, p); }
    }
  }

  /** What the search for a page finds. */
  lemma Chosen(pool: Pool, t: Tree, best: Option<nat>)
    requires best == FindBestFit(pool, t, PGSIZE, None) && AllWhole(pool, Ids(t))
    ensures best == None <==> forall p :: Count(pool, t, p) == 0
    ensures best.Some? ==> best.value in Ids(t) && Whole(BlockAt(pool, best.value))
    ensures best.Some? && Ordered(pool, t) ==> forall j :: j in Ids(t) ==> SizeAt(pool, best.value) <= SizeAt(pool, j)
  {
    FindFits(pool, t, PGSIZE, None);
    if t.Fork? {
      assert t.id in Ids(t);
      FirstPage(BlockAt(pool, t.id));
      OneOf(pool, t, t.id, BlockAt(pool, t.id).addr / PGSIZE);
      if Ordered(pool, t) {
        FindIsBest(pool, t, PGSIZE, None);
        forall j | j in Ids(t) ensures SizeAt(pool, best.value) <= SizeAt(pool, j) {
          FirstPage(BlockAt(pool, j));
        }
      }
    }
  }
}
