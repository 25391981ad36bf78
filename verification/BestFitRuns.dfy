/** Runs of the best-fit allocator: what booting leaves, and what one page given back can cost. */
module BestFitRuns {
  import opened BestFitTree
  import opened BestFit

  // ---- the tree that pages freed in address order make ----

  /** Nodes k to m - 1, each the right child of the one before. */
  function Chain(k: nat, m: nat): Tree
    decreases m - k
  {
    if k >= m then Leaf else Fork(k, Leaf, Chain(k + 1, m))
  }

  /** Node j holds the page j pages above a. */
  ghost predicate Pages(pool: Pool, k: nat, m: nat, a: nat) {
    forall j :: k <= j < m ==> BlockAt(pool, j) == Block(a + j * PGSIZE, PGSIZE)
  }

  lemma {:induction false} ChainIds(k: nat, m: nat)
    ensures forall j :: j in Ids(Chain(k, m)) <==> k <= j < m
    decreases m - k
  {
    if k < m { ChainIds(k + 1, m); }
  }

  lemma {:induction false} ChainGrows(pool: Pool, k: nat, m: nat, a: nat)
    requires k <= m && Pages(pool, k, m, a)
    ensures Inserted(pool, Chain(k, m), m, Block(a + m * PGSIZE, PGSIZE)) == Chain(k, m + 1)
    decreases m - k
  {
    if k < m {
      ChainGrows(pool, k + 1, m, a);
    } else {
      assert Chain(m + 1, m + 1) == Leaf;
    }
  }

  /** Nothing starts above the last page. */
  lemma {:induction false} NothingAbove(pool: Pool, k: nat, m: nat, a: nat, x: nat)
    requires Pages(pool, k, m, a) && x >= a + m * PGSIZE
    ensures StartsAt(pool, Chain(k, m), x) == None
    decreases m - k
  {
    if k < m {
      assert BlockAt(pool, k) == Block(a + k * PGSIZE, PGSIZE);
      NothingAbove(pool, k + 1, m, a, x);
    }
  }

  lemma ChainLosesFirst(pool: Pool, k: nat, m: nat, a: nat)
    requires k < m && Proper(Chain(k, m)) && Mirrors(pool, Chain(k, m), None) && Pages(pool, k, m, a)
    ensures k in Ids(Chain(k, m))
    ensures var d := Deleted(pool, Chain(k, m), k); d.tree == Chain(k + 1, m) && Pages(d.pool, k + 1, m, a)
  {
    var t := Chain(k, m);
    assert Sub(t, k) == t && Thin(t);
    var d := Deleted(pool, t, k);
    assert d == Links(Bypassed(pool, k), Cut(t, k));
    forall j | k + 1 <= j < m ensures BlockAt(d.pool, j) == Block(a + j * PGSIZE, PGSIZE) {
      assert BlockAt(pool, j) == Block(a + j * PGSIZE, PGSIZE);
    }
  }

  /** A page that ends where the chain starts absorbs all of it. */
  lemma {:induction false} ChainIsAbsorbed(pool: Pool, k: nat, m: nat, a: nat, v: nat, size: nat)
    requires k <= m && Proper(Chain(k, m)) && Mirrors(pool, Chain(k, m), None) && Pages(pool, k, m, a)
    requires v + size == a + k * PGSIZE
    ensures Coalesced(pool, Chain(k, m), v, size).tree == Leaf
    ensures Coalesced(pool, Chain(k, m), v, size).size == size + m * PGSIZE - k * PGSIZE
    decreases m - k
  {
    hide Deleted, Proper, Mirrors;
    CoalescedStep(pool, Chain(k, m), v, size);
    if k < m {
      assert BlockAt(pool, k) == Block(a + k * PGSIZE, PGSIZE);
      assert StartsAt(pool, Chain(k, m), v + size) == Some(k);
      ChainLosesFirst(pool, k, m, a);
      var d := Deleted(pool, Chain(k, m), k);
      ChainIsAbsorbed(d.pool, k + 1, m, a, v, size + PGSIZE);
    }
  }

  function RoundUp(v: nat): (a: nat)
    ensures a % PGSIZE == 0 && v <= a < v + PGSIZE
  {
    PGSIZE * ((v + PGSIZE - 1) / PGSIZE)
  }

  /** How many of the n pages a range has will be free: each takes a node of the pool. */
  function Served(n: nat): nat {
    if n <= POOL then n else POOL
  }

  /** Pages i to m - 1 from a are free, in the nodes of the same number, and nothing else is. */
  ghost predicate Left(k: KMem, a: nat, i: nat, m: nat)
    reads k
  {
    && k.Sound() && k.next == m && i <= m <= POOL && k.tree == Chain(i, m) && Pages(k.nodes, i, m, a)
    && k.total_free == (m - i) * PGSIZE
    && forall p: nat :: k.Free(p) == if a / PGSIZE + i <= p < a / PGSIZE + m then 1 else 0
  }

  /** The first m pages from a are free, and nothing else is. */
  ghost predicate Booted(k: KMem, a: nat, m: nat)
    reads k
  {
    Left(k, a, 0, m)
  }

  /** kinit1 on a fresh allocator: freerange gives the pages back in address order, where none can
    * be absorbed, and only as many as the pool has nodes become free. */
  method Kinit1(vstart: nat, vend: nat) returns (k: KMem)
    ensures fresh(k)
    ensures Booted(k, RoundUp(vstart), Served(if RoundUp(vstart) <= vend then (vend - RoundUp(vstart)) / PGSIZE else 0))
  {
    k := new KMem();
    var a := RoundUp(vstart);
    var p := a;
    ghost var n: nat := 0;
    forall q ensures k.Free(q) == 0 { }
    while p + PGSIZE <= vend
      invariant p == a + n * PGSIZE && (n > 0 ==> p <= vend)
      invariant fresh(k) && Booted(k, a, Served(n))
    {
      FreeNext(k, a, n, p);
      p := p + PGSIZE;
      n := n + 1;
    }
    assert a <= vend ==> n == (vend - a) / PGSIZE;
  }

  /** The next page in address order: a leaf at the end of the chain, or nothing. */
  method FreeNext(k: KMem, a: nat, ghost n: nat, v: nat)
    requires a % PGSIZE == 0 && Booted(k, a, Served(n)) && v == a + n * PGSIZE
    modifies k
    ensures Booted(k, a, Served(n + 1))
  {
    hide Total, Proper, Mirrors, Ordered, Contains, Nodes, Ids, Coalesced, Inserted, StartsAt, Chain, Count;
    ghost var m := Served(n);
    PageOf(a, n);
    NothingAbove(k.nodes, 0, m, a, v + PGSIZE);
    CoalescedStep(k.nodes, k.tree, v, PGSIZE);
    if m < POOL { ChainGrows(k.nodes, 0, m, a); }
    ChainIds(0, m);
    ghost var pool := k.nodes;
    k.Kfree(v);
    if m < POOL {
      forall j | 0 <= j < m + 1 ensures BlockAt(k.nodes, j) == Block(a + j * PGSIZE, PGSIZE) {
        if j < m { assert BlockAt(pool, j) == Block(a + j * PGSIZE, PGSIZE); }
      }
    }
  }

  lemma PageOf(a: nat, n: nat)
    requires a % PGSIZE == 0
    ensures (a + n * PGSIZE) % PGSIZE == 0 && (a + n * PGSIZE) / PGSIZE == a / PGSIZE + n
  {
  }

  // ---- what goes wrong ----

  lemma AllocatesFirst(pool: Pool, k: nat, m: nat, a: nat)
    requires k < m && Pages(pool, k, m, a)
    ensures FindBestFit(pool, Chain(k, m), PGSIZE, None) == Some(k)
    ensures BlockAt(pool, k) == Block(a + k * PGSIZE, PGSIZE)
  {
    assert BlockAt(pool, k) == Block(a + k * PGSIZE, PGSIZE);
    assert FindBestFit(pool, Leaf, PGSIZE, Some(k)) == Some(k);
  }

  /** The next page is taken. */
  method TakeNext(k: KMem, a: nat, ghost i: nat, ghost m: nat) returns (page: Option<nat>)
    requires a % PGSIZE == 0 && Left(k, a, i, m) && i < m
    modifies k
    ensures Left(k, a, i + 1, m) && page == Some(a + i * PGSIZE)
  {
    hide Total, Proper, Mirrors, Ordered, Contains, Nodes, Ids, Coalesced, Inserted, StartsAt, Count, Deleted;
    PageOf(a, i);
    AllocatesFirst(k.nodes, i, m, a);
    ChainLosesFirst(k.nodes, i, m, a);
    assert k.Free(a / PGSIZE + i) == 1;
    ghost var j: nat;
    page, j := k.Kalloc();
  }

  /** Booted with as many pages as the pool has nodes, the kernel takes one page and gives it back:
    * the page absorbs every other, and finds no node.  No page is left. */
  method GivingBackLosesAll(vstart: nat, vend: nat) returns (k: KMem, a: nat)
    requires RoundUp(vstart) + POOL * PGSIZE <= vend
    ensures fresh(k) && k.Sound() && forall p: nat :: k.Free(p) == 0
    ensures k.total_free == (POOL - 1) * PGSIZE
  {
    hide Total, Proper, Mirrors, Ordered, Contains, Nodes, Ids, Coalesced, Inserted, StartsAt, Count, Deleted;
    k := Kinit1(vstart, vend);
    a := RoundUp(vstart);
    assert (vend - a) / PGSIZE >= POOL;
    var page := TakeNext(k, a, 0, POOL);
    assert page == Some(a);
    ChainIsAbsorbed(k.nodes, 1, POOL, a, a, PGSIZE);
    k.Kfree(a);
    forall p: nat ensures k.Free(p) == 0 {
      NothingIn(k.nodes, p);
    }
  }

  lemma NothingIn(pool: Pool, p: nat)
    ensures Count(pool, Leaf, p) == 0
  {
  }

  /** Booted with n pages, the kernel has taken all of them. */
  method BootAndTakeAll(vstart: nat, vend: nat, n: nat) returns (k: KMem, a: nat)
    requires n <= POOL && RoundUp(vstart) + n * PGSIZE <= vend < RoundUp(vstart) + (n + 1) * PGSIZE
    ensures fresh(k) && a == RoundUp(vstart) && Left(k, a, n, n)
  {
    k := Kinit1(vstart, vend);
    a := RoundUp(vstart);
    var i := 0;
    while i < n
      invariant i <= n && fresh(k) && Left(k, a, i, n)
    {
      var _ := TakeNext(k, a, i, n);
      i := i + 1;
    }
  }

  /** With every page taken the tree is empty, and the next node is node n. */
  lemma AllTaken(k: KMem, a: nat, n: nat)
    requires Left(k, a, n, n)
    ensures k.Sound() && k.next == n && k.tree == Leaf && k.total_free == 0 && forall p: nat :: k.Free(p) == 0
  {
  }

  /** Two pages given back in falling order: the second absorbs the first, and two free pages count
    * as three. */
  method AbsorbedCountsTwice(vstart: nat, vend: nat, n: nat) returns (k: KMem, a: nat)
    requires 2 <= n <= POOL - 2 && RoundUp(vstart) + n * PGSIZE <= vend < RoundUp(vstart) + (n + 1) * PGSIZE
    ensures fresh(k) && a == RoundUp(vstart) && k.Sound() && k.total_free == 3 * PGSIZE
    ensures forall p: nat :: k.Free(p) == if p == a / PGSIZE || p == a / PGSIZE + 1 then 1 else 0
  {
    hide Total, Proper, Mirrors, Ordered, Contains, Nodes, Ids, Coalesced, Count, Deleted;
    k, a := BootAndTakeAll(vstart, vend, n);
    AllTaken(k, a, n);
    PageOf(a, 1);
    CoalescedStep(k.nodes, k.tree, a + PGSIZE, PGSIZE);
    k.Kfree(a + PGSIZE);
    assert k.tree == Single(n);
    LeafIsAbsorbed(k.nodes, k.tree, n, n, a, PGSIZE);
    k.Kfree(a);
  }

  function Single(i: nat): Tree {
    Fork(i, Leaf, Leaf)
  }

  /** Absorbing the block of a leaf, alone in the tree or to the left of node q, which lies higher. */
  lemma LeafIsAbsorbed(pool: Pool, t: Tree, q: nat, i: nat, v: nat, size: nat)
    requires Proper(t) && Mirrors(pool, t, None) && BlockAt(pool, i).addr == v + size && SizeAt(pool, i) > 0
    requires t == Single(i) || (t == Fork(q, Single(i), Leaf) && BlockAt(pool, q).addr > v + size + SizeAt(pool, i))
    ensures var r := Coalesced(pool, t, v, size);
      && r.tree == (if t == Single(i) then Leaf else Single(q)) && r.size == size + SizeAt(pool, i)
      && forall j :: BlockAt(r.pool, j) == BlockAt(pool, j)
  {
    hide Mirrors, Deleted, Coalesced, Bypassed, Cut, Sub, Proper;
    CoalescedStep(pool, t, v, size);
    assert StartsAt(pool, t, v + size) == Some(i);
    LeafGoes(pool, t, q, i);
    var d := Deleted(pool, t, i);
    CoalescedStep(d.pool, d.tree, v, size + SizeAt(pool, i));
  }

  lemma LeafGoes(pool: Pool, t: Tree, q: nat, i: nat)
    requires Proper(t) && Mirrors(pool, t, None) && (t == Single(i) || t == Fork(q, Single(i), Leaf))
    ensures i in Ids(t) && Thin(Sub(t, i)) && i < |pool| && Deleted(pool, t, i) == Links(Bypassed(pool, i), Cut(t, i))
    ensures Cut(t, i) == if t == Single(i) then Leaf else Single(q)
    ensures forall j :: BlockAt(Bypassed(pool, i), j) == BlockAt(pool, j)
  {
    SingleIds(i);
    InPool(pool, t, None, i);
    assert Sub(t, i) == Single(i);
  }

  /** The fifth page is given back, then the third and the second, which absorbs it. */
  method LargeToTheRight(vstart: nat, vend: nat, n: nat) returns (k: KMem, a: nat)
    requires 5 <= n <= POOL - 4 && RoundUp(vstart) + n * PGSIZE <= vend < RoundUp(vstart) + (n + 1) * PGSIZE
    ensures fresh(k) && a == RoundUp(vstart) && k.Sound() && k.next == n + 3 && k.Free(a / PGSIZE) == 0
    ensures k.tree == Fork(n, Leaf, Single(n + 2)) && BlockAt(k.nodes, n) == Block(a + 4 * PGSIZE, PGSIZE)
    ensures BlockAt(k.nodes, n + 2) == Block(a + PGSIZE, 2 * PGSIZE)
  {
    hide Total, Proper, Mirrors, Ordered, Contains, Nodes, Ids, Coalesced, Count, Deleted, Whole;
    k, a := BootAndTakeAll(vstart, vend, n);
    AllTaken(k, a, n);
    PageOf(a, 1);
    PageOf(a, 2);
    PageOf(a, 4);
    SingleIds(n);
    CoalescedStep(k.nodes, k.tree, a + 4 * PGSIZE, PGSIZE);
    k.Kfree(a + 4 * PGSIZE);
    assert k.tree == Single(n) && BlockAt(k.nodes, n) == Block(a + 4 * PGSIZE, PGSIZE);
    CoalescedStep(k.nodes, k.tree, a + 2 * PGSIZE, PGSIZE);
    k.Kfree(a + 2 * PGSIZE);
    assert k.tree == Fork(n, Single(n + 1), Leaf) && BlockAt(k.nodes, n) == Block(a + 4 * PGSIZE, PGSIZE);
    LeafIsAbsorbed(k.nodes, k.tree, n, n + 1, a + PGSIZE, PGSIZE);
    k.Kfree(a + PGSIZE);
  }

  /** Of five pages, all taken, the fifth is given back, then the third, the second and the first.  The
    * last call does not absorb the block that starts where its page ends: it stands to the right of a
    * higher block, because it is larger, and the descent goes to the left there. */
  method NeighbourIsMissed(vstart: nat, vend: nat, n: nat)
    returns (k: KMem, a: nat, ghost pool: Pool, ghost t: Tree, ghost i: nat)
    requires 5 <= n <= POOL - 4 && RoundUp(vstart) + n * PGSIZE <= vend < RoundUp(vstart) + (n + 1) * PGSIZE
    ensures fresh(k) && a == RoundUp(vstart) && k.Sound()
    // Before the last call node i holds a block that starts where the page at a ends; no search finds it.
    ensures Proper(t) && Mirrors(pool, t, None) && Ordered(pool, t) && i in Ids(t)
    ensures BlockAt(pool, i) == Block(a + PGSIZE, 2 * PGSIZE)
    ensures StartsAt(pool, t, a + PGSIZE) == None && !Sided(pool, t, i)
    // After it both are still blocks of their own.
    ensures k.tree == Inserted(pool, t, n + 3, Block(a, PGSIZE)) && i in Ids(k.tree) && n + 3 in Ids(k.tree)
    ensures BlockAt(k.nodes, i) == BlockAt(pool, i) && BlockAt(k.nodes, n + 3) == Block(a, PGSIZE)
  {
    hide Total, Proper, Mirrors, Ordered, Contains, Nodes, Ids, Coalesced, Count, Deleted, Sided, Whole;
    k, a := LargeToTheRight(vstart, vend, n);
    pool, t, i := k.nodes, k.tree, n + 2;
    WrongSide(pool, n, i, a);
    CoalescedStep(pool, t, a, PGSIZE);
    k.Kfree(a);
    ThreeIds(n, n + 3, n + 2);
  }

  lemma WrongSide(pool: Pool, q: nat, i: nat, a: nat)
    requires q != i && BlockAt(pool, q) == Block(a + 4 * PGSIZE, PGSIZE)
    requires BlockAt(pool, i) == Block(a + PGSIZE, 2 * PGSIZE)
    ensures var t := Fork(q, Leaf, Single(i));
      && Ids(t) == {q, i} && Ordered(pool, t) && StartsAt(pool, t, a + PGSIZE) == None && !Sided(pool, t, i)
  {
    var t := Fork(q, Leaf, Single(i));
    SingleIds(i);
    assert q in Ids(t) && Sub(t, q) == t;
  }

  lemma ThreeIds(i: nat, j: nat, l: nat)
    ensures Ids(Fork(i, Single(j), Single(l))) == {i, j, l}
  {
    SingleIds(j);
    SingleIds(l);
  }

  /** The fifth page is given back, and the fourth, which absorbs it. */
  method LargeRoot(vstart: nat, vend: nat, n: nat) returns (k: KMem, a: nat)
    requires 5 <= n <= POOL - 4 && RoundUp(vstart) + n * PGSIZE <= vend < RoundUp(vstart) + (n + 1) * PGSIZE
    ensures fresh(k) && a == RoundUp(vstart) && k.Sound() && k.next == n + 2
    ensures k.Free(a / PGSIZE) == 0 && k.Free(a / PGSIZE + 1) == 0
    ensures k.tree == Single(n + 1) && BlockAt(k.nodes, n + 1) == Block(a + 3 * PGSIZE, 2 * PGSIZE)
  {
    hide Total, Proper, Mirrors, Ordered, Contains, Nodes, Ids, Coalesced, Count, Deleted, Whole;
    k, a := BootAndTakeAll(vstart, vend, n);
    AllTaken(k, a, n);
    PageOf(a, 3);
    PageOf(a, 4);
    CoalescedStep(k.nodes, k.tree, a + 4 * PGSIZE, PGSIZE);
    k.Kfree(a + 4 * PGSIZE);
    assert k.tree == Single(n);
    LeafIsAbsorbed(k.nodes, k.tree, n, n, a + 3 * PGSIZE, PGSIZE);
    k.Kfree(a + 3 * PGSIZE);
  }

  /** Of the five, the fifth, the fourth, the second and the first are given back and one is taken: the
    * two blocks of two pages stand in order, until the one nearer the root shrinks. */
  method SplittingDisorders(vstart: nat, vend: nat, n: nat) returns (k: KMem)
    requires 5 <= n <= POOL - 4 && RoundUp(vstart) + n * PGSIZE <= vend < RoundUp(vstart) + (n + 1) * PGSIZE
    ensures fresh(k) && k.Sound() && !Ordered(k.nodes, k.tree)
  {
    hide Total, Proper, Mirrors, Ordered, Contains, Nodes, Ids, Coalesced, Count, Deleted, Whole;
    var a;
    k, a := LargeRoot(vstart, vend, n);
    PageOf(a, 1);
    SingleIds(n + 1);
    CoalescedStep(k.nodes, k.tree, a + PGSIZE, PGSIZE);
    k.Kfree(a + PGSIZE);
    assert k.tree == Fork(n + 1, Single(n + 2), Leaf) && BlockAt(k.nodes, n + 1) == Block(a + 3 * PGSIZE, 2 * PGSIZE);
    LeafIsAbsorbed(k.nodes, k.tree, n + 1, n + 2, a, PGSIZE);
    k.Kfree(a);
    assert k.tree == Fork(n + 1, Single(n + 3), Leaf);
    SplitsRoot(k.nodes, n + 1, n + 3, a);
    ghost var i: nat;
    var page;
    page, i := k.Kalloc();
  }

  lemma SingleIds(i: nat)
    ensures Ids(Single(i)) == {i}
  {
  }

  lemma SplitsRoot(pool: Pool, q: nat, i: nat, a: nat)
    requires BlockAt(pool, q) == Block(a + 3 * PGSIZE, 2 * PGSIZE) && BlockAt(pool, i) == Block(a, 2 * PGSIZE)
    ensures var t := Fork(q, Single(i), Leaf);
      && Ordered(pool, t) && FindBestFit(pool, t, PGSIZE, None) == Some(q) && i in Ids(t)
      && !LowestOfSize(pool, t, q)
  {
    assert FindBestFit(pool, Single(i), PGSIZE, Some(q)) == Some(q);
    assert i in Ids(Fork(q, Single(i), Leaf));
  }

  // ---- with as many pages as the pool has nodes, or more ----

  /** The kernel takes a page, or gives back one that it holds. */
  datatype Call = Take | Give(v: nat)

  /** The POOL pages from page x on. */
  function Range(x: nat, n: nat): (r: set<nat>)
    ensures |r| == n && forall p :: p in r <==> x <= p < x + n
  {
    if n == 0 then {} else Range(x, n - 1) + {x + n - 1}
  }

  /** Every block is one page. */
  ghost predicate OnePages(pool: Pool, t: Tree) {
    forall i :: i in Ids(t) ==> SizeAt(pool, i) == PGSIZE
  }

  lemma StillOnePages(pool: Pool, t: Tree, pool': Pool, t': Tree)
    requires OnePages(pool, t) && forall x :: Copies(pool', t', x) <= Copies(pool, t, x)
    ensures OnePages(pool', t')
  {
    hide Copies;
    forall i | i in Ids(t') ensures SizeAt(pool', i) == PGSIZE {
      var x := BlockAt(pool', i);
      CopiesMeans(pool', t', x);
      CopiesMeans(pool, t, x);
    }
  }

  /** No node is left: free pages are those of the range that were never taken, or fewer; each is a
    * block of its own, and the blocks are in order. */
  ghost predicate Spent(k: KMem, range: set<nat>, got: set<nat>)
    reads k
  {
    && k.Sound() && k.next == POOL && Ordered(k.nodes, k.tree) && OnePages(k.nodes, k.tree)
    && got <= range && forall p: nat :: k.Free(p) > 0 ==> p in range && p !in got
  }

  ghost predicate Holds(k: KMem, held: set<nat>, got: set<nat>)
    reads k
  {
    forall v: nat :: v in held ==> v % PGSIZE == 0 && v / PGSIZE in got
  }

  method SpentTake(k: KMem, ghost range: set<nat>, ghost got: set<nat>) returns (page: Option<nat>)
    requires Spent(k, range, got)
    modifies k
    ensures page == None ==> Spent(k, range, got)
    ensures page.Some? ==> page.value % PGSIZE == 0 && page.value / PGSIZE !in got
    ensures page.Some? ==> Spent(k, range, got + {page.value / PGSIZE})
  {
    hide Total, Proper, Mirrors, Ordered, Contains, Nodes, Ids, Count, Deleted, Copies;
    ghost var i: nat;
    ghost var pool, t := k.nodes, k.tree;
    page, i := k.Kalloc();
    if page.Some? {
      forall x ensures Copies(k.nodes, k.tree, x) <= Copies(pool, t, x) {
        DeletedCopies(pool, t, i, x);
      }
      StillOnePages(pool, t, k.nodes, k.tree);
    }
  }

  method SpentGive(k: KMem, v: nat, ghost range: set<nat>, ghost got: set<nat>)
    requires Spent(k, range, got) && v % PGSIZE == 0 && v / PGSIZE in got
    modifies k
    ensures Spent(k, range, got)
  {
    hide Total, Proper, Mirrors, Ordered, Contains, Nodes, Ids, Count, Deleted, Copies, Coalesced;
    ghost var pool, t := k.nodes, k.tree;
    k.Kfree(v);
    forall x ensures Copies(k.nodes, k.tree, x) <= Copies(pool, t, x) {
      CoalescedCopies(pool, t, v, PGSIZE, x);
    }
    StillOnePages(pool, t, k.nodes, k.tree);
  }

  /** Booted with as many pages as the pool has nodes or more, whatever the kernel takes and gives back,
    * kalloc hands out at most POOL pages ever, and each of them once. */
  method ServesPoolOnce(vstart: nat, vend: nat, calls: seq<Call>) returns (k: KMem, granted: seq<nat>)
    requires RoundUp(vstart) + POOL * PGSIZE <= vend
    ensures fresh(k) && k.Sound() && k.next == POOL && Ordered(k.nodes, k.tree) && OnePages(k.nodes, k.tree)
    ensures |granted| <= POOL && forall i, j :: 0 <= i < j < |granted| ==> granted[i] != granted[j]
  {
    hide Spent, Booted, Range, RoundUp;
    k := Kinit1(vstart, vend);
    var a := RoundUp(vstart);
    ghost var range, got: set<nat> := Range(a / PGSIZE, POOL), {};
    assert (vend - a) / PGSIZE >= POOL;
    SpentAtBoot(k, a);
    var held: set<nat> := {};
    granted := [];
    for c := 0 to |calls|
      invariant fresh(k) && Spent(k, range, got) && Holds(k, held, got)
      invariant |got| == |granted| && (forall i :: 0 <= i < |granted| ==> granted[i] / PGSIZE in got)
      invariant forall i, j :: 0 <= i < j < |granted| ==> granted[i] != granted[j]
    {
      match calls[c]
      case Take =>
        var page := SpentTake(k, range, got);
        if page.Some? {
          got := got + {page.value / PGSIZE};
          held := held + {page.value};
          granted := granted + [page.value];
        }
      case Give(v) =>
        if v in held {
          SpentGive(k, v, range, got);
          held := held - {v};
        }
    }
    SpentMeans(k, range, got);
    SubsetSize(got, range);
  }

  lemma SpentMeans(k: KMem, range: set<nat>, got: set<nat>)
    requires Spent(k, range, got)
    ensures k.Sound() && k.next == POOL && Ordered(k.nodes, k.tree) && OnePages(k.nodes, k.tree) && got <= range
  {
  }

  lemma SubsetSize(a: set<nat>, b: set<nat>)
    requires a <= b
    ensures |a| <= |b|
  {
    assert b == a + (b - a);
  }

  lemma SpentAtBoot(k: KMem, a: nat)
    requires Booted(k, a, POOL)
    ensures Spent(k, Range(a / PGSIZE, POOL), {})
  {
    hide Total, Proper, Mirrors, Chain, Ordered, Count, Whole, BlockAt;
    ChainIds(0, POOL);
    forall i | i in Ids(k.tree) ensures SizeAt(k.nodes, i) == PGSIZE {
      assert BlockAt(k.nodes, i) == Block(a + i * PGSIZE, PGSIZE);
    }
    ChainOrdered(k.nodes, 0, POOL, a);
  }

  lemma {:induction false} ChainOrdered(pool: Pool, k: nat, m: nat, a: nat)
    requires Pages(pool, k, m, a)
    ensures Ordered(pool, Chain(k, m))
    decreases m - k
  {
    if k < m {
      ChainOrdered(pool, k + 1, m, a);
      ChainIds(k + 1, m);
      forall i | i in Ids(Chain(k + 1, m)) ensures Leq(BlockAt(pool, k), BlockAt(pool, i)) {
        assert BlockAt(pool, k) == Block(a + k * PGSIZE, PGSIZE) && BlockAt(pool, i) == Block(a + i * PGSIZE, PGSIZE);
      }
    }
  }
}
