/** The user-level allocator: one circular list of free blocks in address order.
  *
  * Addresses are counted in headers (8 bytes).  Every unit of the heap holds a header's two
  * words; inside a block that the program owns those words are the program's data, so "no live
  * unit is written" also says that no data is damaged. */
module Umalloc {
  /** The kernel's half of the address space starts here, in units. */
  const LIMIT: nat := 0x1000_0000
  const MINIMUM: nat := 4096
  const WRAP: nat := 0x1_0000_0000

  datatype Header = Header(ptr: nat, size: nat)

  datatype Outcome = Null | Granted(block: nat) | Wrapped(count: int, fate: Fate)

  /** What becomes of a process that asks sbrk for no bytes or fewer: growproc unmaps everything and
    * fails, or morecore writes a header at the old end of memory, in an unmapped page or not. */
  datatype Fate = Emptied | Faults | Planted

  /** Units requested from the list, with the source's 32-bit sum. */
  function Units(nbytes: nat): (n: nat)
    ensures n >= 1
  {
    (nbytes + 7) % WRAP / 8 + 1
  }

  /** The byte count that morecore asks sbrk for: nu * 8 as a signed 32-bit number. */
  function SbrkArg(nu: nat): int {
    var bytes := 8 * nu % WRAP;
    if bytes < WRAP / 2 then bytes else bytes - WRAP
  }

  /** morecore asks for the bytes of its units exactly when there are fewer than the address space
    * holds; for more it asks for none or gives some back. */
  lemma ArgIsWrapped(nbytes: nat)
    requires nbytes < WRAP
    ensures Units(nbytes) < LIMIT <==> SbrkArg(Units(nbytes)) > 0
    ensures Units(nbytes) < LIMIT <==> SbrkArg(Units(nbytes)) == 8 * Units(nbytes)
    ensures Units(nbytes) >= LIMIT ==> -0x8000_0000 <= SbrkArg(Units(nbytes)) <= 0
  {
    var n := Units(nbytes);
    assert n <= 0x2000_0000;
    assert n == 0x2000_0000 || 8 * n % WRAP == 8 * n;
  }

  const PGSIZE: nat := 4096

  /** The size that growproc leaves a process of sz bytes with, for a count of at most 0. */
  function SizeAfter(sz: nat, count: int): nat
    requires count <= 0
  {
    if sz + count >= 0 then sz + count else sz
  }

  function WrappedFate(sz: nat, count: int): Fate
    requires count <= 0
  {
    if count < 0 && sz + count == 0 then Emptied
    else if sz / PGSIZE < (SizeAfter(sz, count) + PGSIZE - 1) / PGSIZE then Planted
    else Faults
  }

  /** The header is planted exactly when memory ends inside a page, and what is given back, if it can
    * be, ends in that page too. */
  lemma PlantedWhen(sz: nat, count: int)
    requires count <= 0
    ensures WrappedFate(sz, count) == Planted <==>
              sz % PGSIZE != 0 && (sz + count < 0 || -count < sz % PGSIZE)
  {
    assert sz == PGSIZE * (sz / PGSIZE) + sz % PGSIZE;
  }

  /** A block of Units(nbytes) holds nbytes after its header exactly when the sum did not wrap. */
  lemma EnoughUnits(nbytes: nat)
    requires nbytes < WRAP
    ensures 8 * (Units(nbytes) - 1) >= nbytes <==> nbytes <= WRAP - 8
    ensures nbytes <= WRAP - 8 ==> 8 * (Units(nbytes) - 1) < nbytes + 8
    ensures Units(nbytes) < LIMIT <==> nbytes <= 8 * (LIMIT - 2) || nbytes > WRAP - 8
  {
    if nbytes <= WRAP - 8 {
      assert (nbytes + 7) % WRAP == nbytes + 7;
    } else {
      assert (nbytes + 7) % WRAP == nbytes + 7 - WRAP;
    }
  }

  /** Position after i in a ring of n. */
  function Succ(i: nat, n: nat): (j: nat)
    requires i < n
    ensures j < n
  {
    if i + 1 == n then 0 else i + 1
  }

  /** Steps from position i forward to position f. */
  function Distance(i: nat, f: nat, n: nat): nat
    requires i < n && f < n
  {
    if i <= f then f - i else n - i + f
  }

  ghost function Elements(s: seq<nat>): set<nat> {
    set a | a in s
  }

  ghost predicate Above(u: nat, a: nat) {
    a <= u
  }

  ghost function Range(a: nat, b: nat): set<nat> {
    set u: nat | u < b && Above(u, a)
  }

  /** A heap: its memory, the free blocks in address order (the first is the fixed header that
    * anchors the ring), the blocks the program owns, and the block each unit belongs to. */
  datatype Heap = Heap(mem: map<nat, Header>, ring: seq<nat>, live: set<nat>, owner: map<nat, nat>,
                       base: nat, start: nat, brk: nat)
  {
    /** a is a block, and every unit of it belongs to a. */
    ghost predicate Held(a: nat) {
      && a in mem
      && start <= a
      && mem[a].size >= 1
      && a + mem[a].size <= brk
      && forall u: nat :: a <= u < a + mem[a].size ==> Owns(a, u)
    }

    ghost predicate Owns(a: nat, u: nat) {
      u in owner && owner[u] == a
    }

    /** The unit u lies inside a block, free or live. */
    ghost predicate Housed(u: nat) {
      && u in owner
      && (owner[u] in live || owner[u] in Free())
      && owner[u] in mem
      && owner[u] != base
      && owner[u] <= u < owner[u] + mem[owner[u]].size
    }

    ghost predicate Linked(i: nat) {
      && i < |ring|
      && ring[i] in mem
      && mem[ring[i]].ptr == ring[Succ(i, |ring|)]
    }

    /** Free blocks i and i + 1 do not touch; where lo <= i < hi they may. */
    ghost predicate Apart(i: nat, lo: nat, hi: nat) {
      && i + 1 < |ring|
      && ring[i] in mem
      && ring[i] + mem[ring[i]].size <= ring[i + 1]
      && (lo <= i < hi || ring[i] + mem[ring[i]].size < ring[i + 1])
      && ring[i] < ring[i + 1]
    }

    /** The free blocks: everything on the ring but the anchor. */
    ghost function Free(): set<nat> {
      Elements(ring) - {base}
    }

    ghost predicate Bounds() {
      && 0 < base < start <= brk < LIMIT
      && owner.Keys == Range(start, brk)
      && mem.Keys == owner.Keys + {base}
    }

    ghost predicate Frees() {
      forall a :: a in Free() ==> Held(a) && a !in live
    }

    ghost predicate Lives() {
      forall a :: a in live ==> Held(a)
    }

    ghost predicate Houses() {
      forall u :: u in owner ==> Housed(u)
    }

    /** The blocks partition the heap. */
    ghost predicate Blocks() {
      Bounds() && Frees() && Lives() && Houses()
    }

    /** The free blocks form one ring, closed at the anchor. */
    ghost predicate Links() {
      && |ring| > 0
      && ring[0] == base
      && base in mem
      && mem[base].size == 0
      && Closed()
    }

    ghost predicate Closed() {
      forall i: nat :: i < |ring| ==> Linked(i)
    }

    ghost predicate Sorted() {
      Rising(ring)
    }

    /** Addresses rise along the list, so the ring wraps once, at its end. */
    ghost predicate Gaps(lo: nat, hi: nat) {
      forall i: nat :: i + 1 < |ring| ==> Apart(i, lo, hi)
    }

    /** The heap is well formed, except that neighbours lo <= i < hi may touch. */
    ghost predicate WellFormedBut(lo: nat, hi: nat) {
      Blocks() && Links() && Gaps(lo, hi)
    }

    ghost predicate WellFormed() {
      WellFormedBut(0, 0)
    }

    /** bp put into the list after position k. */
    ghost function Inserted(bp: nat, k: nat): Heap
      requires k < |ring| && ring[k] in mem && bp in mem
    {
      this.(mem := mem[ring[k] := mem[ring[k]].(ptr := bp)][bp := mem[bp].(ptr := mem[ring[k]].ptr)],
            ring := ring[..k + 1] + [bp] + ring[k + 1..],
            live := live - {bp})
    }

    /** Free block j swallows free block j + 1. */
    ghost function Merged(j: nat): Heap
      requires j + 1 < |ring| && ring[j] in mem && ring[j + 1] in mem
    {
      var p, q := ring[j], ring[j + 1];
      this.(mem := mem[p := Header(mem[q].ptr, mem[p].size + mem[q].size)],
            ring := ring[..j + 1] + ring[j + 2..],
            owner := map u | u in owner :: if owner[u] == q then p else owner[u])
    }

    /** Free block i goes to the program whole. */
    ghost function Taken(i: nat): Heap
      requires 0 < i < |ring| && ring[i] in mem && ring[i - 1] in mem
    {
      this.(mem := mem[ring[i - 1] := mem[ring[i - 1]].(ptr := mem[ring[i]].ptr)],
            ring := ring[..i] + ring[i + 1..],
            live := live + {ring[i]})
    }

    /** The last n units of free block i go to the program. */
    ghost function Split(i: nat, n: nat): Heap
      requires i < |ring| && ring[i] in mem && mem[ring[i]].size > n
      requires ring[i] + mem[ring[i]].size - n in mem
    {
      var p := ring[i];
      var tail := p + mem[p].size - n;
      this.(mem := mem[p := mem[p].(size := mem[p].size - n)][tail := mem[tail].(size := n)],
            live := live + {tail},
            owner := map u | u in owner :: if tail <= u < tail + n then tail else owner[u])
    }

    /** n zeroed units more, as one block of the program's. */
    ghost function Extended(n: nat): Heap {
      this.(mem := map u: nat | u < brk + n && (u in mem || brk <= u) ::
                     if u < brk then mem[u] else if u == brk then Header(0, n) else Header(0, 0),
            live := live + {brk},
            owner := map u: nat | u < brk + n && (u in owner || brk <= u) ::
                     if u < brk then owner[u] else brk,
            brk := brk + n)
    }
  }

  /** No unit of a block that is live in both heaps changed hands or contents. */
  ghost predicate Undisturbed(h: Heap, g: Heap) {
    forall u :: u in h.owner && h.owner[u] in h.live && h.owner[u] in g.live ==> SameUnit(h, g, u)
  }

  ghost predicate SameUnit(h: Heap, g: Heap, u: nat)
    requires u in h.owner
  {
    u in g.owner && g.owner[u] == h.owner[u] && u in h.mem && u in g.mem && g.mem[u] == h.mem[u]
  }

  // ---- facts about a well-formed heap ----

  lemma {:induction false} Ascending(h: Heap, lo: nat, hi: nat, i: nat, j: nat)
    requires h.Gaps(lo, hi) && i < j < |h.ring|
    ensures h.ring[i] in h.mem
    ensures h.ring[i] < h.ring[j] && h.ring[i] + h.mem[h.ring[i]].size <= h.ring[j]
    decreases j - i
  {
    assert h.Apart(i, lo, hi);
    if i + 1 < j {
      Ascending(h, lo, hi, i + 1, j);
    }
  }

  ghost predicate Rising(ring: seq<nat>) {
    forall i: nat, j: nat :: i < j < |ring| ==> ring[i] < ring[j]
  }

  lemma Increasing(h: Heap, lo: nat, hi: nat)
    requires h.Gaps(lo, hi)
    ensures h.Sorted()
  {
    forall i: nat, j: nat | i < j < |h.ring| ensures h.ring[i] < h.ring[j] {
      Ascending(h, lo, hi, i, j);
    }
  }

  /** Where a live block belongs in the list: after the last free block below it. */
  ghost function Place(ring: seq<nat>, bp: nat): (k: nat)
    requires |ring| > 0 && ring[0] < bp && Rising(ring)
    ensures k < |ring| && ring[k] < bp
    ensures forall i: nat :: k < i < |ring| ==> bp <= ring[i]
    decreases |ring|
  {
    if ring[|ring| - 1] < bp then |ring| - 1
    else Place(ring[..|ring| - 1], bp)
  }

  lemma {:induction false} OnRing(h: Heap, i: nat)
    requires h.Links() && h.Sorted() && 0 < i < |h.ring|
    ensures h.ring[i] in h.Free() && h.ring[i] != h.base && h.ring[i] in h.mem
  {
    assert h.ring[0] < h.ring[i];
    assert h.Linked(i);
  }

  /** Blocks do not overlap. */
  lemma Disjoint(h: Heap, a: nat, b: nat)
    requires h.Held(a) && h.Held(b) && a < b
    ensures a + h.mem[a].size <= b
  {
    assert h.Owns(b, b);
    assert b < a + h.mem[a].size ==> h.Owns(a, b);
  }

  lemma LiveFits(h: Heap, bp: nat, i: nat)
    requires h.Blocks() && h.Links() && h.Sorted() && bp in h.live && i < |h.ring|
    ensures bp != h.ring[i] && h.ring[i] in h.mem && bp in h.mem
    ensures h.ring[i] < bp ==> h.ring[i] + h.mem[h.ring[i]].size <= bp
    ensures bp < h.ring[i] ==> bp + h.mem[bp].size <= h.ring[i]
  {
    assert h.Held(bp);
    if i > 0 {
      OnRing(h, i);
      var a := h.ring[i];
      if a < bp { Disjoint(h, a, bp); }
      if bp < a { Disjoint(h, bp, a); }
    }
  }

  // ---- what each change of the list keeps ----

  lemma ElementsInsert(s: seq<nat>, k: nat, x: nat)
    requires k <= |s|
    ensures Elements(s[..k] + [x] + s[k..]) == Elements(s) + {x}
  {
    assert s == s[..k] + s[k..];
  }

  lemma ElementsRemove(s: seq<nat>, k: nat)
    requires k < |s| && Rising(s)
    ensures Elements(s[..k] + s[k + 1..]) == Elements(s) - {s[k]}
    ensures Rising(s[..k] + s[k + 1..])
  {
    var t := s[..k] + s[k + 1..];
    assert s == s[..k] + [s[k]] + s[k + 1..];
    assert s[k] !in s[..k] && s[k] !in s[k + 1..];
  }

  ghost predicate SameSize(h: Heap, g: Heap, a: nat) {
    a in h.mem && a in g.mem && g.mem[a].size == h.mem[a].size
  }

  /** A block whose size and units a change leaves alone stays a block. */
  lemma HeldStays(h: Heap, g: Heap, a: nat)
    requires h.Held(a) && g.start == h.start && h.brk <= g.brk && SameSize(h, g, a)
    requires forall u: nat :: a <= u < a + h.mem[a].size && h.Owns(a, u) ==> g.Owns(a, u)
    ensures g.Held(a)
  {
    forall u: nat | a <= u < a + g.mem[a].size ensures g.Owns(a, u) {
      assert h.Owns(a, u);
    }
  }

  /** Blocks may change hands; the partition stays. */
  lemma Handover(h: Heap, g: Heap)
    requires h.Blocks() && g.Bounds() && g.owner == h.owner
    requires g.base == h.base && g.start == h.start && g.brk == h.brk
    requires forall a :: a in h.mem && a in h.Free() + h.live ==> SameSize(h, g, a)
    requires g.Free() + g.live == h.Free() + h.live && g.Free() !! g.live
    ensures g.Blocks()
  {
    hide Heap.Free;
    forall a | a in g.Free() + g.live ensures g.Held(a) {
      assert a in h.Free() + h.live;
      assert SameSize(h, g, a);
      HeldStays(h, g, a);
    }
    forall u | u in g.owner ensures g.Housed(u) {
      assert h.Housed(u);
      var a := h.owner[u];
      assert a in g.Free() + g.live;
      assert SameSize(h, g, a);
    }
  }

  /** Writing the headers of free block k and of b harms no live block but b. */
  lemma HeadersOnly(h: Heap, g: Heap, k: nat, b: nat)
    requires h.Blocks() && h.Links() && h.Sorted() && k < |h.ring|
    requires b in h.live ==> b !in g.live
    requires b !in h.live ==> b in h.Free()
    requires forall u :: u in h.mem && u != h.ring[k] && u != b ==> SameHeader(h, g, u)
    requires forall u :: u in h.owner && h.owner[u] in g.live ==> SameOwner(h, g, u)
    ensures Undisturbed(h, g)
  {
    forall u | u in h.owner && h.owner[u] in h.live && h.owner[u] in g.live ensures SameUnit(h, g, u) {
      assert h.Housed(u);
      if k > 0 { OnRing(h, k); assert h.Owns(h.ring[k], h.ring[k]); }
      assert h.Held(b) && h.Owns(b, b);
    }
  }

  lemma InsertLinks(h: Heap, bp: nat, k: nat)
    requires h.Links() && h.Sorted() && k < |h.ring| && bp in h.mem && bp !in Elements(h.ring)
    requires h.ring[k] in h.mem
    ensures h.Inserted(bp, k).Links()
  {
    var g := h.Inserted(bp, k);
    forall i: nat | i < |g.ring| ensures g.Linked(i) {
      if i <= k { assert h.Linked(i); } else if i > k + 1 { assert h.Linked(i - 1); } else { assert h.Linked(k); }
    }
  }

  lemma InsertGaps(h: Heap, bp: nat, k: nat)
    requires h.Gaps(0, 0) && k < |h.ring| && bp in h.mem && h.ring[k] in h.mem && bp !in Elements(h.ring)
    requires h.ring[k] < bp && h.ring[k] + h.mem[h.ring[k]].size <= bp
    requires k + 1 < |h.ring| ==> bp < h.ring[k + 1] && bp + h.mem[bp].size <= h.ring[k + 1]
    ensures h.Inserted(bp, k).Gaps(k, k + 2)
  {
    var g, end := h.Inserted(bp, k), k + 2;
    forall i: nat | i + 1 < |g.ring| ensures g.Apart(i, k, end) {
      if i < k { assert h.Apart(i, 0, 0); } else if i > k + 1 { assert h.Apart(i - 1, 0, 0); }
    }
  }

  ghost predicate SameHeader(h: Heap, g: Heap, u: nat) {
    u in h.mem && u in g.mem && g.mem[u] == h.mem[u]
  }

  ghost predicate SameOwner(h: Heap, g: Heap, u: nat) {
    u in h.owner && u in g.owner && g.owner[u] == h.owner[u]
  }

  lemma InsertShape(h: Heap, bp: nat, k: nat)
    requires k < |h.ring| && h.ring[k] in h.mem && bp in h.mem && h.ring[k] != bp && bp != h.base
    ensures var g := h.Inserted(bp, k);
      && g.owner == h.owner && g.base == h.base && g.start == h.start && g.brk == h.brk
      && g.live == h.live - {bp} && g.Free() == h.Free() + {bp} && g.mem.Keys == h.mem.Keys
      && (forall a :: a in h.mem ==> SameSize(h, g, a))
      && (forall a :: a in h.mem && a != h.ring[k] && a != bp ==> SameHeader(h, g, a))
  {
    ElementsInsert(h.ring, k + 1, bp);
  }

  lemma InsertKeeps(h: Heap, bp: nat, k: nat)
    requires h.WellFormed() && bp in h.live && k < |h.ring|
    requires h.ring[k] < bp && (k + 1 < |h.ring| ==> bp < h.ring[k + 1])
    ensures h.ring[k] in h.mem && bp in h.mem
    ensures h.Inserted(bp, k).WellFormedBut(k, k + 2)
    ensures Undisturbed(h, h.Inserted(bp, k))
  {
    Increasing(h, 0, 0);
    LiveFits(h, bp, k);
    if k + 1 < |h.ring| { LiveFits(h, bp, k + 1); }
    assert bp !in Elements(h.ring);
    InsertLinks(h, bp, k);
    InsertGaps(h, bp, k);
    InsertShape(h, bp, k);
    hide Heap.Inserted, Elements, Heap.Free;
    var g := h.Inserted(bp, k);
    assert g.Bounds();
    assert h.Held(bp);
    Handover(h, g);
    HeadersOnly(h, g, k, bp);
  }

  lemma MergeLinks(h: Heap, lo: nat, hi: nat, j: nat)
    requires h.Links() && h.Gaps(lo, hi) && h.Sorted() && 0 < j && j + 1 < |h.ring|
    requires h.ring[j] in h.mem && h.ring[j + 1] in h.mem
    ensures h.Merged(j).Links()
  {
    var g := h.Merged(j);
    forall i: nat | i < |g.ring| ensures g.Linked(i) {
      assert h.Linked(if i <= j then i else i + 1);
      assert h.Linked(j + 1);
    }
  }

  lemma MergeGaps(h: Heap, lo: nat, j: nat)
    requires h.Gaps(lo, j + 1) && h.Sorted() && lo <= j && j + 1 < |h.ring|
    requires h.ring[j] in h.mem && h.ring[j + 1] in h.mem
    requires h.ring[j] + h.mem[h.ring[j]].size == h.ring[j + 1]
    ensures h.Merged(j).Gaps(lo, j)
  {
    var g, end := h.Merged(j), j + 1;
    forall i: nat | i + 1 < |g.ring| ensures g.Apart(i, lo, j) {
      assert h.Apart(if i < j then i else i + 1, lo, end);
    }
  }

  lemma MergeShape(h: Heap, j: nat)
    requires h.Links() && h.Sorted() && 0 < j && j + 1 < |h.ring|
    requires h.ring[j] in h.mem && h.ring[j + 1] in h.mem
    ensures var g, p, q := h.Merged(j), h.ring[j], h.ring[j + 1];
      && g.owner.Keys == h.owner.Keys && g.base == h.base && g.start == h.start && g.brk == h.brk
      && g.live == h.live && g.Free() == h.Free() - {q} && g.mem.Keys == h.mem.Keys
      && g.mem[p].size == h.mem[p].size + h.mem[q].size
      && p in h.Free() && q in h.Free() && p < q
      && (forall a :: a in h.mem && a != p ==> SameHeader(h, g, a))
      && (forall u :: u in h.owner && h.owner[u] != q ==> SameOwner(h, g, u))
      && (forall u :: u in h.owner && h.owner[u] == q ==> g.Owns(p, u))
  {
    ElementsRemove(h.ring, j + 1);
    OnRing(h, j);
    OnRing(h, j + 1);
  }

  lemma MergeBlocks(h: Heap, g: Heap, p: nat, q: nat)
    requires h.Blocks() && g.Bounds()
    requires g.base == h.base && g.start == h.start && g.brk == h.brk && g.owner.Keys == h.owner.Keys
    requires p in h.Free() && q in h.Free() && p < q && p + h.mem[p].size == q
    requires g.live == h.live && g.Free() == h.Free() - {q}
    requires p in g.mem && g.mem[p].size == h.mem[p].size + h.mem[q].size
    requires forall a :: a in h.mem && a != p ==> SameHeader(h, g, a)
    requires forall u :: u in h.owner && h.owner[u] != q ==> SameOwner(h, g, u)
    requires forall u :: u in h.owner && h.owner[u] == q ==> g.Owns(p, u)
    ensures g.Blocks()
  {
    hide Heap.Free;
    assert h.Held(p) && h.Held(q);
    forall u: nat | p <= u < p + g.mem[p].size ensures g.Owns(p, u) {
      assert if u < q then h.Owns(p, u) else h.Owns(q, u);
    }
    assert g.Frees() && g.Lives() by {
      forall a | a in g.Free() + g.live ensures g.Held(a) {
        if a != p {
          assert h.Held(a) && SameHeader(h, g, a);
          HeldStays(h, g, a);
        }
      }
    }
    assert g.Houses() by {
      forall u | u in g.owner ensures g.Housed(u) {
        assert h.Housed(u);
      }
    }
  }

  lemma MergeKeeps(h: Heap, lo: nat, j: nat)
    requires h.WellFormedBut(lo, j + 1) && lo <= j && 0 < j && j + 1 < |h.ring|
    requires h.ring[j] in h.mem && h.ring[j] + h.mem[h.ring[j]].size == h.ring[j + 1]
    ensures h.ring[j + 1] in h.mem
    ensures h.Merged(j).WellFormedBut(lo, j)
    ensures Undisturbed(h, h.Merged(j))
  {
    Increasing(h, lo, j + 1);
    OnRing(h, j + 1);
    MergeLinks(h, lo, j + 1, j);
    MergeGaps(h, lo, j);
    MergeShape(h, j);
    hide Heap.Merged, Elements, Heap.Free;
    var g := h.Merged(j);
    assert g.Bounds();
    MergeBlocks(h, g, h.ring[j], h.ring[j + 1]);
    assert h.Held(h.ring[j]) && h.Held(h.ring[j + 1]);
    HeadersOnly(h, g, j, h.ring[j + 1]);
  }

  lemma TakeLinks(h: Heap, i: nat)
    requires h.Links() && h.Sorted() && 0 < i < |h.ring|
    requires h.ring[i] in h.mem && h.ring[i - 1] in h.mem
    ensures h.Taken(i).Links()
  {
    var g := h.Taken(i);
    assert h.Linked(i);
    forall x: nat | x < |g.ring| ensures g.Linked(x) {
      if x < i { assert h.Linked(x); } else { assert h.Linked(x + 1); }
    }
  }

  lemma TakeGaps(h: Heap, i: nat)
    requires h.Gaps(0, 0) && 0 < i < |h.ring|
    requires h.ring[i] in h.mem && h.ring[i - 1] in h.mem
    ensures h.Taken(i).Gaps(0, 0)
  {
    var g := h.Taken(i);
    forall x: nat | x + 1 < |g.ring| ensures g.Apart(x, 0, 0) {
      assert h.Apart(if x < i then x else x + 1, 0, 0);
      if x == i - 1 { assert h.Apart(i, 0, 0); }
    }
  }

  lemma TakeShape(h: Heap, i: nat)
    requires h.Links() && h.Sorted() && 0 < i < |h.ring|
    requires h.ring[i] in h.mem && h.ring[i - 1] in h.mem
    ensures var g, p := h.Taken(i), h.ring[i];
      && g.owner == h.owner && g.base == h.base && g.start == h.start && g.brk == h.brk
      && g.live == h.live + {p} && g.Free() == h.Free() - {p} && g.mem.Keys == h.mem.Keys
      && p in h.Free()
      && (forall a :: a in h.mem ==> SameSize(h, g, a))
      && (forall a :: a in h.mem && a != h.ring[i - 1] && a != p ==> SameHeader(h, g, a))
  {
    ElementsRemove(h.ring, i);
    OnRing(h, i);
  }

  /** A block leaves the list whole. */
  lemma TakeKeeps(h: Heap, i: nat)
    requires h.WellFormed() && 0 < i < |h.ring|
    ensures h.ring[i] in h.mem && h.ring[i - 1] in h.mem
    ensures h.Taken(i).WellFormed()
    ensures Undisturbed(h, h.Taken(i))
    ensures h.ring[i] !in h.live
  {
    hide Elements, Heap.Free, Rising, Heap.Closed, Heap.Apart, Heap.Housed, Range;
    Increasing(h, 0, 0);
    OnRing(h, i);
    if i > 1 { OnRing(h, i - 1); }
    TakeLinks(h, i);
    TakeGaps(h, i);
    TakeShape(h, i);
    hide Heap.Taken;
    var g := h.Taken(i);
    assert g.Bounds();
    Handover(h, g);
    HeadersOnly(h, g, i - 1, h.ring[i]);
  }

  lemma SplitLinks(h: Heap, i: nat, n: nat)
    requires h.Links() && h.Sorted() && 0 < i < |h.ring|
    requires h.ring[i] in h.mem && h.mem[h.ring[i]].size > n > 0
    requires h.ring[i] + h.mem[h.ring[i]].size - n in h.mem
    requires h.ring[i] + h.mem[h.ring[i]].size - n !in Elements(h.ring)
    ensures h.Split(i, n).Links()
  {
    var g := h.Split(i, n);
    forall x: nat | x < |g.ring| ensures g.Linked(x) {
      assert h.Linked(x);
    }
  }

  lemma SplitGaps(h: Heap, i: nat, n: nat)
    requires h.Gaps(0, 0) && i < |h.ring|
    requires h.ring[i] in h.mem && h.mem[h.ring[i]].size > n > 0
    requires h.ring[i] + h.mem[h.ring[i]].size - n in h.mem
    requires h.ring[i] + h.mem[h.ring[i]].size - n !in Elements(h.ring)
    ensures h.Split(i, n).Gaps(0, 0)
  {
    var g := h.Split(i, n);
    forall x: nat | x + 1 < |g.ring| ensures g.Apart(x, 0, 0) {
      assert h.Apart(x, 0, 0);
    }
  }

  ghost predicate OwnersCut(h: Heap, g: Heap, t: nat, n: nat) {
    && (forall u :: u in h.owner && !(t <= u < t + n) ==> SameOwner(h, g, u))
    && (forall u :: u in h.owner && t <= u < t + n ==> g.Owns(t, u))
  }

  ghost predicate HeadersBut(h: Heap, g: Heap, p: nat, t: nat) {
    forall a :: a in h.mem && a != p && a != t ==> SameHeader(h, g, a)
  }

  ghost predicate Cut(h: Heap, g: Heap, p: nat, t: nat, n: nat) {
    && g.base == h.base && g.start == h.start && g.brk == h.brk && g.owner.Keys == h.owner.Keys
    && h.Held(p) && n > 0 && p < t && p + h.mem[p].size == t + n
    && p in g.mem && g.mem[p].size == t - p && t in g.mem && g.mem[t].size == n
    && HeadersBut(h, g, p, t) && OwnersCut(h, g, t, n)
  }

  lemma SplitShape(h: Heap, i: nat, n: nat)
    requires i < |h.ring| && h.Held(h.ring[i]) && h.mem[h.ring[i]].size > n > 0
    requires h.ring[i] + h.mem[h.ring[i]].size - n in h.mem
    ensures var g, t := h.Split(i, n), h.ring[i] + h.mem[h.ring[i]].size - n;
      && Cut(h, g, h.ring[i], t, n)
      && g.live == h.live + {t} && g.Free() == h.Free() && g.mem.Keys == h.mem.Keys
  {
    assert h.Owns(h.ring[i], h.ring[i]);
  }

  lemma SplitHeld(h: Heap, g: Heap, p: nat, t: nat, n: nat, a: nat)
    requires Cut(h, g, p, t, n) && h.Held(a) && (a != p ==> SameHeader(h, g, a))
    ensures g.Held(a)
  {
    forall u: nat | a <= u < a + g.mem[a].size ensures g.Owns(a, u) {
      assert h.Owns(a, u);
      assert t <= u < t + n ==> h.Owns(p, u);
    }
  }

  lemma TailHeld(h: Heap, g: Heap, p: nat, t: nat, n: nat)
    requires Cut(h, g, p, t, n)
    ensures g.Held(t)
  {
    forall u: nat | t <= u < t + n ensures g.Owns(t, u) {
      assert h.Owns(p, u);
    }
  }

  lemma SplitBlocks(h: Heap, g: Heap, p: nat, t: nat, n: nat)
    requires h.Blocks() && g.Bounds() && Cut(h, g, p, t, n)
    requires p in h.Free() && t !in h.Free() && t !in h.live && t != h.base
    requires g.live == h.live + {t} && g.Free() == h.Free()
    ensures g.Blocks()
  {
    hide Heap.Free;
    TailHeld(h, g, p, t, n);
    assert g.Frees() by {
      forall a | a in g.Free() ensures g.Held(a) && a !in g.live {
        SplitHeld(h, g, p, t, n, a);
      }
    }
    assert g.Lives() by {
      forall a | a in g.live ensures g.Held(a) {
        if a != t { SplitHeld(h, g, p, t, n, a); }
      }
    }
    assert g.Houses() by {
      forall u | u in g.owner ensures g.Housed(u) {
        assert h.Housed(u);
        assert t <= u < t + n ==> h.Owns(p, u);
        assert !(t <= u < t + n) ==> SameOwner(h, g, u);
      }
    }
  }

  lemma SplitUndisturbed(h: Heap, g: Heap, p: nat, t: nat, n: nat)
    requires h.Blocks() && Cut(h, g, p, t, n) && p in h.Free()
    ensures Undisturbed(h, g)
  {
    hide Heap.Free;
    forall u | u in h.owner && h.owner[u] in h.live && h.owner[u] in g.live ensures SameUnit(h, g, u) {
      assert h.Housed(u);
      assert h.Owns(p, p) && h.Owns(p, t);
      assert t <= u < t + n ==> h.Owns(p, u);
      assert !(t <= u < t + n) ==> SameOwner(h, g, u);
    }
  }

  lemma SplitPoint(h: Heap, i: nat, n: nat)
    requires h.Blocks() && h.Links() && h.Sorted() && 0 < i < |h.ring| && n > 0
    requires h.ring[i] in h.mem && h.mem[h.ring[i]].size > n
    ensures var t := h.ring[i] + h.mem[h.ring[i]].size - n;
      && h.ring[i] in h.Free() && h.Held(h.ring[i])
      && t in h.mem && t !in h.live && t !in h.Free() && t != h.base && t !in Elements(h.ring)
  {
    hide Elements, Rising, Heap.Closed, Heap.Housed, Range;
    OnRing(h, i);
    var p := h.ring[i];
    var t := p + h.mem[p].size - n;
    assert h.Held(p);
    hide Heap.Closed;
    assert h.Owns(p, t);
    assert t in h.Free() || t in h.live ==> h.Held(t) && h.Owns(t, t);
  }

  /** The tail of a block leaves the list. */
  lemma SplitKeeps(h: Heap, i: nat, n: nat)
    requires h.WellFormed() && 0 < i < |h.ring| && n > 0
    requires h.ring[i] in h.mem && h.mem[h.ring[i]].size > n
    ensures h.ring[i] + h.mem[h.ring[i]].size - n in h.mem
    ensures h.Split(i, n).WellFormed()
    ensures Undisturbed(h, h.Split(i, n))
    ensures h.ring[i] + h.mem[h.ring[i]].size - n !in h.live
  {
    hide Elements, Heap.Free, Rising, Heap.Closed, Heap.Apart, Heap.Housed, Range, OwnersCut, HeadersBut, Heap.Held;
    Increasing(h, 0, 0);
    SplitPoint(h, i, n);
    var p := h.ring[i];
    var t := p + h.mem[p].size - n;
    SplitLinks(h, i, n);
    SplitGaps(h, i, n);
    SplitShape(h, i, n);
    hide Heap.Split;
    var g := h.Split(i, n);
    assert g.Bounds();
    SplitBlocks(h, g, p, t, n);
    SplitUndisturbed(h, g, p, t, n);
  }

  lemma ExtendShape(h: Heap, n: nat)
    requires h.Bounds() && n > 0
    ensures var g := h.Extended(n);
      && g.ring == h.ring && g.base == h.base && g.start == h.start && g.brk == h.brk + n
      && g.live == h.live + {h.brk}
      && g.owner.Keys == Range(h.start, g.brk) && g.mem.Keys == g.owner.Keys + {h.base}
      && h.brk in g.mem && g.mem[h.brk].size == n
      && (forall a :: a in h.mem ==> SameHeader(h, g, a))
      && (forall u :: u in h.owner ==> SameOwner(h, g, u))
      && (forall u: nat :: h.brk <= u < g.brk ==> g.Owns(h.brk, u))
      && h.brk !in h.mem
  {
    assert forall u :: u in h.mem <==> u in h.mem.Keys;
    assert forall u :: u in h.owner <==> u in h.owner.Keys;
  }

  lemma ExtendBlocks(h: Heap, g: Heap, n: nat)
    requires h.Blocks() && h.Links() && n > 0 && h.brk + n < LIMIT
    requires g.ring == h.ring && g.base == h.base && g.start == h.start && g.brk == h.brk + n
    requires g.live == h.live + {h.brk}
    requires g.owner.Keys == Range(h.start, g.brk) && g.mem.Keys == g.owner.Keys + {h.base}
    requires h.brk in g.mem && g.mem[h.brk].size == n && h.brk !in h.mem
    requires forall a :: a in h.mem ==> SameHeader(h, g, a)
    requires forall u :: u in h.owner ==> SameOwner(h, g, u)
    requires forall u: nat :: h.brk <= u < g.brk ==> g.Owns(h.brk, u)
    ensures g.Blocks()
  {
    hide Elements, Heap.Housed, Rising;
    assert g.Free() == h.Free();
    assert g.Held(h.brk);
    assert g.Frees() && g.Lives() by {
      hide Heap.Free, Heap.Houses;
      forall a | a in h.Free() + h.live ensures g.Held(a) && a != h.brk {
        ExtendHeld(h, g, a);
      }
    }
    assert g.Houses() by {
      hide Heap.Frees, Heap.Lives, Heap.Held;
      forall u | u in g.owner ensures g.Housed(u) {
        ExtendHouses(h, g, n, u);
      }
    }
  }

  lemma ExtendHeld(h: Heap, g: Heap, a: nat)
    requires h.Held(a) && g.start == h.start && h.brk <= g.brk && h.brk !in h.mem
    requires forall x :: x in h.mem ==> SameHeader(h, g, x)
    requires forall u :: u in h.owner ==> SameOwner(h, g, u)
    ensures g.Held(a) && a != h.brk
  {
    assert SameHeader(h, g, a);
    forall u: nat | a <= u < a + h.mem[a].size ensures g.Owns(a, u) {
      assert h.Owns(a, u) && SameOwner(h, g, u);
    }
  }

  lemma ExtendHouses(h: Heap, g: Heap, n: nat, u: nat)
    requires h.Houses() && h.Bounds() && n > 0 && u in g.owner
    requires g.ring == h.ring && g.base == h.base && g.start == h.start && g.brk == h.brk + n
    requires g.live == h.live + {h.brk} && g.Held(h.brk) && g.mem[h.brk].size == n
    requires g.owner.Keys == Range(h.start, g.brk)
    requires forall a :: a in h.mem ==> SameHeader(h, g, a)
    requires forall u :: u in h.owner ==> SameOwner(h, g, u)
    requires forall u: nat :: h.brk <= u < g.brk ==> g.Owns(h.brk, u)
    ensures g.Housed(u)
  {
    assert u in Range(h.start, g.brk);
    if u < h.brk {
      assert u in Range(h.start, h.brk);
      assert h.Housed(u) && SameOwner(h, g, u) && SameHeader(h, g, h.owner[u]);
    } else {
      assert g.Owns(h.brk, u);
    }
  }

  /** Memory from the kernel joins as a block of the program's. */
  lemma ExtendKeeps(h: Heap, n: nat)
    requires h.WellFormed() && n > 0 && h.brk + n < LIMIT
    ensures h.Extended(n).WellFormed()
    ensures Undisturbed(h, h.Extended(n))
    ensures h.brk !in h.live
  {
    ExtendShape(h, n);
    hide Heap.Extended;
    var g := h.Extended(n);
    ExtendBlocks(h, g, n);
    forall x: nat | x < |g.ring| ensures g.Linked(x) {
      assert h.Linked(x);
    }
    forall x: nat | x + 1 < |g.ring| ensures g.Apart(x, 0, 0) {
      assert h.Apart(x, 0, 0);
    }
    forall u | u in h.owner && h.owner[u] in h.live && h.owner[u] in g.live ensures SameUnit(h, g, u) {
      assert SameOwner(h, g, u) && SameHeader(h, g, u);
    }
  }

  // ---- free ----

  /** Free block k's upper neighbour starts where it ends. */
  ghost predicate Touching(h: Heap, j: nat) {
    0 < j && j + 1 < |h.ring| && h.ring[j] in h.mem && h.ring[j + 1] in h.mem
    && h.ring[j] + h.mem[h.ring[j]].size == h.ring[j + 1]
  }

  ghost function Joined(h: Heap, j: nat): Heap {
    if Touching(h, j) then h.Merged(j) else h
  }

  /** bp goes back after free block k and swallows, and is swallowed by, what it touches. */
  ghost function Freed(h: Heap, bp: nat, k: nat): Heap
    requires k < |h.ring| && h.ring[k] in h.mem && bp in h.mem
  {
    Joined(Joined(h.Inserted(bp, k), k + 1), k)
  }

  lemma Tighten(h: Heap, lo: nat, j: nat)
    requires h.Blocks() && h.Links() && h.Gaps(lo, j + 1) && lo <= j && !Touching(h, j)
    ensures h.Gaps(lo, j)
  {
    hide Heap.Held, Heap.Housed, Rising, Elements;
    var end := j + 1;
    forall i: nat | i + 1 < |h.ring| ensures h.Apart(i, lo, j) {
      assert h.Apart(i, lo, end);
      assert h.Linked(i) && h.Linked(i + 1);
    }
  }

  lemma JoinKeeps(h: Heap, lo: nat, j: nat)
    requires h.WellFormedBut(lo, j + 1) && lo <= j
    ensures Joined(h, j).WellFormedBut(lo, j)
    ensures Joined(h, j).live == h.live && Joined(h, j).brk == h.brk
    ensures Joined(h, j).base == h.base && Joined(h, j).start == h.start
    ensures Undisturbed(h, Joined(h, j))
  {
    if Touching(h, j) {
      MergeKeeps(h, lo, j);
    } else {
      Tighten(h, lo, j);
      Itself(h);
    }
  }

  lemma Itself(h: Heap)
    requires h.Blocks()
    ensures Undisturbed(h, h)
  {
    forall u | u in h.owner && h.owner[u] in h.live ensures SameUnit(h, h, u) {
      assert h.Housed(u);
    }
  }

  lemma UndisturbedTwice(a: Heap, b: Heap, c: Heap)
    requires Undisturbed(a, b) && Undisturbed(b, c) && a.live * c.live <= b.live
    ensures Undisturbed(a, c)
  {
    forall u | u in a.owner && a.owner[u] in a.live && a.owner[u] in c.live ensures SameUnit(a, c, u) {
      assert SameUnit(a, b, u) && SameUnit(b, c, u);
    }
  }

  lemma FreeKeeps(h: Heap, bp: nat, k: nat)
    requires h.WellFormed() && bp in h.live && k < |h.ring|
    requires h.ring[k] < bp && (k + 1 < |h.ring| ==> bp < h.ring[k + 1])
    ensures h.ring[k] in h.mem && bp in h.mem
    ensures Freed(h, bp, k).WellFormed()
    ensures Freed(h, bp, k).live == h.live - {bp} && Freed(h, bp, k).brk == h.brk
    ensures Freed(h, bp, k).base == h.base && Freed(h, bp, k).start == h.start
    ensures Undisturbed(h, Freed(h, bp, k))
  {
    InsertKeeps(h, bp, k);
    var h1 := h.Inserted(bp, k);
    JoinKeeps(h1, k, k + 1);
    var h2 := Joined(h1, k + 1);
    JoinKeeps(h2, k, k);
    var h3 := Joined(h2, k);
    UndisturbedTwice(h, h1, h2);
    UndisturbedTwice(h, h2, h3);
    forall i: nat | i + 1 < |h3.ring| ensures h3.Apart(i, 0, 0) {
      assert h3.Apart(i, k, k);
    }
  }

  /** Joining block j writes the header the program writes when it finds that the two touch. */
  lemma JoinedMemory(h: Heap, lo: nat, j: nat)
    requires h.WellFormedBut(lo, j + 1) && lo <= j < |h.ring| && h.ring[j] in h.mem && |h.ring| > 1
    ensures var p, q := h.ring[j], h.ring[Succ(j, |h.ring|)];
      && q in h.mem
      && (Touching(h, j) <==> p + h.mem[p].size == q)
      && Joined(h, j).mem
         == (if p + h.mem[p].size == q then h.mem[p := Header(h.mem[q].ptr, h.mem[p].size + h.mem[q].size)] else h.mem)
      && j < |Joined(h, j).ring|
      && forall i: nat :: i <= j ==> Joined(h, j).ring[i] == h.ring[i]
  {
    hide Heap.Held, Heap.Housed, Rising, Elements, Heap.Frees, Heap.Lives;
    var p := h.ring[j];
    assert h.Linked(j) && h.Linked(Succ(j, |h.ring|)) && h.Linked(0);
    if j + 1 == |h.ring| && j > 0 {
      Ascending(h, lo, j + 1, 0, j);
    }
    if j + 1 < |h.ring| { assert h.Apart(j, lo, j + 1); }
  }

  /** What the program writes to reach Freed(h, bp, k). */
  lemma FreedMemory(h: Heap, bp: nat, k: nat)
    requires h.WellFormed() && bp in h.live && k < |h.ring|
    requires h.ring[k] < bp && (k + 1 < |h.ring| ==> bp < h.ring[k + 1])
    ensures h.ring[k] in h.mem && bp in h.mem
    ensures var p, q := h.ring[k], h.mem[h.ring[k]].ptr;
      var up := bp + h.mem[bp].size == q;
      && (up ==> q in h.mem)
      && var b := if up then Header(h.mem[q].ptr, h.mem[bp].size + h.mem[q].size) else Header(q, h.mem[bp].size);
      var down := p + h.mem[p].size == bp;
      Freed(h, bp, k).mem ==
        h.mem[bp := b][p := if down then Header(b.ptr, h.mem[p].size + b.size) else h.mem[p].(ptr := bp)]
    ensures h.ring[k] in Freed(h, bp, k).ring
  {
    hide Heap.Blocks, Heap.Links, Heap.Gaps, Heap.Inserted, Freed;
    var m1, m2 := FreedSteps(h, bp, k);
    var p := h.ring[k];
    HeaderSteps(h.mem, p, bp, h.mem[p].ptr, m1, m2, Freed(h, bp, k).mem);
  }

  lemma FreedSteps(h: Heap, bp: nat, k: nat) returns (m1: map<nat, Header>, m2: map<nat, Header>)
    requires h.WellFormed() && bp in h.live && k < |h.ring|
    requires h.ring[k] < bp && (k + 1 < |h.ring| ==> bp < h.ring[k + 1])
    ensures h.ring[k] in h.mem && bp in h.mem && h.ring[k] in Freed(h, bp, k).ring
    ensures var p, q, m3 := h.ring[k], h.mem[h.ring[k]].ptr, Freed(h, bp, k).mem;
      && q in m1 && m1 == h.mem[p := h.mem[p].(ptr := bp)][bp := h.mem[bp].(ptr := q)]
      && m2 == (if bp + m1[bp].size == q then m1[bp := Header(m1[q].ptr, m1[bp].size + m1[q].size)] else m1)
      && m3 == (if p + m2[p].size == bp then m2[p := Header(m2[bp].ptr, m2[p].size + m2[bp].size)] else m2)
      && (bp + h.mem[bp].size == q ==> q > bp)
  {
    hide Heap.Held, Heap.Housed, Rising, Elements, Heap.Frees, Heap.Lives, Heap.Closed, Heap.Gaps, Heap.Houses,
      Touching, Joined, Heap.Linked, Heap.Apart;
    InsertKeeps(h, bp, k);
    var h1 := h.Inserted(bp, k);
    NextFree(h, bp, k);
    JoinedMemory(h1, k, k + 1);
    JoinKeeps(h1, k, k + 1);
    var h2 := Joined(h1, k + 1);
    JoinedMemory(h2, k, k);
    var h3 := Joined(h2, k);
    assert h3.ring[k] == h.ring[k];
    m1, m2 := h1.mem, h2.mem;
    LiveSized(h, bp);
  }

  lemma LiveSized(h: Heap, bp: nat)
    requires h.Blocks() && bp in h.live
    ensures bp in h.mem && h.mem[bp].size > 0
  {
    assert h.Held(bp);
  }

  /** The three writes to headers, one after the other. */
  lemma HeaderSteps(mem: map<nat, Header>, p: nat, bp: nat, q: nat, m1: map<nat, Header>, m2: map<nat, Header>,
                    m3: map<nat, Header>)
    requires p in mem && bp in mem && p < bp && mem[p].ptr == q && q in m1
    requires m1 == mem[p := mem[p].(ptr := bp)][bp := mem[bp].(ptr := q)]
    requires m2 == if bp + m1[bp].size == q then m1[bp := Header(m1[q].ptr, m1[bp].size + m1[q].size)] else m1
    requires m3 == if p + m2[p].size == bp then m2[p := Header(m2[bp].ptr, m2[p].size + m2[bp].size)] else m2
    requires bp + mem[bp].size == q ==> q > bp
    ensures bp + mem[bp].size == q ==> q in mem
    ensures var up := bp + mem[bp].size == q;
      var b := if up then Header(mem[q].ptr, mem[bp].size + mem[q].size) else Header(q, mem[bp].size);
      m3 == mem[bp := b][p := if p + mem[p].size == bp then Header(b.ptr, mem[p].size + b.size) else mem[p].(ptr := bp)]
  {
  }

  lemma NextFree(h: Heap, bp: nat, k: nat)
    requires h.Links() && k < |h.ring| && h.ring[k] in h.mem && bp in h.mem
    ensures var h1 := h.Inserted(bp, k);
      h1.ring[k] == h.ring[k] && h1.ring[k + 1] == bp && h1.ring[Succ(k + 1, |h1.ring|)] == h.mem[h.ring[k]].ptr
  {
    assert h.Linked(k);
  }

  lemma PlaceOf(h: Heap, bp: nat) returns (k: nat)
    requires h.WellFormed() && bp in h.live
    ensures k < |h.ring| && 0 < h.ring[k] < bp && forall x: nat :: k < x < |h.ring| ==> bp <= h.ring[x]
    ensures bp in h.mem
  {
    Increasing(h, 0, 0);
    assert h.Held(bp);
    k := Place(h.ring, bp);
  }

  /** The search of free stops exactly at the block's place. */
  lemma Search(h: Heap, bp: nat, k: nat, i: nat)
    requires h.WellFormed() && bp in h.live && k < |h.ring| && i < |h.ring|
    requires h.ring[k] < bp && forall x: nat :: k < x < |h.ring| ==> bp <= h.ring[x]
    ensures h.ring[i] in h.mem && h.mem[h.ring[i]].ptr == h.ring[Succ(i, |h.ring|)]
      && h.ring[Succ(i, |h.ring|)] in h.mem
    ensures var p, q := h.ring[i], h.mem[h.ring[i]].ptr;
      (p < bp < q) || (p >= q && (bp > p || bp < q)) <==> i == k
    ensures k + 1 < |h.ring| ==> bp < h.ring[k + 1]
  {
    hide Heap.Frees, Heap.Houses, Elements;
    assert h.Linked(i) && h.Linked(Succ(i, |h.ring|)) && h.Held(bp);
    Increasing(h, 0, 0);
    LiveFits(h, bp, i);
    if k + 1 < |h.ring| { LiveFits(h, bp, k + 1); }
    if i + 1 < |h.ring| { LiveFits(h, bp, i + 1); }
  }

  lemma Predecessor(h: Heap, bp: nat, k: nat)
    requires h.WellFormed() && k < |h.ring| && h.ring[k] < bp && (k + 1 < |h.ring| ==> bp < h.ring[k + 1])
    ensures forall a :: a in h.ring ==> a <= h.ring[k] || a > bp
  {
    Increasing(h, 0, 0);
    forall a | a in h.ring ensures a <= h.ring[k] || a > bp {
      var i :| 0 <= i < |h.ring| && h.ring[i] == a;
      assert i < k ==> h.ring[i] < h.ring[k];
      assert k + 1 < i ==> h.ring[k + 1] < h.ring[i];
    }
  }

  /** The freed block, with what it joined, is on the list. */
  lemma FreedIsFree(h: Heap, bp: nat, k: nat)
    requires h.WellFormed() && bp in h.live && k < |h.ring|
    requires h.ring[k] < bp && (k + 1 < |h.ring| ==> bp < h.ring[k + 1])
    ensures h.ring[k] in h.mem && bp in h.mem
    ensures var g := Freed(h, bp, k);
      && k < |g.ring|
      && var x := if g.ring[k] in g.mem && g.mem[g.ring[k]].size >= h.mem[bp].size then k else k + 1;
      x < |g.ring| && g.ring[x] in g.mem && g.mem[g.ring[x]].size >= h.mem[bp].size
  {
    hide Heap.Gaps, Rising, Elements, Heap.Housed, Heap.Apart;
    InsertKeeps(h, bp, k);
    NextFree(h, bp, k);
    var h1 := h.Inserted(bp, k);
    assert h1.Linked(k + 1);
    var h2 := Joined(h1, k + 1);
    assert h2.ring[k + 1] == bp && h2.mem[bp].size >= h.mem[bp].size;
  }

  // ---- what the shape of the heap says ----

  /** A block granted while no live block was disturbed overlaps none of them. */
  lemma GrantedIsApart(h: Heap, g: Heap, b: nat, u: nat)
    requires Undisturbed(h, g) && h.live <= g.live && g.Held(b) && b !in h.live
    requires b <= u < b + g.mem[b].size
    ensures u in h.owner ==> h.owner[u] !in h.live
  {
    assert g.Owns(b, u);
    assert u in h.owner && h.owner[u] in h.live ==> SameUnit(h, g, u);
  }

  /** Every unit obtained from the kernel lies in exactly one block, free or live. */
  lemma EveryUnitOnce(h: Heap, u: nat, a: nat)
    requires h.WellFormed() && h.start <= u < h.brk && a in h.Free() + h.live
    ensures u in h.owner && h.owner[u] in h.Free() + h.live
    ensures a in h.mem && (a <= u < a + h.mem[a].size <==> h.owner[u] == a)
  {
    hide Heap.Free;
    assert u in Range(h.start, h.brk);
    assert h.Housed(u) && h.Held(a);
    assert a <= u < a + h.mem[a].size ==> h.Owns(a, u);
  }

  /** Where one block ends the next one starts. */
  lemma NextBlock(h: Heap, a: nat)
    requires h.WellFormed() && a in h.Free() + h.live
    ensures a in h.mem && a + h.mem[a].size <= h.brk
    ensures a + h.mem[a].size < h.brk ==> a + h.mem[a].size in h.Free() + h.live
  {
    hide Heap.Blocks, Heap.Gaps, Heap.Links, Heap.Free;
    BlockHeld(h, a);
    var u := a + h.mem[a].size;
    if u < h.brk {
      EveryUnitOnce(h, u, a);
      var b := h.owner[u];
      EveryUnitOnce(h, u, b);
      BlockHeld(h, b);
      assert h.Owns(a, u - 1) && (b <= u - 1 ==> h.Owns(b, u - 1));
    }
  }

  lemma BlockHeld(h: Heap, a: nat)
    requires h.WellFormed() && a in h.Free() + h.live
    ensures h.Held(a)
  {
  }

  /** Between a free block and the next free block there is a block in use. */
  lemma FreeBlocksAreSeparated(h: Heap, i: nat)
    requires h.WellFormed() && 0 < i && i + 1 < |h.ring|
    ensures h.ring[i] in h.mem
    ensures h.ring[i] + h.mem[h.ring[i]].size in h.live
  {
    hide Elements, Heap.Frees, Heap.Lives, Heap.Houses, Heap.Closed, Heap.Held, Range;
    Increasing(h, 0, 0);
    OnRing(h, i);
    OnRing(h, i + 1);
    assert h.Apart(i, 0, 0);
    NextBlock(h, h.ring[i]);
    NextBlock(h, h.ring[i + 1]);
    var b := h.ring[i] + h.mem[h.ring[i]].size;
    Sized(h, h.ring[i]);
    if b in h.Free() {
      NoFreeBetween(h, i, b);
    }
  }

  lemma Sized(h: Heap, a: nat)
    requires h.Blocks() && a in h.Free()
    ensures a in h.mem && h.mem[a].size > 0
  {
    assert h.Held(a);
  }

  lemma NoFreeBetween(h: Heap, i: nat, b: nat)
    requires h.Sorted() && i + 1 < |h.ring| && b in h.Free()
    ensures !(h.ring[i] < b < h.ring[i + 1])
  {
    var x :| 0 <= x < |h.ring| && h.ring[x] == b;
    assert x <= i ==> h.ring[x] <= h.ring[i];
  }

  /** When the program has given everything back, one block holds all the memory it ever got. */
  lemma AllGivenBack(h: Heap)
    requires h.WellFormed() && h.live == {} && h.start < h.brk
    ensures h.ring == [h.base, h.start]
    ensures h.start in h.mem && h.mem[h.start].size == h.brk - h.start
  {
    hide Elements;
    Increasing(h, 0, 0);
    assert h.start in Range(h.start, h.brk) && h.brk - 1 in Range(h.start, h.brk);
    assert h.Housed(h.start) && h.Housed(h.brk - 1);
    var a := h.owner[h.start];
    assert h.Held(a) && a == h.start;
    var z := h.owner[h.brk - 1];
    assert h.Held(z);
    Member(h, a);
    if |h.ring| > 2 {
      FreeBlocksAreSeparated(h, 1);
    }
    assert h.ring[1] == a;
    Member(h, z);
  }

  lemma Member(h: Heap, a: nat)
    requires h.Links() && a in h.Free()
    ensures |h.ring| >= 2
    ensures |h.ring| == 2 ==> h.ring == [h.base, a]
  {
    var x :| 0 <= x < |h.ring| && h.ring[x] == a;
    assert x > 0;
  }

  lemma DataLinks(h: Heap, u: nat, x: Header)
    requires h.Links() && h.Gaps(0, 0) && u !in h.Free() && u != h.base
    ensures h.(mem := h.mem[u := x]).Links() && h.(mem := h.mem[u := x]).Gaps(0, 0)
  {
    var g := h.(mem := h.mem[u := x]);
    Increasing(h, 0, 0);
    hide Elements, Rising;
    forall i: nat | i < |h.ring| ensures g.Linked(i) && h.ring[i] != u {
      assert h.Linked(i);
      if i > 0 { OnRing(h, i); }
    }
    forall i: nat | i + 1 < |h.ring| ensures g.Apart(i, 0, 0) {
      assert h.Apart(i, 0, 0) && g.Linked(i);
    }
  }

  /** Whatever a program writes inside its own blocks, past their headers, the heap stays well formed. */
  lemma DataIsTheirs(h: Heap, u: nat, x: Header)
    requires h.WellFormed() && u in h.owner && h.owner[u] in h.live && h.owner[u] != u
    ensures h.(mem := h.mem[u := x]).WellFormed()
  {
    hide Heap.Lives, Heap.Houses, Heap.Closed, Heap.Gaps, Elements, Heap.Held;
    NotAHeader(h, u);
    assert h.Free() !! h.live;
    assert u in h.owner.Keys && h.base !in Range(h.start, h.brk);
    DataLinks(h, u, x);
    Handover(h, h.(mem := h.mem[u := x]));
  }

  lemma NotAHeader(h: Heap, u: nat)
    requires h.Blocks() && u in h.owner && h.owner[u] in h.live && h.owner[u] != u
    ensures u !in h.Free() && u !in h.live
  {
    assert u in h.Free() + h.live ==> h.Held(u) && h.Owns(u, u);
  }

  lemma Unchanged(h: Heap)
    requires h.WellFormed()
    ensures Undisturbed(h, h)
  {
    Itself(h);
  }

  lemma Grown(h: Heap, n: nat)
    requires h.WellFormed() && n > 0
    ensures var g := h.Extended(n);
      && (forall u :: u in h.mem ==> u < h.brk)
      && g.live == h.live + {h.brk} && g.ring == h.ring && g.base == h.base && g.start == h.start
      && g.brk == h.brk + n && h.brk in g.mem && g.mem[h.brk] == Header(0, n)
      && g.mem == (map u: nat | u < h.brk + n && (u in h.mem || h.brk <= u) ::
                       if u < h.brk then h.mem[u] else Header(0, 0))[h.brk := Header(0, n)]
  {
    assert forall u :: u in h.mem ==> u in h.owner.Keys + {h.base};
  }

  /** Free block i of the ring is large enough for n units. */
  ghost predicate Servable(h: Heap, i: nat, n: nat) {
    && 0 < i < |h.ring| && h.ring[i] in h.mem && h.ring[i - 1] in h.mem && h.mem[h.ring[i]].size >= n
    && h.ring[i] + h.mem[h.ring[i]].size - n in h.mem
  }

  /** The heap after block i of the ring serves a request of n units, and the block granted: the
    * whole block if it is just large enough, and its tail otherwise. */
  ghost function Served(h: Heap, i: nat, n: nat): (Heap, nat)
    requires Servable(h, i, n)
  {
    if h.mem[h.ring[i]].size == n then (h.Taken(i), h.ring[i])
    else (h.Split(i, n), h.ring[i] + h.mem[h.ring[i]].size - n)
  }

  lemma ServedKeeps(h: Heap, i: nat, n: nat)
    requires h.WellFormed() && i < |h.ring| && n > 0 && h.ring[i] in h.mem && h.mem[h.ring[i]].size >= n
    ensures i > 0 && Servable(h, i, n)
    ensures var (g, b) := Served(h, i, n);
      && g.WellFormed() && Undisturbed(h, g)
      && b !in h.live && b > 0 && g.live == h.live + {b} && b in g.mem && g.mem[b].size == n
      && g.base == h.base && g.start == h.start && g.brk == h.brk
      && h.ring[i - 1] in g.ring
  {
    hide Heap.Frees, Heap.Lives, Heap.Houses, Heap.Gaps, Heap.Held, Rising, Elements;
    assert h.Linked(i) && h.Linked(i - 1);
    var p := h.ring[i];
    if h.mem[p].size == n {
      TakeKeeps(h, i);
      assert h.Taken(i).ring[i - 1] == h.ring[i - 1];
    } else {
      SplitKeeps(h, i, n);
    }
    Positive(h, i);
  }

  lemma Positive(h: Heap, i: nat)
    requires h.WellFormed() && i < |h.ring|
    ensures h.ring[i] > 0 && h.ring[i] in h.mem && Succ(i, |h.ring|) < |h.ring|
    ensures h.mem[h.ring[i]].ptr == h.ring[Succ(i, |h.ring|)]
    ensures h.ring[Succ(i, |h.ring|)] in h.mem
    ensures i > 0 ==> h.ring[i] in h.Free()
    ensures h.mem[h.ring[i]].size > 0 ==> i > 0
  {
    assert h.Linked(i) && h.Linked(Succ(i, |h.ring|));
    Increasing(h, 0, 0);
    if i > 0 { OnRing(h, i); }
  }

  ghost predicate TooSmall(h: Heap, x: nat, n: nat) {
    x < |h.ring| && h.ring[x] in h.mem && h.mem[h.ring[x]].size < n
  }

  /** Every free block beyond position i, up to f, is too small. */
  ghost predicate Scanned(h: Heap, i: nat, f: nat, n: nat)
    requires i < |h.ring| && f < |h.ring|
  {
    forall x: nat :: x < |h.ring| && Distance(x, f, |h.ring|) > Distance(i, f, |h.ring|) ==> TooSmall(h, x, n)
  }

  /** No free block holds n units. */
  ghost predicate NoneFits(h: Heap, n: nat) {
    forall a :: a in h.Free() ==> a in h.mem && h.mem[a].size < n
  }

  lemma ScanStarts(h: Heap, f: nat, n: nat)
    requires f < |h.ring|
    ensures Scanned(h, Succ(f, |h.ring|), f, n)
  {
  }

  lemma ScanStep(h: Heap, i: nat, f: nat, n: nat)
    requires i < |h.ring| && f < |h.ring| && i != f && Scanned(h, i, f, n) && TooSmall(h, i, n)
    ensures Scanned(h, Succ(i, |h.ring|), f, n)
    ensures Distance(Succ(i, |h.ring|), f, |h.ring|) < Distance(i, f, |h.ring|)
  {
    forall x: nat | x < |h.ring| && Distance(x, f, |h.ring|) > Distance(Succ(i, |h.ring|), f, |h.ring|)
      ensures TooSmall(h, x, n)
    {
      if x != i { assert Distance(x, f, |h.ring|) > Distance(i, f, |h.ring|); }
    }
  }

  lemma ScanEnds(h: Heap, f: nat, n: nat)
    requires f < |h.ring| && Scanned(h, f, f, n) && TooSmall(h, f, n)
    ensures NoneFits(h, n)
  {
    forall a | a in h.Free() ensures a in h.mem && h.mem[a].size < n {
      var x :| 0 <= x < |h.ring| && h.ring[x] == a;
      if x != f { assert Distance(x, f, |h.ring|) > Distance(f, f, |h.ring|); }
      assert TooSmall(h, x, n);
    }
  }

  lemma OnlyOnce(h: Heap, i: nat, f: nat)
    requires h.WellFormed() && i < |h.ring| && f < |h.ring| && h.ring[i] == h.ring[f]
    ensures i == f
  {
    Increasing(h, 0, 0);
    assert h.Sorted();
    assert !(i < f) && !(f < i);
  }

  ghost function Index(ring: seq<nat>, a: nat): (i: nat)
    requires a in ring
    ensures i < |ring| && ring[i] == a
  {
    if ring[0] == a then 0 else 1 + Index(ring[1..], a)
  }

  lemma NoneBefore(h0: Heap, h: Heap, n: nat)
    requires NoneFits(h, n) && (h == h0 || h0.ring == [])
    ensures NoneFits(h0, n)
  {
  }

  lemma OneFits(h: Heap, x: nat, n: nat)
    requires h.WellFormed() && x < |h.ring| && h.ring[x] in h.mem && h.mem[h.ring[x]].size >= n > 0
    ensures !NoneFits(h, n)
  {
    assert h.Linked(0);
    Positive(h, x);
  }

  // ---- the allocator ----

  /** The free list of one process.  kernel says whether the kernel has memory to give. */
  class Allocator {
    const base: nat
    const start: nat
    var mem: map<nat, Header>
    var freep: nat
    var brk: nat
    ghost var ring: seq<nat>
    ghost var live: set<nat>
    ghost var owner: map<nat, nat>

    ghost function View(): Heap
      reads this
    {
      Heap(mem, ring, live, owner, base, start, brk)
    }

    /** Before the first request the anchor is not linked yet. */
    ghost predicate Unused()
      reads this
    {
      && freep == 0
      && ring == [] && live == {} && owner == map[]
      && mem.Keys == {base}
      && 0 < base < start == brk < LIMIT
    }

    ghost predicate Linked()
      reads this
    {
      freep != 0 && View().WellFormed() && freep in ring
    }

    ghost predicate Valid()
      reads this
    {
      Unused() || Linked()
    }

    constructor (base: nat, start: nat)
      requires 0 < base < start < LIMIT
      ensures Valid() && live == {} && brk == start
      ensures this.base == base && this.start == start
    {
      this.base, this.start, brk, freep := base, start, start, 0;
      mem := map[base := Header(0, 0)];
      ring, live, owner := [], {}, map[];
    }

    /** The free block after which bp belongs; k is its position. */
    method Find(bp: nat) returns (p: nat, ghost k: nat)
      requires Linked() && bp in live
      ensures k < |ring| && ring[k] == p && 0 < ring[k] < bp
      ensures k + 1 < |ring| ==> bp < ring[k + 1]
    {
      hide Heap.Blocks, Heap.Gaps, Heap.Links;
      ghost var h := View();
      k := PlaceOf(h, bp);
      p := freep;
      ghost var i: nat :| i < |ring| && ring[i] == p;
      Search(h, bp, k, i);
      while !(bp > p && bp < mem[p].ptr)
        invariant i < |ring| && ring[i] == p && p in mem && mem[p].ptr in mem
        invariant mem[p].ptr == ring[Succ(i, |ring|)]
        invariant (p < bp < mem[p].ptr) || (p >= mem[p].ptr && (bp > p || bp < mem[p].ptr)) <==> i == k
        decreases if i <= k then k - i else |ring| - i + k
      {
        if p >= mem[p].ptr && (bp > p || bp < mem[p].ptr) {
          break;
        }
        p := mem[p].ptr;
        i := Succ(i, |ring|);
        Search(h, bp, k, i);
      }
    }

    /** The program gives back the block whose data starts at ap.  Its units become free, joined
      * with whatever free memory it touches; no other live unit changes. */
    method Free(ap: nat) returns (ghost g: nat)
      requires Valid() && ap > 0 && ap - 1 in live
      modifies this
      ensures Linked() && live == old(live) - {ap - 1} && brk == old(brk)
      ensures Undisturbed(old(View()), View())
      ensures ap - 1 in old(mem)
      ensures g < |ring| && ring[g] in mem && mem[ring[g]].size >= old(mem[ap - 1].size)
      ensures freep < ap - 1 && freep in old(ring) && forall a :: a in old(ring) ==> a <= freep || a > ap - 1
    {
      hide Heap.Blocks, Heap.Gaps, Heap.Links, Undisturbed, Freed;
      var bp := ap - 1;
      ghost var h := View();
      ghost var k;
      var p;
      p, k := Find(bp);
      FreeKeeps(h, bp, k);
      FreedMemory(h, bp, k);
      FreedIsFree(h, bp, k);
      Predecessor(h, bp, k);
      ghost var f := Freed(h, bp, k);
      if bp + mem[bp].size == mem[p].ptr {
        var q := mem[p].ptr;
        mem := mem[bp := Header(mem[q].ptr, mem[bp].size + mem[q].size)];
      } else {
        mem := mem[bp := mem[bp].(ptr := mem[p].ptr)];
      }
      if p + mem[p].size == bp {
        mem := mem[p := Header(mem[bp].ptr, mem[p].size + mem[bp].size)];
      } else {
        mem := mem[p := mem[p].(ptr := bp)];
      }
      freep := p;
      ring, live, owner := f.ring, f.live, f.owner;
      assert View() == f;
      g := if ring[k] in mem && mem[ring[k]].size >= h.mem[bp].size then k else k + 1;
    }

    /** Asks the kernel for at least MINIMUM units and frees them.  Returns 0 when the kernel has
      * nothing to give or the process would grow into the kernel's half. */
    method Morecore(nu: nat, kernel: bool) returns (p: nat, ghost g: nat)
      requires Linked() && nu < LIMIT
      modifies this
      ensures Linked() && live == old(live)
      ensures Undisturbed(old(View()), View())
      ensures var n := if nu < MINIMUM then MINIMUM else nu;
        if kernel && old(brk) + n < LIMIT
        then p == freep && brk == old(brk) + n && g < |ring| && ring[g] in mem && mem[ring[g]].size >= nu
        else p == 0 && View() == old(View()) && freep == old(freep)
    {
      hide Heap.Blocks, Heap.Gaps, Heap.Links, Undisturbed, Heap.Extended;
      var n := if nu < MINIMUM then MINIMUM else nu;
      ghost var h := View();
      if !kernel || brk + n >= LIMIT {
        Unchanged(h);
        g := 0;
        return 0, 0;
      }
      ExtendKeeps(h, n);
      Grown(h, n);
      ghost var f := h.Extended(n);
      var hp := brk;
      Sbrk(n);
      mem := mem[hp := mem[hp].(size := n)];
      owner, live := f.owner, f.live;
      assert mem == f.mem;
      assert View() == f;
      g := Free(hp + 1);
      UndisturbedTwice(h, f, View());
      p := freep;
    }

    /** n zeroed units past the end of the heap. */
    method Sbrk(n: nat)
      requires forall u :: u in mem ==> u < brk
      modifies this`mem, this`brk
      ensures brk == old(brk) + n
      ensures mem == map u: nat | u < brk && (u in old(mem) || old(brk) <= u) ::
                       if u < old(brk) then old(mem)[u] else Header(0, 0)
    {
      mem := map u: nat | u < brk + n && (u in mem || brk <= u) :: if u < brk then mem[u] else Header(0, 0);
      brk := brk + n;
    }

    /** Links the anchor to itself before the first request. */
    method Prepare()
      requires Valid()
      modifies this
      ensures Linked() && live == old(live) && brk == old(brk)
      ensures Undisturbed(old(View()), View())
      ensures old(Linked()) ==> View() == old(View()) && freep == old(freep)
      ensures !old(Linked()) ==> View().ring == [base]
    {
      if freep == 0 {
        mem := mem[base := Header(base, 0)];
        freep := base;
        ring := [base];
        ghost var h := View();
        assert h.Linked(0);
        assert Range(start, brk) == {};
      } else {
        Unchanged(View());
      }
    }

    /** Takes n units from the free block p, whose predecessor on the ring is prevp. */
    method Serve(prevp: nat, p: nat, n: nat, ghost i: nat) returns (b: nat)
      requires Linked() && 0 < n && 0 < i < |ring| && ring[i] == p && ring[i - 1] == prevp
      requires p in mem && prevp in mem && mem[p].size >= n
      modifies this
      ensures Linked() && Undisturbed(old(View()), View())
      ensures b !in old(live) && live == old(live) + {b} && b in mem && mem[b].size == n && brk == old(brk)
      ensures old(Servable(View(), i, n)) && (View(), b) == old(Served(View(), i, n)) && freep == prevp
    {
      hide Heap.Blocks, Heap.Gaps, Heap.Links, Undisturbed;
      ghost var h := View();
      ServedKeeps(h, i, n);
      Positive(h, i - 1);
      ghost var f := Served(h, i, n).0;
      if mem[p].size == n {
        mem := mem[prevp := mem[prevp].(ptr := mem[p].ptr)];
        b := p;
      } else {
        mem := mem[p := mem[p].(size := mem[p].size - n)];
        b := p + mem[p].size;
        mem := mem[b := mem[b].(size := n)];
      }
      freep := prevp;
      ring, live, owner := f.ring, f.live, f.owner;
      assert View() == f;
    }

    /** What malloc does, from state b on.  h is the heap that was searched, from its free block f on, and
      * i the position of the block that was found. */
    ghost predicate Answered(b: Before, nbytes: nat, kernel: bool, r: Outcome, h: Heap, f: nat, i: nat)
      reads this
    {
      var n := Units(nbytes);
      var more := if n < MINIMUM then MINIMUM else n;
      && Linked() && Undisturbed(b.view, View())
      && match r
         case Granted(ap) =>
           && ap > 0 && ap - 1 !in b.view.live && live == b.view.live + {ap - 1}
           && ap - 1 in mem && mem[ap - 1].size == n
           && (brk == b.view.brk || (kernel && brk == b.view.brk + more && NoneFits(b.view, n)))
           && f < |h.ring| && Servable(h, i, n) && Scanned(h, i, f, n)
           && (View(), ap - 1) == Served(h, i, n) && freep == h.ring[i - 1]
           && (brk == b.view.brk && b.linked ==> h == b.view && h.ring[f] == b.freep)
         case Null =>
           live == b.view.live && brk == b.view.brk && NoneFits(View(), n) && (!kernel || b.view.brk + more >= LIMIT)
         case Wrapped(count, fate) =>
           && live == b.view.live && brk == b.view.brk && NoneFits(View(), n) && n >= LIMIT
           && count == SbrkArg(n) && -0x8000_0000 <= count <= 0 && fate == WrappedFate(8 * b.view.brk, count)
    }

    /** malloc's loop is at the free block p, after prevp; `grown` once the kernel was asked, which made
      * block `big` large enough. */
    ghost predicate Seeking(b: Before, n: nat, kernel: bool, h: Heap, f: nat, i: nat, j: nat, prevp: nat, p: nat,
                            grown: bool, big: nat)
      reads this
    {
      && Linked() && View() == h && live == b.view.live && Undisturbed(b.view, h)
      && f < |ring| && ring[f] == freep && j < |ring| && ring[j] == prevp
      && i == Succ(j, |ring|) && i < |ring| && ring[i] == p && p in mem
      && Scanned(h, i, f, n)
      && (!grown ==> brk == b.view.brk && if b.linked then h == b.view && freep == b.freep else b.view.ring == [])
      && (grown ==> kernel && brk == b.view.brk + (if n < MINIMUM then MINIMUM else n) && NoneFits(b.view, n))
      && (grown ==> big < |ring| && ring[big] in mem && mem[ring[big]].size >= n)
    }

    method StartSeeking(n: nat, ghost b: Before, ghost kernel: bool)
      returns (ghost h: Heap, ghost f: nat, ghost i: nat, prevp: nat, p: nat)
      requires Valid() && n > 0 && b == Before(View(), Linked(), freep) && (!Linked() ==> ring == [])
      modifies this
      ensures Seeking(b, n, kernel, h, f, i, f, prevp, p, false, 0)
    {
      hide Heap.WellFormed, Undisturbed, Scanned;
      Prepare();
      h := View();
      f := Index(ring, freep);
      Positive(h, f);
      ScanStarts(h, f, n);
      i := Succ(f, |ring|);
      prevp := freep;
      p := mem[prevp].ptr;
    }

    /** The block fits. */
    method Grant(nbytes: nat, prevp: nat, p: nat, ghost b: Before, ghost kernel: bool, ghost h: Heap, ghost f: nat,
                 ghost i: nat, ghost j: nat, ghost grown: bool, ghost big: nat)
      returns (r: Outcome)
      requires Seeking(b, Units(nbytes), kernel, h, f, i, j, prevp, p, grown, big)
      requires mem[p].size >= Units(nbytes)
      modifies this
      ensures r.Granted? && Answered(b, nbytes, kernel, r, h, f, i)
    {
      hide Heap.WellFormed, Undisturbed, Scanned, NoneFits, Served, Servable;
      Positive(h, i);
      Positive(h, j);
      var block := Serve(prevp, p, Units(nbytes), i);
      UndisturbedTwice(b.view, h, View());
      r := Granted(block + 1);
    }

    /** None fits: the kernel is asked for more. */
    method Refill(nbytes: nat, prevp: nat, p: nat, kernel: bool, ghost b: Before, ghost h: Heap, ghost f: nat,
                  ghost i: nat, ghost j: nat, ghost grown: bool, ghost big: nat)
      returns (r: Outcome, p': nat, ghost h': Heap, ghost f': nat, ghost i': nat, ghost big': nat)
      requires Seeking(b, Units(nbytes), kernel, h, f, i, j, prevp, p, grown, big)
      requires mem[p].size < Units(nbytes) && p == freep && nbytes < WRAP
      modifies this
      ensures !grown && (!r.Granted? ==> Answered(b, nbytes, kernel, r, h', f', i'))
      ensures r.Granted? ==> Seeking(b, Units(nbytes), kernel, h', f', i', f', freep, p', true, big')
    {
      hide Heap.WellFormed, Undisturbed, NoneFits, Units, SbrkArg, Distance;
      var n := Units(nbytes);
      h', f', i', big', p' := h, f, i, big, p;
      Positive(h, i);
      OnlyOnce(h, i, f);
      ScanEnds(h, f, n);
      if grown { OneFits(h, big, n); }
      NoneBefore(b.view, h, n);
      if n >= LIMIT {
        ArgIsWrapped(nbytes);
        return Wrapped(SbrkArg(n), WrappedFate(8 * brk, SbrkArg(n))), p', h', f', i', big';
      }
      p', big' := Morecore(n, kernel);
      if p' == 0 {
        return Null, p', h', f', i', big';
      }
      UndisturbedTwice(b.view, h, View());
      h' := View();
      f' := Index(ring, freep);
      ScanStarts(h', f', n);
      Positive(h', f');
      i' := Succ(f', |ring|);
      p' := mem[freep].ptr;
      r := Granted(0);
    }

    /** First fit from where the last search ended, asking the kernel at most once and only when no
      * free block fits.  Wrapped means that it is asked for count bytes, none or some back; `fate` is what
      * that leads to (Sbrk.WrappedCall). */
    method Malloc(nbytes: nat, kernel: bool) returns (r: Outcome, ghost h: Heap, ghost f: nat, ghost i: nat)
      requires Valid() && nbytes < WRAP
      modifies this
      ensures Answered(old(Before(View(), Linked(), freep)), nbytes, kernel, r, h, f, i)
    {
      hide Allocator.Answered, Heap.WellFormed, Undisturbed, NoneFits, Units, Scanned, Distance;
      var nunits := Units(nbytes);
      ghost var b := Before(View(), Linked(), freep);
      var prevp, p;
      h, f, i, prevp, p := StartSeeking(nunits, b, kernel);
      ghost var grown, big: nat, j: nat := false, 0, f;
      while true
        invariant Seeking(b, nunits, kernel, h, f, i, j, prevp, p, grown, big)
        decreases !grown, Distance(i, f, |ring|)
      {
        if mem[p].size >= nunits {
          r := Grant(nbytes, prevp, p, b, kernel, h, f, i, j, grown, big);
          return;
        }
        if p == freep {
          var more;
          r, more, h, f, i, big := Refill(nbytes, prevp, p, kernel, b, h, f, i, j, grown, big);
          if !r.Granted? {
            return;
          }
          prevp, p, j, grown := freep, more, f, true;
        } else {
          Positive(h, i);
          ScanStep(h, i, f, nunits);
          prevp := p;
          p := mem[p].ptr;
          j := i;
          i := Succ(i, |ring|);
        }
      }
    }
  }

  /** The allocator before a call. */
  datatype Before = Before(view: Heap, linked: bool, freep: nat)
}
