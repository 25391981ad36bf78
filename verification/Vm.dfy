/** The kernel's virtual memory: walking, mapping, growing, shrinking, copying and freeing user
  * address spaces. */
module Vm {
  import opened VmSpace

  ghost predicate Distinct(s: seq<nat>) {
    forall i: nat, j: nat :: i < j < |s| ==> s[i] != s[j]
  }

  ghost predicate Listed(r: Ram, s: seq<nat>) {
    && r.mem.Keys == r.role.Keys && 0 !in r.role
    && Distinct(s)
    && (forall k :: 0 <= k < |s| ==> s[k] in r.role && r.role[s[k]] == Free)
    && (forall f :: f in r.role && r.role[f] == Free ==> f in s)
  }

  ghost predicate ListedAt(r: Ram, s: seq<nat>) {
    Listed(r, s)
  }

  /** A held frame is now page v of d; nothing else is mapped differently. */
  ghost predicate UserPage(r: Ram, s: Ram, d: nat, v: nat, w: Word) {
    && s.dirs == r.dirs && s.role.Keys == r.role.Keys && s.Lookup(d, v) == w && AllBut(r, s, d, v)
    && s.HasRole(w.frame, User(d, v)) && w.frame in r.mem && w.frame in s.mem && s.mem[w.frame] == r.mem[w.frame]
    && forall f :: f in r.role && f != w.frame ==> KeptOrTable(r, s, d, f)
  }

  ghost predicate MappedPage(r: Ram, s: Ram, d: nat, a: nat, n: nat, pf: nat, flags: Flags, e: nat, x: nat) {
    s.Lookup(e, x) == if e == d && a <= x < a + n then Word(pf + (x - a), flags) else r.Lookup(e, x)
  }

  /** n pages of d from a on are mapped to the frames from pf on, which now are those pages where they
    * are user pages; nothing else is mapped differently and no other frame changed, except that free
    * ones may have become tables of d. */
  ghost predicate PagesMapped(r: Ram, s: Ram, d: nat, a: nat, n: nat, pf: nat, flags: Flags) {
    && s.dirs == r.dirs && s.role.Keys == r.role.Keys
    && (forall e, x: nat :: e in r.dirs && x < PAGES ==> MappedPage(r, s, d, a, n, pf, flags, e, x))
    && (forall f :: f in r.role ==> MappedFrame(r, s, d, a, n, pf, f))
  }

  ghost predicate MappedFrame(r: Ram, s: Ram, d: nat, a: nat, n: nat, pf: nat, f: nat) {
    if ForUser(a, n, pf, f) then
      s.HasRole(f, User(d, a + (f - pf))) && f in r.mem && f in s.mem && s.mem[f] == r.mem[f]
    else KeptOrTable(r, s, d, f)
  }

  /** Frame f is for a user page, of n pages from a on mapped to frames from pf on. */
  predicate ForUser(a: nat, n: nat, pf: nat, f: nat) {
    pf <= f < pf + n && a + (f - pf) < USER
  }

  ghost predicate AllHeld(r: Ram, a: nat, n: nat, pf: nat) {
    forall f: nat :: ForUser(a, n, pf, f) ==> r.HasRole(f, Held)
  }

  /** n pages of the kernel's half of d are mapped. */
  ghost predicate KernelPages(r: Ram, s: Ram, d: nat, a: nat, n: nat, pf: nat, flags: Flags) {
    && MoreTables(r, s, d)
    && forall e, x: nat :: e in r.dirs && x < PAGES ==> MappedPage(r, s, d, a, n, pf, flags, e, x)
  }

  /** perm | PTE_P */
  function WithP(perm: Flags): (flags: Flags)
    ensures flags % 2 == 1
    ensures perm % 2 == 1 ==> flags == perm
  {
    if perm % 2 == 1 then perm else perm + PTE_P
  }

  function PagesOf(va: nat, size: nat): nat
    requires size > 0
  {
    (va + size - 1) / PGSIZE + 1 - va / PGSIZE
  }

  /** Only the kernel's half of d is mapped differently. */
  ghost predicate KernelOnly(r: Ram, s: Ram, d: nat) {
    && MoreTables(r, s, d)
    && forall e, x: nat :: e in r.dirs && x < PAGES && (e != d || x < USER) ==> SameLookup(r, s, e, x)
  }

  function RoundUp(size: nat): nat {
    (size + PGSIZE - 1) / PGSIZE
  }

  function Min(a: nat, b: nat): nat {
    if a < b then a else b
  }

  /** Pages lo to hi of d are not mapped any more and their frames are free; no other page and no
    * other frame changed. */
  ghost predicate Cleared(r: Ram, s: Ram, d: nat, lo: nat, hi: nat) {
    && s.dirs == r.dirs && s.role.Keys == r.role.Keys
    && (forall e, x: nat :: e in r.dirs && x < PAGES ==> ClearedPage(r, s, d, lo, hi, e, x))
    && (forall f :: f in r.role ==> ClearedFrame(r, s, d, lo, hi, f))
  }

  ghost predicate ClearedPage(r: Ram, s: Ram, d: nat, lo: nat, hi: nat, e: nat, x: nat) {
    s.Lookup(e, x) == if e == d && lo <= x < hi then ZeroWord else r.Lookup(e, x)
  }

  ghost predicate ClearedFrame(r: Ram, s: Ram, d: nat, lo: nat, hi: nat, f: nat)
    requires f in r.role
  {
    if r.role[f].User? && r.role[f].dir == d && lo <= r.role[f].v < hi then s.HasRole(f, Free) else FrameKept(r, s, f)
  }

  /** Pages lo to hi of d are mapped to zeroed frames that were free; nothing else changed, except
    * that h, if it is a frame, is held and was free. */
  ghost predicate Grown(r: Ram, s: Ram, d: nat, lo: nat, hi: nat, h: nat) {
    && s.dirs == r.dirs && s.role.Keys == r.role.Keys
    && (forall e, x: nat :: e in r.dirs && x < PAGES ==> GrownPage(r, s, d, lo, hi, e, x))
    && (forall f :: f in r.role ==> GrownFrame(r, s, d, lo, hi, h, f))
  }

  ghost predicate GrownPage(r: Ram, s: Ram, d: nat, lo: nat, hi: nat, e: nat, x: nat) {
    if e == d && lo <= x < hi then
      var w := s.Lookup(d, x);
      && w.flags == PTE_P + PTE_W + PTE_U && r.HasRole(w.frame, Free)
      && w.frame in s.mem && s.mem[w.frame] == Filled(ZeroWord)
    else SameLookup(r, s, e, x)
  }

  ghost predicate GrownFrame(r: Ram, s: Ram, d: nat, lo: nat, hi: nat, h: nat, f: nat) {
    || KeptOrTable(r, s, d, f)
    || (r.HasRole(f, Free) && f in s.role && s.role[f].User? && s.role[f].dir == d && lo <= s.role[f].v < hi)
    || (f == h && r.HasRole(f, Free) && s.HasRole(f, Held))
  }

  /** No page of d from lo to hi is mapped. */
  ghost predicate Absent(r: Ram, d: nat, lo: nat, hi: nat) {
    forall x: nat :: lo <= x < hi ==> r.Lookup(d, x) == ZeroWord
  }

  ghost predicate Belongs(x: Role, f: nat, d: nat) {
    match x
    case Dir => f == d
    case Table(e, _) => e == d
    case User(e, _) => e == d
    case _ => false
  }

  /** d is gone, every frame that was its directory, a table of it or a page of it is free, and
    * every other frame and mapping is as before. */
  ghost predicate TornDown(r: Ram, s: Ram, d: nat) {
    && s.dirs == r.dirs - {d} && s.role.Keys == r.role.Keys
    && AllSame(s, r)
    && forall f :: f in r.role ==> TornFrame(r, s, d, f)
  }

  ghost predicate TornFrame(r: Ram, s: Ram, d: nat, f: nat)
    requires f in r.role
  {
    if Belongs(r.role[f], f, d) then s.HasRole(f, Free) else FrameKept(r, s, f)
  }

  // ---- how many frames a call needs ----

  /** The entries of a directory that cover n pages from a on. */
  ghost function Spots(a: nat, n: nat): set<nat> {
    set x: nat | a <= x < a + n :: Pdx(x)
  }

  /** With tables t0 and n0 free frames at first, those for `spots` were added, each missing one out of
    * a free frame, so that there are tables t1 and n1 free frames. */
  ghost predicate Paid(t0: set<nat>, n0: nat, t1: set<nat>, n1: nat, spots: set<nat>) {
    t1 == t0 + spots && n0 == n1 + |spots - t0|
  }

  /** One page more: paid for, if it can be. */
  lemma OnePageMore(t0: set<nat>, n0: nat, t1: set<nat>, n1: nat, a: nat, n: nat)
    requires Paid(t0, n0, t1, n1, Spots(a, n))
    ensures Spots(a, n + 1) == Spots(a, n) + {Pdx(a + n)}
    ensures Pdx(a + n) in t1 ==> |Spots(a, n + 1) - t0| == |Spots(a, n) - t0|
    ensures Pdx(a + n) !in t1 ==> |Spots(a, n + 1) - t0| == |Spots(a, n) - t0| + 1
  {
    var more, pdx := Spots(a, n), Pdx(a + n);
    assert Spots(a, n + 1) == more + {pdx};
    if pdx in t1 {
      assert Spots(a, n + 1) - t0 == more - t0;
    } else {
      assert Spots(a, n + 1) - t0 == (more - t0) + {pdx};
    }
  }

  lemma PaidOnce(t0: set<nat>, n0: nat, t1: set<nat>, n1: nat, i: nat)
    requires Paid(t0, n0, t1, n1, {i})
    ensures n0 == n1 + if i in t0 then 0 else 1
  {
    assert i in t0 ==> {i} - t0 == {};
    assert i !in t0 ==> {i} - t0 == {i};
  }

  lemma PaidMore(t0: set<nat>, n0: nat, t1: set<nat>, n1: nat, t2: set<nat>, n2: nat, a: nat, n: nat)
    requires Paid(t0, n0, t1, n1, Spots(a, n)) && Paid(t1, n1, t2, n2, {Pdx(a + n)})
    ensures Paid(t0, n0, t2, n2, Spots(a, n + 1))
  {
    OnePageMore(t0, n0, t1, n1, a, n);
    PaidOnce(t1, n1, t2, n2, Pdx(a + n));
  }

  lemma MoreSpots(t0: set<nat>, a: nat, n: nat, m: nat)
    requires n <= m
    ensures |Spots(a, n) - t0| <= |Spots(a, m) - t0|
  {
    var more := Spots(a, m) - t0;
    assert Spots(a, n) - t0 <= more;
    assert more == (Spots(a, n) - t0) + (more - (Spots(a, n) - t0));
  }

  lemma PaidSum(t0: set<nat>, n0: nat, t1: set<nat>, n1: nat, spots: set<nat>)
    requires Paid(t0, n0, t1, n1, spots)
    ensures t1 == t0 + spots && n0 == n1 + |spots - t0|
  {
  }

  lemma OneSpot(v: nat)
    ensures Spots(v, 0) == {} && Spots(v, 1) == {Pdx(v)}
  {
  }

  lemma PaidNothing(t0: set<nat>, n0: nat, a: nat)
    ensures Paid(t0, n0, t0, n0, Spots(a, 0))
  {
    assert Spots(a, 0) - t0 == {};
  }

  /** The frames run out at page a + n, so they were too few from the start. */
  lemma TooFew(t0: set<nat>, n0: nat, t1: set<nat>, n1: nat, a: nat, n: nat, all: nat)
    requires Paid(t0, n0, t1, n1, Spots(a, n)) && Pdx(a + n) !in t1 && n < all
    ensures n0 <= n1 + |Spots(a, all) - t0| - 1
  {
    OnePageMore(t0, n0, t1, n1, a, n);
    MoreSpots(t0, a, n + 1, all);
  }

  /** The frames it takes to give a directory with the tables t0 pages lo to hi - 1. */
  ghost function Growth(t0: set<nat>, lo: nat, hi: nat): nat
    requires lo <= hi
  {
    hi - lo + |Spots(lo, hi - lo) - t0|
  }

  lemma Enough(t0: set<nat>, n0: nat, t1: set<nat>, n1: nat, lo: nat, hi: nat)
    requires lo <= hi && Paid(t0, n0, t1, n1 + (hi - lo), Spots(lo, hi - lo))
    ensures Growth(t0, lo, hi) <= n0
  {
  }

  /** No frame is left for page v. */
  lemma NoneLeft(t0: set<nat>, n0: nat, t1: set<nat>, lo: nat, v: nat, hi: nat)
    requires lo <= v < hi && Paid(t0, n0, t1, v - lo, Spots(lo, v - lo))
    ensures n0 < Growth(t0, lo, hi)
  {
    MoreSpots(t0, lo, v - lo, hi - lo);
  }

  /** Page v has taken one frame of the `left` ones, and its table another, if it had to be made and could. */
  lemma PagePaid(t0: set<nat>, n0: nat, t1: set<nat>, left: nat, mapped: bool, t2: set<nat>, n2: nat, lo: nat, v: nat,
                 hi: nat)
    requires lo <= v < hi && left > 0 && Paid(t0, n0, t1, left + (v - lo), Spots(lo, v - lo))
    requires mapped <==> |Spots(v, 1) - t1| <= left - 1
    requires mapped ==> Paid(t1, left - 1, t2, n2, Spots(v, 1))
    ensures if mapped then Paid(t0, n0, t2, n2 + (v + 1 - lo), Spots(lo, v + 1 - lo)) else n0 < Growth(t0, lo, hi)
  {
    hide Spots;
    OneSpot(v);
    var n := v - lo;
    assert lo + n == v;
    OnePageMore(t0, n0, t1, left + n, lo, n);
    if mapped {
      assert Paid(t1, left + n, t2, n2 + n + 1, {Pdx(v)});
      PaidMore(t0, n0, t1, left + n, t2, n2 + n + 1, lo, n);
    } else {
      assert Pdx(v) in t1 ==> {Pdx(v)} - t1 == {};
      assert |{Pdx(v)} - t1| <= |{Pdx(v)}|;
      MoreSpots(t0, lo, n + 1, hi - lo);
    }
  }

  lemma TablesOf(r: Ram, s: Ram, d: nat)
    requires SameTables(r, s) && d in r.dirs
    ensures Tables(s, d) == Tables(r, d)
  {
  }

  /** A region of the kernel's half, in bytes. */
  datatype Region = Region(virt: nat, start: nat, end: nat, perm: Flags)

  /** phys_end - phys_start in 32 bits. */
  function Bytes(g: Region): nat {
    (g.end + 0x1_0000_0000 - g.start) % 0x1_0000_0000
  }

  /** The regions of the kernel's half, with data at the given address. */
  function Kmap(data: nat): seq<Region>
    requires 0x8010_0000 < data
  {
    [Region(0x8000_0000, 0, 0x10_0000, PTE_W),
     Region(0x8010_0000, 0x10_0000, data - 0x8000_0000, 0),
     Region(data, data - 0x8000_0000, 0xE00_0000, PTE_W),
     Region(0xFE00_0000, 0xFE00_0000, 0, PTE_W)]
  }

  predicate RegionOk(g: Region) {
    && g.virt % PGSIZE == 0 && g.start % PGSIZE == 0
    && g.virt >= USER * PGSIZE && Bytes(g) > 0 && g.virt + Bytes(g) <= PAGES * PGSIZE
  }

  predicate Apart(g: Region, h: Region) {
    g.virt / PGSIZE + PagesIn(g) <= h.virt / PGSIZE
  }

  function PagesIn(g: Region): nat {
    if Bytes(g) > 0 then PagesOf(g.virt, Bytes(g)) else 0
  }

  predicate KmapOk(kmap: seq<Region>) {
    && (forall k :: 0 <= k < |kmap| ==> RegionOk(kmap[k]))
    && (forall k :: 0 <= k < |kmap| - 1 ==> Apart(kmap[k], kmap[k + 1]))
  }

  lemma KmapIsOk(data: nat)
    requires 0x8010_0000 < data < 0x8E00_0000 && data % PGSIZE == 0
    ensures KmapOk(Kmap(data))
  {
    assert (data - 0x8000_0000) % PGSIZE == 0;
    var k := Kmap(data);
    assert RegionOk(k[0]) && RegionOk(k[1]) && RegionOk(k[2]) && RegionOk(k[3]);
    assert Apart(k[0], k[1]) && Apart(k[1], k[2]) && Apart(k[2], k[3]);
    hide RegionOk, Apart;
  }

  /** The entries that the regions' pages lie under. */
  ghost function KernelTables(kmap: seq<Region>): set<nat> {
    if kmap == [] then {}
    else
      var g := kmap[|kmap| - 1];
      KernelTables(kmap[..|kmap| - 1]) + Spots(g.virt / PGSIZE, PagesIn(g))
  }

  lemma KernelTablesStep(kmap: seq<Region>, k: nat)
    requires k < |kmap|
    ensures KernelTables(kmap[..k + 1])
            == KernelTables(kmap[..k]) + Spots(kmap[k].virt / PGSIZE, PagesIn(kmap[k]))
  {
    assert kmap[..k + 1][..k] == kmap[..k];
  }

  lemma {:induction false} KernelTablesGrow(kmap: seq<Region>, k: nat)
    requires k <= |kmap|
    ensures KernelTables(kmap[..k]) <= KernelTables(kmap)
    decreases |kmap| - k
  {
    if k < |kmap| {
      KernelTablesStep(kmap, k);
      KernelTablesGrow(kmap, k + 1);
    } else {
      assert kmap[..k] == kmap;
    }
  }

  /** After region k, or when the frames run out in it. */
  lemma RegionPaid(kmap: seq<Region>, k: nat, n0: nat, t1: set<nat>, n1: nat, ok: bool, t2: set<nat>, n2: nat)
    requires k < |kmap| && Paid({}, n0, t1, n1, KernelTables(kmap[..k]))
    requires var more := Spots(kmap[k].virt / PGSIZE, PagesIn(kmap[k]));
      (ok <==> |more - t1| <= n1) && (ok ==> Paid(t1, n1, t2, n2, more))
    ensures if ok then Paid({}, n0, t2, n2, KernelTables(kmap[..k + 1])) else n0 < |KernelTables(kmap)|
  {
    hide Spots, KernelTables;
    KernelTablesStep(kmap, k);
    KernelTablesGrow(kmap, k + 1);
    var sofar, more := KernelTables(kmap[..k]), Spots(kmap[k].virt / PGSIZE, PagesIn(kmap[k]));
    assert sofar - {} == sofar;
    assert (sofar + more) - {} == sofar + more;
    assert sofar + more == sofar + (more - sofar);
    SubsetSize(sofar + more, KernelTables(kmap));
  }

  lemma SubsetSize(a: set<nat>, b: set<nat>)
    requires a <= b
    ensures |a| <= |b|
  {
    assert b == a + (b - a);
  }

  lemma AllPaid(n0: nat, t1: set<nat>, n1: nat, kmap: seq<Region>)
    requires Paid({}, n0, t1, n1, KernelTables(kmap[..|kmap|]))
    ensures t1 == KernelTables(kmap) && n0 == n1 + |KernelTables(kmap)|
  {
    assert kmap[..|kmap|] == kmap;
    assert KernelTables(kmap) - {} == KernelTables(kmap);
  }

  /** The frames for a directory with the kernel's regions and n user pages. */
  ghost function Needed(kmap: seq<Region>, n: nat): nat {
    1 + |KernelTables(kmap)| + Growth(KernelTables(kmap), 0, n)
  }

  predicate InRegion(g: Region, x: nat) {
    g.virt / PGSIZE <= x < g.virt / PGSIZE + PagesIn(g)
  }

  /** The entry for page x of the kernel's half: direct-mapped within its region. */
  function KernelWord(kmap: seq<Region>, x: nat): Word {
    if kmap == [] then ZeroWord
    else
      var g := kmap[|kmap| - 1];
      if InRegion(g, x) then Word(g.start / PGSIZE + (x - g.virt / PGSIZE), WithP(g.perm))
      else KernelWord(kmap[..|kmap| - 1], x)
  }

  /** What the kernel's regions come to: physical memory from USER on, its text read-only, the devices at
    * their own addresses, nothing in between, and nothing for user code. */
  lemma KmapMaps(data: nat, x: nat)
    requires 0x8010_0000 < data < 0x8E00_0000 && data % PGSIZE == 0 && USER <= x < PAGES
    ensures KernelWord(Kmap(data), x) ==
            if x < 0x8_0100 || data / PGSIZE <= x < 0x8_E000 then Word(x - USER, PTE_P + PTE_W)
            else if x < data / PGSIZE then Word(x - USER, PTE_P)
            else if x < 0xF_E000 then ZeroWord
            else Word(x, PTE_P + PTE_W)
  {
    var k := Kmap(data);
    KmapPages(data);
    for j := 0 to 4
      invariant k[..0] == [] && forall i: nat :: i < j ==> KernelWordAt(k, i, x)
    {
      KernelWordStep(k, j, x);
    }
    assert KernelWordAt(k, 0, x) && KernelWordAt(k, 1, x) && KernelWordAt(k, 2, x) && KernelWordAt(k, 3, x);
    assert k[..4] == k;
    hide KernelWord;
  }

  ghost predicate KernelWordAt(k: seq<Region>, j: nat, x: nat)
    requires j < |k|
  {
    KernelWord(k[..j + 1], x) ==
    if InRegion(k[j], x) then Word(k[j].start / PGSIZE + (x - k[j].virt / PGSIZE), WithP(k[j].perm))
    else KernelWord(k[..j], x)
  }

  lemma KernelWordStep(k: seq<Region>, j: nat, x: nat)
    requires j < |k|
    ensures KernelWordAt(k, j, x)
  {
    assert k[..j + 1][..j] == k[..j];
  }

  /** The regions in pages. */
  lemma KmapPages(data: nat)
    requires 0x8010_0000 < data < 0x8E00_0000 && data % PGSIZE == 0
    ensures var k := Kmap(data);
      && |k| == 4
      && k[0].virt / PGSIZE == 0x8_0000 && PagesIn(k[0]) == 0x100 && k[0].start / PGSIZE == 0
      && k[1].virt / PGSIZE == 0x8_0100 && PagesIn(k[1]) == data / PGSIZE - 0x8_0100 && k[1].start / PGSIZE == 0x100
      && k[2].virt / PGSIZE == data / PGSIZE && PagesIn(k[2]) == 0x8_E000 - data / PGSIZE
      && k[2].start / PGSIZE == data / PGSIZE - USER
      && k[3].virt / PGSIZE == 0xF_E000 && PagesIn(k[3]) == 0x2000 && k[3].start / PGSIZE == 0xF_E000
  {
    var k, p := Kmap(data), data / PGSIZE;
    assert data == p * PGSIZE;
    assert Bytes(k[1]) == (p - 0x8_0100) * PGSIZE && Bytes(k[2]) == (0x8_E000 - p) * PGSIZE;
  }

  /** Entries lo to hi - 1. */
  ghost function Between(lo: nat, hi: nat): (s: set<nat>)
    requires lo <= hi
    ensures |s| == hi - lo && forall i: nat :: i in s <==> lo <= i < hi
    decreases hi - lo
  {
    if lo == hi then {} else Between(lo, hi - 1) + {hi - 1}
  }

  lemma SpotsBetween(a: nat, n: nat)
    ensures Spots(a, n) == if n == 0 then {} else Between(Pdx(a), Pdx(a + n - 1) + 1)
  {
    if n > 0 {
      forall i: nat | Pdx(a) <= i <= Pdx(a + n - 1) ensures i in Spots(a, n) {
        var x := if i == Pdx(a) then a else i * ENTRIES;
        assert a <= x < a + n && Pdx(x) == i;
      }
    }
  }

  lemma KernelSpots(data: nat, i: nat)
    requires 0x8010_0000 < data < 0x8E00_0000 && data % PGSIZE == 0
    ensures i in KernelTables(Kmap(data)) <==> 512 <= i < 568 || 1016 <= i < 1024
  {
    hide KernelTables, Spots, Kmap, PagesIn, Between;
    var k, p := Kmap(data), data / PGSIZE;
    KmapPages(data);
    FourTables(k, i);
    SpotsBetween(0x8_0000, 0x100);
    SpotsBetween(0x8_0100, p - 0x8_0100);
    SpotsBetween(p, 0x8_E000 - p);
    SpotsBetween(0xF_E000, 0x2000);
  }

  lemma FourTables(k: seq<Region>, i: nat)
    requires |k| == 4
    ensures i in KernelTables(k) <==> exists j: nat :: j < 4 && i in Spots(k[j].virt / PGSIZE, PagesIn(k[j]))
  {
    hide KernelTables, Spots, PagesIn;
    KernelTablesStep(k, 0);
    KernelTablesStep(k, 1);
    KernelTablesStep(k, 2);
    KernelTablesStep(k, 3);
    assert k[..0] == [] && k[..4] == k;
    assert KernelTables([]) == {} by { NoRegions(); }
  }

  lemma NoRegions()
    ensures KernelTables([]) == {}
  {
  }

  lemma TwoRanges(s: set<nat>, a: nat, b: nat, c: nat, d: nat)
    requires a <= b <= c <= d && forall i: nat :: i in s <==> a <= i < b || c <= i < d
    ensures |s| == b - a + d - c
  {
    var low, high := Between(a, b), Between(c, d);
    assert s == low + high && s - low == high;
  }

  lemma KernelCount(data: nat)
    requires 0x8010_0000 < data < 0x8E00_0000 && data % PGSIZE == 0
    ensures |KernelTables(Kmap(data))| == 64 && forall i: nat :: i in KernelTables(Kmap(data)) ==> i >= 512
  {
    hide KernelTables, Spots, Kmap;
    var t := KernelTables(Kmap(data));
    forall i: nat ensures i in t <==> 512 <= i < 568 || 1016 <= i < 1024 {
      KernelSpots(data, i);
    }
    TwoRanges(t, 512, 568, 1016, 1024);
  }

  /** 64 tables for the kernel, and one for each 1024 user pages or part of them. */
  lemma NeededIs(data: nat, n: nat)
    requires 0x8010_0000 < data < 0x8E00_0000 && data % PGSIZE == 0 && n <= USER
    ensures |KernelTables(Kmap(data))| == 64
    ensures Needed(Kmap(data), n) == 65 + n + (n + ENTRIES - 1) / ENTRIES
  {
    hide KernelTables, Spots, Kmap;
    KernelCount(data);
    UserSpots(n);
    assert Spots(0, n) - KernelTables(Kmap(data)) == Spots(0, n);
  }

  lemma UserSpots(n: nat)
    requires n <= USER
    ensures |Spots(0, n)| == (n + ENTRIES - 1) / ENTRIES && forall i :: i in Spots(0, n) ==> i < 512
  {
    hide Between, Spots;
    SpotsBetween(0, n);
  }

  /** The kernel's half of d is as the first k regions say. */
  ghost predicate KernelHalf(s: Ram, d: nat, kmap: seq<Region>, k: nat) {
    k <= |kmap| && forall x: nat :: USER <= x < PAGES ==> KernelEntry(s, d, kmap[..k], x)
  }

  ghost predicate KernelEntry(s: Ram, d: nat, kmap: seq<Region>, x: nat) {
    s.Lookup(d, x) == KernelWord(kmap, x)
  }

  /** d is a new directory whose first n pages copy src's; h, if a frame, is held and was free;
    * everything else is as before. */
  ghost predicate Copying(r: Ram, s: Ram, src: nat, d: nat, n: nat, h: nat) {
    && d !in r.dirs && s.dirs == r.dirs + {d} && s.role.Keys == r.role.Keys
    && AllSame(r, s)
    && (forall x: nat :: x < USER ==> CopiedPage(r, s, src, d, n, x))
    && (forall f :: f in r.role ==> CopiedFrame(r, s, d, h, f))
  }

  ghost predicate CopiedPage(r: Ram, s: Ram, src: nat, d: nat, n: nat, x: nat) {
    var v, w := r.Lookup(src, x), s.Lookup(d, x);
    if x < n then
      && Present(w) && w.flags == v.flags && r.HasRole(w.frame, Free)
      && v.frame in r.mem && w.frame in s.mem && s.mem[w.frame] == r.mem[v.frame]
    else w == ZeroWord
  }

  ghost predicate CopiedFrame(r: Ram, s: Ram, d: nat, h: nat, f: nat)
    requires f in r.role
  {
    || FrameKept(r, s, f)
    || (r.HasRole(f, Free) && f in s.role && Belongs(s.role[f], f, d))
    || (f == h && r.HasRole(f, Free) && s.HasRole(f, Held))
  }

  /** The same directories and mappings, and every frame in the same role. */
  ghost predicate Restored(r: Ram, s: Ram) {
    && s.dirs == r.dirs && s.role == r.role && AllSame(r, s)
    && forall f :: f in r.role ==> FrameKept(r, s, f)
  }

  /** The user pages of d are those that sz bytes need. */
  ghost predicate SizeIs(r: Ram, d: nat, sz: nat) {
    forall x: nat :: x < USER ==> SizedPage(r, d, sz, x)
  }

  ghost predicate SizedPage(r: Ram, d: nat, sz: nat, x: nat) {
    Present(r.Lookup(d, x)) <==> x < RoundUp(sz)
  }

  class Kernel {
    var mem: map<nat, Page>
    var freelist: seq<nat>
    ghost var role: map<nat, Role>
    ghost var dirs: set<nat>

    ghost function Now(): Ram
      reads this`mem, this`role, this`dirs
    {
      Ram(mem, role, dirs)
    }

    /** The free list holds every free frame once, and nothing else. */
    ghost predicate ListOk()
      reads this`mem, this`freelist, this`role, this`dirs
    {
      ListedAt(Now(), freelist)
    }

    ghost predicate Valid()
      reads this
    {
      Now().Inv() && ListOk()
    }

    /** kinit: freerange gives frames 1 to n to the free list, and nothing is mapped. */
    constructor (n: nat)
      ensures Valid() && dirs == {} && forall f :: f in role <==> 1 <= f <= n
      ensures forall f :: f in role ==> role[f] == Free
    {
      mem, freelist, role, dirs := map[], [], map[], {};
      new;
      for f := 1 to n + 1
        invariant Valid() && dirs == {} && forall g :: g in role <==> 1 <= g < f
        invariant forall g :: g in role ==> role[g] == Free
      {
        mem := mem[f := Filled(JunkWord)];
        freelist := [f] + freelist;
        role := role[f := Free];
      }
    }

    /** The first frame of the free list, or 0 when it is empty. */
    method Kalloc() returns (f: nat)
      requires ListOk()
      modifies this`freelist, this`role
      ensures ListOk()
      ensures f == 0 <==> old(freelist) == []
      ensures f == 0 ==> role == old(role) && freelist == [] && forall g :: g in role ==> role[g] != Free
      ensures f != 0 ==> old(Now()).HasRole(f, Free) && role == old(role)[f := Held]
      ensures f != 0 ==> f == old(freelist)[0] && freelist == old(freelist)[1..]
    {
      if freelist == [] {
        return 0;
      }
      f := freelist[0];
      freelist := freelist[1..];
      role := role[f := Held];
    }

    /** f goes to the head of the free list, every byte of it 1.  A frame already free is a bug of
      * the caller. */
    method Kfree(f: nat)
      requires ListOk() && f in role && role[f] != Free
      modifies this`mem, this`freelist, this`role
      ensures ListOk() && freelist == [f] + old(freelist)
      ensures Now() == old(Now()).Handed(f, Free, Filled(JunkWord))
    {
      mem := mem[f := Filled(JunkWord)];
      freelist := [f] + freelist;
      role := role[f := Free];
    }

    /** A frame for the kernel's use, written with p. */
    method KallocWith(p: Page) returns (f: nat)
      requires Valid() && |p| == ENTRIES
      modifies this
      ensures Valid() && AllSame(old(Now()), Now())
      ensures f == 0 <==> old(freelist) == []
      ensures f == 0 ==> Now() == old(Now()) && freelist == [] && forall g :: g in role ==> role[g] != Free
      ensures f != 0 ==> old(Now()).HasRole(f, Free) && Now() == old(Now()).Handed(f, Held, p)
      ensures f != 0 ==> |freelist| == |old(freelist)| - 1 && SameTables(old(Now()), Now())
    {
      hide Ram.Inv, AllSame, SameTables, Filled;
      ghost var r := Now();
      f := Kalloc();
      if f == 0 {
        Untouched(r, 0);
        return;
      }
      HandedKeeps(r, f, Held, p);
      mem := mem[f := p];
    }

    /** The table that holds the entry for page v of d, or 0.  With alloc an absent table is made,
      * if there is a frame for it. */
    method Walkpgdir(d: nat, v: nat, alloc: bool) returns (t: nat)
      requires Valid() && d in dirs && v < PAGES
      modifies this
      ensures Valid() && AllSame(old(Now()), Now()) && MoreTables(old(Now()), Now(), d)
      ensures t != 0 ==> Present(Now().Entry(d, Pdx(v))) && t == Now().Entry(d, Pdx(v)).frame
      ensures t == 0 ==> Now() == old(Now()) && !Present(Now().Entry(d, Pdx(v)))
      ensures !alloc ==> Now() == old(Now()) && freelist == old(freelist)
      ensures alloc && t == 0 ==> forall g :: g in role ==> role[g] != Free
      ensures t == 0 <==> Pdx(v) !in Tables(old(Now()), d) && (!alloc || old(freelist) == [])
      ensures t == 0 ==> freelist == old(freelist)
      ensures t != 0 ==> Paid(Tables(old(Now()), d), |old(freelist)|, Tables(Now(), d), |freelist|, {Pdx(v)})
      ensures t != 0 && !Present(old(Now()).Entry(d, Pdx(v))) ==>
        Now().Entry(d, Pdx(v)) == Word(t, PTE_P + PTE_W + PTE_U)
    {
      hide Ram.Inv, AllSame, MoreTables, Filled, Ram.Tabled, Listed;
      ghost var r := Now();
      Split(v, v);
      DirPage(r, d);
      Untouched(r, d);
      var pde := mem[d][Pdx(v)];
      if Present(pde) {
        TableFrame(r, d, Pdx(v));
        assert Pdx(v) in Tables(r, d);
        assert Tables(r, d) == Tables(r, d) + {Pdx(v)} && {Pdx(v)} - Tables(r, d) == {};
        return pde.frame;
      }
      assert Pdx(v) !in Tables(r, d);
      if !alloc {
        return 0;
      }
      t := KallocWith(Filled(ZeroWord));
      if t == 0 {
        return;
      }
      ghost var m := Now();
      NewTable(r, m, d, Pdx(v), t);
      DirPage(m, d);
      assert {Pdx(v)} - Tables(r, d) == {Pdx(v)};
      mem := mem[d := mem[d][Pdx(v) := Word(t, PTE_P + PTE_W + PTE_U)]];
      role := role[t := Table(d, Pdx(v))];
      assert Now() == m.Tabled(d, Pdx(v), t) by { TabledIs(m, d, Pdx(v), t); }
      ListStays(m, Now(), freelist);
    }

    /** One entry of d set to w, its table made if need be. */
    method MapPage(d: nat, v: nat, w: Word) returns (ok: bool)
      requires Valid() && d in dirs && v < PAGES && Present(w)
      requires v < USER ==> Now().HasRole(w.frame, Held)
      requires !Present(Now().Lookup(d, v))
      modifies this
      ensures Valid()
      ensures !ok ==> PagesMapped(old(Now()), Now(), d, v, 0, w.frame, w.flags)
      ensures !ok ==> forall g :: g in role ==> role[g] != Free
      ensures ok ==> PagesMapped(old(Now()), Now(), d, v, 1, w.frame, w.flags)
      ensures ok <==> Pdx(v) in Tables(old(Now()), d) || old(freelist) != []
      ensures ok ==> Paid(Tables(old(Now()), d), |old(freelist)|, Tables(Now(), d), |freelist|, {Pdx(v)})
      ensures !ok ==> Tables(Now(), d) == Tables(old(Now()), d) && freelist == old(freelist)
    {
      hide Ram.Inv, AllSame, MoreTables, UserPage, KernelPages, PagesMapped, Ram.Lookup, Ram.Entry, Listed,
        Tables, Paid;
      ghost var r := Now();
      var t := Walkpgdir(d, v, true);
      ghost var m := Now();
      if t == 0 {
        NoneMapped(r, m, d, v, w.frame, w.flags);
        return false;
      }
      if v < USER {
        UserPageMade(r, m, d, v, w);
        mem := mem[t := mem[t][Ptx(v) := w]];
        role := role[w.frame := User(d, v)];
        assert Now() == m.Written(d, v, w).SetRole(w.frame, User(d, v));
        ListStays(m, Now(), freelist);
      } else {
        KernelPageMade(r, m, d, v, w);
        mem := mem[t := mem[t][Ptx(v) := w]];
        assert Now() == m.Written(d, v, w);
        ListStays(m, Now(), freelist);
      }
      return true;
    }

    /** Maps size bytes at va to the frames from pa on, page by page, and stops when there is no frame
      * for a table; what was mapped by then stays mapped.  A frame for a user page is held by the
      * caller.  An entry already present is a bug of the caller. */
    method Mappages(d: nat, va: nat, size: nat, pa: nat, perm: Flags) returns (ok: bool, ghost n: nat)
      requires Valid() && d in dirs && size > 0 && va + size <= PAGES * PGSIZE && pa % PGSIZE == 0
      requires forall x: nat :: va / PGSIZE <= x <= (va + size - 1) / PGSIZE ==> !Present(Now().Lookup(d, x))
      requires AllHeld(Now(), va / PGSIZE, PagesOf(va, size), pa / PGSIZE)
      modifies this
      ensures Valid() && PagesMapped(old(Now()), Now(), d, va / PGSIZE, n, pa / PGSIZE, WithP(perm))
      ensures n <= PagesOf(va, size) && (ok <==> n == PagesOf(va, size))
      ensures !ok ==> forall g :: g in role ==> role[g] != Free
      ensures ok <==> |Spots(va / PGSIZE, PagesOf(va, size)) - Tables(old(Now()), d)| <= |old(freelist)|
      ensures Paid(Tables(old(Now()), d), |old(freelist)|, Tables(Now(), d), |freelist|, Spots(va / PGSIZE, n))
    {
      hide Ram.Inv, AllSame, MoreTables, PagesMapped, Ram.Lookup, Listed, AllHeld, Tables, Paid, Spots;
      var a := va / PGSIZE;
      var last := (va + size - 1) / PGSIZE;
      var f := pa / PGSIZE;
      ghost var r, first, pf := Now(), a, f;
      Halves(va, size);
      ghost var t0, n0 := Tables(r, d), |freelist|;
      NoPages(r, d, a, f, WithP(perm));
      PaidNothing(t0, n0, a);
      n := 0;
      while true
        invariant first <= a <= last && f == pf + n && a == first + n && d in dirs && Valid()
        invariant PagesMapped(r, Now(), d, first, n, pf, WithP(perm))
        invariant Paid(t0, n0, Tables(Now(), d), |freelist|, Spots(first, n))
        decreases last - a
      {
        ghost var m, left := Now(), |freelist|;
        StillAbsent(r, m, d, first, n, pf, WithP(perm), a);
        StillHeldFor(r, m, d, first, n, PagesOf(va, size), pf, WithP(perm), f);
        ok := MapPage(d, a, Word(f, WithP(perm)));
        MappedTwice(r, m, Now(), d, first, n, if ok then 1 else 0, pf, WithP(perm), PagesOf(va, size));
        if !ok {
          TooFew(t0, n0, Tables(m, d), left, first, n, PagesOf(va, size));
          return;
        }
        PaidMore(t0, n0, Tables(m, d), left, Tables(Now(), d), |freelist|, first, n);
        n := n + 1;
        if a == last {
          PaidSum(t0, n0, Tables(Now(), d), |freelist|, Spots(first, n));
          break;
        }
        a := a + 1;
        f := f + 1;
      }
    }

    /** Unmaps and frees every user page from newsz up to oldsz, whatever is mapped there.  The scan
      * jumps over regions without a table; the result is that of looking at every page. */
    method Deallocuvm(d: nat, oldsz: nat, newsz: nat) returns (size: nat)
      requires Valid() && d in dirs && oldsz <= USER * PGSIZE
      modifies this
      ensures Valid()
      ensures size == if newsz >= oldsz then oldsz else newsz
      ensures Cleared(old(Now()), Now(), d, RoundUp(newsz), RoundUp(oldsz))
    {
      hide Ram.Inv, Cleared, Ram.Lookup, Ram.Entry, Listed, Ram.Handed, Ram.Written;
      ghost var r := Now();
      if newsz >= oldsz {
        NothingCleared(r, d, RoundUp(newsz), RoundUp(oldsz));
        return oldsz;
      }
      var v := RoundUp(newsz);
      ghost var lo, hi := v, RoundUp(oldsz);
      NothingCleared(r, d, v, v);
      while v * PGSIZE < oldsz
        invariant Valid() && d in dirs && lo <= v
        invariant Cleared(r, Now(), d, lo, Min(v, hi))
        decreases USER + ENTRIES - v
      {
        ghost var m := Now();
        var t := Walkpgdir(d, v, false);
        if t == 0 {
          Skipped(r, m, d, lo, v, hi);
          v := (Pdx(v) + 1) * ENTRIES - 1;
        } else {
          EntryIs(m, d, v);
          var pte := mem[t][Ptx(v)];
          if Present(pte) {
            OnePageFreed(r, m, d, lo, v);
            FreedThenWritten(m, d, v);
            Kfree(pte.frame);
            mem := mem[t := mem[t][Ptx(v) := ZeroWord]];
            assert Now() == m.Written(d, v, ZeroWord).Handed(pte.frame, Free, Filled(JunkWord));
            ListStays(m.Handed(pte.frame, Free, Filled(JunkWord)), Now(), freelist);
          } else {
            OnePageAbsent(r, m, d, lo, v);
          }
        }
        v := v + 1;
      }
      return newsz;
    }

    /** Grows d's user part to newsz with zeroed frames.  When memory runs out, for a page or for a
      * table, the user part is what it was before; tables made on the way stay in d. */
    method Allocuvm(d: nat, oldsz: nat, newsz: nat) returns (size: nat, ghost ok: bool)
      requires Valid() && d in dirs
      requires forall x: nat :: RoundUp(oldsz) <= x < RoundUp(newsz) && newsz < USER * PGSIZE ==>
                 !Present(Now().Lookup(d, x))
      modifies this
      ensures Valid()
      ensures ok ==> size == newsz && oldsz <= newsz < USER * PGSIZE
      ensures ok ==> Grown(old(Now()), Now(), d, RoundUp(oldsz), RoundUp(newsz), 0)
      ensures !ok ==> size == if newsz < oldsz && newsz < USER * PGSIZE then oldsz else 0
      ensures !ok ==> AllSame(old(Now()), Now()) && MoreTables(old(Now()), Now(), d)
      ensures oldsz <= newsz < USER * PGSIZE ==>
        (ok <==> Growth(Tables(old(Now()), d), RoundUp(oldsz), RoundUp(newsz)) <= |old(freelist)|)
    {
      hide Ram.Inv, Grown, AllSame, MoreTables, Cleared, UserPage, Ram.Lookup, Listed, Filled, Absent, Ram.Handed,
        Tables, Paid, Spots, SameTables, Growth;
      ghost var r := Now();
      Untouched(r, d);
      if newsz >= USER * PGSIZE {
        return 0, false;
      }
      if newsz < oldsz {
        return oldsz, false;
      }
      var v := RoundUp(oldsz);
      ghost var lo, hi := v, RoundUp(newsz);
      Rounded(newsz);
      AbsentIs(r, d, lo, hi);
      NothingGrown(r, d, lo);
      ghost var t0, n0 := Tables(r, d), |freelist|;
      PaidNothing(t0, n0, lo);
      while v * PGSIZE < newsz
        invariant Valid() && d in dirs && lo <= v && v <= hi
        invariant Grown(r, Now(), d, lo, v, 0)
        invariant Paid(t0, n0, Tables(Now(), d), |freelist| + (v - lo), Spots(lo, v - lo))
        decreases hi - v
      {
        ghost var m, left := Now(), |freelist|;
        var f := KallocWith(Filled(ZeroWord));
        if f == 0 {
          NoneLeft(t0, n0, Tables(m, d), lo, v, hi);
          var _ := Deallocuvm(d, newsz, oldsz);
          RolledBack(r, m, Now(), d, lo, v, hi, 0);
          NoneHeld(r, Now(), d, lo);
          return 0, false;
        }
        ghost var m1 := Now();
        FrameTaken(r, m, m1, d, lo, v, hi, f);
        TablesOf(m, m1, d);
        OneHeld(m1, v, f);
        ghost var t1 := Tables(m1, d);
        ghost var n;
        var mapped;
        mapped, n := Mappages(d, v * PGSIZE, PGSIZE, f * PGSIZE, PTE_W + PTE_U);
        AsUserPage(m1, Now(), d, v, n, f, PTE_W + PTE_U + PTE_P);
        PagePaid(t0, n0, t1, left, mapped, Tables(Now(), d), |freelist|, lo, v, hi);
        if !mapped {
          GrownMore(r, m1, Now(), d, lo, v, f);
          ghost var m2 := Now();
          var _ := Deallocuvm(d, newsz, oldsz);
          RolledBack(r, m2, Now(), d, lo, v, hi, f);
          ghost var m3 := Now();
          StillHeld(m1, m2, m3, d, lo, hi, f);
          Dropped(r, m3, d, lo, f);
          Kfree(f);
          return 0, false;
        }
        PageGrown(r, m1, Now(), d, lo, v, f);
        v := v + 1;
      }
      Enough(t0, n0, Tables(Now(), d), |freelist|, lo, hi);
      return newsz, true;
    }

    /** Frees the directory, its tables and its user pages, each once, and nothing else. */
    method Freevm(d: nat)
      requires Valid() && d in dirs
      modifies this
      ensures Valid()
      ensures TornDown(old(Now()), Now(), d)
    {
      hide Ram.Inv, Cleared, Ram.Lookup, Listed, Ram.Handed, Condemned, Torn, TornDown;
      ghost var r := Now();
      var _ := Deallocuvm(d, USER * PGSIZE, 0);
      ghost var m := Now();
      Condemning(r, m, d);
      ListCondemned(m, d, freelist);
      role, dirs := Condemned(m, d).role, Condemned(m, d).dirs;
      assert Now() == Condemned(m, d) by { CondemnedIs(m, d); }
      for i := 0 to ENTRIES
        invariant Valid() && Torn(m, Now(), d, i)
      {
        ghost var s := Now();
        TearStep(m, s, d, i);
        if Present(mem[d][i]) {
          Kfree(mem[d][i].frame);
        }
      }
      TearLast(r, m, Now(), d);
      Kfree(d);
    }

    /** A directory that maps the kernel's regions and no user page, or 0 with everything as it was. */
    method Setupkvm(kmap: seq<Region>) returns (d: nat)
      requires Valid() && KmapOk(kmap)
      modifies this
      ensures Valid()
      ensures d != 0 ==> Copying(old(Now()), Now(), 0, d, 0, 0) && KernelHalf(Now(), d, kmap, |kmap|)
      ensures d == 0 ==> Restored(old(Now()), Now())
      ensures d == 0 <==> |old(freelist)| < 1 + |KernelTables(kmap)|
      ensures d != 0 ==> Tables(Now(), d) == KernelTables(kmap)
      ensures d != 0 ==> |old(freelist)| == 1 + |KernelTables(kmap)| + |freelist|
    {
      hide Ram.Inv, AllSame, MoreTables, KernelPages, KernelOnly, TornDown, Ram.Lookup, Listed, Filled,
        Copying, Restored, KernelHalf, RegionOk, Apart, Ram.Handed, Ram.Founded, Tables, SameTables, Paid, Spots,
        KernelTables;
      ghost var r := Now();
      d := KallocWith(Filled(ZeroWord));
      if d == 0 {
        RestoredItself(r);
        return;
      }
      ghost var m := Now();
      Founding(r, m, d, kmap);
      role, dirs := role[d := Dir], dirs + {d};
      assert Now() == m.Founded(d) by { FoundedIs(m, d); }
      ListStays(m, Now(), freelist);
      ghost var n0 := |freelist|;
      NoTables(m, d, kmap, n0);
      for k := 0 to |kmap|
        invariant Valid() && d in dirs
        invariant Copying(r, Now(), 0, d, 0, 0) && KernelHalf(Now(), d, kmap, k)
        invariant Paid({}, n0, Tables(Now(), d), |freelist|, KernelTables(kmap[..k]))
      {
        var g := kmap[k];
        ghost var s, left := Now(), |freelist|;
        RegionAbsent(s, d, kmap, k);
        KernelRegion(s, g);
        ghost var n;
        var ok;
        ok, n := Mappages(d, g.virt, Bytes(g), g.start, g.perm);
        RegionPaid(kmap, k, n0, Tables(s, d), left, ok, Tables(Now(), d), |freelist|);
        AsKernelPages(s, Now(), d, g.virt / PGSIZE, n, g.start / PGSIZE, WithP(g.perm));
        if !ok {
          RegionFailed(r, s, Now(), d);
          ghost var t := Now();
          Freevm(d);
          Undone(r, t, Now(), 0, d, 0, 0);
          return 0;
        }
        RegionMapped(r, s, Now(), d, kmap, k);
      }
      AllPaid(n0, Tables(Now(), d), |freelist|, kmap);
    }

    /** A copy of src's first sz bytes of user pages: the same flags and contents in frames of its
      * own.  When memory runs out everything taken goes back.  A page of src that is not present is
      * a bug of the caller. */
    method Copyuvm(src: nat, sz: nat, kmap: seq<Region>) returns (d: nat)
      requires Valid() && KmapOk(kmap) && src in dirs && sz <= USER * PGSIZE
      requires forall x: nat :: x < RoundUp(sz) ==> Present(Now().Lookup(src, x))
      modifies this
      ensures Valid()
      ensures d != 0 ==> Copying(old(Now()), Now(), src, d, RoundUp(sz), 0) && KernelHalf(Now(), d, kmap, |kmap|)
      ensures d == 0 ==> Restored(old(Now()), Now())
      ensures d == 0 <==> |old(freelist)| < Needed(kmap, RoundUp(sz))
    {
      hide Ram.Inv, AllSame, MoreTables, UserPage, TornDown, Ram.Lookup, Ram.Entry, Listed, Filled,
        Copying, Restored, KernelHalf, KmapOk, Ram.Handed, Tables, SameTables, Paid, Spots, KernelTables, Growth;
      ghost var r := Now();
      d := Setupkvm(kmap);
      if d == 0 {
        return;
      }
      CopyStarts(r, Now(), src, d);
      var v := 0;
      RoundedUp(sz);
      ghost var t0, n0, hi := KernelTables(kmap), |freelist|, RoundUp(sz);
      PaidNothing(t0, n0, 0);
      while v * PGSIZE < sz
        invariant Valid() && d in dirs && src in dirs && src in r.dirs && v <= RoundUp(sz)
        invariant Copying(r, Now(), src, d, v, 0) && KernelHalf(Now(), d, kmap, |kmap|)
        invariant Paid(t0, n0, Tables(Now(), d), |freelist| + v, Spots(0, v))
        decreases RoundUp(sz) - v
      {
        ghost var s, left := Now(), |freelist|;
        SourcePage(r, s, src, d, v);
        var t := Walkpgdir(src, v, false);
        EntryIs(s, src, v);
        var pte := mem[t][Ptx(v)];
        var f := KallocWith(mem[pte.frame]);
        if f == 0 {
          NoneLeft(t0, n0, Tables(s, d), 0, v, hi);
          Freevm(d);
          Undone(r, s, Now(), src, d, v, 0);
          return 0;
        }
        ghost var m := Now();
        CopyTaken(r, s, m, src, d, v, f);
        TablesOf(s, m, d);
        OneHeld(m, v, f);
        ghost var n;
        var mapped;
        mapped, n := Mappages(d, v * PGSIZE, PGSIZE, f * PGSIZE, pte.flags);
        PagePaid(t0, n0, Tables(m, d), left, mapped, Tables(Now(), d), |freelist|, 0, v, hi);
        AsUserPage(m, Now(), d, v, n, f, WithP(pte.flags));
        if !mapped {
          CopyFailed(r, m, Now(), src, d, v, f);
          Kfree(f);
          ghost var u := Now();
          Freevm(d);
          Undone(r, u, Now(), src, d, v, 0);
          return 0;
        }
        PageCopied(r, m, Now(), src, d, v, f, pte.flags);
        KernelHalfKept(s, m, Now(), d, kmap, v, f, pte.flags);
        v := v + 1;
      }
      Enough(t0, n0, Tables(Now(), d), |freelist|, 0, hi);
    }

    /** Changes the size sz of the process whose directory is d by n bytes, in 32-bit arithmetic;
      * size is what the process is left with.  Pages and size agree afterwards in every case but
      * one: shrinking to exactly 0 unmaps every page, then fails and leaves the size as it was. */
    method Growproc(d: nat, sz: nat, n: int) returns (ok: bool, size: nat)
      requires Valid() && d in dirs && sz < USER * PGSIZE && -0x8000_0000 <= n < 0x8000_0000
      requires SizeIs(Now(), d, sz)
      modifies this
      ensures Valid() && d in dirs
      ensures SizeIs(Now(), d, size) <==> !(n < 0 && sz > 0 && sz + n == 0)
      ensures n < 0 && sz > 0 && sz + n == 0 ==> SizeIs(Now(), d, 0)
      ensures size == if ok && sz + n >= 0 then sz + n else sz
      ensures n <= 0 ==> (ok <==> n == 0 || (sz != 0 && sz + n != 0))
      ensures n > 0 && ok ==> Grown(old(Now()), Now(), d, RoundUp(sz), RoundUp(sz + n), 0)
      ensures n > 0 && !ok ==> AllSame(old(Now()), Now()) && MoreTables(old(Now()), Now(), d)
      ensures n == 0 ==> Now() == old(Now())
      ensures n < 0 && sz + n >= 0 ==> Cleared(old(Now()), Now(), d, RoundUp(sz + n), RoundUp(sz))
      ensures n < 0 && sz + n < 0 ==> Cleared(old(Now()), Now(), d, RoundUp(sz), RoundUp(sz))
      ensures n > 0 ==>
        (ok <==> sz + n < USER * PGSIZE
                 && Growth(Tables(old(Now()), d), RoundUp(sz), RoundUp(sz + n)) <= |old(freelist)|)
    {
      hide Ram.Inv, Ram.Lookup, Listed, Cleared, Grown, AllSame, MoreTables, SizeIs, Tables, Growth;
      ghost var r := Now();
      size := sz;
      if n > 0 {
        SizeAbsent(r, d, sz, sz + n);
        ghost var grown;
        size, grown := Allocuvm(d, sz, sz + n);
        SizeGrown(r, Now(), d, sz, sz + n, grown);
        if size == 0 {
          return false, sz;
        }
      } else if n < 0 {
        var newsz := (sz + n + 0x1_0000_0000) % 0x1_0000_0000;
        size := Deallocuvm(d, sz, newsz);
        if sz + n < 0 { ClearedNothing(r, Now(), d, RoundUp(newsz), RoundUp(sz)); }
        SizeShrunk(r, Now(), d, sz, newsz);
        if size == 0 {
          return false, sz;
        }
      }
      return true, size;
    }
  }

  lemma DirPage(r: Ram, d: nat)
    requires r.Inv() && d in r.dirs
    ensures d in r.mem && |r.mem[d]| == ENTRIES
  {
    assert r.HasRole(d, Dir) && r.FrameOk(d);
  }

  lemma TableFrame(r: Ram, d: nat, i: nat)
    requires r.Inv() && d in r.dirs && i < ENTRIES && Present(r.Entry(d, i))
    ensures r.Entry(d, i).frame > 0
  {
    assert r.EntryOk(d, i) && r.FrameOk(r.Entry(d, i).frame);
  }

  lemma TabledIs(m: Ram, d: nat, i: nat, t: nat)
    requires d in m.mem && i < |m.mem[d]| && t in m.mem && m.mem[t] == Filled(ZeroWord) && t != d
    ensures m.Tabled(d, i, t)
            == m.(mem := m.mem[d := m.mem[d][i := Word(t, 7)]], role := m.role[t := Table(d, i)])
  {
  }

  /** Taking a zeroed frame t and entering it as table i of d. */
  lemma NewTable(r: Ram, m: Ram, d: nat, i: nat, t: nat)
    requires r.Inv() && m.Inv() && AllSame(r, m) && d in r.dirs && i < ENTRIES && !Present(r.Entry(d, i))
    requires r.HasRole(t, Free) && m == r.Handed(t, Held, Filled(ZeroWord))
    ensures d in m.mem && |m.mem[d]| == ENTRIES && t in m.mem && t != d
    ensures m.Tabled(d, i, t).Inv() && AllSame(r, m.Tabled(d, i, t)) && MoreTables(r, m.Tabled(d, i, t), d)
    ensures m.Tabled(d, i, t).Entry(d, i) == Word(t, 7) && t > 0
    ensures SameTables(r, m) ==> Tables(m.Tabled(d, i, t), d) == Tables(r, d) + {i}
  {
    assert r.HasRole(d, Dir) && r.FrameOk(t);
    TabledKeeps(m, d, i, t);
    var s := m.Tabled(d, i, t);
    AllSameTwice(r, m, s);
    forall f | f in r.role ensures KeptOrTable(r, s, d, f) {
      assert r.FrameOk(f);
    }
  }

  lemma ListStays(r: Ram, s: Ram, list: seq<nat>)
    requires ListedAt(r, list) && s.mem.Keys == r.mem.Keys && s.role.Keys == r.role.Keys
    requires forall f :: f in r.role ==> (r.role[f] == Free <==> s.role[f] == Free)
    ensures ListedAt(s, list)
  {
  }

  lemma UserPageMade(r: Ram, m: Ram, d: nat, v: nat, w: Word)
    requires r.Inv() && m.Inv() && AllSame(r, m) && MoreTables(r, m, d) && d in r.dirs && v < USER
    requires Present(m.Entry(d, Pdx(v))) && !Present(r.Lookup(d, v)) && Present(w) && r.HasRole(w.frame, Held)
    ensures var t := m.Entry(d, Pdx(v)).frame; t in m.mem && |m.mem[t]| == ENTRIES
    ensures m.HasRole(w.frame, Held) && m.mem.Keys == m.role.Keys
    ensures var s := m.Written(d, v, w).SetRole(w.frame, User(d, v));
      s.Inv() && PagesMapped(r, s, d, v, 1, w.frame, w.flags) && Tables(s, d) == Tables(m, d)
  {
    hide Ram.Lookup, Ram.Entry;
    assert SameLookup(r, m, d, v);
    assert KeptOrTable(r, m, d, w.frame) && m.FrameOk(w.frame);
    UserMapped(m, d, v, w);
    WrittenLookup(m, d, v, w);
    var s := m.Written(d, v, w).SetRole(w.frame, User(d, v));
    TablesKept(m, s) by {
      forall e, i: nat | e in m.dirs && i < ENTRIES ensures SameEntry(m, s, e, i) {
        assert SameEntry(m, m.Written(d, v, w), e, i);
        RoleNoEntry(m.Written(d, v, w), w.frame, User(d, v), e, i);
      }
    }
    forall e, x: nat | e in r.dirs && x < PAGES ensures MappedPage(r, s, d, v, 1, w.frame, w.flags, e, x) {
      assert SameLookup(r, m, e, x);
      if !(e == d && x == v) { assert SameLookup(m, s, e, x); }
    }
    forall f | f in r.role ensures MappedFrame(r, s, d, v, 1, w.frame, f) {
      assert KeptOrTable(r, m, d, f);
    }
  }

  lemma RoleNoEntry(r: Ram, f: nat, x: Role, d: nat, i: nat)
    ensures r.SetRole(f, x).Entry(d, i) == r.Entry(d, i)
  {
  }

  lemma KernelPageMade(r: Ram, m: Ram, d: nat, v: nat, w: Word)
    requires r.Inv() && m.Inv() && AllSame(r, m) && MoreTables(r, m, d) && d in r.dirs && USER <= v < PAGES
    requires Present(m.Entry(d, Pdx(v)))
    ensures var t := m.Entry(d, Pdx(v)).frame; t in m.mem && |m.mem[t]| == ENTRIES
    ensures m.mem.Keys == m.role.Keys
    ensures var s := m.Written(d, v, w);
      s.Inv() && PagesMapped(r, s, d, v, 1, w.frame, w.flags) && Tables(s, d) == Tables(m, d)
  {
    KernelMapped(m, d, v, w);
    WrittenLookup(m, d, v, w);
    var s := m.Written(d, v, w);
    forall e, x: nat | e in r.dirs && x < PAGES ensures MappedPage(r, s, d, v, 1, w.frame, w.flags, e, x) {
      assert SameLookup(r, m, e, x);
      if !(e == d && x == v) { assert SameLookup(m, s, e, x); }
    }
    forall f | f in r.role ensures KeptOrTable(r, s, d, f) {
      assert KeptOrTable(r, m, d, f);
    }
  }

  lemma Halves(va: nat, size: nat)
    requires size > 0 && va + size <= PAGES * PGSIZE
    ensures va / PGSIZE <= (va + size - 1) / PGSIZE < PAGES
    ensures va < USER * PGSIZE <==> va / PGSIZE < USER
  {
  }

  lemma NoPages(r: Ram, d: nat, a: nat, pf: nat, flags: Flags)
    requires r.Inv()
    ensures PagesMapped(r, r, d, a, 0, pf, flags)
  {
    Untouched(r, d);
    NoneMapped(r, r, d, a, pf, flags);
  }

  lemma NoneMapped(r: Ram, s: Ram, d: nat, a: nat, pf: nat, flags: Flags)
    requires AllSame(r, s) && MoreTables(r, s, d)
    ensures PagesMapped(r, s, d, a, 0, pf, flags)
  {
    forall e, x: nat | e in r.dirs && x < PAGES ensures MappedPage(r, s, d, a, 0, pf, flags, e, x) {
      assert SameLookup(r, s, e, x);
    }
    forall f | f in r.role ensures MappedFrame(r, s, d, a, 0, pf, f) {
      assert KeptOrTable(r, s, d, f);
    }
  }

  lemma StillAbsent(r: Ram, m: Ram, d: nat, a: nat, n: nat, pf: nat, flags: Flags, x: nat)
    requires PagesMapped(r, m, d, a, n, pf, flags) && d in r.dirs && a + n <= x < PAGES && !Present(r.Lookup(d, x))
    ensures !Present(m.Lookup(d, x)) && m.dirs == r.dirs
  {
    assert MappedPage(r, m, d, a, n, pf, flags, d, x);
  }

  /** The next frame is still held. */
  lemma StillHeldFor(r: Ram, m: Ram, d: nat, a: nat, n: nat, all: nat, pf: nat, flags: Flags, f: nat)
    requires PagesMapped(r, m, d, a, n, pf, flags) && AllHeld(r, a, all, pf) && n < all && f == pf + n
    ensures a + n < USER ==> m.HasRole(f, Held)
  {
    if a + n < USER {
      assert ForUser(a, all, pf, f);
      assert MappedFrame(r, m, d, a, n, pf, f);
    }
  }

  lemma MappedTwice(r: Ram, m: Ram, s: Ram, d: nat, a: nat, n: nat, k: nat, pf: nat, flags: Flags, all: nat)
    requires PagesMapped(r, m, d, a, n, pf, flags) && PagesMapped(m, s, d, a + n, k, pf + n, flags)
    requires AllHeld(r, a, all, pf) && n + k <= all
    ensures PagesMapped(r, s, d, a, n + k, pf, flags) && s.dirs == r.dirs
  {
    var b, j, pg := a + n, n + k, pf + n;
    forall e, x: nat | e in r.dirs && x < PAGES ensures MappedPage(r, s, d, a, j, pf, flags, e, x) {
      assert MappedPage(r, m, d, a, n, pf, flags, e, x);
      assert MappedPage(m, s, d, b, k, pg, flags, e, x);
    }
    forall f | f in r.role ensures MappedFrame(r, s, d, a, j, pf, f) {
      assert MappedFrame(r, m, d, a, n, pf, f);
      assert MappedFrame(m, s, d, b, k, pg, f);
      assert ForUser(a, j, pf, f) ==> ForUser(a, all, pf, f);
    }
  }

  // ---- what mappages is used for ----

  lemma OneHeld(r: Ram, v: nat, f: nat)
    requires r.HasRole(f, Held)
    ensures PagesOf(v * PGSIZE, PGSIZE) == 1 && AllHeld(r, v, 1, f)
    ensures v * PGSIZE / PGSIZE == v && f * PGSIZE / PGSIZE == f
  {
  }

  /** One user page, or nothing. */
  lemma AsUserPage(r: Ram, s: Ram, d: nat, v: nat, n: nat, f: nat, flags: Flags)
    requires PagesMapped(r, s, d, v, n, f, flags) && n <= 1 && v < USER && d in r.dirs && r.HasRole(f, Held)
    ensures n == 1 ==> UserPage(r, s, d, v, Word(f, flags))
    ensures n == 0 ==> AllSame(r, s) && MoreTables(r, s, d)
  {
    assert MappedPage(r, s, d, v, n, f, flags, d, v) && MappedFrame(r, s, d, v, n, f, f);
    forall e, x: nat | e in r.dirs && x < PAGES && (n == 0 || !(e == d && x == v)) ensures SameLookup(r, s, e, x) {
      assert MappedPage(r, s, d, v, n, f, flags, e, x);
    }
    forall g | g in r.role && (n == 0 || g != f) ensures KeptOrTable(r, s, d, g) {
      assert MappedFrame(r, s, d, v, n, f, g);
    }
  }

  lemma KernelRegion(r: Ram, g: Region)
    requires RegionOk(g)
    ensures AllHeld(r, g.virt / PGSIZE, PagesOf(g.virt, Bytes(g)), g.start / PGSIZE)
  {
  }

  /** Pages of the kernel's half, all of them or some. */
  lemma AsKernelPages(r: Ram, s: Ram, d: nat, a: nat, n: nat, pf: nat, flags: Flags)
    requires PagesMapped(r, s, d, a, n, pf, flags) && a >= USER
    ensures KernelPages(r, s, d, a, n, pf, flags) && KernelOnly(r, s, d)
  {
    forall f | f in r.role ensures KeptOrTable(r, s, d, f) {
      assert MappedFrame(r, s, d, a, n, pf, f);
    }
    forall e, x: nat | e in r.dirs && x < PAGES && (e != d || x < USER) ensures SameLookup(r, s, e, x) {
      assert MappedPage(r, s, d, a, n, pf, flags, e, x);
    }
  }

  /** An empty range is any other empty range. */
  lemma ClearedNothing(r: Ram, s: Ram, d: nat, lo: nat, hi: nat)
    requires Cleared(r, s, d, lo, hi) && hi <= lo
    ensures Cleared(r, s, d, hi, hi)
  {
    forall e, x: nat | e in r.dirs && x < PAGES ensures ClearedPage(r, s, d, hi, hi, e, x) {
      assert ClearedPage(r, s, d, lo, hi, e, x);
    }
    forall f | f in r.role ensures ClearedFrame(r, s, d, hi, hi, f) {
      assert ClearedFrame(r, s, d, lo, hi, f);
    }
  }

  lemma NothingCleared(r: Ram, d: nat, lo: nat, hi: nat)
    requires r.Inv() && hi <= lo
    ensures Cleared(r, r, d, lo, hi)
  {
    forall e, x: nat | e in r.dirs && x < PAGES ensures ClearedPage(r, r, d, lo, hi, e, x) {
    }
    forall f | f in r.role ensures ClearedFrame(r, r, d, lo, hi, f) {
      assert r.FrameOk(f);
    }
  }

  lemma EntryIs(m: Ram, d: nat, v: nat)
    requires m.Inv() && d in m.dirs && v < PAGES && Present(m.Entry(d, Pdx(v)))
    ensures var t := m.Entry(d, Pdx(v)).frame;
      t in m.mem && |m.mem[t]| == ENTRIES && m.mem[t][Ptx(v)] == m.Lookup(d, v)
    ensures Pdx(v) < ENTRIES
  {
    Split(v, v);
    WrittenLookup(m, d, v, ZeroWord);
  }

  lemma FreedThenWritten(m: Ram, d: nat, v: nat)
    requires m.Inv() && d in m.dirs && v < USER && Present(m.Lookup(d, v))
    ensures Present(m.Entry(d, Pdx(v)))
    ensures var t, f := m.Entry(d, Pdx(v)).frame, m.Lookup(d, v).frame;
      && t in m.mem && |m.mem[t]| == ENTRIES && t != f
      && m.Handed(f, Free, Filled(JunkWord)).mem == m.mem[f := Filled(JunkWord)]
      && m.Handed(f, Free, Filled(JunkWord)).role == m.role[f := Free]
      && m.Handed(f, Free, Filled(JunkWord)).dirs == m.dirs
      && m.Written(d, v, ZeroWord).Handed(f, Free, Filled(JunkWord))
         == m.(mem := m.mem[f := Filled(JunkWord)][t := m.mem[t][Ptx(v) := ZeroWord]], role := m.role[f := Free])
  {
    UserUnmapped(m, d, v);
  }

  /** Without a table no page of the whole region is mapped. */
  lemma Skipped(r: Ram, m: Ram, d: nat, lo: nat, v: nat, hi: nat)
    requires r.Inv() && m.Inv() && d in r.dirs && hi <= USER && lo <= v < hi && Cleared(r, m, d, lo, v)
    requires !Present(m.Entry(d, Pdx(v)))
    ensures Cleared(r, m, d, lo, Min((Pdx(v) + 1) * ENTRIES, hi))
    ensures v < (Pdx(v) + 1) * ENTRIES <= USER
  {
    RegionEnd(v);
    var end := Min((Pdx(v) + 1) * ENTRIES, hi);
    forall x: nat | v <= x < end ensures m.Lookup(d, x) == ZeroWord {
      SameRegion(v, x);
    }
    forall e, x: nat | e in r.dirs && x < PAGES ensures ClearedPage(r, m, d, lo, end, e, x) {
      assert ClearedPage(r, m, d, lo, v, e, x);
    }
    forall f | f in r.role ensures ClearedFrame(r, m, d, lo, end, f) {
      assert ClearedFrame(r, m, d, lo, v, f);
      if f in m.role { assert m.FrameOk(f); }
    }
  }

  lemma RegionEnd(v: nat)
    requires v < USER
    ensures v < (Pdx(v) + 1) * ENTRIES <= USER
  {
  }

  lemma SameRegion(v: nat, x: nat)
    requires v <= x < (Pdx(v) + 1) * ENTRIES
    ensures Pdx(x) == Pdx(v)
  {
  }

  lemma OnePageFreed(r: Ram, m: Ram, d: nat, lo: nat, v: nat)
    requires r.Inv() && m.Inv() && d in r.dirs && lo <= v < USER && Cleared(r, m, d, lo, v) && Present(m.Lookup(d, v))
    ensures Present(m.Entry(d, Pdx(v)))
    ensures var t, f := m.Entry(d, Pdx(v)).frame, m.Lookup(d, v).frame;
      && t in m.mem && |m.mem[t]| == ENTRIES && m.HasRole(f, User(d, v)) && f in m.mem && t != f
      && var s := m.Written(d, v, ZeroWord).Handed(f, Free, Filled(JunkWord));
      s.Inv() && Cleared(r, s, d, lo, v + 1)
  {
    hide Ram.Lookup, Ram.Entry;
    UserUnmapped(m, d, v);
    var t, f, end := m.Entry(d, Pdx(v)).frame, m.Lookup(d, v).frame, v + 1;
    assert m.FrameOk(f);
    var s := m.Written(d, v, ZeroWord).Handed(f, Free, Filled(JunkWord));
    WrittenLookup(m, d, v, ZeroWord);
    forall e, x: nat | e in r.dirs && x < PAGES ensures ClearedPage(r, s, d, lo, end, e, x) {
      assert ClearedPage(r, m, d, lo, v, e, x);
      if !(e == d && x == v) { assert SameLookup(m, s, e, x); }
    }
    OneFrameFreed(r, m, s, d, lo, v, t, f);
  }

  lemma OneFrameFreed(r: Ram, m: Ram, s: Ram, d: nat, lo: nat, v: nat, t: nat, f: nat)
    requires m.HasRole(f, User(d, v)) && m.HasRole(t, Table(d, Pdx(v))) && lo <= v && s.role == m.role[f := Free]
    requires m.mem.Keys == m.role.Keys && m.Frames() && m.Lookup(d, v).frame == f
    requires forall g :: g in m.mem && g != f && g != t ==> g in s.mem && s.mem[g] == m.mem[g]
    requires m.role.Keys == r.role.Keys
    requires forall g :: g in r.role ==> ClearedFrame(r, m, d, lo, v, g)
    ensures forall g :: g in r.role ==> ClearedFrame(r, s, d, lo, v + 1, g)
  {
    var end := v + 1;
    forall g | g in r.role ensures ClearedFrame(r, s, d, lo, end, g) {
      assert ClearedFrame(r, m, d, lo, v, g);
    }
  }


  lemma OnePageAbsent(r: Ram, m: Ram, d: nat, lo: nat, v: nat)
    requires r.Inv() && m.Inv() && d in r.dirs && lo <= v < USER && Cleared(r, m, d, lo, v) && !Present(m.Lookup(d, v))
    ensures Cleared(r, m, d, lo, v + 1)
  {
    var end := v + 1;
    assert m.UserOk(d, v);
    forall e, x: nat | e in r.dirs && x < PAGES ensures ClearedPage(r, m, d, lo, end, e, x) {
      assert ClearedPage(r, m, d, lo, v, e, x);
    }
    forall f | f in r.role ensures ClearedFrame(r, m, d, lo, end, f) {
      assert ClearedFrame(r, m, d, lo, v, f);
      if f in m.role { assert m.FrameOk(f); }
    }
  }

  lemma Rounded(size: nat)
    requires size < USER * PGSIZE
    ensures RoundUp(size) <= USER
    ensures forall v: nat :: v * PGSIZE < size <==> v < RoundUp(size)
  {
  }

  lemma AbsentIs(r: Ram, d: nat, lo: nat, hi: nat)
    requires r.Inv() && d in r.dirs && hi <= USER && forall x: nat :: lo <= x < hi ==> !Present(r.Lookup(d, x))
    ensures Absent(r, d, lo, hi)
  {
    forall x: nat | lo <= x < hi ensures r.Lookup(d, x) == ZeroWord {
      assert r.UserOk(d, x);
    }
  }

  lemma NothingGrown(r: Ram, d: nat, lo: nat)
    requires r.Inv()
    ensures Grown(r, r, d, lo, lo, 0)
  {
    Untouched(r, d);
    forall e, x: nat | e in r.dirs && x < PAGES ensures GrownPage(r, r, d, lo, lo, e, x) {
    }
    forall f | f in r.role ensures GrownFrame(r, r, d, lo, lo, 0, f) {
      assert KeptOrTable(r, r, d, f);
    }
  }

  lemma FrameTaken(r: Ram, m: Ram, m1: Ram, d: nat, lo: nat, v: nat, hi: nat, f: nat)
    requires r.Inv() && m.Inv() && Grown(r, m, d, lo, v, 0) && AllSame(m, m1) && d in r.dirs && lo <= v < hi <= USER
    requires m.HasRole(f, Free) && m1 == m.Handed(f, Held, Filled(ZeroWord)) && Absent(r, d, lo, hi)
    requires m1.Inv()
    ensures Grown(r, m1, d, lo, v, f) && m1.HasRole(f, Held) && m1.dirs == r.dirs && f in r.role
    ensures !Present(m1.Lookup(d, v)) && r.HasRole(f, Free) && f in m1.mem && m1.mem[f] == Filled(ZeroWord)
  {
    Filling(r, m);
    assert m.FrameOk(f);
    assert GrownFrame(r, m, d, lo, v, 0, f);
    forall e, x: nat | e in r.dirs && x < PAGES ensures GrownPage(r, m1, d, lo, v, e, x) {
      assert GrownPage(r, m, d, lo, v, e, x) && SameLookup(m, m1, e, x);
      if e == d && lo <= x < v { assert m.UserOk(d, x); }
    }
    forall g | g in r.role ensures GrownFrame(r, m1, d, lo, v, f, g) {
      assert GrownFrame(r, m, d, lo, v, 0, g);
    }
    assert GrownPage(r, m1, d, lo, v, d, v);
  }

  lemma Filling(r: Ram, m: Ram)
    requires r.Inv() && m.Inv()
    ensures 0 !in r.role && 0 !in m.role
  {
    assert 0 in r.role ==> r.FrameOk(0);
    assert 0 in m.role ==> m.FrameOk(0);
  }

  lemma PageGrown(r: Ram, m1: Ram, s: Ram, d: nat, lo: nat, v: nat, f: nat)
    requires Grown(r, m1, d, lo, v, f) && UserPage(m1, s, d, v, Word(f, 7)) && s.Inv() && m1.Inv()
    requires d in r.dirs && lo <= v < USER && r.HasRole(f, Free) && m1.HasRole(f, Held)
    requires f in m1.mem && m1.mem[f] == Filled(ZeroWord)
    ensures Grown(r, s, d, lo, v + 1, 0) && s.dirs == r.dirs
  {
    hide Ram.Lookup, Ram.Entry, Filled;
    var end := v + 1;
    forall e, x: nat | e in r.dirs && x < PAGES ensures GrownPage(r, s, d, lo, end, e, x) {
      assert GrownPage(r, m1, d, lo, v, e, x);
      if !(e == d && x == v) {
        assert SameLookup(m1, s, e, x);
        if e == d && lo <= x < v {
          var g := m1.Lookup(d, x).frame;
          assert m1.UserOk(d, x) && s.UserOk(d, x) && m1.HasRole(g, User(d, x));
          assert KeptOrTable(m1, s, d, g);
        }
      }
    }
    forall g | g in r.role ensures GrownFrame(r, s, d, lo, end, 0, g) {
      assert GrownFrame(r, m1, d, lo, v, f, g);
      if g != f { assert KeptOrTable(m1, s, d, g); }
    }
  }

  lemma GrownMore(r: Ram, m: Ram, s: Ram, d: nat, lo: nat, v: nat, f: nat)
    requires Grown(r, m, d, lo, v, f) && AllSame(m, s) && MoreTables(m, s, d) && m.Inv() && s.Inv() && v <= USER
    ensures Grown(r, s, d, lo, v, f)
  {
    hide Ram.Lookup, Ram.Entry, Filled;
    forall e, x: nat | e in r.dirs && x < PAGES ensures GrownPage(r, s, d, lo, v, e, x) {
      assert GrownPage(r, m, d, lo, v, e, x) && SameLookup(m, s, e, x);
      if e == d && lo <= x < v {
        assert m.UserOk(d, x) && KeptOrTable(m, s, d, m.Lookup(d, x).frame);
      }
    }
    forall g | g in r.role ensures GrownFrame(r, s, d, lo, v, f, g) {
      assert GrownFrame(r, m, d, lo, v, f, g) && KeptOrTable(m, s, d, g);
    }
  }

  /** Shrinking undoes growing, but for the tables. */
  lemma RolledBack(r: Ram, m: Ram, s: Ram, d: nat, lo: nat, v: nat, hi: nat, h: nat)
    requires Grown(r, m, d, lo, v, h) && Cleared(m, s, d, lo, hi) && v <= hi <= USER && Absent(r, d, lo, hi)
    requires r.Inv() && m.Inv()
    ensures Grown(r, s, d, lo, lo, h)
  {
    forall e, x: nat | e in r.dirs && x < PAGES ensures GrownPage(r, s, d, lo, lo, e, x) {
      assert GrownPage(r, m, d, lo, v, e, x) && ClearedPage(m, s, d, lo, hi, e, x);
    }
    forall f | f in r.role ensures GrownFrame(r, s, d, lo, lo, h, f) {
      assert GrownFrame(r, m, d, lo, v, h, f) && ClearedFrame(m, s, d, lo, hi, f);
      assert r.FrameOk(f);
    }
  }

  lemma StillHeld(a: Ram, b: Ram, c: Ram, d: nat, lo: nat, hi: nat, f: nat)
    requires MoreTables(a, b, d) && Cleared(b, c, d, lo, hi) && a.HasRole(f, Held)
    ensures c.HasRole(f, Held)
  {
    assert KeptOrTable(a, b, d, f) && ClearedFrame(b, c, d, lo, hi, f);
  }

  lemma NoneHeld(r: Ram, s: Ram, d: nat, lo: nat)
    requires Grown(r, s, d, lo, lo, 0) && r.Inv()
    ensures AllSame(r, s) && MoreTables(r, s, d)
  {
    Filling(r, r);
    forall e, x: nat | e in r.dirs && x < PAGES ensures SameLookup(r, s, e, x) {
      assert GrownPage(r, s, d, lo, lo, e, x);
    }
    forall f | f in r.role ensures KeptOrTable(r, s, d, f) {
      assert GrownFrame(r, s, d, lo, lo, 0, f);
    }
  }

  /** The frame that found no table goes back. */
  lemma Dropped(r: Ram, m: Ram, d: nat, lo: nat, f: nat)
    requires Grown(r, m, d, lo, lo, f) && r.HasRole(f, Free) && m.HasRole(f, Held) && r.Inv() && m.Inv()
    ensures var s := m.Handed(f, Free, Filled(JunkWord));
      s.Inv() && AllSame(r, s) && MoreTables(r, s, d)
  {
    HandedKeeps(m, f, Free, Filled(JunkWord));
    assert m.FrameOk(f);
    var s := m.Handed(f, Free, Filled(JunkWord));
    forall e, x: nat | e in r.dirs && x < PAGES ensures SameLookup(r, s, e, x) {
      assert GrownPage(r, m, d, lo, lo, e, x) && SameLookup(m, s, e, x);
    }
    forall g | g in r.role ensures KeptOrTable(r, s, d, g) {
      assert GrownFrame(r, m, d, lo, lo, f, g);
    }
  }

  /** The tables for entries below i are free. */
  ghost predicate Torn(m: Ram, s: Ram, d: nat, i: nat) {
    && s.dirs == m.dirs - {d} && s.role.Keys == m.role.Keys && AllSame(s, m)
    && d in m.mem && d in s.mem && s.mem[d] == m.mem[d] && |m.mem[d]| == ENTRIES
    && forall f :: f in m.role ==> TornTo(m, s, d, i, f)
  }

  ghost predicate TornTo(m: Ram, s: Ram, d: nat, i: nat, f: nat)
    requires f in m.role
  {
    match m.role[f]
    case Dir => s.HasRole(f, if f == d then Doomed(d, ENTRIES) else Dir)
    case Table(e, j) => s.HasRole(f, if e != d then Table(e, j) else if j < i then Free else Doomed(d, j))
    case User(e, _) => e != d && FrameKept(m, s, f)
    case _ => FrameKept(m, s, f)
  }

  lemma CondemnedIs(m: Ram, d: nat)
    ensures Condemned(m, d).mem == m.mem
  {
  }

  lemma Condemning(r: Ram, m: Ram, d: nat)
    requires r.Inv() && m.Inv() && d in r.dirs && Cleared(r, m, d, RoundUp(0), RoundUp(USER * PGSIZE))
    ensures d in m.dirs && Condemned(m, d).Inv() && Torn(m, Condemned(m, d), d, 0)
  {
    forall v: nat | v < USER ensures !Present(m.Lookup(d, v)) {
      assert ClearedPage(r, m, d, RoundUp(0), RoundUp(USER * PGSIZE), d, v);
    }
    CondemnedKeeps(m, d);
    DirPage(m, d);
    var s := Condemned(m, d);
    forall f | f in m.role ensures TornTo(m, s, d, 0, f) {
      assert m.FrameOk(f);
    }
  }

  lemma ListCondemned(m: Ram, d: nat, list: seq<nat>)
    requires ListedAt(m, list)
    ensures ListedAt(Condemned(m, d), list)
  {
  }

  lemma TearStep(m: Ram, s: Ram, d: nat, i: nat)
    requires m.Inv() && s.Inv() && Torn(m, s, d, i) && i < ENTRIES && d in m.dirs
    ensures d in s.mem && |s.mem[d]| == ENTRIES
    ensures var w := s.mem[d][i];
      if Present(w) then
        s.HasRole(w.frame, Doomed(d, i)) && w.frame in s.mem
        && s.Handed(w.frame, Free, Filled(JunkWord)).Inv()
        && Torn(m, s.Handed(w.frame, Free, Filled(JunkWord)), d, i + 1)
      else Torn(m, s, d, i + 1)
  {
    var w, n := m.Entry(d, i), i + 1;
    if Present(w) {
      assert m.EntryOk(d, i) && m.HasRole(d, Dir);
      assert TornTo(m, s, d, i, w.frame);
      var t := s.Handed(w.frame, Free, Filled(JunkWord));
      HandedKeeps(s, w.frame, Free, Filled(JunkWord));
      assert s.FrameOk(w.frame);
      forall e, x: nat | e in t.dirs && x < PAGES ensures SameLookup(t, m, e, x) {
        assert SameLookup(s, t, e, x) && SameLookup(s, m, e, x);
      }
      forall f | f in m.role ensures TornTo(m, t, d, n, f) {
        assert TornTo(m, s, d, i, f) && m.FrameOk(f);
      }
    } else {
      forall f | f in m.role ensures TornTo(m, s, d, n, f) {
        assert TornTo(m, s, d, i, f) && m.FrameOk(f);
      }
    }
  }

  lemma TearLast(r: Ram, m: Ram, s: Ram, d: nat)
    requires r.Inv() && m.Inv() && s.Inv() && d in r.dirs
    requires Cleared(r, m, d, RoundUp(0), RoundUp(USER * PGSIZE)) && Torn(m, s, d, ENTRIES)
    ensures s.HasRole(d, Doomed(d, ENTRIES))
    ensures var t := s.Handed(d, Free, Filled(JunkWord)); t.Inv() && TornDown(r, t, d)
  {
    var t := s.Handed(d, Free, Filled(JunkWord));
    assert r.HasRole(d, Dir) && m.HasRole(d, Dir) && TornTo(m, s, d, ENTRIES, d) && s.FrameOk(d);
    HandedKeeps(s, d, Free, Filled(JunkWord));
    forall e, x: nat | e in t.dirs && x < PAGES ensures SameLookup(t, r, e, x) {
      assert SameLookup(s, t, e, x) && SameLookup(s, m, e, x);
      assert ClearedPage(r, m, d, RoundUp(0), RoundUp(USER * PGSIZE), e, x);
    }
    forall f | f in r.role ensures TornFrame(r, t, d, f) {
      assert r.FrameOk(f) && m.FrameOk(f);
      assert ClearedFrame(r, m, d, RoundUp(0), RoundUp(USER * PGSIZE), f);
      assert TornTo(m, s, d, ENTRIES, f);
    }
  }

  lemma RestoredItself(r: Ram)
    requires r.Inv()
    ensures Restored(r, r)
  {
    Untouched(r, 0);
    forall f | f in r.role ensures FrameKept(r, r, f) {
      assert r.FrameOk(f);
    }
  }

  lemma FoundedIs(m: Ram, d: nat)
    requires d in m.mem && m.mem[d] == Filled(ZeroWord)
    ensures m.Founded(d).mem == m.mem && m.Founded(d).role == m.role[d := Dir] && m.Founded(d).dirs == m.dirs + {d}
  {
  }

  lemma Founding(r: Ram, m: Ram, d: nat, kmap: seq<Region>)
    requires r.Inv() && m.Inv() && AllSame(r, m) && r.HasRole(d, Free) && m == r.Handed(d, Held, Filled(ZeroWord))
    ensures m.HasRole(d, Held) && d in m.mem && m.mem[d] == Filled(ZeroWord) && m.mem.Keys == m.role.Keys
    ensures d > 0 && m.Founded(d).Inv() && Copying(r, m.Founded(d), 0, d, 0, 0) && KernelHalf(m.Founded(d), d, kmap, 0)
  {
    assert r.FrameOk(d);
    FoundedKeeps(m, d);
    var s := m.Founded(d);
    AllSameTwice(r, m, s);
    forall x: nat | x < USER ensures CopiedPage(r, s, 0, d, 0, x) {
    }
    forall x: nat | USER <= x < PAGES ensures KernelEntry(s, d, kmap[..0], x) {
    }
    forall f | f in r.role ensures CopiedFrame(r, s, d, 0, f) {
      assert r.FrameOk(f);
    }
  }

  lemma {:induction false} Ordered(kmap: seq<Region>, i: nat, j: nat)
    requires KmapOk(kmap) && i < j < |kmap|
    ensures kmap[i].virt / PGSIZE + PagesIn(kmap[i]) <= kmap[j].virt / PGSIZE
    decreases j - i
  {
    assert Apart(kmap[i], kmap[i + 1]) && RegionOk(kmap[i + 1]);
    if i + 1 < j {
      Ordered(kmap, i + 1, j);
    }
  }

  lemma {:induction false} NotYet(kmap: seq<Region>, k: nat, j: nat, x: nat)
    requires KmapOk(kmap) && j <= k < |kmap| && InRegion(kmap[k], x)
    ensures KernelWord(kmap[..j], x) == ZeroWord
  {
    if j > 0 {
      Ordered(kmap, j - 1, k);
      assert kmap[..j][..j - 1] == kmap[..j - 1];
      NotYet(kmap, k, j - 1, x);
    }
  }

  /** A new directory has no tables. */
  lemma NoTables(m: Ram, d: nat, kmap: seq<Region>, n0: nat)
    ensures Tables(m.Founded(d), d) == {} && Paid({}, n0, {}, n0, KernelTables(kmap[..0]))
  {
    assert forall i: nat :: i < ENTRIES ==> m.Founded(d).Entry(d, i) == ZeroWord;
    var none: set<nat> := {};
    assert none - {} == {};
  }

  lemma RegionAbsent(s: Ram, d: nat, kmap: seq<Region>, k: nat)
    requires KmapOk(kmap) && k < |kmap| && KernelHalf(s, d, kmap, k)
    ensures RegionOk(kmap[k])
    ensures var g := kmap[k];
      && g.start % PGSIZE == 0 && g.virt >= USER * PGSIZE && Bytes(g) > 0 && g.virt + Bytes(g) <= PAGES * PGSIZE
      && forall x: nat :: g.virt / PGSIZE <= x <= (g.virt + Bytes(g) - 1) / PGSIZE ==> !Present(s.Lookup(d, x))
  {
    var g := kmap[k];
    assert RegionOk(g);
    Halves(g.virt, Bytes(g));
    forall x: nat | g.virt / PGSIZE <= x <= (g.virt + Bytes(g) - 1) / PGSIZE ensures !Present(s.Lookup(d, x)) {
      NotYet(kmap, k, k, x);
      assert KernelEntry(s, d, kmap[..k], x);
    }
  }

  lemma CopyingMore(r: Ram, s: Ram, t: Ram, d: nat)
    requires Copying(r, s, 0, d, 0, 0) && KernelOnly(s, t, d)
    ensures Copying(r, t, 0, d, 0, 0)
  {
    forall e, x: nat | e in r.dirs && x < PAGES ensures SameLookup(r, t, e, x) {
      assert SameLookup(r, s, e, x) && SameLookup(s, t, e, x);
    }
    forall x: nat | x < USER ensures CopiedPage(r, t, 0, d, 0, x) {
      assert CopiedPage(r, s, 0, d, 0, x) && SameLookup(s, t, d, x);
    }
    forall f | f in r.role ensures CopiedFrame(r, t, d, 0, f) {
      assert CopiedFrame(r, s, d, 0, f) && KeptOrTable(s, t, d, f);
    }
  }

  lemma RegionFailed(r: Ram, s: Ram, t: Ram, d: nat)
    requires Copying(r, s, 0, d, 0, 0) && KernelOnly(s, t, d)
    ensures Copying(r, t, 0, d, 0, 0) && d in t.dirs
  {
    CopyingMore(r, s, t, d);
  }

  lemma RegionMapped(r: Ram, s: Ram, t: Ram, d: nat, kmap: seq<Region>, k: nat)
    requires KmapOk(kmap) && k < |kmap| && Copying(r, s, 0, d, 0, 0) && KernelHalf(s, d, kmap, k)
    requires Bytes(kmap[k]) > 0
    requires var g := kmap[k];
      KernelPages(s, t, d, g.virt / PGSIZE, PagesOf(g.virt, Bytes(g)), g.start / PGSIZE, WithP(g.perm))
    ensures Copying(r, t, 0, d, 0, 0) && KernelHalf(t, d, kmap, k + 1) && d in t.dirs
  {
    var g := kmap[k];
    assert RegionOk(g);
    var a, n, pf, flags := g.virt / PGSIZE, PagesOf(g.virt, Bytes(g)), g.start / PGSIZE, WithP(g.perm);
    assert a >= USER;
    forall e, x: nat | e in s.dirs && x < PAGES && (e != d || x < USER) ensures SameLookup(s, t, e, x) {
      assert MappedPage(s, t, d, a, n, pf, flags, e, x);
    }
    CopyingMore(r, s, t, d);
    var done := kmap[..k + 1];
    assert done[..k] == kmap[..k];
    forall x: nat | USER <= x < PAGES ensures KernelEntry(t, d, done, x) {
      assert MappedPage(s, t, d, a, n, pf, flags, d, x) && KernelEntry(s, d, kmap[..k], x);
    }
  }

  /** Freeing a directory made since r leaves r's roles exactly. */
  lemma Undone(r: Ram, t: Ram, s: Ram, src: nat, d: nat, n: nat, h: nat)
    requires r.Inv() && t.Inv() && Copying(r, t, src, d, n, h) && h == 0 && TornDown(t, s, d)
    ensures Restored(r, s)
  {
    Filling(r, t);
    forall e, x: nat | e in r.dirs && x < PAGES ensures SameLookup(r, s, e, x) {
      assert SameLookup(r, t, e, x) && SameLookup(s, t, e, x);
    }
    forall f | f in r.role ensures FrameKept(r, s, f) {
      assert CopiedFrame(r, t, d, h, f) && TornFrame(t, s, d, f);
      assert r.FrameOk(f);
    }
    assert s.role == r.role;
  }

  lemma RoundedUp(size: nat)
    requires size <= USER * PGSIZE
    ensures RoundUp(size) <= USER
    ensures forall v: nat :: v * PGSIZE < size <==> v < RoundUp(size)
  {
  }

  lemma CopyStarts(r: Ram, s: Ram, src: nat, d: nat)
    requires Copying(r, s, 0, d, 0, 0) && src in r.dirs
    ensures Copying(r, s, src, d, 0, 0) && d in s.dirs && src in s.dirs
  {
    forall x: nat | x < USER ensures CopiedPage(r, s, src, d, 0, x) {
      assert CopiedPage(r, s, 0, d, 0, x);
    }
  }

  lemma SourcePage(r: Ram, s: Ram, src: nat, d: nat, v: nat)
    requires r.Inv() && s.Inv() && Copying(r, s, src, d, v, 0) && src in r.dirs && v < USER && Present(r.Lookup(src, v))
    ensures s.Lookup(src, v) == r.Lookup(src, v) && Present(s.Entry(src, Pdx(v)))
    ensures var f := r.Lookup(src, v).frame; f in r.mem && f in s.mem && s.mem[f] == r.mem[f] && |s.mem[f]| == ENTRIES
  {
    assert SameLookup(r, s, src, v);
    assert r.UserOk(src, v);
    var f := r.Lookup(src, v).frame;
    assert r.FrameOk(f) && CopiedFrame(r, s, d, 0, f) && s.FrameOk(f);
  }

  lemma CopyTaken(r: Ram, s: Ram, m: Ram, src: nat, d: nat, v: nat, f: nat)
    requires r.Inv() && s.Inv() && m.Inv() && Copying(r, s, src, d, v, 0) && AllSame(s, m) && v < USER
    requires s.HasRole(f, Free) && src in r.dirs && Present(r.Lookup(src, v))
    requires r.Lookup(src, v).frame in s.mem && r.Lookup(src, v).frame in r.mem
    requires var g := r.Lookup(src, v).frame; s.mem[g] == r.mem[g] && m == s.Handed(f, Held, s.mem[g])
    ensures Copying(r, m, src, d, v, f) && m.HasRole(f, Held) && f in m.mem && r.HasRole(f, Free)
    ensures !Present(m.Lookup(d, v)) && d in m.dirs && f in m.role && m.dirs == s.dirs
    ensures var g := r.Lookup(src, v).frame; g in r.mem && m.mem[f] == r.mem[g]
  {
    hide Ram.Lookup, Ram.Entry;
    Filling(r, s);
    assert CopiedFrame(r, s, d, 0, f);
    assert r.FrameOk(f);
    forall e, x: nat | e in r.dirs && x < PAGES ensures SameLookup(r, m, e, x) {
      assert SameLookup(r, s, e, x) && SameLookup(s, m, e, x);
    }
    forall x: nat | x < USER ensures CopiedPage(r, m, src, d, v, x) {
      assert CopiedPage(r, s, src, d, v, x) && SameLookup(s, m, d, x);
      assert s.UserOk(d, x);
    }
    assert CopiedPage(r, m, src, d, v, v);
    forall g | g in r.role ensures CopiedFrame(r, m, d, f, g) {
      assert CopiedFrame(r, s, d, 0, g);
    }
  }

  lemma CopyTables(r: Ram, m: Ram, t: Ram, src: nat, d: nat, v: nat, f: nat)
    requires m.Inv() && Copying(r, m, src, d, v, f) && AllSame(m, t) && MoreTables(m, t, d) && v <= USER
    ensures Copying(r, t, src, d, v, f)
  {
    forall e, x: nat | e in r.dirs && x < PAGES ensures SameLookup(r, t, e, x) {
      assert SameLookup(r, m, e, x) && SameLookup(m, t, e, x);
    }
    forall x: nat | x < USER ensures CopiedPage(r, t, src, d, v, x) {
      assert CopiedPage(r, m, src, d, v, x) && SameLookup(m, t, d, x);
      if x < v {
        assert m.UserOk(d, x) && KeptOrTable(m, t, d, m.Lookup(d, x).frame);
      }
    }
    forall g | g in r.role ensures CopiedFrame(r, t, d, f, g) {
      assert CopiedFrame(r, m, d, f, g) && KeptOrTable(m, t, d, g);
    }
  }

  lemma CopyDropped(r: Ram, t: Ram, u: Ram, src: nat, d: nat, v: nat, f: nat)
    requires t.Inv() && Copying(r, t, src, d, v, f) && AllSame(t, u) && t.HasRole(f, Held) && r.HasRole(f, Free)
    requires u == t.Handed(f, Free, Filled(JunkWord))
    ensures Copying(r, u, src, d, v, 0)
  {
    hide Ram.Lookup, Ram.Entry;
    forall e, x: nat | e in r.dirs && x < PAGES ensures SameLookup(r, u, e, x) {
      assert SameLookup(r, t, e, x) && SameLookup(t, u, e, x);
    }
    forall x: nat | x < USER ensures CopiedPage(r, u, src, d, v, x) {
      assert CopiedPage(r, t, src, d, v, x) && SameLookup(t, u, d, x);
      assert t.UserOk(d, x);
    }
    forall g | g in r.role ensures CopiedFrame(r, u, d, 0, g) {
      assert CopiedFrame(r, t, d, f, g);
    }
  }

  lemma CopyFailed(r: Ram, m: Ram, t: Ram, src: nat, d: nat, v: nat, f: nat)
    requires m.Inv() && t.Inv() && Copying(r, m, src, d, v, f) && AllSame(m, t) && MoreTables(m, t, d)
    requires m.HasRole(f, Held) && r.HasRole(f, Free) && v <= USER
    ensures t.HasRole(f, Held) && d in t.dirs
    ensures var u := t.Handed(f, Free, Filled(JunkWord)); u.Inv() && Copying(r, u, src, d, v, 0)
  {
    hide Ram.Inv, Ram.Handed, AllSame;
    CopyTables(r, m, t, src, d, v, f);
    assert KeptOrTable(m, t, d, f);
    HandedKeeps(t, f, Free, Filled(JunkWord));
    CopyDropped(r, t, t.Handed(f, Free, Filled(JunkWord)), src, d, v, f);
  }

  lemma PageCopied(r: Ram, m: Ram, t: Ram, src: nat, d: nat, v: nat, f: nat, flags: Flags)
    requires r.Inv() && m.Inv() && t.Inv() && Copying(r, m, src, d, v, f) && v < USER
    requires UserPage(m, t, d, v, Word(f, WithP(flags)))
    requires m.HasRole(f, Held) && r.HasRole(f, Free) && f in m.mem
    requires var w := r.Lookup(src, v); Present(w) && w.flags == flags && w.frame in r.mem && m.mem[f] == r.mem[w.frame]
    ensures Copying(r, t, src, d, v + 1, 0) && t.dirs == m.dirs
  {
    hide Ram.Lookup, Ram.Entry;
    var end := v + 1;
    forall e, x: nat | e in r.dirs && x < PAGES ensures SameLookup(r, t, e, x) {
      assert SameLookup(r, m, e, x) && SameLookup(m, t, e, x);
    }
    forall x: nat | x < USER ensures CopiedPage(r, t, src, d, end, x) {
      assert CopiedPage(r, m, src, d, v, x);
      if x != v {
        assert SameLookup(m, t, d, x);
        if x < v {
          assert m.UserOk(d, x) && KeptOrTable(m, t, d, m.Lookup(d, x).frame);
        }
      }
    }
    forall g | g in r.role ensures CopiedFrame(r, t, d, 0, g) {
      assert CopiedFrame(r, m, d, f, g);
      if g != f { assert KeptOrTable(m, t, d, g); }
    }
  }

  lemma KernelHalfKept(s: Ram, m: Ram, t: Ram, d: nat, kmap: seq<Region>, v: nat, f: nat, flags: Flags)
    requires KernelHalf(s, d, kmap, |kmap|) && AllSame(s, m) && d in s.dirs && d in m.dirs && v < USER
    requires UserPage(m, t, d, v, Word(f, WithP(flags)))
    ensures KernelHalf(t, d, kmap, |kmap|)
  {
    var all := kmap[..|kmap|];
    forall x: nat | USER <= x < PAGES ensures KernelEntry(t, d, all, x) {
      assert KernelEntry(s, d, all, x) && SameLookup(s, m, d, x) && SameLookup(m, t, d, x);
    }
  }

  lemma SizeAbsent(r: Ram, d: nat, sz: nat, newsz: nat)
    requires SizeIs(r, d, sz) && sz <= newsz
    ensures forall x: nat :: RoundUp(sz) <= x < RoundUp(newsz) && newsz < USER * PGSIZE ==> !Present(r.Lookup(d, x))
  {
    forall x: nat | RoundUp(sz) <= x < RoundUp(newsz) && newsz < USER * PGSIZE ensures !Present(r.Lookup(d, x)) {
      Rounded(newsz);
      assert SizedPage(r, d, sz, x);
    }
  }

  lemma SizeGrown(r: Ram, s: Ram, d: nat, sz: nat, newsz: nat, ok: bool)
    requires SizeIs(r, d, sz) && d in r.dirs && sz <= newsz
    requires if ok then newsz < USER * PGSIZE && Grown(r, s, d, RoundUp(sz), RoundUp(newsz), 0)
             else AllSame(r, s) && MoreTables(r, s, d)
    ensures d in s.dirs && SizeIs(s, d, if ok then newsz else sz)
  {
    RoundsUp(sz, newsz);
    var now := if ok then newsz else sz;
    forall x: nat | x < USER ensures SizedPage(s, d, now, x) {
      assert SizedPage(r, d, sz, x);
      if ok {
        assert GrownPage(r, s, d, RoundUp(sz), RoundUp(newsz), d, x);
      } else {
        assert SameLookup(r, s, d, x);
      }
    }
  }

  lemma RoundsUp(a: nat, b: nat)
    requires a <= b
    ensures RoundUp(a) <= RoundUp(b)
    ensures a == 0 <==> RoundUp(a) == 0
  {
  }

  lemma SizeShrunk(r: Ram, s: Ram, d: nat, sz: nat, newsz: nat)
    requires SizeIs(r, d, sz) && d in r.dirs && sz < USER * PGSIZE
    requires Cleared(r, s, d, RoundUp(newsz), RoundUp(sz))
    ensures d in s.dirs && SizeIs(s, d, if newsz < sz then newsz else sz)
    ensures sz > 0 && newsz == 0 ==> !SizeIs(s, d, sz)
  {
    var now := if newsz < sz then newsz else sz;
    if newsz < sz { RoundsUp(newsz, sz); } else { RoundsUp(sz, newsz); }
    forall x: nat | x < USER ensures SizedPage(s, d, now, x) {
      assert SizedPage(r, d, sz, x);
      assert ClearedPage(r, s, d, RoundUp(newsz), RoundUp(sz), d, x);
    }
    if sz > 0 && newsz == 0 {
      assert SizedPage(s, d, now, 0);
      assert SizedPage(s, d, sz, 0) ==> false;
    }
  }
}
