/** Physical memory as frames of words, and the two-level page tables kept in it.
  *
  * A 32-bit word is split as hardware reads a page-table entry: twenty bits of frame number and
  * twelve of flags.  Every frame the allocator hands out has exactly one role, so "lost" and
  * "freed twice" are both visible. */
module VmSpace {
  const PGSIZE: nat := 4096
  const ENTRIES: nat := 1024
  /** Pages below KERNBASE. */
  const USER: nat := 0x80000
  const PAGES: nat := 0x100000

  const PTE_P: Flags := 1
  const PTE_W: Flags := 2
  const PTE_U: Flags := 4

  /** The low twelve bits of an entry. */
  type Flags = n: nat | n < PGSIZE

  datatype Word = Word(frame: nat, flags: Flags)

  type Page = seq<Word>

  const ZeroWord: Word := Word(0, 0)
  /** A frame with every word the same: zeroed by memset, or as kfree leaves it, every byte 1. */
  function Filled(w: Word): (p: Page)
    ensures |p| == ENTRIES && forall j :: 0 <= j < ENTRIES ==> p[j] == w
  {
    seq(ENTRIES, j => w)
  }

  const JunkWord: Word := Word(0x01010, 0x101)

  predicate Present(w: Word) {
    w.flags % 2 == 1
  }

  function Pdx(v: nat): nat {
    v / ENTRIES
  }

  function Ptx(v: nat): (j: nat)
    ensures j < ENTRIES
  {
    v % ENTRIES
  }

  lemma Split(v: nat, w: nat)
    ensures v == w <==> Pdx(v) == Pdx(w) && Ptx(v) == Ptx(w)
    ensures v < PAGES ==> Pdx(v) < ENTRIES
    ensures v < PAGES <==> Pdx(v) < ENTRIES
  {
  }

  /** What a frame is used for: on the free list, held by the kernel, a page directory, the table
    * for entry i of directory dir, the user page v of dir, or part of a directory being freed. */
  datatype Role =
    | Free
    | Held
    | Dir
    | Table(dir: nat, i: nat)
    | User(dir: nat, v: nat)
    | Doomed(dir: nat, i: nat)

  datatype Ram = Ram(mem: map<nat, Page>, role: map<nat, Role>, dirs: set<nat>)
  {
    ghost predicate HasRole(f: nat, r: Role) {
      f in role && role[f] == r
    }

    ghost predicate PageOk(f: nat) {
      f > 0 && f in mem && |mem[f]| == ENTRIES
    }

    /** Entry i of directory d. */
    ghost function Entry(d: nat, i: nat): Word {
      if d in mem && i < |mem[d]| then mem[d][i] else ZeroWord
    }

    /** The page-table entry that maps page v in directory d; not present without a table. */
    ghost function Lookup(d: nat, v: nat): Word {
      var e := Entry(d, Pdx(v));
      if Present(e) then Entry(e.frame, Ptx(v)) else ZeroWord
    }

    ghost predicate EntryOk(d: nat, i: nat) {
      Present(Entry(d, i)) ==> HasRole(Entry(d, i).frame, Table(d, i))
    }

    ghost predicate UserOk(d: nat, v: nat) {
      if Present(Lookup(d, v)) then HasRole(Lookup(d, v).frame, User(d, v)) else Lookup(d, v) == ZeroWord
    }

    ghost predicate FrameOk(f: nat) {
      f in role && PageOk(f) &&
      match role[f]
      case Dir => f in dirs
      case Table(d, i) => d in dirs && i < ENTRIES && Present(Entry(d, i)) && Entry(d, i).frame == f
      case User(d, v) => d in dirs && v < USER && Present(Lookup(d, v)) && Lookup(d, v).frame == f
      case _ => true
    }

    ghost predicate Frames() {
      mem.Keys == role.Keys && forall f :: f in role ==> FrameOk(f)
    }

    ghost predicate Dirs() {
      forall d :: d in dirs ==> HasRole(d, Dir)
    }

    ghost predicate Entries() {
      forall d, i: nat :: d in dirs && i < ENTRIES ==> EntryOk(d, i)
    }

    ghost predicate Users() {
      forall d, v: nat :: d in dirs && v < USER ==> UserOk(d, v)
    }

    /** Roles and page tables agree: each table and user page of a directory is reached from it
      * in exactly one place, and no frame is reached that has another role. */
    ghost predicate Inv() {
      Frames() && Dirs() && Entries() && Users()
    }

    // ---- the steps ----

    ghost function SetRole(f: nat, r: Role): Ram {
      this.(role := role[f := r])
    }

    /** A frame changes hands between the free list and the kernel. */
    ghost function Handed(f: nat, r: Role, p: Page): Ram {
      this.(mem := mem[f := p], role := role[f := r])
    }

    /** The zeroed frame t becomes table i of d. */
    ghost function Tabled(d: nat, i: nat, t: nat): Ram
      requires d in mem && i < |mem[d]|
    {
      this.(mem := mem[t := Filled(ZeroWord)][d := mem[d][i := Word(t, PTE_P + PTE_W + PTE_U)]],
            role := role[t := Table(d, i)])
    }

    /** The entry for page v of d set to w. */
    ghost function Written(d: nat, v: nat, w: Word): Ram
      requires Entry(d, Pdx(v)).frame in mem && Ptx(v) < |mem[Entry(d, Pdx(v)).frame]|
    {
      var t := Entry(d, Pdx(v)).frame;
      this.(mem := mem[t := mem[t][Ptx(v) := w]])
    }

    /** A zeroed frame becomes a directory. */
    ghost function Founded(d: nat): Ram {
      this.(mem := mem[d := Filled(ZeroWord)], role := role[d := Dir], dirs := dirs + {d})
    }
  }

  ghost predicate SameEntry(r: Ram, s: Ram, d: nat, i: nat) {
    s.Entry(d, i) == r.Entry(d, i)
  }

  ghost predicate SameLookup(r: Ram, s: Ram, d: nat, v: nat) {
    s.Lookup(d, v) == r.Lookup(d, v)
  }

  // ---- what the steps keep ----

  /** Only the given frame's contents differ. */
  ghost predicate OnlyFrame(r: Ram, s: Ram, t: nat) {
    forall f :: f in r.mem && f != t ==> f in s.mem && s.mem[f] == r.mem[f]
  }

  /** Changing a frame that is neither a directory nor a table leaves every lookup alone. */
  lemma DataFrame(r: Ram, s: Ram, t: nat, d: nat, v: nat)
    requires r.Inv() && OnlyFrame(r, s, t) && d in r.dirs && v < PAGES
    requires t in r.role && !r.role[t].Dir? && !r.role[t].Table?
    ensures SameEntry(r, s, d, Pdx(v)) && SameLookup(r, s, d, v)
  {
    Split(v, v);
    assert r.HasRole(d, Dir) && r.FrameOk(d);
    assert r.EntryOk(d, Pdx(v));
    var e := r.Entry(d, Pdx(v));
    if Present(e) {
      assert r.FrameOk(e.frame);
    }
  }

  /** Roles change at most at frame t. */
  ghost predicate OnlyRole(r: Ram, s: Ram, t: nat) {
    forall f :: f in r.role && f != t ==> f in s.role && s.role[f] == r.role[f]
  }

  ghost predicate Plain(x: Role) {
    x == Free || x == Held || x.Doomed?
  }

  lemma HandedKeeps(r: Ram, t: nat, x: Role, p: Page)
    requires r.Inv() && t in r.role && Plain(r.role[t]) && Plain(x) && |p| == ENTRIES
    ensures r.Handed(t, x, p).Inv() && AllSame(r, r.Handed(t, x, p)) && SameTables(r, r.Handed(t, x, p))
  {
    var s := r.Handed(t, x, p);
    forall d, v: nat | d in r.dirs && v < PAGES ensures SameEntry(r, s, d, Pdx(v)) && SameLookup(r, s, d, v) {
      DataFrame(r, s, t, d, v);
    }
    SameEntries(r, s, t);
    TablesKept(r, s);
    assert AllSame(r, s);
    Transfer(r, s, t);
  }

  /** Every lookup in a directory of r is the same in s. */
  ghost predicate AllSame(r: Ram, s: Ram) {
    forall d, v: nat :: d in r.dirs && v < PAGES ==> SameLookup(r, s, d, v)
  }

  ghost predicate AllEntries(r: Ram, s: Ram) {
    forall d, i: nat :: d in r.dirs && i < ENTRIES ==> SameEntry(r, s, d, i)
  }

  /** The entries of directory d that point to a table. */
  ghost function Tables(r: Ram, d: nat): set<nat> {
    set i: nat | i < ENTRIES && Present(r.Entry(d, i))
  }

  ghost predicate SameTables(r: Ram, s: Ram) {
    forall d :: d in r.dirs ==> Tables(s, d) == Tables(r, d)
  }

  lemma TablesKept(r: Ram, s: Ram)
    requires AllEntries(r, s)
    ensures SameTables(r, s)
  {
    forall d | d in r.dirs ensures Tables(s, d) == Tables(r, d) {
      forall i: nat | i < ENTRIES ensures i in Tables(s, d) <==> i in Tables(r, d) {
        assert SameEntry(r, s, d, i);
      }
    }
  }

  lemma SameEntries(r: Ram, s: Ram, t: nat)
    requires r.Inv() && OnlyFrame(r, s, t) && t in r.role && !r.role[t].Dir?
    ensures AllEntries(r, s)
  {
    forall d, i: nat | d in r.dirs && i < ENTRIES ensures SameEntry(r, s, d, i) {
      assert r.HasRole(d, Dir) && r.FrameOk(d);
    }
  }

  /** With the same entries and lookups, moving one frame between plain roles keeps the rest. */
  lemma Transfer(r: Ram, s: Ram, t: nat)
    requires r.Inv() && s.dirs == r.dirs && AllSame(r, s) && AllEntries(r, s) && OnlyRole(r, s, t) && OnlyFrame(r, s, t)
    requires s.mem.Keys == s.role.Keys == r.role.Keys && t in s.mem && |s.mem[t]| == ENTRIES
    requires t in r.role && t in s.role && Plain(r.role[t]) && Plain(s.role[t])
    ensures s.Inv()
  {
    forall f | f in s.role ensures s.FrameOk(f) {
      assert r.FrameOk(f) && r.FrameOk(t);
      if f != t {
        match r.role[f]
        case Table(d, i) => assert SameEntry(r, s, d, i);
        case User(d, v) => assert SameLookup(r, s, d, v);
        case _ =>
      }
    }
    forall d | d in s.dirs ensures s.HasRole(d, Dir) {
      assert r.HasRole(d, Dir);
    }
    forall d, i: nat | d in s.dirs && i < ENTRIES ensures s.EntryOk(d, i) {
      assert r.EntryOk(d, i) && SameEntry(r, s, d, i);
    }
    forall d, v: nat | d in s.dirs && v < USER ensures s.UserOk(d, v) {
      assert r.UserOk(d, v) && SameLookup(r, s, d, v);
    }
  }

  /** Giving directory d a table changes no lookup: the table is all zeroes. */
  lemma TabledKeeps(r: Ram, d: nat, i: nat, t: nat)
    requires r.Inv() && d in r.dirs && i < ENTRIES && !Present(r.Entry(d, i)) && r.HasRole(t, Held)
    ensures d in r.mem && |r.mem[d]| == ENTRIES
    ensures r.Tabled(d, i, t).Inv() && AllSame(r, r.Tabled(d, i, t))
    ensures r.Tabled(d, i, t).Entry(d, i) == Word(t, 7)
    ensures Tables(r.Tabled(d, i, t), d) == Tables(r, d) + {i}
  {
    assert r.HasRole(d, Dir) && r.FrameOk(d) && r.FrameOk(t);
    var s := r.Tabled(d, i, t);
    forall e, j: nat | e in r.dirs && j < ENTRIES
      ensures s.Entry(e, j) == if e == d && j == i then Word(t, 7) else r.Entry(e, j)
    {
      assert r.HasRole(e, Dir) && r.FrameOk(e);
    }
    forall e, v: nat | e in r.dirs && v < PAGES ensures SameLookup(r, s, e, v) {
      Split(v, v);
      var x := r.Entry(e, Pdx(v));
      assert r.EntryOk(e, Pdx(v));
      if Present(x) {
        assert r.FrameOk(x.frame);
      }
    }
    forall f | f in s.role ensures s.FrameOk(f) {
      assert r.FrameOk(f);
      if f != t {
        match r.role[f]
        case User(e, v) => assert SameLookup(r, s, e, v);
        case _ =>
      }
    }
    forall e | e in s.dirs ensures s.HasRole(e, Dir) {
      assert r.HasRole(e, Dir);
    }
    forall e, j: nat | e in s.dirs && j < ENTRIES ensures s.EntryOk(e, j) {
      assert r.EntryOk(e, j);
    }
    forall e, v: nat | e in s.dirs && v < USER ensures s.UserOk(e, v) {
      assert r.UserOk(e, v) && SameLookup(r, s, e, v);
    }
  }

  /** Writing one page-table entry changes one lookup. */
  lemma WrittenLookup(r: Ram, d: nat, v: nat, w: Word)
    requires r.Inv() && d in r.dirs && v < PAGES && Present(r.Entry(d, Pdx(v)))
    ensures var t := r.Entry(d, Pdx(v)).frame;
      r.HasRole(t, Table(d, Pdx(v))) && t in r.mem && |r.mem[t]| == ENTRIES
    ensures var s := r.Written(d, v, w);
      && AllEntries(r, s) && SameTables(r, s) && s.Lookup(d, v) == w
      && forall e, x: nat :: e in r.dirs && x < PAGES && !(e == d && x == v) ==> SameLookup(r, s, e, x)
  {
    Split(v, v);
    assert r.EntryOk(d, Pdx(v));
    var t := r.Entry(d, Pdx(v)).frame;
    assert r.FrameOk(t);
    var s := r.Written(d, v, w);
    SameEntries(r, s, t);
    TablesKept(r, s);
    assert SameEntry(r, s, d, Pdx(v));
    forall e, x: nat | e in r.dirs && x < PAGES && !(e == d && x == v) ensures SameLookup(r, s, e, x) {
      Split(v, x);
      assert SameEntry(r, s, e, Pdx(x)) && r.EntryOk(e, Pdx(x));
      var y := r.Entry(e, Pdx(x));
      if Present(y) {
        assert r.FrameOk(y.frame);
      }
    }
  }

  /** Every lookup in a directory of r but that of page v in d is the same in s. */
  ghost predicate AllBut(r: Ram, s: Ram, d: nat, v: nat) {
    forall e, x: nat :: e in r.dirs && x < PAGES && !(e == d && x == v) ==> SameLookup(r, s, e, x)
  }

  /** A kernel page is mapped: no role changes. */
  lemma KernelMapped(r: Ram, d: nat, v: nat, w: Word)
    requires r.Inv() && d in r.dirs && USER <= v < PAGES && Present(r.Entry(d, Pdx(v)))
    ensures var t := r.Entry(d, Pdx(v)).frame; t in r.mem && |r.mem[t]| == ENTRIES
    ensures r.Written(d, v, w).Inv()
    ensures r.Written(d, v, w).Lookup(d, v) == w && AllBut(r, r.Written(d, v, w), d, v)
  {
    WrittenLookup(r, d, v, w);
    var s := r.Written(d, v, w);
    forall f | f in s.role ensures s.FrameOk(f) {
      assert r.FrameOk(f);
      match r.role[f]
      case Table(e, i) => assert SameEntry(r, s, e, i);
      case User(e, x) => assert SameLookup(r, s, e, x);
      case _ =>
    }
    forall e | e in s.dirs ensures s.HasRole(e, Dir) {
      assert r.HasRole(e, Dir);
    }
    forall e, i: nat | e in s.dirs && i < ENTRIES ensures s.EntryOk(e, i) {
      assert r.EntryOk(e, i) && SameEntry(r, s, e, i);
    }
    forall e, x: nat | e in s.dirs && x < USER ensures s.UserOk(e, x) {
      assert r.UserOk(e, x) && SameLookup(r, s, e, x);
    }
  }

  /** A held frame becomes user page v of d. */
  lemma UserMapped(r: Ram, d: nat, v: nat, w: Word)
    requires r.Inv() && d in r.dirs && v < USER && Present(r.Entry(d, Pdx(v)))
    requires !Present(r.Lookup(d, v)) && Present(w) && r.HasRole(w.frame, Held)
    ensures var t := r.Entry(d, Pdx(v)).frame; t in r.mem && |r.mem[t]| == ENTRIES
    ensures var s := r.Written(d, v, w).SetRole(w.frame, User(d, v));
      s.Inv() && s.Lookup(d, v) == w && AllBut(r, s, d, v)
  {
    WrittenLookup(r, d, v, w);
    var m := r.Written(d, v, w);
    var s := m.SetRole(w.frame, User(d, v));
    forall e, x: nat | e in r.dirs && x < PAGES && !(e == d && x == v) ensures SameLookup(r, s, e, x) {
      assert SameLookup(r, m, e, x);
    }
    assert s.Lookup(d, v) == m.Lookup(d, v) == w;
    forall f | f in s.role ensures s.FrameOk(f) {
      assert r.FrameOk(f);
      if f != w.frame {
        match r.role[f]
        case Table(e, i) => assert SameEntry(r, m, e, i);
        case User(e, x) => assert SameLookup(r, s, e, x);
        case _ =>
      }
    }
    forall e | e in s.dirs ensures s.HasRole(e, Dir) {
      assert r.HasRole(e, Dir);
    }
    forall e, i: nat | e in s.dirs && i < ENTRIES ensures s.EntryOk(e, i) {
      assert r.EntryOk(e, i) && SameEntry(r, m, e, i);
    }
    forall e, x: nat | e in s.dirs && x < USER ensures s.UserOk(e, x) {
      assert r.UserOk(e, x);
      if !(e == d && x == v) { assert SameLookup(r, s, e, x); }
    }
  }

  /** User page v of d is unmapped and its frame freed. */
  lemma UserUnmapped(r: Ram, d: nat, v: nat)
    requires r.Inv() && d in r.dirs && v < USER && Present(r.Lookup(d, v))
    ensures Present(r.Entry(d, Pdx(v)))
    ensures var t := r.Entry(d, Pdx(v)).frame; t in r.mem && |r.mem[t]| == ENTRIES && t != r.Lookup(d, v).frame
    ensures r.HasRole(r.Lookup(d, v).frame, User(d, v))
    ensures var f := r.Lookup(d, v).frame;
      var s := r.Written(d, v, ZeroWord).Handed(f, Free, Filled(JunkWord));
      s.Inv() && s.Lookup(d, v) == ZeroWord && AllBut(r, s, d, v)
  {
    WrittenLookup(r, d, v, ZeroWord);
    assert r.UserOk(d, v);
    var f := r.Lookup(d, v).frame;
    var m := r.Written(d, v, ZeroWord);
    var s := m.Handed(f, Free, Filled(JunkWord));
    forall e, i: nat | e in r.dirs && i < ENTRIES ensures SameEntry(r, s, e, i) {
      assert r.HasRole(e, Dir) && SameEntry(r, m, e, i);
    }
    forall e, x: nat | e in r.dirs && x < PAGES ensures s.Lookup(e, x) == m.Lookup(e, x) {
      Split(x, x);
      assert SameEntry(r, s, e, Pdx(x)) && SameEntry(r, m, e, Pdx(x));
      assert r.EntryOk(e, Pdx(x));
    }
    forall e, x: nat | e in r.dirs && x < PAGES && !(e == d && x == v) ensures SameLookup(r, s, e, x) {
      assert SameLookup(r, m, e, x);
    }
    forall g | g in s.role ensures s.FrameOk(g) {
      assert r.FrameOk(g);
      if g != f {
        match r.role[g]
        case Table(e, i) => assert SameEntry(r, s, e, i);
        case User(e, x) => assert SameLookup(r, s, e, x);
        case _ =>
      }
    }
    forall e | e in s.dirs ensures s.HasRole(e, Dir) {
      assert r.HasRole(e, Dir);
    }
    forall e, i: nat | e in s.dirs && i < ENTRIES ensures s.EntryOk(e, i) {
      assert r.EntryOk(e, i) && SameEntry(r, s, e, i);
    }
    forall e, x: nat | e in s.dirs && x < USER ensures s.UserOk(e, x) {
      assert r.UserOk(e, x);
      if !(e == d && x == v) { assert SameLookup(r, s, e, x); }
    }
  }

  /** A held frame, zeroed, becomes an empty directory. */
  lemma FoundedKeeps(r: Ram, d: nat)
    requires r.Inv() && r.HasRole(d, Held)
    ensures d !in r.dirs && r.Founded(d).Inv() && AllSame(r, r.Founded(d))
    ensures forall v: nat :: v < PAGES ==> r.Founded(d).Lookup(d, v) == ZeroWord
  {
    assert d in r.dirs ==> r.HasRole(d, Dir);
    assert r.FrameOk(d);
    var s := r.Founded(d);
    SameEntries(r, s, d);
    forall v: nat | v < PAGES ensures s.Lookup(d, v) == ZeroWord {
      Split(v, v);
    }
    forall e, v: nat | e in r.dirs && v < PAGES ensures SameLookup(r, s, e, v) {
      DataFrame(r, s, d, e, v);
    }
    forall f | f in s.role ensures s.FrameOk(f) {
      assert r.FrameOk(f);
      if f != d {
        match r.role[f]
        case Table(e, i) => assert SameEntry(r, s, e, i);
        case User(e, x) => assert SameLookup(r, s, e, x);
        case _ =>
      }
    }
    forall e | e in s.dirs ensures s.HasRole(e, Dir) {
      assert e != d ==> r.HasRole(e, Dir);
    }
    forall e, i: nat | e in s.dirs && i < ENTRIES ensures s.EntryOk(e, i) {
      if e != d { assert r.EntryOk(e, i) && SameEntry(r, s, e, i); }
    }
    forall e, x: nat | e in s.dirs && x < USER ensures s.UserOk(e, x) {
      if e != d { assert r.UserOk(e, x) && SameLookup(r, s, e, x); }
    }
  }

  // ---- taking a directory apart ----

  function Dying(x: Role, f: nat, d: nat): Role {
    match x
    case Dir => if f == d then Doomed(d, ENTRIES) else x
    case Table(e, i) => if e == d then Doomed(d, i) else x
    case _ => x
  }

  /** d stops being a directory; its frame and its tables wait to be freed. */
  ghost function Condemned(r: Ram, d: nat): Ram {
    r.(role := map f | f in r.role :: Dying(r.role[f], f, d), dirs := r.dirs - {d})
  }

  ghost predicate NoUser(r: Ram, d: nat) {
    forall v: nat :: v < USER ==> !Present(r.Lookup(d, v))
  }

  lemma CondemnedKeeps(r: Ram, d: nat)
    requires r.Inv() && d in r.dirs && NoUser(r, d)
    ensures Condemned(r, d).Inv() && AllSame(Condemned(r, d), r)
    ensures forall v: nat, f :: v < USER ==> !r.HasRole(f, User(d, v))
    ensures forall i: nat :: i < ENTRIES && Present(r.Entry(d, i)) ==>
              Condemned(r, d).HasRole(r.Entry(d, i).frame, Doomed(d, i))
    ensures Condemned(r, d).HasRole(d, Doomed(d, ENTRIES))
  {
    var s := Condemned(r, d);
    assert r.HasRole(d, Dir) && r.FrameOk(d);
    forall e, i: nat ensures SameEntry(r, s, e, i) {
    }
    forall e, v: nat ensures SameLookup(r, s, e, v) {
      assert SameEntry(r, s, e, Pdx(v));
    }
    forall f | f in s.role ensures s.FrameOk(f) {
      assert r.FrameOk(f);
      match r.role[f]
      case Table(e, i) => assert SameEntry(r, s, e, i);
      case User(e, v) => assert SameLookup(r, s, e, v);
      case _ =>
    }
    forall e | e in s.dirs ensures s.HasRole(e, Dir) {
      assert r.HasRole(e, Dir);
    }
    forall e, i: nat | e in s.dirs && i < ENTRIES ensures s.EntryOk(e, i) {
      assert r.EntryOk(e, i) && SameEntry(r, s, e, i);
    }
    forall e, v: nat | e in s.dirs && v < USER ensures s.UserOk(e, v) {
      assert r.UserOk(e, v) && SameLookup(r, s, e, v);
    }
    forall v: nat, f | v < USER ensures !r.HasRole(f, User(d, v)) {
      assert r.HasRole(f, User(d, v)) ==> r.FrameOk(f);
    }
    forall i: nat | i < ENTRIES && Present(r.Entry(d, i)) ensures s.HasRole(r.Entry(d, i).frame, Doomed(d, i)) {
      assert r.EntryOk(d, i);
    }
  }

  // ---- what whole calls do ----

  /** Frame f kept its role, and its contents unless it holds part of a page table or is free. */
  ghost predicate FrameKept(r: Ram, s: Ram, f: nat) {
    && f in r.role && s.HasRole(f, r.role[f])
    && (r.role[f].Held? || r.role[f].User? || r.role[f].Doomed? ==>
          f in r.mem && f in s.mem && s.mem[f] == r.mem[f])
  }

  /** Every frame is kept, or was free and now holds a table of d. */
  ghost predicate MoreTables(r: Ram, s: Ram, d: nat) {
    s.dirs == r.dirs && s.role.Keys == r.role.Keys && forall f :: f in r.role ==> KeptOrTable(r, s, d, f)
  }

  ghost predicate KeptOrTable(r: Ram, s: Ram, d: nat, f: nat) {
    FrameKept(r, s, f) || (r.HasRole(f, Free) && f in s.role && s.role[f].Table? && s.role[f].dir == d)
  }

  lemma AllSameTwice(a: Ram, b: Ram, c: Ram)
    requires AllSame(a, b) && AllSame(b, c) && a.dirs <= b.dirs
    ensures AllSame(a, c)
  {
    forall d, v: nat | d in a.dirs && v < PAGES ensures SameLookup(a, c, d, v) {
      assert SameLookup(a, b, d, v) && SameLookup(b, c, d, v);
    }
  }

  lemma Untouched(r: Ram, d: nat)
    requires r.Inv()
    ensures AllSame(r, r) && MoreTables(r, r, d)
  {
    forall f | f in r.role ensures KeptOrTable(r, r, d, f) {
      assert r.FrameOk(f);
    }
  }
}
