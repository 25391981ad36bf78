/** A run of the file system, from a freshly formatted disk, to a write that logs as many blocks as
    one operation may reserve. */
module FsWorst {
  import opened Bytes
  import opened FsLayout
  import opened FsWrite
  import opened Fs
  import opened Param

  const T_FILE: nat := 2
  /** The first file, of twelve blocks, is inode 1; the others, of one block each, follow. */
  const MAIN: nat := 1
  const DATA: nat := 4083
  const ONES: nat := DATA + NDIRECT
  const SIZE: nat := 3 * BPB + 1
  /** All twelve blocks but only one byte of the last. */
  const LENGTH: nat := (NDIRECT - 1) * BSIZE + 1

  const NINODES: nat := 32368

  /** A disk with four bitmap blocks whose data area starts shortly before the second one's share. */
  function Disk(): (sb: Super)
    ensures sb.Valid() && sb == Super(SIZE, NINODES, 32, 4079, DATA)
  {
    Layout(SIZE, NINODES)
  }

  // ---- one more block at the end of a file ----

  /** The allocation fills slot (inum, bn) with the lowest free block w. */
  lemma OnlyBlock(sb: Super, disk: seq<Block>, inodes: seq<Inode>, o: Owner, o': Owner, inum: nat, bn: nat, w: nat)
    requires Owned(sb, disk, inodes, o', {}) && inum < |inodes| && bn < NDIRECT
    requires Grew(sb, o, o', inum, bn, bn + 1) && Lowest(sb, o, w)
    requires forall b :: b in o ==> o[b] != Slot(inum, bn)
    ensures forall b :: b in o' && b !in o ==> Addr(disk, inodes, Slot(inum, bn)) == b
    ensures Addr(disk, inodes, Slot(inum, bn)) != 0 ==> o' == o[w := Slot(inum, bn)]
  {
    hide Addr, Used;
    forall b | b in o' && b !in o ensures o'[b] == Slot(inum, bn) && Addr(disk, inodes, Slot(inum, bn)) == b {
      assert Needed(o'[b], inum, bn, bn + 1) && BlockOk(sb, disk, inodes, o', b);
    }
    var b := Addr(disk, inodes, Slot(inum, bn));
    if b != 0 {
      OneHolder(sb, disk, inodes, o', Slot(inum, bn), Slot(inum, bn));
      assert b in o' && b !in o;
      assert w in o';
      assert w == b;
    }
  }

  lemma OneBlock(bn: nat, n: nat)
    requires 0 < n <= BSIZE
    ensures bn * BSIZE / BSIZE == bn && Blocks(bn * BSIZE, n) == 1
  {
  }

  /** There was a block left, so the allocation cannot have failed. */
  lemma HasRoom(sb: Super, disk: seq<Block>, inodes: seq<Inode>, o: Owner, o': Owner, inum: nat, bn: nat, n: nat,
                w: nat)
    requires Consistent(sb, disk, inodes, o', inum) && bn < NDIRECT && 0 < n <= BSIZE && Lowest(sb, o, w)
    requires Gains(sb, o, o', inum, bn * BSIZE, n)
    requires forall b :: b in o ==> o[b] != Slot(inum, bn)
    requires Lacks(disk, inodes, inum, bn * BSIZE / BSIZE, bn * BSIZE / BSIZE + Blocks(bn * BSIZE, n))
    ensures !Used(sb, disk, w)
  {
    hide Addr, Used, Grew, Blocks, Sound, Synced;
    OneBlock(bn, n);
    OnlyBlock(sb, disk, inodes, o, o', inum, bn, w);
    assert BlockOk(sb, disk, inodes, o', w);
  }

  lemma Appended(sb: Super, disk: seq<Block>, inodes: seq<Inode>, o: Owner, o': Owner, inum: nat, bn: nat, n: nat,
                 w: nat)
    requires Consistent(sb, disk, inodes, o', sb.ninodes) && inum < |inodes| && bn < NDIRECT && 0 < n <= BSIZE
    requires Gains(sb, o, o', inum, bn * BSIZE, n) && Lowest(sb, o, w) && inodes[inum].size == bn * BSIZE + n
    requires forall b :: b in o ==> o[b] != Slot(inum, bn)
    ensures o' == o[w := Slot(inum, bn)]
  {
    hide Addr, Used, Grew, Blocks, Synced;
    OneBlock(bn, n);
    OnlyBlock(sb, disk, inodes, o, o', inum, bn, w);
    assert Sound(disk, inodes, inum) && Mapped(disk, inodes, inum, bn);
  }

  lemma Shapes(sb: Super, disk: seq<Block>, inodes: seq<Inode>, o: Owner)
    requires Consistent(sb, disk, inodes, o, sb.ninodes)
    ensures InodesOk(inodes) && Shaped(sb, disk) && |inodes| == sb.ninodes
  {
  }

  method AppendBlock(fs: FileSystem, inum: nat, bn: nat, src: seq<byte>, ghost w: nat)
    requires fs.Valid() && Lowest(fs.sb, fs.owner, w) && bn < NDIRECT && 0 < |src| <= BSIZE
    requires inum < |fs.inodes| && fs.inodes[inum].kind == T_FILE && fs.inodes[inum].size == bn * BSIZE
    requires forall b :: b in fs.owner ==> fs.owner[b] != Slot(inum, bn)
    modifies fs
    ensures fs.Valid() && fs.owner == old(fs.owner)[w := Slot(inum, bn)] && |fs.inodes| == |old(fs.inodes)|
    ensures fs.inodes[inum].kind == T_FILE && fs.inodes[inum].size == bn * BSIZE + |src|
    ensures forall i :: 0 <= i < |fs.inodes| && i != inum ==> fs.inodes[i] == old(fs.inodes)[i]
  {
    hide Consistent, InodesOk, Used, Gains, Records, Lacks, TransactionBound;
    Shapes(fs.sb, fs.disk, fs.inodes, fs.owner);
    var r := fs.Writei(inum, bn * BSIZE, src);
    if r.Panic? {
      HasRoom(fs.sb, fs.disk, fs.inodes, old(fs.owner), fs.owner, inum, bn, |src|, w);
      assert false;
    }
    Appended(fs.sb, fs.disk, fs.inodes, old(fs.owner), fs.owner, inum, bn, |src|, w);
  }

  // ---- filling the disk ----

  /** Who holds block b once the disk is filled in order. */
  function Holder(b: nat): Slot
    requires b >= DATA
  {
    if b < ONES then Slot(MAIN, b - DATA) else Slot(MAIN + 1 + (b - ONES), 0)
  }

  /** The first file has m blocks and n files of one block follow it; blocks were taken in order. */
  ghost predicate Packed(fs: FileSystem, m: nat, n: nat)
    reads fs
  {
    && fs.Valid() && fs.sb == Disk() && |fs.inodes| == NINODES
    && m <= NDIRECT && (n > 0 ==> m == NDIRECT) && DATA + m + n <= SIZE
    && (forall b :: b in fs.owner <==> DATA <= b < DATA + m + n)
    && (forall b :: DATA <= b < DATA + m + n ==> fs.owner[b] == Holder(b))
    && fs.inodes[MAIN].kind == T_FILE && fs.inodes[MAIN].size == (if m == NDIRECT then LENGTH else m * BSIZE)
    && (forall i :: 1 <= i <= MAIN + n ==> fs.inodes[i].kind != 0)
    && (forall i :: MAIN + n < i < NINODES ==> fs.inodes[i].kind == 0)
  }

  /** ialloc takes the lowest free inode. */
  method NewFile(fs: FileSystem, ghost k: nat) returns (inum: nat)
    requires fs.Valid() && 1 <= k < |fs.inodes| && fs.inodes[k].kind == 0
    requires forall i :: 1 <= i < k ==> fs.inodes[i].kind != 0
    modifies fs
    ensures inum == k && fs.Valid() && fs.owner == old(fs.owner) && |fs.inodes| == |old(fs.inodes)|
    ensures fs.inodes[k].kind == T_FILE && fs.inodes[k].size == 0
    ensures forall i :: 0 <= i < |fs.inodes| && i != k ==> fs.inodes[i] == old(fs.inodes)[i]
  {
    hide Consistent, InodesOk;
    Shapes(fs.sb, fs.disk, fs.inodes, fs.owner);
    var r := fs.Ialloc(T_FILE);
    if r.Panic? {
      assert false;
    }
    inum := r.value;
    Shapes(fs.sb, fs.disk, fs.inodes, fs.owner);
  }

  method FillMain(fs: FileSystem)
    requires fs.Valid() && fs.sb == Disk() && fs.owner == map[] && fs.inodes == seq(NINODES, _ => FreeInode())
    modifies fs
    ensures Packed(fs, NDIRECT, 0)
  {
    hide Consistent;
    var inum := NewFile(fs, MAIN);
    var m := 0;
    while m < NDIRECT
      invariant m <= NDIRECT && Packed(fs, m, 0)
    {
      AppendBlock(fs, MAIN, m, seq(if m == NDIRECT - 1 then 1 else BSIZE, _ => 0), DATA + m);
      m := m + 1;
    }
  }

  method FillRest(fs: FileSystem)
    requires Packed(fs, NDIRECT, 0)
    modifies fs
    ensures Packed(fs, NDIRECT, SIZE - ONES)
  {
    hide Consistent, InodesOk, FileSystem.Traced;
    var n := 0;
    while n < SIZE - ONES
      invariant n <= SIZE - ONES && Packed(fs, NDIRECT, n)
    {
      var inum := NewFile(fs, MAIN + 1 + n);
      AppendBlock(fs, inum, 0, seq(BSIZE, _ => 0), ONES + n);
      n := n + 1;
    }
  }

  // ---- one free block in each bitmap block's share ----

  /** Four blocks, each in another bitmap block. */
  const FREED: seq<nat> := [ONES, BPB, 2 * BPB, 3 * BPB]

  /** The disk is full but for the first k of them. */
  ghost predicate Emptied(fs: FileSystem, k: nat)
    reads fs
  {
    && fs.Valid() && fs.sb == Disk() && |fs.inodes| == NINODES && k <= 4
    && fs.inodes[MAIN].kind == T_FILE && fs.inodes[MAIN].size == LENGTH
    && (forall b :: b in fs.owner <==> DATA <= b < SIZE && b !in FREED[..k])
    && (forall b :: b in fs.owner ==> fs.owner[b] == Holder(b))
  }

  method Empty(fs: FileSystem)
    requires Packed(fs, NDIRECT, SIZE - ONES)
    modifies fs
    ensures Emptied(fs, 4)
  {
    hide Consistent, InodesOk, Content, FileSystem.Traced;
    var k := 0;
    while k < 4
      invariant k <= 4 && Emptied(fs, k)
    {
      Shapes(fs.sb, fs.disk, fs.inodes, fs.owner);
      assert ONES <= FREED[k] < SIZE;
      fs.IputLast(MAIN + 1 + (FREED[k] - ONES));
      Shapes(fs.sb, fs.disk, fs.inodes, fs.owner);
      assert FREED[..k + 1] == FREED[..k] + [FREED[k]];
      k := k + 1;
    }
  }

  // ---- the write ----

  /** At offset LENGTH three blocks' worth of bytes touch file blocks 11 to 14. */
  lemma Range()
    ensures LENGTH / BSIZE == NDIRECT - 1 && Blocks(LENGTH, CHUNK) == 4
      && TransactionBound(LENGTH, CHUNK) == MAXOPBLOCKS
  {
  }

  /** The owner map of a disk that is full but for the four blocks. */
  ghost predicate Poised(o: Owner) {
    && (forall b :: b in o <==> DATA <= b < SIZE && b !in FREED)
    && (forall b :: b in o ==> o[b] == Holder(b))
  }

  /** A block gained is one of the four, and fills the indirect slot or one of the first three
      entries. */
  lemma NewSlot(disk: seq<Block>, inodes: seq<Inode>, o: Owner, o': Owner, b: nat)
    requires Owned(Disk(), disk, inodes, o', {}) && Poised(o) && Grew(Disk(), o, o', MAIN, NDIRECT - 1, NDIRECT + 3)
    requires b in o' && b !in o
    ensures b in FREED && o'[b].inum == MAIN && NDIRECT <= o'[b].k <= NDIRECT + 3
    ensures SlotOk(inodes, o'[b]) && Addr(disk, inodes, o'[b]) == b
  {
    hide Addr, Used;
    assert BlockOk(Disk(), disk, inodes, o', b);
    assert Needed(o'[b], MAIN, NDIRECT - 1, NDIRECT + 3);
    assert ONES - 1 in o && o'[ONES - 1] == Holder(ONES - 1) == Slot(MAIN, NDIRECT - 1);
    assert BlockOk(Disk(), disk, inodes, o', ONES - 1);
  }

  /** A slot the write fills was empty, so that its block is new. */
  lemma NewBlock(disk: seq<Block>, inodes: seq<Inode>, o: Owner, o': Owner, k: nat)
    requires Owned(Disk(), disk, inodes, o', {}) && Poised(o) && Grew(Disk(), o, o', MAIN, NDIRECT - 1, NDIRECT + 3)
    requires MAIN < |inodes| && NDIRECT <= k <= NDIRECT + 3 && Addr(disk, inodes, Slot(MAIN, k)) != 0
    ensures var b := Addr(disk, inodes, Slot(MAIN, k)); b in o' && b !in o && b in FREED && o'[b] == Slot(MAIN, k)
  {
    hide Addr, Used, Grew;
    OneHolder(Disk(), disk, inodes, o', Slot(MAIN, k), Slot(MAIN, k));
    var b := Addr(disk, inodes, Slot(MAIN, k));
    if b in o {
      Grown(o, o', b);
      assert false;
    }
    NewSlot(disk, inodes, o, o', b);
  }

  lemma Grown(o: Owner, o': Owner, b: nat)
    requires Grew(Disk(), o, o', MAIN, NDIRECT - 1, NDIRECT + 3) && b in o
    ensures b in o' && o'[b] == o[b]
    ensures Poised(o) ==> o'[b] == Holder(b) && (o'[b].inum == MAIN ==> o'[b].k < NDIRECT)
  {
  }

  /** Four free blocks are enough. */
  lemma Enough(disk: seq<Block>, inodes: seq<Inode>, o: Owner, o': Owner)
    requires Owned(Disk(), disk, inodes, o', {}) && Poised(o) && Grew(Disk(), o, o', MAIN, NDIRECT - 1, NDIRECT + 3)
    requires Lacks(disk, inodes, MAIN, NDIRECT - 1, NDIRECT + 3)
    ensures exists b :: b in FREED && !Used(Disk(), disk, b)
  {
    hide Addr, Used, Grew;
    Grown(o, o', ONES - 1);
    assert BlockOk(Disk(), disk, inodes, o', ONES - 1);
    if forall b :: b in FREED ==> Used(Disk(), disk, b) {
      forall i | 0 <= i < 4 ensures FREED[i] in o' {
        assert BlockOk(Disk(), disk, inodes, o', FREED[i]);
      }
      NewSlot(disk, inodes, o, o', FREED[0]);
      NewSlot(disk, inodes, o, o', FREED[1]);
      NewSlot(disk, inodes, o, o', FREED[2]);
      NewSlot(disk, inodes, o, o', FREED[3]);
      assert false;
    }
  }

  /** All four are taken. */
  lemma AllTaken(disk: seq<Block>, inodes: seq<Inode>, o: Owner, o': Owner)
    requires Owned(Disk(), disk, inodes, o', {}) && Poised(o) && Grew(Disk(), o, o', MAIN, NDIRECT - 1, NDIRECT + 3)
    requires MAIN < |inodes| && HoleFree(disk, inodes, MAIN, LENGTH + CHUNK)
    ensures forall i :: 0 <= i < 4 ==> FREED[i] in o' && FREED[i] !in o
  {
    hide Used, Grew, Word;
    assert Mapped(disk, inodes, MAIN, NDIRECT) && Mapped(disk, inodes, MAIN, NDIRECT + 1)
      && Mapped(disk, inodes, MAIN, NDIRECT + 2);
    assert Addr(disk, inodes, Slot(MAIN, NDIRECT)) != 0;
    NewBlock(disk, inodes, o, o', NDIRECT);
    NewBlock(disk, inodes, o, o', NDIRECT + 1);
    NewBlock(disk, inodes, o, o', NDIRECT + 2);
    NewBlock(disk, inodes, o, o', NDIRECT + 3);
  }

  /** Ten blocks that the write logs. */
  function Ten(): (r: set<nat>)
    ensures |r| == MAXOPBLOCKS
  {
    var sb := Disk();
    var r := {ONES - 1, ONES, BPB, 2 * BPB, 3 * BPB, sb.BitmapBlock(ONES), sb.BitmapBlock(BPB), sb.BitmapBlock(2 * BPB),
              sb.BitmapBlock(3 * BPB), sb.InodeBlock(MAIN)};
    assert r == {4094, 4095, 4096, 8192, 12288, 4079, 4080, 4081, 4082, 32};
    r
  }

  lemma LogsTen(disk: seq<Block>, inodes: seq<Inode>, o: Owner, o': Owner, logged: set<nat>)
    requires Consistent(Disk(), disk, inodes, o', Disk().ninodes) && Poised(o) && MAIN < |inodes|
    requires Gains(Disk(), o, o', MAIN, LENGTH, CHUNK) && Records(Disk(), o, o', logged, MAIN, LENGTH, CHUNK)
    requires inodes[MAIN].size == LENGTH + CHUNK && Disk().InodeBlock(MAIN) in logged
    ensures Ten() <= logged
  {
    hide Used, Addr, Blocks, Synced, HoleFree;
    Range();
    assert Sound(disk, inodes, MAIN);
    AllTaken(disk, inodes, o, o');
    assert FREED[0] in o' && FREED[1] in o' && FREED[2] in o' && FREED[3] in o';
    assert ONES - 1 in o && o'[ONES - 1] == Holder(ONES - 1);
  }

  /** The write cannot run out of blocks. */
  lemma Succeeds(fs: FileSystem, o: Owner)
    requires fs.sb == Disk() && Poised(o)
    requires fs.OutOfBlocks(MAIN, LENGTH, CHUNK) && Gains(Disk(), o, fs.owner, MAIN, LENGTH, CHUNK)
    ensures !fs.Full()
  {
    hide Used, Addr, Blocks, Grew, Synced, Sound, Lacks;
    Range();
    Enough(fs.disk, fs.inodes, o, fs.owner);
  }

  /** The reservation of an operation is exactly enough: from a new disk, files are written until it is
      full and four of them, whose blocks four bitmap blocks describe, are given up.  A chunk of
      filewrite at the end of the first file, which ends inside its last direct block, then logs ten
      distinct blocks. */
  method WorstWrite() returns (fs: FileSystem, r: Result<nat>)
    ensures fs.Valid() && r == Ok(CHUNK) && |fs.logged| == MAXOPBLOCKS
  {
    hide Consistent, InodesOk, Gains, Records, FileSystem.Full, FileSystem.OutOfBlocks, OthersUnchanged,
      FileSystem.Traced, Packed, Content, Overwritten;
    fs := new FileSystem(Disk());
    FillMain(fs);
    FillRest(fs);
    Empty(fs);
    assert FREED[..4] == FREED;
    Shapes(fs.sb, fs.disk, fs.inodes, fs.owner);
    Range();
    fs.BeginOp();
    ghost var o := fs.owner;
    r := fs.Writei(MAIN, LENGTH, seq(CHUNK, _ => 0));
    if r.Panic? {
      Succeeds(fs, o);
      assert false;
    }
    Shapes(fs.sb, fs.disk, fs.inodes, fs.owner);
    assert fs.inodes[MAIN].size == |fs.File(MAIN)| == LENGTH + CHUNK;
    LogsTen(fs.disk, fs.inodes, o, fs.owner, fs.logged);
    FileSystem.SubsetSize(Ten(), fs.logged);
    assert fs.logged - {} == fs.logged;
  }
}
