/** fs.c and the chunking of file.c over the blocks that bread returns: block allocation, the block
    map of an inode, reading, writing and truncating files. */
module Fs {
  import opened Bytes
  import opened FsLayout
  import opened FsWrite
  import opened FsTrunc
  import opened Param

  /** Fail is the source's -1; Panic stops the kernel; Device hands the call to a device driver. */
  datatype Result<T> = Ok(value: T) | Fail | Panic | Device

  const T_DEV: nat := 3
  /** struct file for an inode: the open mode and the current offset. */
  class OpenFile {
    const inum: nat
    const writable: bool
    var off: nat

    constructor (inum: nat, writable: bool)
      ensures this.inum == inum && this.writable == writable && off == 0
    {
      this.inum, this.writable, off := inum, writable, 0;
    }
  }

  /** Writing the next n1 bytes of addr right after the first i is writing i + n1 bytes at once. */
  lemma OverwrittenJoins(c: seq<byte>, off: nat, addr: seq<byte>, i: nat, n1: nat)
    requires off <= |c| && i + n1 <= |addr|
    ensures Overwritten(Overwritten(c, off, addr[..i]), off + i, addr[i..i + n1]) == Overwritten(c, off, addr[..i + n1])
    ensures Overwritten(c, off, []) == c
  {
    assert addr[..i] + addr[i..i + n1] == addr[..i + n1];
  }

  /** filewrite stops at chunk boundaries only, or at the end. */
  predicate AtChunk(i: nat, n: nat) {
    i == n || i % CHUNK == 0
  }

  lemma AtChunkStart(n: nat)
    ensures AtChunk(0, n)
  {
  }

  lemma AtChunkStep(i: nat, n: nat, n1: nat)
    requires i < n && AtChunk(i, n) && n1 == NextChunk(i, n)
    ensures AtChunk(i + n1, n)
  {
  }

  /** The size of the chunk that starts at byte i of n. */
  function NextChunk(i: nat, n: nat): nat
    requires i <= n
  {
    if n - i > CHUNK then CHUNK else n - i
  }

  /** What filewrite of n bytes at offset off answers for a file of this kind and size, blocks lasting. */
  function Answer(writable: bool, kind: nat, size: nat, off: nat, n: nat): Result<nat> {
    if !writable then Fail
    else if n == 0 then Ok(0)
    else if kind == T_DEV then Device
    else if off <= size && off + n <= MAXFILE * BSIZE then Ok(n)
    else Fail
  }

  /** And how many of the bytes are in place then: the whole chunks that fit a file. */
  function Placed(writable: bool, kind: nat, size: nat, off: nat, n: nat): nat {
    if !writable || kind == T_DEV || size < off || MAXFILE * BSIZE < off then 0
    else if off + n <= MAXFILE * BSIZE then n
    else (MAXFILE * BSIZE - off) / CHUNK * CHUNK
  }

  /** A chunk at i that is refused, when those before it were not, is where they stop fitting. */
  lemma Refused(kind: nat, size: nat, off: nat, n: nat, i: nat)
    requires i < n && AtChunk(i, n) && kind != T_DEV && size <= MAXFILE * BSIZE
    requires i > 0 ==> off <= size && off + i <= MAXFILE * BSIZE
    requires (i == 0 && off > size) || off + i + NextChunk(i, n) > MAXFILE * BSIZE
    ensures Answer(true, kind, size, off, n) == Fail && Placed(true, kind, size, off, n) == i
  {
    if off <= size {
      var room := MAXFILE * BSIZE - off;
      assert i <= room < i + CHUNK && i == i / CHUNK * CHUNK;
      assert room / CHUNK == i / CHUNK;
    }
  }

  class FileSystem {
    const sb: Super
    var disk: seq<Block>        // the contents that bread returns
    var inodes: seq<Inode>      // the in-memory inodes
    ghost var owner: Owner      // which slot holds each used data block
    var trace: seq<Store>       // the log_write calls since the operation began, in order
    ghost var base: seq<Block>  // the disk as the operation found it
    ghost var logged: set<nat>  // the blocks that trace names

    /** mkfs, up to the files it copies in: zeroes, and the bits of the blocks below the data area. */
    constructor (sb: Super)
      requires sb.Valid()
      ensures this.sb == sb && Valid() && owner == map[]
      ensures inodes == seq(sb.ninodes, _ => FreeInode())
    {
      hide Used, Marked, Blank, Consistent, Super.BitmapBlock;
      this.sb := sb;
      disk := seq(sb.size, _ => ZeroBlock());
      inodes := seq(sb.ninodes, _ => FreeInode());
      owner, trace, base, logged := map[], [], [], {};
      new;
      BlankStarts(sb, disk);
      var b := 0;
      while b < sb.data
        invariant b <= sb.data && Blank(sb, disk, b) && Shaped(sb, disk)
        invariant inodes == seq(sb.ninodes, _ => FreeInode()) && owner == map[] && trace == [] && logged == {}
      {
        BlankStep(sb, disk, b);
        disk := Marked(sb, disk, b, true);
        b := b + 1;
      }
      base := disk;
      BlankConsistent(sb, disk, inodes);
    }

    ghost predicate ValidBut(busy: nat)
      reads `disk, `inodes, `owner, `logged, `trace, `base
    {
      Consistent(sb, disk, inodes, owner, busy) && Traced()
    }

    /** The operation's log_write calls turn the disk it found into the disk as it is, and are all for
        blocks that come after the log. */
    ghost predicate Traced()
      reads `disk, `logged, `trace, `base
    {
      |base| == sb.size && disk == Stored(base, trace) && logged == Targets(trace) && AfterLog(sb, trace)
    }

    ghost predicate Valid()
      reads `disk, `inodes, `owner, `logged, `trace, `base
    {
      ValidBut(sb.ninodes)
    }

    ghost function File(inum: nat): seq<byte>
      reads `disk, `inodes
      requires InodesOk(inodes) && inum < |inodes|
    {
      Content(disk, inodes, inum)
    }

    ghost predicate Full()
      reads `disk
    {
      Shaped(sb, disk) && forall c :: 0 <= c < sb.size ==> Used(sb, disk, c)
    }

    static lemma InodesAfterLog(sb: Super, b: nat)
      requires sb.Valid() && b < sb.size
      ensures sb.inodestart <= sb.BitmapBlock(b) && sb.inodestart <= sb.data
    {
    }

    /** begin_op: nothing has been written yet. */
    method BeginOp()
      requires Valid()
      modifies `trace, `base, `logged
      ensures Valid() && base == disk && trace == [] && logged == {}
    {
      trace, base, logged := [], disk, {};
    }

    method LogWrite(b: nat, data: Block)
      requires b < |disk|
      modifies `disk, `logged, `trace
      ensures disk == old(disk)[b := data] && logged == old(logged) + {b}
      ensures trace == old(trace) + [Store(b, data)]
      ensures old(Traced()) && sb.inodestart <= b ==> Traced()
    {
      StoredMore(base, trace, Store(b, data));
      disk := disk[b := data];
      trace := trace + [Store(b, data)];
      logged := logged + {b};
    }

    /** Bit bi of the bitmap block that starts with block b's bit. */
    static lemma BitIndex(sb: Super, disk: seq<Block>, b: nat, bi: nat)
      requires Shaped(sb, disk) && b % BPB == 0 && bi < BPB && b + bi < sb.size
      ensures sb.BitmapBlock(b + bi) == sb.BitmapBlock(b) < |disk|
      ensures var bp := disk[sb.BitmapBlock(b)];
        && Used(sb, disk, b + bi) == Bit(bp[bi / 8], bi % 8)
        && bp[bi / 8] < Pow2(8)
        && var y := PutBit(bp[bi / 8], bi % 8, true, 8);
        && y < 256 && Marked(sb, disk, b + bi, true) == disk[sb.BitmapBlock(b) := bp[bi / 8 := y]]
    {
      ByteRange();
      IndexInBlock(b, bi);
    }

    static lemma IndexInBlock(b: nat, bi: nat)
      requires b % BPB == 0 && bi < BPB
      ensures (b + bi) / BPB == b / BPB && (b + bi) % BPB == bi
    {
      assert b == BPB * (b / BPB);
    }

    /** balloc: the lowest free block, marked and zeroed. */
    method Balloc() returns (r: Result<nat>)
      requires Shaped(sb, disk)
      modifies `disk, `logged, `trace
      ensures r.Ok? || r.Panic?
      ensures r.Ok? ==>
        && Free(sb, old(disk), r.value) && (forall c :: 0 <= c < r.value ==> Used(sb, old(disk), c))
        && disk == Fresh(sb, old(disk), r.value)
        && logged == old(logged) + {sb.BitmapBlock(r.value), r.value}
        && (old(Traced()) && sb.inodestart <= r.value ==> Traced())
      ensures r.Panic? ==> disk == old(disk) && logged == old(logged) && trace == old(trace) && Full()
      ensures r.Panic? && old(Traced()) ==> Traced()
    {
      hide Used, Marked, Bit, PutBit, Super.BitmapBlock, Super.Valid, FileSystem.Traced;
      var b := 0;
      while b < sb.size
        invariant b % BPB == 0 && disk == old(disk) && logged == old(logged) && trace == old(trace)
        invariant forall c :: 0 <= c < b && c < sb.size ==> Used(sb, disk, c)
        decreases sb.size - b
      {
        BitIndex(sb, disk, b, 0);
        var bp := disk[sb.BitmapBlock(b)];
        var bi := 0;
        while bi < BPB && b + bi < sb.size
          invariant bi <= BPB && disk == old(disk) && logged == old(logged) && trace == old(trace)
          invariant forall c :: 0 <= c < b + bi && c < sb.size ==> Used(sb, disk, c)
        {
          BitIndex(sb, disk, b, bi);
          if !Bit(bp[bi / 8], bi % 8) {
            InodesAfterLog(sb, b);
            LogWrite(sb.BitmapBlock(b), bp[bi / 8 := PutBit(bp[bi / 8], bi % 8, true, 8)]);
            assert disk == Marked(sb, old(disk), b + bi, true);
            LogWrite(b + bi, ZeroBlock());
            assert disk == Fresh(sb, old(disk), b + bi);
            return Ok(b + bi);
          }
          bi := bi + 1;
        }
        b := b + BPB;
      }
      return Panic;
    }

    /** What an allocation for slot s may change: s itself, and blocks that held nothing. */
    twostate predicate Allocated(s: Slot, r: nat)
      reads `disk, `inodes, `owner, `logged, `trace, `base
      requires old(ValidBut(s.inum)) && old(SlotOk(inodes, s))
    {
      && ValidBut(s.inum) && |inodes| == |old(inodes)| && Addr(disk, inodes, s) == r != 0
      && FilesKept(old(disk), old(inodes), disk, inodes, {})
      && inodes == old(inodes)[s.inum := old(inodes)[s.inum].(addrs := inodes[s.inum].addrs)]
      && forall t :: SlotOk(inodes, t) && t != s ==> Addr(disk, inodes, t) == Addr(old(disk), old(inodes), t)
    }

    /** The in-memory inodes after an address allocation, as the code builds them. */
    static lemma TakeAddr(sb: Super, d: seq<Block>, inodes: seq<Inode>, owner: Owner, s: Slot, r: nat,
                          inodes': seq<Inode>)
      requires Consistent(sb, d, inodes, owner, s.inum) && Free(sb, d, r) && Vacant(d, inodes, s)
      requires inodes[s.inum].kind != 0 && s.k <= NDIRECT
      requires inodes' == inodes[s.inum := inodes[s.inum].(addrs := inodes[s.inum].addrs[s.k := r])]
      ensures Consistent(sb, Fresh(sb, d, r), inodes', owner[r := s], s.inum)
      ensures FilesKept(d, inodes, Fresh(sb, d, r), inodes', {}) && r != 0
      ensures forall t :: SlotOk(inodes, t) ==>
        Addr(Fresh(sb, d, r), inodes', t) == if t == s then r else Addr(d, inodes, t)
    {
      hide Fresh, Used, Super.BitmapBlock, Word;
      TakeConsistent(sb, d, inodes, owner, s, r);
    }

    static lemma LowestFree(sb: Super, disk: seq<Block>, inodes: seq<Inode>, owner: Owner, r: nat)
      requires Owned(sb, disk, inodes, owner, {}) && Free(sb, disk, r)
      requires forall c :: 0 <= c < r ==> Used(sb, disk, c)
      ensures Lowest(sb, owner, r)
    {
      hide Used, Addr;
      assert sb.data <= r && BlockOk(sb, disk, inodes, owner, r);
      forall c | sb.data <= c < r ensures c in owner {
        assert BlockOk(sb, disk, inodes, owner, c);
      }
    }

    /** ip->addrs[k] = balloc(dev) */
    method AllocAddr(inum: nat, k: nat) returns (r: Result<nat>)
      requires ValidBut(inum) && inum < |inodes| && inodes[inum].kind != 0
      requires k <= NDIRECT && inodes[inum].addrs[k] == 0
      modifies `disk, `inodes, `owner, `logged, `trace
      ensures r.Ok? || r.Panic?
      ensures r.Panic? ==> Full() && disk == old(disk) && inodes == old(inodes) && ValidBut(inum)
      ensures r.Panic? ==> owner == old(owner) && logged == old(logged) && trace == old(trace)
      ensures r.Ok? ==> Allocated(Slot(inum, k), r.value) && r.value < sb.size
      ensures r.Ok? ==> Lowest(sb, old(owner), r.value) && owner == old(owner)[r.value := Slot(inum, k)]
      ensures r.Ok? ==> logged == old(logged) + {sb.BitmapBlock(r.value), r.value}
    {
      hide FileSystem.Traced;
      InodesAfterLog(sb, 0);
      r := Balloc();
      if r.Ok? {
        inodes := inodes[inum := inodes[inum].(addrs := inodes[inum].addrs[k := r.value])];
        TakeAddr(sb, old(disk), old(inodes), owner, Slot(inum, k), r.value, inodes);
        LowestFree(sb, old(disk), old(inodes), owner, r.value);
        hide Consistent, Fresh, Used, Super.BitmapBlock, FilesKept, Addr;
        owner := owner[r.value := Slot(inum, k)];
      }
    }

    /** The disk after an entry allocation, as the code builds it. */
    static lemma TakeEntry(sb: Super, d: seq<Block>, inodes: seq<Inode>, owner: Owner, s: Slot, r: nat, ind: nat,
                           d': seq<Block>)
      requires Consistent(sb, d, inodes, owner, s.inum) && Free(sb, d, r) && Vacant(d, inodes, s)
      requires inodes[s.inum].kind != 0 && s.k > NDIRECT && ind == inodes[s.inum].addrs[NDIRECT]
      requires d' == Fresh(sb, d, r)[ind := PutWord(d[ind], s.k - NDIRECT - 1, r)]
      ensures Consistent(sb, d', inodes, owner[r := s], s.inum) && FilesKept(d, inodes, d', inodes, {})
      ensures r != 0 && forall t :: SlotOk(inodes, t) ==>
        Addr(d', inodes, t) == if t == s then r else Addr(d, inodes, t)
    {
      hide Fresh, Used, Super.BitmapBlock, Word, PutWord, Free, Owned, Sound, Synced, FilesKept, SlotKept;
      EntryDisk(sb, d, inodes, owner, s, r, ind, d');
      TakeConsistent(sb, d, inodes, owner, s, r);
    }

    static lemma EntryDisk(sb: Super, d: seq<Block>, inodes: seq<Inode>, owner: Owner, s: Slot, r: nat, ind: nat,
                           d': seq<Block>)
      requires Consistent(sb, d, inodes, owner, s.inum) && Free(sb, d, r) && Vacant(d, inodes, s)
      requires inodes[s.inum].kind != 0 && s.k > NDIRECT && ind == inodes[s.inum].addrs[NDIRECT]
      requires d' == Fresh(sb, d, r)[ind := PutWord(d[ind], s.k - NDIRECT - 1, r)]
      ensures d' == PlacedDisk(Fresh(sb, d, r), inodes, s, r)
    {
      hide Fresh, Used, Super.BitmapBlock, Word, PutWord;
      FreshKeeps(sb, d, inodes, owner, r);
      OneHolder(sb, d, inodes, owner, Slot(s.inum, NDIRECT), s);
    }

    /** a[i] = balloc(dev) for entry i of the inode's indirect block */
    method AllocEntry(inum: nat, i: nat) returns (r: Result<nat>)
      requires ValidBut(inum) && inum < |inodes| && inodes[inum].kind != 0 && i < NINDIRECT
      requires inodes[inum].addrs[NDIRECT] != 0 && Addr(disk, inodes, Slot(inum, NDIRECT + 1 + i)) == 0
      modifies `disk, `owner, `logged, `trace
      ensures r.Ok? || r.Panic?
      ensures r.Panic? ==> Full() && disk == old(disk) && owner == old(owner) && ValidBut(inum)
      ensures r.Panic? ==> logged == old(logged) && trace == old(trace)
      ensures r.Ok? ==> Allocated(Slot(inum, NDIRECT + 1 + i), r.value) && r.value < sb.size
      ensures r.Ok? ==>
        Lowest(sb, old(owner), r.value) && owner == old(owner)[r.value := Slot(inum, NDIRECT + 1 + i)]
      ensures r.Ok? ==>
        logged == old(logged) + {sb.BitmapBlock(r.value), r.value, inodes[inum].addrs[NDIRECT]}
    {
      hide FileSystem.Traced;
      InodesAfterLog(sb, 0);
      ghost var d, s := disk, Slot(inum, NDIRECT + 1 + i);
      var ind := inodes[inum].addrs[NDIRECT];
      OneHolder(sb, disk, inodes, owner, Slot(inum, NDIRECT), s);
      var a := disk[ind];
      r := Balloc();
      if r.Ok? {
        LogWrite(ind, PutWord(a, i, r.value));
        TakeEntry(sb, d, inodes, owner, s, r.value, ind, disk);
        LowestFree(sb, d, inodes, owner, r.value);
        assert inodes[inum := inodes[inum].(addrs := inodes[inum].addrs)] == inodes;
        hide Consistent, Fresh, Used, Super.BitmapBlock, Word, PutWord, FilesKept, Addr;
        owner := owner[r.value := s];
      }
    }

    /** What a successful bmap leaves behind. */
    twostate predicate MappedNow(inum: nat, bn: nat, b: nat, bitmaps: set<nat>)
      reads `disk, `inodes, `owner, `logged, `trace, `base
      requires old(ValidBut(inum)) && inum < |old(inodes)|
    {
      && bn < MAXFILE && ValidBut(inum) && |inodes| == |old(inodes)|
      && Addr(disk, inodes, FileSlot(inum, bn)) == b && 0 < b < sb.size
      && FilesKept(old(disk), old(inodes), disk, inodes, {})
      && inodes == old(inodes)[inum := old(inodes)[inum].(addrs := inodes[inum].addrs)]
      && (Mapped(old(disk), old(inodes), inum, bn) ==>
            && disk == old(disk) && inodes == old(inodes) && owner == old(owner)
            && logged == old(logged) && trace == old(trace) && bitmaps == {})
      && (IndirectAddr(old(inodes), inum) != 0 ==> IndirectGained(old(inodes), inodes, inum) == 0)
      && |bitmaps| <= 1 + IndirectGained(old(inodes), inodes, inum)
      && logged <= old(logged) + bitmaps + {b} + Indirect(inodes, inum)
    }

    /** The file still lacks block bn. */
    ghost predicate Unmapped(inum: nat, bn: nat)
      reads `disk, `inodes, `owner, `logged, `trace, `base
    {
      ValidBut(inum) && inum < |inodes| && bn < MAXFILE && !Mapped(disk, inodes, inum, bn)
    }

    /** bmap: the block that holds the file's block bn, allocated when missing.  `bitmaps` are the
        bitmap blocks it logged, at most one per allocation. */
    method Bmap(inum: nat, bn: nat) returns (r: Result<nat>, ghost bitmaps: set<nat>)
      requires ValidBut(inum) && inum < |inodes| && inodes[inum].kind != 0
      modifies `disk, `inodes, `owner, `logged, `trace
      ensures r.Ok? || r.Panic?
      ensures bn >= MAXFILE ==> r.Panic?
      ensures bn < MAXFILE && Mapped(old(disk), old(inodes), inum, bn) ==> r.Ok?
      ensures bn < MAXFILE && r.Panic? ==> Full() && Unmapped(inum, bn)
      ensures r.Ok? ==> MappedNow(inum, bn, r.value, bitmaps) && Recorded(sb, old(owner), owner, logged, inum, bn, bn)
      ensures Grew(sb, old(owner), owner, inum, bn, bn + 1) && old(logged) <= logged
    {
      hide FileSystem.Traced, FileSystem.Full, Used, Super.BitmapBlock, Grew, Recorded, Lowest;
      bitmaps := {};
      GrewNone(sb, owner, logged, inum, bn);
      if bn < NDIRECT {
        OneHolderIfAny(FileSlot(inum, bn));
        r := Ok(inodes[inum].addrs[bn]);
        if inodes[inum].addrs[bn] == 0 {
          r := AllocAddr(inum, bn);
          if r.Ok? {
            bitmaps := {sb.BitmapBlock(r.value)};
            GrewOne(sb, old(owner), r.value, Slot(inum, bn), logged, inum, bn);
            assert Addr(disk, inodes, Slot(inum, NDIRECT)) == Addr(old(disk), old(inodes), Slot(inum, NDIRECT));
          }
        }
      } else if bn - NDIRECT < NINDIRECT {
        r, bitmaps := BmapIndirect(inum, bn - NDIRECT);
      } else {
        r := Panic;
      }
    }

    /** The second half of bmap: load the indirect block, allocating if necessary, then its entry i. */
    method BmapIndirect(inum: nat, i: nat) returns (r: Result<nat>, ghost bitmaps: set<nat>)
      requires ValidBut(inum) && inum < |inodes| && inodes[inum].kind != 0 && i < NINDIRECT
      modifies `disk, `inodes, `owner, `logged, `trace
      ensures r.Ok? || r.Panic?
      ensures Mapped(old(disk), old(inodes), inum, NDIRECT + i) ==> r.Ok?
      ensures r.Panic? ==> Full() && Unmapped(inum, NDIRECT + i)
      ensures r.Ok? ==> MappedNow(inum, NDIRECT + i, r.value, bitmaps)
      ensures r.Ok? ==> Recorded(sb, old(owner), owner, logged, inum, NDIRECT + i, NDIRECT + i)
      ensures Grew(sb, old(owner), owner, inum, NDIRECT + i, NDIRECT + i + 1) && old(logged) <= logged
    {
      hide FileSystem.Traced, FileSystem.Full, Used, Super.BitmapBlock, Grew, Recorded, Lowest, Consistent, Word,
        InodesOk;
      r, bitmaps := LoadIndirect(inum, i);
      if r.Panic? {
        return;
      }
      ghost var d, ip, o, l := disk, inodes, owner, logged;
      assert Addr(disk, inodes, FileSlot(inum, NDIRECT + i)) == Word(disk[r.value], i);
      hide FilesKept;
      r := Ok(Word(disk[r.value], i));
      if r.value == 0 {
        r := AllocEntry(inum, i);
        if r.Ok? {
          bitmaps := bitmaps + {sb.BitmapBlock(r.value)};
          GrewOne(sb, o, r.value, FileSlot(inum, NDIRECT + i), logged, inum, NDIRECT + i);
          GrewBoth(sb, old(owner), o, owner, l, logged, inum, NDIRECT + i);
          KeptTransitive(old(disk), old(inodes), d, ip, disk, inodes, {});
        }
      }
    }

    /** The number of the indirect block, allocated when missing; entry i is as it was. */
    method LoadIndirect(inum: nat, ghost i: nat) returns (r: Result<nat>, ghost bitmaps: set<nat>)
      requires ValidBut(inum) && inum < |inodes| && inodes[inum].kind != 0 && i < NINDIRECT
      modifies `disk, `inodes, `owner, `logged, `trace
      ensures r.Ok? || r.Panic?
      ensures r.Panic? ==> Full() && Unmapped(inum, NDIRECT + i) && !Mapped(old(disk), old(inodes), inum, NDIRECT + i)
      ensures ValidBut(inum) && |inodes| == |old(inodes)| && InodesOk(inodes) && |inodes[inum].addrs| == NDIRECT + 1
      ensures Addr(disk, inodes, FileSlot(inum, NDIRECT + i)) < sb.size
      ensures r.Ok? ==> r.value == inodes[inum].addrs[NDIRECT] && 0 < r.value < |disk| == sb.size
      ensures FilesKept(old(disk), old(inodes), disk, inodes, {})
      ensures inodes == old(inodes)[inum := old(inodes)[inum].(addrs := inodes[inum].addrs)]
      ensures Addr(disk, inodes, FileSlot(inum, NDIRECT + i))
        == Addr(old(disk), old(inodes), FileSlot(inum, NDIRECT + i))
      ensures IndirectAddr(old(inodes), inum) != 0 ==>
        disk == old(disk) && inodes == old(inodes) && owner == old(owner) && bitmaps == {}
        && logged == old(logged) && trace == old(trace)
      ensures IndirectAddr(old(inodes), inum) == 0 ==> !Mapped(old(disk), old(inodes), inum, NDIRECT + i)
      ensures IndirectAddr(old(inodes), inum) == 0 && r.Ok? ==>
        bitmaps == {sb.BitmapBlock(r.value)} && logged == old(logged) + {sb.BitmapBlock(r.value), r.value}
      ensures Grew(sb, old(owner), owner, inum, NDIRECT + i, NDIRECT + i + 1) && old(logged) <= logged
      ensures r.Ok? ==> Recorded(sb, old(owner), owner, logged, inum, NDIRECT + i, NDIRECT + i)
    {
      hide FileSystem.Traced, FileSystem.Full, Used, Super.BitmapBlock, Grew, Recorded, Lowest, Word;
      bitmaps := {};
      GrewNone(sb, owner, logged, inum, NDIRECT + i);
      OneHolderIfAny(Slot(inum, NDIRECT));
      OneHolderIfAny(FileSlot(inum, NDIRECT + i));
      r := Ok(inodes[inum].addrs[NDIRECT]);
      if inodes[inum].addrs[NDIRECT] == 0 {
        r := AllocAddr(inum, NDIRECT);
        if r.Ok? {
          bitmaps := {sb.BitmapBlock(r.value)};
          GrewOne(sb, old(owner), r.value, Slot(inum, NDIRECT), logged, inum, NDIRECT + i);
        }
      }
    }

    lemma OneHolderIfAny(s: Slot)
      requires Owned(sb, disk, inodes, owner, {}) && SlotOk(inodes, s)
      ensures Addr(disk, inodes, s) < sb.size
      ensures FilesKept(disk, inodes, disk, inodes, {})
    {
      if Addr(disk, inodes, s) != 0 {
        OneHolder(sb, disk, inodes, owner, s, s);
      }
    }

    /** iupdate: write the in-memory inode to its slot in the inode block. */
    method Iupdate(inum: nat)
      requires ValidBut(inum) && inum < |inodes|
      modifies `disk, `logged, `trace
      ensures Valid() && FilesKept(old(disk), inodes, disk, inodes, {})
      ensures logged == old(logged) + {sb.InodeBlock(inum)}
    {
      hide FileSystem.Traced, PutInode, FilesKept;
      UpdateInode(sb, disk, inodes, owner, inum);
      var b := sb.InodeBlock(inum);
      LogWrite(b, PutInode(disk[b], inum, inodes[inum]));
    }

    /** off + n < off in 32-bit arithmetic */
    static predicate SumWraps(off: nat, n: nat)
      requires off < U32 && n < U32
      ensures SumWraps(off, n) <==> off + n >= U32
    {
      (off + n) % U32 < off
    }

    /** min(n - tot, BSIZE - off % BSIZE) */
    static function Piece(off: nat, left: nat): (m: nat)
      ensures m <= left && (left > 0 ==> 0 < m) && off % BSIZE + m <= BSIZE
      ensures m == left || (off + m) % BSIZE == 0
    {
      if left < BSIZE - off % BSIZE then left else BSIZE - off % BSIZE
    }

    static lemma SameBlock(p: nat, k: nat)
      requires p % BSIZE + k < BSIZE
      ensures (p + k) / BSIZE == p / BSIZE && (p + k) % BSIZE == p % BSIZE + k
    {
    }

    /** A slice of the file that one block holds. */
    static lemma SliceOfBlock(disk: seq<Block>, inodes: seq<Inode>, inum: nat, p: nat, m: nat)
      requires InodesOk(inodes) && inum < |inodes| && p % BSIZE + m <= BSIZE && 0 < m
      requires p + m <= inodes[inum].size && Addr(disk, inodes, FileSlot(inum, p / BSIZE)) < |disk|
      ensures Content(disk, inodes, inum)[p..p + m]
              == disk[Addr(disk, inodes, FileSlot(inum, p / BSIZE))][p % BSIZE..p % BSIZE + m]
    {
      hide Addr;
      var b := Addr(disk, inodes, FileSlot(inum, p / BSIZE));
      var got, want := disk[b][p % BSIZE..p % BSIZE + m], Content(disk, inodes, inum)[p..p + m];
      forall k | 0 <= k < m ensures got[k] == want[k] {
        SameBlock(p, k);
        assert want[k] == FileByte(disk, inodes, inum, p + k);
      }
    }

    static lemma ReadFacts(sb: Super, disk: seq<Block>, inodes: seq<Inode>, owner: Owner, inum: nat)
      requires Consistent(sb, disk, inodes, owner, sb.ninodes) && inum < |inodes|
      ensures InodesOk(inodes) && inodes[inum].Valid() && |disk| == sb.size
      ensures Sound(disk, inodes, inum) && Consistent(sb, disk, inodes, owner, inum)
    {
    }

    /** readi: the requested slice, cut at the file's size; nothing changes. */
    method Readi(inum: nat, off: nat, n: nat) returns (r: Result<seq<byte>>)
      requires Valid() && inum < |inodes| && inodes[inum].kind != 0 && off < U32 && n < U32
      modifies `disk, `inodes, `owner, `logged, `trace
      ensures Valid() && disk == old(disk) && inodes == old(inodes) && owner == old(owner)
        && logged == old(logged) && trace == old(trace)
      ensures r.Device? <==> inodes[inum].kind == T_DEV
      ensures r.Fail? <==> inodes[inum].kind != T_DEV && (off > inodes[inum].size || off + n >= U32)
      ensures r.Ok? ==> r.value == File(inum)[off..if off + n > inodes[inum].size then inodes[inum].size else off + n]
      ensures !r.Panic?
    {
      hide Consistent, Addr, InodesOk, FilesKept, FileSystem.SumWraps, FileSystem.Piece, FileSystem.Full,
        FileSystem.IndirectGained;
      ReadFacts(sb, disk, inodes, owner, inum);
      if inodes[inum].kind == T_DEV {
        return Device;
      }
      if off > inodes[inum].size || SumWraps(off, n) {
        return Fail;
      }
      var want := if off + n > inodes[inum].size then inodes[inum].size - off else n;
      var dst: seq<byte> := [];
      var tot := 0;
      ghost var d, ip, file := disk, inodes, File(inum);
      hide Content;
      while tot < want
        invariant tot <= want
        invariant disk == d && inodes == ip && owner == old(owner) && logged == old(logged) && trace == old(trace)
        invariant dst == file[off..off + tot]
      {
        var piece := ReadPiece(inum, off + tot, want - tot);
        assert file[off..off + tot] + file[off + tot..off + tot + |piece|] == file[off..off + tot + |piece|];
        dst := dst + piece;
        tot := tot + |piece|;
      }
      return Ok(dst);
    }

    /** One pass of readi's loop. */
    method ReadPiece(inum: nat, p: nat, left: nat) returns (piece: seq<byte>)
      requires Valid() && inum < |inodes| && inodes[inum].kind != 0
      requires 0 < left && p + left <= inodes[inum].size
      modifies `disk, `inodes, `owner, `logged, `trace
      ensures disk == old(disk) && inodes == old(inodes) && owner == old(owner) && logged == old(logged)
        && trace == old(trace)
      ensures 0 < |piece| <= left && p + |piece| <= |File(inum)| && piece == File(inum)[p..p + |piece|]
    {
      hide Consistent, Addr, InodesOk, FilesKept, FileSystem.Piece, FileSystem.Full, FileSystem.IndirectGained;
      ReadFacts(sb, disk, inodes, owner, inum);
      var bn := p / BSIZE;
      assert Mapped(disk, inodes, inum, bn);
      var b, _ := Bmap(inum, bn);
      var m := Piece(p, left);
      SliceOfBlock(disk, inodes, inum, p, m);
      piece := disk[b.value][p % BSIZE..p % BSIZE + m];
    }

    static lemma PieceFacts(d0: seq<Block>, i0: seq<Inode>, disk: seq<Block>, inodes: seq<Inode>,
                            inum: nat, off: nat, src: seq<byte>, tot: nat)
      requires Progress(d0, i0, disk, inodes, inum, off, src, tot) && tot < |src|
      ensures inum < |inodes| && InodesOk(inodes) && (off + tot) / BSIZE < MAXFILE
    {
    }

    /** One pass of writei's loop: find or allocate block b of the file, patch it, log it. */
    method WritePiece(ghost d0: seq<Block>, ghost i0: seq<Inode>, inum: nat, off: nat, src: seq<byte>, tot: nat)
      returns (r: Result<nat>, ghost bitmaps: set<nat>, ghost b: nat)
      requires ValidBut(inum) && Progress(d0, i0, disk, inodes, inum, off, src, tot) && tot < |src|
      requires inodes[inum].kind != 0
      modifies `disk, `inodes, `owner, `logged, `trace
      ensures r.Ok? || r.Panic?
      ensures r.Panic? ==> Full() && Unmapped(inum, (off + tot) / BSIZE)
      ensures GrewAt(sb, old(owner), owner, inum, off + tot) && old(logged) <= logged
      ensures r.Ok? ==> RecordedAt(sb, old(owner), owner, logged, inum, off + tot)
      ensures r.Ok? ==> ValidBut(inum) && 0 < r.value && tot + r.value <= |src|
      ensures r.Ok? ==> (off + tot) % BSIZE + r.value <= BSIZE && Aligned(off, tot + r.value, |src|)
      ensures r.Ok? ==> Progress(d0, i0, disk, inodes, inum, off, src, tot + r.value)
      ensures r.Ok? && old(Mapped(disk, inodes, inum, (off + tot) / BSIZE)) ==> inodes == old(inodes) && bitmaps == {}
      ensures r.Ok? && old(Mapped(disk, inodes, inum, (off + tot) / BSIZE)) && old(Valid()) ==> Valid()
      ensures r.Ok? ==> PieceLogged(old(logged), logged, b, bitmaps, old(inodes), inodes, inum)
    {
      hide FileSystem.Traced, Consistent, Progress, Addr, Patched, FilesKept, Mapped, FileSystem.Piece, InodesOk, Grew,
        Recorded,
        FileSystem.Full, FileSystem.Unmapped;
      var bn := (off + tot) / BSIZE;
      PieceFacts(d0, i0, disk, inodes, inum, off, src, tot);
      r, bitmaps := Bmap(inum, bn);
      b := 0;
      if r.Panic? {
        return;
      }
      b := r.value;
      var m, o := Piece(off + tot, |src| - tot), (off + tot) % BSIZE;
      WriteStep(sb, d0, i0, old(disk), old(inodes), disk, inodes, owner, inum, off, src, tot, m);
      PieceRecorded(sb, disk, inodes, old(owner), owner, logged, inum, bn, b);
      LogWrite(r.value, Patched(disk[r.value], o, src[tot..tot + m]));
      r := Ok(m);
    }

    static lemma PieceRecorded(sb: Super, disk: seq<Block>, inodes: seq<Inode>, o: Owner, owner: Owner,
                               logged: set<nat>, inum: nat, bn: nat, b: nat)
      requires Consistent(sb, disk, inodes, owner, inum) && inum < |inodes| && bn < MAXFILE
      requires Addr(disk, inodes, FileSlot(inum, bn)) == b != 0 && Recorded(sb, o, owner, logged, inum, bn, bn)
      ensures Recorded(sb, o, owner, logged + {b}, inum, bn, bn + 1) && sb.inodestart <= b
    {
      hide Addr, Recorded, Used, Super.BitmapBlock, Sound;
      OneHolder(sb, disk, inodes, owner, FileSlot(inum, bn), FileSlot(inum, bn));
      RecordedPatch(sb, disk, inodes, o, owner, logged, logged + {b}, inum, bn, b);
    }

    /** The number of the inode's indirect block. */
    static function IndirectAddr(inodes: seq<Inode>, inum: nat): nat {
      if inum < |inodes| && NDIRECT < |inodes[inum].addrs| then inodes[inum].addrs[NDIRECT] else 0
    }

    static function IndirectGained(inodes: seq<Inode>, inodes': seq<Inode>, inum: nat): nat {
      if IndirectAddr(inodes', inum) == IndirectAddr(inodes, inum) then 0 else 1
    }

    /** Some block maps need an indirect block, which is then logged with its entries. */
    static function Indirect(inodes: seq<Inode>, inum: nat): set<nat> {
      if IndirectAddr(inodes, inum) == 0 then {} else {IndirectAddr(inodes, inum)}
    }

    /** bmap from (d, ip) to (disk, inodes) and then the patch, seen as one step of the write. */
    static lemma WriteStep(sb: Super, d0: seq<Block>, i0: seq<Inode>, d: seq<Block>, ip: seq<Inode>,
                           disk: seq<Block>, inodes: seq<Inode>, owner: Owner,
                           inum: nat, off: nat, src: seq<byte>, tot: nat, m: nat)
      requires Progress(d0, i0, d, ip, inum, off, src, tot) && Consistent(sb, disk, inodes, owner, inum)
      requires FilesKept(d, ip, disk, inodes, {}) && inodes == ip[inum := ip[inum].(addrs := inodes[inum].addrs)]
      requires 0 < m && tot + m <= |src| && (off + tot) % BSIZE + m <= BSIZE
      requires Mapped(disk, inodes, inum, (off + tot) / BSIZE)
      ensures var bn, o, piece := (off + tot) / BSIZE, (off + tot) % BSIZE, src[tot..tot + m];
        var b := Addr(disk, inodes, FileSlot(inum, bn));
        && b < |disk| && var disk' := disk[b := Patched(disk[b], o, piece)];
        && Progress(d0, i0, disk', inodes, inum, off, src, tot + m)
        && Consistent(sb, disk', inodes, owner, inum)
        && (Consistent(sb, disk, inodes, owner, sb.ninodes) ==> Consistent(sb, disk', inodes, owner, sb.ninodes))
    {
      var bn, o, piece := (off + tot) / BSIZE, (off + tot) % BSIZE, src[tot..tot + m];
      ProgressAlloc(d0, i0, d, ip, inum, off, src, tot, disk, inodes);
      PatchFile(sb, disk, inodes, owner, inum, inum, bn, o, piece);
      var b := Addr(disk, inodes, FileSlot(inum, bn));
      var disk' := disk[b := Patched(disk[b], o, piece)];
      ProgressPatch(d0, i0, disk, inodes, inum, off, src, tot, m, disk');
      if Consistent(sb, disk, inodes, owner, sb.ninodes) {
        PatchFile(sb, disk, inodes, owner, sb.ninodes, inum, bn, o, piece);
      }
    }

    /** A file block of the write is missing. */
    ghost predicate OutOfBlocks(inum: nat, off: nat, n: nat)
      reads `disk, `inodes, `owner, `logged, `trace, `base
    {
      ValidBut(inum) && Lacks(disk, inodes, inum, off / BSIZE, off / BSIZE + Blocks(off, n))
    }

    lemma RunsOut(inum: nat, off: nat, n: nat, bn: nat)
      requires Unmapped(inum, bn) && off + n <= MAXFILE * BSIZE && off / BSIZE <= bn < off / BSIZE + Blocks(off, n)
      ensures OutOfBlocks(inum, off, n)
    {
      hide Mapped, Owned;
      OwnedShape(sb, disk, inodes, owner);
      BlocksFit(off, n);
    }

    /** writei's loop. */
    method WriteAll(inum: nat, off: nat, src: seq<byte>) returns (r: Result<nat>, ghost touched: set<nat>)
      requires Valid() && inum < |inodes| && inodes[inum].kind != 0
      requires off <= inodes[inum].size && off + |src| <= MAXFILE * BSIZE
      modifies `disk, `inodes, `owner, `logged, `trace
      ensures (r.Panic? && Full() && OutOfBlocks(inum, off, |src|)) || r == Ok(|src|)
      ensures Gains(sb, old(owner), owner, inum, off, |src|)
      ensures r.Ok? ==> Records(sb, old(owner), owner, logged, inum, off, |src|)
      ensures r.Ok? ==> ValidBut(inum) && Progress(old(disk), old(inodes), disk, inodes, inum, off, src, |src|)
      ensures r.Ok? && off + |src| <= old(inodes[inum].size) ==> Valid() && inodes == old(inodes)
      ensures r.Ok? ==> logged <= old(logged) + touched
      ensures r.Ok? ==> |touched| + 1 <= TransactionBound(off, |src|)
    {
      hide FileSystem.Going, FileSystem.Full, FileSystem.OutOfBlocks, Gains, Records, Consistent, Progress,
        TransactionBound;
      touched := {};
      ghost var d0, i0, owner0, l0, data: set<nat>, bitmaps: set<nat> := disk, inodes, owner, logged, {}, {};
      GoingStarts(inum, off, src);
      var tot := 0;
      while tot < |src|
        invariant tot <= |src| && Going(d0, i0, owner0, l0, inum, off, src, tot, data, bitmaps)
      {
        r, data, bitmaps := WriteNext(d0, i0, owner0, l0, inum, off, src, tot, data, bitmaps);
        if r.Panic? {
          return;
        }
        tot := tot + r.value;
      }
      touched := data + bitmaps + Indirect(inodes, inum);
      GoingEnds(d0, i0, owner0, l0, inum, off, src, data, bitmaps);
      r := Ok(|src|);
    }

    /** After tot bytes of the write: what is in place, which blocks were gained and logged, and how
        many.  `data` and `bitmaps` are the file blocks and bitmap blocks logged. */
    ghost predicate Going(d0: seq<Block>, i0: seq<Inode>, owner0: Owner, l0: set<nat>, inum: nat, off: nat,
                          src: seq<byte>, tot: nat, data: set<nat>, bitmaps: set<nat>)
      reads `disk, `inodes, `owner, `logged, `trace, `base
    {
      && tot <= |src| && Aligned(off, tot, |src|)
      && ValidBut(inum) && Progress(d0, i0, disk, inodes, inum, off, src, tot)
      && i0[inum].kind != 0 && (off + tot <= i0[inum].size ==> Valid() && inodes == i0)
      && Accounted(l0, logged, data, bitmaps, i0, inodes, inum, off, tot)
      && Gains(sb, owner0, owner, inum, off, tot) && Records(sb, owner0, owner, logged, inum, off, tot)
    }

    lemma GoingStarts(inum: nat, off: nat, src: seq<byte>)
      requires Valid() && inum < |inodes| && inodes[inum].kind != 0
      requires off <= inodes[inum].size && off + |src| <= MAXFILE * BSIZE
      ensures Going(disk, inodes, owner, logged, inum, off, src, 0, {}, {})
    {
      hide Consistent, Progress, Gains, Records, Tally, FileSystem.Accounted;
      WriteStarts(sb, disk, inodes, owner, inum, off, src);
      AccountStarts(logged, inodes, inum, off);
      RecordsStart(sb, owner, logged, inum, off);
    }

    lemma GoingEnds(d0: seq<Block>, i0: seq<Inode>, owner0: Owner, l0: set<nat>, inum: nat, off: nat,
                    src: seq<byte>, data: set<nat>, bitmaps: set<nat>)
      requires Going(d0, i0, owner0, l0, inum, off, src, |src|, data, bitmaps)
      ensures inum < |i0|
      ensures Gains(sb, owner0, owner, inum, off, |src|) && Records(sb, owner0, owner, logged, inum, off, |src|)
      ensures ValidBut(inum) && Progress(d0, i0, disk, inodes, inum, off, src, |src|)
      ensures off + |src| <= i0[inum].size ==> Valid() && inodes == i0
      ensures var touched := data + bitmaps + Indirect(inodes, inum);
        logged <= l0 + touched && |touched| + 1 <= TransactionBound(off, |src|)
    {
      hide Consistent, Gains, Records, TransactionBound, FileSystem.Accounted;
      AccountEnds(l0, logged, data, bitmaps, i0, inodes, inum, off, |src|);
    }

    /** One more piece. */
    method WriteNext(ghost d0: seq<Block>, ghost i0: seq<Inode>, ghost owner0: Owner, ghost l0: set<nat>, inum: nat,
                     off: nat, src: seq<byte>, tot: nat, ghost data: set<nat>, ghost bitmaps: set<nat>)
      returns (r: Result<nat>, ghost data': set<nat>, ghost bitmaps': set<nat>)
      requires Going(d0, i0, owner0, l0, inum, off, src, tot, data, bitmaps) && tot < |src|
      modifies `disk, `inodes, `owner, `logged, `trace
      ensures r.Ok? || r.Panic?
      ensures r.Panic? ==> Full() && OutOfBlocks(inum, off, |src|) && Gains(sb, owner0, owner, inum, off, |src|)
      ensures r.Ok? ==> 0 < r.value && tot + r.value <= |src|
      ensures r.Ok? ==> Going(d0, i0, owner0, l0, inum, off, src, tot + r.value, data', bitmaps')
    {
      hide Consistent, Progress, Addr, Mapped, InodesOk, Tally, Aligned, TransactionBound, FileSystem.IndirectGained,
        FileSystem.Accounted, FileSystem.PieceLogged, Gains, Records, GrewAt, RecordedAt, FileSystem.Full,
        FileSystem.Unmapped, FileSystem.OutOfBlocks;
      ghost var o, ip, was := owner, inodes, logged;
      data', bitmaps' := data, bitmaps;
      MappedBefore(d0, i0, disk, inodes, inum, off, src, tot);
      ghost var more, b;
      r, more, b := WritePiece(d0, i0, inum, off, src, tot);
      if r.Panic? {
        GainsStop(sb, owner0, o, owner, inum, off, tot, |src|);
        RunsOut(inum, off, |src|, (off + tot) / BSIZE);
        return;
      }
      RecordsStep(sb, owner0, o, owner, was, logged, inum, off, tot, |src|, r.value);
      AccountStep(l0, was, logged, data, bitmaps, b, more, i0, ip, inodes, inum, off, tot, |src|, r.value);
      data', bitmaps' := data + {b}, bitmaps + more;
    }

    static lemma AccountEnds(l0: set<nat>, l: set<nat>, data: set<nat>, bitmaps: set<nat>,
                             i0: seq<Inode>, inodes: seq<Inode>, inum: nat, off: nat, n: nat)
      requires Accounted(l0, l, data, bitmaps, i0, inodes, inum, off, n)
      ensures var touched := data + bitmaps + Indirect(inodes, inum);
        l <= l0 + touched && |touched| + 1 <= TransactionBound(off, n)
    {
      TallyEnds(off, n, data, bitmaps, IndirectGained(i0, inodes, inum), Indirect(inodes, inum));
    }

    /** What one piece logs: block b, bitmap blocks and perhaps the indirect block. */
    static ghost predicate PieceLogged(l1: set<nat>, l2: set<nat>, b: nat, bitmaps: set<nat>,
                                       i1: seq<Inode>, i2: seq<Inode>, inum: nat)
    {
      && l2 <= l1 + bitmaps + {b} + Indirect(i2, inum)
      && |bitmaps| <= 1 + IndirectGained(i1, i2, inum)
      && (IndirectAddr(i1, inum) != 0 ==> IndirectGained(i1, i2, inum) == 0)
    }

    /** The blocks logged so far: data blocks, bitmap blocks and at most one indirect block. */
    static ghost predicate Accounted(l0: set<nat>, l: set<nat>, data: set<nat>, bitmaps: set<nat>,
                                     i0: seq<Inode>, inodes: seq<Inode>, inum: nat, off: nat, tot: nat)
    {
      && l <= l0 + data + bitmaps + Indirect(inodes, inum)
      && Tally(off, tot, |data|, |bitmaps|, IndirectGained(i0, inodes, inum))
      && (IndirectAddr(i0, inum) != 0 ==> IndirectGained(i0, inodes, inum) == 0)
      && (IndirectAddr(inodes, inum) == 0 ==> IndirectGained(i0, inodes, inum) == 0)
    }

    static lemma AccountStarts(l0: set<nat>, i0: seq<Inode>, inum: nat, off: nat)
      requires Tally(off, 0, 0, 0, 0)
      ensures Accounted(l0, l0, {}, {}, i0, i0, inum, off, 0)
    {
    }

    static lemma AccountStep(l0: set<nat>, l1: set<nat>, l2: set<nat>, data: set<nat>, bitmaps: set<nat>,
                             b: nat, more: set<nat>, i0: seq<Inode>, i1: seq<Inode>, i2: seq<Inode>,
                             inum: nat, off: nat, tot: nat, n: nat, m: nat)
      requires Accounted(l0, l1, data, bitmaps, i0, i1, inum, off, tot) && Aligned(off, tot, n) && tot < n
      requires 0 < m && (off + tot) % BSIZE + m <= BSIZE
      requires PieceLogged(l1, l2, b, more, i1, i2, inum)
      requires tot == 0 && off % BSIZE != 0 ==> more == {}
      ensures Accounted(l0, l2, data + {b}, bitmaps + more, i0, i2, inum, off, tot + m)
    {
      hide Tally, Aligned;
      TallyStep(off, tot, n, m, |data|, |bitmaps|, IndirectGained(i0, i1, inum),
                |data + {b}|, |bitmaps + more|, IndirectGained(i0, i2, inum));
    }

    static lemma WriteStarts(sb: Super, disk: seq<Block>, inodes: seq<Inode>, owner: Owner, inum: nat, off: nat,
                             src: seq<byte>)
      requires Consistent(sb, disk, inodes, owner, sb.ninodes) && inum < |inodes|
      requires off <= inodes[inum].size && off + |src| <= MAXFILE * BSIZE
      ensures Consistent(sb, disk, inodes, owner, inum) && Progress(disk, inodes, disk, inodes, inum, off, src, 0)
      ensures Aligned(off, 0, |src|) && Tally(off, 0, 0, 0, 0)
    {
      assert Sound(disk, inodes, inum) && InodesOk(inodes) && inodes[inum].Valid();
      ProgressStarts(disk, inodes, inum, off, src);
    }

    /** The block that the next piece goes to exists already when the file reaches past its start. */
    static lemma MappedBefore(d0: seq<Block>, i0: seq<Inode>, disk: seq<Block>, inodes: seq<Inode>,
                              inum: nat, off: nat, src: seq<byte>, tot: nat)
      requires Progress(d0, i0, disk, inodes, inum, off, src, tot) && tot < |src|
      ensures (off + tot) / BSIZE < MAXFILE
      ensures off + tot < i0[inum].size || (tot == 0 && off % BSIZE != 0) ==>
        Mapped(disk, inodes, inum, (off + tot) / BSIZE)
      ensures inum < |inodes| == |i0| && inodes[inum].kind == i0[inum].kind && off + |src| <= MAXFILE * BSIZE
    {
    }

    /** writei: on success the file's bytes are overwritten from off on and extended as needed, no
        other file changes, every on-disk inode is current, and the blocks logged are bounded. */
    method Writei(inum: nat, off: nat, src: seq<byte>) returns (r: Result<nat>)
      requires Valid() && inum < |inodes| && inodes[inum].kind != 0 && off < U32 && |src| < U32
      modifies `disk, `inodes, `owner, `logged, `trace
      ensures r.Device? <==> old(inodes[inum].kind) == T_DEV
      ensures r.Fail? <==>
        && old(inodes[inum].kind) != T_DEV
        && (off > old(inodes[inum].size) || off + |src| >= U32 || off + |src| > MAXFILE * BSIZE)
      ensures r.Device? || r.Fail? ==>
        disk == old(disk) && inodes == old(inodes) && owner == old(owner) && logged == old(logged)
          && trace == old(trace)
      ensures r.Panic? ==> Full() && OutOfBlocks(inum, off, |src|)
      ensures r.Ok? || r.Panic? ==> Gains(sb, old(owner), owner, inum, off, |src|)
      ensures r.Ok? ==> Records(sb, old(owner), owner, logged, inum, off, |src|)
      ensures r.Ok? ==> r.value == |src| && Valid() && |inodes| == |old(inodes)|
      ensures r.Ok? && inodes[inum].size > old(inodes[inum].size) ==> sb.InodeBlock(inum) in logged
      ensures r.Ok? ==> File(inum) == Overwritten(old(File(inum)), off, src)
      ensures r.Ok? ==> OthersUnchanged(old(disk), old(inodes), disk, inodes, inum)
      ensures r.Ok? ==> inodes[inum] == old(inodes[inum]).(size := inodes[inum].size, addrs := inodes[inum].addrs)
      ensures r.Ok? ==> |logged - old(logged)| <= TransactionBound(off, |src|)
    {
      hide Gains, Records, FileSystem.Full, FileSystem.OutOfBlocks, Progress, Owned, Synced, Addr, HoleFree,
        Overwritten, Content, TransactionBound, OthersUnchanged;
      if inodes[inum].kind == T_DEV {
        return Device;
      }
      if off > inodes[inum].size || SumWraps(off, |src|) {
        return Fail;
      }
      if off + |src| > MAXFILE * BSIZE {
        return Fail;
      }
      ghost var touched;
      r, touched := WriteAll(inum, off, src);
      if r.Panic? {
        return;
      }
      ghost var l := logged;
      SetSize(old(disk), old(inodes), old(owner), inum, off, src);
      RecordsMore(sb, old(owner), owner, l, logged, inum, off, |src|);
      SubsetSize(logged - old(logged), touched + (logged - l));
      SetSum(touched, logged - l);
    }

    /** The end of writei: a file that grew gets its new size. */
    method SetSize(ghost d0: seq<Block>, ghost i0: seq<Inode>, ghost owner0: Owner, inum: nat, off: nat, src: seq<byte>)
      requires Consistent(sb, d0, i0, owner0, sb.ninodes) && ValidBut(inum)
      requires Progress(d0, i0, disk, inodes, inum, off, src, |src|)
      requires off + |src| <= i0[inum].size ==> Valid() && inodes == i0
      requires i0[inum].kind != 0
      modifies `disk, `inodes, `logged, `trace
      ensures Valid() && |inodes| == |i0| && File(inum) == Overwritten(Content(d0, i0, inum), off, src)
      ensures OthersUnchanged(d0, i0, disk, inodes, inum)
      ensures inodes[inum] == i0[inum].(size := Max(i0[inum].size, off + |src|), addrs := inodes[inum].addrs)
      ensures logged == if inodes[inum].size > i0[inum].size then old(logged) + {sb.InodeBlock(inum)} else old(logged)
    {
      assert forall i :: 0 <= i < |i0| ==> Sound(d0, i0, i);
      ghost var d, ip := disk, inodes;
      ghost var ip' := ip[inum := ip[inum].(size := Max(i0[inum].size, off + |src|))];
      ProgressEnds(d0, i0, d, ip, inum, off, src, ip');
      if |src| > 0 && off + |src| > inodes[inum].size {
        inodes := inodes[inum := inodes[inum].(size := off + |src|)];
        Retouch(sb, d, ip, owner, inum, inodes[inum]);
        Iupdate(inum);
      }
      WriteEnds(d0, i0, d, ip', disk, inum);
    }

    static lemma SetSum(a: set<nat>, b: set<nat>)
      ensures |a + b| <= |a| + |b|
    {
    }

    static lemma {:induction false} SubsetSize(a: set<nat>, b: set<nat>)
      requires a <= b
      ensures |a| <= |b|
    {
      assert b == a + (b - a);
    }

    /** iupdate leaves every file as the write left it. */
    static lemma WriteEnds(d0: seq<Block>, i0: seq<Inode>, d: seq<Block>, ip: seq<Inode>, disk: seq<Block>, inum: nat)
      requires FilesKept(d0, i0, d, ip, {inum}) && inum < |ip| && InodesOk(ip)
      requires HoleFree(d, ip, inum, ip[inum].size)
      requires disk == d || FilesKept(d, ip, disk, ip, {})
      requires forall i :: 0 <= i < |i0| ==> Sound(d0, i0, i)
      ensures Content(disk, ip, inum) == Content(d, ip, inum)
      ensures forall i :: 0 <= i < |i0| && i != inum ==> Content(disk, ip, i) == Content(d0, i0, i)
    {
      if disk != d {
        KeptContent(d, ip, disk, ip, {}, inum);
      }
      forall i | 0 <= i < |i0| && i != inum ensures Content(disk, ip, i) == Content(d0, i0, i) {
        assert Sound(d0, i0, i);
        KeptContent(d0, i0, d, ip, {inum}, i);
        if disk != d {
          KeptContent(d, ip, disk, ip, {}, i);
        }
      }
    }

    /** bfree: callers free marked blocks only, so "freeing free block" cannot happen. */
    method Bfree(b: nat)
      requires Shaped(sb, disk) && b < sb.size && Used(sb, disk, b)
      modifies `disk, `logged, `trace
      ensures disk == Marked(sb, old(disk), b, false) && logged == old(logged) + {sb.BitmapBlock(b)}
      ensures old(Traced()) ==> Traced()
    {
      hide FileSystem.Traced;
      InodesAfterLog(sb, b);
      var bp, bi := disk[sb.BitmapBlock(b)], b % BPB;
      if !Bit(bp[bi / 8], bi % 8) {
        assert false;  // panic("freeing free block")
      }
      ByteRange();
      LogWrite(sb.BitmapBlock(b), bp[bi / 8 := PutBit(bp[bi / 8], bi % 8, false, 8)]);
    }

    ghost predicate Trunc(d0: seq<Block>, i0: seq<Inode>, owner0: Owner, inum: nat, freed: set<nat>, loose: set<Slot>)
      reads `disk, `inodes, `owner, `logged, `trace, `base
    {
      Truncating(sb, d0, i0, owner0, disk, inodes, owner, inum, freed, loose) && Traced()
    }

    /** The loop over the direct blocks. */
    method TruncDirect(inum: nat)
      requires Valid() && inum < |inodes|
      modifies `disk, `inodes, `owner, `logged, `trace
      ensures Trunc(old(disk), old(inodes), old(owner), inum, Upto(0, NDIRECT), {}) && inum < |inodes|
      ensures forall k :: 0 <= k < NDIRECT ==> inodes[inum].addrs[k] == 0
      ensures logged == old(logged) + GivenBack(sb, old(owner), owner)
    {
      ghost var d0, i0, owner0 := disk, inodes, owner;
      hide Consistent, Truncating, Owned, Used, Marked, Super.BitmapBlock, FileSystem.Traced;
      TruncStarts(sb, d0, i0, owner0, inum);
      assert GivenBack(sb, owner0, owner) == {};
      hide GivenBack;
      var i := 0;
      while i < NDIRECT
        invariant i <= NDIRECT && inum < |inodes| && |inodes[inum].addrs| == NDIRECT + 1
        invariant Trunc(d0, i0, owner0, inum, Upto(0, i), {})
        invariant forall k :: 0 <= k < i ==> inodes[inum].addrs[k] == 0
        invariant logged == old(logged) + GivenBack(sb, owner0, owner)
      {
        if inodes[inum].addrs[i] != 0 {
          TruncAddr(sb, d0, i0, owner0, disk, inodes, owner, inum, Upto(0, i), {}, i);
          var b := inodes[inum].addrs[i];
          Bfree(b);
          inodes := inodes[inum := inodes[inum].(addrs := inodes[inum].addrs[i := 0])];
          owner := owner - {b};
        } else {
          TruncSkip(sb, d0, i0, owner0, disk, inodes, owner, inum, Upto(0, i), {}, i);
        }
        i := i + 1;
      }
    }

    /** One entry of the indirect block, whose buffer is a. */
    method TruncOne(ghost d0: seq<Block>, ghost i0: seq<Inode>, ghost owner0: Owner, ghost l0: set<nat>, inum: nat,
                    ghost freed: set<nat>, ghost loose: set<Slot>, a: Block, j: nat)
      returns (ghost freed': set<nat>, ghost loose': set<Slot>)
      requires Trunc(d0, i0, owner0, inum, freed, loose) && inum < |inodes|
      requires logged == l0 + GivenBack(sb, owner0, owner)
      requires |inodes[inum].addrs| == NDIRECT + 1 && j < NINDIRECT && NDIRECT + 1 + j !in freed
      requires var ind := inodes[inum].addrs[NDIRECT];
        ind != 0 && sb.data <= ind < sb.size == |disk| && disk[ind] == a
      modifies `disk, `owner, `logged, `trace
      ensures Trunc(d0, i0, owner0, inum, freed', loose') && logged == l0 + GivenBack(sb, owner0, owner)
      ensures freed' == freed + {NDIRECT + 1 + j} && |disk| == sb.size && disk[inodes[inum].addrs[NDIRECT]] == a
    {
      hide Truncating, Owned, Used, Marked, Super.BitmapBlock, Word, GivenBack, FileSystem.Traced;
      ghost var k: nat := NDIRECT + 1 + j;
      assert Addr(disk, inodes, Slot(inum, k)) == Word(a, j);
      loose' := loose;
      if Word(a, j) != 0 {
        TruncEntry(sb, d0, i0, owner0, disk, inodes, owner, inum, freed, loose, k);
        loose' := loose + {Slot(inum, k)};
        Bfree(Word(a, j));
        owner := owner - {Word(a, j)};
      } else {
        TruncSkip(sb, d0, i0, owner0, disk, inodes, owner, inum, freed, loose, k);
      }
      freed' := freed + {k};
    }

    /** The loop over the indirect block, then the indirect block itself. */
    method TruncIndirect(ghost d0: seq<Block>, ghost i0: seq<Inode>, ghost owner0: Owner, ghost l0: set<nat>, inum: nat)
      requires logged == l0 + GivenBack(sb, owner0, owner)
      requires Trunc(d0, i0, owner0, inum, Upto(0, NDIRECT), {}) && inum < |inodes|
      requires inodes[inum].addrs[NDIRECT] != 0
      modifies `disk, `inodes, `owner, `logged, `trace
      ensures Trunc(d0, i0, owner0, inum, Upto(0, MAXFILE + 1), {}) && inum < |inodes|
      ensures inodes[inum] == old(inodes[inum]).(addrs := old(inodes[inum].addrs)[NDIRECT := 0])
      ensures logged == l0 + GivenBack(sb, owner0, owner)
    {
      hide Consistent, Truncating, Owned, Used, Marked, Super.BitmapBlock, Word, GivenBack, FileSystem.Traced;
      TruncShape(sb, d0, i0, owner0, disk, inodes, owner, inum, Upto(0, NDIRECT), {});
      var ind := inodes[inum].addrs[NDIRECT];
      IndirectHeld(sb, disk, inodes, owner, inum);
      var a := disk[ind];
      ghost var loose: set<Slot> := {};
      ghost var freed: set<nat> := Upto(0, NDIRECT);
      var j := 0;
      while j < NINDIRECT
        invariant j <= NINDIRECT && inum < |inodes| && inodes == old(inodes)
        invariant Trunc(d0, i0, owner0, inum, freed, loose)
        invariant forall k :: k in freed <==> 0 <= k < NDIRECT || NDIRECT < k <= NDIRECT + j
        invariant sb.data <= ind < sb.size == |disk| && disk[ind] == a && logged == l0 + GivenBack(sb, owner0, owner)
      {
        freed, loose := TruncOne(d0, i0, owner0, l0, inum, freed, loose, a, j);
        j := j + 1;
      }
      TruncAddr(sb, d0, i0, owner0, disk, inodes, owner, inum, freed, loose, NDIRECT);
      assert freed + {NDIRECT} == Upto(0, MAXFILE + 1);
      Bfree(ind);
      inodes := inodes[inum := inodes[inum].(addrs := inodes[inum].addrs[NDIRECT := 0])];
      owner := owner - {ind};
    }

    /** ip->size = 0; iupdate(ip) */
    method TruncFinish(ghost d0: seq<Block>, ghost i0: seq<Inode>, ghost owner0: Owner, inum: nat)
      requires Trunc(d0, i0, owner0, inum, Upto(0, MAXFILE + 1), {}) && inum < |inodes| && NoAddrs(inodes[inum])
      requires Consistent(sb, d0, i0, owner0, inum)
      modifies `disk, `inodes, `logged, `trace
      ensures Valid() && inum < |inodes| && inodes[inum] == old(inodes[inum]).(size := 0)
      ensures forall b :: b in owner <==> b in owner0 && owner0[b].inum != inum
      ensures forall b :: b in owner ==> owner[b] == owner0[b]
      ensures OthersUnchanged(d0, i0, disk, inodes, inum) && logged == old(logged) + {sb.InodeBlock(inum)}
    {
      ghost var d, ip := disk, inodes;
      inodes := inodes[inum := inodes[inum].(size := 0)];
      TruncEnds(sb, d0, i0, owner0, d, ip, owner, inum, Upto(0, MAXFILE + 1), inodes);
      assert forall i :: 0 <= i < |i0| ==> Sound(d0, i0, i);
      hide Owned, Used, Addr, Truncating;
      Iupdate(inum);
      WriteEnds(d0, i0, d, inodes, disk, inum);
    }

    /** itrunc: the file gives back exactly its own blocks and becomes empty; every other file keeps
        its blocks, contents and on-disk inode. */
    method Itrunc(inum: nat)
      requires Valid() && inum < |inodes|
      modifies `disk, `inodes, `owner, `logged, `trace
      ensures Valid() && inum < |inodes| && NoAddrs(inodes[inum])
      ensures inodes[inum] == old(inodes[inum]).(size := 0, addrs := inodes[inum].addrs)
      ensures forall b :: b in owner <==> b in old(owner) && old(owner)[b].inum != inum
      ensures forall b :: b in owner ==> owner[b] == old(owner)[b]
      ensures OthersUnchanged(old(disk), old(inodes), disk, inodes, inum)
      ensures logged == old(logged) + HeldBitmaps(sb, old(owner), inum) + {sb.InodeBlock(inum)}
    {
      hide GivenBack, HeldBitmaps;
      assert Consistent(sb, disk, inodes, owner, inum);
      ghost var d0, i0, owner0, l0 := disk, inodes, owner, logged;
      TruncDirect(inum);
      if inodes[inum].addrs[NDIRECT] != 0 {
        TruncIndirect(d0, i0, owner0, l0, inum);
      } else {
        TruncNoIndirect(sb, d0, i0, owner0, disk, inodes, owner, inum, Upto(0, NDIRECT), Upto(0, MAXFILE + 1));
      }
      TruncFinish(d0, i0, owner0, inum);
      GivenBackAll(sb, owner0, owner, inum);
    }

    /** ialloc, and the ilock that first reads the inode: the lowest free inode becomes an empty file. */
    method Ialloc(kind: nat) returns (r: Result<nat>)
      requires Valid() && 0 < kind < 0x1_0000
      modifies `disk, `inodes, `logged, `trace
      ensures r.Ok? || r.Panic?
      ensures r.Panic? ==> disk == old(disk) && inodes == old(inodes)
      ensures r.Panic? ==> forall i :: 1 <= i < |inodes| ==> inodes[i].kind != 0
      ensures r.Ok? ==> Valid() && 1 <= r.value < |inodes| == |old(inodes)|
      ensures r.Ok? ==> old(inodes)[r.value].kind == 0 && forall i :: 1 <= i < r.value ==> old(inodes)[i].kind != 0
      ensures r.Ok? ==> inodes[r.value].kind == kind && File(r.value) == []
      ensures r.Ok? ==> OthersUnchanged(old(disk), old(inodes), disk, inodes, r.value)
      ensures r.Ok? ==> logged == old(logged) + {sb.InodeBlock(r.value)}
      ensures r.Panic? ==> logged == old(logged) && trace == old(trace)
    {
      hide Owned, Used, Addr, GetInode, FileSystem.Traced;
      OwnedShape(sb, disk, inodes, owner);
      ghost var d0, i0 := disk, inodes;
      assert forall i :: 0 <= i < |i0| ==> Sound(d0, i0, i);
      var inum := 1;
      while inum < sb.ninodes
        invariant 1 <= inum && disk == d0 && inodes == i0 && Valid()
        invariant logged == old(logged) && trace == old(trace)
        invariant forall i :: 1 <= i < inum && i < |inodes| ==> inodes[i].kind != 0
      {
        InodeSpot(sb, inum, inum);
        assert Synced(sb, disk, inodes, inum);
        if GetInode(disk[sb.InodeBlock(inum)], inum).kind == 0 {
          var ip := Inode(kind, 0, 0, 0, 0, seq(NDIRECT + 1, _ => 0));
          assert Sound(d0, i0, inum) && ip.addrs == inodes[inum].addrs;
          Retouch(sb, disk, inodes, owner, inum, ip);
          inodes := inodes[inum := ip];
          Iupdate(inum);
          WriteEnds(d0, i0, d0, inodes, disk, inum);
          return Ok(inum);
        }
        inum := inum + 1;
      }
      return Panic;
    }

    /** The end of iput for an inode with no links and no other references. */
    method IputLast(inum: nat)
      requires Valid() && inum < |inodes|
      modifies `disk, `inodes, `owner, `logged, `trace
      ensures Valid() && |inodes| == |old(inodes)| && inodes[inum].kind == 0
      ensures forall b :: b in owner <==> b in old(owner) && old(owner)[b].inum != inum
      ensures forall b :: b in owner ==> owner[b] == old(owner)[b]
      ensures OthersUnchanged(old(disk), old(inodes), disk, inodes, inum)
      ensures logged == old(logged) + HeldBitmaps(sb, old(owner), inum) + {sb.InodeBlock(inum)}
    {
      hide HeldBitmaps;
      Itrunc(inum);
      ghost var d0, i0 := disk, inodes;
      assert forall i :: 0 <= i < |i0| ==> Sound(d0, i0, i);
      Retouch(sb, disk, inodes, owner, inum, inodes[inum].(kind := 0));
      hide Owned, Used, Addr;
      inodes := inodes[inum := inodes[inum].(kind := 0)];
      Iupdate(inum);
      WriteEnds(d0, i0, d0, inodes, disk, inum);
    }

    lemma ValidInodes()
      requires Valid()
      ensures InodesOk(inodes) && |inodes| == sb.ninodes
    {
    }

    /** After some chunks of addr the file holds its first `done` bytes at off0. */
    static ghost predicate Wrote(d0: seq<Block>, i0: seq<Inode>, disk: seq<Block>, inodes: seq<Inode>,
                                 inum: nat, off0: nat, addr: seq<byte>, done: nat)
    {
      && OthersUnchanged(d0, i0, disk, inodes, inum) && done <= |addr|
      && inodes[inum].kind == i0[inum].kind
      && (done == 0 ==> disk == d0 && inodes == i0)
      && (done > 0 ==> i0[inum].kind != T_DEV && off0 + done <= MAXFILE * BSIZE && off0 <= i0[inum].size)
      && (done > 0 ==> Content(disk, inodes, inum) == Overwritten(Content(d0, i0, inum), off0, addr[..done]))
    }

    static lemma WroteStarts(disk: seq<Block>, inodes: seq<Inode>, inum: nat, off: nat, addr: seq<byte>)
      requires InodesOk(inodes) && inum < |inodes|
      ensures Wrote(disk, inodes, disk, inodes, inum, off, addr, 0)
    {
    }

    static lemma WroteBounds(d0: seq<Block>, i0: seq<Inode>, disk: seq<Block>, inodes: seq<Inode>,
                             inum: nat, off0: nat, addr: seq<byte>, done: nat)
      requires Wrote(d0, i0, disk, inodes, inum, off0, addr, done)
      ensures inum < |inodes| == |i0| && inodes[inum].kind == i0[inum].kind && i0[inum].size <= MAXFILE * BSIZE
      ensures done == 0 ==> inodes == i0
      ensures done > 0 ==> off0 + done <= MAXFILE * BSIZE && off0 <= i0[inum].size && i0[inum].kind != T_DEV
      ensures done > 0 ==> off0 + done <= inodes[inum].size
    {
      if done > 0 {
        assert |Content(disk, inodes, inum)| == inodes[inum].size;
        assert |Overwritten(Content(d0, i0, inum), off0, addr[..done])| >= off0 + done;
      }
    }

    /** One transaction of filewrite: writei on the next n1 bytes. */
    method WriteChunk(f: OpenFile, ghost d0: seq<Block>, ghost i0: seq<Inode>, ghost off0: nat, addr: seq<byte>,
                      i: nat, n1: nat)
      returns (r: Result<nat>)
      requires Valid() && f.inum < |inodes| && inodes[f.inum].kind != 0 && f.off == off0 + i < U32 && |addr| < U32
      requires Wrote(d0, i0, disk, inodes, f.inum, off0, addr, i) && 0 < n1 && i + n1 <= |addr|
      modifies `disk, `inodes, `owner, `logged, `trace, `base, f
      ensures r.Panic? ==> Full() && OutOfBlocks(f.inum, f.off, n1) && f.off == old(f.off)
      ensures r.Device? || r.Fail? ==> disk == old(disk) && inodes == old(inodes) && f.off == old(f.off) && Valid()
      ensures r.Device? || r.Fail? ==> owner == old(owner)
      ensures r.Fail? ==> f.off > inodes[f.inum].size || f.off + n1 > MAXFILE * BSIZE
      ensures r.Device? <==> old(inodes[f.inum].kind) == T_DEV
      ensures r.Ok? ==> Valid() && f.off == old(f.off) + n1 && f.inum < |inodes| && inodes[f.inum].kind != 0
      ensures r.Ok? ==> Wrote(d0, i0, disk, inodes, f.inum, off0, addr, i + n1)
      ensures base == old(disk) && (r.Device? || r.Fail? ==> trace == [])
      ensures r.Ok? && n1 <= CHUNK ==> |logged| <= MAXOPBLOCKS
    {
      hide Consistent, Content, Overwritten, TransactionBound, InodesOk;
      ghost var inum, d1, i1 := f.inum, disk, inodes;
      ValidInodes();
      BeginOp();
      r := Writei(f.inum, f.off, addr[i..i + n1]);
      if r.Ok? {
        ValidInodes();
        ChunkFits(f.off, n1);
        assert logged - {} == logged;
        UnchangedTwice(d0, i0, d1, i1, disk, inodes, inum);
        OverwrittenJoins(Content(d0, i0, inum), off0, addr, i, n1);
        assert addr[..0] == [];
        f.off := f.off + n1;
      }
    }

    /** filewrite for an inode: one transaction per chunk.  `done` bytes are in place at the end, and
        each transaction logged at most MAXOPBLOCKS distinct blocks.  Only a full disk that lacks a
        block for the next chunk keeps it from the answer that the call asks for. */
    method Filewrite(f: OpenFile, addr: seq<byte>) returns (r: Result<nat>, ghost done: nat, ghost ops: seq<set<nat>>)
      requires Valid() && f.inum < |inodes| && inodes[f.inum].kind != 0
      requires f.off < U32 && |addr| < U32
      modifies `disk, `inodes, `owner, `logged, `trace, `base, f
      ensures f.off == old(f.off) + done
      ensures r.Panic? ==> done < |addr| && Full() && OutOfBlocks(f.inum, f.off, NextChunk(done, |addr|))
      ensures !r.Panic? ==> Valid() && done <= |addr| && AtChunk(done, |addr|)
      ensures !r.Panic? ==> Wrote(old(disk), old(inodes), disk, inodes, f.inum, old(f.off), addr, done)
      ensures !r.Panic? ==>
        && r == Answer(f.writable, old(inodes[f.inum].kind), old(inodes[f.inum].size), old(f.off), |addr|)
        && done == Placed(f.writable, old(inodes[f.inum].kind), old(inodes[f.inum].size), old(f.off), |addr|)
      ensures forall i :: 0 <= i < |ops| ==> |ops[i]| <= MAXOPBLOCKS
    {
      hide Consistent, Content, Overwritten, AtChunk, FileSystem.Wrote, InodesOk;
      done, ops := 0, [];
      ValidInodes();
      AtChunkStart(|addr|);
      WroteStarts(disk, inodes, f.inum, f.off, addr);
      if !f.writable {
        return Fail, 0, [];
      }
      ghost var d0, i0, off0 := disk, inodes, f.off;
      var i := 0;
      while i < |addr|
        invariant i <= |addr| && done == i && f.off == off0 + i && AtChunk(i, |addr|)
        invariant Valid() && f.inum < |inodes| && inodes[f.inum].kind != 0
        invariant Wrote(d0, i0, disk, inodes, f.inum, off0, addr, i)
        invariant forall k :: 0 <= k < |ops| ==> |ops[k]| <= MAXOPBLOCKS
      {
        var n1 := if |addr| - i > CHUNK then CHUNK else |addr| - i;
        WroteBounds(d0, i0, disk, inodes, f.inum, off0, addr, i);
        r := WriteChunk(f, d0, i0, off0, addr, i, n1);
        if r.Panic? || r.Device? || r.Fail? {
          if r.Fail? { Refused(i0[f.inum].kind, i0[f.inum].size, off0, |addr|, i); }
          return;
        }
        AtChunkStep(i, |addr|, n1);
        ops := ops + [logged];
        i := i + n1;
        done := i;
      }
      WroteBounds(d0, i0, disk, inodes, f.inum, off0, addr, i);
      r := Ok(|addr|);
    }
  }
}
