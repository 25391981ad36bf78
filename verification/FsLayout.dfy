/** The on-disk file system as values: superblock, inodes, free bitmap, block ownership and file
    contents, with the effect that one block store or one block allocation has on all of them. */
module FsLayout {
  import opened Bytes
  import opened Param

  const NDIRECT: nat := 12
  const NINDIRECT: nat := WORDS
  const MAXFILE: nat := NDIRECT + NINDIRECT
  const IPB: nat := 8             // BSIZE / sizeof(struct dinode)
  const DINODE: nat := 16         // words in a struct dinode
  const BPB: nat := BSIZE * 8

  /** Blocks below `data` hold the boot block, superblock, log, inodes and bitmap. */
  datatype Super = Super(size: nat, ninodes: nat, inodestart: nat, bmapstart: nat, data: nat)
  {
    ghost predicate Valid() {
      && 0 < inodestart && inodestart + ninodes / IPB < bmapstart
      && bmapstart + size / BPB < data <= size <= U32
    }

    function InodeBlock(inum: nat): nat { inum / IPB + inodestart }
    function BitmapBlock(b: nat): nat { b / BPB + bmapstart }
  }

  /** The layout that mkfs computes: boot block, superblock, log, inodes, bitmap, data. */
  function Layout(size: nat, ninodes: nat): (sb: Super)
    ensures sb.Valid() <==> sb.data <= size <= U32
  {
    var bmapstart := 2 + LOGSIZE + ninodes / IPB + 1;
    Super(size, ninodes, 2 + LOGSIZE, bmapstart, bmapstart + size / BPB + 1)
  }

  // ---- Inodes -----------------------------------------------------------------------------

  /** struct dinode; `kind` is its type field, 0 for a free inode. */
  datatype Inode = Inode(kind: nat, major: nat, minor: nat, nlink: nat, size: nat, addrs: seq<nat>)
  {
    ghost predicate Valid() {
      && kind < 0x1_0000 && major < 0x1_0000 && minor < 0x1_0000 && nlink < 0x1_0000
      && size <= MAXFILE * BSIZE && |addrs| == NDIRECT + 1
      && forall k :: 0 <= k <= NDIRECT ==> addrs[k] < U32
    }
  }

  function InodeWords(ip: Inode): (ws: seq<nat>)
    requires ip.Valid()
    ensures |ws| == DINODE && forall i :: 0 <= i < DINODE ==> ws[i] < U32
  {
    [ip.kind + 0x1_0000 * ip.major, ip.minor + 0x1_0000 * ip.nlink, ip.size] + ip.addrs
  }

  function InodeOf(ws: seq<nat>): Inode
    requires |ws| == DINODE
  {
    Inode(ws[0] % 0x1_0000, ws[0] / 0x1_0000, ws[1] % 0x1_0000, ws[1] / 0x1_0000, ws[2], ws[3..])
  }

  function GetInode(b: Block, inum: nat): Inode {
    InodeOf(Words(b, DINODE * (inum % IPB), DINODE))
  }

  function PutInode(b: Block, inum: nat, ip: Inode): Block
    requires ip.Valid()
  {
    PutWords(b, DINODE * (inum % IPB), InodeWords(ip))
  }

  /** Storing an inode is read back exactly and disturbs no other inode of its block. */
  lemma InodeRoundTrip(b: Block, inum: nat, ip: Inode, other: nat)
    requires ip.Valid()
    ensures GetInode(PutInode(b, inum, ip), inum) == ip
    ensures other % IPB != inum % IPB ==> GetInode(PutInode(b, inum, ip), other) == GetInode(b, other)
  {
    var ws := InodeWords(ip);
    assert ws[3..] == ip.addrs;
    assert InodeOf(ws) == ip;
    if other % IPB != inum % IPB {
      var r := PutInode(b, inum, ip);
      assert Words(r, DINODE * (other % IPB), DINODE) == Words(b, DINODE * (other % IPB), DINODE);
    }
  }

  // ---- The free bitmap --------------------------------------------------------------------

  ghost predicate Shaped(sb: Super, disk: seq<Block>) {
    sb.Valid() && |disk| == sb.size
  }

  /** Block b's bitmap bit is set. */
  predicate Used(sb: Super, disk: seq<Block>, b: nat)
    requires Shaped(sb, disk) && b < sb.size
  {
    Bit(disk[sb.BitmapBlock(b)][b % BPB / 8], b % BPB % 8)
  }

  lemma BitmapRange(sb: Super, b: nat)
    requires sb.Valid() && b < sb.size
    ensures sb.bmapstart <= sb.BitmapBlock(b) < sb.data
  {
  }

  /** Stores outside block b's bitmap block leave its bit alone. */
  lemma SameBit(sb: Super, disk: seq<Block>, disk': seq<Block>, b: nat)
    requires Shaped(sb, disk) && Shaped(sb, disk') && b < sb.size
    requires disk'[sb.BitmapBlock(b)] == disk[sb.BitmapBlock(b)]
    ensures Used(sb, disk', b) == Used(sb, disk, b)
  {
  }

  function Marked(sb: Super, disk: seq<Block>, b: nat, on: bool): (r: seq<Block>)
    requires Shaped(sb, disk) && b < sb.size
    ensures Shaped(sb, r)
    ensures forall c :: 0 <= c < sb.size && c != sb.BitmapBlock(b) ==> r[c] == disk[c]
  {
    var bb, i := sb.BitmapBlock(b), b % BPB / 8;
    ByteRange();
    disk[bb := disk[bb][i := PutBit(disk[bb][i], b % BPB % 8, on, 8)]]
  }

  lemma BitPosition(b: nat, c: nat)
    requires b / BPB == c / BPB && b % BPB / 8 == c % BPB / 8 && b % BPB % 8 == c % BPB % 8
    ensures b == c
  {
  }

  /** Only block b's bit changes, and only in its bitmap block. */
  lemma MarkedBits(sb: Super, disk: seq<Block>, b: nat, on: bool, c: nat)
    requires Shaped(sb, disk) && b < sb.size && c < sb.size
    ensures Used(sb, Marked(sb, disk, b, on), c) == if c == b then on else Used(sb, disk, c)
  {
    ByteRange();
    var bb, i := sb.BitmapBlock(b), b % BPB / 8;
    var disk' := Marked(sb, disk, b, on);
    if sb.BitmapBlock(c) != bb {
      assert disk'[sb.BitmapBlock(c)] == disk[sb.BitmapBlock(c)];
    } else if c % BPB / 8 != i {
      assert disk'[bb][c % BPB / 8] == disk[bb][c % BPB / 8];
    } else if c % BPB % 8 == b % BPB % 8 {
      BitPosition(b, c);
    }
  }

  // ---- Who holds which block --------------------------------------------------------------

  /** A place that holds a block number: k <= NDIRECT is addrs[k], larger k is entry
      k - NDIRECT - 1 of the indirect block. */
  datatype Slot = Slot(inum: nat, k: nat)

  ghost predicate SlotOk(inodes: seq<Inode>, s: Slot) {
    s.inum < |inodes| && s.k <= MAXFILE
  }

  /** The block number in slot s, 0 when there is none. */
  function Addr(disk: seq<Block>, inodes: seq<Inode>, s: Slot): nat
    requires s.inum < |inodes| && |inodes[s.inum].addrs| == NDIRECT + 1 && s.k <= MAXFILE
  {
    var addrs := inodes[s.inum].addrs;
    if s.k <= NDIRECT then addrs[s.k]
    else if addrs[NDIRECT] == 0 || addrs[NDIRECT] >= |disk| then 0
    else Word(disk[addrs[NDIRECT]], s.k - NDIRECT - 1)
  }

  /** The slot of the file's nth block. */
  function FileSlot(inum: nat, bn: nat): Slot {
    Slot(inum, if bn < NDIRECT then bn else bn + 1)
  }

  type Owner = map<nat, Slot>

  ghost predicate InodesOk(inodes: seq<Inode>) {
    forall i :: 0 <= i < |inodes| ==> inodes[i].Valid()
  }

  /** Block b of the data area: its bit is set exactly when a slot holds it. */
  ghost predicate BlockOk(sb: Super, disk: seq<Block>, inodes: seq<Inode>, owner: Owner, b: nat)
    requires Shaped(sb, disk) && InodesOk(inodes) && b < sb.size
  {
    && (Used(sb, disk, b) <==> b in owner)
    && (b in owner ==> SlotOk(inodes, owner[b]) && Addr(disk, inodes, owner[b]) == b)
  }

  ghost predicate SlotHolds(disk: seq<Block>, inodes: seq<Inode>, owner: Owner, s: Slot)
    requires InodesOk(inodes) && SlotOk(inodes, s)
  {
    var b := Addr(disk, inodes, s);
    b != 0 ==> b in owner && owner[b] == s
  }

  /** Every block of the data area is held by at most one slot, the bitmap marks exactly the held
      blocks, and everything below the data area is marked.  Slots in `loose` are exempt: itrunc has
      freed their blocks but not yet forgotten them. */
  ghost predicate Owned(sb: Super, disk: seq<Block>, inodes: seq<Inode>, owner: Owner, loose: set<Slot>) {
    && Shaped(sb, disk) && InodesOk(inodes)
    && (forall b :: b in owner ==> sb.data <= b < sb.size)
    && (forall b :: sb.data <= b < sb.size ==> BlockOk(sb, disk, inodes, owner, b))
    && (forall b :: 0 <= b < sb.data ==> Used(sb, disk, b))
    && (forall s :: SlotOk(inodes, s) && s !in loose ==> SlotHolds(disk, inodes, owner, s))
    && (forall b :: b in owner ==> owner[b] !in loose)
  }

  /** A block whose stores cannot disturb the bitmap or any slot. */
  ghost predicate Plain(sb: Super, owner: Owner, b: nat) {
    (b < sb.bmapstart || sb.data <= b < sb.size) && (b in owner ==> owner[b].k != NDIRECT)
  }

  ghost predicate SameAddrs(disk: seq<Block>, inodes: seq<Inode>, disk': seq<Block>, inodes': seq<Inode>)
    requires InodesOk(inodes) && InodesOk(inodes') && |inodes| == |inodes'|
  {
    forall s :: SlotOk(inodes, s) ==> Addr(disk', inodes', s) == Addr(disk, inodes, s)
  }

  /** Storing into a data block or an inode block moves no block number. */
  lemma StorePlain(sb: Super, disk: seq<Block>, inodes: seq<Inode>, owner: Owner, b: nat, data: Block)
    requires Owned(sb, disk, inodes, owner, {}) && Plain(sb, owner, b) && b < sb.size
    ensures SameAddrs(disk, inodes, disk[b := data], inodes)
    ensures Owned(sb, disk[b := data], inodes, owner, {})
  {
    hide Used, Word, Super.BitmapBlock;
    var disk' := disk[b := data];
    forall s | SlotOk(inodes, s) ensures Addr(disk', inodes, s) == Addr(disk, inodes, s) {
      assert SlotHolds(disk, inodes, owner, Slot(s.inum, NDIRECT));
    }
    forall c | 0 <= c < sb.size ensures Used(sb, disk', c) == Used(sb, disk, c) {
      BitmapRange(sb, c);
      SameBit(sb, disk, disk', c);
    }
    forall c | sb.data <= c < sb.size ensures BlockOk(sb, disk', inodes, owner, c) {
      assert BlockOk(sb, disk, inodes, owner, c);
    }
    forall s | SlotOk(inodes, s) ensures SlotHolds(disk', inodes, owner, s) {
      assert SlotHolds(disk, inodes, owner, s);
    }
  }

  // ---- Allocating a block -----------------------------------------------------------------

  /** balloc's effect: bit set, block zeroed. */
  function Fresh(sb: Super, disk: seq<Block>, r: nat): (disk': seq<Block>)
    requires Shaped(sb, disk) && r < sb.size
    ensures Shaped(sb, disk') && disk'[r] == ZeroBlock()
    ensures forall c :: 0 <= c < sb.size && c != r ==> disk'[c] == Marked(sb, disk, r, true)[c]
  {
    Marked(sb, disk, r, true)[r := ZeroBlock()]
  }

  ghost predicate Free(sb: Super, disk: seq<Block>, r: nat) {
    Shaped(sb, disk) && r < sb.size && !Used(sb, disk, r)
  }

  /** Slot s is empty and its indirect block, if it lies in one, exists. */
  ghost predicate Vacant(disk: seq<Block>, inodes: seq<Inode>, s: Slot)
    requires InodesOk(inodes)
  {
    SlotOk(inodes, s) && Addr(disk, inodes, s) == 0
    && (s.k > NDIRECT ==> 0 < inodes[s.inum].addrs[NDIRECT] < |disk|)
  }

  /** Storing r in slot s: in the inode, or in the indirect block. */
  function PlacedInodes(inodes: seq<Inode>, s: Slot, r: nat): seq<Inode>
    requires s.inum < |inodes| && |inodes[s.inum].addrs| == NDIRECT + 1
  {
    if s.k <= NDIRECT then inodes[s.inum := inodes[s.inum].(addrs := inodes[s.inum].addrs[s.k := r])] else inodes
  }

  function PlacedDisk(disk: seq<Block>, inodes: seq<Inode>, s: Slot, r: nat): (d: seq<Block>)
    requires s.inum < |inodes| && |inodes[s.inum].addrs| == NDIRECT + 1 && s.k <= MAXFILE && r < U32
    requires s.k > NDIRECT ==> inodes[s.inum].addrs[NDIRECT] < |disk|
    ensures s.k <= NDIRECT ==> d == disk
    ensures |d| == |disk| && forall c :: 0 <= c < |disk| && c != inodes[s.inum].addrs[NDIRECT] ==> d[c] == disk[c]
  {
    if s.k <= NDIRECT then disk
    else var ind := inodes[s.inum].addrs[NDIRECT];
      disk[ind := PutWord(disk[ind], s.k - NDIRECT - 1, r)]
  }

  /** Allocation itself changes no held block, no slot and one bit. */
  lemma FreshKeeps(sb: Super, disk: seq<Block>, inodes: seq<Inode>, owner: Owner, r: nat)
    requires Owned(sb, disk, inodes, owner, {}) && Free(sb, disk, r)
    ensures sb.data <= r && r !in owner
    ensures forall b :: b in owner || 0 <= b < sb.bmapstart ==> Fresh(sb, disk, r)[b] == disk[b]
    ensures SameAddrs(disk, inodes, Fresh(sb, disk, r), inodes)
    ensures forall c :: 0 <= c < sb.size ==> (Used(sb, Fresh(sb, disk, r), c) <==> c == r || Used(sb, disk, c))
  {
    hide Fresh, Used, Word, Marked, Super.BitmapBlock;
    BitmapRange(sb, r);
    assert sb.data <= r;
    assert BlockOk(sb, disk, inodes, owner, r);
    var disk' := Fresh(sb, disk, r);
    forall s | SlotOk(inodes, s) ensures Addr(disk', inodes, s) == Addr(disk, inodes, s) {
      assert SlotHolds(disk, inodes, owner, Slot(s.inum, NDIRECT));
    }
    forall c | 0 <= c < sb.size ensures Used(sb, disk', c) <==> c == r || Used(sb, disk, c) {
      MarkedBits(sb, disk, r, true, c);
      BitmapRange(sb, c);
      SameBit(sb, Marked(sb, disk, r, true), disk', c);
    }
  }

  /** Two inodes never share an indirect block. */
  ghost predicate Unshared(inodes: seq<Inode>, s: Slot, t: Slot)
    requires InodesOk(inodes) && SlotOk(inodes, s) && SlotOk(inodes, t)
  {
    s.inum != t.inum ==>
      inodes[t.inum].addrs[NDIRECT] != inodes[s.inum].addrs[NDIRECT] || inodes[t.inum].addrs[NDIRECT] == 0
  }

  /** Slot s now holds r and every other slot holds what it held. */
  lemma PlacedAddrs(disk: seq<Block>, inodes: seq<Inode>, s: Slot, r: nat, t: Slot)
    requires InodesOk(inodes) && Vacant(disk, inodes, s) && SlotOk(inodes, t) && Unshared(inodes, s, t)
    requires 0 < r < |disk| <= U32 && disk[r] == ZeroBlock()
    ensures InodesOk(PlacedInodes(inodes, s, r))
    ensures Addr(PlacedDisk(disk, inodes, s, r), PlacedInodes(inodes, s, r), t)
            == if t == s then r else Addr(disk, inodes, t)
  {
  }

  lemma TakeAddrs(sb: Super, disk: seq<Block>, inodes: seq<Inode>, owner: Owner, s: Slot, r: nat)
    requires Owned(sb, disk, inodes, owner, {}) && Free(sb, disk, r) && Vacant(disk, inodes, s)
    ensures InodesOk(PlacedInodes(inodes, s, r))
    ensures var disk' := PlacedDisk(Fresh(sb, disk, r), inodes, s, r);
      forall t :: SlotOk(inodes, t) ==>
        Addr(disk', PlacedInodes(inodes, s, r), t) == if t == s then r else Addr(disk, inodes, t)
  {
    FreshKeeps(sb, disk, inodes, owner, r);
    var d := Fresh(sb, disk, r);
    assert SlotHolds(disk, inodes, owner, Slot(s.inum, NDIRECT));
    assert Vacant(d, inodes, s);
    PlacedAddrs(d, inodes, s, r, s);
    forall t | SlotOk(inodes, t)
      ensures Addr(PlacedDisk(d, inodes, s, r), PlacedInodes(inodes, s, r), t)
              == if t == s then r else Addr(disk, inodes, t)
    {
      assert SlotHolds(disk, inodes, owner, Slot(t.inum, NDIRECT));
      PlacedAddrs(d, inodes, s, r, t);
    }
  }

  lemma TakeBits(sb: Super, disk: seq<Block>, inodes: seq<Inode>, owner: Owner, s: Slot, r: nat, c: nat)
    requires Owned(sb, disk, inodes, owner, {}) && Free(sb, disk, r) && Vacant(disk, inodes, s) && c < sb.size
    ensures var disk' := PlacedDisk(Fresh(sb, disk, r), inodes, s, r);
      Used(sb, disk', c) <==> c == r || Used(sb, disk, c)
  {
    hide Fresh, Used, Word, PlacedDisk, Super.BitmapBlock;
    FreshKeeps(sb, disk, inodes, owner, r);
    assert SlotHolds(disk, inodes, owner, Slot(s.inum, NDIRECT));
    var d := Fresh(sb, disk, r);
    BitmapRange(sb, c);
    SameBit(sb, d, PlacedDisk(d, inodes, s, r), c);
  }

  /** If slot s gained block r and no other slot or bit changed, ownership stays exact. */
  lemma Gain(sb: Super, disk: seq<Block>, inodes: seq<Inode>, owner: Owner, s: Slot, r: nat, disk': seq<Block>,
             inodes': seq<Inode>)
    requires Owned(sb, disk, inodes, owner, {}) && sb.data <= r < sb.size && r !in owner && SlotOk(inodes, s)
    requires Addr(disk, inodes, s) == 0
    requires Shaped(sb, disk') && InodesOk(inodes') && |inodes'| == |inodes|
    requires forall t :: SlotOk(inodes, t) ==> Addr(disk', inodes', t) == if t == s then r else Addr(disk, inodes, t)
    requires forall c :: 0 <= c < sb.size ==> (Used(sb, disk', c) <==> c == r || Used(sb, disk, c))
    ensures Owned(sb, disk', inodes', owner[r := s], {})
  {
    hide Addr, Used;
    var owner' := owner[r := s];
    forall c | sb.data <= c < sb.size ensures BlockOk(sb, disk', inodes', owner', c) {
      assert BlockOk(sb, disk, inodes, owner, c);
      if c in owner && c != r {
        assert owner'[c] == owner[c] && SlotOk(inodes, owner[c]) && owner[c] != s;
      }
    }
    forall t | SlotOk(inodes', t) ensures SlotHolds(disk', inodes', owner', t) {
      assert SlotOk(inodes, t) && SlotHolds(disk, inodes, owner, t);
    }
  }

  /** Allocation keeps ownership exact: r belongs to s and nothing else changes hands. */
  lemma Take(sb: Super, disk: seq<Block>, inodes: seq<Inode>, owner: Owner, s: Slot, r: nat)
    requires Owned(sb, disk, inodes, owner, {}) && Free(sb, disk, r) && Vacant(disk, inodes, s)
    ensures Owned(sb, PlacedDisk(Fresh(sb, disk, r), inodes, s, r), PlacedInodes(inodes, s, r), owner[r := s], {})
  {
    FreshKeeps(sb, disk, inodes, owner, r);
    TakeAddrs(sb, disk, inodes, owner, s, r);
    var disk' := PlacedDisk(Fresh(sb, disk, r), inodes, s, r);
    forall c | 0 <= c < sb.size ensures Used(sb, disk', c) <==> c == r || Used(sb, disk, c) {
      TakeBits(sb, disk, inodes, owner, s, r, c);
    }
    hide Addr, Used, Owned;
    Gain(sb, disk, inodes, owner, s, r, disk', PlacedInodes(inodes, s, r));
  }

  // ---- Freeing blocks ---------------------------------------------------------------------

  /** bfree of a held block: its slot becomes loose, every other block keeps its holder. */
  lemma Release(sb: Super, disk: seq<Block>, inodes: seq<Inode>, owner: Owner, loose: set<Slot>, b: nat)
    requires Owned(sb, disk, inodes, owner, loose) && b in owner
    requires forall i :: 0 <= i < |inodes| ==> inodes[i].addrs[NDIRECT] == 0 || inodes[i].addrs[NDIRECT] >= sb.data
    ensures SameAddrs(disk, inodes, Marked(sb, disk, b, false), inodes)
    ensures Owned(sb, Marked(sb, disk, b, false), inodes, owner - {b}, loose + {owner[b]})
  {
    hide Used, Word, Marked, Super.BitmapBlock;
    BitmapRange(sb, b);
    var disk', owner', loose' := Marked(sb, disk, b, false), owner - {b}, loose + {owner[b]};
    forall s | SlotOk(inodes, s) ensures Addr(disk', inodes, s) == Addr(disk, inodes, s) {
      var ind := inodes[s.inum].addrs[NDIRECT];
      if sb.data <= ind < |disk| {
        assert disk'[ind] == disk[ind];
      }
    }
    forall c | 0 <= c < sb.size ensures Used(sb, disk', c) == (c != b && Used(sb, disk, c)) {
      MarkedBits(sb, disk, b, false, c);
    }
    forall c | sb.data <= c < sb.size ensures BlockOk(sb, disk', inodes, owner', c) {
      assert BlockOk(sb, disk, inodes, owner, c);
    }
    forall s | SlotOk(inodes, s) && s !in loose' ensures SlotHolds(disk', inodes, owner', s) {
      assert SlotHolds(disk, inodes, owner, s);
    }
    forall c | c in owner' ensures owner'[c] !in loose' {
      assert BlockOk(sb, disk, inodes, owner, c) && BlockOk(sb, disk, inodes, owner, b);
    }
  }

  // ---- File contents ----------------------------------------------------------------------

  /** The file's nth block exists. */
  ghost predicate Mapped(disk: seq<Block>, inodes: seq<Inode>, inum: nat, bn: nat)
    requires InodesOk(inodes) && inum < |inodes| && bn < MAXFILE
  {
    Addr(disk, inodes, FileSlot(inum, bn)) != 0
  }

  ghost predicate HoleFree(disk: seq<Block>, inodes: seq<Inode>, inum: nat, len: nat)
    requires InodesOk(inodes) && inum < |inodes| && len <= MAXFILE * BSIZE
  {
    forall bn :: 0 <= bn < MAXFILE && bn * BSIZE < len ==> Mapped(disk, inodes, inum, bn)
  }

  ghost function FileByte(disk: seq<Block>, inodes: seq<Inode>, inum: nat, p: nat): byte
    requires InodesOk(inodes) && inum < |inodes| && p < MAXFILE * BSIZE
  {
    var b := Addr(disk, inodes, FileSlot(inum, p / BSIZE));
    if b < |disk| then disk[b][p % BSIZE] else 0
  }

  /** The byte sequence that the inode stands for. */
  ghost function Content(disk: seq<Block>, inodes: seq<Inode>, inum: nat): (c: seq<byte>)
    requires InodesOk(inodes) && inum < |inodes|
    ensures |c| == inodes[inum].size
  {
    seq(inodes[inum].size, p requires 0 <= p < inodes[inum].size => FileByte(disk, inodes, inum, p))
  }

  /** Slot s, if it held a block, still holds it, and a file block keeps its contents. */
  ghost predicate SlotKept(disk: seq<Block>, inodes: seq<Inode>, disk': seq<Block>, inodes': seq<Inode>, s: Slot)
    requires InodesOk(inodes) && InodesOk(inodes') && |inodes| == |inodes'| && |disk'| == |disk| && SlotOk(inodes, s)
  {
    var b := Addr(disk, inodes, s);
    b != 0 ==> Addr(disk', inodes', s) == b && (b < |disk| && s.k != NDIRECT ==> disk'[b] == disk[b])
  }

  /** Every slot of every file outside `except` is kept. */
  ghost predicate FilesKept(disk: seq<Block>, inodes: seq<Inode>, disk': seq<Block>, inodes': seq<Inode>,
                            except: set<nat>) {
    && InodesOk(inodes) && InodesOk(inodes') && |inodes| == |inodes'| && |disk'| == |disk|
    && (forall i :: 0 <= i < |inodes| && i !in except ==> inodes'[i].size == inodes[i].size)
    && forall s :: SlotOk(inodes, s) && s.inum !in except ==> SlotKept(disk, inodes, disk', inodes', s)
  }

  lemma KeptTransitive(disk: seq<Block>, inodes: seq<Inode>, disk1: seq<Block>, inodes1: seq<Inode>,
                       disk2: seq<Block>, inodes2: seq<Inode>, except: set<nat>)
    requires FilesKept(disk, inodes, disk1, inodes1, except) && FilesKept(disk1, inodes1, disk2, inodes2, except)
    ensures FilesKept(disk, inodes, disk2, inodes2, except)
  {
    forall s | SlotOk(inodes, s) && s.inum !in except ensures SlotKept(disk, inodes, disk2, inodes2, s) {
      assert SlotKept(disk, inodes, disk1, inodes1, s) && SlotKept(disk1, inodes1, disk2, inodes2, s);
    }
  }

  /** A kept byte of a mapped block reads the same. */
  lemma KeptByte(disk: seq<Block>, inodes: seq<Inode>, disk': seq<Block>, inodes': seq<Inode>, inum: nat, p: nat)
    requires InodesOk(inodes) && InodesOk(inodes') && |inodes| == |inodes'| && |disk'| == |disk|
    requires inum < |inodes| && p < MAXFILE * BSIZE && Mapped(disk, inodes, inum, p / BSIZE)
    requires SlotKept(disk, inodes, disk', inodes', FileSlot(inum, p / BSIZE))
    ensures FileByte(disk', inodes', inum, p) == FileByte(disk, inodes, inum, p)
  {
  }

  /** A hole-free file that is kept keeps its contents and stays hole-free. */
  lemma KeptContent(disk: seq<Block>, inodes: seq<Inode>, disk': seq<Block>, inodes': seq<Inode>, except: set<nat>,
                    inum: nat)
    requires FilesKept(disk, inodes, disk', inodes', except) && inum < |inodes| && inum !in except
    requires HoleFree(disk, inodes, inum, inodes[inum].size)
    ensures Content(disk', inodes', inum) == Content(disk, inodes, inum)
    ensures HoleFree(disk', inodes', inum, inodes'[inum].size)
  {
    forall p | 0 <= p < inodes[inum].size
      ensures FileByte(disk', inodes', inum, p) == FileByte(disk, inodes, inum, p)
    {
      assert Mapped(disk, inodes, inum, p / BSIZE);
      assert SlotKept(disk, inodes, disk', inodes', FileSlot(inum, p / BSIZE));
      KeptByte(disk, inodes, disk', inodes', inum, p);
    }
    KeptMapped(disk, inodes, disk', inodes', except, inum, inodes[inum].size);
  }

  lemma KeptMapped(disk: seq<Block>, inodes: seq<Inode>, disk': seq<Block>, inodes': seq<Inode>, except: set<nat>,
                   inum: nat, len: nat)
    requires FilesKept(disk, inodes, disk', inodes', except) && inum < |inodes| && inum !in except
    requires len <= MAXFILE * BSIZE && HoleFree(disk, inodes, inum, len)
    ensures HoleFree(disk', inodes', inum, len)
  {
    forall bn | 0 <= bn < MAXFILE && bn * BSIZE < len ensures Mapped(disk', inodes', inum, bn) {
      assert Mapped(disk, inodes, inum, bn);
      assert SlotKept(disk, inodes, disk', inodes', FileSlot(inum, bn));
    }
  }

  // ---- The whole file system --------------------------------------------------------------

  /** The inode's on-disk copy is current. */
  ghost predicate Synced(sb: Super, disk: seq<Block>, inodes: seq<Inode>, i: nat)
    requires sb.Valid() && |disk| == sb.size && i < |inodes| == sb.ninodes
  {
    GetInode(disk[sb.InodeBlock(i)], i) == inodes[i]
  }

  /** A file has no hole below its size and a free inode holds no block. */
  ghost predicate Sound(disk: seq<Block>, inodes: seq<Inode>, i: nat)
    requires InodesOk(inodes) && i < |inodes|
  {
    && HoleFree(disk, inodes, i, inodes[i].size)
    && (inodes[i].kind == 0 ==> inodes[i].size == 0 && forall k :: 0 <= k <= NDIRECT ==> inodes[i].addrs[k] == 0)
  }

  /** The file-system invariant; inode `busy` may be ahead of its on-disk copy. */
  ghost predicate Consistent(sb: Super, disk: seq<Block>, inodes: seq<Inode>, owner: Owner, busy: nat) {
    && Owned(sb, disk, inodes, owner, {}) && |inodes| == sb.ninodes
    && (forall i :: 0 <= i < |inodes| ==> Sound(disk, inodes, i))
    && forall i :: 0 <= i < |inodes| && i != busy ==> Synced(sb, disk, inodes, i)
  }

  // ---- The log_write calls of an operation --------------------------------------------------

  /** One call of log_write. */
  datatype Store = Store(block: nat, data: Block)

  /** The disk after the calls, in order. */
  function Stored(base: seq<Block>, trace: seq<Store>): (disk: seq<Block>)
    ensures |disk| == |base|
  {
    if trace == [] then base
    else
      var s, disk := trace[|trace| - 1], Stored(base, trace[..|trace| - 1]);
      if s.block < |disk| then disk[s.block := s.data] else disk
  }

  function Targets(trace: seq<Store>): set<nat> {
    if trace == [] then {} else Targets(trace[..|trace| - 1]) + {trace[|trace| - 1].block}
  }

  ghost predicate AfterLog(sb: Super, trace: seq<Store>) {
    forall i :: 0 <= i < |trace| ==> sb.inodestart <= trace[i].block < sb.size
  }

  lemma StoredMore(base: seq<Block>, trace: seq<Store>, s: Store)
    ensures Stored(base, trace + [s])
            == if s.block < |base| then Stored(base, trace)[s.block := s.data] else Stored(base, trace)
    ensures Targets(trace + [s]) == Targets(trace) + {s.block}
  {
    assert (trace + [s])[..|trace|] == trace;
  }

  // ---- A new file system --------------------------------------------------------------------

  function FreeInode(): (ip: Inode)
    ensures ip.Valid()
  {
    Inode(0, 0, 0, 0, 0, seq(NDIRECT + 1, _ => 0))
  }

  /** An empty disk whose first n blocks are marked. */
  ghost predicate Blank(sb: Super, disk: seq<Block>, n: nat) {
    && Shaped(sb, disk)
    && (forall b :: 0 <= b < sb.size ==> (Used(sb, disk, b) <==> b < n))
    && forall b :: 0 <= b < sb.bmapstart ==> disk[b] == ZeroBlock()
  }

  lemma {:induction false} NoBit(k: nat)
    ensures !Bit(0, k)
  {
    if k > 0 { NoBit(k - 1); }
  }

  lemma BlankStarts(sb: Super, disk: seq<Block>)
    requires sb.Valid() && |disk| == sb.size && forall b :: 0 <= b < sb.size ==> disk[b] == ZeroBlock()
    ensures Blank(sb, disk, 0)
  {
    forall b | 0 <= b < sb.size ensures !Used(sb, disk, b) {
      NoBit(b % BPB % 8);
    }
  }

  lemma BlankStep(sb: Super, disk: seq<Block>, n: nat)
    requires Blank(sb, disk, n) && n < sb.size
    ensures Blank(sb, Marked(sb, disk, n, true), n + 1)
  {
    hide Used, Marked, Super.BitmapBlock;
    BitmapRange(sb, n);
    forall b | 0 <= b < sb.size ensures Used(sb, Marked(sb, disk, n, true), b) <==> b < n + 1 {
      MarkedBits(sb, disk, n, true, b);
    }
  }

  lemma BlankInode(i: nat)
    ensures GetInode(ZeroBlock(), i) == FreeInode()
  {
    var ws := Words(ZeroBlock(), DINODE * (i % IPB), DINODE);
    assert forall k :: 0 <= k < DINODE ==> ws[k] == 0;
    assert ws[3..] == FreeInode().addrs;
  }

  /** A freshly formatted disk is consistent, with every inode and every data block free. */
  lemma BlankConsistent(sb: Super, disk: seq<Block>, inodes: seq<Inode>)
    requires Blank(sb, disk, sb.data) && inodes == seq(sb.ninodes, _ => FreeInode())
    ensures Consistent(sb, disk, inodes, map[], sb.ninodes)
  {
    hide Used, GetInode;
    forall s | SlotOk(inodes, s) ensures Addr(disk, inodes, s) == 0 {
    }
    forall i | 0 <= i < |inodes| ensures Synced(sb, disk, inodes, i) {
      InodeSpot(sb, i, i);
      BlankInode(i);
    }
    assert Owned(sb, disk, inodes, map[], {});
  }

  /** The effect of one allocation, seen from the whole file system. */
  lemma TakeConsistent(sb: Super, disk: seq<Block>, inodes: seq<Inode>, owner: Owner, s: Slot, r: nat)
    requires Consistent(sb, disk, inodes, owner, s.inum) && Free(sb, disk, r) && Vacant(disk, inodes, s)
    requires inodes[s.inum].kind != 0
    ensures var disk' := PlacedDisk(Fresh(sb, disk, r), inodes, s, r);
      var inodes' := PlacedInodes(inodes, s, r);
      && Consistent(sb, disk', inodes', owner[r := s], s.inum)
      && FilesKept(disk, inodes, disk', inodes', {})
      && Addr(disk', inodes', s) == r && sb.data <= r
      && forall t :: SlotOk(inodes, t) && t != s ==> Addr(disk', inodes', t) == Addr(disk, inodes, t)
  {
    var disk', inodes' := PlacedDisk(Fresh(sb, disk, r), inodes, s, r), PlacedInodes(inodes, s, r);
    Take(sb, disk, inodes, owner, s, r);
    TakeAddrs(sb, disk, inodes, owner, s, r);
    FreshKeeps(sb, disk, inodes, owner, r);
    TakeKeeps(sb, disk, inodes, owner, s, r);
    forall i | 0 <= i < |inodes| ensures Sound(disk', inodes', i) {
      assert Sound(disk, inodes, i);
      KeptMapped(disk, inodes, disk', inodes', {}, i, inodes[i].size);
    }
    forall i | 0 <= i < |inodes| && i != s.inum ensures Synced(sb, disk', inodes', i) {
      assert Synced(sb, disk, inodes, i);
    }
  }

  /** A held block lies in the data area and has one holder. */
  lemma OneHolder(sb: Super, disk: seq<Block>, inodes: seq<Inode>, owner: Owner, s: Slot, t: Slot)
    requires Owned(sb, disk, inodes, owner, {}) && SlotOk(inodes, s) && SlotOk(inodes, t)
    requires Addr(disk, inodes, s) != 0
    ensures sb.data <= Addr(disk, inodes, s) < sb.size && Addr(disk, inodes, s) in owner
    ensures owner[Addr(disk, inodes, s)] == s
    ensures Addr(disk, inodes, t) == Addr(disk, inodes, s) ==> t == s
  {
    hide Addr, Used;
    assert SlotHolds(disk, inodes, owner, s) && SlotHolds(disk, inodes, owner, t);
  }

  lemma TakeKeeps(sb: Super, disk: seq<Block>, inodes: seq<Inode>, owner: Owner, s: Slot, r: nat)
    requires Owned(sb, disk, inodes, owner, {}) && Free(sb, disk, r) && Vacant(disk, inodes, s)
    ensures var disk' := PlacedDisk(Fresh(sb, disk, r), inodes, s, r);
      && FilesKept(disk, inodes, disk', PlacedInodes(inodes, s, r), {})
      && forall b :: 0 <= b < sb.bmapstart ==> disk'[b] == disk[b]
  {
    hide Fresh, PlacedDisk, Used, Super.BitmapBlock, Owned;
    OwnedShape(sb, disk, inodes, owner);
    TakeAddrs(sb, disk, inodes, owner, s, r);
    var disk', inodes' := PlacedDisk(Fresh(sb, disk, r), inodes, s, r), PlacedInodes(inodes, s, r);
    var ind := Slot(s.inum, NDIRECT);
    forall b | 0 <= b < sb.bmapstart ensures disk'[b] == disk[b] {
      TakeKeepsBlock(sb, disk, inodes, owner, s, r, b);
    }
    hide PlacedInodes;
    forall t | SlotOk(inodes, t) ensures SlotKept(disk, inodes, disk', inodes', t) {
      if Addr(disk, inodes, t) != 0 {
        OneHolder(sb, disk, inodes, owner, t, ind);
        if t.k != NDIRECT {
          TakeKeepsBlock(sb, disk, inodes, owner, s, r, Addr(disk, inodes, t));
        }
      }
    }
  }

  lemma TakeKeepsBlock(sb: Super, disk: seq<Block>, inodes: seq<Inode>, owner: Owner, s: Slot, r: nat, b: nat)
    requires Owned(sb, disk, inodes, owner, {}) && Free(sb, disk, r) && Vacant(disk, inodes, s)
    requires b < sb.bmapstart || (b in owner && owner[b].k != NDIRECT)
    ensures b < sb.size && PlacedDisk(Fresh(sb, disk, r), inodes, s, r)[b] == disk[b]
  {
    hide Fresh, PlacedDisk, Used, Word, Super.BitmapBlock;
    FreshKeeps(sb, disk, inodes, owner, r);
    assert Fresh(sb, disk, r)[b] == disk[b];
    if s.k > NDIRECT {
      var ind := inodes[s.inum].addrs[NDIRECT];
      assert Addr(disk, inodes, Slot(s.inum, NDIRECT)) == ind;
      OneHolder(sb, disk, inodes, owner, Slot(s.inum, NDIRECT), Slot(s.inum, NDIRECT));
      BitmapRange(sb, r);
      assert b in owner ==> owner[b] != owner[ind];
    }
    hide Addr, Owned, Super.Valid;
  }

  /** A store into the block of slot s is seen through no other slot. */
  lemma StoreKeeps(sb: Super, disk: seq<Block>, inodes: seq<Inode>, owner: Owner, s: Slot, data: Block, t: Slot)
    requires Owned(sb, disk, inodes, owner, {}) && SlotOk(inodes, s) && s.k != NDIRECT && SlotOk(inodes, t) && t != s
    requires 0 < Addr(disk, inodes, s) < sb.size
    requires SameAddrs(disk, inodes, disk[Addr(disk, inodes, s) := data], inodes)
    ensures SlotKept(disk, inodes, disk[Addr(disk, inodes, s) := data], inodes, t)
  {
    if Addr(disk, inodes, t) != 0 {
      OneHolder(sb, disk, inodes, owner, t, s);
    }
  }

  lemma OwnedShape(sb: Super, disk: seq<Block>, inodes: seq<Inode>, owner: Owner)
    requires Owned(sb, disk, inodes, owner, {})
    ensures InodesOk(inodes) && Shaped(sb, disk)
  {
  }

  lemma StoreSound(disk: seq<Block>, inodes: seq<Inode>, disk': seq<Block>, i: nat)
    requires InodesOk(inodes) && SameAddrs(disk, inodes, disk', inodes) && i < |inodes| && Sound(disk, inodes, i)
    ensures Sound(disk', inodes, i)
  {
    hide HoleFree, Addr;
    SameMapped(disk, inodes, disk', i, inodes[i].size);
  }

  lemma StoreKeepsAll(sb: Super, disk: seq<Block>, inodes: seq<Inode>, owner: Owner, s: Slot, data: Block)
    requires Owned(sb, disk, inodes, owner, {}) && SlotOk(inodes, s) && s.k != NDIRECT
    requires 0 < Addr(disk, inodes, s) < sb.size
    requires SameAddrs(disk, inodes, disk[Addr(disk, inodes, s) := data], inodes)
    ensures forall t :: SlotOk(inodes, t) && t != s ==>
      SlotKept(disk, inodes, disk[Addr(disk, inodes, s) := data], inodes, t)
  {
    hide Owned, SlotKept, Addr;
    OwnedShape(sb, disk, inodes, owner);
    forall t | SlotOk(inodes, t) && t != s
      ensures SlotKept(disk, inodes, disk[Addr(disk, inodes, s) := data], inodes, t)
    {
      StoreKeeps(sb, disk, inodes, owner, s, data, t);
    }
  }

  /** The effect of storing into the block that file slot s holds: only that file changes. */
  lemma StoreConsistent(sb: Super, disk: seq<Block>, inodes: seq<Inode>, owner: Owner, busy: nat, s: Slot, data: Block)
    requires Consistent(sb, disk, inodes, owner, busy) && SlotOk(inodes, s) && s.k != NDIRECT
    requires Addr(disk, inodes, s) != 0
    ensures var b := Addr(disk, inodes, s);
      && b < sb.size
      && var disk' := disk[b := data];
      && Consistent(sb, disk', inodes, owner, busy)
      && SameAddrs(disk, inodes, disk', inodes)
      && forall t :: SlotOk(inodes, t) && t != s ==> SlotKept(disk, inodes, disk', inodes, t)
  {
    hide Addr, Used, Owned, GetInode, SlotKept, Sound, SameAddrs;
    OwnedShape(sb, disk, inodes, owner);
    var b := Addr(disk, inodes, s);
    OneHolder(sb, disk, inodes, owner, s, s);
    var disk' := disk[b := data];
    StorePlain(sb, disk, inodes, owner, b, data);
    StoreKeepsAll(sb, disk, inodes, owner, s, data);
    forall i | 0 <= i < |inodes| ensures Sound(disk', inodes, i) {
      StoreSound(disk, inodes, disk', i);
    }
    forall i | 0 <= i < |inodes| && i != busy ensures Synced(sb, disk', inodes, i) {
      assert Synced(sb, disk, inodes, i);
    }
  }

  lemma SameMapped(disk: seq<Block>, inodes: seq<Inode>, disk': seq<Block>, i: nat, len: nat)
    requires InodesOk(inodes) && SameAddrs(disk, inodes, disk', inodes) && i < |inodes|
    requires len <= MAXFILE * BSIZE && HoleFree(disk, inodes, i, len)
    ensures HoleFree(disk', inodes, i, len)
  {
    hide Addr;
    forall bn | 0 <= bn < MAXFILE && bn * BSIZE < len ensures Mapped(disk', inodes, i, bn) {
      assert Mapped(disk, inodes, i, bn) && SlotOk(inodes, FileSlot(i, bn));
    }
  }

  // ---- Inode updates and partial block stores -----------------------------------------------

  /** A store below the bitmap is seen through no slot. */
  lemma StoreMeta(sb: Super, disk: seq<Block>, inodes: seq<Inode>, owner: Owner, b: nat, data: Block)
    requires Owned(sb, disk, inodes, owner, {}) && b < sb.bmapstart
    ensures b < sb.size && Owned(sb, disk[b := data], inodes, owner, {})
    ensures FilesKept(disk, inodes, disk[b := data], inodes, {})
  {
    hide Used, Super.BitmapBlock;
    StorePlain(sb, disk, inodes, owner, b, data);
    forall t | SlotOk(inodes, t) ensures SlotKept(disk, inodes, disk[b := data], inodes, t) {
      if Addr(disk, inodes, t) != 0 {
        OneHolder(sb, disk, inodes, owner, t, t);
      }
    }
  }

  lemma InodeSpot(sb: Super, i: nat, j: nat)
    requires sb.Valid() && i < sb.ninodes
    ensures sb.InodeBlock(i) < sb.bmapstart
    ensures i != j && sb.InodeBlock(i) == sb.InodeBlock(j) ==> i % IPB != j % IPB
  {
  }

  /** iupdate: afterwards every on-disk inode is current and no file has changed. */
  lemma UpdateInode(sb: Super, disk: seq<Block>, inodes: seq<Inode>, owner: Owner, inum: nat)
    requires Consistent(sb, disk, inodes, owner, inum) && inum < |inodes|
    ensures var b := sb.InodeBlock(inum);
      && b < sb.bmapstart && b < |disk|
      && var disk' := disk[b := PutInode(disk[b], inum, inodes[inum])];
      && Consistent(sb, disk', inodes, owner, sb.ninodes) && FilesKept(disk, inodes, disk', inodes, {})
  {
    hide Addr, GetInode, PutInode, Super.InodeBlock, Used;
    InodeSpot(sb, inum, inum);
    var b := sb.InodeBlock(inum);
    var data := PutInode(disk[b], inum, inodes[inum]);
    var disk' := disk[b := data];
    StoreMeta(sb, disk, inodes, owner, b, data);
    assert InodesOk(inodes) && sb.Valid();
    hide Owned;
    forall i | 0 <= i < |inodes| ensures Synced(sb, disk', inodes, i) {
      InodeRoundTrip(disk[b], inum, inodes[inum], i);
      InodeSpot(sb, i, inum);
      assert i != inum ==> Synced(sb, disk, inodes, i);
    }
    forall i | 0 <= i < |inodes| ensures Sound(disk', inodes, i) {
      assert Sound(disk, inodes, i);
      KeptMapped(disk, inodes, disk', inodes, {}, i, inodes[i].size);
    }
  }

  /** memmove(bp->data + o, piece, |piece|) */
  function Patched(b: Block, o: nat, piece: seq<byte>): (r: Block)
    requires o + |piece| <= BSIZE
    ensures forall k :: 0 <= k < BSIZE ==> r[k] == if o <= k < o + |piece| then piece[k - o] else b[k]
  {
    b[..o] + piece + b[o + |piece|..]
  }

  /** Byte p lies in the part of block bn that a patch covers. */
  predicate Covered(bn: nat, o: nat, len: nat, p: nat) {
    p / BSIZE == bn && o <= p % BSIZE < o + len
  }

  /** Patching one block of a file changes exactly the covered bytes of that file. */
  lemma PatchFile(sb: Super, disk: seq<Block>, inodes: seq<Inode>, owner: Owner, busy: nat, inum: nat, bn: nat, o: nat,
                  piece: seq<byte>)
    requires Consistent(sb, disk, inodes, owner, busy) && inum < |inodes| && bn < MAXFILE
    requires Mapped(disk, inodes, inum, bn) && o + |piece| <= BSIZE
    ensures var b := Addr(disk, inodes, FileSlot(inum, bn));
      && b < sb.size
      && var disk' := disk[b := Patched(disk[b], o, piece)];
      && Consistent(sb, disk', inodes, owner, busy)
      && SameAddrs(disk, inodes, disk', inodes) && FilesKept(disk, inodes, disk', inodes, {inum})
      && forall p: nat :: p < MAXFILE * BSIZE && Mapped(disk, inodes, inum, p / BSIZE) ==>
           FileByte(disk', inodes, inum, p)
           == if Covered(bn, o, |piece|, p) then piece[p % BSIZE - o] else FileByte(disk, inodes, inum, p)
  {
    var s := FileSlot(inum, bn);
    OneHolder(sb, disk, inodes, owner, s, s);
    var b := Addr(disk, inodes, s);
    var disk' := disk[b := Patched(disk[b], o, piece)];
    StoreConsistent(sb, disk, inodes, owner, busy, s, Patched(disk[b], o, piece));
    hide Addr, Consistent, Patched;
    forall p: nat | p < MAXFILE * BSIZE && Mapped(disk, inodes, inum, p / BSIZE)
      ensures FileByte(disk', inodes, inum, p)
              == if Covered(bn, o, |piece|, p) then piece[p % BSIZE - o] else FileByte(disk, inodes, inum, p)
    {
      var t := FileSlot(inum, p / BSIZE);
      assert SlotOk(inodes, t);
      if t != s {
        assert SlotKept(disk, inodes, disk', inodes, t);
        KeptByte(disk, inodes, disk', inodes, inum, p);
      }
    }
  }

  /** Changing fields other than addrs of the busy inode moves no block. */
  lemma Retouch(sb: Super, disk: seq<Block>, inodes: seq<Inode>, owner: Owner, inum: nat, ip: Inode)
    requires Consistent(sb, disk, inodes, owner, inum) && inum < |inodes|
    requires ip.Valid() && ip.addrs == inodes[inum].addrs
    requires HoleFree(disk, inodes, inum, ip.size)
    requires ip.kind == 0 ==> ip.size == 0 && forall k :: 0 <= k <= NDIRECT ==> ip.addrs[k] == 0
    ensures Consistent(sb, disk, inodes[inum := ip], owner, inum)
    ensures FilesKept(disk, inodes, disk, inodes[inum := ip], {inum})
  {
    var inodes' := inodes[inum := ip];
    assert forall s :: SlotOk(inodes, s) ==> Addr(disk, inodes', s) == Addr(disk, inodes, s);
    hide Addr, Used, GetInode;
    forall b | sb.data <= b < sb.size ensures BlockOk(sb, disk, inodes', owner, b) {
      assert BlockOk(sb, disk, inodes, owner, b);
    }
    forall s | SlotOk(inodes', s) ensures SlotHolds(disk, inodes', owner, s) {
      assert SlotOk(inodes, s) && SlotHolds(disk, inodes, owner, s);
    }
    forall i | 0 <= i < |inodes| ensures Sound(disk, inodes', i) {
      assert Sound(disk, inodes, i);
      forall bn | 0 <= bn < MAXFILE && bn * BSIZE < inodes'[i].size ensures Mapped(disk, inodes', i, bn) {
        assert Mapped(disk, inodes, i, bn) && SlotOk(inodes, FileSlot(i, bn));
      }
    }
    forall i | 0 <= i < |inodes| && i != inum ensures Synced(sb, disk, inodes', i) {
      assert Synced(sb, disk, inodes, i);
    }
  }

  /** Every inode but one, and its file's contents, are as before. */
  ghost predicate OthersUnchanged(d0: seq<Block>, i0: seq<Inode>, disk: seq<Block>, inodes: seq<Inode>, inum: nat) {
    && InodesOk(i0) && InodesOk(inodes) && inum < |i0| == |inodes|
    && forall i :: 0 <= i < |i0| && i != inum ==>
         inodes[i] == i0[i] && Content(disk, inodes, i) == Content(d0, i0, i)
  }

  lemma UnchangedTwice(d0: seq<Block>, i0: seq<Inode>, d1: seq<Block>, i1: seq<Inode>, d2: seq<Block>, i2: seq<Inode>,
                       inum: nat)
    requires OthersUnchanged(d0, i0, d1, i1, inum) && OthersUnchanged(d1, i1, d2, i2, inum)
    ensures OthersUnchanged(d0, i0, d2, i2, inum)
  {
    hide Content;
  }
}
