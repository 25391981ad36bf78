/** How itrunc gives back a file's blocks one by one while its inode still names them. */
module FsTrunc {
  import opened Bytes
  import opened FsLayout
  import opened Param

  /** The owner map after the slots `freed` of one file were given back. */
  ghost function Without(owner: Owner, inum: nat, freed: set<nat>): Owner {
    map b | b in owner && !(owner[b].inum == inum && owner[b].k in freed) :: owner[b]
  }

  /** The bitmap blocks of what the owners o held and o' do not. */
  ghost function GivenBack(sb: Super, o: Owner, o': Owner): set<nat> {
    set b | b in o && b !in o' :: sb.BitmapBlock(b)
  }

  lemma GivesOne(sb: Super, o: Owner, o': Owner, b: nat)
    requires b in o && b in o'
    ensures GivenBack(sb, o, o' - {b}) == GivenBack(sb, o, o') + {sb.BitmapBlock(b)}
  {
    hide Super.BitmapBlock;
    assert forall c :: c in o && c !in o' - {b} <==> (c in o && c !in o') || c == b;
  }

  /** The bitmap blocks of what inode inum holds. */
  ghost function HeldBitmaps(sb: Super, o: Owner, inum: nat): set<nat> {
    set b | b in o && o[b].inum == inum :: sb.BitmapBlock(b)
  }

  lemma GivenBackAll(sb: Super, o: Owner, o': Owner, inum: nat)
    requires forall b :: b in o' <==> b in o && o[b].inum != inum
    ensures GivenBack(sb, o, o') == HeldBitmaps(sb, o, inum)
  {
  }

  /** Freeing an inode logs one block for each bitmap block, and the inode's: it stays within an
      operation's reservation exactly when there are fewer than MAXOPBLOCKS bitmap blocks. */
  lemma FreeingFits(sb: Super, disk: seq<Block>, inodes: seq<Inode>, o: Owner, inum: nat)
    requires Owned(sb, disk, inodes, o, {}) && inum < sb.ninodes
    ensures |HeldBitmaps(sb, o, inum) + {sb.InodeBlock(inum)}| == |HeldBitmaps(sb, o, inum)| + 1
    ensures |HeldBitmaps(sb, o, inum) + {sb.InodeBlock(inum)}| <= MAXOPBLOCKS <==>
              |HeldBitmaps(sb, o, inum)| < MAXOPBLOCKS
  {
    hide Used, Addr;
    InodeSpot(sb, inum, inum);
    forall b | b in o ensures sb.BitmapBlock(b) != sb.InodeBlock(inum) {
      BitmapRange(sb, b);
    }
  }

  /** On a disk of at most MAXOPBLOCKS - 1 bitmap blocks there are. */
  lemma SmallDisk(sb: Super, disk: seq<Block>, inodes: seq<Inode>, o: Owner, inum: nat)
    requires Owned(sb, disk, inodes, o, {}) && sb.size <= (MAXOPBLOCKS - 1) * BPB
    ensures |HeldBitmaps(sb, o, inum)| < MAXOPBLOCKS
  {
    hide Used, Addr;
    forall b | b in o ensures sb.bmapstart <= sb.BitmapBlock(b) < sb.bmapstart + MAXOPBLOCKS - 1 {
    }
    InRange(HeldBitmaps(sb, o, inum), sb.bmapstart, MAXOPBLOCKS - 1);
  }

  lemma {:induction false} InRange(a: set<nat>, lo: nat, n: nat)
    requires forall x :: x in a ==> lo <= x < lo + n
    ensures |a| <= n
  {
    if n > 0 {
      InRange(a - {lo + n - 1}, lo, n - 1);
    } else if x :| x in a {
      assert false;
    }
  }

  ghost function Upto(lo: nat, hi: nat): (r: set<nat>)
    ensures forall k :: k in r <==> lo <= k < hi
    decreases hi
  {
    if hi <= lo then {} else Upto(lo, hi - 1) + {hi - 1}
  }

  /** Every other file still has its blocks and contents; nothing below the bitmap changed. */
  ghost predicate OthersKept(sb: Super, d0: seq<Block>, i0: seq<Inode>, disk: seq<Block>, inodes: seq<Inode>,
                             inum: nat) {
    && FilesKept(d0, i0, disk, inodes, {inum}) && inum < |inodes|
    && inodes == i0[inum := inodes[inum]] && sb.bmapstart <= |disk|
    && forall b :: 0 <= b < sb.bmapstart ==> disk[b] == d0[b]
  }

  /** Freeing the block in slot (inum, k), if any, takes exactly that slot out of the owner map. */
  lemma WithoutStep(sb: Super, d0: seq<Block>, i0: seq<Inode>, owner: Owner, inum: nat, freed: set<nat>, k: nat)
    requires Owned(sb, d0, i0, owner, {}) && inum < |i0| && k <= MAXFILE && k !in freed
    ensures var b := Addr(d0, i0, Slot(inum, k));
      && (b == 0 ==> Without(owner, inum, freed + {k}) == Without(owner, inum, freed))
      && (b != 0 ==> b in Without(owner, inum, freed) && owner[b] == Slot(inum, k))
      && (b != 0 ==> Without(owner, inum, freed + {k}) == Without(owner, inum, freed) - {b})
  {
    hide Used;
    var b := Addr(d0, i0, Slot(inum, k));
    assert SlotHolds(d0, i0, owner, Slot(inum, k));
    forall c | c in owner && owner[c] == Slot(inum, k) ensures c == b && b != 0 {
      assert BlockOk(sb, d0, i0, owner, c);
    }
  }

  /** bfree of the block in slot s of file s.inum, seen from the rest of the file system. */
  lemma FreeSlot(sb: Super, disk: seq<Block>, inodes: seq<Inode>, owner: Owner, loose: set<Slot>, s: Slot)
    requires Owned(sb, disk, inodes, owner, loose) && SlotOk(inodes, s) && s !in loose
    requires Addr(disk, inodes, s) != 0
    requires forall t :: t in loose ==> t.inum == s.inum && t.k != NDIRECT
    ensures var b := Addr(disk, inodes, s);
      && Shaped(sb, disk) && InodesOk(inodes) && b < sb.size && Used(sb, disk, b) && b in owner && owner[b] == s
      && Owned(sb, Marked(sb, disk, b, false), inodes, owner - {b}, loose + {s})
      && SameAddrs(disk, inodes, Marked(sb, disk, b, false), inodes)
      && FilesKept(disk, inodes, Marked(sb, disk, b, false), inodes, {s.inum})
      && (forall c :: 0 <= c < sb.bmapstart || sb.data <= c < sb.size ==>
            Marked(sb, disk, b, false)[c] == disk[c])
  {
    hide Used, Marked, Super.BitmapBlock, Word;
    var b := Addr(disk, inodes, s);
    assert SlotHolds(disk, inodes, owner, s);
    assert BlockOk(sb, disk, inodes, owner, b);
    forall i | 0 <= i < |inodes| ensures inodes[i].addrs[NDIRECT] == 0 || inodes[i].addrs[NDIRECT] >= sb.data {
      assert SlotHolds(disk, inodes, owner, Slot(i, NDIRECT));
    }
    Release(sb, disk, inodes, owner, loose, b);
    BitmapRange(sb, b);
    var disk' := Marked(sb, disk, b, false);
    forall t | SlotOk(inodes, t) && t.inum !in {s.inum} ensures SlotKept(disk, inodes, disk', inodes, t) {
      assert SlotHolds(disk, inodes, owner, t);
    }
  }

  /** ip->addrs[k] = 0 once the block is given back; k == NDIRECT also forgets every entry. */
  lemma ForgetSlot(sb: Super, disk: seq<Block>, inodes: seq<Inode>, owner: Owner, loose: set<Slot>, inum: nat, k: nat)
    requires Owned(sb, disk, inodes, owner, loose) && inum < |inodes| && k <= NDIRECT
    requires forall s :: s in loose ==> s.inum == inum && (s.k == k || (k == NDIRECT && NDIRECT < s.k <= MAXFILE))
    requires k < NDIRECT ==> loose == {Slot(inum, k)}
    requires k == NDIRECT ==> forall b :: b in owner ==> owner[b].inum == inum ==> owner[b].k < NDIRECT
    ensures var inodes' := inodes[inum := inodes[inum].(addrs := inodes[inum].addrs[k := 0])];
      && Owned(sb, disk, inodes', owner, {}) && FilesKept(disk, inodes, disk, inodes', {inum})
      && forall t :: SlotOk(inodes, t) && !(t.inum == inum && (t.k == k || (k == NDIRECT && t.k > NDIRECT))) ==>
           Addr(disk, inodes', t) == Addr(disk, inodes, t)
  {
    var inodes' := inodes[inum := inodes[inum].(addrs := inodes[inum].addrs[k := 0])];
    hide Used;
    forall t | SlotOk(inodes, t)
      ensures Addr(disk, inodes', t)
        == if t.inum == inum && (t.k == k || (k == NDIRECT && t.k > NDIRECT)) then 0 else Addr(disk, inodes, t)
    {
    }
    hide Addr;
    forall b | sb.data <= b < sb.size ensures BlockOk(sb, disk, inodes', owner, b) {
      assert BlockOk(sb, disk, inodes, owner, b);
    }
    forall t | SlotOk(inodes', t) ensures SlotHolds(disk, inodes', owner, t) {
      assert SlotOk(inodes, t);
      if t !in loose {
        assert SlotHolds(disk, inodes, owner, t);
      }
    }
    forall t | SlotOk(inodes, t) && t.inum !in {inum} ensures SlotKept(disk, inodes, disk, inodes', t) {
    }
  }

  /** Part-way through itrunc: the slots `freed` have given back their blocks, those in `loose` are
      still named by the indirect block, and all the others are as they were. */
  ghost predicate Truncating(sb: Super, d0: seq<Block>, i0: seq<Inode>, owner0: Owner,
                             disk: seq<Block>, inodes: seq<Inode>, owner: Owner,
                             inum: nat, freed: set<nat>, loose: set<Slot>)
  {
    && Owned(sb, d0, i0, owner0, {}) && Owned(sb, disk, inodes, owner, loose)
    && OthersKept(sb, d0, i0, disk, inodes, inum)
    && inodes[inum] == i0[inum].(addrs := inodes[inum].addrs)
    && owner == Without(owner0, inum, freed)
    && (forall t :: t in loose ==> t.inum == inum && NDIRECT < t.k <= MAXFILE && t.k in freed)
    && forall k: nat :: k <= MAXFILE && k !in freed ==> SameSlot(d0, i0, disk, inodes, Slot(inum, k))
  }

  ghost predicate SameSlot(d0: seq<Block>, i0: seq<Inode>, disk: seq<Block>, inodes: seq<Inode>, s: Slot)
    requires InodesOk(i0) && InodesOk(inodes) && s.inum < |i0| == |inodes| && s.k <= MAXFILE
  {
    Addr(disk, inodes, s) == Addr(d0, i0, s)
  }

  /** An empty slot counts as freed. */
  lemma TruncSkip(sb: Super, d0: seq<Block>, i0: seq<Inode>, owner0: Owner, disk: seq<Block>, inodes: seq<Inode>,
                  owner: Owner, inum: nat, freed: set<nat>, loose: set<Slot>, k: nat)
    requires Truncating(sb, d0, i0, owner0, disk, inodes, owner, inum, freed, loose)
    requires k <= MAXFILE && k !in freed && Addr(disk, inodes, Slot(inum, k)) == 0
    ensures Truncating(sb, d0, i0, owner0, disk, inodes, owner, inum, freed + {k}, loose)
  {
    hide Addr, Used;
    assert SameSlot(d0, i0, disk, inodes, Slot(inum, k));
    WithoutStep(sb, d0, i0, owner0, inum, freed, k);
  }

  /** bfree of one block of the file. */
  lemma TruncFree(sb: Super, d0: seq<Block>, i0: seq<Inode>, owner0: Owner, disk: seq<Block>, inodes: seq<Inode>,
                  owner: Owner, inum: nat, freed: set<nat>, loose: set<Slot>, k: nat)
    requires Truncating(sb, d0, i0, owner0, disk, inodes, owner, inum, freed, loose)
    requires k <= MAXFILE && k !in freed && Addr(disk, inodes, Slot(inum, k)) != 0
    ensures var b := Addr(disk, inodes, Slot(inum, k));
      && b in owner && sb.data <= b < sb.size && Used(sb, disk, b)
      && var disk' := Marked(sb, disk, b, false);
      && Owned(sb, disk', inodes, owner - {b}, loose + {Slot(inum, k)})
      && OthersKept(sb, d0, i0, disk', inodes, inum)
      && owner - {b} == Without(owner0, inum, freed + {k})
      && (forall j: nat :: j <= MAXFILE && j !in freed ==> SameSlot(d0, i0, disk', inodes, Slot(inum, j)))
      && (forall c :: sb.data <= c < sb.size ==> disk'[c] == disk[c])
      && GivenBack(sb, owner0, owner - {b}) == GivenBack(sb, owner0, owner) + {sb.BitmapBlock(b)}
  {
    hide Used, Marked, Super.BitmapBlock, Word, GivenBack;
    var s := Slot(inum, k);
    assert SameSlot(d0, i0, disk, inodes, s);
    WithoutStep(sb, d0, i0, owner0, inum, freed, k);
    FreeSlot(sb, disk, inodes, owner, loose, s);
    var b := Addr(disk, inodes, s);
    GivesOne(sb, owner0, owner, b);
    var disk' := Marked(sb, disk, b, false);
    hide Owned, Addr;
    KeptTransitive(d0, i0, disk, inodes, disk', inodes, {inum});
    forall j: nat | j <= MAXFILE && j !in freed ensures SameSlot(d0, i0, disk', inodes, Slot(inum, j)) {
      assert SameSlot(d0, i0, disk, inodes, Slot(inum, j)) && SlotOk(inodes, Slot(inum, j));
    }
  }

  /** One pass of the loop over the indirect block: the entry stays in the buffer but is loose. */
  lemma TruncEntry(sb: Super, d0: seq<Block>, i0: seq<Inode>, owner0: Owner, disk: seq<Block>, inodes: seq<Inode>,
                   owner: Owner, inum: nat, freed: set<nat>, loose: set<Slot>, k: nat)
    requires Truncating(sb, d0, i0, owner0, disk, inodes, owner, inum, freed, loose)
    requires NDIRECT < k <= MAXFILE && k !in freed && Addr(disk, inodes, Slot(inum, k)) != 0
    ensures var b := Addr(disk, inodes, Slot(inum, k));
      && b < sb.size && Shaped(sb, disk) && Used(sb, disk, b)
      && Truncating(sb, d0, i0, owner0, Marked(sb, disk, b, false), inodes, owner - {b}, inum, freed + {k},
        loose + {Slot(inum, k)})
      && (forall c :: sb.data <= c < sb.size ==> Marked(sb, disk, b, false)[c] == disk[c])
      && GivenBack(sb, owner0, owner - {b}) == GivenBack(sb, owner0, owner) + {sb.BitmapBlock(b)}
  {
    hide GivenBack;
    TruncFree(sb, d0, i0, owner0, disk, inodes, owner, inum, freed, loose, k);
    hide Used, Marked, Super.BitmapBlock, Word, Addr;
  }

  /** One pass of the loop over addrs, and the end for the indirect block itself. */
  lemma TruncAddr(sb: Super, d0: seq<Block>, i0: seq<Inode>, owner0: Owner, disk: seq<Block>, inodes: seq<Inode>,
                  owner: Owner, inum: nat, freed: set<nat>, loose: set<Slot>, k: nat)
    requires Truncating(sb, d0, i0, owner0, disk, inodes, owner, inum, freed, loose)
    requires k <= NDIRECT && k !in freed && inodes[inum].addrs[k] != 0
    requires k < NDIRECT ==> loose == {} && forall j: nat :: NDIRECT <= j <= MAXFILE ==> j !in freed
    requires k == NDIRECT ==> forall j: nat :: j <= MAXFILE && j != NDIRECT ==> j in freed
    ensures var b := inodes[inum].addrs[k];
      && b < sb.size && Shaped(sb, disk) && Used(sb, disk, b)
      && Truncating(sb, d0, i0, owner0, Marked(sb, disk, b, false),
           inodes[inum := inodes[inum].(addrs := inodes[inum].addrs[k := 0])], owner - {b}, inum, freed + {k}, {})
      && GivenBack(sb, owner0, owner - {b}) == GivenBack(sb, owner0, owner) + {sb.BitmapBlock(b)}
  {
    hide GivenBack;
    TruncFree(sb, d0, i0, owner0, disk, inodes, owner, inum, freed, loose, k);
    hide Used, Marked, Super.BitmapBlock, Word;
    var b := inodes[inum].addrs[k];
    var disk' := Marked(sb, disk, b, false);
    var inodes' := inodes[inum := inodes[inum].(addrs := inodes[inum].addrs[k := 0])];
    if k == NDIRECT {
      forall c | c in owner - {b} && owner[c].inum == inum ensures owner[c].k < NDIRECT {
        assert BlockOk(sb, d0, i0, owner0, c);
      }
    }
    ForgetSlot(sb, disk', inodes, owner - {b}, loose + {Slot(inum, k)}, inum, k);
    hide Owned, Addr;
    KeptTransitive(d0, i0, disk', inodes, disk', inodes', {inum});
    forall j: nat | j <= MAXFILE && j !in freed + {k} ensures SameSlot(d0, i0, disk', inodes', Slot(inum, j)) {
      assert SameSlot(d0, i0, disk', inodes, Slot(inum, j)) && SlotOk(inodes, Slot(inum, j));
    }
  }

  ghost predicate NoAddrs(ip: Inode) {
    |ip.addrs| == NDIRECT + 1 && forall k :: 0 <= k <= NDIRECT ==> ip.addrs[k] == 0
  }

  /** Without an indirect block no entry slot holds anything. */
  lemma TruncNoIndirect(sb: Super, d0: seq<Block>, i0: seq<Inode>, owner0: Owner, disk: seq<Block>, inodes: seq<Inode>,
                        owner: Owner, inum: nat, freed: set<nat>, all: set<nat>)
    requires Truncating(sb, d0, i0, owner0, disk, inodes, owner, inum, freed, {})
    requires inodes[inum].addrs[NDIRECT] == 0 && NDIRECT !in freed
    requires freed <= all && forall k :: k in all && k !in freed ==> NDIRECT <= k <= MAXFILE
    ensures Truncating(sb, d0, i0, owner0, disk, inodes, owner, inum, all, {})
  {
    hide Used;
    assert SameSlot(d0, i0, disk, inodes, Slot(inum, NDIRECT));
    assert i0[inum].addrs[NDIRECT] == 0;
    forall b | b in owner0 && owner0[b].inum == inum ensures owner0[b].k < NDIRECT {
      assert BlockOk(sb, d0, i0, owner0, b);
    }
    assert Without(owner0, inum, all) == Without(owner0, inum, freed);
  }

  /** All slots given back and the size set to 0: the file system is consistent again. */
  lemma TruncEnds(sb: Super, d0: seq<Block>, i0: seq<Inode>, owner0: Owner, disk: seq<Block>, inodes: seq<Inode>,
                  owner: Owner, inum: nat, freed: set<nat>, inodes': seq<Inode>)
    requires Consistent(sb, d0, i0, owner0, inum)
    requires Truncating(sb, d0, i0, owner0, disk, inodes, owner, inum, freed, {})
    requires forall k: nat :: k <= MAXFILE ==> k in freed
    requires NoAddrs(inodes[inum]) && inodes' == inodes[inum := inodes[inum].(size := 0)]
    ensures Consistent(sb, disk, inodes', owner, inum) && FilesKept(d0, i0, disk, inodes', {inum})
    ensures forall b :: b in owner <==> b in owner0 && owner0[b].inum != inum
    ensures forall b :: b in owner ==> owner[b] == owner0[b]
  {
    assert forall s :: SlotOk(inodes, s) ==> Addr(disk, inodes', s) == Addr(disk, inodes, s);
    hide Used, Addr, GetInode;
    forall b | b in owner0 && owner0[b].inum == inum ensures b !in owner {
      assert BlockOk(sb, d0, i0, owner0, b);
    }
    forall b | sb.data <= b < sb.size ensures BlockOk(sb, disk, inodes', owner, b) {
      assert BlockOk(sb, disk, inodes, owner, b);
    }
    forall s | SlotOk(inodes', s) ensures SlotHolds(disk, inodes', owner, s) {
      assert SlotOk(inodes, s) && SlotHolds(disk, inodes, owner, s);
    }
    forall s | SlotOk(i0, s) && s.inum !in {inum} ensures SlotKept(d0, i0, disk, inodes', s) {
      assert SlotKept(d0, i0, disk, inodes, s);
    }
    forall i | 0 <= i < |inodes| ensures Sound(disk, inodes', i) {
      assert Sound(d0, i0, i);
      if i != inum {
        KeptMapped(d0, i0, disk, inodes', {inum}, i, i0[i].size);
      }
    }
    forall i | 0 <= i < |inodes| && i != inum ensures Synced(sb, disk, inodes', i) {
      assert Synced(sb, d0, i0, i);
      InodeSpot(sb, i, i);
    }
  }

  lemma TruncStarts(sb: Super, d0: seq<Block>, i0: seq<Inode>, owner0: Owner, inum: nat)
    requires Consistent(sb, d0, i0, owner0, sb.ninodes) && inum < |i0|
    ensures Truncating(sb, d0, i0, owner0, d0, i0, owner0, inum, Upto(0, 0), {})
    ensures |i0[inum].addrs| == NDIRECT + 1
  {
    hide Used, Addr;
    assert Without(owner0, inum, {}) == owner0;
  }

  lemma IndirectHeld(sb: Super, disk: seq<Block>, inodes: seq<Inode>, owner: Owner, inum: nat)
    requires Owned(sb, disk, inodes, owner, {}) && inum < |inodes| && inodes[inum].addrs[NDIRECT] != 0
    ensures sb.data <= inodes[inum].addrs[NDIRECT] < sb.size == |disk|
  {
    OneHolder(sb, disk, inodes, owner, Slot(inum, NDIRECT), Slot(inum, NDIRECT));
  }

  lemma TruncShape(sb: Super, d0: seq<Block>, i0: seq<Inode>, owner0: Owner,
                   disk: seq<Block>, inodes: seq<Inode>, owner: Owner, inum: nat, freed: set<nat>, loose: set<Slot>)
    requires Truncating(sb, d0, i0, owner0, disk, inodes, owner, inum, freed, loose) && inum < |inodes|
    ensures Owned(sb, disk, inodes, owner, loose) && InodesOk(inodes) && |inodes[inum].addrs| == NDIRECT + 1
  {
  }
}
