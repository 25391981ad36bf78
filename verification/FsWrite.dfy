/** What a partly done writei has achieved, and how many distinct blocks it may log. */
module FsWrite {
  import opened Bytes
  import opened FsLayout
  import opened Param

  /** What writing src at off makes of contents c; the write may extend c but leaves no gap. */
  function Overwritten(c: seq<byte>, off: nat, src: seq<byte>): (r: seq<byte>)
    requires off <= |c|
    ensures |r| == if off + |src| <= |c| then |c| else off + |src|
  {
    c[..off] + src + if off + |src| <= |c| then c[off + |src|..] else []
  }

  function Max(a: nat, b: nat): nat { if a < b then b else a }

  /** After tot bytes of src, block contents and block map stand as they should.  The inode may have
      gained blocks but still has its old size. */
  ghost predicate Progress(d0: seq<Block>, i0: seq<Inode>, disk: seq<Block>, inodes: seq<Inode>,
                           inum: nat, off: nat, src: seq<byte>, tot: nat)
  {
    && InodesOk(i0) && InodesOk(inodes) && inum < |i0| == |inodes|
    && off <= i0[inum].size && tot <= |src| && off + |src| <= MAXFILE * BSIZE
    && inodes == i0[inum := i0[inum].(addrs := inodes[inum].addrs)]
    && FilesKept(d0, i0, disk, inodes, {inum})
    && HoleFree(disk, inodes, inum, Max(i0[inum].size, off + tot))
    && forall p: nat :: p < Max(i0[inum].size, off + tot) ==>
         FileByte(disk, inodes, inum, p) == ByteNow(d0, i0, inum, off, src, tot, p)
  }

  ghost function ByteNow(d0: seq<Block>, i0: seq<Inode>, inum: nat, off: nat, src: seq<byte>, tot: nat, p: nat): byte
    requires InodesOk(i0) && inum < |i0| && p < MAXFILE * BSIZE && tot <= |src|
  {
    if off <= p < off + tot then src[p - off] else FileByte(d0, i0, inum, p)
  }

  lemma ProgressStarts(d0: seq<Block>, i0: seq<Inode>, inum: nat, off: nat, src: seq<byte>)
    requires InodesOk(i0) && inum < |i0| && off <= i0[inum].size && off + |src| <= MAXFILE * BSIZE
    requires HoleFree(d0, i0, inum, i0[inum].size)
    ensures Progress(d0, i0, d0, i0, inum, off, src, 0)
  {
  }

  /** bmap may add blocks to the file; nothing written so far is disturbed. */
  lemma ProgressAlloc(d0: seq<Block>, i0: seq<Inode>, disk: seq<Block>, inodes: seq<Inode>, inum: nat,
                      off: nat, src: seq<byte>, tot: nat, disk': seq<Block>, inodes': seq<Inode>)
    requires Progress(d0, i0, disk, inodes, inum, off, src, tot)
    requires FilesKept(disk, inodes, disk', inodes', {})
    requires inodes' == inodes[inum := inodes[inum].(addrs := inodes'[inum].addrs)]
    ensures Progress(d0, i0, disk', inodes', inum, off, src, tot)
  {
    hide Addr;
    var len := Max(i0[inum].size, off + tot);
    KeptMapped(disk, inodes, disk', inodes', {}, inum, len);
    assert FilesKept(disk, inodes, disk', inodes', {inum});
    KeptTransitive(d0, i0, disk, inodes, disk', inodes', {inum});
    forall p: nat | p < len
      ensures FileByte(disk', inodes', inum, p) == ByteNow(d0, i0, inum, off, src, tot, p)
    {
      assert Mapped(disk, inodes, inum, p / BSIZE);
      assert SlotKept(disk, inodes, disk', inodes', FileSlot(inum, p / BSIZE));
      KeptByte(disk, inodes, disk', inodes', inum, p);
    }
  }

  lemma CoveredRange(q: nat, m: nat, p: nat)
    requires q % BSIZE + m <= BSIZE
    ensures Covered(q / BSIZE, q % BSIZE, m, p) <==> q <= p < q + m
    ensures q <= p < q + m ==> p % BSIZE - q % BSIZE == p - q
  {
  }

  /** Patching the next piece into its block extends the progress. */
  lemma ProgressPatch(d0: seq<Block>, i0: seq<Inode>, disk: seq<Block>, inodes: seq<Inode>, inum: nat,
                      off: nat, src: seq<byte>, tot: nat, m: nat, disk': seq<Block>)
    requires Progress(d0, i0, disk, inodes, inum, off, src, tot)
    requires tot + m <= |src| && 0 < m && (off + tot) % BSIZE + m <= BSIZE
    requires Mapped(disk, inodes, inum, (off + tot) / BSIZE)
    requires SameAddrs(disk, inodes, disk', inodes) && FilesKept(disk, inodes, disk', inodes, {inum})
    requires forall p: nat :: p < MAXFILE * BSIZE && Mapped(disk, inodes, inum, p / BSIZE) ==>
      FileByte(disk', inodes, inum, p)
      == if Covered((off + tot) / BSIZE, (off + tot) % BSIZE, m, p)
         then src[tot..tot + m][p % BSIZE - (off + tot) % BSIZE]
         else FileByte(disk, inodes, inum, p)
    ensures Progress(d0, i0, disk', inodes, inum, off, src, tot + m)
  {
    hide Addr, Covered;
    KeptTransitive(d0, i0, disk, inodes, disk', inodes, {inum});
    var len, len' := Max(i0[inum].size, off + tot), Max(i0[inum].size, off + tot + m);
    forall bn | 0 <= bn < MAXFILE && bn * BSIZE < len' ensures Mapped(disk', inodes, inum, bn) {
      assert SlotOk(inodes, FileSlot(inum, bn));
      if bn * BSIZE >= len {
        CoveredRange(off + tot, m, bn * BSIZE);
        assert bn == (off + tot) / BSIZE;
      }
      assert Mapped(disk, inodes, inum, bn);
    }
    forall p: nat | p < len'
      ensures FileByte(disk', inodes, inum, p) == ByteNow(d0, i0, inum, off, src, tot + m, p)
    {
      CoveredRange(off + tot, m, p);
      if p < len {
        assert Mapped(disk, inodes, inum, p / BSIZE);
      } else {
        assert p / BSIZE == (off + tot) / BSIZE;
      }
    }
  }

  /** When all of src is in place, the file with its new size reads as the source promises. */
  lemma ProgressEnds(d0: seq<Block>, i0: seq<Inode>, disk: seq<Block>, inodes: seq<Inode>, inum: nat,
                     off: nat, src: seq<byte>, inodes': seq<Inode>)
    requires Progress(d0, i0, disk, inodes, inum, off, src, |src|)
    requires inodes' == inodes[inum := inodes[inum].(size := Max(i0[inum].size, off + |src|))]
    ensures InodesOk(inodes') && HoleFree(disk, inodes', inum, inodes'[inum].size)
    ensures Content(disk, inodes', inum) == Overwritten(Content(d0, i0, inum), off, src)
    ensures FilesKept(d0, i0, disk, inodes', {inum})
  {
    var len := Max(i0[inum].size, off + |src|);
    assert forall s :: SlotOk(inodes, s) ==> Addr(disk, inodes', s) == Addr(disk, inodes, s);
    hide Addr;
    forall bn | 0 <= bn < MAXFILE && bn * BSIZE < len ensures Mapped(disk, inodes', inum, bn) {
      assert Mapped(disk, inodes, inum, bn) && SlotOk(inodes, FileSlot(inum, bn));
    }
    forall s | SlotOk(i0, s) && s.inum !in {inum} ensures SlotKept(d0, i0, disk, inodes', s) {
      assert SlotKept(d0, i0, disk, inodes, s);
    }
    var got, want := Content(disk, inodes', inum), Overwritten(Content(d0, i0, inum), off, src);
    forall p | 0 <= p < len ensures got[p] == want[p] {
      assert SlotOk(inodes, FileSlot(inum, p / BSIZE));
      assert got[p] == FileByte(disk, inodes, inum, p) == ByteNow(d0, i0, inum, off, src, |src|, p);
    }
  }

  // ---- The blocks a write allocates ----------------------------------------------------------

  /** Slot s holds one of the inode's file blocks lo .. hi - 1. */
  predicate HoldsPiece(s: Slot, inum: nat, lo: nat, hi: nat) {
    s.inum == inum && s.k != NDIRECT && lo <= (if s.k < NDIRECT then s.k else s.k - 1) < hi
  }

  /** A slot that a write to file blocks lo .. hi - 1 may have to fill: one of them, or the indirect
      block that the later ones need. */
  predicate Needed(s: Slot, inum: nat, lo: nat, hi: nat) {
    HoldsPiece(s, inum, lo, hi) || (s == Slot(inum, NDIRECT) && hi > NDIRECT)
  }

  /** r is the lowest block of the data area that nobody holds. */
  ghost predicate Lowest(sb: Super, o: Owner, r: nat) {
    sb.data <= r < sb.size && r !in o && forall c :: sb.data <= c < r ==> c in o
  }

  /** Nobody lost a block, and the blocks gained are the lowest that were free and sit in slots that
      were needed. */
  ghost predicate Grew(sb: Super, o: Owner, o': Owner, inum: nat, lo: nat, hi: nat) {
    && (forall b :: b in o ==> b in o' && o'[b] == o[b])
    && (forall b :: b in o' && b !in o ==> Needed(o'[b], inum, lo, hi))
    && (forall b, c :: b in o' && b !in o && sb.data <= c < b ==> c in o')
  }

  /** Every block gained was logged with its bitmap block, and so was every file block lo .. hi - 1. */
  ghost predicate Recorded(sb: Super, o: Owner, o': Owner, logged: set<nat>, inum: nat, lo: nat, hi: nat) {
    && (forall b :: b in o' && (b !in o || HoldsPiece(o'[b], inum, lo, hi)) ==> b in logged)
    && (forall b :: b in o' && b !in o ==> sb.BitmapBlock(b) in logged)
  }

  lemma GrewNone(sb: Super, o: Owner, logged: set<nat>, inum: nat, bn: nat)
    ensures Grew(sb, o, o, inum, bn, bn + 1) && Recorded(sb, o, o, logged, inum, bn, bn)
  {
  }

  lemma GrewOne(sb: Super, o: Owner, r: nat, s: Slot, logged: set<nat>, inum: nat, bn: nat)
    requires Lowest(sb, o, r) && Needed(s, inum, bn, bn + 1) && r in logged && sb.BitmapBlock(r) in logged
    ensures Grew(sb, o, o[r := s], inum, bn, bn + 1) && Recorded(sb, o, o[r := s], logged, inum, bn, bn)
  {
    hide Super.BitmapBlock;
  }

  /** The indirect block first, then the entry. */
  lemma GrewBoth(sb: Super, o: Owner, o1: Owner, o2: Owner, l1: set<nat>, l2: set<nat>, inum: nat, bn: nat)
    requires Grew(sb, o, o1, inum, bn, bn + 1) && Recorded(sb, o, o1, l1, inum, bn, bn)
    requires Grew(sb, o1, o2, inum, bn, bn + 1) && Recorded(sb, o1, o2, l2, inum, bn, bn) && l1 <= l2
    ensures Grew(sb, o, o2, inum, bn, bn + 1) && Recorded(sb, o, o2, l2, inum, bn, bn)
  {
    hide Super.BitmapBlock;
    GrewTwice(sb, o, o1, o2, inum, bn, bn + 1, bn + 1, bn);
  }

  lemma GrewTwice(sb: Super, o: Owner, o1: Owner, o2: Owner, inum: nat, lo: nat, mid: nat, hi: nat, at: nat)
    requires Grew(sb, o, o1, inum, lo, mid) && Grew(sb, o1, o2, inum, at, hi) && lo <= at && mid <= hi
    ensures Grew(sb, o, o2, inum, lo, hi)
  {
    forall b | b in o2 && b !in o ensures Needed(o2[b], inum, lo, hi) {
      if b in o1 { assert Needed(o1[b], inum, lo, mid); } else { assert Needed(o2[b], inum, at, hi); }
    }
  }

  lemma GrewWider(sb: Super, o: Owner, o': Owner, inum: nat, lo: nat, mid: nat, hi: nat)
    requires Grew(sb, o, o', inum, lo, mid) && mid <= hi
    ensures Grew(sb, o, o', inum, lo, hi)
  {
    forall b | b in o' && b !in o ensures Needed(o'[b], inum, lo, hi) {
      assert Needed(o'[b], inum, lo, mid);
    }
  }

  /** One more file block. */
  lemma RecordedStep(sb: Super, o: Owner, o1: Owner, o2: Owner, l1: set<nat>, l2: set<nat>, inum: nat, lo: nat,
                     mid: nat)
    requires Grew(sb, o, o1, inum, lo, mid) && Recorded(sb, o, o1, l1, inum, lo, mid) && lo <= mid
    requires Grew(sb, o1, o2, inum, mid, mid + 1) && Recorded(sb, o1, o2, l2, inum, mid, mid + 1) && l1 <= l2
    ensures Grew(sb, o, o2, inum, lo, mid + 1) && Recorded(sb, o, o2, l2, inum, lo, mid + 1)
  {
    hide Super.BitmapBlock;
    GrewTwice(sb, o, o1, o2, inum, lo, mid, mid + 1, mid);
    forall b | b in o2 && (b !in o || HoldsPiece(o2[b], inum, lo, mid + 1)) ensures b in l2 {
      if b in o1 && !HoldsPiece(o2[b], inum, mid, mid + 1) {
        assert b !in o || HoldsPiece(o1[b], inum, lo, mid);
      }
    }
    forall b | b in o2 && b !in o ensures sb.BitmapBlock(b) in l2 {
    }
  }

  /** The block was patched and logged. */
  lemma RecordedPatch(sb: Super, disk: seq<Block>, inodes: seq<Inode>, o: Owner, o': Owner, logged: set<nat>,
                      logged': set<nat>, inum: nat, bn: nat, b: nat)
    requires Owned(sb, disk, inodes, o', {}) && inum < |inodes| && bn < MAXFILE
    requires Addr(disk, inodes, FileSlot(inum, bn)) == b && logged' == logged + {b}
    requires Recorded(sb, o, o', logged, inum, bn, bn)
    ensures Recorded(sb, o, o', logged', inum, bn, bn + 1)
  {
    hide Super.BitmapBlock, Addr, Used;
    forall c | c in o' && (c !in o || HoldsPiece(o'[c], inum, bn, bn + 1)) ensures c in logged' {
      assert BlockOk(sb, disk, inodes, o', c);
      if c in o { assert o'[c] == FileSlot(inum, bn); }
    }
  }

  // ---- The transaction bound ------------------------------------------------------------------

  /** How many file blocks the bytes off .. off + n - 1 touch. */
  function Blocks(off: nat, n: nat): nat {
    if n == 0 then 0 else (off % BSIZE + n - 1) / BSIZE + 1
  }

  lemma BlocksStep(off: nat, tot: nat, m: nat)
    requires 0 < m && (off + tot) % BSIZE + m <= BSIZE
    requires tot == 0 || (off + tot) % BSIZE == 0
    ensures Blocks(off, tot + m) == Blocks(off, tot) + 1
  {
    assert (off + tot) % BSIZE == (off % BSIZE + tot) % BSIZE;
    if tot > 0 {
      var q := (off % BSIZE + tot) / BSIZE;
      assert off % BSIZE + tot == q * BSIZE;
    }
  }

  /** The next piece goes to the file block after those written so far, and is one of the range. */
  lemma BlocksSoFar(off: nat, tot: nat, n: nat)
    requires Aligned(off, tot, n) && tot < n
    ensures (off + tot) / BSIZE == off / BSIZE + Blocks(off, tot) && Blocks(off, tot) < Blocks(off, n)
  {
    if tot > 0 {
      assert off == BSIZE * (off / BSIZE) + off % BSIZE;
      var q := (off + tot) / BSIZE;
      assert off + tot == q * BSIZE;
    }
  }

  /** One pass at file position p gained what the file block there needs. */
  ghost predicate GrewAt(sb: Super, o: Owner, o': Owner, inum: nat, p: nat) {
    Grew(sb, o, o', inum, p / BSIZE, p / BSIZE + 1)
  }

  ghost predicate RecordedAt(sb: Super, o: Owner, o': Owner, logged: set<nat>, inum: nat, p: nat) {
    Recorded(sb, o, o', logged, inum, p / BSIZE, p / BSIZE + 1)
  }

  /** The blocks that the first tot bytes of a write at off gained. */
  ghost predicate Gains(sb: Super, o: Owner, o': Owner, inum: nat, off: nat, tot: nat) {
    Grew(sb, o, o', inum, off / BSIZE, off / BSIZE + Blocks(off, tot))
  }

  /** All their file blocks, and the bitmap blocks of those gained, are in the log. */
  ghost predicate Records(sb: Super, o: Owner, o': Owner, logged: set<nat>, inum: nat, off: nat, tot: nat) {
    Recorded(sb, o, o', logged, inum, off / BSIZE, off / BSIZE + Blocks(off, tot))
  }

  lemma RecordsStart(sb: Super, o: Owner, logged: set<nat>, inum: nat, off: nat)
    ensures Gains(sb, o, o, inum, off, 0) && Records(sb, o, o, logged, inum, off, 0)
  {
  }

  lemma RecordsMore(sb: Super, o: Owner, o': Owner, l: set<nat>, l': set<nat>, inum: nat, off: nat, tot: nat)
    requires Records(sb, o, o', l, inum, off, tot) && l <= l'
    ensures Records(sb, o, o', l', inum, off, tot)
  {
  }

  lemma RecordsStep(sb: Super, o: Owner, o1: Owner, o2: Owner, l1: set<nat>, l2: set<nat>, inum: nat,
                    off: nat, tot: nat, n: nat, m: nat)
    requires Aligned(off, tot, n) && tot < n && 0 < m && (off + tot) % BSIZE + m <= BSIZE
    requires Gains(sb, o, o1, inum, off, tot) && Records(sb, o, o1, l1, inum, off, tot) && l1 <= l2
    requires GrewAt(sb, o1, o2, inum, off + tot) && RecordedAt(sb, o1, o2, l2, inum, off + tot)
    ensures Gains(sb, o, o2, inum, off, tot + m) && Records(sb, o, o2, l2, inum, off, tot + m)
  {
    hide Grew, Recorded;
    BlocksSoFar(off, tot, n);
    BlocksStep(off, tot, m);
    RecordedStep(sb, o, o1, o2, l1, l2, inum, off / BSIZE, (off + tot) / BSIZE);
  }

  /** The file lacks one of the blocks lo .. hi - 1. */
  ghost predicate Lacks(disk: seq<Block>, inodes: seq<Inode>, inum: nat, lo: nat, hi: nat) {
    && InodesOk(inodes) && inum < |inodes| && hi <= MAXFILE
    && exists bn :: lo <= bn < hi && !Mapped(disk, inodes, inum, bn)
  }

  lemma GainsStop(sb: Super, o: Owner, o1: Owner, o2: Owner, inum: nat, off: nat, tot: nat, n: nat)
    requires Aligned(off, tot, n) && tot < n && Gains(sb, o, o1, inum, off, tot)
    requires GrewAt(sb, o1, o2, inum, off + tot)
    ensures Gains(sb, o, o2, inum, off, n)
    ensures off / BSIZE <= (off + tot) / BSIZE < off / BSIZE + Blocks(off, n)
  {
    hide Grew;
    BlocksSoFar(off, tot, n);
    var lo, mid := off / BSIZE, (off + tot) / BSIZE;
    GrewTwice(sb, o, o1, o2, inum, lo, mid, mid + 1, mid);
    GrewWider(sb, o, o2, inum, lo, mid + 1, lo + Blocks(off, n));
  }

  lemma BlocksFit(off: nat, n: nat)
    requires off + n <= MAXFILE * BSIZE
    ensures off / BSIZE + Blocks(off, n) <= MAXFILE
  {
  }

  /** Every file block, one bitmap block per allocated file block (the first block of an unaligned
      write exists already), and the indirect block, its bitmap block and the inode block. */
  function TransactionBound(off: nat, n: nat): nat {
    2 * Blocks(off, n) - (if off % BSIZE != 0 && n > 0 then 1 else 0) + 3
  }

  /** writei stops between blocks only, or at the end. */
  predicate Aligned(off: nat, tot: nat, n: nat) {
    tot == 0 || tot == n || (off + tot) % BSIZE == 0
  }

  /** Counts after tot bytes: distinct file blocks and bitmap blocks logged; `gained` is 1 once the
      indirect block was allocated. */
  ghost predicate Tally(off: nat, tot: nat, data: nat, bitmaps: nat, gained: nat) {
    && gained <= 1 && data <= Blocks(off, tot)
    && bitmaps <= Blocks(off, tot) - (if off % BSIZE != 0 && tot > 0 then 1 else 0) + gained
  }

  lemma TallyStep(off: nat, tot: nat, n: nat, m: nat, data: nat, bitmaps: nat, gained: nat,
                  data': nat, bitmaps': nat, gained': nat)
    requires Tally(off, tot, data, bitmaps, gained) && Aligned(off, tot, n) && tot < n
    requires 0 < m && (off + tot) % BSIZE + m <= BSIZE
    requires data' <= data + 1 && gained <= gained' <= 1 && bitmaps' <= bitmaps + 1 + gained' - gained
    requires tot == 0 && off % BSIZE != 0 ==> bitmaps' <= bitmaps
    ensures Tally(off, tot + m, data', bitmaps', gained')
  {
    BlocksStep(off, tot, m);
  }

  lemma TallyEnds(off: nat, n: nat, data: set<nat>, bitmaps: set<nat>, gained: nat, indirect: set<nat>)
    requires Tally(off, n, |data|, |bitmaps|, gained) && |indirect| <= 1
    ensures |data + bitmaps + indirect| + 1 <= TransactionBound(off, n)
  {
  }

  /** ((MAXOPBLOCKS-1-1-2) / 2) * 512 */
  const CHUNK: nat := (MAXOPBLOCKS - 1 - 1 - 2) / 2 * 512

  /** One filewrite chunk fits an operation's reservation with nothing to spare: from an unaligned
      offset the bound is reached, and chunks two bytes longer could exceed it. */
  lemma ChunkFits(off: nat, n: nat)
    ensures n <= CHUNK ==> TransactionBound(off, n) <= MAXOPBLOCKS
    ensures n == CHUNK && off % BSIZE != 0 ==> TransactionBound(off, n) == MAXOPBLOCKS
    ensures n == CHUNK + 2 && off % BSIZE == BSIZE - 1 ==> TransactionBound(off, n) > MAXOPBLOCKS
  {
  }
}
