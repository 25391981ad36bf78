/** How many buffers a commit needs: write_log and the buffers that the log keeps pinned. */
module BioLog {
  import opened Bytes
  import opened Param
  import opened Bio

  /** The buffers that bget may not recycle: pinned by the log or referenced. */
  ghost function Busy(buf: seq<Buf>): set<nat> {
    set i: nat | i < |buf| && !Idle(buf[i])
  }

  ghost function Dirty(buf: seq<Buf>): set<nat> {
    set i: nat | i < |buf| && buf[i].dirty
  }

  ghost function Referenced(buf: seq<Buf>): set<nat> {
    set i: nat | i < |buf| && buf[i].refcnt > 0 && !buf[i].dirty
  }

  ghost predicate Cached(buf: seq<Buf>, b: nat) {
    exists i: nat :: i < |buf| && Caches(buf[i], 1, b)
  }

  lemma {:induction false} UptoSize(a: set<nat>, n: nat)
    requires forall i :: i in a ==> i < n
    ensures |a| <= n && (|a| == n <==> forall i :: 0 <= i < n ==> i in a)
  {
    if n > 0 {
      UptoSize(a - {n - 1}, n - 1);
      assert n - 1 in a ==> |a - {n - 1}| == |a| - 1;
      assert n - 1 !in a ==> a - {n - 1} == a;
    }
  }

  /** Pinned and referenced buffers add up; every buffer is busy exactly when there are NBUF. */
  lemma BusyBuffers(buf: seq<Buf>)
    requires |buf| == NBUF
    ensures |Busy(buf)| == |Dirty(buf)| + |Referenced(buf)| <= NBUF
    ensures |Busy(buf)| == NBUF <==> forall i: nat :: i < NBUF ==> !Idle(buf[i])
  {
    assert Busy(buf) == Dirty(buf) + Referenced(buf);
    UptoSize(Busy(buf), NBUF);
    assert forall i: nat :: i < NBUF ==> (i in Busy(buf) <==> !Idle(buf[i]));
  }

  /** Nobody holds buffer i. */
  ghost predicate Unheld(buf: seq<Buf>, i: nat) {
    i < |buf| && !buf[i].locked
  }

  /** No process holds a buffer of block b. */
  ghost predicate FreeOf(buf: seq<Buf>, b: nat) {
    forall i: nat :: i < |buf| && Caches(buf[i], 1, b) ==> Unheld(buf, i)
  }

  /** bread, for a block whose buffer nobody holds: bget, the sleep-lock, and the disk. */
  method BreadBlock(c: Cache, b: nat) returns (r: Option<nat>)
    requires c.Valid() && |c.buf| == NBUF && b < |c.disk| && FreeOf(c.buf, b)
    modifies c`buf, c`disk
    ensures c.Valid() && |c.buf| == NBUF == |old(c.buf)| && c.disk == old(c.disk)
    ensures r == None <==> |Busy(old(c.buf))| == NBUF && !Cached(old(c.buf), b)
    ensures r == None ==> c.buf == old(c.buf)
    ensures r.Some? ==> r.value < NBUF && b < |c.latest|
    ensures r.Some? ==>
      c.buf == old(c.buf)[r.value := Buf(1, b, true, old(c.buf)[r.value].dirty,
                                         c.buf[r.value].refcnt, true, c.latest[b])]
    ensures r.Some? ==>
      c.buf[r.value].refcnt == if Caches(old(c.buf)[r.value], 1, b) then old(c.buf)[r.value].refcnt + 1 else 1
    ensures r.Some? && !Caches(old(c.buf)[r.value], 1, b) ==> Idle(old(c.buf)[r.value]) && !Cached(old(c.buf), b)
  {
    hide Ring, Agrees;
    BusyBuffers(c.buf);
    Sizes(c.buf, c.disk, c.latest);
    r := c.Bget(1, b);
    if r.Some? {
      Sizes(c.buf, c.disk, c.latest);
      c.Lock(r.value);
      c.Bread(r.value);
    }
  }

  /** brelse of a buffer whose contents are the latest. */
  method Brelse(c: Cache, i: nat)
    requires c.Valid() && |c.buf| == NBUF && i < NBUF && c.buf[i].locked && c.buf[i].refcnt > 0
    requires c.buf[i].valid && c.buf[i].blockno < |c.latest| && c.buf[i].data == c.latest[c.buf[i].blockno]
    modifies c`buf, c`next, c`prev, c`ring
    ensures c.Valid() && c.buf == old(c.buf)[i := old(c.buf)[i].(locked := false, refcnt := old(c.buf)[i].refcnt - 1)]
  {
    hide Ring, Agrees;
    c.Unlock(i);
    assert i in c.ring;
    ghost var k: nat :| k < |c.ring| && c.ring[k] == i;
    c.Unref(i, k);
  }

  // ---- write_log ----

  /** Block b is pinned by a buffer that nobody holds. */
  ghost predicate PinnedIn(buf: seq<Buf>, b: nat) {
    exists i: nat :: Pins(buf, i, b)
  }

  /** The buffers cache the same blocks, and are pinned and referenced alike. */
  ghost predicate SameUse(buf: seq<Buf>, buf': seq<Buf>) {
    |buf'| == |buf| && forall i: nat :: i < |buf| ==> SameUseAt(buf, buf', i)
  }

  ghost predicate SameUseAt(buf: seq<Buf>, buf': seq<Buf>, i: nat)
    requires i < |buf| == |buf'|
  {
    && buf'[i].dirty == buf[i].dirty && (buf'[i].refcnt > 0 <==> buf[i].refcnt > 0)
    && (!Idle(buf[i]) ==> Caches(buf'[i], buf[i].dev, buf[i].blockno))
    && (buf'[i].locked ==> buf[i].locked)
  }

  /** Only the two buffers changed, and as a copy changes them. */
  lemma UseKept(buf: seq<Buf>, buf': seq<Buf>, i: nat, j: nat, l: nat)
    requires i < |buf| == |buf'| && j < |buf| && i != j && buf' == buf[i := buf'[i]][j := buf'[j]]
    requires !buf'[i].dirty && !buf[i].dirty && !buf'[i].locked && !buf'[j].locked && Caches(buf'[i], 1, l)
    requires if Caches(buf[i], 1, l) then buf'[i].refcnt == buf[i].refcnt else Idle(buf[i]) && buf'[i].refcnt == 0
    requires buf'[j].dirty == buf[j].dirty && buf'[j].refcnt == buf[j].refcnt
    requires Caches(buf'[j], buf[j].dev, buf[j].blockno)
    ensures SameUse(buf, buf')
    ensures Caches(buf[i], 1, l) ==> forall x: nat :: Cached(buf', x) <==> Cached(buf, x)
  {
    forall k: nat | k < |buf| ensures SameUseAt(buf, buf', k) {
    }
    if Caches(buf[i], 1, l) {
      forall x: nat ensures Cached(buf', x) <==> Cached(buf, x) {
        if k: nat :| k < |buf| && Caches(buf[k], 1, x) {
          assert Caches(buf'[k], 1, x);
        }
        if k: nat :| k < |buf| && Caches(buf'[k], 1, x) {
          assert Caches(buf[k], 1, x);
        }
      }
    }
  }

  /** The two buffers of a copy, held. */
  method BreadBoth(c: Cache, l: nat, b: nat) returns (to: Option<nat>, from: nat)
    requires c.Valid() && |c.buf| == NBUF && l < |c.disk| && b < |c.disk| && l != b
    requires FreeOf(c.buf, l) && FreeOf(c.buf, b) && PinnedIn(c.buf, b) && !PinnedIn(c.buf, l)
    modifies c`buf, c`disk
    ensures c.Valid() && |c.buf| == NBUF == |old(c.buf)| && c.disk == old(c.disk)
    ensures to == None <==> |Busy(old(c.buf))| == NBUF && !Cached(old(c.buf), l)
    ensures to == None ==> c.buf == old(c.buf)
    ensures to.Some? && Cached(old(c.buf), l) ==> to.value < NBUF && Caches(old(c.buf)[to.value], 1, l)
    ensures to.Some? ==>
      && to.value < NBUF && from < NBUF && to.value != from && l < |c.latest| && b < |c.latest|
      && c.buf == old(c.buf)[to.value := c.buf[to.value]][from := c.buf[from]]
      && Taken(old(c.buf)[to.value], c.buf[to.value], l, c.latest[l]) && !c.buf[to.value].dirty
      && Taken(old(c.buf)[from], c.buf[from], b, c.latest[b]) && Caches(old(c.buf)[from], 1, b)
  {
    hide Ring, Agrees;
    ghost var buf0 := c.buf;
    ghost var p: nat :| Pins(buf0, p, b);
    from := 0;
    to := BreadBlock(c, l);
    if to == None {
      return;
    }
    assert p != to.value && Caches(c.buf[p], 1, b);
    assert !Pins(buf0, to.value, l);
    var r := BreadBlock(c, b);
    from := r.value;
  }

  /** What bread does to the buffer that it finds or recycles for block b. */
  ghost predicate Taken(x: Buf, y: Buf, b: nat, data: Block) {
    && y == Buf(1, b, true, x.dirty, y.refcnt, true, data)
    && if Caches(x, 1, b) then y.refcnt == x.refcnt + 1 else Idle(x) && y.refcnt == 1
  }

  /** One pass of write_log's loop: the pinned contents of block b go to block l of the log.  The panic
    * of bget for the log block is the only one, and comes exactly when every buffer is busy and none
    * caches that block. */
  method CopyToLog(c: Cache, l: nat, b: nat) returns (ok: bool)
    requires c.Valid() && |c.buf| == NBUF && l < |c.disk| && b < |c.disk| && l != b
    requires FreeOf(c.buf, l) && FreeOf(c.buf, b) && PinnedIn(c.buf, b) && !PinnedIn(c.buf, l)
    modifies c
    ensures c.Valid() && |c.buf| == NBUF && |c.disk| == |old(c.disk)|
    ensures ok <==> |Busy(old(c.buf))| < NBUF || Cached(old(c.buf), l)
    ensures ok ==> b < |old(c.latest)| && c.disk == old(c.disk)[l := old(c.latest)[b]]
    ensures ok ==> c.latest == old(c.latest)[l := old(c.latest)[b]] && SameUse(old(c.buf), c.buf)
    ensures ok && Cached(old(c.buf), l) ==> forall x: nat :: Cached(c.buf, x) <==> Cached(old(c.buf), x)
  {
    hide Ring, Agrees, Busy, Cached, PinnedIn, FreeOf, SameUse;
    BusyBuffers(c.buf);
    ghost var buf0 := c.buf;
    var to, from := BreadBoth(c, l, b);
    if to == None {
      return false;
    }
    c.Modify(to.value, c.buf[from].data);
    c.Bwrite(to.value);
    Brelse(c, from);
    Brelse(c, to.value);
    ok := true;
    assert c.buf == buf0[to.value := c.buf[to.value]][from := c.buf[from]];
    UseKept(buf0, c.buf, to.value, from, l);
  }

  lemma UseLasts(buf: seq<Buf>, buf': seq<Buf>)
    requires |buf| == NBUF && SameUse(buf, buf') && forall i: nat :: i < NBUF && buf[i].locked ==> buf[i].refcnt > 0
    ensures Busy(buf') == Busy(buf)
    ensures forall b: nat :: (PinnedIn(buf', b) <==> PinnedIn(buf, b)) && (FreeOf(buf, b) ==> FreeOf(buf', b))
  {
    forall i: nat | i < NBUF ensures Idle(buf'[i]) <==> Idle(buf[i]) {
      assert SameUseAt(buf, buf', i);
    }
    forall b: nat
      ensures PinnedIn(buf', b) <==> PinnedIn(buf, b)
      ensures FreeOf(buf, b) ==> FreeOf(buf', b)
    {
      if i: nat :| Pins(buf, i, b) {
        assert SameUseAt(buf, buf', i) && Pins(buf', i, b);
      }
      if i: nat :| Pins(buf', i, b) {
        assert SameUseAt(buf, buf', i) && Pins(buf, i, b);
      }
      if FreeOf(buf, b) {
        forall i: nat | i < NBUF && Caches(buf'[i], 1, b) ensures Unheld(buf', i) {
          assert SameUseAt(buf, buf', i);
          assert buf'[i].locked ==> Caches(buf[i], 1, b);
          assert Caches(buf[i], 1, b) ==> Unheld(buf, i);
        }
      }
    }
  }

  /** Every listed block is pinned, no log block is, and nobody holds a buffer of either. */
  ghost predicate Ready(buf: seq<Buf>, start: nat, lh: seq<nat>) {
    forall k: nat :: k < |lh| ==> ReadyAt(buf, start, lh, k)
  }

  ghost predicate ReadyAt(buf: seq<Buf>, start: nat, lh: seq<nat>, k: nat)
    requires k < |lh|
  {
    PinnedIn(buf, lh[k]) && FreeOf(buf, lh[k]) && !PinnedIn(buf, start + 1 + k) && FreeOf(buf, start + 1 + k)
  }

  ghost predicate OffLog(start: nat, lh: seq<nat>) {
    forall k: nat :: k < |lh| ==> !(start < lh[k] <= start + |lh|)
  }

  /** Blocks start + 1 to start + n are cached. */
  ghost predicate LogCached(buf: seq<Buf>, start: nat, lo: nat, n: nat) {
    forall l: nat :: start + lo < l <= start + n ==> Cached(buf, l)
  }

  /** write_log with its buffers.  It goes through exactly when some buffer is neither pinned nor
    * referenced, or every block of the log that it writes is cached already. */
  method WriteLog(c: Cache, start: nat, lh: seq<nat>) returns (ok: bool)
    requires c.Valid() && |c.buf| == NBUF && start + |lh| < |c.disk| && OffLog(start, lh)
    requires (forall k: nat :: k < |lh| ==> lh[k] < |c.disk|) && Ready(c.buf, start, lh)
    modifies c
    ensures c.Valid() && |c.buf| == NBUF && |c.disk| == |old(c.disk)| == |old(c.latest)|
    ensures ok <==> |Busy(old(c.buf))| < NBUF || LogCached(old(c.buf), start, 0, |lh|)
    ensures ok ==> forall k: nat :: k < |lh| ==> c.disk[start + 1 + k] == old(c.latest)[lh[k]]
    ensures ok ==> forall b: nat :: b < |c.disk| && !(start < b <= start + |lh|) ==> c.disk[b] == old(c.disk)[b]
  {
    hide Ring, Agrees, Busy, Cached, PinnedIn, FreeOf, SameUse;
    ghost var buf0, n := c.buf, |lh|;
    BusyBuffers(buf0);
    Sizes(c.buf, c.disk, c.latest);
    var tail := 0;
    while tail < |lh|
      invariant tail <= n && c.Valid() && |c.buf| == NBUF && |c.disk| == |old(c.disk)| == |c.latest|
      invariant Busy(c.buf) == Busy(buf0) && Ready(c.buf, start, lh)
      invariant |Busy(buf0)| < NBUF || LogCached(buf0, start, 0, tail)
      invariant |Busy(buf0)| == NBUF ==> forall x: nat :: Cached(c.buf, x) <==> Cached(buf0, x)
      invariant forall k: nat :: k < tail ==> c.disk[start + 1 + k] == old(c.latest)[lh[k]]
      invariant forall b: nat :: b < |c.disk| && !(start < b <= start + tail) ==>
        c.disk[b] == old(c.disk)[b] && c.latest[b] == old(c.latest)[b]
    {
      assert ReadyAt(c.buf, start, lh, tail);
      ghost var buf1 := c.buf;
      Sizes(c.buf, c.disk, c.latest);
      ok := CopyToLog(c, start + 1 + tail, lh[tail]);
      if !ok {
        return;
      }
      UseLasts(buf1, c.buf);
      forall k: nat | k < n ensures ReadyAt(c.buf, start, lh, k) {
        assert ReadyAt(buf1, start, lh, k);
      }
      tail := tail + 1;
    }
    ok := true;
  }

  // ---- how many buffers a list takes ----

  ghost predicate AllPinned(buf: seq<Buf>, lh: seq<nat>) {
    forall k: nat :: k < |lh| ==> PinnedIn(buf, lh[k])
  }

  /** A buffer for each listed block. */
  lemma {:induction false} PinsOf(buf: seq<Buf>, lh: seq<nat>) returns (s: set<nat>)
    requires Distinct(lh) && AllPinned(buf, lh)
    ensures |s| == |lh| && (forall i :: i in s ==> i < |buf| && buf[i].dirty && buf[i].dev == 1 && buf[i].blockno in lh)
    ensures forall k: nat :: k < |lh| ==> exists i: nat :: i in s && Pins(buf, i, lh[k])
  {
    s := {};
    if lh != [] {
      var m := |lh| - 1;
      var rest := lh[..m];
      forall k: nat | k < |rest| ensures PinnedIn(buf, rest[k]) {
        assert PinnedIn(buf, lh[k]);
      }
      var s0 := PinsOf(buf, rest);
      assert PinnedIn(buf, lh[m]);
      var i: nat :| Pins(buf, i, lh[m]);
      s := s0 + {i};
      forall k: nat | k < |lh| ensures exists i: nat :: i in s && Pins(buf, i, lh[k]) {
        if k < m {
          assert rest[k] == lh[k];
          var j: nat :| j in s0 && Pins(buf, j, rest[k]);
          assert j in s && Pins(buf, j, lh[k]);
        }
      }
    }
  }

  /** The log pins one buffer for each listed block.  So a commit of n blocks, with r other buffers
    * referenced, needs n + r < NBUF, unless it finds the blocks of the log cached. */
  lemma ListedBuffers(buf: seq<Buf>, disk: seq<Block>, latest: seq<Block>, lh: seq<nat>)
    requires Agrees(buf, disk, latest) && Distinct(lh) && AllPinned(buf, lh)
    requires forall i: nat :: i < NBUF && buf[i].dirty ==> buf[i].blockno in lh
    ensures |Dirty(buf)| == |lh| && |Busy(buf)| == |lh| + |Referenced(buf)|
  {
    BusyBuffers(buf);
    var s := PinsOf(buf, lh);
    forall i: nat | i < NBUF && buf[i].dirty ensures i in s {
      assert BufOk(buf[i], latest);
      var k: nat :| k < |lh| && lh[k] == buf[i].blockno;
      var j: nat :| j in s && Pins(buf, j, lh[k]);
      assert i != j ==> Unlike(buf, i, j);
    }
    assert s == Dirty(buf);
  }

  /** A list of NBUF blocks, which is LOGSIZE and so within what operations may reserve, is never
    * committed: all buffers are pinned, and none has a block of the log. */
  lemma FullListUncached(buf: seq<Buf>, start: nat, lh: seq<nat>)
    requires |buf| == NBUF && Distinct(lh) && |lh| == NBUF && AllPinned(buf, lh) && OffLog(start, lh)
    ensures |Busy(buf)| == NBUF && !LogCached(buf, start, 0, |lh|)
  {
    var s := PinsOf(buf, lh);
    UptoSize(s, NBUF);
    BusyBuffers(buf);
    assert forall i: nat :: i < NBUF ==> i in s;
    forall i: nat | i < NBUF ensures !Caches(buf[i], 1, start + 1) {
      assert i in s;
      var k: nat :| k < |lh| && lh[k] == buf[i].blockno;
    }
    assert !Cached(buf, start + 1);
  }

  // ---- a full list ----

  /** What an operation does with a block: bread, the change, log_write, brelse. */
  method LogBlock(c: Cache, b: nat, data: Block) returns (r: Option<nat>)
    requires c.Valid() && |c.buf| == NBUF && b < |c.disk| && FreeOf(c.buf, b)
    modifies c
    ensures c.Valid() && |c.buf| == NBUF == |old(c.buf)| && |c.disk| == |old(c.disk)|
    ensures r == None <==> |Busy(old(c.buf))| == NBUF && !Cached(old(c.buf), b)
    ensures r.Some? ==> r.value < NBUF && (Idle(old(c.buf)[r.value]) || Caches(old(c.buf)[r.value], 1, b))
    ensures r.Some? ==> c.buf == old(c.buf)[r.value := Buf(1, b, true, true, c.buf[r.value].refcnt, false, data)]
    ensures r.Some? && !Caches(old(c.buf)[r.value], 1, b) ==> c.buf[r.value].refcnt == 0
  {
    hide Ring, Agrees, Busy, Cached, FreeOf;
    Sizes(c.buf, c.disk, c.latest);
    r := BreadBlock(c, b);
    if r.Some? {
      c.Modify(r.value, data);
      c.Pin(r.value);
      Brelse(c, r.value);
      Sizes(c.buf, c.disk, c.latest);
    }
  }

  /** n blocks from block `at` on are pinned, and no other buffer is in use. */
  ghost predicate PinnedFrom(c: Cache, at: nat, n: nat)
    reads c
  {
    && c.Valid() && |c.buf| == NBUF && |Dirty(c.buf)| == n && n <= NBUF
    && (forall i: nat :: i < NBUF ==> PinOrNew(c.buf[i], at, n))
    && forall b: nat :: at <= b < at + n ==> PinnedIn(c.buf, b)
  }

  ghost predicate PinOrNew(x: Buf, at: nat, n: nat) {
    && x.refcnt == 0 && !x.locked
    && if x.dirty then x.dev == 1 && at <= x.blockno < at + n else x.dev == 0
  }

  method PinNext(c: Cache, at: nat, n: nat, data: Block)
    requires PinnedFrom(c, at, n) && n < NBUF && at + n < |c.disk|
    modifies c
    ensures PinnedFrom(c, at, n + 1) && |c.disk| == |old(c.disk)|
  {
    hide Ring, Agrees, PinnedIn, FreeOf, Cached, Busy, Dirty;
    ghost var buf0 := c.buf;
    NotYet(c, at, n);
    var r := LogBlock(c, at + n, data);
    OneMorePin(buf0, c.buf, at, n, r.value);
  }

  /** The next block is not cached, and a buffer is left for it. */
  lemma NotYet(c: Cache, at: nat, n: nat)
    requires PinnedFrom(c, at, n) && n < NBUF
    ensures |Busy(c.buf)| < NBUF && !Cached(c.buf, at + n) && FreeOf(c.buf, at + n)
  {
    BusyBuffers(c.buf);
    NoneReferenced(c, at, n);
    forall i: nat | i < NBUF ensures PinOrNew(c.buf[i], at, n) {
    }
  }

  lemma OneMorePin(buf: seq<Buf>, buf': seq<Buf>, at: nat, n: nat, r: nat)
    requires |buf| == NBUF && r < NBUF && n < NBUF && |Dirty(buf)| == n
    requires forall i: nat :: i < NBUF ==> PinOrNew(buf[i], at, n)
    requires forall b: nat :: at <= b < at + n ==> PinnedIn(buf, b)
    requires |buf'| == NBUF && buf' == buf[r := buf'[r]] && buf'[r].dirty && Caches(buf'[r], 1, at + n)
    requires !buf'[r].locked && buf'[r].refcnt == 0 && Idle(buf[r])
    ensures |Dirty(buf')| == n + 1 && forall i: nat :: i < NBUF ==> PinOrNew(buf'[i], at, n + 1)
    ensures forall b: nat :: at <= b < at + n + 1 ==> PinnedIn(buf', b)
  {
    assert Dirty(buf') == Dirty(buf) + {r};
    assert Pins(buf', r, at + n);
    forall x: nat | at <= x < at + n ensures PinnedIn(buf', x) {
      assert PinnedIn(buf, x);
      var i: nat :| Pins(buf, i, x);
      assert i != r && Pins(buf', i, x);
    }
  }

  lemma NoneReferenced(c: Cache, at: nat, n: nat)
    requires PinnedFrom(c, at, n)
    ensures Referenced(c.buf) == {}
  {
    forall i: nat | i < NBUF ensures PinOrNew(c.buf[i], at, n) {
    }
  }

  lemma PinnedReady(c: Cache, start: nat, at: nat, lh: seq<nat>)
    requires PinnedFrom(c, at, |lh|) && start + |lh| < at
    requires forall k: nat :: k < |lh| ==> lh[k] == at + k
    ensures Ready(c.buf, start, lh) && OffLog(start, lh) && !Cached(c.buf, start + 1)
  {
    forall k: nat | k < |lh| ensures ReadyAt(c.buf, start, lh, k) {
      assert PinnedIn(c.buf, at + k);
      forall i: nat | i < NBUF ensures PinOrNew(c.buf[i], at, |lh|) {
      }
    }
    forall i: nat | i < NBUF ensures PinOrNew(c.buf[i], at, |lh|) {
    }
  }

  /** Operations may list LOGSIZE blocks, and there are as many buffers.  When they have, all buffers are
    * pinned, and the commit that should write the log cannot even read its first block. */
  method FullListStops(disk: seq<Block>, start: nat, at: nat, data: Block)
    returns (c: Cache, lh: seq<nat>, ok: bool, ghost buf: seq<Buf>)
    requires at + LOGSIZE <= |disk| && start + LOGSIZE < at
    ensures lh == seq(LOGSIZE, k requires 0 <= k < LOGSIZE => at + k)
    ensures fresh(c) && c.Valid() && !ok
    // before the commit:
    ensures |buf| == NBUF && |Dirty(buf)| == LOGSIZE && Referenced(buf) == {}
    ensures forall k: nat :: k < |lh| ==> PinnedIn(buf, lh[k])
  {
    hide Ring, Agrees, PinnedIn, FreeOf, Cached;
    c := new Cache(disk, ZeroBlock());
    Sizes(c.buf, c.disk, c.latest);
    lh := seq(LOGSIZE, k requires 0 <= k < LOGSIZE => at + k);
    assert Dirty(c.buf) == {};
    var n := 0;
    while n < LOGSIZE
      invariant n <= LOGSIZE && fresh(c) && PinnedFrom(c, at, n) && |c.disk| == |disk|
    {
      PinNext(c, at, n, data);
      n := n + 1;
    }
    buf := c.buf;
    BusyBuffers(buf);
    assert Referenced(buf) == {} by { NoneReferenced(c, at, n); }
    PinnedReady(c, start, at, lh);
    ok := WriteLog(c, start, lh);
  }
}
