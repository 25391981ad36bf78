/** The buffer cache over a synchronous disk.
  *
  * Each method is one section under bcache.lock or under a buffer's sleep-lock, so any order of
  * calls by any number of processes is a run of the cache: bget is Bget then Lock, brelse is Unlock
  * then Unref. */
module Bio {
  import opened Bytes
  import opened Param

  datatype Option<T> = None | Some(value: T)

  datatype Buf = Buf(dev: nat, blockno: nat, valid: bool, dirty: bool, refcnt: nat, locked: bool, data: Block)

  // ---- the list of all buffers ----

  /** Position 0 and the last are the head, which is number NBUF; between them is the ring. */
  function Spot(ring: seq<nat>, i: nat): nat
    requires i <= |ring| + 1
  {
    if 1 <= i <= |ring| then ring[i - 1] else NBUF
  }

  ghost predicate Distinct(ring: seq<nat>) {
    forall i: nat, j: nat :: i < j < |ring| ==> ring[i] != ring[j]
  }

  ghost predicate Hooked(next: seq<nat>, prev: seq<nat>, ring: seq<nat>, i: nat) {
    && i <= |ring| && Spot(ring, i) <= NBUF && Spot(ring, i + 1) <= NBUF
    && |next| == NBUF + 1 == |prev|
    && next[Spot(ring, i)] == Spot(ring, i + 1) && prev[Spot(ring, i + 1)] == Spot(ring, i)
  }

  /** next leads from the head through the ring and back, and prev the other way. */
  ghost predicate Ring(next: seq<nat>, prev: seq<nat>, ring: seq<nat>) {
    && |next| == NBUF + 1 == |prev|
    && Distinct(ring) && (forall i: nat :: i < |ring| ==> ring[i] < NBUF)
    && forall i: nat :: i <= |ring| ==> Hooked(next, prev, ring, i)
  }

  lemma SpotsDiffer(ring: seq<nat>, i: nat, j: nat)
    requires Distinct(ring) && (forall k: nat :: k < |ring| ==> ring[k] < NBUF)
    requires i < j <= |ring|
    ensures Spot(ring, i) != Spot(ring, j)
  {
  }

  /** Hanging b in right after the head. */
  lemma Pushed(next: seq<nat>, prev: seq<nat>, ring: seq<nat>, b: nat)
    requires Ring(next, prev, ring) && b < NBUF && b !in ring
    ensures var n1 := next[b := next[NBUF]];
      var p1 := prev[b := NBUF];
      n1[NBUF] <= NBUF && Ring(n1[NBUF := b], p1[n1[NBUF] := b], [b] + ring)
  {
    assert Hooked(next, prev, ring, 0);
    var n1, p1 := next[b := next[NBUF]], prev[b := NBUF];
    var n2, p2, r := n1[NBUF := b], p1[n1[NBUF] := b], [b] + ring;
    forall i: nat | i <= |r| ensures Hooked(n2, p2, r, i) {
      if i > 0 {
        assert Hooked(next, prev, ring, i - 1);
        assert Spot(r, i + 1) == Spot(ring, i);
        if i > 1 {
          assert Spot(r, i) == Spot(ring, i - 1);
          if i <= |ring| { SpotsDiffer(ring, 1, i); }
        }
      }
    }
  }

  /** Taking out the buffer at position k of the ring. */
  lemma Unhooked(next: seq<nat>, prev: seq<nat>, ring: seq<nat>, k: nat)
    requires Ring(next, prev, ring) && k < |ring|
    ensures var b := ring[k];
      && next[b] <= NBUF && prev[b] <= NBUF && next[b] != b && prev[b] != b
      && Ring(next[prev[b] := next[b]], prev[next[b] := prev[b]], ring[..k] + ring[k + 1..])
      && b !in ring[..k] + ring[k + 1..]
  {
    var b, r := ring[k], ring[..k] + ring[k + 1..];
    assert Hooked(next, prev, ring, k) && Hooked(next, prev, ring, k + 1);
    assert Spot(ring, k + 1) == b;
    SpotsDiffer(ring, k, k + 1);
    if k + 2 <= |ring| { SpotsDiffer(ring, k + 1, k + 2); }
    var n2, p2 := next[prev[b] := next[b]], prev[next[b] := prev[b]];
    forall i: nat | i <= |r| ensures Hooked(n2, p2, r, i) {
      if i < k {
        assert Hooked(next, prev, ring, i);
        assert Spot(r, i) == Spot(ring, i) && Spot(r, i + 1) == Spot(ring, i + 1);
        SpotsDiffer(ring, i, k);
        if k + 2 <= |ring| { SpotsDiffer(ring, i + 1, k + 2); }
      } else {
        assert Hooked(next, prev, ring, i + 1);
        assert Spot(r, i + 1) == Spot(ring, i + 2);
        if i == k {
          assert Spot(r, i) == Spot(ring, i);
        } else {
          assert Spot(r, i) == Spot(ring, i + 1);
          SpotsDiffer(ring, k, i + 1);
          if i + 2 <= |ring| { SpotsDiffer(ring, k + 2, i + 2); }
        }
      }
    }
  }

  // ---- the cache ----

  predicate Caches(x: Buf, dev: nat, blockno: nat) {
    x.dev == dev && x.blockno == blockno
  }

  predicate Idle(x: Buf) {
    x.refcnt == 0 && !x.dirty
  }

  /** Buffers i and j do not cache the same block; device 0 is what unused buffers show. */
  ghost predicate Unlike(buf: seq<Buf>, i: nat, j: nat) {
    i < |buf| && j < |buf| && buf[i].dev != 0 ==> !Caches(buf[j], buf[i].dev, buf[i].blockno)
  }

  ghost predicate BufOk(x: Buf, latest: seq<Block>) {
    && (x.dirty ==> x.valid)
    && (x.valid ==> x.dev == 1 && x.blockno < |latest|)
    && (x.locked ==> x.refcnt > 0)
    && (x.valid && !x.locked ==> x.data == latest[x.blockno])
  }

  ghost predicate Pins(buf: seq<Buf>, i: nat, b: nat) {
    i < |buf| && buf[i].dirty && Caches(buf[i], 1, b)
  }

  /** A block whose latest contents are not on the disk is pinned by a dirty buffer. */
  ghost predicate Settled(buf: seq<Buf>, disk: seq<Block>, latest: seq<Block>, b: nat) {
    && b < |disk| == |latest|
    && (disk[b] == latest[b] || exists i: nat :: Pins(buf, i, b))
  }

  ghost predicate Agrees(buf: seq<Buf>, disk: seq<Block>, latest: seq<Block>) {
    && |buf| == NBUF && |latest| == |disk|
    && (forall i: nat, j: nat :: i < NBUF && j < NBUF && i != j ==> Unlike(buf, i, j))
    && (forall i: nat :: i < NBUF ==> BufOk(buf[i], latest))
    && (forall b: nat :: b < |disk| ==> Settled(buf, disk, latest, b))
  }

  /** Buffer i changes in ways that leave its block, its dirtiness and the disk alone. */
  lemma Changed(buf: seq<Buf>, disk: seq<Block>, latest: seq<Block>, i: nat, x: Buf)
    requires Agrees(buf, disk, latest) && i < NBUF && BufOk(x, latest)
    requires Caches(x, buf[i].dev, buf[i].blockno) && x.dirty == buf[i].dirty
    ensures Agrees(buf[i := x], disk, latest)
  {
    var t := buf[i := x];
    forall j: nat, k: nat | j < NBUF && k < NBUF && j != k ensures Unlike(t, j, k) {
      assert Unlike(buf, j, k);
    }
    forall b: nat | b < |disk| ensures Settled(t, disk, latest, b) {
      assert Settled(buf, disk, latest, b);
      if j: nat :| Pins(buf, j, b) { assert Pins(t, j, b); }
    }
  }

  /** An idle buffer may be given to a block that no buffer caches. */
  lemma Recycled(buf: seq<Buf>, disk: seq<Block>, latest: seq<Block>, i: nat, x: Buf)
    requires Agrees(buf, disk, latest) && i < NBUF && Idle(buf[i]) && x.dev != 0
    requires !x.valid && !x.dirty && !x.locked
    requires forall j: nat :: j < NBUF ==> !Caches(buf[j], x.dev, x.blockno)
    ensures Agrees(buf[i := x], disk, latest)
  {
    var t := buf[i := x];
    forall j: nat, k: nat | j < NBUF && k < NBUF && j != k ensures Unlike(t, j, k) {
      assert Unlike(buf, j, k);
    }
    forall b: nat | b < |disk| ensures Settled(t, disk, latest, b) {
      assert Settled(buf, disk, latest, b);
      if j: nat :| Pins(buf, j, b) { assert Pins(t, j, b); }
    }
  }

  /** The holder of a valid buffer makes its contents the latest: by logging them, which marks the
    * buffer dirty, or by writing them to the disk, which cleans it. */
  lemma Published(buf: seq<Buf>, disk: seq<Block>, latest: seq<Block>, i: nat, x: Buf, disk': seq<Block>)
    requires Agrees(buf, disk, latest) && i < NBUF && buf[i].locked && x.valid && x.locked && x.refcnt == buf[i].refcnt
    requires Caches(x, buf[i].dev, buf[i].blockno) && x.dev == 1 && x.blockno < |disk|
    requires (x.dirty && disk' == disk) || (!x.dirty && disk' == disk[x.blockno := x.data])
    ensures Agrees(buf[i := x], disk', latest[x.blockno := x.data])
  {
    var t, latest' := buf[i := x], latest[x.blockno := x.data];
    forall j: nat, k: nat | j < NBUF && k < NBUF && j != k ensures Unlike(t, j, k) {
      assert Unlike(buf, j, k);
    }
    forall j: nat | j < NBUF ensures BufOk(t[j], latest') {
      assert BufOk(buf[j], latest) && Unlike(buf, i, if j == i then (if i == 0 then 1 else 0) else j);
    }
    forall b: nat | b < |disk'| ensures Settled(t, disk', latest', b) {
      assert Settled(buf, disk, latest, b);
      if b == x.blockno {
        if x.dirty { assert Pins(t, i, b); }
      } else if j: nat :| Pins(buf, j, b) {
        assert Pins(t, j, b);
      }
    }
  }

  class Cache {
    var next: seq<nat>
    var prev: seq<nat>
    var buf: seq<Buf>
    var disk: seq<Block>
    /** The list from the most to the least recently released. */
    ghost var ring: seq<nat>
    /** The contents last logged or written for each block. */
    ghost var latest: seq<Block>

    ghost predicate Linked()
      reads this`next, this`prev, this`ring
    {
      Ring(next, prev, ring) && |ring| == NBUF && forall i: nat :: i < NBUF ==> i in ring
    }

    ghost predicate Valid()
      reads this
    {
      Linked() && Agrees(buf, disk, latest)
    }

    /** binit: each buffer is hung in at the front. */
    constructor (disk: seq<Block>, zero: Block)
      ensures Valid() && this.disk == disk && latest == disk
      ensures forall i :: 0 <= i < NBUF ==> buf[i] == Buf(0, 0, false, false, 0, false, zero)
    {
      var n: seq<nat>, p: seq<nat> := seq(NBUF + 1, _ => NBUF), seq(NBUF + 1, _ => NBUF);
      ghost var r: seq<nat> := [];
      this.disk, latest := disk, disk;
      buf := seq(NBUF, _ => Buf(0, 0, false, false, 0, false, zero));
      var b: nat := 0;
      while b < NBUF
        invariant b <= NBUF && Ring(n, p, r) && |r| == b && forall i: nat :: i < b <==> i in r
      {
        Pushed(n, p, r, b);
        n, p := n[b := n[NBUF]], p[b := NBUF];
        p := p[n[NBUF] := b];
        n := n[NBUF := b];
        r := [b] + r;
        b := b + 1;
      }
      next, prev, ring := n, p, r;
    }

    /** The buffer for a block, with one more reference: the one that caches it, or else the least
      * recently released one that is neither referenced nor dirty.  None is the panic. */
    method Bget(dev: nat, blockno: nat) returns (r: Option<nat>)
      requires Valid() && dev != 0
      modifies this`buf
      ensures Valid() && |old(buf)| == NBUF == |buf|
      ensures r == None <==> forall i: nat :: i < NBUF ==> !old(Idle(buf[i])) && !old(Caches(buf[i], dev, blockno))
      ensures r == None ==> buf == old(buf)
      ensures r.Some? ==> r.value < NBUF && Caches(buf[r.value], dev, blockno) && buf[r.value].refcnt > 0
      ensures r.Some? ==> forall i: nat :: i < NBUF && i != r.value ==> buf[i] == old(buf[i])
      ensures r.Some? && old(Caches(buf[r.value], dev, blockno)) ==>
                buf[r.value] == old(buf[r.value]).(refcnt := old(buf[r.value].refcnt) + 1)
      ensures r.Some? && !old(Caches(buf[r.value], dev, blockno)) ==>
                && old(Idle(buf[r.value])) && !buf[r.value].valid && !buf[r.value].dirty && buf[r.value].refcnt == 1
                && !buf[r.value].locked
      ensures r.Some? && !old(Caches(buf[r.value], dev, blockno)) ==>
                forall i: nat :: i < NBUF ==> !old(Caches(buf[i], dev, blockno))
      ensures r.Some? && !old(Caches(buf[r.value], dev, blockno)) ==>
                exists k: nat :: LastIdle(old(buf), ring, k) && ring[k] == r.value
    {
      hide Ring, Agrees;
      Sizes(buf, disk, latest);
      Around(next, prev, ring, 0);
      RingSmall(next, prev, ring);
      var b := next[NBUF];
      ghost var i: nat := 0;
      while b != NBUF
        invariant i <= |ring| && b == Spot(ring, i + 1) && |buf| == NBUF && buf == old(buf)
        invariant forall k: nat :: k < i ==> !Caches(buf[ring[k]], dev, blockno)
        decreases |ring| - i
      {
        RingSmall(next, prev, ring);
        if buf[b].dev == dev && buf[b].blockno == blockno {
          Changed(buf, disk, latest, b, buf[b].(refcnt := buf[b].refcnt + 1));
          buf := buf[b := buf[b].(refcnt := buf[b].refcnt + 1)];
          return Some(b);
        }
        i := i + 1;
        Around(next, prev, ring, i);
        b := next[b];
      }
      RingSmall(next, prev, ring);
      assert i == |ring|;
      forall j: nat | j < NBUF ensures !Caches(buf[j], dev, blockno) {
        assert j in ring;
      }
      Around(next, prev, ring, |ring|);
      b := prev[NBUF];
      i := |ring|;
      while b != NBUF
        invariant i <= |ring| && b == Spot(ring, i) && |buf| == NBUF && buf == old(buf)
        invariant forall k: nat :: i <= k < |ring| ==> !Idle(buf[ring[k]])
        decreases i
      {
        if buf[b].refcnt == 0 && !buf[b].dirty {
          Recycled(buf, disk, latest, b,
                   buf[b].(dev := dev, blockno := blockno, valid := false, dirty := false, refcnt := 1));
          buf := buf[b := buf[b].(dev := dev, blockno := blockno, valid := false, dirty := false, refcnt := 1)];
          assert LastIdle(old(buf), ring, i - 1);
          return Some(b);
        }
        i := i - 1;
        Around(next, prev, ring, i);
        b := prev[b];
      }
      assert i == 0;
      forall j: nat | j < NBUF ensures !Idle(buf[j]) {
        assert j in ring;
      }
      return None;
    }

    /** acquiresleep on a buffer that nobody holds. */
    method Lock(i: nat)
      requires Valid() && i < NBUF && |buf| == NBUF && buf[i].refcnt > 0 && !buf[i].locked
      modifies this`buf
      ensures Valid() && buf == old(buf)[i := old(buf[i]).(locked := true)]
      ensures buf[i].valid ==> buf[i].blockno < |latest| && buf[i].data == latest[buf[i].blockno]
    {
      Changed(buf, disk, latest, i, buf[i].(locked := true));
      buf := buf[i := buf[i].(locked := true)];
    }

    /** The synchronous disk: writes a dirty buffer, or else reads an invalid one. */
    method Iderw(i: nat)
      requires i < |buf| && buf[i].locked && buf[i].dev == 1 && buf[i].blockno < |disk|
      requires buf[i].dirty || !buf[i].valid
      modifies this`buf, this`disk
      ensures old(buf[i].dirty) ==>
                && disk == old(disk)[old(buf[i].blockno) := old(buf[i].data)]
                && buf == old(buf)[i := old(buf[i]).(dirty := false, valid := true)]
      ensures !old(buf[i].dirty) ==>
                && disk == old(disk)
                && buf == old(buf)[i := old(buf[i]).(valid := true, data := old(disk)[old(buf[i].blockno)])]
    {
      if buf[i].dirty {
        buf := buf[i := buf[i].(dirty := false)];
        disk := disk[buf[i].blockno := buf[i].data];
      } else {
        buf := buf[i := buf[i].(data := disk[buf[i].blockno])];
      }
      buf := buf[i := buf[i].(valid := true)];
    }

    /** The rest of bread, on the buffer that bget returned locked: it shows what was last logged
      * or written for the block. */
    method Bread(i: nat)
      requires Valid() && i < NBUF && |buf| == NBUF && buf[i].locked && buf[i].dev == 1 && buf[i].blockno < |disk|
      requires buf[i].valid ==> buf[i].data == latest[buf[i].blockno]
      modifies this`buf, this`disk
      ensures Valid() && disk == old(disk)
      ensures buf[i].valid && buf[i].data == latest[buf[i].blockno]
      ensures buf == old(buf)[i := old(buf[i]).(valid := true, data := buf[i].data)]
    {
      if !buf[i].valid {
        Uncached(buf, disk, latest, i);
        Changed(buf, disk, latest, i, buf[i].(valid := true, data := disk[buf[i].blockno]));
        Iderw(i);
      }
    }

    /** The holder of a buffer changes its contents. */
    method Modify(i: nat, data: Block)
      requires Valid() && i < NBUF && |buf| == NBUF && buf[i].locked && buf[i].valid
      modifies this`buf
      ensures Valid() && buf == old(buf)[i := old(buf[i]).(data := data)]
    {
      Changed(buf, disk, latest, i, buf[i].(data := data));
      buf := buf[i := buf[i].(data := data)];
    }

    /** What log_write does to a buffer: pins it with its new contents. */
    method Pin(i: nat)
      requires Valid() && i < NBUF && |buf| == NBUF && buf[i].locked && buf[i].valid
      modifies this`buf, this`latest
      ensures Valid() && buf == old(buf)[i := old(buf[i]).(dirty := true)]
      ensures buf[i].blockno < |old(latest)| && latest == old(latest)[buf[i].blockno := buf[i].data]
    {
      Sizes(buf, disk, latest);
      Published(buf, disk, latest, i, buf[i].(dirty := true), disk);
      latest := latest[buf[i].blockno := buf[i].data];
      buf := buf[i := buf[i].(dirty := true)];
    }

    /** bwrite: the contents of a buffer go to the disk. */
    method Bwrite(i: nat)
      requires Valid() && i < NBUF && |buf| == NBUF && buf[i].locked && buf[i].valid
      modifies this`buf, this`disk, this`latest
      ensures Valid() && buf == old(buf)[i := old(buf[i]).(dirty := false)]
      ensures buf[i].blockno < |old(disk)| == |old(latest)|
      ensures disk == old(disk)[buf[i].blockno := buf[i].data] && latest == old(latest)[buf[i].blockno := buf[i].data]
    {
      Sizes(buf, disk, latest);
      ghost var x := buf[i].(dirty := false);
      Published(buf, disk, latest, i, x, disk[x.blockno := x.data]);
      buf := buf[i := buf[i].(dirty := true)];
      Iderw(i);
      latest := latest[buf[i].blockno := buf[i].data];
    }

    /** The first half of brelse.  The caller has logged or written what it changed. */
    method Unlock(i: nat)
      requires Valid() && i < NBUF && |buf| == NBUF && buf[i].locked
      requires buf[i].valid ==> buf[i].blockno < |latest| && buf[i].data == latest[buf[i].blockno]
      modifies this`buf
      ensures Valid() && buf == old(buf)[i := old(buf[i]).(locked := false)]
    {
      Sizes(buf, disk, latest);
      Changed(buf, disk, latest, i, buf[i].(locked := false));
      buf := buf[i := buf[i].(locked := false)];
    }

    /** The second half: one reference less, and with the last the buffer moves to the front. */
    method Unref(i: nat, ghost k: nat)
      requires Valid() && i < NBUF && |buf| == NBUF && buf[i].refcnt > 0
      requires buf[i].refcnt == 1 ==> !buf[i].locked
      requires k < |ring| && ring[k] == i
      modifies this`buf, this`next, this`prev, this`ring
      ensures Valid() && buf == old(buf)[i := old(buf[i]).(refcnt := old(buf[i].refcnt) - 1)]
      ensures ring == if buf[i].refcnt == 0 then [i] + old(ring[..k]) + old(ring[k + 1..]) else old(ring)
    {
      hide Ring, Agrees;
      Sizes(buf, disk, latest);
      Changed(buf, disk, latest, i, buf[i].(refcnt := buf[i].refcnt - 1));
      buf := buf[i := buf[i].(refcnt := buf[i].refcnt - 1)];
      if buf[i].refcnt == 0 {
        ghost var rest := ring[..k] + ring[k + 1..];
        Unhooked(next, prev, ring, k);
        Around(next, prev, ring, 0);
        prev := prev[next[i] := prev[i]];
        next := next[prev[i] := next[i]];
        Around(next, prev, rest, 0);
        Pushed(next, prev, rest, i);
        next := next[i := next[NBUF]];
        prev := prev[i := NBUF];
        prev := prev[next[NBUF] := i];
        next := next[NBUF := i];
        StillAll(ring, k);
        forall j: nat | j < NBUF ensures j in [i] + rest {
          assert j in ring;
        }
        ring := [i] + rest;
        assert [i] + rest == [i] + old(ring[..k]) + old(ring[k + 1..]);
      }
    }
  }

  /** Position k of the ring is the last whose buffer is idle. */
  predicate LastIdle(buf: seq<Buf>, ring: seq<nat>, k: nat) {
    && k < |ring| && ring[k] < |buf| && Idle(buf[ring[k]])
    && forall j :: k < j < |ring| ==> ring[j] < |buf| && !Idle(buf[ring[j]])
  }

  lemma Around(next: seq<nat>, prev: seq<nat>, ring: seq<nat>, i: nat)
    requires Ring(next, prev, ring) && i <= |ring|
    ensures |next| == NBUF + 1 == |prev| && Spot(ring, i) <= NBUF && Spot(ring, i + 1) <= NBUF
    ensures next[Spot(ring, i)] == Spot(ring, i + 1) && prev[Spot(ring, i + 1)] == Spot(ring, i)
  {
    assert Hooked(next, prev, ring, i);
  }

  lemma RingSmall(next: seq<nat>, prev: seq<nat>, ring: seq<nat>)
    requires Ring(next, prev, ring)
    ensures forall i: nat :: i < |ring| ==> ring[i] < NBUF
  {
  }

  lemma Sizes(buf: seq<Buf>, disk: seq<Block>, latest: seq<Block>)
    requires Agrees(buf, disk, latest)
    ensures |buf| == NBUF && |latest| == |disk|
    ensures forall i: nat :: i < NBUF ==> BufOk(buf[i], latest)
  {
  }

  /** A block without a valid buffer has its latest contents on the disk. */
  lemma Uncached(buf: seq<Buf>, disk: seq<Block>, latest: seq<Block>, i: nat)
    requires Agrees(buf, disk, latest) && i < NBUF && buf[i].dev == 1 && buf[i].blockno < |disk| && !buf[i].valid
    ensures |latest| == |disk| && disk[buf[i].blockno] == latest[buf[i].blockno]
  {
    var b := buf[i].blockno;
    assert Settled(buf, disk, latest, b) && BufOk(buf[i], latest);
    forall j: nat ensures !Pins(buf, j, b) {
      assert j < NBUF && j != i ==> Unlike(buf, i, j);
    }
  }

  lemma StillAll(ring: seq<nat>, k: nat)
    requires k < |ring|
    ensures forall j :: j in ring ==> j in [ring[k]] + (ring[..k] + ring[k + 1..])
  {
    assert ring == ring[..k] + [ring[k]] + ring[k + 1..];
  }
}
