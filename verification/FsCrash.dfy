/** File-system operations over the log: whichever block write a power failure follows, the repaired
    disk is a consistent file system that some number of whole transactions has reached. */
module FsCrash {
  import opened Bytes
  import opened FsLayout
  import opened FsTrunc
  import opened FsWrite
  import opened Fs
  import opened Param
  import opened Machine = LogMachine
  import Journal = Log

  /** The log lies on the file system's disk, below the inodes, and holds one operation's blocks. */
  ghost predicate Fits(g: Geometry, sb: Super) {
    g.Valid() && sb.Valid() && g.blocks == sb.size && g.start + g.size <= sb.inodestart && MAXOPBLOCKS + 1 < g.size
  }

  /** The disks agree outside the log. */
  ghost predicate Agree(g: Geometry, d: seq<Block>, d': seq<Block>) {
    |d| == |d'| == g.blocks && forall b: nat :: g.Home(b) ==> d'[b] == d[b]
  }

  /** The disk once recovery has run. */
  ghost function Repaired(g: Geometry, disk: seq<Block>): (r: seq<Block>)
    requires g.Valid() && |disk| == g.blocks && HeaderOk(disk, g)
    ensures |r| == |disk|
  {
    seq(|disk|, b requires 0 <= b < |disk| => if g.Home(b) then Recovered(disk, g, b) else disk[b])
  }

  /** Recovery from this disk leads to d. */
  ghost predicate Shows(g: Geometry, disk: seq<Block>, d: seq<Block>) {
    g.Valid() && |disk| == g.blocks && HeaderOk(disk, g) && Agree(g, d, Repaired(g, disk))
  }

  // ---- the file system does not see the log's own blocks ----

  lemma SameUsed(sb: Super, d: seq<Block>, d': seq<Block>, b: nat)
    requires Shaped(sb, d) && |d'| == |d| && b < sb.size
    requires forall c :: sb.inodestart <= c < sb.size ==> d'[c] == d[c]
    ensures Used(sb, d', b) == Used(sb, d, b)
  {
    BitmapRange(sb, b);
    SameBit(sb, d, d', b);
  }

  lemma SameAddr(sb: Super, d: seq<Block>, d': seq<Block>, inodes: seq<Inode>, owner: Owner, s: Slot)
    requires Owned(sb, d, inodes, owner, {}) && |d'| == |d| && SlotOk(inodes, s)
    requires forall c :: sb.inodestart <= c < sb.size ==> d'[c] == d[c]
    ensures Addr(d', inodes, s) == Addr(d, inodes, s)
  {
    hide Used;
    var ind := inodes[s.inum].addrs[NDIRECT];
    assert Addr(d, inodes, Slot(s.inum, NDIRECT)) == ind;
    if ind != 0 {
      OneHolder(sb, d, inodes, owner, Slot(s.inum, NDIRECT), s);
    }
  }

  lemma AgreeingOwned(sb: Super, d: seq<Block>, d': seq<Block>, inodes: seq<Inode>, owner: Owner)
    requires Owned(sb, d, inodes, owner, {}) && |d'| == |d|
    requires forall c :: sb.inodestart <= c < sb.size ==> d'[c] == d[c]
    ensures Owned(sb, d', inodes, owner, {}) && SameAddrs(d, inodes, d', inodes)
  {
    hide Used, Addr;
    forall b | 0 <= b < sb.size ensures Used(sb, d', b) == Used(sb, d, b) {
      SameUsed(sb, d, d', b);
    }
    forall s | SlotOk(inodes, s) ensures Addr(d', inodes, s) == Addr(d, inodes, s) {
      SameAddr(sb, d, d', inodes, owner, s);
    }
    forall b | sb.data <= b < sb.size ensures BlockOk(sb, d', inodes, owner, b) {
      assert BlockOk(sb, d, inodes, owner, b);
    }
    forall s | SlotOk(inodes, s) ensures SlotHolds(d', inodes, owner, s) {
      assert SlotHolds(d, inodes, owner, s);
    }
  }

  /** Blocks before the inodes do not matter. */
  lemma AgreeingConsistent(sb: Super, d: seq<Block>, d': seq<Block>, inodes: seq<Inode>, owner: Owner)
    requires Consistent(sb, d, inodes, owner, sb.ninodes) && |d'| == |d|
    requires forall c :: sb.inodestart <= c < sb.size ==> d'[c] == d[c]
    ensures Consistent(sb, d', inodes, owner, sb.ninodes)
    ensures forall i :: 0 <= i < |inodes| ==> Content(d', inodes, i) == Content(d, inodes, i)
  {
    hide Used, Addr, GetInode, Content;
    AgreeingOwned(sb, d, d', inodes, owner);
    forall i | 0 <= i < |inodes| ensures Synced(sb, d', inodes, i) {
      assert Synced(sb, d, inodes, i);
    }
    forall i | 0 <= i < |inodes| ensures Sound(d', inodes, i) && Content(d', inodes, i) == Content(d, inodes, i) {
      assert Sound(d, inodes, i);
      StoreSound(d, inodes, d', i);
      AgreeingContent(sb, d, d', inodes, owner, i);
    }
  }

  lemma AgreeingContent(sb: Super, d: seq<Block>, d': seq<Block>, inodes: seq<Inode>, owner: Owner, i: nat)
    requires Owned(sb, d, inodes, owner, {}) && |d'| == |d| && SameAddrs(d, inodes, d', inodes)
    requires forall c :: sb.inodestart <= c < sb.size ==> d'[c] == d[c]
    requires i < |inodes| && Sound(d, inodes, i)
    ensures Content(d', inodes, i) == Content(d, inodes, i)
  {
    hide Used, Addr, FileByte, Owned;
    OwnedShape(sb, d, inodes, owner);
    AgreeingOwned(sb, d, d', inodes, owner);
    OwnedShape(sb, d', inodes, owner);
    forall p | 0 <= p < inodes[i].size ensures FileByte(d', inodes, i, p) == FileByte(d, inodes, i, p) {
      assert Mapped(d, inodes, i, p / BSIZE);
      AgreeingByte(sb, d, d', inodes, owner, i, p);
    }
  }

  lemma AgreeingByte(sb: Super, d: seq<Block>, d': seq<Block>, inodes: seq<Inode>, owner: Owner, i: nat, p: nat)
    requires Owned(sb, d, inodes, owner, {}) && |d'| == |d| && SameAddrs(d, inodes, d', inodes)
    requires forall c :: sb.inodestart <= c < sb.size ==> d'[c] == d[c]
    requires i < |inodes| && p < MAXFILE * BSIZE && Mapped(d, inodes, i, p / BSIZE)
    ensures FileByte(d', inodes, i, p) == FileByte(d, inodes, i, p)
  {
    hide Used, Addr;
    OneHolder(sb, d, inodes, owner, FileSlot(i, p / BSIZE), FileSlot(i, p / BSIZE));
  }

  // ---- one transaction ----

  /** The operation's log_write calls as the log sees them. */
  function Calls(op: nat, trace: seq<Store>): (ws: seq<Journal.Write>)
    ensures |ws| == |trace|
  {
    if trace == [] then []
    else Calls(op, trace[..|trace| - 1]) + [Journal.Write(op, trace[|trace| - 1].block, trace[|trace| - 1].data)]
  }

  lemma {:induction false} StoredIsLast(base: seq<Block>, trace: seq<Store>, op: nat, b: nat)
    requires b < |base|
    ensures Stored(base, trace)[b] == Journal.LastWrite(Calls(op, trace), b, base[b])
    decreases |trace|
  {
    if trace != [] {
      var m := |trace| - 1;
      StoredIsLast(base, trace[..m], op, b);
      assert Calls(op, trace)[..m] == Calls(op, trace[..m]);
    }
  }

  /** No operation is open and nothing is pinned. */
  ghost predicate Idle(log: Journal.Log)
    reads log
  {
    log.Valid() && log.outstanding == 0 && !log.committing && log.lh == []
  }

  lemma {:induction false} FewerTargets(trace: seq<Store>, j: nat)
    requires j <= |trace|
    ensures Targets(trace[..j]) <= Targets(trace) && |Targets(trace[..j])| <= |Targets(trace)|
    decreases |trace| - j
  {
    if j < |trace| {
      assert trace[..j + 1][..j] == trace[..j];
      FewerTargets(trace, j + 1);
      FileSystem.SubsetSize(Targets(trace[..j]), Targets(trace[..j + 1]));
    } else {
      assert trace[..j] == trace;
    }
  }

  /** Part of an operation's calls have reached the log. */
  ghost predicate Noting(log: Journal.Log, op: nat, trace: seq<Store>, j: nat)
    reads log
  {
    && j <= |trace| && log.Valid() && log.InProgress(op) && log.outstanding == 1 && !log.committing
    && log.pending == Calls(op, trace[..j])
    && log.ops[op].left + |log.lh| == MAXOPBLOCKS && |log.lh| <= |Targets(trace[..j])|
    && forall b :: b in Targets(trace[..j]) ==> b in log.lh
  }

  method NoteOne(log: Journal.Log, ghost op: nat, trace: seq<Store>, j: nat)
    requires Noting(log, op, trace, j) && j < |trace| && |Targets(trace)| <= MAXOPBLOCKS && MAXOPBLOCKS + 1 < log.g.size
    requires log.g.Home(trace[j].block)
    modifies log`lh, log`dirty, log`pending, log`ops
    ensures Noting(log, op, trace, j + 1)
  {
    hide Journal.Log.Durable, Journal.MemoryOk, Targets, Calls;
    CallsStep(op, trace, j);
    FewerTargets(trace, j + 1);
    var outcome := log.LogWrite(op, trace[j].block, trace[j].data);
    assert outcome.Logged?;
  }

  lemma NotingStarts(log: Journal.Log, op: nat, trace: seq<Store>)
    requires log.Valid() && log.InProgress(op) && log.outstanding == 1 && !log.committing && log.lh == []
    requires log.ops[op].left == MAXOPBLOCKS
    ensures Noting(log, op, trace, 0)
  {
  }

  method NoteAll(log: Journal.Log, ghost op: nat, trace: seq<Store>)
    requires Noting(log, op, trace, 0) && |Targets(trace)| <= MAXOPBLOCKS && MAXOPBLOCKS + 1 < log.g.size
    requires forall i :: 0 <= i < |trace| ==> log.g.Home(trace[i].block)
    modifies log`lh, log`dirty, log`pending, log`ops
    ensures log.Valid() && log.InProgress(op) && log.outstanding == 1 && !log.committing
    ensures log.pending == Calls(op, trace)
  {
    hide Targets, Calls, Journal.Log.Valid;
    var j := 0;
    while j < |trace|
      invariant Noting(log, op, trace, j)
    {
      NoteOne(log, op, trace, j);
      j := j + 1;
    }
    assert trace[..j] == trace;
  }

  lemma CallsStep(op: nat, trace: seq<Store>, j: nat)
    requires j < |trace|
    ensures Calls(op, trace[..j + 1]) == Calls(op, trace[..j]) + [Journal.Write(op, trace[j].block, trace[j].data)]
    ensures Targets(trace[..j + 1]) == Targets(trace[..j]) + {trace[j].block}
    ensures trace[j].block !in Targets(trace[..j]) ==> |Targets(trace[..j + 1])| == |Targets(trace[..j])| + 1
    ensures |Targets(trace[..j])| <= |Targets(trace[..j + 1])|
  {
    assert trace[..j + 1][..j] == trace[..j];
    FileSystem.SubsetSize(Targets(trace[..j]), Targets(trace[..j + 1]));
  }

  /** An idle log's disk holds what the committed groups wrote. */
  lemma IdleDisk(g: Geometry, run: seq<State>, k: nat, b: nat)
    requires IsRun(g, run) && k < |run| && run[k].phase.Idle? && g.Home(b)
    ensures |run[k].disk| == g.blocks && g.Valid() && GroupsOk(g, run[k].committed)
    ensures run[k].disk[b] == Applied(Base(g, run[0]), run[k].committed, b)
  {
    CrashAtomicity(g, run, k);
  }

  /** Every state of the run from an idle one to another, with at most one commit between them, shows
      the disk of the one or of the other. */
  lemma StatesShow(g: Geometry, run: seq<State>, n0: nat, k: nat, before: seq<Block>, after: seq<Block>)
    requires IsRun(g, run) && n0 <= k < |run| && run[n0].phase.Idle? && run[|run| - 1].phase.Idle?
    requires |run[|run| - 1].committed| <= |run[n0].committed| + 1
    requires Agree(g, before, run[n0].disk) && Agree(g, after, run[|run| - 1].disk)
    ensures Shows(g, run[k].disk, before) || Shows(g, run[k].disk, after)
  {
    hide IsRun, Recovered, Applied, Agree, HeaderOk;
    var last := |run| - 1;
    CommittedGrows(g, run, n0, k);
    CommittedGrows(g, run, k, last);
    CrashAtomicity(g, run, k);
    if run[k].committed == run[n0].committed {
      ShowsIdle(g, run, k, n0, before);
    } else {
      ShowsIdle(g, run, k, last, after);
    }
  }

  lemma ShowsIdle(g: Geometry, run: seq<State>, k: nat, i: nat, d: seq<Block>)
    requires IsRun(g, run) && k < |run| && i < |run| && run[i].phase.Idle? && run[k].committed == run[i].committed
    requires Agree(g, d, run[i].disk)
    ensures Shows(g, run[k].disk, d)
  {
    hide IsRun, Recovered, Applied, HeaderOk, Base, GroupsOk;
    CrashAtomicity(g, run, k);
    CrashAtomicity(g, run, i);
    assert |run[k].disk| == g.blocks && g.Valid() && HeaderOk(run[k].disk, g);
    forall b: nat | g.Home(b) ensures Repaired(g, run[k].disk)[b] == d[b] {
      IdleDisk(g, run, i, b);
    }
  }

  /** What the commit of one group of calls makes of the disk. */
  lemma CommittedDisk(log: Journal.Log, history0: seq<seq<Journal.Write>>, op: nat, trace: seq<Store>,
                      disk0: seq<Block>, before: seq<Block>)
    requires log.Valid() && Agree(log.g, before, disk0)
    requires forall b: nat :: log.g.Home(b) ==> disk0[b] == Journal.Rewritten(Base(log.g, log.run[0]), history0, b)
    requires log.history == history0 + [Calls(op, trace)]
    ensures Agree(log.g, Stored(before, trace), log.disk)
  {
    hide Calls, Stored, Journal.LastWrite;
    forall b: nat | log.g.Home(b) ensures log.disk[b] == Stored(before, trace)[b] {
      HistoryDisk(log, b);
      assert log.history[..|log.history| - 1] == history0;
      StoredIsLast(before, trace, op, b);
    }
  }

  lemma HistoryDisk(log: Journal.Log, b: nat)
    requires log.Valid() && log.g.Home(b)
    ensures log.disk[b] == Journal.Rewritten(Base(log.g, log.run[0]), log.history, b)
  {
    IdleDisk(log.g, log.run, |log.run| - 1, b);
    Journal.AppliedIsRewritten(Base(log.g, log.run[0]), log.Now().committed, log.history, log.floor, b);
  }

  /** The log was idle at the end of run0, and has since committed the calls of one operation. */
  ghost predicate OneMore(log: Journal.Log, run0: seq<State>, history0: seq<seq<Journal.Write>>, op: nat,
                          trace: seq<Store>)
    reads log
  {
    && 0 < |run0| && IsRun(log.g, run0) && run0[|run0| - 1].phase.Idle? && |run0[|run0| - 1].committed| == |history0|
    && (forall b: nat :: log.g.Home(b) && b < |run0[|run0| - 1].disk| ==>
          run0[|run0| - 1].disk[b] == Journal.Rewritten(Base(log.g, run0[0]), history0, b))
    && log.Valid() && run0 <= log.run
    && if trace == [] then log.run == run0 else log.history == history0 + [Calls(op, trace)]
  }

  lemma OneMoreShows(log: Journal.Log, run0: seq<State>, history0: seq<seq<Journal.Write>>, op: nat, trace: seq<Store>,
                     before: seq<Block>)
    requires OneMore(log, run0, history0, op, trace) && Agree(log.g, before, run0[|run0| - 1].disk)
    ensures Agree(log.g, Stored(before, trace), log.disk)
    ensures forall k: nat :: |run0| - 1 <= k < |log.run| ==>
      Shows(log.g, log.run[k].disk, before) || Shows(log.g, log.run[k].disk, Stored(before, trace))
  {
    hide Targets, Calls, Shows, Recovered, HeaderOk;
    var disk0 := run0[|run0| - 1].disk;
    if trace != [] {
      assert log.run[0] == run0[0];
      CommittedDisk(log, history0, op, trace, disk0, before);
    }
    hide Stored, Journal.Log.Valid, Agree;
    forall k: nat | |run0| - 1 <= k < |log.run|
      ensures Shows(log.g, log.run[k].disk, before) || Shows(log.g, log.run[k].disk, Stored(before, trace))
    {
      OneCommit(log, run0, history0, op, trace);
      StatesShow(log.g, log.run, |run0| - 1, k, before, Stored(before, trace));
    }
  }

  lemma OneCommit(log: Journal.Log, run0: seq<State>, history0: seq<seq<Journal.Write>>, op: nat, trace: seq<Store>)
    requires OneMore(log, run0, history0, op, trace)
    ensures IsRun(log.g, log.run) && log.run[|log.run| - 1].phase.Idle? && log.disk == log.run[|log.run| - 1].disk
    ensures |log.run[|log.run| - 1].committed| <= |log.run[|run0| - 1].committed| + 1
  {
  }

  /** The state of an idle log. */
  lemma IdleFacts(log: Journal.Log)
    requires Idle(log)
    ensures OneMore(log, log.run, log.history, 0, []) && log.run[|log.run| - 1].disk == log.disk
    ensures log.pending == []
  {
    forall b: nat | log.g.Home(b) ensures log.disk[b] == Journal.Rewritten(Base(log.g, log.run[0]), log.history, b) {
      HistoryDisk(log, b);
    }
  }

  method BeginAlone(log: Journal.Log, ghost trace: seq<Store>) returns (ghost op: nat)
    requires Idle(log)
    modifies log`outstanding, log`ops
    ensures Noting(log, op, trace, 0)
  {
    var entered;
    entered, op := log.TryBeginOp();
    NotingStarts(log, op, trace);
  }

  method EndAlone(log: Journal.Log, ghost op: nat, ghost trace: seq<Store>, ghost history0: seq<seq<Journal.Write>>)
    requires log.Valid() && log.InProgress(op) && log.outstanding == 1 && !log.committing
    requires log.pending == Calls(op, trace) && OneMore(log, log.run, history0, 0, []) && log.history == history0
    modifies log
    ensures Idle(log) && OneMore(log, old(log.run), history0, op, trace)
  {
    hide Calls, IsRun, Base, Journal.Rewritten;
    var _ := log.EndOp(op);
    log.Commit();
    log.FinishCommit();
  }

  /** One operation alone: begin_op, its log_write calls, end_op.  Recovery from any state of the disk
      on the way leads to the disk before it or to the disk after it. */
  method Transaction(log: Journal.Log, trace: seq<Store>, ghost before: seq<Block>)
    requires Idle(log) && Agree(log.g, before, log.disk) && MAXOPBLOCKS + 1 < log.g.size
    requires |Targets(trace)| <= MAXOPBLOCKS
    requires forall i :: 0 <= i < |trace| ==> log.g.Home(trace[i].block)
    modifies log
    ensures Idle(log) && Agree(log.g, Stored(before, trace), log.disk) && old(log.run) <= log.run
    ensures forall k: nat :: |old(log.run)| - 1 <= k < |log.run| ==>
      Shows(log.g, log.run[k].disk, before) || Shows(log.g, log.run[k].disk, Stored(before, trace))
  {
    hide Targets, Stored, Shows, Agree, Noting, IsRun, Journal.Rewritten, Base;
    ghost var history0, run0 := log.history, log.run;
    IdleFacts(log);
    ghost var op := BeginAlone(log, trace);
    NoteAll(log, op, trace);
    EndAlone(log, op, trace, history0);
    OneMoreShows(log, run0, history0, op, trace, before);
  }

  // ---- giving an inode up, and taking one ----

  /** iput of an inode that nobody needs any more, as a transaction.  It may be one exactly as long as
      the blocks of its file lie under fewer than MAXOPBLOCKS bitmap blocks (FsTrunc.FreeingFits). */
  method LoggedIput(log: Journal.Log, fs: FileSystem, inum: nat)
    requires Idle(log) && Fits(log.g, fs.sb) && Agree(log.g, fs.disk, log.disk)
    requires fs.Valid() && inum < |fs.inodes| && |HeldBitmaps(fs.sb, fs.owner, inum)| < MAXOPBLOCKS
    modifies log, fs
    ensures Idle(log) && old(log.run) <= log.run && fs.Valid() && Agree(log.g, fs.disk, log.disk)
    ensures |fs.inodes| == |old(fs.inodes)| && fs.inodes[inum].kind == 0
    ensures forall b :: b in fs.owner <==> b in old(fs.owner) && old(fs.owner)[b].inum != inum
    ensures OthersUnchanged(old(fs.disk), old(fs.inodes), fs.disk, fs.inodes, inum)
    ensures forall k: nat :: |old(log.run)| - 1 <= k < |log.run| ==>
      Shows(log.g, log.run[k].disk, old(fs.disk)) || Shows(log.g, log.run[k].disk, fs.disk)
  {
    hide Consistent, Agree, Shows, Targets, Stored, InodesOk, HeldBitmaps, OthersUnchanged;
    Budget(fs, inum);
    fs.BeginOp();
    ghost var before := fs.disk;
    fs.IputLast(inum);
    TraceHome(log.g, fs);
    Transaction(log, fs.trace, before);
  }

  lemma Budget(fs: FileSystem, inum: nat)
    requires fs.Valid() && inum < |fs.inodes| && |HeldBitmaps(fs.sb, fs.owner, inum)| < MAXOPBLOCKS
    ensures |{} + HeldBitmaps(fs.sb, fs.owner, inum) + {fs.sb.InodeBlock(inum)}| <= MAXOPBLOCKS
  {
    hide HeldBitmaps, Owned;
    FreeingFits(fs.sb, fs.disk, fs.inodes, fs.owner, inum);
    assert {} + HeldBitmaps(fs.sb, fs.owner, inum) == HeldBitmaps(fs.sb, fs.owner, inum);
  }

  /** ialloc as a transaction. */
  method LoggedIalloc(log: Journal.Log, fs: FileSystem, kind: nat) returns (r: Result<nat>)
    requires Idle(log) && Fits(log.g, fs.sb) && Agree(log.g, fs.disk, log.disk)
    requires fs.Valid() && 0 < kind < 0x1_0000
    modifies log, fs
    ensures r.Ok? || r.Panic?
    ensures Idle(log) && old(log.run) <= log.run
    ensures r.Panic? ==> log.run == old(log.run)
    ensures r.Panic? ==> forall i :: 1 <= i < |old(fs.inodes)| ==> old(fs.inodes)[i].kind != 0
    ensures r.Ok? ==> fs.Valid() && Agree(log.g, fs.disk, log.disk) && 1 <= r.value < |fs.inodes| == |old(fs.inodes)|
    ensures r.Ok? ==> old(fs.inodes)[r.value].kind == 0 && fs.inodes[r.value].kind == kind && fs.File(r.value) == []
    ensures r.Ok? ==> OthersUnchanged(old(fs.disk), old(fs.inodes), fs.disk, fs.inodes, r.value)
    ensures r.Ok? ==> forall k: nat :: |old(log.run)| - 1 <= k < |log.run| ==>
      Shows(log.g, log.run[k].disk, old(fs.disk)) || Shows(log.g, log.run[k].disk, fs.disk)
  {
    hide Owned, Sound, Synced, Agree, Shows, Targets, Stored, OthersUnchanged;
    fs.BeginOp();
    ghost var before := fs.disk;
    r := fs.Ialloc(kind);
    if r.Panic? {
      return;
    }
    TraceHome(log.g, fs);
    Transaction(log, fs.trace, before);
  }

  // ---- filewrite ----

  /** A state of the file system at the end of a transaction, with `cut` bytes of the data in place. */
  datatype Snapshot = Snapshot(disk: seq<Block>, inodes: seq<Inode>, owner: Owner, cut: nat)

  /** s is consistent, its file holds the old contents overwritten by the first `cut` bytes of addr, a
      whole number of chunks, and every other file is as it was. */
  ghost predicate Reached(sb: Super, d0: seq<Block>, i0: seq<Inode>, inum: nat, off: nat, addr: seq<byte>,
                          s: Snapshot) {
    && Consistent(sb, s.disk, s.inodes, s.owner, sb.ninodes) && AtChunk(s.cut, |addr|)
    && FileSystem.Wrote(d0, i0, s.disk, s.inodes, inum, off, addr, s.cut)
  }

  ghost predicate AllReached(sb: Super, d0: seq<Block>, i0: seq<Inode>, inum: nat, off: nat, addr: seq<byte>,
                             snaps: seq<Snapshot>)
  {
    forall m :: 0 <= m < |snaps| ==> Reached(sb, d0, i0, inum, off, addr, snaps[m])
  }

  /** Recovery from this disk leads to one of the snapshots. */
  ghost predicate ShowsOne(g: Geometry, disk: seq<Block>, snaps: seq<Snapshot>) {
    exists m :: 0 <= m < |snaps| && Shows(g, disk, snaps[m].disk)
  }

  ghost predicate AllShow(g: Geometry, run: seq<State>, from: int, snaps: seq<Snapshot>) {
    forall k: nat :: from <= k < |run| ==> ShowsOne(g, run[k].disk, snaps)
  }

  lemma TraceHome(g: Geometry, fs: FileSystem)
    requires Fits(g, fs.sb) && fs.Valid()
    ensures fs.disk == Stored(fs.base, fs.trace) && fs.logged == Targets(fs.trace)
    ensures fs.trace == [] ==> |fs.logged| == 0
    ensures forall i :: 0 <= i < |fs.trace| ==> g.Home(fs.trace[i].block)
  {
    hide Consistent;
  }

  /** One chunk of filewrite as a transaction. */
  method LoggedChunk(log: Journal.Log, fs: FileSystem, f: OpenFile, ghost d0: seq<Block>, ghost i0: seq<Inode>,
                     ghost off0: nat, addr: seq<byte>, i: nat, n1: nat)
    returns (r: Result<nat>)
    requires Idle(log) && Fits(log.g, fs.sb) && Agree(log.g, fs.disk, log.disk)
    requires fs.Valid() && f.inum < |fs.inodes| && fs.inodes[f.inum].kind != 0
    requires f.off == off0 + i < U32 && |addr| < U32 && 0 < n1 <= CHUNK && i + n1 <= |addr|
    requires FileSystem.Wrote(d0, i0, fs.disk, fs.inodes, f.inum, off0, addr, i)
    modifies log, fs, f
    ensures Idle(log) && old(log.run) <= log.run
    ensures r.Panic? ==> log.run == old(log.run) && log.disk == old(log.disk) && f.off == old(f.off)
    ensures r.Panic? ==> fs.Full() && fs.OutOfBlocks(f.inum, f.off, n1)
    ensures !r.Panic? ==> fs.Valid() && f.inum < |fs.inodes| && Agree(log.g, fs.disk, log.disk)
    ensures r.Device? || r.Fail? ==> fs.disk == old(fs.disk) && fs.inodes == old(fs.inodes)
    ensures r.Device? || r.Fail? ==> fs.owner == old(fs.owner) && f.off == old(f.off)
    ensures r.Fail? ==> f.off > fs.inodes[f.inum].size || f.off + n1 > MAXFILE * BSIZE
    ensures r.Device? <==> old(fs.inodes[f.inum].kind) == T_DEV
    ensures r.Ok? ==> f.off == old(f.off) + n1 && fs.inodes[f.inum].kind != 0
    ensures r.Ok? ==> FileSystem.Wrote(d0, i0, fs.disk, fs.inodes, f.inum, off0, addr, i + n1)
    ensures !r.Panic? ==> forall k: nat :: |old(log.run)| - 1 <= k < |log.run| ==>
      Shows(log.g, log.run[k].disk, old(fs.disk)) || Shows(log.g, log.run[k].disk, fs.disk)
  {
    hide Consistent, FileSystem.Wrote, Agree, Shows, Targets, Stored, FileSystem.Full, InodesOk;
    ghost var before := fs.disk;
    r := fs.WriteChunk(f, d0, i0, off0, addr, i, n1);
    if r.Panic? {
      return;
    }
    TraceHome(log.g, fs);
    Transaction(log, fs.trace, before);
  }

  lemma IdleShows(log: Journal.Log, d: seq<Block>)
    requires Idle(log) && Agree(log.g, d, log.disk)
    ensures Shows(log.g, log.disk, d) && |log.run| > 0 && log.run[|log.run| - 1].disk == log.disk
  {
    hide Agree, Shows;
    ShowsIdle(log.g, log.run, |log.run| - 1, |log.run| - 1, d);
  }

  lemma FirstSnapshot(log: Journal.Log, fs: FileSystem, inum: nat, off: nat, addr: seq<byte>)
    requires Idle(log) && Agree(log.g, fs.disk, log.disk) && fs.Valid() && inum < |fs.inodes|
    ensures FileSystem.Wrote(fs.disk, fs.inodes, fs.disk, fs.inodes, inum, off, addr, 0) && AtChunk(0, |addr|)
    ensures var snaps := [Snapshot(fs.disk, fs.inodes, fs.owner, 0)];
      && AllReached(fs.sb, fs.disk, fs.inodes, inum, off, addr, snaps)
      && |log.run| > 0 && AllShow(log.g, log.run, |log.run| - 1, snaps)
  {
    hide FileSystem.Wrote, Agree, Shows, Owned;
    OwnedShape(fs.sb, fs.disk, fs.inodes, fs.owner);
    FileSystem.WroteStarts(fs.disk, fs.inodes, inum, off, addr);
    AtChunkStart(|addr|);
    IdleShows(log, fs.disk);
    var snaps := [Snapshot(fs.disk, fs.inodes, fs.owner, 0)];
    assert Shows(log.g, log.run[|log.run| - 1].disk, snaps[0].disk);
  }

  lemma SnapshotReached(fs: FileSystem, d0: seq<Block>, i0: seq<Inode>, inum: nat, off: nat, addr: seq<byte>, i: nat)
    requires fs.Valid() && AtChunk(i, |addr|) && FileSystem.Wrote(d0, i0, fs.disk, fs.inodes, inum, off, addr, i)
    ensures Reached(fs.sb, d0, i0, inum, off, addr, Snapshot(fs.disk, fs.inodes, fs.owner, i))
  {
  }

  /** The states since run0 show the last snapshot or s. */
  lemma ShowMore(g: Geometry, run0: seq<State>, run: seq<State>, from: int, snaps: seq<Snapshot>, s: Snapshot)
    requires from < |run0| && run0 <= run && AllShow(g, run0, from, snaps) && snaps != []
    requires forall k: nat :: |run0| - 1 <= k < |run| ==>
      Shows(g, run[k].disk, snaps[|snaps| - 1].disk) || Shows(g, run[k].disk, s.disk)
    ensures AllShow(g, run, from, snaps + [s])
    ensures s.disk == snaps[|snaps| - 1].disk ==> AllShow(g, run, from, snaps)
  {
    hide Shows;
    forall k: nat | from <= k < |run|
      ensures ShowsOne(g, run[k].disk, snaps + [s])
      ensures s.disk == snaps[|snaps| - 1].disk ==> ShowsOne(g, run[k].disk, snaps)
    {
      if k < |run0| - 1 {
        assert run[k] == run0[k] && ShowsOne(g, run0[k].disk, snaps);
        var m :| 0 <= m < |snaps| && Shows(g, run[k].disk, snaps[m].disk);
        assert (snaps + [s])[m] == snaps[m];
      } else {
        assert (snaps + [s])[|snaps| - 1] == snaps[|snaps| - 1] && (snaps + [s])[|snaps|] == s;
      }
    }
  }

  /** filewrite, each chunk between begin_op and end_op.  Whatever block write on the way a power failure
      follows, recovery leads to one of the snapshots: a consistent file system with a whole number of
      chunks in the file.  The last snapshot is what the log's disk shows at the end, and the answer and
      the bytes in it are those that the call asks for, unless a full disk lacks a block for the next
      chunk. */
  method LoggedFilewrite(log: Journal.Log, fs: FileSystem, f: OpenFile, addr: seq<byte>)
    returns (r: Result<nat>, ghost snaps: seq<Snapshot>)
    requires Idle(log) && Fits(log.g, fs.sb) && Agree(log.g, fs.disk, log.disk)
    requires fs.Valid() && f.inum < |fs.inodes| && fs.inodes[f.inum].kind != 0
    requires f.off < U32 && |addr| < U32
    modifies log, fs, f
    ensures Idle(log) && old(log.run) <= log.run
    ensures AllReached(fs.sb, old(fs.disk), old(fs.inodes), f.inum, old(f.off), addr, snaps)
    ensures AllShow(log.g, log.run, |old(log.run)| - 1, snaps)
    ensures snaps != [] && Shows(log.g, log.disk, snaps[|snaps| - 1].disk)
    ensures f.off == old(f.off) + snaps[|snaps| - 1].cut
    ensures !r.Panic? ==> fs.Valid() && snaps[|snaps| - 1] == Snapshot(fs.disk, fs.inodes, fs.owner, f.off - old(f.off))
    ensures r.Panic? ==> fs.Full() && f.off - old(f.off) < |addr|
    ensures r.Panic? ==> fs.OutOfBlocks(f.inum, f.off, NextChunk(f.off - old(f.off), |addr|))
    ensures !r.Panic? ==>
      var (kind, size) := (old(fs.inodes[f.inum].kind), old(fs.inodes[f.inum].size));
      && r == Answer(f.writable, kind, size, old(f.off), |addr|)
      && f.off - old(f.off) == Placed(f.writable, kind, size, old(f.off), |addr|)
  {
    hide Consistent, FileSystem.Wrote, Agree, Shows, ShowsOne, Reached, AtChunk, FileSystem.Full, InodesOk,
      Journal.Log.Valid, Journal.Log.Durable, FileSystem.OutOfBlocks;
    ghost var d0, i0, off0 := fs.disk, fs.inodes, f.off;
    FirstSnapshot(log, fs, f.inum, f.off, addr);
    IdleShows(log, fs.disk);
    snaps := [Snapshot(fs.disk, fs.inodes, fs.owner, 0)];
    if !f.writable {
      return Fail, snaps;
    }
    var i := 0;
    while i < |addr|
      invariant i <= |addr| && f.off == off0 + i && AtChunk(i, |addr|) && snaps != []
      invariant Idle(log) && old(log.run) <= log.run && Agree(log.g, fs.disk, log.disk)
      invariant fs.Valid() && f.inum < |fs.inodes| && fs.inodes[f.inum].kind != 0
      invariant FileSystem.Wrote(d0, i0, fs.disk, fs.inodes, f.inum, off0, addr, i)
      invariant snaps[|snaps| - 1] == Snapshot(fs.disk, fs.inodes, fs.owner, i)
      invariant AllReached(fs.sb, d0, i0, f.inum, off0, addr, snaps)
      invariant AllShow(log.g, log.run, |old(log.run)| - 1, snaps)
      invariant Shows(log.g, log.disk, snaps[|snaps| - 1].disk)
    {
      var n1 := if |addr| - i > CHUNK then CHUNK else |addr| - i;
      FileSystem.WroteBounds(d0, i0, fs.disk, fs.inodes, f.inum, off0, addr, i);
      ghost var run0 := log.run;
      r := LoggedChunk(log, fs, f, d0, i0, off0, addr, i, n1);
      if !r.Ok? {
        if !r.Panic? {
          ShowMore(log.g, run0, log.run, |old(log.run)| - 1, snaps, snaps[|snaps| - 1]);
          IdleShows(log, fs.disk);
        }
        if r.Fail? { Refused(i0[f.inum].kind, i0[f.inum].size, off0, |addr|, i); }
        return;
      }
      AtChunkStep(i, |addr|, n1);
      i := i + n1;
      ghost var s := Snapshot(fs.disk, fs.inodes, fs.owner, i);
      ShowMore(log.g, run0, log.run, |old(log.run)| - 1, snaps, s);
      assert Reached(fs.sb, d0, i0, f.inum, off0, addr, s) by { SnapshotReached(fs, d0, i0, f.inum, off0, addr, i); }
      snaps := snaps + [s];
      IdleShows(log, fs.disk);
    }
    FileSystem.WroteBounds(d0, i0, fs.disk, fs.inodes, f.inum, off0, addr, i);
    r := Ok(|addr|);
  }

  /** What a power failure in the middle of filewrite leaves, once recovery has run: a consistent file
      system, whose inodes are those on the repaired disk, in which the file holds its old contents
      overwritten by the first `cut` bytes, and every other file what it held. */
  lemma CrashedFile(g: Geometry, sb: Super, d0: seq<Block>, i0: seq<Inode>, inum: nat, off: nat, addr: seq<byte>,
                    disk: seq<Block>, s: Snapshot)
    requires Fits(g, sb) && Shows(g, disk, s.disk) && Reached(sb, d0, i0, inum, off, addr, s)
    ensures var d, inodes := Repaired(g, disk), s.inodes;
      && Consistent(sb, d, inodes, s.owner, sb.ninodes) && inum < |inodes| == |i0| && InodesOk(i0)
      && (forall i :: 0 <= i < |inodes| ==> Synced(sb, d, inodes, i))
      && (forall i :: 0 <= i < |inodes| && i != inum ==>
        inodes[i] == i0[i] && Content(d, inodes, i) == Content(d0, i0, i))
      && AtChunk(s.cut, |addr|) && s.cut <= |addr|
      && (if s.cut == 0 then inodes == i0 && Content(d, inodes, inum) == Content(d0, i0, inum)
          else
            && off <= i0[inum].size
            && Content(d, inodes, inum) == Overwritten(Content(d0, i0, inum), off, addr[..s.cut]))
  {
    hide Owned, Content, Overwritten, GetInode, Sound, Recovered, HeaderOk;
    var d := Repaired(g, disk);
    assert forall c: nat :: sb.inodestart <= c < sb.size ==> g.Home(c);
    AgreeingConsistent(sb, s.disk, d, s.inodes, s.owner);
  }
}
