/** log.c: admission of operations, log absorption, group commit and recovery over a disk whose
    block writes are atomic.  As long as no list has outgrown the log area, every block write appends a
    state to the ghost field `run`, which is always a run of LogMachine, so the crash theorems hold at
    every point inside every method. */
module Log {
  import opened Bytes
  import opened Param
  import opened LogMachine

  /** A file-system operation between begin_op and end_op; `left` is its unused block reservation. */
  datatype Op = Op(active: bool, left: nat)

  /** One call of log_write by operation `op`. */
  datatype Write = Write(op: nat, block: nat, data: Block)

  datatype Outcome = Logged | TooBig | OutsideTransaction

  // ---- Reservations -----------------------------------------------------------------------

  ghost function Active(ops: seq<Op>): nat {
    if ops == [] then 0 else (if ops[0].active then 1 else 0) + Active(ops[1..])
  }

  ghost function Reserved(ops: seq<Op>): nat {
    if ops == [] then 0 else (if ops[0].active then ops[0].left else 0) + Reserved(ops[1..])
  }

  ghost predicate BudgetsOk(ops: seq<Op>) {
    forall i :: 0 <= i < |ops| ==> ops[i].left <= MAXOPBLOCKS
  }

  lemma {:induction false} ReservedBound(ops: seq<Op>)
    requires BudgetsOk(ops)
    ensures Reserved(ops) <= Active(ops) * MAXOPBLOCKS
  {
    if ops != [] {
      assert BudgetsOk(ops[1..]);
      ReservedBound(ops[1..]);
    }
  }

  lemma {:induction false} OpsAppend(ops: seq<Op>, o: Op)
    ensures Active(ops + [o]) == Active(ops) + if o.active then 1 else 0
    ensures Reserved(ops + [o]) == Reserved(ops) + if o.active then o.left else 0
  {
    if ops == [] {
      assert ops + [o] == [o];
    } else {
      assert (ops + [o])[1..] == ops[1..] + [o];
      OpsAppend(ops[1..], o);
    }
  }

  lemma {:induction false} OpsUpdate(ops: seq<Op>, i: nat, o: Op)
    requires i < |ops|
    ensures Active(ops[i := o]) + (if ops[i].active then 1 else 0) == Active(ops) + if o.active then 1 else 0
    ensures Reserved(ops[i := o]) + (if ops[i].active then ops[i].left else 0)
            == Reserved(ops) + if o.active then o.left else 0
  {
    if i == 0 {
      assert ops[i := o][1..] == ops[1..];
    } else {
      assert ops[i := o][1..] == ops[1..][i - 1 := o];
      OpsUpdate(ops[1..], i - 1, o);
    }
  }

  lemma {:induction false} NoneActive(ops: seq<Op>)
    ensures Active(ops) == 0 <==> forall i :: 0 <= i < |ops| ==> !ops[i].active
    ensures Active(ops) == 0 ==> Reserved(ops) == 0
  {
    if ops != [] {
      NoneActive(ops[1..]);
      assert forall i :: 1 <= i < |ops| ==> ops[i] == ops[1..][i - 1];
    }
  }

  function Ended(ops: seq<Op>): seq<Op> {
    seq(|ops|, i requires 0 <= i < |ops| => Op(false, ops[i].left))
  }

  // ---- Absorption -------------------------------------------------------------------------

  /** Block b after all the writes in order. */
  ghost function LastWrite(writes: seq<Write>, b: nat, was: Block): Block
    decreases |writes|
  {
    if writes == [] then was
    else
      var w := writes[|writes| - 1];
      if w.block == b then w.data else LastWrite(writes[..|writes| - 1], b, was)
  }

  /** The pinned buffers hold exactly the effect of the unabsorbed sequence of writes. */
  ghost predicate Absorbed(dirty: map<nat, Block>, writes: seq<Write>) {
    forall b: nat, was: Block :: LastWrite(writes, b, was) == if b in dirty then dirty[b] else was
  }

  ghost predicate Distinct(s: seq<nat>) {
    forall i, j :: 0 <= i < j < |s| ==> s[i] != s[j]
  }

  function Buffers(lh: seq<nat>, dirty: map<nat, Block>): (data: seq<Block>)
    requires forall i :: 0 <= i < |lh| ==> lh[i] in dirty
    ensures |data| == |lh|
  {
    seq(|lh|, i requires 0 <= i < |lh| => dirty[lh[i]])
  }

  /** Replaying a group built by absorption has the effect of all its writes in order. */
  ghost predicate SameEffect(group: Group, writes: seq<Write>)
    requires |group.blocks| == |group.data|
  {
    forall b: nat, was: Block ::
      Latest(group.blocks, group.data, b, was) == LastWrite(writes, b, was)
  }

  lemma {:induction false} LatestBuffer(lh: seq<nat>, dirty: map<nat, Block>, b: nat, was: Block)
    requires forall i :: 0 <= i < |lh| ==> lh[i] in dirty
    ensures Latest(lh, Buffers(lh, dirty), b, was) == if b in lh then dirty[b] else was
  {
    if lh != [] {
      var k := |lh| - 1;
      assert Buffers(lh, dirty)[..k] == Buffers(lh[..k], dirty);
      LatestBuffer(lh[..k], dirty, b, was);
    }
  }

  lemma AbsorptionPreservesMeaning(lh: seq<nat>, dirty: map<nat, Block>, writes: seq<Write>)
    requires Absorbed(dirty, writes)
    requires forall i :: 0 <= i < |lh| ==> lh[i] in dirty
    requires forall b :: b in dirty ==> b in lh
    ensures SameEffect(Group(lh, Buffers(lh, dirty)), writes)
  {
    forall b: nat, was: Block
      ensures Latest(lh, Buffers(lh, dirty), b, was) == LastWrite(writes, b, was)
    {
      LatestBuffer(lh, dirty, b, was);
    }
  }

  ghost predicate OpsWithin(writes: seq<Write>, lo: nat, hi: nat) {
    forall i :: 0 <= i < |writes| ==> lo <= writes[i].op < hi
  }

  /** The header list names exactly the pinned buffers, once each, and they hold all the writes. */
  ghost predicate Pinned(g: Geometry, lh: seq<nat>, dirty: map<nat, Block>, writes: seq<Write>) {
    && Distinct(lh) && (forall i :: 0 <= i < |lh| ==> g.Home(lh[i]) && lh[i] in dirty)
    && (forall b :: b in dirty ==> b in lh)
    && Absorbed(dirty, writes) && (writes == [] <==> lh == [])
  }

  function Noted(lh: seq<nat>, b: nat): (r: seq<nat>)
    ensures |r| == if b in lh then |lh| else |lh| + 1
  {
    if b in lh then lh else lh + [b]
  }

  /** What the search of log_write, which stopped at i, leads to. */
  lemma NotedIs(lh: seq<nat>, b: nat, i: nat)
    requires i <= |lh| && (forall j :: 0 <= j < i ==> lh[j] != b) && (i < |lh| ==> lh[i] == b)
    ensures Noted(lh, b) == if i == |lh| then lh + [b] else lh[i := b]
  {
  }

  lemma PinOne(g: Geometry, lh: seq<nat>, dirty: map<nat, Block>, writes: seq<Write>, w: Write)
    requires Pinned(g, lh, dirty, writes) && g.Home(w.block)
    ensures Pinned(g, Noted(lh, w.block), dirty[w.block := w.data], writes + [w])
  {
    forall b: nat, was: Block
      ensures LastWrite(writes + [w], b, was)
              == if b in dirty[w.block := w.data] then dirty[w.block := w.data][b] else was
    {
      assert (writes + [w])[..|writes|] == writes;
    }
  }

  /** `outstanding` counts the active operations, all of them admitted since the last commit. */
  ghost predicate Admitted(ops: seq<Op>, outstanding: nat, floor: nat) {
    && BudgetsOk(ops) && outstanding == Active(ops)
    && forall i :: 0 <= i < |ops| && ops[i].active ==> floor <= i
  }

  ghost predicate MemoryOk(g: Geometry, lh: seq<nat>, dirty: map<nat, Block>, pending: seq<Write>, ops: seq<Op>,
                           outstanding: nat, floor: nat)
  {
    && Pinned(g, lh, dirty, pending) && OpsWithin(pending, floor, |ops|)
    && Admitted(ops, outstanding, floor)
    && |lh| + Reserved(ops) <= LOGSIZE && floor <= |ops|
  }

  /** One more log_write within its operation's reservation. */
  lemma AppendKeeps(g: Geometry, lh: seq<nat>, dirty: map<nat, Block>, pending: seq<Write>, ops: seq<Op>,
                    outstanding: nat, floor: nat, w: Write)
    requires MemoryOk(g, lh, dirty, pending, ops, outstanding, floor) && g.Home(w.block)
    requires w.op < |ops| && ops[w.op].active && (w.block in lh || ops[w.op].left > 0)
    ensures var left := ops[w.op].left - if w.block in lh then 0 else 1;
      MemoryOk(g, Noted(lh, w.block), dirty[w.block := w.data], pending + [w], ops[w.op := Op(true, left)],
               outstanding, floor)
    ensures |Noted(lh, w.block)| <= LOGSIZE
  {
    hide Pinned, Active, Reserved;
    OpsUpdate(ops, w.op, Op(true, ops[w.op].left - if w.block in lh then 0 else 1));
    PinOne(g, lh, dirty, pending, w);
  }

  /** Group i has exactly the effect of the log_write calls behind it. */
  ghost predicate Explained(committed: seq<Group>, history: seq<seq<Write>>, floor: nat, i: nat)
    requires i < |history| == |committed|
  {
    && |committed[i].blocks| == |committed[i].data|
    && SameEffect(committed[i], history[i]) && OpsWithin(history[i], 0, floor)
  }

  /** No operation has writes in both of two different groups. */
  ghost predicate Apart(history: seq<seq<Write>>, i: nat, j: nat)
    requires i < j < |history|
  {
    forall m, n :: 0 <= m < |history[i]| && 0 <= n < |history[j]| ==> history[i][m].op != history[j][n].op
  }

  ghost predicate HistoryOk(committed: seq<Group>, history: seq<seq<Write>>, floor: nat) {
    && |history| == |committed|
    && (forall i :: 0 <= i < |history| ==> Explained(committed, history, floor, i))
    && (forall i, j :: 0 <= i < j < |history| ==> Apart(history, i, j))
  }

  lemma HistoryGrows(committed: seq<Group>, history: seq<seq<Write>>, floor: nat, group: Group, writes: seq<Write>,
                     hi: nat)
    requires HistoryOk(committed, history, floor) && floor <= hi
    requires |group.blocks| == |group.data| && SameEffect(group, writes) && OpsWithin(writes, floor, hi)
    ensures HistoryOk(committed + [group], history + [writes], hi)
  {
    var committed', history' := committed + [group], history + [writes];
    forall i: nat | i < |history'| ensures Explained(committed', history', hi, i) {
      assert i < |history| ==> Explained(committed, history, floor, i);
    }
    forall i: nat, j: nat | i < j < |history'| ensures Apart(history', i, j) {
      assert Explained(committed, history, floor, i);
      assert j < |history| ==> Apart(history, i, j);
    }
  }

  /** Block b of a file system that started as `base` and then saw every log_write of the history. */
  ghost function Rewritten(base: seq<Block>, history: seq<seq<Write>>, b: nat): Block
    requires b < |base|
    decreases |history|
  {
    if history == [] then base[b]
    else LastWrite(history[|history| - 1], b, Rewritten(base, history[..|history| - 1], b))
  }

  lemma {:induction false} AppliedIsRewritten(base: seq<Block>, committed: seq<Group>, history: seq<seq<Write>>,
                                              floor: nat, b: nat)
    requires HistoryOk(committed, history, floor) && b < |base|
    requires forall i :: 0 <= i < |committed| ==> |committed[i].blocks| == |committed[i].data|
    ensures Applied(base, committed, b) == Rewritten(base, history, b)
    decreases |history|
  {
    if history != [] {
      var k := |history| - 1;
      forall i: nat | i < k ensures Explained(committed[..k], history[..k], floor, i) {
        assert Explained(committed, history, floor, i);
      }
      forall i: nat, j: nat | i < j < k ensures Apart(history[..k], i, j) {
        assert Apart(history, i, j);
      }
      AppliedIsRewritten(base, committed[..k], history[..k], floor, b);
      assert Explained(committed, history, floor, k);
    }
  }

  // ---- The log ----------------------------------------------------------------------------

  class Log {
    const g: Geometry
    var disk: seq<Block>
    var dirty: map<nat, Block>  // cached buffers modified since they were last on disk (B_DIRTY)
    var lh: seq<nat>            // log.lh: n is the length
    var outstanding: nat
    var committing: bool

    ghost var run: seq<State>              // every state of the disk so far, one per block write
    ghost var ops: seq<Op>                 // every operation ever admitted
    ghost var pending: seq<Write>          // log_write calls since the last commit
    ghost var history: seq<seq<Write>>     // the log_write calls behind each committed group
    ghost var floor: nat                   // operations below it belong to earlier groups

    ghost function Now(): State
      reads `run
      requires |run| > 0
    {
      run[|run| - 1]
    }

    /** The run so far explains the disk. */
    ghost predicate RunOk()
      reads `run, `disk
    {
      IsRun(g, run) && Now().disk == disk && |disk| == g.blocks && g.Valid()
    }

    /** The disk side: every committed group has exactly the effect of its log_write calls, and no
        operation's writes are spread over two groups. */
    ghost predicate Durable()
      reads `run, `disk, `history, `floor, `ops
    {
      RunOk() && HistoryOk(Now().committed, history, floor) && floor <= |ops|
    }

    /** The memory side: header list, pinned buffers and reservations. */
    ghost predicate Buffered()
      reads `lh, `dirty, `pending, `ops, `outstanding, `committing, `floor
    {
      MemoryOk(g, lh, dirty, pending, ops, outstanding, floor) && (committing ==> outstanding == 0)
    }

    /** The disk has the blocks that the geometry says. */
    ghost predicate DiskOk()
      reads `disk
    {
      g.Valid() && |disk| == g.blocks
    }

    /** The list fits the log area. */
    ghost predicate Fits()
      reads `lh
    {
      |lh| < g.size
    }

    /** Between block writes of a running kernel, no commit under way, and no list has ever outgrown
        the log area. */
    ghost predicate Valid()
      reads this
    {
      Durable() && Buffered() && Now().phase.Idle? && Fits()
    }

    ghost predicate InProgress(op: nat)
      reads `ops
    {
      op < |ops| && ops[op].active
    }

    /** The disk as the firmware finds it: any image whose header block is well formed. */
    constructor (g: Geometry, disk: seq<Block>)
      requires g.Valid() && |disk| == g.blocks && HeaderOk(disk, g)
      ensures Durable() && this.g == g && this.disk == disk && Now().phase.Recovering? && ops == [] && history == []
    {
      this.g, this.disk := g, disk;
      lh, dirty, outstanding, committing := [], map[], 0, false;
      run := [State(disk, Recovering(GetHeader(disk[g.start]), 0), [])];
      ops, pending, history, floor := [], [], [], 0;
    }

    /** bread: the cached buffer when it holds changes, the disk block otherwise. */
    function Bread(b: nat): Block
      reads `disk, `dirty
      requires b < |disk|
    {
      if b in dirty then dirty[b] else disk[b]
    }

    ghost method Record(phase: Phase, committed: seq<Group>)
      requires IsRun(g, run) && Next(g, Now(), State(disk, phase, committed))
      modifies this`run
      ensures IsRun(g, run) && run == old(run) + [State(disk, phase, committed)]
    {
      Extend(g, run, State(disk, phase, committed));
      run := run + [State(disk, phase, committed)];
    }

    /** bwrite of a buffer that now holds `data`. */
    method Bwrite(b: nat, data: Block)
      requires b < |disk|
      modifies this`disk, this`dirty
      ensures disk == old(disk)[b := data] && dirty == old(dirty) - {b}
    {
      disk := disk[b := data];
      dirty := dirty - {b};
    }

    /** Whole operations survive a crash.  Whatever block write the power failure follows, recovery
        leaves in every home block the last log_write of the committed groups, and each operation
        wrote in at most one group, so it survives entirely or not at all. */
    lemma CrashKeepsWholeOperations(b: nat, i: nat, j: nat, m: nat, n: nat)
      requires Durable() && g.Home(b)
      ensures HeaderOk(disk, g) && Recovered(disk, g, b) == Rewritten(Base(g, run[0]), history, b)
      ensures i < j < |history| && m < |history[i]| && n < |history[j]|
              ==> history[i][m].op != history[j][n].op
    {
      CrashAtomicity(g, run, |run| - 1);
      AppliedIsRewritten(Base(g, run[0]), Now().committed, history, floor, b);
      assert i < j < |history| ==> Apart(history, i, j);
    }

    // ---- Operations ---------------------------------------------------------------------

    /** One pass of begin_op's loop under log.lock; false means the caller sleeps on the log. */
    method TryBeginOp() returns (entered: bool, ghost op: nat)
      requires floor <= |ops| && (!committing ==> Buffered())
      modifies this`outstanding, this`ops
      ensures floor <= |ops| && (!committing ==> Buffered()) && (old(Durable()) ==> Durable())
      ensures entered <==> !committing && |lh| + (old(outstanding) + 1) * MAXOPBLOCKS <= LOGSIZE
      ensures !entered ==> outstanding == old(outstanding) && ops == old(ops)
      ensures entered ==> op == |old(ops)| && ops == old(ops) + [Op(true, MAXOPBLOCKS)]
      ensures entered ==> InProgress(op) && outstanding == old(outstanding) + 1
    {
      op := |ops|;
      if committing {
        entered := false;
      } else if |lh| + (outstanding + 1) * MAXOPBLOCKS > LOGSIZE {
        entered := false;
      } else {
        ReservedBound(ops);
        OpsAppend(ops, Op(true, MAXOPBLOCKS));
        ops := ops + [Op(true, MAXOPBLOCKS)];
        outstanding := outstanding + 1;
        entered := true;
      }
    }

    /** The tests at the head of log_write.  They read the log without its lock, so that other
        operations may change it before LogAppend. */
    method LogTest() returns (outcome: Outcome)
      ensures outcome.TooBig? <==> |lh| >= LOGSIZE || |lh| >= g.size - 1
      ensures outcome.OutsideTransaction? <==> !outcome.TooBig? && outstanding == 0
    {
      if |lh| >= LOGSIZE || |lh| >= g.size - 1 {
        return TooBig;
      }
      if outstanding < 1 {
        return OutsideTransaction;
      }
      outcome := Logged;
    }

    /** The rest of log_write, under log.lock: pin a modified buffer and note its block number unless it
        is already noted.  The caller promises to add at most MAXOPBLOCKS new blocks per operation; so
        the header always has room, and the log area has whenever it exceeds LOGSIZE blocks. */
    method LogAppend(ghost op: nat, b: nat, data: Block)
      requires Buffered() && g.Home(b) && InProgress(op) && (b in lh || ops[op].left > 0)
      modifies this`lh, this`dirty, this`pending, this`ops
      ensures Buffered() && (old(Durable()) ==> Durable())
      ensures pending == old(pending) + [Write(op, b, data)] && dirty == old(dirty)[b := data]
      ensures lh == Noted(old(lh), b) && |lh| <= LOGSIZE
      ensures g.size > LOGSIZE ==> Fits()
      ensures old(Valid()) && Fits() ==> Valid()
      ensures ops == old(ops)[op := Op(true, old(ops)[op].left - if b in old(lh) then 0 else 1)]
    {
      hide MemoryOk, Noted, HistoryOk, IsRun;
      var i := 0;
      while i < |lh| && lh[i] != b
        invariant i <= |lh|
        invariant forall j :: 0 <= j < i ==> lh[j] != b
      {
        i := i + 1;
      }
      assert i < |lh| <==> b in lh;
      NotedIs(lh, b, i);
      AppendKeeps(g, lh, dirty, pending, ops, outstanding, floor, Write(op, b, data));
      ops := ops[op := Op(true, ops[op].left - if b in lh then 0 else 1)];
      if i == |lh| {
        lh := lh + [b];
      } else {
        lh := lh[i := b];
      }
      dirty := dirty[b := data];
      pending := pending + [Write(op, b, data)];
    }

    /** log_write when nobody comes between its tests and its append. */
    method LogWrite(ghost op: nat, b: nat, data: Block) returns (outcome: Outcome)
      requires Buffered() && g.Home(b)
      requires outstanding > 0 ==> InProgress(op) && (b in lh || ops[op].left > 0)
      modifies this`lh, this`dirty, this`pending, this`ops
      ensures Buffered() && (old(Valid()) ==> Valid())
      ensures !outcome.Logged? ==> lh == old(lh) && dirty == old(dirty) && ops == old(ops) && pending == old(pending)
      ensures outcome.TooBig? <==> |old(lh)| >= LOGSIZE || |old(lh)| >= g.size - 1
      ensures outcome.OutsideTransaction? ==> outstanding == 0
      ensures outcome.Logged? ==>
        && pending == old(pending) + [Write(op, b, data)]
        && dirty == old(dirty)[b := data]
        && lh == Noted(old(lh), b)
        && old(InProgress(op)) && (b in old(lh) || old(ops[op].left) > 0)
        && ops == old(ops)[op := Op(true, old(ops)[op].left - if b in old(lh) then 0 else 1)]
      // With a log area that holds LOGSIZE data blocks, an operation meets the panic exactly when the
      // list is full, and then only for a block that is listed already, with its reservation spent.
      ensures outstanding > 0 && g.size > LOGSIZE ==> (outcome.TooBig? <==> |old(lh)| == LOGSIZE)
      ensures outstanding > 0 && g.size > LOGSIZE && outcome.TooBig? ==> b in old(lh) && old(ops[op].left) == 0
    {
      hide Pinned, Admitted, OpsWithin, Reserved, Log.Durable;
      outcome := LogTest();
      RoomForReservation(op, b);
      if outcome.Logged? {
        LogAppend(op, b, data);
      }
    }

    /** An operation with reservation left finds the log short of LOGSIZE blocks. */
    lemma RoomForReservation(op: nat, b: nat)
      requires Buffered()
      requires outstanding > 0 ==> InProgress(op) && (b in lh || ops[op].left > 0)
      ensures |lh| <= LOGSIZE
      ensures outstanding > 0 && ops[op].left > 0 ==> |lh| < LOGSIZE
    {
      if outstanding > 0 && ops[op].left > 0 {
        OpsUpdate(ops, op, Op(false, 0));
      }
    }

    /** end_op up to its release of log.lock.  The panic on log.committing cannot happen. */
    method EndOp(ghost op: nat) returns (doCommit: bool)
      requires Buffered() && InProgress(op)
      modifies this`outstanding, this`ops, this`committing
      ensures Buffered() && (old(Durable()) ==> Durable())
      ensures ops == old(ops)[op := Op(false, 0)] && outstanding == old(outstanding) - 1
      ensures doCommit <==> outstanding == 0
      ensures committing <==> doCommit
    {
      OpsUpdate(ops, op, Op(false, 0));
      outstanding := outstanding - 1;
      if committing {
        assert false;  // panic("log.committing")
      }
      ops := ops[op := Op(false, 0)];
      if outstanding == 0 {
        doCommit, committing := true, true;
      } else {
        doCommit := false;
      }
    }

    /** end_op after commit(): let begin_op admit operations again. */
    method FinishCommit()
      requires Buffered() && committing && lh == []
      modifies this`committing
      ensures Buffered() && !committing && (old(Valid()) ==> Valid())
    {
      committing := false;
    }

    // ---- Commit and recovery --------------------------------------------------------------

    // In what follows `sound` says that the run explains the disk and the list fits the log area.  What
    // is stated without it holds of any list.

    /** No listed block is one that write_log writes. */
    ghost predicate OffLog()
      reads `lh
    {
      forall i :: 0 <= i < |lh| ==> !(g.start < lh[i] <= g.start + |lh|)
    }

    /** The block numbers in the list and in the log area are on the disk. */
    ghost predicate OnDisk()
      reads `lh, `disk, `dirty
    {
      && DiskOk() && g.start + |lh| < g.blocks && |lh| <= LOGSIZE
      && (forall i :: 0 <= i < |lh| ==> g.Home(lh[i])) && forall b :: b in dirty ==> b in lh
    }

    /** One pass of write_log's loop. */
    method WriteLogOne(ghost sound: bool, ghost group: Group, tail: nat)
      requires OnDisk() && tail < |lh|
      requires sound ==>
        && Durable() && Now().phase == Logging(group, tail) && group.Valid(g) && |lh| == |group.blocks|
        && lh[tail] in dirty && group.data[tail] == dirty[lh[tail]]
      modifies this`disk, this`dirty, this`run
      ensures disk == old(disk)[g.start + tail + 1 := old(Bread(lh[tail]))]
      ensures dirty == old(dirty) - {g.start + tail + 1}
      ensures sound ==> Durable() && Now().phase == Logging(group, tail + 1)
      ensures sound ==> Now().committed == old(Now().committed) && run[0] == old(run[0]) && old(run) <= run
      ensures !sound ==> run == old(run)
    {
      hide Bytes.Word, Bytes.PutWord, HistoryOk;
      var from := Bread(lh[tail]);
      Bwrite(g.start + tail + 1, from);
      if sound {
        ghost var s := Now();
        assert LogBlock(g, s, State(disk, Logging(group, tail + 1), s.committed));
        Record(Logging(group, tail + 1), s.committed);
      }
    }

    /** write_log: copy the pinned buffers into the log area, and into the blocks after it if the list is
        longer. */
    method WriteLog(ghost sound: bool, ghost group: Group)
      requires OnDisk() && forall i :: 0 <= i < |lh| ==> lh[i] in dirty
      requires sound ==> Durable() && Now().phase == Logging(group, 0) && OffLog()
      requires sound ==> group.Valid(g) && group == Group(lh, Buffers(lh, dirty))
      modifies this`disk, this`dirty, this`run
      ensures OnDisk()
      ensures sound ==> Durable() && Now().phase == Logging(group, |lh|) && dirty == old(dirty)
      ensures sound ==> Now().committed == old(Now().committed) && run[0] == old(run[0]) && old(run) <= run
      ensures !sound ==> run == old(run)
      ensures forall b :: 0 <= b < g.blocks && !(g.start < b <= g.start + |lh|) ==> disk[b] == old(disk)[b]
      ensures OffLog() ==> forall k :: 0 <= k < |lh| ==> disk[g.start + 1 + k] == old(dirty)[lh[k]]
    {
      hide HistoryOk, StepAt, Init;
      var tail := 0;
      while tail < |lh|
        invariant tail <= |lh| && OnDisk() && (OffLog() ==> dirty == old(dirty))
        invariant sound ==> Durable() && Now().phase == Logging(group, tail)
        invariant sound ==> Now().committed == old(Now().committed) && run[0] == old(run[0]) && old(run) <= run
        invariant !sound ==> run == old(run)
        invariant forall b :: 0 <= b < g.blocks && !(g.start < b <= g.start + tail) ==> disk[b] == old(disk)[b]
        invariant OffLog() ==> forall k :: 0 <= k < tail ==> disk[g.start + 1 + k] == old(dirty)[lh[k]]
      {
        WriteLogOne(sound, group, tail);
        tail := tail + 1;
      }
    }

    /** What write_head is for: with a full log area it commits the group, with an empty list it ends
        the installation. */
    ghost predicate HeadDue()
      reads `run, `lh, `pending, `floor, `ops
      requires |run| > 0
    {
      if Now().phase.Logging? then
        var group := Now().phase.group;
        && group.Valid(g) && lh == group.blocks && Now().phase.k == |lh| && SameEffect(group, pending)
        && OpsWithin(pending, floor, |ops|)
      else
        !Now().phase.Idle? && lh == [] && Now().phase.k == |Now().phase.Copying()|
    }

    /** write_head: the commit point when lh lists a logged group, the erasure when lh is empty. */
    method WriteHead(ghost sound: bool)
      requires DiskOk() && |lh| <= LOGSIZE && g.start !in dirty
      requires forall i :: 0 <= i < |lh| ==> lh[i] < U32
      requires sound ==> Durable() && HeadDue()
      modifies this`disk, this`dirty, this`run, this`history, this`floor
      ensures DiskOk() && dirty == old(dirty)
      ensures forall b :: 0 <= b < g.blocks && b != g.start ==> disk[b] == old(disk)[b]
      ensures sound ==> Durable() && run == old(run) + [Now()]
      ensures sound && old(Now().phase.Logging?) ==>
        && Now().phase == Installing(old(Now().phase.group), 0)
        && Now().committed == old(Now().committed) + [old(Now().phase.group)]
        && history == old(history) + [pending] && floor == |ops|
      ensures sound && !old(Now().phase.Logging?) ==>
        && Now().phase.Idle? && Now().committed == old(Now().committed)
        && history == old(history) && floor == old(floor)
      ensures !sound ==> run == old(run) && history == old(history) && floor == old(floor)
    {
      hide Bytes.Word, Bytes.PutWord, SameEffect, Explained, Apart;
      var hb := PutWord(Bread(g.start), 0, |lh|);
      var i := 0;
      while i < |lh|
        invariant i <= |lh|
        invariant hb == PutWords(PutWord(Bread(g.start), 0, |lh|), 1, lh[..i])
      {
        hb := PutWord(hb, i + 1, lh[i]);
        assert lh[..i + 1][..i] == lh[..i];
        i := i + 1;
      }
      assert lh[..i] == lh;
      ghost var disk0 := disk;
      Bwrite(g.start, hb);
      assert dirty == old(dirty);
      if sound {
        ghost var s := Now();
        if s.phase.Logging? {
          ghost var t := State(disk, Installing(s.phase.group, 0), s.committed + [s.phase.group]);
          assert LogMachine.WriteHead(g, s, t);
          Record(t.phase, t.committed);
          HistoryGrows(s.committed, history, floor, s.phase.group, pending, |ops|);
          history, floor := history + [pending], |ops|;
        } else {
          ghost var t := State(disk, Idle, s.committed);
          assert Clear(g, s, t);
          Record(t.phase, t.committed);
        }
      }
    }

    /** install_trans is at entry k of the list. */
    ghost predicate Copies(k: nat)
      reads `run, `lh
      requires |run| > 0
    {
      (Now().phase.Recovering? || Now().phase.Installing?) && Now().phase.k == k && lh == Now().phase.Copying()
    }

    /** One pass of install_trans's loop. */
    method InstallOne(ghost sound: bool, tail: nat)
      requires OnDisk() && tail < |lh| && forall b :: b in dirty ==> b in lh[tail..]
      requires sound ==> RunOk() && Copies(tail)
      modifies this`disk, this`dirty, this`run
      ensures OnDisk() && forall b :: b in dirty ==> b in lh[tail + 1..]
      ensures forall b :: 0 <= b < g.blocks && b != lh[tail] ==> disk[b] == old(disk)[b]
      ensures sound ==> RunOk() && Copies(tail + 1)
      ensures sound ==> Now().committed == old(Now().committed) && run[0] == old(run[0]) && old(run) <= run
      ensures !sound ==> run == old(run)
    {
      hide Bytes.Word, Bytes.PutWord;
      if sound { HomesOf(); }
      var from := Bread(g.start + tail + 1);
      Bwrite(lh[tail], from);
      if sound {
        ghost var s := Now();
        assert from == s.disk[g.start + tail + 1];
        assert Install(g, s, State(disk, s.phase.Advance(), s.committed));
        Record(s.phase.Advance(), s.committed);
      }
    }

    /** install_trans: copy the committed blocks from the log to their homes. */
    method InstallTrans(ghost sound: bool)
      requires OnDisk()
      requires sound ==> RunOk() && Copies(0)
      modifies this`disk, this`dirty, this`run
      ensures DiskOk() && dirty == map[]
      ensures forall b :: 0 <= b < g.blocks && b !in lh ==> disk[b] == old(disk)[b]
      ensures sound ==> RunOk() && Copies(|lh|)
      ensures sound ==> Now().committed == old(Now().committed) && run[0] == old(run[0]) && old(run) <= run
      ensures !sound ==> run == old(run)
    {
      hide StepAt, Init;
      var tail := 0;
      while tail < |lh|
        invariant tail <= |lh| && OnDisk() && forall b :: b in dirty ==> b in lh[tail..]
        invariant forall b :: 0 <= b < g.blocks && b !in lh ==> disk[b] == old(disk)[b]
        invariant sound ==> RunOk() && Copies(tail)
        invariant sound ==> Now().committed == old(Now().committed) && run[0] == old(run[0]) && old(run) <= run
        invariant !sound ==> run == old(run)
      {
        InstallOne(sound, tail);
        tail := tail + 1;
      }
    }

    /** The header entries being copied fit the log area and lie outside it. */
    lemma HomesOf()
      requires RunOk() && (Now().phase.Recovering? || Now().phase.Installing?)
      ensures HeaderFits(Now().phase.Copying(), g)
    {
      RunInv(g, run, |run| - 1);
    }

    /** The end of both commit and recover_from_log: install_trans, then erase the header. */
    method InstallAndErase(ghost sound: bool)
      requires OnDisk()
      requires sound ==> Durable() && Copies(0)
      modifies this`disk, this`dirty, this`lh, this`run, this`history, this`floor
      ensures DiskOk() && lh == [] && dirty == map[] && history == old(history) && floor == old(floor)
      ensures forall b :: 0 <= b < g.blocks && b !in old(lh) && b != g.start ==> disk[b] == old(disk)[b]
      ensures sound ==> Durable() && Now().phase.Idle? && Now().committed == old(Now().committed)
      ensures sound ==> run[0] == old(run[0]) && old(run) <= run && HomeCurrent(g, Base(g, run[0]), Now())
    {
      InstallTrans(sound);
      lh := [];
      WriteHead(sound);
      if sound { CrashAtomicity(g, run, |run| - 1); }
    }

    /** With nothing pinned and no operation active the memory side is in order. */
    lemma Quiet()
      requires lh == [] && dirty == map[] && pending == [] && outstanding == 0 && floor <= |ops|
      requires BudgetsOk(ops) && forall i :: 0 <= i < |ops| ==> !ops[i].active
      ensures Buffered()
    {
      NoneActive(ops);
    }

    /** The first half of commit: write_log, then the header write that commits the group. */
    method LogGroup(ghost sound: bool)
      requires Buffered() && OnDisk() && committing && |lh| > 0
      requires sound ==> Valid()
      modifies this`disk, this`dirty, this`run, this`history, this`floor
      ensures OnDisk() && floor <= |ops|
      ensures forall b :: 0 <= b < g.blocks && !(g.start <= b <= g.start + |lh|) ==> disk[b] == old(disk)[b]
      ensures OffLog() ==> forall k :: 0 <= k < |lh| ==> disk[g.start + 1 + k] == old(dirty)[lh[k]]
      ensures sound ==> Durable() && Copies(0) && Now().phase.Installing?
      ensures sound ==> run[0] == old(run[0]) && old(run) <= run
      ensures sound ==> history == old(history) + [pending] && floor == |ops|
    {
      hide Latest, LastWrite, HistoryOk, StepAt, Init, Active, Reserved;
      ghost var group := Group(lh, Buffers(lh, dirty));
      if sound {
        AbsorptionPreservesMeaning(lh, dirty, pending);
        ghost var s := Now();
        assert StartCommit(g, s, State(disk, Logging(group, 0), s.committed));
        Record(Logging(group, 0), s.committed);
      }
      WriteLog(sound, group);
      WriteHead(sound);
    }

    /** commit(), called by the end_op that found no other operation outstanding.  A list that has
        outgrown the log area is written past its end, and what it leaves there stays. */
    method Commit()
      requires Buffered() && DiskOk() && committing && g.start + |lh| < g.blocks
      modifies this`disk, this`dirty, this`lh, this`run, this`pending, this`history, this`floor
      ensures Buffered() && DiskOk() && lh == []
      ensures forall b :: 0 <= b < g.blocks && b !in old(lh) && !(g.start <= b <= g.start + |old(lh)|) ==>
        disk[b] == old(disk)[b]
      ensures old(OffLog()) ==> forall k :: 0 <= k < |old(lh)| ==> disk[g.start + 1 + k] == old(dirty)[old(lh)[k]]
      ensures old(Valid()) ==> Valid() && old(run) <= run && run[0] == old(run[0])
      ensures old(Valid()) ==> HomeCurrent(g, Base(g, run[0]), Now())
      ensures old(Valid()) && old(pending) == [] ==> history == old(history) && disk == old(disk) && run == old(run)
      ensures old(Valid()) && old(pending) != [] ==> history == old(history) + [old(pending)]
    {
      hide HistoryOk, StepAt, Init, Applied, HeaderOk, GroupsOk, Absorbed, Recovered;
      NoneActive(ops);
      ghost var sound := Valid();
      if |lh| > 0 {
        LogGroup(sound);
        InstallAndErase(sound);
        pending := [];
        Quiet();
      } else if sound {
        CrashAtomicity(g, run, |run| - 1);
      }
    }

    /** Power fails at any point and the machine boots: memory is lost, then initlog runs
        recover_from_log to its end. */
    method Reboot()
      requires Durable() && BudgetsOk(ops)
      modifies this
      ensures Valid() && lh == [] && outstanding == 0 && !committing
      ensures history == old(history) && Now().committed == old(Now().committed)
      ensures run[0] == old(run[0]) && HomeCurrent(g, Base(g, run[0]), Now())
    {
      hide Bytes.Word, Bytes.PutWord, HistoryOk, StepAt, Applied, GroupsOk, Recovered, Latest;
      RunInv(g, run, |run| - 1);
      dirty, outstanding, committing := map[], 0, false;
      ops, pending := Ended(ops), [];
      ghost var s := Now();
      // read_head
      var hb := Bread(g.start);
      lh := GetHeader(hb);
      assert Crash(g, s, State(disk, Recovering(lh, 0), s.committed));
      Record(Recovering(lh, 0), s.committed);
      InstallAndErase(true);
      Quiet();
    }
  }

  // ---- Runs to the panic, and past the log area -----------------------------------------------

  /** The first of three operations logs ten fresh blocks, the second the next c, and the third c more:
      what operation j has logged after i of them. */
  function Share(i: nat, c: nat, j: nat): nat {
    if j == 0 then if i <= MAXOPBLOCKS then i else MAXOPBLOCKS
    else if j == 1 then if i <= MAXOPBLOCKS then 0 else if i <= MAXOPBLOCKS + c then i - MAXOPBLOCKS else c
    else if i <= MAXOPBLOCKS + c then 0 else i - MAXOPBLOCKS - c
  }

  /** Whose turn it is to log block i. */
  function Turn(i: nat, c: nat): nat {
    if i < MAXOPBLOCKS then 0 else if i < MAXOPBLOCKS + c then 1 else 2
  }

  /** Operation j still has what it may log. */
  ghost predicate HasLeft(log: Log, first: nat, i: nat, c: nat, j: nat)
    reads log
  {
    first + j < |log.ops| && Share(i, c, j) <= MAXOPBLOCKS
    && log.ops[first + j] == Op(true, MAXOPBLOCKS - Share(i, c, j))
  }

  /** Three operations, admitted as first, first + 1 and first + 2, have logged i fresh blocks from
      block `at` on. */
  ghost predicate Filled(log: Log, first: nat, i: nat, c: nat, at: nat)
    reads log
  {
    && log.Valid() && log.outstanding == 3 && |log.ops| == first + 3 && c <= MAXOPBLOCKS && i <= MAXOPBLOCKS + 2 * c
    && log.g.start + log.g.size <= at && at + i <= log.g.blocks
    && log.lh == seq(i, k requires 0 <= k < i => at + k)
    && HasLeft(log, first, i, c, 0) && HasLeft(log, first, i, c, 1) && HasLeft(log, first, i, c, 2)
  }

  lemma FreshBlock(log: Log, first: nat, i: nat, c: nat, at: nat)
    requires Filled(log, first, i, c, at) && i < MAXOPBLOCKS + 2 * c && at + i < log.g.blocks
    ensures var op := first + Turn(i, c); log.InProgress(op) && log.ops[op].left > 0
    ensures log.g.Home(at + i) && at + i !in log.lh
  {
  }

  lemma SharesMove(i: nat, c: nat, j: nat)
    requires i < MAXOPBLOCKS + 2 * c && j < 3
    ensures Share(i + 1, c, j) == Share(i, c, j) + if j == Turn(i, c) then 1 else 0
    ensures j == Turn(i, c) && c <= MAXOPBLOCKS ==> Share(i, c, j) < MAXOPBLOCKS
  {
  }

  method LogFresh(log: Log, ghost first: nat, i: nat, ghost c: nat, at: nat)
    requires Filled(log, first, i, c, at) && i < MAXOPBLOCKS + 2 * c && i < LOGSIZE && i + 1 < log.g.size
    requires at + i < log.g.blocks
    modifies log`lh, log`dirty, log`pending, log`ops
    ensures Filled(log, first, i + 1, c, at)
  {
    hide Log.Durable, MemoryOk, Share, Turn;
    FreshBlock(log, first, i, c, at);
    SharesMove(i, c, 0);
    SharesMove(i, c, 1);
    SharesMove(i, c, 2);
    var outcome := log.LogWrite(first + Turn(i, c), at + i, ZeroBlock());
    assert outcome.Logged?;
    assert log.lh == old(log.lh) + [at + i];
    assert log.lh == seq(i + 1, k requires 0 <= k < i + 1 => at + k);
  }

  method ThreeBegin(log: Log) returns (ghost first: nat)
    requires log.Valid() && !log.committing && log.outstanding == 0 && log.lh == []
    modifies log`outstanding, log`ops
    ensures log.Valid() && log.outstanding == 3 && |log.ops| == first + 3
    ensures log.ops[first..] == seq(3, _ => Op(true, MAXOPBLOCKS))
  {
    hide MemoryOk, HistoryOk, IsRun;
    first := |log.ops|;
    ghost var op;
    var ok;
    ok, op := log.TryBeginOp();
    ok, op := log.TryBeginOp();
    ok, op := log.TryBeginOp();
  }

  /** Three operations fill an idle log with n fresh blocks. */
  method Fill(log: Log, n: nat, ghost c: nat, at: nat) returns (ghost first: nat)
    requires log.Valid() && !log.committing && log.outstanding == 0 && log.lh == []
    requires c <= MAXOPBLOCKS && n <= MAXOPBLOCKS + 2 * c && n < log.g.size
    requires log.g.start + log.g.size <= at && at + n <= log.g.blocks
    modifies log`outstanding, log`lh, log`dirty, log`pending, log`ops
    ensures Filled(log, first, n, c, at)
  {
    hide MemoryOk, HistoryOk, IsRun;
    first := ThreeBegin(log);
    assert log.ops[first] == log.ops[first..][0] && log.ops[first + 1] == log.ops[first..][1]
      && log.ops[first + 2] == log.ops[first..][2];
    var i := 0;
    while i < n
      invariant i <= n && Filled(log, first, i, c, at)
    {
      LogFresh(log, first, i, c, at);
      i := i + 1;
    }
  }

  /** With a log area of at most LOGSIZE blocks, header included, three operations that stay within
      their reservations reach the "too big a transaction" panic from any idle log, and for a block
      not listed.  mkfs.c gives the log area exactly LOGSIZE blocks. */
  method OverrunShortLog(log: Log) returns (ghost op: nat, b: nat, outcome: Outcome)
    requires log.Valid() && !log.committing && log.outstanding == 0 && log.lh == []
    requires log.g.size <= LOGSIZE && log.g.start + 2 * log.g.size <= log.g.blocks
    modifies log
    ensures outcome.TooBig? && log.Valid()
    ensures log.InProgress(op) && log.ops[op].left > 0 && log.g.Home(b) && b !in log.lh
  {
    hide Log.Durable, MemoryOk;
    var n, at := log.g.size - 1, log.g.start + log.g.size;
    ghost var first := Fill(log, n, MAXOPBLOCKS, at);
    FreshBlock(log, first, n, MAXOPBLOCKS, at);
    op, b := first + Turn(n, MAXOPBLOCKS), at + n;
    outcome := log.LogWrite(op, b, ZeroBlock());
  }

  /** No size of the log area avoids the panic: three operations fill the list as their reservations
      allow, and one of them then writes a block it has listed already, which needs no room. */
  method OverrunByAbsorption(log: Log) returns (ghost op: nat, b: nat, outcome: Outcome)
    requires log.Valid() && !log.committing && log.outstanding == 0 && log.lh == []
    requires log.g.size > LOGSIZE && log.g.start + log.g.size + LOGSIZE <= log.g.blocks
    modifies log
    ensures outcome.TooBig? && log.Valid()
    ensures log.InProgress(op) && log.g.Home(b) && b in log.lh
  {
    hide Log.Durable, MemoryOk;
    b := log.g.start + log.g.size;
    op := Fill(log, LOGSIZE, MAXOPBLOCKS, b);
    assert log.lh[0] == b;
    outcome := log.LogWrite(op, b, ZeroBlock());
  }

  /** A list need not fit a log area of LOGSIZE blocks or fewer, header included: two different
      operations, with a block left to each, both pass the tests before either takes log.lock, and both
      append.  A larger area the list always fits (Log.LogAppend). */
  method RacePastLog(log: Log, data: Block) returns (ghost first: nat)
    requires log.Valid() && !log.committing && log.outstanding == 0 && log.lh == []
    requires log.g.size <= LOGSIZE && log.g.start + 2 * log.g.size < log.g.blocks
    modifies log`outstanding, log`lh, log`dirty, log`pending, log`ops
    ensures log.Buffered() && |log.lh| == log.g.size && !log.Fits() && log.outstanding == 3
    ensures log.InProgress(first) && log.InProgress(first + 1) && log.InProgress(first + 2)
    ensures log.lh == seq(log.g.size, k requires 0 <= k < log.g.size => log.g.start + log.g.size + 1 + k)
    ensures log.lh[log.g.size - 1] in log.dirty && log.dirty[log.lh[log.g.size - 1]] == data
  {
    hide MemoryOk, HistoryOk, StepAt, Share;
    var n, at := log.g.size - 2, log.g.start + log.g.size + 1;
    first := Fill(log, n, MAXOPBLOCKS - 1, at);
    OneLeft(log, first, n, at);
    var passed1 := log.LogTest();  // by operation first + 1
    var passed2 := log.LogTest();  // by operation first + 2
    assert passed1.Logged? && passed2.Logged?;
    log.LogAppend(first + 1, at + n, ZeroBlock());
    log.LogAppend(first + 2, at + n + 1, data);
  }

  lemma OneLeft(log: Log, first: nat, n: nat, at: nat)
    requires Filled(log, first, n, MAXOPBLOCKS - 1, at)
    ensures log.InProgress(first) && log.InProgress(first + 1) && log.InProgress(first + 2)
    ensures log.ops[first + 1].left > 0 && log.ops[first + 2].left > 0
  {
  }

  /** A block that no buffer pins was in no log_write. */
  lemma {:induction false} NotWritten(writes: seq<Write>, b: nat)
    requires forall was: Block :: LastWrite(writes, b, was) == was
    ensures forall i :: 0 <= i < |writes| ==> writes[i].block != b
  {
    if writes != [] {
      var w := writes[|writes| - 1];
      var was: Block := if w.data == ZeroBlock() then seq(BSIZE, _ => 1) else ZeroBlock();
      assert LastWrite(writes, b, was) == was;
      assert was[0] != w.data[0] || was != w.data;
      var rest := writes[..|writes| - 1];
      forall v: Block ensures LastWrite(rest, b, v) == v {
        assert LastWrite(writes, b, v) == v;
      }
      NotWritten(rest, b);
    }
  }

  lemma UnlistedUnwritten(log: Log, b: nat)
    requires log.Buffered() && b !in log.lh
    ensures forall i :: 0 <= i < |log.pending| ==> log.pending[i].block != b
  {
    forall was: Block ensures LastWrite(log.pending, b, was) == was {
    }
    NotWritten(log.pending, b);
  }

  /** Such a list is committed past the log area, as far as buffers last (BioLog.WriteLog).  The block
      after it, where mkfs.c puts the first inodes, ends as a copy of a block that was logged, though no
      log_write was for it. */
  method OverrunInodes(log: Log, data: Block) returns (ghost writes: seq<Write>)
    requires log.Valid() && !log.committing && log.outstanding == 0 && log.lh == []
    requires log.g.size <= LOGSIZE && log.g.start + 2 * log.g.size < log.g.blocks
    modifies log
    ensures log.Buffered() && log.lh == [] && |log.disk| == log.g.blocks
    ensures log.disk[log.g.start + log.g.size] == data
    ensures forall i :: 0 <= i < |writes| ==> writes[i].block != log.g.start + log.g.size
  {
    hide MemoryOk, HistoryOk, StepAt;
    ghost var first := RacePastLog(log, data);
    UnlistedUnwritten(log, log.g.start + log.g.size);
    writes := log.pending;
    var last := log.EndOp(first);
    last := log.EndOp(first + 1);
    last := log.EndOp(first + 2);
    log.Commit();
  }
}
