/** The write-ahead log as a machine that takes one atomic block write per step, with a crash
    possible between any two writes, including the writes of recovery itself. */
module LogMachine {
  import opened Bytes
  import opened Param

  /** The log occupies blocks start .. start + size, its header first; the disk has `blocks` blocks. */
  datatype Geometry = Geometry(start: nat, size: nat, blocks: nat)
  {
    ghost predicate Valid() { 2 <= size && start + size <= blocks <= U32 }

    /** Block numbers that transactions write: everything outside the log region. */
    predicate Home(b: nat) { b < blocks && !(start <= b < start + size) }
  }

  /** One group commit: the home block numbers of log.lh and the contents of their buffers. */
  datatype Group = Group(blocks: seq<nat>, data: seq<Block>)
  {
    ghost predicate Valid(g: Geometry) {
      |blocks| == |data| && 0 < |blocks| && HeaderFits(blocks, g)
    }
  }

  ghost predicate HeaderFits(blocks: seq<nat>, g: Geometry) {
    |blocks| <= LOGSIZE && |blocks| < g.size && forall i :: 0 <= i < |blocks| ==> g.Home(blocks[i])
  }

  // ---- The header block -----------------------------------------------------------------

  /** Word 0 holds n; words 1 .. n hold the block numbers.  Words past n keep their old contents. */
  function PutHeader(b: Block, lh: seq<nat>): (r: Block)
    requires |lh| <= LOGSIZE && forall i :: 0 <= i < |lh| ==> lh[i] < U32
  {
    PutWords(PutWord(b, 0, |lh|), 1, lh)
  }

  function HeaderCount(b: Block): nat { Word(b, 0) }

  function GetHeader(b: Block): (lh: seq<nat>)
    requires HeaderCount(b) <= LOGSIZE
    ensures |lh| == HeaderCount(b)
  {
    Words(b, 1, HeaderCount(b))
  }

  /** Reading a header back gives the list that was written, whatever the block held before. */
  lemma HeaderRoundTrip(b: Block, lh: seq<nat>)
    requires |lh| <= LOGSIZE && forall i :: 0 <= i < |lh| ==> lh[i] < U32
    ensures HeaderCount(PutHeader(b, lh)) == |lh|
    ensures GetHeader(PutHeader(b, lh)) == lh
  {
  }

  // ---- What a list of block copies leaves in a home block ---------------------------------

  /** The contents of block b after copying data[i] to blocks[i] in order, starting from `was`. */
  ghost function Latest(blocks: seq<nat>, data: seq<Block>, b: nat, was: Block): Block
    requires |blocks| == |data|
    decreases |blocks|
  {
    if blocks == [] then was
    else
      var k := |blocks| - 1;
      if blocks[k] == b then data[k] else Latest(blocks[..k], data[..k], b, was)
  }

  lemma {:induction false} LatestForgets(blocks: seq<nat>, data: seq<Block>, b: nat, was: Block, was': Block)
    requires |blocks| == |data|
    requires b in blocks || was == was'
    ensures Latest(blocks, data, b, was) == Latest(blocks, data, b, was')
    decreases |blocks|
  {
    if blocks != [] {
      var k := |blocks| - 1;
      if blocks[k] != b {
        assert b in blocks ==> b in blocks[..k];
        LatestForgets(blocks[..k], data[..k], b, was, was');
      }
    }
  }

  /** One more copy: the newest entry decides its own block and no other. */
  lemma LatestStep(blocks: seq<nat>, data: seq<Block>, k: nat, b: nat, was: Block)
    requires k < |blocks| == |data|
    ensures Latest(blocks[..k + 1], data[..k + 1], b, was)
            == if blocks[k] == b then data[k] else Latest(blocks[..k], data[..k], b, was)
  {
    assert blocks[..k + 1][..k] == blocks[..k] && data[..k + 1][..k] == data[..k];
  }

  // ---- The abstract file system: a sequence of groups applied atomically ------------------

  /** Block b of a file system that started as `base` and then applied every group in order. */
  ghost function Applied(base: seq<Block>, groups: seq<Group>, b: nat): Block
    requires b < |base| && forall i :: 0 <= i < |groups| ==> |groups[i].blocks| == |groups[i].data|
    decreases |groups|
  {
    if groups == [] then base[b]
    else
      var g := groups[|groups| - 1];
      Latest(g.blocks, g.data, b, Applied(base, groups[..|groups| - 1], b))
  }

  // ---- The machine ------------------------------------------------------------------------

  datatype Phase =
    | Recovering(blocks: seq<nat>, k: nat)  // install_trans of recover_from_log, k blocks done
    | Idle
    | Logging(group: Group, k: nat)         // write_log, k blocks done
    | Installing(group: Group, k: nat)      // install_trans of commit, k blocks done
  {
    /** The header entries that install_trans is copying home. */
    function Copying(): seq<nat> {
      match this
      case Recovering(blocks, _) => blocks
      case Installing(group, _) => group.blocks
      case _ => []
    }

    function Advance(): Phase {
      match this
      case Recovering(blocks, k) => Recovering(blocks, k + 1)
      case Logging(group, k) => Logging(group, k + 1)
      case Installing(group, k) => Installing(group, k + 1)
      case Idle => Idle
    }
  }

  /** `committed` lists the groups whose header write reached the disk. */
  datatype State = State(disk: seq<Block>, phase: Phase, committed: seq<Group>)

  ghost predicate HeaderOk(disk: seq<Block>, g: Geometry)
    requires g.Valid() && |disk| == g.blocks
  {
    HeaderCount(disk[g.start]) <= LOGSIZE && HeaderFits(GetHeader(disk[g.start]), g)
  }

  /** The log data blocks that belong to the first n header entries. */
  function LogData(disk: seq<Block>, g: Geometry, n: nat): (r: seq<Block>)
    requires g.start + 1 + n <= |disk|
    ensures |r| == n
  {
    disk[g.start + 1..g.start + 1 + n]
  }

  /** What recovery leaves in home block b when it runs from this disk without interruption. */
  ghost function Recovered(disk: seq<Block>, g: Geometry, b: nat): Block
    requires g.Valid() && |disk| == g.blocks && HeaderOk(disk, g) && b < |disk|
  {
    var lh := GetHeader(disk[g.start]);
    Latest(lh, LogData(disk, g, |lh|), b, disk[b])
  }

  ghost predicate Init(g: Geometry, s: State) {
    && g.Valid() && |s.disk| == g.blocks && HeaderOk(s.disk, g)
    && s.phase == Recovering(GetHeader(s.disk[g.start]), 0)
    && s.committed == []
  }

  /** Power fails, the machine boots and read_head reads the header. */
  ghost predicate Crash(g: Geometry, s: State, s': State) {
    && g.start < |s.disk| && HeaderCount(s.disk[g.start]) <= LOGSIZE
    && s' == s.(phase := Recovering(GetHeader(s.disk[g.start]), 0))
  }

  /** install_trans copies one log block to its home. */
  ghost predicate Install(g: Geometry, s: State, s': State) {
    && (s.phase.Recovering? || s.phase.Installing?)
    && var blocks, k := s.phase.Copying(), s.phase.k;
    && k < |blocks| && g.start + 1 + k < |s.disk| && blocks[k] < |s.disk|
    && s' == s.(disk := s.disk[blocks[k] := s.disk[g.start + 1 + k]], phase := s.phase.Advance())
  }

  /** write_head with n == 0 erases the transaction. */
  ghost predicate Clear(g: Geometry, s: State, s': State) {
    && (s.phase.Recovering? || s.phase.Installing?)
    && s.phase.k == |s.phase.Copying()|
    && g.start < |s.disk|
    && s' == s.(disk := s.disk[g.start := PutHeader(s.disk[g.start], [])], phase := Idle)
  }

  /** commit() starts on a group; nothing is written yet. */
  ghost predicate StartCommit(g: Geometry, s: State, s': State) {
    && s.phase.Idle? && s'.phase.Logging? && s'.phase.k == 0 && s'.phase.group.Valid(g)
    && s' == s.(phase := s'.phase)
  }

  /** write_log copies one cache block to the log. */
  ghost predicate LogBlock(g: Geometry, s: State, s': State) {
    && s.phase.Logging? && s.phase.k < |s.phase.group.data| && g.start + 1 + s.phase.k < |s.disk|
    && s' == s.(disk := s.disk[g.start + 1 + s.phase.k := s.phase.group.data[s.phase.k]],
                phase := s.phase.Advance())
  }

  /** write_head with the group's block list: the commit point. */
  ghost predicate WriteHead(g: Geometry, s: State, s': State) {
    && s.phase.Logging? && s.phase.k == |s.phase.group.data| && s.phase.group.Valid(g)
    && g.Valid() && g.start < |s.disk|
    && s' == State(s.disk[g.start := PutHeader(s.disk[g.start], s.phase.group.blocks)],
                   Installing(s.phase.group, 0), s.committed + [s.phase.group])
  }

  ghost predicate Next(g: Geometry, s: State, s': State) {
    || Crash(g, s, s') || Install(g, s, s') || Clear(g, s, s')
    || StartCommit(g, s, s') || LogBlock(g, s, s') || WriteHead(g, s, s')
  }

  ghost predicate IsRun(g: Geometry, run: seq<State>) {
    |run| > 0 && Init(g, run[0]) && forall i :: 0 <= i < |run| - 1 ==> StepAt(g, run, i)
  }

  ghost predicate StepAt(g: Geometry, run: seq<State>, i: nat)
    requires i + 1 < |run|
  {
    Next(g, run[i], run[i + 1])
  }

  // ---- The invariant ------------------------------------------------------------------------

  ghost predicate GroupsOk(g: Geometry, groups: seq<Group>) {
    forall i :: 0 <= i < |groups| ==> groups[i].Valid(g)
  }

  ghost predicate Shape(g: Geometry, base: seq<Block>, s: State) {
    && g.Valid() && |base| == |s.disk| == g.blocks
    && HeaderOk(s.disk, g) && GroupsOk(g, s.committed)
  }

  /** Every home block already holds its committed contents. */
  ghost predicate HomeCurrent(g: Geometry, base: seq<Block>, s: State) {
    Shape(g, base, s) && forall b: nat :: g.Home(b) ==> s.disk[b] == Applied(base, s.committed, b)
  }

  /** Every home block will hold its committed contents once the log is replayed. */
  ghost predicate HomeRecoverable(g: Geometry, base: seq<Block>, s: State) {
    Shape(g, base, s) && forall b: nat :: g.Home(b) ==> Recovered(s.disk, g, b) == Applied(base, s.committed, b)
  }

  /** The first k header entries have been copied home. */
  ghost predicate InstalledUpTo(g: Geometry, disk: seq<Block>, blocks: seq<nat>, k: nat)
    requires g.Valid() && |disk| == g.blocks && k <= |blocks| < g.size
  {
    forall b: nat :: g.Home(b) ==> disk[b] == Latest(blocks[..k], LogData(disk, g, |blocks|)[..k], b, disk[b])
  }

  ghost predicate Inv(g: Geometry, base: seq<Block>, s: State) {
    HomeRecoverable(g, base, s) && PhaseOk(g, s)
  }

  ghost predicate PhaseOk(g: Geometry, s: State)
    requires g.Valid() && |s.disk| == g.blocks && HeaderOk(s.disk, g)
  {
    match s.phase
    case Idle => HeaderCount(s.disk[g.start]) == 0
    case Recovering(blocks, k) =>
      blocks == GetHeader(s.disk[g.start]) && k <= |blocks| && InstalledUpTo(g, s.disk, blocks, k)
    case Logging(group, k) =>
      && HeaderCount(s.disk[g.start]) == 0 && group.Valid(g) && k <= |group.blocks|
      && LogData(s.disk, g, k) == group.data[..k]
    case Installing(group, k) =>
      && group.Valid(g) && group.blocks == GetHeader(s.disk[g.start]) && k <= |group.blocks|
      && InstalledUpTo(g, s.disk, group.blocks, k)
  }

  /** The disk contents that the run's groups are applied to: the initial disk after recovery. */
  ghost function Base(g: Geometry, s: State): (base: seq<Block>)
    requires Init(g, s)
    ensures |base| == |s.disk|
  {
    seq(|s.disk|, b requires 0 <= b < |s.disk| => Recovered(s.disk, g, b))
  }

  lemma InitInv(g: Geometry, s: State)
    requires Init(g, s)
    ensures Inv(g, Base(g, s), s)
  {
  }

  lemma CrashInv(g: Geometry, base: seq<Block>, s: State, s': State)
    requires Inv(g, base, s) && Crash(g, s, s')
    ensures Inv(g, base, s')
  {
  }

  /** Copying entry k changes neither the outcome of a replay nor what is already installed. */
  lemma CopyOne(blocks: seq<nat>, data: seq<Block>, k: nat, b: nat, was: Block, now: Block)
    requires k < |blocks| == |data|
    requires was == Latest(blocks[..k], data[..k], b, was)
    requires now == if b == blocks[k] then data[k] else was
    ensures Latest(blocks, data, b, now) == Latest(blocks, data, b, was)
    ensures now == Latest(blocks[..k + 1], data[..k + 1], b, now)
  {
    LatestForgets(blocks, data, b, was, now);
    LatestStep(blocks, data, k, b, now);
  }

  /** Copying a log block home again never changes what recovery would produce. */
  lemma CopyHome(g: Geometry, disk: seq<Block>, lh: seq<nat>, k: nat, disk': seq<Block>)
    requires g.Valid() && |disk| == g.blocks && HeaderOk(disk, g) && lh == GetHeader(disk[g.start])
    requires k < |lh| && InstalledUpTo(g, disk, lh, k) && disk' == disk[lh[k] := disk[g.start + 1 + k]]
    ensures |disk'| == g.blocks && disk'[g.start] == disk[g.start] && InstalledUpTo(g, disk', lh, k + 1)
    ensures forall b: nat :: g.Home(b) ==> Recovered(disk', g, b) == Recovered(disk, g, b)
  {
    assert g.Home(lh[k]);
    assert disk'[g.start] == disk[g.start];
    var data := LogData(disk, g, |lh|);
    assert LogData(disk', g, |lh|) == data;
    forall b: nat | g.Home(b)
      ensures Recovered(disk', g, b) == Recovered(disk, g, b)
      ensures disk'[b] == Latest(lh[..k + 1], data[..k + 1], b, disk'[b])
    {
      CopyOne(lh, data, k, b, disk[b], disk'[b]);
    }
  }

  lemma InstallInv(g: Geometry, base: seq<Block>, s: State, s': State)
    requires Inv(g, base, s) && Install(g, s, s')
    ensures Inv(g, base, s')
  {
    hide Latest, Applied, HeaderFits, LogData, GroupsOk, PutHeader;
    CopyHome(g, s.disk, s.phase.Copying(), s.phase.k, s'.disk);
  }

  lemma ClearInv(g: Geometry, base: seq<Block>, s: State, s': State)
    requires Inv(g, base, s) && Clear(g, s, s')
    ensures Inv(g, base, s')
  {
    var lh := GetHeader(s.disk[g.start]);
    HeaderRoundTrip(s.disk[g.start], []);
    assert lh[..|lh|] == lh && LogData(s.disk, g, |lh|)[..|lh|] == LogData(s.disk, g, |lh|);
    forall b: nat | g.Home(b) ensures Recovered(s'.disk, g, b) == s.disk[b] == Recovered(s.disk, g, b) {
    }
  }

  lemma LogBlockInv(g: Geometry, base: seq<Block>, s: State, s': State)
    requires Inv(g, base, s) && LogBlock(g, s, s')
    ensures Inv(g, base, s')
  {
    var k, group := s.phase.k, s.phase.group;
    assert s'.disk[g.start] == s.disk[g.start];
    forall b: nat | g.Home(b) ensures Recovered(s'.disk, g, b) == Recovered(s.disk, g, b) {
      assert s'.disk[b] == s.disk[b];
    }
    assert LogData(s'.disk, g, k + 1) == LogData(s.disk, g, k) + [group.data[k]];
    assert group.data[..k + 1] == group.data[..k] + [group.data[k]];
  }

  /** The header write is the commit point: before it recovery ignores the group, after it recovery
      yields the whole group. */
  lemma WriteHeadInv(g: Geometry, base: seq<Block>, s: State, s': State)
    requires Inv(g, base, s) && WriteHead(g, s, s')
    ensures Inv(g, base, s')
  {
    var group := s.phase.group;
    HeaderRoundTrip(s.disk[g.start], group.blocks);
    assert LogData(s'.disk, g, |group.blocks|) == LogData(s.disk, g, |group.blocks|) == group.data[..|group.blocks|];
    assert group.data[..|group.blocks|] == group.data;
    forall b: nat | g.Home(b) ensures Recovered(s'.disk, g, b) == Applied(base, s'.committed, b) {
      assert s'.committed[..|s'.committed| - 1] == s.committed;
      assert Recovered(s.disk, g, b) == s.disk[b] == s'.disk[b];
    }
  }

  /** With an empty header there is nothing to replay. */
  lemma EmptyLogIsCurrent(g: Geometry, base: seq<Block>, s: State)
    requires Inv(g, base, s) && HeaderCount(s.disk[g.start]) == 0
    ensures HomeCurrent(g, base, s)
  {
    forall b: nat | g.Home(b) ensures s.disk[b] == Applied(base, s.committed, b) {
      assert Recovered(s.disk, g, b) == s.disk[b];
    }
  }

  lemma NextInv(g: Geometry, base: seq<Block>, s: State, s': State)
    requires Inv(g, base, s) && Next(g, s, s')
    ensures Inv(g, base, s')
  {
    if Crash(g, s, s') { CrashInv(g, base, s, s'); }
    else if Install(g, s, s') { InstallInv(g, base, s, s'); }
    else if Clear(g, s, s') { ClearInv(g, base, s, s'); }
    else if LogBlock(g, s, s') { LogBlockInv(g, base, s, s'); }
    else if WriteHead(g, s, s') { WriteHeadInv(g, base, s, s'); }
  }

  lemma {:induction false} RunInv(g: Geometry, run: seq<State>, i: nat)
    requires IsRun(g, run) && i < |run|
    ensures Inv(g, Base(g, run[0]), run[i])
  {
    if i == 0 {
      InitInv(g, run[0]);
    } else {
      RunInv(g, run, i - 1);
      assert StepAt(g, run, i - 1);
      NextInv(g, Base(g, run[0]), run[i - 1], run[i]);
    }
  }

  // ---- Main results -------------------------------------------------------------------------

  /** Crash atomicity.  At every point of every run, with crashes anywhere, recovering the disk gives
      exactly the groups whose header write reached the disk, each applied whole and in order; and
      whenever the log is idle the home blocks already hold those contents. */
  lemma CrashAtomicity(g: Geometry, run: seq<State>, i: nat)
    requires IsRun(g, run) && i < |run|
    ensures HomeRecoverable(g, Base(g, run[0]), run[i])
    ensures run[i].phase.Idle? || run[i].phase.Logging? ==> HomeCurrent(g, Base(g, run[0]), run[i])
  {
    RunInv(g, run, i);
    if run[i].phase.Idle? || run[i].phase.Logging? {
      EmptyLogIsCurrent(g, Base(g, run[0]), run[i]);
    }
  }

  /** Durability: once a group's header write reached the disk the group is never lost, and no crash or
      recovery step adds or reorders groups. */
  lemma {:induction false} CommittedGrows(g: Geometry, run: seq<State>, i: nat, j: nat)
    requires IsRun(g, run) && i <= j < |run|
    ensures run[i].committed <= run[j].committed
    decreases j - i
  {
    if i < j {
      CommittedGrows(g, run, i, j - 1);
      assert StepAt(g, run, j - 1);
    }
  }

  lemma Extend(g: Geometry, run: seq<State>, s: State)
    requires IsRun(g, run) && Next(g, run[|run| - 1], s)
    ensures IsRun(g, run + [s])
  {
    forall i: nat | i < |run| ensures StepAt(g, run + [s], i) {
      assert i < |run| - 1 ==> StepAt(g, run, i);
    }
  }

  /** What a recovery that is not interrupted does next: one more copy, or the final header write. */
  lemma RecoveryStep(g: Geometry, base: seq<Block>, s: State) returns (t: State)
    requires Inv(g, base, s) && s.phase.Recovering?
    ensures Next(g, s, t) && t.committed == s.committed
    ensures if s.phase.k < |s.phase.blocks| then t.phase == s.phase.Advance() else t.phase.Idle?
  {
    var lh, k := s.phase.blocks, s.phase.k;
    if k < |lh| {
      assert g.Home(lh[k]);
      t := State(s.disk[lh[k] := s.disk[g.start + 1 + k]], s.phase.Advance(), s.committed);
      assert Install(g, s, t);
    } else {
      t := State(s.disk[g.start := PutHeader(s.disk[g.start], [])], Idle, s.committed);
      assert Clear(g, s, t);
    }
  }

  lemma {:induction false} Replay(g: Geometry, run: seq<State>) returns (more: seq<State>)
    requires IsRun(g, run) && run[|run| - 1].phase.Recovering?
    ensures run < more && IsRun(g, more) && more[|more| - 1].phase.Idle?
    ensures more[|more| - 1].committed == run[|run| - 1].committed
    decreases |run[|run| - 1].phase.blocks| - run[|run| - 1].phase.k
  {
    hide Inv, Next, Init;
    RunInv(g, run, |run| - 1);
    var t := RecoveryStep(g, Base(g, run[0]), run[|run| - 1]);
    Extend(g, run, t);
    more := run + [t];
    if t.phase.Recovering? {
      more := Replay(g, more);
    }
  }

  lemma HeaderCounts(g: Geometry, run: seq<State>)
    requires IsRun(g, run)
    ensures var s := run[|run| - 1]; g.start < |s.disk| && HeaderCount(s.disk[g.start]) <= LOGSIZE
  {
    RunInv(g, run, |run| - 1);
  }

  /** From any point of any run, a crash followed by one uninterrupted recovery reaches an idle log
      whose home blocks are exactly the groups committed before the crash. */
  lemma RecoveryCompletes(g: Geometry, run: seq<State>) returns (more: seq<State>)
    requires IsRun(g, run)
    ensures run < more && IsRun(g, more) && more[|more| - 1].phase.Idle?
    ensures more[|more| - 1].committed == run[|run| - 1].committed
    ensures HomeCurrent(g, Base(g, run[0]), more[|more| - 1])
  {
    hide Inv, Init, StepAt, Applied, HomeRecoverable;
    var s := run[|run| - 1];
    HeaderCounts(g, run);
    var t := s.(phase := Recovering(GetHeader(s.disk[g.start]), 0));
    assert Crash(g, s, t);
    Extend(g, run, t);
    more := Replay(g, run + [t]);
    CrashAtomicity(g, more, |more| - 1);
  }
}
