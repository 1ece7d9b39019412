/**
 Every interleaving of file-system operations over the log, with crashes anywhere.
 Processes enter through begin_op, modify buffers, call log_write and leave through end_op;
 the last one to leave commits, one disk write per step. A crash may follow any step,
 including each write of a commit or of a recovery. A buffer may also be modified and
 released without log_write, which is what writei does when it cannot read its source.
 */
module LogProtocol {
  import opened Bytes
  import opened RedoLog
  import opened LogDriver

  type Tid = nat

  /** The history of the operations' logged writes, bracketed by begin_op and end_op. */
  datatype Event = Begin(t: Tid) | Logs(t: Tid, b: uint32, data: Block) | End(t: Tid)

  datatype Phase =
    | Running
    | Committing(base: Disk, data: seq<Block>, k: nat) // k writes of commit() done, started on `base`
    | Recovering(base: Disk, k: nat)                   // k writes of recover_from_log() done

  datatype State = State(
    disk: Disk,
    cache: Cache,               // valid buffers of home blocks
    dirty: map<uint32, Tid>,    // buffers modified but not yet given to log_write, by their holder
    torn: map<uint32, Block>,   // what the cache shows where it differs from the logged writes
    stray: map<uint32, Block>,  // what the recovered disk holds where it differs from them
    lh: seq<uint32>,
    outstanding: int,
    committing: bool,
    phase: Phase,
    ops: map<Tid, nat>,         // open operations and how many blocks each has appended to lh
    sleepers: set<Tid>,         // asleep in begin_op
    events: seq<Event>,
    cut: nat)                   // events[..cut] are durable

  datatype Params = Params(start: nat, init: Disk)

  // ----- the abstract disk -----

  /** The atomic disk: logged writes take effect in order, and nothing else does. */
  function Replay(d: Disk, es: seq<Event>): (r: Disk)
    ensures |r| == |d|
  {
    if es == [] then d else
      var r := Replay(d, es[..|es| - 1]);
      match es[|es| - 1]
      case Logs(_, b, data) => if b < |r| then r[b := data] else r
      case _ => r
  }

  /** Operations begun and not ended. */
  function Open(es: seq<Event>): (ts: set<Tid>) {
    if es == [] then {} else
      var ts := Open(es[..|es| - 1]);
      match es[|es| - 1]
      case Begin(t) => ts + {t}
      case End(t) => ts - {t}
      case Logs(_, _, _) => ts
  }

  lemma Snoc(d: Disk, es: seq<Event>, e: Event)
    ensures (es + [e])[..|es|] == es
    ensures Replay(d, es + [e]) ==
      if e.Logs? && e.b < |d| then Replay(d, es)[e.b := e.data] else Replay(d, es)
    ensures Open(es + [e]) ==
      if e.Begin? then Open(es) + {e.t} else if e.End? then Open(es) - {e.t} else Open(es)
  {
    assert (es + [e])[..|es + [e]| - 1] == es;
  }

  /** The abstract disk with some blocks replaced. */
  ghost function Overlay(d: Disk, m: map<uint32, Block>): (r: Disk)
    ensures |r| == |d| && forall b :: 0 <= b < |d| ==> r[b] == if b in m then m[b] else d[b]
  {
    seq(|d|, b requires 0 <= b < |d| => if b in m then m[b] else d[b])
  }

  /** The recovered disk after a commit: a torn buffer is copied home exactly when its block is in the log. */
  function Strayed(stray: map<uint32, Block>, torn: map<uint32, Block>, lh: seq<uint32>): (m: map<uint32, Block>)
    ensures forall b :: b in m <==> if b in lh then b in torn else b in stray
    ensures forall b :: b in m ==> m[b] == if b in lh then torn[b] else stray[b]
  {
    map b | b in stray.Keys + torn.Keys && (if b in lh then b in torn else b in stray) ::
      if b in lh then torn[b] else stray[b]
  }

  // ----- log space reservations -----

  ghost function Sum(m: map<Tid, nat>): (n: nat)
    decreases |m|
  {
    if m == map[] then 0 else var t :| t in m; m[t] + Sum(m - {t})
  }

  lemma {:induction false} SumRemove(m: map<Tid, nat>, t: Tid)
    requires t in m
    ensures Sum(m) == m[t] + Sum(m - {t})
    decreases |m|
  {
    var x :| x in m && Sum(m) == m[x] + Sum(m - {x});
    if t != x {
      SumRemove(m - {x}, t);
      SumRemove(m - {t}, x);
      assert (m - {x}) - {t} == (m - {t}) - {x};
    }
  }

  lemma SumUpdate(m: map<Tid, nat>, t: Tid, n: nat)
    ensures Sum(m[t := n]) == n + Sum(m - {t})
    ensures t !in m ==> m - {t} == m
  {
    SumRemove(m[t := n], t);
    assert m[t := n] - {t} == m - {t};
  }

  lemma {:induction false} SumBound(m: map<Tid, nat>)
    requires forall t :: t in m ==> m[t] <= MAXOPBLOCKS
    ensures Sum(m) <= |m| * MAXOPBLOCKS
    decreases |m|
  {
    if m != map[] {
      var x :| x in m;
      SumRemove(m, x);
      SumBound(m - {x});
      assert (m - {x}).Keys == m.Keys - {x};
    }
  }

  // ----- steps -----

  predicate Init(p: Params, s: State) {
    && ValidLog(p.init, p.start) && HeadCount(p.init[p.start]) == 0
    && s == State(p.init, map[], map[], map[], map[], [], 0, false, Running, map[], {}, [], 0)
  }

  /** begin_op's test. */
  predicate Admits(s: State) {
    !s.committing && |s.lh| + (s.outstanding + 1) * MAXOPBLOCKS <= LOGBLOCKS
  }

  /** One critical section of begin_op: enter the operation, or go to sleep on the log. */
  predicate BeginOp(p: Params, s: State, s': State, t: Tid) {
    && !s.phase.Recovering? && t !in s.ops && t !in s.sleepers
    && s' == if Admits(s)
             then s.(outstanding := s.outstanding + 1, ops := s.ops[t := 0], events := s.events + [Begin(t)])
             else s.(sleepers := s.sleepers + {t})
  }

  /** A process inside an operation changes a buffer it has locked. */
  predicate Modify(p: Params, s: State, s': State, t: Tid, b: uint32, data: Block) {
    && t in s.ops && b < |s.disk| && !InLog(p.start, b) && (b in s.dirty ==> s.dirty[b] == t)
    && s' == s.(cache := s.cache[b := data], dirty := s.dirty[b := t])
  }

  /** A modified buffer is released without log_write: a copy from user memory failed part-way. */
  predicate Tear(p: Params, s: State, s': State, t: Tid, b: uint32) {
    && t in s.ops && b in s.dirty && s.dirty[b] == t && b in s.cache
    && s' == s.(dirty := s.dirty - {b}, torn := s.torn[b := s.cache[b]])
  }

  /** log_write(b) with room in the log. */
  predicate LogWrite(p: Params, s: State, s': State, t: Tid, b: uint32) {
    && CallsLogWrite(p, s, t, b) && !LogWritePanics(s)
    && (b in s.lh || s.ops[t] < MAXOPBLOCKS)
    && s' == s.(lh := Absorb(s.lh, b),
                dirty := s.dirty - {b}, torn := s.torn - {b},
                ops := if b in s.lh then s.ops else s.ops[t := s.ops[t] + 1],
                events := s.events + [Logs(t, b, s.cache[b])])
  }

  predicate CallsLogWrite(p: Params, s: State, t: Tid, b: uint32) {
    t in s.ops && b in s.cache && b < |s.disk| && !InLog(p.start, b) && (b in s.dirty ==> s.dirty[b] == t)
  }

  predicate LogWritePanics(s: State) {
    |s.lh| >= LOGBLOCKS || s.outstanding < 1
  }

  /**
   end_op's critical section: the last operation out starts the commit, others wake sleepers.
   No buffer is held by now.
   */
  predicate EndOp(p: Params, s: State, s': State, t: Tid) {
    && t in s.ops && (forall b :: b in s.dirty ==> s.dirty[b] != t)
    && ValidTargets(s.disk, p.start, s.lh)
    && var left := s.(outstanding := s.outstanding - 1, ops := s.ops - {t}, events := s.events + [End(t)]);
       s' == if s.outstanding - 1 == 0
             then left.(committing := true,
                        phase := Committing(s.disk, LoggedData(s.cache, s.disk, p.start, s.lh), 0))
             else left.(sleepers := {})
  }

  predicate EndOpPanics(s: State) {
    s.committing
  }

  /** The next disk write of commit(). */
  predicate CommitWrite(p: Params, s: State, s': State) {
    && s.phase.Committing? && Fits(s.phase.base, p.start) && |s.lh| == |s.phase.data| <= LOGBLOCKS
    && var ws := CommitWrites(s.phase.base, p.start, s.lh, s.phase.data);
       var k := s.phase.k;
       && k < |ws| && ws[k].bno < |s.disk|
       && s' == s.(disk := s.disk[ws[k].bno := ws[k].data],
                   phase := Committing(s.phase.base, s.phase.data, k + 1),
                   cut := if k == |s.lh| then |s.events| else s.cut,
                   stray := if k == |s.lh| then Strayed(s.stray, s.torn, s.lh) else s.stray)
  }

  /** commit() has returned: end_op clears committing and wakes everyone. */
  predicate CommitDone(p: Params, s: State, s': State) {
    && s.phase.Committing? && Fits(s.phase.base, p.start) && |s.lh| == |s.phase.data| <= LOGBLOCKS
    && s.phase.k == |CommitWrites(s.phase.base, p.start, s.lh, s.phase.data)|
    && s' == s.(lh := [], committing := false, phase := Running, sleepers := {}, cut := |s.events|)
  }

  /** A buffer is filled from the disk. */
  predicate Fill(p: Params, s: State, s': State, b: nat) {
    && !s.phase.Recovering? && b !in s.cache && b < |s.disk| && !InLog(p.start, b)
    && s' == s.(cache := s.cache[b := s.disk[b]])
  }

  /** A buffer is recycled; the log pins its blocks until install_trans has copied them home. */
  predicate Evict(p: Params, s: State, s': State, b: nat) {
    && b in s.cache && b !in s.dirty && !Pinned(s, b)
    && s' == s.(cache := s.cache - {b}, torn := if b in s.stray then s.torn[b := s.stray[b]] else s.torn - {b})
  }

  predicate Pinned(s: State, b: nat) {
    exists i :: 0 <= i < |s.lh| && s.lh[i] == b && !(s.phase.Committing? && CopiedHome(s.lh, s.phase.k, i))
  }

  /** After k writes of commit(), log block i has been written to its home. */
  predicate CopiedHome(lh: seq<uint32>, k: nat, i: nat) {
    |lh| + 1 + i < k
  }

  /** The machine stops: memory is lost, and with it every operation that is not durable. */
  predicate Crash(p: Params, s: State, s': State) {
    && s.cut <= |s.events|
    && s' == State(s.disk, map[], map[], s.stray, s.stray, [], 0, false, Recovering(s.disk, 0), map[], {},
                   s.events[..s.cut], s.cut)
  }

  predicate RecoveryWrite(p: Params, s: State, s': State) {
    && s.phase.Recovering? && ValidLog(s.phase.base, p.start)
    && var ws := RecoveryWrites(s.phase.base, p.start);
       var k := s.phase.k;
       && k < |ws| && ws[k].bno < |s.disk|
       && s' == s.(disk := s.disk[ws[k].bno := ws[k].data], phase := Recovering(s.phase.base, k + 1))
  }

  predicate RecoveryDone(p: Params, s: State, s': State) {
    && s.phase.Recovering? && ValidLog(s.phase.base, p.start)
    && s.phase.k == |RecoveryWrites(s.phase.base, p.start)|
    && s' == s.(phase := Running)
  }

  datatype Step =
    | BeginStep(t: Tid) | ModifyStep(t: Tid, b: uint32, data: Block) | TearStep(t: Tid, b: uint32)
    | LogStep(t: Tid, b: uint32) | EndStep(t: Tid)
    | CommitWriteStep | CommitDoneStep | FillStep(n: nat) | EvictStep(n: nat)
    | CrashStep | RecoveryWriteStep | RecoveryDoneStep

  predicate NextBy(p: Params, s: State, s': State, step: Step) {
    match step
    case BeginStep(t) => BeginOp(p, s, s', t)
    case ModifyStep(t, b, data) => Modify(p, s, s', t, b, data)
    case TearStep(t, b) => Tear(p, s, s', t, b)
    case LogStep(t, b) => LogWrite(p, s, s', t, b)
    case EndStep(t) => EndOp(p, s, s', t)
    case CommitWriteStep => CommitWrite(p, s, s')
    case CommitDoneStep => CommitDone(p, s, s')
    case FillStep(b) => Fill(p, s, s', b)
    case EvictStep(b) => Evict(p, s, s', b)
    case CrashStep => Crash(p, s, s')
    case RecoveryWriteStep => RecoveryWrite(p, s, s')
    case RecoveryDoneStep => RecoveryDone(p, s, s')
  }

  ghost predicate Next(p: Params, s: State, s': State) {
    exists step :: NextBy(p, s, s', step)
  }

  ghost predicate Run(p: Params, run: seq<State>) {
    && |run| > 0 && Init(p, run[0])
    && forall i :: 0 <= i < |run| - 1 ==> Next(p, run[i], run[i + 1])
  }

  // ----- the invariant -----

  predicate Shape(p: Params, s: State) {
    |s.disk| == |p.init| && Fits(p.init, p.start) && s.cut <= |s.events|
  }

  /** Operation counts and log space. */
  ghost predicate CtlInv(p: Params, s: State) {
    && s.outstanding == |s.ops|
    && (s.committing <==> s.phase.Committing?)
    && (!s.phase.Running? ==> s.ops == map[])
    && (s.phase.Recovering? ==>
        s.lh == [] && s.sleepers == {} && s.cache == map[] && s.dirty == map[] && s.torn == s.stray)
    && (s.phase.Running? && s.ops == map[] ==> s.lh == [] && s.cut == |s.events|)
    && (s.sleepers != {} ==> s.committing || s.outstanding > 0)
    && (forall t :: t in s.ops ==> s.ops[t] <= MAXOPBLOCKS)
    && |s.lh| + |s.ops| * MAXOPBLOCKS - Sum(s.ops) <= LOGBLOCKS
    && Shape(p, s)
    && ValidTargets(p.init, p.start, s.lh)
    && Open(s.events) == s.ops.Keys
    && Open(s.events[..s.cut]) == {}
  }

  /** Outside recovery, the cache over the disk shows the logged writes so far, but for the torn blocks. */
  predicate CacheInv(p: Params, s: State)
    requires Shape(p, s)
  {
    && (forall b :: b in s.dirty ==> b in s.cache && s.dirty[b] in s.ops)
    && (forall b :: b in s.cache ==> b < |s.disk| && !InLog(p.start, b))
    && (forall i :: 0 <= i < |s.lh| ==>
          s.lh[i] in s.cache || (s.phase.Committing? && CopiedHome(s.lh, s.phase.k, i)))
    && (!s.phase.Recovering? ==>
          forall b :: 0 <= b < |s.disk| && !InLog(p.start, b) && b !in s.dirty ==>
            View(s.cache, s.disk, b) == Look(Replay(p.init, s.events), s.torn, b))
  }

  function Look(d: Disk, m: map<uint32, Block>, b: nat): Block
    requires b < |d|
  {
    if b in m then m[b] else d[b]
  }

  /** What was logged since the last commit is in the log. */
  predicate LateInv(p: Params, s: State)
    requires Shape(p, s)
  {
    !s.phase.Recovering? ==>
      forall b :: 0 <= b < |s.disk| && b !in s.lh ==>
        Replay(p.init, s.events)[b] == Replay(p.init, s.events[..s.cut])[b]
  }

  /** What a crash would leave: the abstract disk at the durable cut, but for the stray blocks. */
  ghost predicate DiskInv(p: Params, s: State)
    requires Shape(p, s)
  {
    match s.phase
    case Running =>
      Fits(s.disk, p.start) && HeadCount(s.disk[p.start]) == 0 && HomeEq(p.start, s.disk, Durable(p, s))
    case Committing(base, data, k) =>
      && CommitOk(p.start, s.disk, s.lh, base, data, k)
      && (k <= |s.lh| ==> HomeEq(p.start, base, Durable(p, s)))
      && (k > |s.lh| ==> s.cut == |s.events|)
      && HomeEq(p.start, Installed(base, p.start, s.lh, data), Overlay(Replay(p.init, s.events), Coming(s)))
    case Recovering(base, k) =>
      && |base| == |s.disk| && ValidLog(base, p.start) && k <= |RecoveryWrites(base, p.start)|
      && s.disk == Apply(base, RecoveryWrites(base, p.start)[..k])
      && s.cut == |s.events|
      && HomeEq(p.start, Recover(base, p.start), Durable(p, s))
  }

  /** The writes logged up to the durable cut, and the stray blocks. */
  ghost function Durable(p: Params, s: State): (d: Disk)
    requires s.cut <= |s.events|
    ensures |d| == |p.init|
  {
    Overlay(Replay(p.init, s.events[..s.cut]), s.stray)
  }

  /** k writes of a commit that started on base are on the disk. */
  predicate CommitOk(start: nat, disk: Disk, lh: seq<uint32>, base: Disk, data: seq<Block>, k: nat) {
    && |base| == |disk| && Fits(base, start) && HeadCount(base[start]) == 0
    && ValidTargets(base, start, lh) && |lh| == |data|
    && WritesFit(base, CommitWrites(base, start, lh, data))
    && k <= |CommitWrites(base, start, lh, data)|
    && disk == Apply(base, CommitWrites(base, start, lh, data)[..k])
  }

  /** The stray blocks once the commit has taken effect. */
  function Coming(s: State): map<uint32, Block> {
    if s.phase.Committing? && s.phase.k <= |s.lh| then Strayed(s.stray, s.torn, s.lh) else s.stray
  }

  ghost predicate Inv(p: Params, s: State) {
    CtlInv(p, s) && Distinct(s.lh) && CacheInv(p, s) && LateInv(p, s) && DiskInv(p, s)
  }

  // ----- preservation -----

  lemma InitInv(p: Params, s: State)
    requires Init(p, s)
    ensures Inv(p, s)
  {
    assert s.events[..s.cut] == [];
  }

  /** Appending an event that logs nothing changes neither disk. */
  lemma QuietEvent(p: Params, s: State, e: Event)
    requires s.cut <= |s.events| && !e.Logs?
    ensures Replay(p.init, s.events + [e]) == Replay(p.init, s.events)
    ensures (s.events + [e])[..s.cut] == s.events[..s.cut]
  {
    Snoc(p.init, s.events, e);
  }

  /** Steps between commits leave the disk alone. */
  lemma DiskStays(p: Params, s: State, s': State)
    requires Shape(p, s) && Shape(p, s') && DiskInv(p, s) && s.phase.Running? && s'.phase.Running?
    requires s'.disk == s.disk && s'.stray == s.stray && s'.cut == s.cut && s'.events[..s.cut] == s.events[..s.cut]
    ensures DiskInv(p, s')
  {
    hide Replay, Overlay, HomeEq, HeadCount;
  }

  /** Steps that change neither history nor log. */
  lemma LateStays(p: Params, s: State, s': State)
    requires Shape(p, s) && Shape(p, s') && LateInv(p, s) && |s'.disk| == |s.disk| && s'.lh == s.lh && s'.cut == s.cut
    requires s'.phase.Recovering? || !s.phase.Recovering?
    requires Replay(p.init, s'.events) == Replay(p.init, s.events) && s'.events[..s.cut] == s.events[..s.cut]
    ensures LateInv(p, s')
  {
    hide Replay;
  }

  lemma BeginCtl(p: Params, s: State, s': State, t: Tid)
    requires CtlInv(p, s) && BeginOp(p, s, s', t)
    ensures CtlInv(p, s')
  {
    hide Replay;
    if Admits(s) {
      Snoc(p.init, s.events, Begin(t));
      QuietEvent(p, s, Begin(t));
      SumUpdate(s.ops, t, 0);
      assert t in s'.ops;
    } else {
      SumBound(s.ops);
    }
  }

  lemma BeginCache(p: Params, s: State, s': State, t: Tid)
    requires Shape(p, s) && Shape(p, s') && CacheInv(p, s) && BeginOp(p, s, s', t)
    requires Replay(p.init, s'.events) == Replay(p.init, s.events)
    ensures CacheInv(p, s')
  {
    hide Replay;
  }

  lemma SleepDisk(p: Params, s: State, s': State, ts: set<Tid>)
    requires Shape(p, s) && Shape(p, s') && DiskInv(p, s) && s' == s.(sleepers := ts)
    ensures DiskInv(p, s')
  {
    hide Replay, Overlay, HomeEq, CommitOk, Installed, Recover, RecoveryWrites, Apply, ValidLog, Strayed;
  }

  lemma BeginInv(p: Params, s: State, s': State, t: Tid)
    requires Inv(p, s) && BeginOp(p, s, s', t)
    ensures Inv(p, s')
  {
    hide CacheInv, LateInv, DiskInv, Replay;
    BeginCtl(p, s, s', t);
    QuietEvent(p, s, Begin(t));
    BeginCache(p, s, s', t);
    LateStays(p, s, s');
    if Admits(s) {
      DiskStays(p, s, s');
    } else {
      SleepDisk(p, s, s', s'.sleepers);
    }
  }

  lemma ModifyCache(p: Params, s: State, s': State, t: Tid, b: uint32, data: Block)
    requires Shape(p, s) && CacheInv(p, s) && Modify(p, s, s', t, b, data)
    ensures CacheInv(p, s')
  {
    hide Replay;
  }

  lemma ModifyInv(p: Params, s: State, s': State, t: Tid, b: uint32, data: Block)
    requires Inv(p, s) && Modify(p, s, s', t, b, data)
    ensures Inv(p, s')
  {
    hide CacheInv, LateInv, DiskInv, Replay;
    ModifyCache(p, s, s', t, b, data);
    LateStays(p, s, s');
    DiskStays(p, s, s');
  }

  lemma TearCache(p: Params, s: State, s': State, t: Tid, b: uint32)
    requires Shape(p, s) && CacheInv(p, s) && Tear(p, s, s', t, b)
    ensures CacheInv(p, s')
  {
    hide Replay;
  }

  lemma TearInv(p: Params, s: State, s': State, t: Tid, b: uint32)
    requires Inv(p, s) && Tear(p, s, s', t, b)
    ensures Inv(p, s')
  {
    hide CacheInv, LateInv, DiskInv, Replay;
    TearCache(p, s, s', t, b);
    LateStays(p, s, s');
    DiskStays(p, s, s');
  }

  lemma LogCtl(p: Params, s: State, s': State, t: Tid, b: uint32)
    requires CtlInv(p, s) && LogWrite(p, s, s', t, b)
    ensures CtlInv(p, s') && s'.events[..s'.cut] == s.events[..s.cut]
  {
    hide Replay, Absorb;
    Snoc(p.init, s.events, Logs(t, b, s.cache[b]));
    assert s'.events[..s'.cut] == s.events[..s.cut];
    AbsorbTargets(p, s.lh, b);
    if b !in s.lh {
      SumUpdate(s.ops, t, s.ops[t] + 1);
      SumRemove(s.ops, t);
      assert s'.ops.Keys == s.ops.Keys;
      assert |s'.ops.Keys| == |s.ops.Keys|;
    }
  }

  lemma AbsorbTargets(p: Params, lh: seq<uint32>, b: uint32)
    requires ValidTargets(p.init, p.start, lh) && b < |p.init| && !InLog(p.start, b) && |lh| < LOGBLOCKS
    ensures ValidTargets(p.init, p.start, Absorb(lh, b))
    ensures |Absorb(lh, b)| == if b in lh then |lh| else |lh| + 1
  {
  }

  lemma LogCache(p: Params, s: State, s': State, t: Tid, b: uint32)
    requires Shape(p, s) && CacheInv(p, s) && s.phase.Running? && LogWrite(p, s, s', t, b)
    ensures CacheInv(p, s')
  {
    hide Replay;
    Snoc(p.init, s.events, Logs(t, b, s.cache[b]));
    forall i | 0 <= i < |s'.lh| ensures s'.lh[i] in s'.cache {
    }
  }

  lemma LogLate(p: Params, s: State, s': State, t: Tid, b: uint32)
    requires Shape(p, s) && LateInv(p, s) && s.phase.Running? && LogWrite(p, s, s', t, b)
    requires s'.events[..s'.cut] == s.events[..s.cut]
    ensures LateInv(p, s')
  {
    hide Replay;
    Snoc(p.init, s.events, Logs(t, b, s.cache[b]));
  }

  lemma LogInv(p: Params, s: State, s': State, t: Tid, b: uint32)
    requires Inv(p, s) && LogWrite(p, s, s', t, b)
    ensures Inv(p, s')
  {
    hide CacheInv, LateInv, DiskInv, Replay;
    LogCtl(p, s, s', t, b);
    LogCache(p, s, s', t, b);
    LogLate(p, s, s', t, b);
    DiskStays(p, s, s');
  }

  /** An operation that has appended fewer than MAXOPBLOCKS blocks always finds room. */
  lemma LogHasRoom(p: Params, s: State, t: Tid)
    requires CtlInv(p, s) && t in s.ops && s.ops[t] < MAXOPBLOCKS
    ensures !LogWritePanics(s)
  {
    SumRemove(s.ops, t);
    var rest := s.ops - {t};
    SumBound(rest);
    assert rest.Keys == s.ops.Keys - {t};
    assert |rest| == |s.ops| - 1;
  }

  lemma EndCtl(p: Params, s: State, s': State, t: Tid)
    requires CtlInv(p, s) && EndOp(p, s, s', t)
    ensures CtlInv(p, s')
  {
    hide Sum, LoggedData, Open, ValidTargets, Fits;
    EndEvents(p, s, t);
    OneLess(s.ops, t);
    assert s'.ops == s.ops - {t} && s'.events == s.events + [End(t)] && s'.cut == s.cut && s'.lh == s.lh;
  }

  lemma EndEvents(p: Params, s: State, t: Tid)
    requires s.cut <= |s.events|
    ensures (s.events + [End(t)])[..s.cut] == s.events[..s.cut] && Open(s.events + [End(t)]) == Open(s.events) - {t}
  {
    hide Replay;
    Snoc(p.init, s.events, End(t));
    QuietEvent(p, s, End(t));
  }

  lemma OneLess(ops: map<Tid, nat>, t: Tid)
    requires t in ops
    ensures (ops - {t}).Keys == ops.Keys - {t} && |ops - {t}| == |ops| - 1
    ensures |ops - {t}| == 0 ==> ops - {t} == map[]
    ensures Sum(ops - {t}) == Sum(ops) - ops[t]
  {
    SumRemove(ops, t);
    assert (ops - {t}).Keys == ops.Keys - {t};
  }

  lemma EndCache(p: Params, s: State, s': State, t: Tid)
    requires Shape(p, s) && Shape(p, s') && CacheInv(p, s) && s.phase.Running? && EndOp(p, s, s', t)
    requires Replay(p.init, s'.events) == Replay(p.init, s.events)
    ensures CacheInv(p, s')
    ensures s'.ops == map[] ==> s.dirty == map[]
  {
    hide Replay, Fits, ValidTargets, LoggedData;
    forall b | b in s.dirty ensures s.dirty[b] in s'.ops {
    }
  }

  /** Committing now would put on disk exactly the writes logged so far, and the torn buffers of blocks in the log. */
  lemma CommitTarget(p: Params, s: State)
    requires Shape(p, s) && CacheInv(p, s) && LateInv(p, s) && DiskInv(p, s) && s.phase.Running? && s.dirty == map[]
    requires Distinct(s.lh)
    requires ValidTargets(s.disk, p.start, s.lh)
    ensures HomeEq(p.start, Installed(s.disk, p.start, s.lh, LoggedData(s.cache, s.disk, p.start, s.lh)),
                   Overlay(Replay(p.init, s.events), Strayed(s.stray, s.torn, s.lh)))
  {
    hide Replay, Strayed;
    var data := LoggedData(s.cache, s.disk, p.start, s.lh);
    InstalledBlocks(s.disk, p.start, s.lh, data);
    forall b | 0 <= b < |s.disk| && !InLog(p.start, b)
      ensures Installed(s.disk, p.start, s.lh, data)[b] ==
        Overlay(Replay(p.init, s.events), Strayed(s.stray, s.torn, s.lh))[b]
    {
      if b in s.lh {
        var i :| 0 <= i < |s.lh| && s.lh[i] == b;
        assert data[i] == View(s.cache, s.disk, b);
      }
    }
  }

  lemma EndDisk(p: Params, s: State, s': State, t: Tid)
    requires Shape(p, s) && CacheInv(p, s) && LateInv(p, s) && DiskInv(p, s) && s.phase.Running? && Distinct(s.lh)
    requires EndOp(p, s, s', t) && Shape(p, s') && s'.phase.Committing? && s.dirty == map[]
    ensures DiskInv(p, s')
  {
    hide Replay, Installed, CacheInv, LateInv, Strayed, Overlay, HomeEq, CommitWrites, LoggedData;
    QuietEvent(p, s, End(t));
    var data := s'.phase.data;
    CommitWritesFit(s.disk, p.start, s.lh, data);
    CommitTarget(p, s);
    assert CommitWrites(s.disk, p.start, s.lh, data)[..0] == [];
  }

  lemma EndInv(p: Params, s: State, s': State, t: Tid)
    requires Inv(p, s) && EndOp(p, s, s', t)
    ensures Inv(p, s')
  {
    hide CacheInv, LateInv, DiskInv, Replay, LoggedData;
    EndCtl(p, s, s', t);
    QuietEvent(p, s, End(t));
    EndCache(p, s, s', t);
    LateStays(p, s, s');
    if s'.phase.Committing? {
      EndDisk(p, s, s', t);
    } else {
      DiskStays(p, s, s');
    }
  }

  /** Writes of commit() never touch a home block that is not logged. */
  lemma CommitKeeps(base: Disk, start: nat, lh: seq<uint32>, data: seq<Block>, k: nat, b: nat)
    requires Fits(base, start) && |lh| == |data| <= LOGBLOCKS
    requires k <= |CommitWrites(base, start, lh, data)| && b < |base| && !InLog(start, b) && b !in lh
    requires WritesFit(base, CommitWrites(base, start, lh, data))
    ensures Apply(base, CommitWrites(base, start, lh, data)[..k])[b] == base[b]
  {
    ApplyFrame(base, CommitWrites(base, start, lh, data)[..k], b);
  }

  /** A block copied home holds its logged data for the rest of the commit. */
  lemma CommitCopied(base: Disk, start: nat, lh: seq<uint32>, data: seq<Block>, k: nat, i: nat)
    requires Fits(base, start) && ValidTargets(base, start, lh) && |lh| == |data| && Distinct(lh)
    requires k <= |CommitWrites(base, start, lh, data)| && i < |lh| && CopiedHome(lh, k, i)
    requires WritesFit(base, CommitWrites(base, start, lh, data))
    ensures Apply(base, CommitWrites(base, start, lh, data)[..k])[lh[i]] == data[i]
  {
    var ws := CommitWrites(base, start, lh, data);
    var j := |lh| + 1 + i;
    assert ws[j] == Write(lh[i], data[i]);
    assert ws[..k] == ws[..j + 1] + ws[j + 1..k];
    ApplyAppend(base, ws[..j + 1], ws[j + 1..k]);
    ApplyNext(base, ws, j);
    var rest := ws[j + 1..k];
    forall m | 0 <= m < |rest| ensures rest[m].bno != lh[i] {
      assert rest[m] == ws[j + 1 + m];
    }
    ApplyFrame(Apply(base, ws[..j + 1]), rest, lh[i]);
  }

  lemma CommitOkNext(start: nat, disk: Disk, lh: seq<uint32>, base: Disk, data: seq<Block>, k: nat)
    requires CommitOk(start, disk, lh, base, data, k) && k < |CommitWrites(base, start, lh, data)|
    ensures var w := CommitWrites(base, start, lh, data)[k];
      w.bno < |disk| && CommitOk(start, disk[w.bno := w.data], lh, base, data, k + 1)
  {
    ApplyNext(base, CommitWrites(base, start, lh, data), k);
  }

  lemma CommitWriteDisk(p: Params, s: State, s': State)
    requires Shape(p, s) && DiskInv(p, s) && CommitWrite(p, s, s')
    ensures Shape(p, s') && DiskInv(p, s')
  {
    hide Replay, Installed, Strayed, Overlay, HomeEq, CommitWrites, CommitOk;
    CommitOkNext(p.start, s.disk, s.lh, s.phase.base, s.phase.data, s.phase.k);
  }

  /** A write of commit() shows nowhere through the cache, and reaches only logged home blocks. */
  lemma CommitWriteView(p: Params, s: State, s': State, b: nat)
    requires Shape(p, s) && CacheInv(p, s) && Distinct(s.lh) && CommitWrite(p, s, s') && s'.phase.Committing?
    requires CommitOk(p.start, s.disk, s.lh, s.phase.base, s.phase.data, s.phase.k)
    requires CommitOk(p.start, s'.disk, s.lh, s.phase.base, s.phase.data, s'.phase.k)
    requires b < |s.disk| && !InLog(p.start, b)
    ensures b !in s.lh ==> s'.disk[b] == s.disk[b]
    ensures b !in s.cache ==> s'.disk[b] == s.disk[b]
  {
    hide Replay, CommitWrites;
    var base, data, k := s.phase.base, s.phase.data, s.phase.k;
    if b !in s.lh {
      CommitKeeps(base, p.start, s.lh, data, k, b);
      CommitKeeps(base, p.start, s.lh, data, k + 1, b);
    } else if b !in s.cache {
      var i :| 0 <= i < |s.lh| && s.lh[i] == b;
      CommitCopied(base, p.start, s.lh, data, k, i);
      CommitCopied(base, p.start, s.lh, data, k + 1, i);
    }
  }

  /** A disk step that shows nowhere through the cache keeps the cache invariant. */
  lemma HiddenWrite(p: Params, s: State, s': State)
    requires Shape(p, s) && CacheInv(p, s) && Shape(p, s') && s.phase.Committing? && s'.phase.Committing?
    requires s'.cache == s.cache && s'.dirty == s.dirty && s'.torn == s.torn && s'.lh == s.lh && s'.ops == s.ops
    requires s'.events == s.events
    requires s'.phase.k >= s.phase.k
    requires forall b :: 0 <= b < |s.disk| && !InLog(p.start, b) && b !in s.cache ==> s'.disk[b] == s.disk[b]
    ensures CacheInv(p, s')
  {
    hide Replay;
  }

  lemma CommitWriteCache(p: Params, s: State, s': State)
    requires Shape(p, s) && CacheInv(p, s) && DiskInv(p, s) && Distinct(s.lh) && CommitWrite(p, s, s') && Shape(p, s')
    requires DiskInv(p, s')
    ensures CacheInv(p, s')
  {
    hide Replay, CacheInv, CommitOk, CommitWrites, HomeEq, Overlay, Installed, Strayed;
    forall b | 0 <= b < |s.disk| && !InLog(p.start, b) && b !in s.cache
      ensures s'.disk[b] == s.disk[b]
    {
      CommitWriteView(p, s, s', b);
    }
    HiddenWrite(p, s, s');
  }

  lemma CommitWriteLate(p: Params, s: State, s': State)
    requires Shape(p, s) && Shape(p, s') && LateInv(p, s) && CommitWrite(p, s, s')
    ensures LateInv(p, s')
  {
    hide Replay, CommitWrites, Strayed;
    assert s.events[..|s.events|] == s.events;
  }

  lemma CommitWriteCtl(p: Params, s: State, s': State)
    requires CtlInv(p, s) && CommitWrite(p, s, s') && Shape(p, s')
    ensures CtlInv(p, s')
  {
    hide Replay, CommitWrites, Strayed, Sum;
    assert s.events[..|s.events|] == s.events;
  }

  lemma CommitWriteInv(p: Params, s: State, s': State)
    requires Inv(p, s) && CommitWrite(p, s, s')
    ensures Inv(p, s')
  {
    hide CtlInv, CacheInv, LateInv, DiskInv, Replay, CommitWrites, Strayed;
    CtlShape(p, s);
    CommitWriteDisk(p, s, s');
    CommitWriteCtl(p, s, s');
    CommitWriteCache(p, s, s');
    CommitWriteLate(p, s, s');
  }

  lemma CtlShape(p: Params, s: State)
    requires CtlInv(p, s)
    ensures Shape(p, s)
  {
  }

  lemma CommitDoneDisk(p: Params, s: State, s': State)
    requires Shape(p, s) && DiskInv(p, s) && CommitDone(p, s, s')
    ensures Shape(p, s') && DiskInv(p, s')
  {
    hide Replay, Strayed, Overlay, Installed, CommitWrites;
    DoneComing(p, s, s');
    CommitAtomic(s.phase.base, p.start, s.lh, s.phase.data, s.phase.k);
    assert s.events[..|s.events|] == s.events;
  }

  /** When a commit returns, its header has been written, or the log was empty. */
  lemma DoneComing(p: Params, s: State, s': State)
    requires CommitDone(p, s, s')
    ensures Coming(s) == s.stray
  {
    if s.lh == [] {
      assert Strayed(s.stray, s.torn, s.lh) == s.stray;
    }
  }

  lemma CommitDoneCache(p: Params, s: State, s': State)
    requires Shape(p, s) && Shape(p, s') && CacheInv(p, s) && CommitDone(p, s, s')
    ensures CacheInv(p, s')
  {
    hide Replay, CommitWrites;
  }

  lemma CommitDoneCtl(p: Params, s: State, s': State)
    requires CtlInv(p, s) && CommitDone(p, s, s') && Shape(p, s')
    ensures CtlInv(p, s') && LateInv(p, s')
  {
    hide Replay, CommitWrites;
    assert s'.events[..s'.cut] == s.events;
    SumBound(s.ops);
  }

  lemma CommitDoneInv(p: Params, s: State, s': State)
    requires Inv(p, s) && CommitDone(p, s, s')
    ensures Inv(p, s')
  {
    hide CtlInv, CacheInv, LateInv, DiskInv, Replay, CommitWrites;
    CtlShape(p, s);
    CommitDoneDisk(p, s, s');
    CommitDoneCtl(p, s, s');
    CommitDoneCache(p, s, s');
  }

  lemma FillCache(p: Params, s: State, s': State, b: nat)
    requires Shape(p, s) && CacheInv(p, s) && Fill(p, s, s', b)
    ensures CacheInv(p, s')
  {
    hide Replay;
  }

  lemma BufferDisk(p: Params, s: State, s': State)
    requires Shape(p, s) && Shape(p, s') && DiskInv(p, s) && s' == s.(cache := s'.cache, torn := s'.torn)
    requires Coming(s') == Coming(s)
    ensures DiskInv(p, s')
  {
    hide Replay, Overlay, HomeEq, CommitOk, Installed, Recover, RecoveryWrites, Apply, ValidLog, Coming, HeadCount;
  }

  lemma EvictComing(p: Params, s: State, s': State, b: nat)
    requires Evict(p, s, s', b) && (b in s.lh ==> s.phase.Committing? && s.phase.k > |s.lh|)
    ensures Coming(s') == Coming(s)
  {
    if s.phase.Committing? && s.phase.k <= |s.lh| {
      assert Strayed(s.stray, s'.torn, s.lh) == Strayed(s.stray, s.torn, s.lh);
    }
  }

  lemma FillInv(p: Params, s: State, s': State, b: nat)
    requires Inv(p, s) && Fill(p, s, s', b)
    ensures Inv(p, s')
  {
    hide CacheInv, LateInv, DiskInv, Replay;
    FillCache(p, s, s', b);
    LateStays(p, s, s');
    BufferDisk(p, s, s');
  }

  /** A buffer that may be recycled covers what a commit would leave on the disk. */
  lemma UnpinnedIsHome(p: Params, s: State, b: nat)
    requires Shape(p, s) && DiskInv(p, s) && LateInv(p, s) && Distinct(s.lh) && !s.phase.Recovering?
    requires b < |s.disk| && !InLog(p.start, b) && !Pinned(s, b)
    ensures s.disk[b] == Look(Replay(p.init, s.events), s.stray, b)
    ensures b in s.lh ==> s.phase.Committing? && s.phase.k > |s.lh|
    ensures forall j :: 0 <= j < |s.lh| && s.lh[j] == b ==> s.phase.Committing? && CopiedHome(s.lh, s.phase.k, j)
  {
    hide Replay, CommitWrites, Installed, Strayed;
    if b in s.lh {
      var i :| 0 <= i < |s.lh| && s.lh[i] == b;
      assert s.phase.Committing? && CopiedHome(s.lh, s.phase.k, i);
      var base, data, k := s.phase.base, s.phase.data, s.phase.k;
      CommitCopied(base, p.start, s.lh, data, k, i);
      InstalledBlocks(base, p.start, s.lh, data);
    } else if s.phase.Committing? {
      UnloggedStays(p, s, b);
    }
  }

  lemma UnloggedStays(p: Params, s: State, b: nat)
    requires Shape(p, s) && DiskInv(p, s) && LateInv(p, s) && Distinct(s.lh) && s.phase.Committing?
    requires b < |s.disk| && !InLog(p.start, b) && b !in s.lh
    ensures s.disk[b] == Look(Replay(p.init, s.events), s.stray, b)
  {
    hide Replay, CommitWrites, Installed;
    var base, data, k := s.phase.base, s.phase.data, s.phase.k;
    CommitKeeps(base, p.start, s.lh, data, k, b);
    InstalledBlocks(base, p.start, s.lh, data);
  }

  lemma EvictCache(p: Params, s: State, s': State, b: nat)
    requires Shape(p, s) && CacheInv(p, s) && Evict(p, s, s', b) && !s.phase.Recovering?
    requires s.disk[b] == Look(Replay(p.init, s.events), s.stray, b)
    requires forall j :: 0 <= j < |s.lh| && s.lh[j] == b ==> s.phase.Committing? && CopiedHome(s.lh, s.phase.k, j)
    ensures CacheInv(p, s')
  {
    hide Replay, Pinned;
  }

  lemma EvictCtl(p: Params, s: State, s': State, b: nat)
    requires CtlInv(p, s) && Evict(p, s, s', b)
    ensures CtlInv(p, s') && Shape(p, s) && Shape(p, s') && !s.phase.Recovering?
  {
    hide Sum, Open, ValidTargets, Fits, Pinned;
  }

  lemma EvictInv(p: Params, s: State, s': State, b: nat)
    requires Inv(p, s) && Evict(p, s, s', b)
    ensures Inv(p, s')
  {
    hide LateInv, DiskInv, Replay, Pinned, CacheInv, CtlInv;
    EvictCtl(p, s, s', b);
    EvictHome(p, s, s', b);
    UnpinnedIsHome(p, s, b);
    EvictCache(p, s, s', b);
    EvictComing(p, s, s', b);
    LateStays(p, s, s');
    BufferDisk(p, s, s');
  }

  lemma EvictHome(p: Params, s: State, s': State, b: nat)
    requires Shape(p, s) && CacheInv(p, s) && Evict(p, s, s', b)
    ensures b < |s.disk| && !InLog(p.start, b)
  {
    hide Replay;
  }

  /**
   The durable state at every moment: recovering from a crash now yields the disk at the cut,
   but for the stray blocks.
   */
  lemma CrashRecovers(p: Params, s: State)
    requires Inv(p, s)
    ensures ValidLog(s.disk, p.start)
    ensures HomeEq(p.start, Recover(s.disk, p.start), Durable(p, s))
    ensures Open(s.events[..s.cut]) == {}
  {
    hide Replay, CacheInv, LateInv, Overlay, Strayed, Installed, CommitWrites, RecoveryWrites, HeadCount;
    assert s.events[..|s.events|] == s.events;
    match s.phase
    case Running =>
      EmptyLogRecovers(s.disk, p.start);
    case Committing(base, data, k) =>
      CommitAtomic(base, p.start, s.lh, data, k);
    case Recovering(base, k) =>
      RecoveryCrash(base, p.start, k);
  }

  lemma CrashCtl(p: Params, s: State, s': State)
    requires CtlInv(p, s) && Crash(p, s, s')
    ensures CtlInv(p, s') && s'.events[..s'.cut] == s.events[..s.cut]
  {
    assert s'.events[..s'.cut] == s.events[..s.cut] && s'.events == s.events[..s.cut];
  }

  lemma CrashCache(p: Params, s: State, s': State)
    requires Crash(p, s, s') && Shape(p, s')
    ensures CacheInv(p, s') && LateInv(p, s')
  {
  }

  lemma CrashDisk(p: Params, s: State, s': State)
    requires Crash(p, s, s') && Shape(p, s) && Shape(p, s') && s'.events[..s'.cut] == s.events[..s.cut]
    requires ValidLog(s.disk, p.start) && HomeEq(p.start, Recover(s.disk, p.start), Durable(p, s))
    ensures DiskInv(p, s')
  {
    hide Replay, Overlay, RecoveryWrites, Recover, ValidLog, HomeEq;
    assert RecoveryWrites(s.disk, p.start)[..0] == [];
  }

  lemma CrashInv(p: Params, s: State, s': State)
    requires Inv(p, s) && Crash(p, s, s')
    ensures Inv(p, s')
  {
    hide CtlInv, CacheInv, LateInv, DiskInv, Durable, Recover, ValidLog, HomeEq;
    CtlShape(p, s);
    CrashRecovers(p, s);
    CrashCtl(p, s, s');
    CtlShape(p, s');
    CrashCache(p, s, s');
    CrashDisk(p, s, s');
  }

  lemma RecoveryWriteDisk(p: Params, s: State, s': State)
    requires Shape(p, s) && DiskInv(p, s) && RecoveryWrite(p, s, s')
    ensures Shape(p, s') && DiskInv(p, s')
  {
    hide Replay, Overlay, RecoveryWrites, Recover, ValidLog, HomeEq;
    ApplyNext(s.phase.base, RecoveryWrites(s.phase.base, p.start), s.phase.k);
  }

  lemma RecoveryWriteInv(p: Params, s: State, s': State)
    requires Inv(p, s) && RecoveryWrite(p, s, s')
    ensures Inv(p, s')
  {
    hide Replay, RecoveryWrites, ValidLog, DiskInv;
    RecoveryWriteDisk(p, s, s');
  }

  lemma RecoveryDoneInv(p: Params, s: State, s': State)
    requires Inv(p, s) && RecoveryDone(p, s, s')
    ensures Inv(p, s')
  {
    hide Replay, RecoveryWrites;
    var ws := RecoveryWrites(s.phase.base, p.start);
    assert ws[..|ws|] == ws;
    ClearedIsFixed(s.phase.base, p.start);
    assert s'.events[..s'.cut] == s.events;
  }

  lemma NextInv(p: Params, s: State, s': State, step: Step)
    requires Inv(p, s) && NextBy(p, s, s', step)
    ensures Inv(p, s')
  {
    hide Inv, BeginOp, Modify, Tear, LogWrite, EndOp, CommitWrite, CommitDone, Fill, Evict, Crash, RecoveryWrite,
      RecoveryDone;
    match step
    case BeginStep(t) => BeginInv(p, s, s', t);
    case ModifyStep(t, b, data) => ModifyInv(p, s, s', t, b, data);
    case TearStep(t, b) => TearInv(p, s, s', t, b);
    case LogStep(t, b) => LogInv(p, s, s', t, b);
    case EndStep(t) => EndInv(p, s, s', t);
    case CommitWriteStep => CommitWriteInv(p, s, s');
    case CommitDoneStep => CommitDoneInv(p, s, s');
    case FillStep(b) => FillInv(p, s, s', b);
    case EvictStep(b) => EvictInv(p, s, s', b);
    case CrashStep => CrashInv(p, s, s');
    case RecoveryWriteStep => RecoveryWriteInv(p, s, s');
    case RecoveryDoneStep => RecoveryDoneInv(p, s, s');
  }

  // ----- theorems over whole runs -----

  lemma {:induction false} RunInv(p: Params, run: seq<State>, i: nat)
    requires Run(p, run) && i < |run|
    ensures Inv(p, run[i])
  {
    if i == 0 {
      InitInv(p, run[0]);
    } else {
      RunInv(p, run, i - 1);
      assert Next(p, run[i - 1], run[i - 1 + 1]);
      var step :| NextBy(p, run[i - 1], run[i], step);
      NextInv(p, run[i - 1], run[i], step);
    }
  }

  /** The stray blocks hold what was logged for them. */
  predicate Harmless(d: Disk, stray: map<uint32, Block>, start: nat) {
    forall b :: b in stray && b < |d| && !InLog(start, b) ==> stray[b] == d[b]
  }

  lemma OverlayEq(start: nat, d: Disk, m: map<uint32, Block>)
    requires Fits(d, start)
    ensures HomeEq(start, Overlay(d, m), d) <==> Harmless(d, m, start)
  {
    assert HomeEq(start, Overlay(d, m), d) ==> forall b :: 0 <= b < |d| && !InLog(start, b) ==>
      Overlay(d, m)[b] == d[b];
  }

  /**
   In every run, a crash at any point recovers a disk made of whole operations only: the
   logged writes up to the cut, and, where a torn buffer was committed, that buffer. It is
   the logged writes alone exactly when the stray blocks hold what was logged for them.
   */
  lemma WholeOperations(p: Params, run: seq<State>, i: nat)
    requires Run(p, run) && i < |run|
    ensures var s := run[i];
      && s.cut <= |s.events|
      && ValidLog(s.disk, p.start)
      && Open(s.events[..s.cut]) == {}
      && HomeEq(p.start, Recover(s.disk, p.start), Overlay(Replay(p.init, s.events[..s.cut]), s.stray))
      && (HomeEq(p.start, Recover(s.disk, p.start), Replay(p.init, s.events[..s.cut])) <==>
          Harmless(Replay(p.init, s.events[..s.cut]), s.stray, p.start))
  {
    hide Inv, Replay, Overlay, Recover, ValidLog, Next, Harmless;
    RunInv(p, run, i);
    InvShape(p, run[i]);
    var s := run[i];
    CrashRecovers(p, s);
    OverlayEq(p.start, Replay(p.init, s.events[..s.cut]), s.stray);
  }

  lemma InvShape(p: Params, s: State)
    requires Inv(p, s)
    ensures Shape(p, s)
  {
    hide CacheInv, LateInv, DiskInv;
  }

  /** The write that commits: a header goes to the disk, and k blocks of the log are there. */
  predicate Commits(s: State) {
    s.phase.Committing? && s.phase.k == |s.lh| > 0
  }

  /** Only a torn buffer whose block is in the log when the header is written can stray. */
  lemma {:induction false} StrayFrom(p: Params, run: seq<State>, i: nat, b: uint32)
    requires Run(p, run) && i < |run| && b in run[i].stray
    ensures exists j ::
      0 <= j < i && Commits(run[j]) && b in run[j].lh && b in run[j].torn && run[j].torn[b] == run[i].stray[b]
  {
    hide NextBy, Commits;
    if i > 0 {
      assert Next(p, run[i - 1], run[i - 1 + 1]);
      var step :| NextBy(p, run[i - 1], run[i], step);
      StrayStep(p, run[i - 1], run[i], step, b);
      if b in run[i - 1].stray && run[i - 1].stray[b] == run[i].stray[b] {
        StrayFrom(p, run, i - 1, b);
      }
    }
  }

  lemma StrayStep(p: Params, s: State, s': State, step: Step, b: uint32)
    requires NextBy(p, s, s', step) && b in s'.stray
    ensures || (b in s.stray && s.stray[b] == s'.stray[b])
            || (Commits(s) && b in s.lh && b in s.torn && s.torn[b] == s'.stray[b])
  {
    hide CommitWrites, RecoveryWrites, LoggedData;
  }

  /** So where no torn buffer is in the log when a commit takes effect, only logged writes are ever recovered. */
  lemma NothingStrays(p: Params, run: seq<State>, i: nat)
    requires Run(p, run) && i < |run|
    requires forall j, b :: 0 <= j < i && Commits(run[j]) && b in run[j].lh ==> b !in run[j].torn
    ensures var s := run[i];
      && s.cut <= |s.events| && ValidLog(s.disk, p.start)
      && HomeEq(p.start, Recover(s.disk, p.start), Replay(p.init, s.events[..s.cut]))
  {
    hide NextBy, Replay, Overlay, Recover, ValidLog, Next;
    forall b | b in run[i].stray
      ensures false
    {
      StrayFrom(p, run, i, b);
    }
    WholeOperations(p, run, i);
  }

  /**
   The header write of a commit makes exactly the logged writes durable if and only if the
   torn buffers of blocks in the log, and what had strayed before, hold what was logged.
   */
  lemma CommitIsLogged(p: Params, run: seq<State>, i: nat)
    requires Run(p, run) && i + 1 < |run| && Commits(run[i]) && CommitWrite(p, run[i], run[i + 1])
    ensures var s := run[i + 1];
      && ValidLog(s.disk, p.start)
      && (HomeEq(p.start, Recover(s.disk, p.start), Replay(p.init, s.events)) <==>
          Harmless(Replay(p.init, run[i].events), Strayed(run[i].stray, run[i].torn, run[i].lh), p.start))
  {
    hide Run, Replay, Overlay, Recover, ValidLog, Harmless, CommitWrites, Strayed;
    WholeOperations(p, run, i + 1);
    assert run[i + 1].events[..run[i + 1].cut] == run[i].events;
  }

  // ----- a run that makes a torn buffer durable -----

  lemma {:induction false} Reaches(p: Params, run: seq<State>, s': State, step: Step)
    requires Run(p, run) && NextBy(p, run[|run| - 1], s', step)
    ensures Run(p, run + [s'])
  {
    hide NextBy, Init;
    var longer := run + [s'];
    forall i | 0 <= i < |longer| - 1
      ensures Next(p, longer[i], longer[i + 1])
    {
      if i < |run| - 1 {
        assert Next(p, run[i], run[i + 1]);
      }
    }
  }

  /** An operation logs a block, as bmap does for a new one, and then tears it. */
  lemma TornSteps(p: Params, b: uint32, data: Block)
    returns (s0: State, s1: State, s2: State, s3: State, s4: State, s5: State)
    requires ValidLog(p.init, p.start) && HeadCount(p.init[p.start]) == 0 && b < |p.init| && !InLog(p.start, b)
    ensures Init(p, s0) && NextBy(p, s0, s1, BeginStep(0)) && NextBy(p, s1, s2, FillStep(b))
    ensures NextBy(p, s2, s3, LogStep(0, b)) && NextBy(p, s3, s4, ModifyStep(0, b, data))
    ensures NextBy(p, s4, s5, TearStep(0, b))
    ensures s5 == State(p.init, map[b := data], map[], map[b := data], map[], [b], 1, false, Running, map[0 := 1], {},
                        [Begin(0), Logs(0, b, p.init[b])], 0)
  {
    hide Sum, HeadCount, ValidLog, LogWrite;
    s0 := State(p.init, map[], map[], map[], map[], [], 0, false, Running, map[], {}, [], 0);
    s1 := s0.(outstanding := 1, ops := map[0 := 0], events := [Begin(0)]);
    s2 := s1.(cache := map[b := p.init[b]]);
    s3 := s2.(lh := [b], ops := map[0 := 1], events := [Begin(0), Logs(0, b, p.init[b])]);
    s4 := s3.(cache := map[b := data], dirty := map[b := 0]);
    s5 := s4.(dirty := map[], torn := map[b := data]);
    assert s0.events + [Begin(0)] == s1.events && s0.ops[0 := 0] == s1.ops;
    LogsBlock(p, s2, s3, b);
    assert s4.dirty - {b} == s5.dirty && s4.torn[b := data] == s5.torn;
  }

  lemma TornOperation(p: Params, b: uint32, data: Block) returns (run: seq<State>)
    requires ValidLog(p.init, p.start) && HeadCount(p.init[p.start]) == 0 && b < |p.init| && !InLog(p.start, b)
    ensures Run(p, run) && |run| == 6
    ensures run[5] ==
      State(p.init, map[b := data], map[], map[b := data], map[], [b], 1, false, Running, map[0 := 1], {},
                            [Begin(0), Logs(0, b, p.init[b])], 0)
  {
    hide NextBy, Init, HeadCount, ValidLog;
    var s0, s1, s2, s3, s4, s5 := TornSteps(p, b, data);
    Reaches(p, [s0], s1, BeginStep(0));
    Reaches(p, [s0] + [s1], s2, FillStep(b));
    Reaches(p, [s0] + [s1] + [s2], s3, LogStep(0, b));
    Reaches(p, [s0] + [s1] + [s2] + [s3], s4, ModifyStep(0, b, data));
    Reaches(p, [s0] + [s1] + [s2] + [s3] + [s4], s5, TearStep(0, b));
    run := [s0] + [s1] + [s2] + [s3] + [s4] + [s5];
  }

  lemma LogsBlock(p: Params, s: State, s': State, b: uint32)
    requires b < |p.init| && !InLog(p.start, b)
    requires s ==
      State(p.init, map[b := p.init[b]], map[], map[], map[], [], 1, false, Running, map[0 := 0], {}, [Begin(0)], 0)
    requires s' == s.(lh := [b], ops := map[0 := 1], events := [Begin(0), Logs(0, b, p.init[b])])
    ensures NextBy(p, s, s', LogStep(0, b))
  {
    assert s.events + [Logs(0, b, p.init[b])] == s'.events && s.ops[0 := 1] == s'.ops;
    assert s.dirty - {b} == map[] && s.torn - {b} == map[] && Absorb([], b) == [b];
  }

  /** It ends, and the header of its commit is written. */
  lemma TornCommit(p: Params, b: uint32, data: Block, s: State) returns (s6: State, s7: State, s8: State)
    requires Fits(p.init, p.start) && b < |p.init| && !InLog(p.start, b)
    requires s == State(p.init, map[b := data], map[], map[b := data], map[], [b], 1, false, Running, map[0 := 1], {},
                        [Begin(0), Logs(0, b, p.init[b])], 0)
    ensures NextBy(p, s, s6, EndStep(0)) && NextBy(p, s6, s7, CommitWriteStep) && NextBy(p, s7, s8, CommitWriteStep)
    ensures Commits(s7) && s7.lh == [b] && s7.torn == map[b := data] && s7.stray == map[] && s7.events == s8.events
    ensures s8.events == [Begin(0), Logs(0, b, p.init[b]), End(0)] && s8.cut == 3
  {
    hide Sum;
    var es := [Begin(0), Logs(0, b, p.init[b]), End(0)];
    assert s.events + [End(0)] == es && s.ops - {0} == map[];
    var d := LoggedData(s.cache, s.disk, p.start, [b]);
    s6 := s.(outstanding := 0, ops := map[], events := es, committing := true, phase := Committing(p.init, d, 0));
    assert NextBy(p, s, s6, EndStep(0));
    var ws := CommitWrites(p.init, p.start, [b], d);
    assert |ws| == 4 && ws[0].bno == p.start + 1 && ws[1].bno == p.start;
    s7 := s6.(disk := s6.disk[ws[0].bno := ws[0].data], phase := Committing(p.init, d, 1));
    assert NextBy(p, s6, s7, CommitWriteStep);
    s8 := s7.(disk := s7.disk[ws[1].bno := ws[1].data], phase := Committing(p.init, d, 2), cut := 3,
              stray := Strayed(map[], s7.torn, [b]));
    assert NextBy(p, s7, s8, CommitWriteStep);
  }

  /**
   On every disk and for every home block there is a run whose recovered disk is not made
   of logged writes: an operation logs the block, tears it and ends, and the commit copies it.
   */
  lemma TornRun(p: Params, b: uint32, data: Block) returns (run: seq<State>)
    requires ValidLog(p.init, p.start) && HeadCount(p.init[p.start]) == 0 && b < |p.init| && !InLog(p.start, b)
      && data != p.init[b]
    ensures Run(p, run) && |run| == 9
    ensures var s := run[8];
      && s.cut == |s.events| && ValidLog(s.disk, p.start)
      && !HomeEq(p.start, Recover(s.disk, p.start), Replay(p.init, s.events))
  {
    hide NextBy, Init, Commits, HeadCount, Recover;
    var six := TornOperation(p, b, data);
    var s6, s7, s8 := TornCommit(p, b, data, six[5]);
    Reaches(p, six, s6, EndStep(0));
    Reaches(p, six + [s6], s7, CommitWriteStep);
    Reaches(p, six + [s6] + [s7], s8, CommitWriteStep);
    run := six + [s6] + [s7] + [s8];
    assert run[7] == s7 && run[8] == s8;
    WrittenOnce(p, b);
    TornHeader(p, run, b, data);
  }

  lemma WrittenOnce(p: Params, b: uint32)
    requires b < |p.init|
    ensures Replay(p.init, [Begin(0), Logs(0, b, p.init[b]), End(0)]) == p.init
  {
    var e0, e1, e2 := Begin(0), Logs(0, b, p.init[b]), End(0);
    Snoc(p.init, [], e0);
    Snoc(p.init, [e0], e1);
    Snoc(p.init, [e0, e1], e2);
    assert [e0] + [e1] == [e0, e1] && [e0, e1] + [e2] == [e0, e1, e2] && [] + [e0] == [e0];
  }

  lemma TornHeader(p: Params, run: seq<State>, b: uint32, data: Block)
    requires Run(p, run) && |run| == 9 && Commits(run[7]) && NextBy(p, run[7], run[8], CommitWriteStep)
    requires run[7].lh == [b] && run[7].torn == map[b := data] && run[7].stray == map[]
    requires run[7].events == run[8].events
    requires b < |p.init| && !InLog(p.start, b) && Replay(p.init, run[7].events) == p.init && data != p.init[b]
    ensures ValidLog(run[8].disk, p.start)
    ensures !HomeEq(p.start, Recover(run[8].disk, p.start), Replay(p.init, run[8].events))
  {
    hide Run, Recover, ValidLog, CommitWrites, HomeEq, Commits, Replay;
    CommitIsLogged(p, run, 7);
    assert b in Strayed(map[], run[7].torn, [b]);
  }

  /** Once end_op's commit has finished, everything logged so far survives a crash, but for what has strayed. */
  lemma CommittedIsDurable(p: Params, run: seq<State>, i: nat)
    requires Run(p, run) && i + 1 < |run| && CommitDone(p, run[i], run[i + 1])
    ensures var s := run[i + 1];
      && ValidLog(s.disk, p.start)
      && HomeEq(p.start, Recover(s.disk, p.start), Overlay(Replay(p.init, s.events), s.stray))
      && (HomeEq(p.start, Recover(s.disk, p.start), Replay(p.init, s.events)) <==>
          Harmless(Replay(p.init, s.events), s.stray, p.start))
  {
    hide Run, Replay, Overlay, Recover, ValidLog, Harmless, CommitWrites;
    WholeOperations(p, run, i + 1);
    assert run[i + 1].events[..run[i + 1].cut] == run[i + 1].events;
  }

  /** Commit excludes operations; end_op never meets a commit; log_write meets a full log only past its budget. */
  lemma CommitExclusion(p: Params, run: seq<State>, i: nat, t: Tid, b: uint32)
    requires Run(p, run) && i < |run|
    ensures run[i].phase.Committing? ==> run[i].ops == map[] && !CallsLogWrite(p, run[i], t, b)
    ensures t in run[i].ops ==> !EndOpPanics(run[i])
    ensures t in run[i].ops && run[i].ops[t] < MAXOPBLOCKS ==> !LogWritePanics(run[i])
    ensures |run[i].lh| <= LOGBLOCKS
  {
    RunInv(p, run, i);
    if t in run[i].ops && run[i].ops[t] < MAXOPBLOCKS {
      LogHasRoom(p, run[i], t);
    }
  }

  /** A process asleep in begin_op is never forgotten: an open operation or a commit will wake it. */
  lemma SleeperHasWaker(p: Params, run: seq<State>, i: nat)
    requires Run(p, run) && i < |run| && run[i].sleepers != {}
    ensures run[i].committing || run[i].outstanding > 0
    ensures run[i].committing || run[i].ops != map[]
  {
    RunInv(p, run, i);
  }
}
