/**
 Pipes (kernel/pipe.c) as a client of sleep and wakeup: any number of threads in
 pipewrite, piperead and pipeclose, interleaved step by step under pi->lock. The ring is
 indexed by 32-bit counters that wrap.
 */
module Pipe {
  import opened Bytes

  const PIPESIZE: nat := 512

  datatype Pc =
    | Out
    | WriteLock(i: nat, n: nat)               // pipewrite, i of n bytes stored: wants pi->lock
    | Write(i: nat, n: nat)                   // holds pi->lock, at the top of the loop
    | WriteWake(i: nat, n: nat, k: nat)       // pipe full: wakeup(&nread) before sleeping
    | WriteDrowsy(i: nat, n: nat)             // in sleep(&nwrite): pi->lock and its own lock held
    | WriteFalling(i: nat, n: nat)            // its own lock only, not yet SLEEPING
    | WriteAsleep(i: nat, n: nat)             // SLEEPING on &nwrite
    | WriteEnd(k: nat)                        // final wakeup(&nread)
    | ReadLock(n: nat)
    | Read(n: nat)
    | ReadDrowsy(n: nat)
    | ReadFalling(n: nat)
    | ReadAsleep(n: nat)                      // SLEEPING on &nread
    | Copy(i: nat, n: nat)
    | ReadEnd(k: nat)                         // wakeup(&nwrite)
    | CloseLock(writable: bool)
    | CloseWake(writable: bool, k: nat)

  const NOBODY: int := -1

  /** readopen and writeopen, and a fact of the history (see State). */
  datatype Flags = Flags(readopen: bool, writeopen: bool, unsaid: bool)

  /**
   The pipe, its lock, the threads (killed: the process has been killed) and, of the
   history, all bytes ever stored and taken out, and whether bytes have been stored since
   the last wakeup(&nread) began (unsaid).
   */
  datatype State = State(data: seq<byte>, nread: uint32, nwrite: uint32, flags: Flags, lock: int, at: seq<Pc>,
                         killed: seq<bool>, stored: seq<byte>, taken: seq<byte>)

  predicate Full(s: State) {
    s.nwrite == (s.nread + PIPESIZE) % TWO32
  }

  predicate Empty(s: State) {
    s.nread == s.nwrite
  }

  predicate Holds(pc: Pc) {
    || pc.Write? || pc.WriteWake? || pc.WriteDrowsy? || pc.WriteEnd?
    || pc.Read? || pc.ReadDrowsy? || pc.Copy? || pc.ReadEnd? || pc.CloseWake?
  }

  predicate OwnLocked(pc: Pc) {
    pc.WriteDrowsy? || pc.WriteFalling? || pc.ReadDrowsy? || pc.ReadFalling?
  }

  // ----- steps -----

  /** What a step does to the lock, the ring or another thread. */
  datatype Op = Nothing | Acquire | Release | Store(b: byte) | Take | Scan(k: nat, readers: bool)

  /** A sleeper on &nread (readers) or &nwrite made runnable: it goes on to reacquire pi->lock. */
  function Woken(pc: Pc, readers: bool): Pc {
    if readers && pc.ReadAsleep? then ReadLock(pc.n)
    else if !readers && pc.WriteAsleep? then WriteLock(pc.i, pc.n)
    else pc
  }

  /** What thread t sees and decides: its next point and the flags after the step. */
  datatype View = View(n: nat, t: nat, pc: Pc, pc': Pc, full: bool, empty: bool, killed: bool, f: Flags, f': Flags)

  predicate Go(v: View, pc': Pc) {
    v.pc' == pc' && v.f' == v.f
  }

  /** One turn of wakeup's scan, or its end; the caller itself is passed over. */
  predicate Wakeup(v: View, op: Op, readers: bool, k: nat, next: Pc, done: Pc, last: Op) {
    if k >= v.n then op == last && Go(v, done)
    else op == (if k == v.t then Nothing else Scan(k, readers)) && Go(v, next)
  }

  predicate Writes(v: View, op: Op) {
    match v.pc
    case WriteLock(i, n) => op == Acquire && Go(v, Write(i, n))
    case Write(i, n) =>
      if i >= n then op == Nothing && v.pc' == WriteEnd(0) && v.f' == v.f.(unsaid := false)
      else if !v.f.readopen || v.killed then
        op == Release && Go(v, Out)
      else if v.full then op == Nothing && v.pc' == WriteWake(i, n, 0) && v.f' == v.f.(unsaid := false)
      else
        || (op == Nothing && v.pc' == WriteEnd(0) && v.f' == v.f.(unsaid := false))   // copyin failed
        || (op.Store? && v.pc' == Write(i + 1, n) && v.f' == v.f.(unsaid := true))
    case WriteWake(i, n, k) => Wakeup(v, op, true, k, WriteWake(i, n, k + 1), WriteDrowsy(i, n), Nothing)
    case WriteDrowsy(i, n) => op == Release && Go(v, WriteFalling(i, n))
    case WriteFalling(i, n) => op == Nothing && Go(v, WriteAsleep(i, n))
    case WriteEnd(k) => Wakeup(v, op, true, k, WriteEnd(k + 1), Out, Release)
    case _ => false
  }

  predicate Reads(v: View, op: Op) {
    match v.pc
    case ReadLock(n) => op == Acquire && Go(v, Read(n))
    case Read(n) =>
      if v.empty && v.f.writeopen then
        if v.killed then op == Release && Go(v, Out) else op == Nothing && Go(v, ReadDrowsy(n))
      else op == Nothing && Go(v, Copy(0, n))
    case ReadDrowsy(n) => op == Release && Go(v, ReadFalling(n))
    case ReadFalling(n) => op == Nothing && Go(v, ReadAsleep(n))
    case Copy(i, n) =>
      || (op == Nothing && Go(v, ReadEnd(0)))                    // all copied, empty, or copyout failed
      || (i < n && !v.empty && op == Take && Go(v, Copy(i + 1, n)))
    case ReadEnd(k) => Wakeup(v, op, false, k, ReadEnd(k + 1), Out, Release)
    case _ => false
  }

  /** Calls, pipeclose, and kkill making a sleeper runnable. */
  predicate Others(v: View, op: Op) {
    match v.pc
    case Out => op == Nothing && v.f' == v.f &&
      (v.pc'.CloseLock? || v.pc'.ReadLock? || (v.pc'.WriteLock? && v.pc'.i == 0))
    case CloseLock(w) => op == Acquire && v.pc' == CloseWake(w, 0) &&
      v.f' == Flags(v.f.readopen && w, v.f.writeopen && !w, v.f.unsaid && !w)
    case CloseWake(w, k) => Wakeup(v, op, w, k, CloseWake(w, k + 1), Out, Release)
    case WriteAsleep(i, n) => op == Nothing && v.killed && Go(v, WriteLock(i, n))
    case ReadAsleep(n) => op == Nothing && v.killed && Go(v, ReadLock(n))
    case _ => false
  }

  predicate Lock(s: State, t: nat, op: Op, s': State) {
    match op
    case Acquire => s.lock == NOBODY && s'.lock == t
    case Release => s'.lock == NOBODY
    case _ => s'.lock == s.lock
  }

  predicate Ring(s: State, op: Op, s': State)
    requires |s.data| == PIPESIZE
  {
    && (if op.Store? then
          s'.data == s.data[s.nwrite % PIPESIZE := op.b] && s'.nwrite == (s.nwrite + 1) % TWO32
            && s'.stored == s.stored + [op.b]
        else s'.data == s.data && s'.nwrite == s.nwrite && s'.stored == s.stored)
    && (if op.Take? then
          s'.nread == (s.nread + 1) % TWO32 && s'.taken == s.taken + [s.data[s.nread % PIPESIZE]]
        else s'.nread == s.nread && s'.taken == s.taken)
  }

  /** Another thread u: untouched, or woken; a thread that holds its own lock cannot be looked at. */
  predicate Other(op: Op, u: nat, pc: Pc, pc': Pc) {
    if op.Scan? && op.k == u then !OwnLocked(pc) && pc' == Woken(pc, op.readers) else pc' == pc
  }

  function Viewed(s: State, t: nat, s': State): View
    requires t < |s.at| == |s'.at| == |s.killed|
  {
    View(|s.at|, t, s.at[t], s'.at[t], Full(s), Empty(s), s.killed[t], s.flags, s'.flags)
  }

  ghost predicate Step(s: State, t: nat, op: Op, s': State)
    requires |s.killed| == |s.at| && |s.data| == PIPESIZE
  {
    && t < |s.at| == |s'.at| && Lock(s, t, op, s') && Ring(s, op, s') && s'.killed == s.killed
    && (forall u :: 0 <= u < |s.at| && u != t ==> Other(op, u, s.at[u], s'.at[u]))
    && (Writes(Viewed(s, t, s'), op) || Reads(Viewed(s, t, s'), op) || Others(Viewed(s, t, s'), op))
  }

  // ----- the ring is a queue -----

  /** Unread bytes sit in the ring in order, at the positions their 32-bit numbers give. */
  ghost predicate Queue(s: State) {
    && |s.data| == PIPESIZE && |s.taken| <= |s.stored| <= |s.taken| + PIPESIZE
    && s.nread == |s.taken| % TWO32 && s.nwrite == |s.stored| % TWO32
    && s.taken == s.stored[..|s.taken|]
    && forall k :: |s.taken| <= k < |s.stored| ==> s.data[k % PIPESIZE] == s.stored[k]
  }

  /** The tests on wrapped counters mean what they say. */
  lemma Tests(s: State)
    requires Queue(s)
    ensures Empty(s) <==> |s.stored| == |s.taken|
    ensures Full(s) <==> |s.stored| == |s.taken| + PIPESIZE
    ensures s.nread % PIPESIZE == |s.taken| % PIPESIZE && s.nwrite % PIPESIZE == |s.stored| % PIPESIZE
  {
    var a, b := |s.taken| / TWO32, |s.stored| / TWO32;
    assert TWO32 == 0x80_0000 * PIPESIZE;
  }

  lemma SlotFree(a: nat, b: nat, k: nat)
    requires a <= k < b < a + PIPESIZE
    ensures k % PIPESIZE != b % PIPESIZE
  {
  }

  lemma Succ(n: nat)
    ensures (n % TWO32 + 1) % TWO32 == (n + 1) % TWO32
  {
  }

  lemma StoreQueue(s: State, b: byte, s': State)
    requires Queue(s) && !Full(s) && Ring(s, Store(b), s')
    ensures Queue(s')
  {
    Tests(s);
    Succ(|s.stored|);
    forall k | |s'.taken| <= k < |s'.stored|
      ensures s'.data[k % PIPESIZE] == s'.stored[k]
    {
      if k < |s.stored| {
        SlotFree(|s.taken|, |s.stored|, k);
      }
    }
  }

  lemma TakeQueue(s: State, s': State)
    requires Queue(s) && !Empty(s) && Ring(s, Take, s')
    ensures Queue(s')
  {
    Tests(s);
    Succ(|s.taken|);
    assert s.data[|s.taken| % PIPESIZE] == s.stored[|s.taken|];
  }

  // ----- nobody sleeps past its condition -----

  /** The holder of pi->lock, at hp, has yet to wake thread u if it sleeps on &nwrite. */
  predicate WillWakeWriter(hp: Pc, u: nat) {
    hp.Copy? || (hp.ReadEnd? && hp.k <= u) || (hp.CloseWake? && !hp.writable && hp.k <= u)
  }

  predicate WillWakeReader(hp: Pc, u: nat) {
    (hp.WriteWake? || hp.WriteEnd? || (hp.CloseWake? && hp.writable)) && hp.k <= u
  }

  /** Thread u at pc, with pi->lock held at hp (Out: free). */
  predicate Ok(pc: Pc, u: nat, hp: Pc, full: bool, empty: bool, f: Flags) {
    WriterWaits(pc, u, hp, full, f) && ReaderWaits(pc, u, hp, empty, f)
  }

  predicate WriterWaits(pc: Pc, u: nat, hp: Pc, full: bool, f: Flags) {
    && (pc.WriteWake? || pc.WriteDrowsy? ==> full && f.readopen)
    && (pc.WriteFalling? || pc.WriteAsleep? ==> (full && f.readopen) || WillWakeWriter(hp, u))
  }

  predicate ReaderWaits(pc: Pc, u: nat, hp: Pc, empty: bool, f: Flags) {
    && (pc.ReadDrowsy? ==> empty && f.writeopen)
    && (pc.ReadFalling? || pc.ReadAsleep? ==> (f.writeopen && (empty || f.unsaid)) || WillWakeReader(hp, u))
  }

  function HolderPc(s: State): Pc {
    if 0 <= s.lock < |s.at| then s.at[s.lock] else Out
  }

  ghost predicate Inv(s: State) {
    && Queue(s) && |s.killed| == |s.at| && -1 <= s.lock < |s.at|
    && (forall u :: 0 <= u < |s.at| ==> (Holds(s.at[u]) <==> s.lock == u))
    && forall u :: 0 <= u < |s.at| ==> Ok(s.at[u], u, HolderPc(s), Full(s), Empty(s), s.flags)
  }

  /** A step seen from its own thread: hp and hp' are where pi->lock is held before and after. */
  predicate Framed(v: View, op: Op, hp: Pc, hp': Pc, full': bool, empty': bool) {
    && (Holds(v.pc) ==> hp == v.pc) && (op.Acquire? ==> hp == Out)
    && hp' == (if Holds(v.pc') then v.pc' else if Holds(v.pc) then Out else hp)
    && (op.Store? ==> !empty') && (op.Take? ==> !full')
      && (!op.Store? && !op.Take? ==> full' == v.full && empty' == v.empty)
  }

  lemma OwnOps(v: View, op: Op)
    requires Writes(v, op) || Reads(v, op) || Others(v, op)
    ensures Holds(v.pc') <==> op.Acquire? || (Holds(v.pc) && !op.Release?)
    ensures op.Store? || op.Take? || op.Release? || op.Scan? ==> Holds(v.pc)
    ensures op.Acquire? ==> !Holds(v.pc)
    ensures op.Store? ==> !v.full
    ensures op.Take? ==> !v.empty
  {
  }

  lemma OwnOk(v: View, op: Op, hp: Pc, hp': Pc, full': bool, empty': bool)
    requires Writes(v, op) || Reads(v, op) || Others(v, op)
    requires Framed(v, op, hp, hp', full', empty') && Ok(v.pc, v.t, hp, v.full, v.empty, v.f)
    ensures Ok(v.pc', v.t, hp', full', empty', v.f')
  {
    hide Writes, Reads, Others, Framed, Ok;
    if Writes(v, op) {
      WriterOk(v, op, hp, hp', full', empty');
    } else if Reads(v, op) {
      ReaderOk(v, op, hp, hp', full', empty');
    } else {
      CallerOk(v, op, hp, hp', full', empty');
    }
  }

  lemma WriterOk(v: View, op: Op, hp: Pc, hp': Pc, full': bool, empty': bool)
    requires Writes(v, op) && Framed(v, op, hp, hp', full', empty') && Ok(v.pc, v.t, hp, v.full, v.empty, v.f)
    ensures Ok(v.pc', v.t, hp', full', empty', v.f')
  {
  }

  lemma ReaderOk(v: View, op: Op, hp: Pc, hp': Pc, full': bool, empty': bool)
    requires Reads(v, op) && Framed(v, op, hp, hp', full', empty') && Ok(v.pc, v.t, hp, v.full, v.empty, v.f)
    ensures Ok(v.pc', v.t, hp', full', empty', v.f')
  {
  }

  lemma CallerOk(v: View, op: Op, hp: Pc, hp': Pc, full': bool, empty': bool)
    requires Others(v, op) && Framed(v, op, hp, hp', full', empty') && Ok(v.pc, v.t, hp, v.full, v.empty, v.f)
    ensures Ok(v.pc', v.t, hp', full', empty', v.f')
  {
  }

  /** Thread u, which is not the one that steps. */
  predicate Beside(v: View, op: Op, u: nat, pc: Pc, pc': Pc) {
    u != v.t && u < v.n && (Holds(v.pc) || op.Acquire? ==> !Holds(pc)) && Other(op, u, pc, pc')
  }

  lemma OtherOk(v: View, op: Op, hp: Pc, hp': Pc, full': bool, empty': bool, u: nat, pc: Pc, pc': Pc)
    requires Writes(v, op) || Reads(v, op) || Others(v, op)
    requires Framed(v, op, hp, hp', full', empty') && Ok(v.pc, v.t, hp, v.full, v.empty, v.f)
    requires Beside(v, op, u, pc, pc') && Ok(pc, u, hp, v.full, v.empty, v.f)
    ensures Ok(pc', u, hp', full', empty', v.f')
  {
    hide Writes, Reads, Others, Framed, Beside, WriterWaits, ReaderWaits;
    if Writes(v, op) {
      WriteBesideWriter(v, op, hp, hp', full', empty', u, pc, pc');
      WriteBesideReader(v, op, hp, hp', full', empty', u, pc, pc');
    } else if Reads(v, op) {
      ReadBesideWriter(v, op, hp, hp', full', empty', u, pc, pc');
      ReadBesideReader(v, op, hp, hp', full', empty', u, pc, pc');
    } else {
      CallBesideWriter(v, op, hp, hp', full', empty', u, pc, pc');
      CallBesideReader(v, op, hp, hp', full', empty', u, pc, pc');
    }
  }

  lemma WriteBesideWriter(v: View, op: Op, hp: Pc, hp': Pc, full': bool, empty': bool, u: nat, pc: Pc, pc': Pc)
    requires Writes(v, op) && Framed(v, op, hp, hp', full', empty') && WriterWaits(v.pc, v.t, hp, v.full, v.f)
    requires Beside(v, op, u, pc, pc') && WriterWaits(pc, u, hp, v.full, v.f)
    ensures WriterWaits(pc', u, hp', full', v.f')
  {
  }

  lemma WriteBesideReader(v: View, op: Op, hp: Pc, hp': Pc, full': bool, empty': bool, u: nat, pc: Pc, pc': Pc)
    requires Writes(v, op) && Framed(v, op, hp, hp', full', empty') && ReaderWaits(v.pc, v.t, hp, v.empty, v.f)
    requires Beside(v, op, u, pc, pc') && ReaderWaits(pc, u, hp, v.empty, v.f)
    ensures ReaderWaits(pc', u, hp', empty', v.f')
  {
    hide Writes, Framed, Beside, ReaderWaits;
    if v.pc.Write? {
      LoopBesideReader(v, op, hp, hp', full', empty', u, pc, pc');
    } else if v.pc.WriteWake? || v.pc.WriteEnd? {
      WakeBesideReader(v, op, hp, hp', full', empty', u, pc, pc');
    } else {
      EntryBesideReader(v, op, hp, hp', full', empty', u, pc, pc');
    }
  }

  lemma LoopBesideReader(v: View, op: Op, hp: Pc, hp': Pc, full': bool, empty': bool, u: nat, pc: Pc, pc': Pc)
    requires Writes(v, op) && v.pc.Write? && Framed(v, op, hp, hp', full', empty')
    requires ReaderWaits(v.pc, v.t, hp, v.empty, v.f)
    requires Beside(v, op, u, pc, pc') && ReaderWaits(pc, u, hp, v.empty, v.f)
    ensures ReaderWaits(pc', u, hp', empty', v.f')
  {
  }

  lemma WakeBesideReader(v: View, op: Op, hp: Pc, hp': Pc, full': bool, empty': bool, u: nat, pc: Pc, pc': Pc)
    requires Writes(v, op) && (v.pc.WriteWake? || v.pc.WriteEnd?) && Framed(v, op, hp, hp', full', empty')
      && ReaderWaits(v.pc, v.t, hp, v.empty, v.f)
    requires Beside(v, op, u, pc, pc') && ReaderWaits(pc, u, hp, v.empty, v.f)
    ensures ReaderWaits(pc', u, hp', empty', v.f')
  {
  }

  lemma EntryBesideReader(v: View, op: Op, hp: Pc, hp': Pc, full': bool, empty': bool, u: nat, pc: Pc, pc': Pc)
    requires Writes(v, op) && !v.pc.Write? && !v.pc.WriteWake? && !v.pc.WriteEnd?
    requires Framed(v, op, hp, hp', full', empty') && ReaderWaits(v.pc, v.t, hp, v.empty, v.f)
    requires Beside(v, op, u, pc, pc') && ReaderWaits(pc, u, hp, v.empty, v.f)
    ensures ReaderWaits(pc', u, hp', empty', v.f')
  {
  }

  lemma ReadBesideWriter(v: View, op: Op, hp: Pc, hp': Pc, full': bool, empty': bool, u: nat, pc: Pc, pc': Pc)
    requires Reads(v, op) && Framed(v, op, hp, hp', full', empty') && WriterWaits(v.pc, v.t, hp, v.full, v.f)
    requires Beside(v, op, u, pc, pc') && WriterWaits(pc, u, hp, v.full, v.f)
    ensures WriterWaits(pc', u, hp', full', v.f')
  {
  }

  lemma ReadBesideReader(v: View, op: Op, hp: Pc, hp': Pc, full': bool, empty': bool, u: nat, pc: Pc, pc': Pc)
    requires Reads(v, op) && Framed(v, op, hp, hp', full', empty') && ReaderWaits(v.pc, v.t, hp, v.empty, v.f)
    requires Beside(v, op, u, pc, pc') && ReaderWaits(pc, u, hp, v.empty, v.f)
    ensures ReaderWaits(pc', u, hp', empty', v.f')
  {
  }

  lemma CallBesideWriter(v: View, op: Op, hp: Pc, hp': Pc, full': bool, empty': bool, u: nat, pc: Pc, pc': Pc)
    requires Others(v, op) && Framed(v, op, hp, hp', full', empty') && WriterWaits(v.pc, v.t, hp, v.full, v.f)
    requires Beside(v, op, u, pc, pc') && WriterWaits(pc, u, hp, v.full, v.f)
    ensures WriterWaits(pc', u, hp', full', v.f')
  {
  }

  lemma CallBesideReader(v: View, op: Op, hp: Pc, hp': Pc, full': bool, empty': bool, u: nat, pc: Pc, pc': Pc)
    requires Others(v, op) && Framed(v, op, hp, hp', full', empty') && ReaderWaits(v.pc, v.t, hp, v.empty, v.f)
    requires Beside(v, op, u, pc, pc') && ReaderWaits(pc, u, hp, v.empty, v.f)
    ensures ReaderWaits(pc', u, hp', empty', v.f')
  {
  }

  lemma StepInv(s: State, t: nat, op: Op, s': State)
    requires Inv(s) && Step(s, t, op, s')
    ensures Inv(s')
  {
    hide Queue, Writes, Reads, Others, Ok;
    var v := Viewed(s, t, s');
    OwnOps(v, op);
    RingQueue(s, op, s');
    assert Framed(v, op, HolderPc(s), HolderPc(s'), Full(s'), Empty(s'));
    OwnOk(v, op, HolderPc(s), HolderPc(s'), Full(s'), Empty(s'));
    forall u | 0 <= u < |s'.at|
      ensures Ok(s'.at[u], u, HolderPc(s'), Full(s'), Empty(s'), s'.flags)
    {
      if u != t {
        OtherOk(v, op, HolderPc(s), HolderPc(s'), Full(s'), Empty(s'), u, s.at[u], s'.at[u]);
      }
    }
  }

  lemma RingQueue(s: State, op: Op, s': State)
    requires Queue(s) && Ring(s, op, s') && (op.Store? ==> !Full(s)) && (op.Take? ==> !Empty(s))
    ensures Queue(s') && (op.Store? ==> !Empty(s')) && (op.Take? ==> !Full(s'))
    ensures !op.Store? && !op.Take? ==> Full(s') == Full(s) && Empty(s') == Empty(s)
  {
    Tests(s);
    if op.Store? {
      StoreQueue(s, op.b, s');
      Tests(s');
    } else if op.Take? {
      TakeQueue(s, s');
      Tests(s');
    }
  }

  // ----- runs -----

  ghost predicate Steps(s: State, s': State) {
    && |s.killed| == |s.at| && |s.data| == PIPESIZE
    && ((exists t: nat, op :: Step(s, t, op, s')) || (exists t :: Killed(s, t, s')))
  }

  predicate Killed(s: State, t: int, s': State) {
    0 <= t < |s.killed| && s' == s.(killed := s.killed[t := true])
  }

  /** Any interleaving of any number of threads, from a new pipe. */
  ghost predicate Run(run: seq<State>) {
    && |run| > 0
    && |run[0].data| == PIPESIZE && run[0].nread == run[0].nwrite == 0 && run[0].stored == run[0].taken == []
    && run[0].flags == Flags(true, true, false) && run[0].lock == NOBODY && |run[0].killed| == |run[0].at|
    && (forall t :: 0 <= t < |run[0].at| ==> run[0].at[t] == Out)
    && forall i, j :: 0 <= i < j < |run| && j == i + 1 ==> Steps(run[i], run[j])
  }

  lemma {:induction false} RunInv(run: seq<State>, i: nat)
    requires Run(run) && i < |run|
    ensures Inv(run[i])
  {
    if i > 0 {
      RunInv(run, i - 1);
      StepsInv(run[i - 1], run[i]);
    }
  }

  lemma StepsInv(s: State, s': State)
    requires Inv(s) && Steps(s, s')
    ensures Inv(s')
  {
    hide Queue, Step, Ok;
    if t: nat, op :| Step(s, t, op, s') {
      StepInv(s, t, op, s');
    } else {
      var t :| Killed(s, t, s');
      QueueFrame(s, s');
    }
  }

  lemma QueueFrame(s: State, s': State)
    requires Queue(s) && s'.data == s.data && s'.nread == s.nread && s'.nwrite == s.nwrite && s'.stored == s.stored
    requires s'.taken == s.taken
    ensures Queue(s')
  {
  }

  /** Bytes come out in the order they went in, none lost or repeated, however often the counters wrap. */
  lemma FirstInFirstOut(run: seq<State>, i: nat)
    requires Run(run) && i < |run|
    ensures run[i].taken <= run[i].stored && |run[i].stored| <= |run[i].taken| + PIPESIZE
  {
    RunInv(run, i);
  }

  /** With pi->lock free, a writer asleep means a full pipe whose read end is open. */
  lemma WriterAsleep(run: seq<State>, i: nat, t: nat)
    requires Run(run) && i < |run| && t < |run[i].at| && run[i].lock == NOBODY && run[i].at[t].WriteAsleep?
    ensures |run[i].stored| == |run[i].taken| + PIPESIZE && run[i].flags.readopen
  {
    RunInv(run, i);
    Tests(run[i]);
  }

  /** Asleep in piperead though there is something to read, or nobody left to write. */
  predicate Stranded(s: State, u: int) {
    0 <= u < |s.at| && s.at[u].ReadAsleep? && !(Empty(s) && s.flags.writeopen)
  }

  /**
   With pi->lock free, the write end is open while a reader sleeps, and the pipe is empty
   unless bytes have been stored that no wakeup has announced: only then is it stranded.
   */
  lemma ReaderAsleep(run: seq<State>, i: nat, t: nat)
    requires Run(run) && i < |run| && t < |run[i].at| && run[i].lock == NOBODY && run[i].at[t].ReadAsleep?
    ensures run[i].flags.writeopen
    ensures Stranded(run[i], t) <==> run[i].stored != run[i].taken
    ensures Stranded(run[i], t) ==> run[i].flags.unsaid
  {
    RunInv(run, i);
    Tests(run[i]);
    assert Ok(run[i].at[t], t, Out, Full(run[i]), Empty(run[i]), run[i].flags);
  }

  // ----- how bytes come to be unannounced -----

  /** pipewrite is about to return -1 with bytes stored that it has not announced. */
  predicate GivesUp(s: State, t: nat)
    requires t < |s.at| == |s.killed|
  {
    && s.at[t].Write? && s.at[t].i < s.at[t].n && s.flags.unsaid
    && (!s.flags.readopen || s.killed[t])
  }

  /** A writer that leaves from the loop leaves unannounced bytes behind exactly when it gives up. */
  lemma LeavesUnsaid(s: State, t: nat, op: Op, s': State)
    requires Inv(s) && Step(s, t, op, s') && s.at[t].Write? && s'.lock == NOBODY
    ensures s'.flags.unsaid <==> GivesUp(s, t)
  {
    hide Queue, Ok;
    OwnOps(Viewed(s, t, s'), op);
  }

  /** The step from s to s' is such a return. */
  ghost predicate Abandons(s: State, s': State) {
    exists t: nat, op :: t < |s.at| == |s.killed| && |s.data| == PIPESIZE && GivesUp(s, t) && s.lock == t
      && s'.lock == NOBODY && Step(s, t, op, s')
  }

  /** A writer gave up at j, and up to i no wakeup(&nread) has begun. */
  ghost predicate Abandoned(run: seq<State>, j: int, i: nat) {
    && 0 <= j < i < |run| && Abandons(run[j], run[j + 1])
    && forall k :: j < k <= i ==> run[k].flags.unsaid
  }

  /** Unannounced bytes belong to the writer in the loop, or to one that gave up. */
  lemma {:induction false} UnsaidFrom(run: seq<State>, i: nat)
    requires Run(run) && i < |run| && run[i].flags.unsaid
    ensures HolderPc(run[i]).Write? || exists j :: Abandoned(run, j, i)
  {
    hide Queue, Ok, Step, Abandons;
    if i > 0 {
      var h := i - 1;
      RunInv(run, h);
      assert Steps(run[h], run[i]);
      if run[h].flags.unsaid {
        UnsaidFrom(run, h);
      }
      if j :| Abandoned(run, j, h) {
        assert run[h].flags.unsaid && Abandoned(run, j, i);
      } else {
        UnsaidStep(run[h], run[i]);
        if Abandons(run[h], run[i]) {
          assert Abandoned(run, h, i);
        }
      }
    }
  }

  lemma UnsaidStep(s: State, s': State)
    requires Inv(s) && Steps(s, s') && s'.flags.unsaid && (s.flags.unsaid ==> HolderPc(s).Write?)
    ensures HolderPc(s').Write? || Abandons(s, s')
  {
    hide Queue, Ok, Step;
    if t: nat, op :| Step(s, t, op, s') {
      UnsaidBy(s, t, op, s');
    }
  }

  lemma UnsaidBy(s: State, t: nat, op: Op, s': State)
    requires Inv(s) && Step(s, t, op, s') && s'.flags.unsaid && (s.flags.unsaid ==> HolderPc(s).Write?)
    ensures HolderPc(s').Write? || Abandons(s, s')
  {
    hide Ok;
    OwnOps(Viewed(s, t, s'), op);
    if s.lock >= 0 && s.lock != t {
      assert Other(op, s.lock, s.at[s.lock], s'.at[s.lock]);
    }
    if s.lock == t && s'.lock == NOBODY {
      assert GivesUp(s, t);
    }
  }

  /**
   In every run: a reader stranded with pi->lock free has been left so by a writer that
   gave up, and no wakeup(&nread) has begun since.
   */
  lemma OnlyGivingUpStrands(run: seq<State>, i: nat, t: nat)
    requires Run(run) && i < |run| && run[i].lock == NOBODY && Stranded(run[i], t)
    ensures exists j :: Abandoned(run, j, i)
  {
    hide Run, Abandoned;
    ReaderAsleep(run, i, t);
    UnsaidFrom(run, i);
  }

  /** Two threads: a reader at r, a writer at w. */
  function Two(r: Pc, w: Pc, lock: int, bytes: seq<byte>, kill: bool): State
    requires |bytes| <= 1
  {
    State(if bytes == [] then seq<byte>(PIPESIZE, _ => 0) else seq<byte>(PIPESIZE, _ => 0)[0 := bytes[0]], 0, |bytes|,
          Flags(true, true, |bytes| > 0), lock, [r, w], [false, kill], bytes, [])
  }

  /** The i-th state of the run. */
  function Strands(i: nat): State
    requires i <= 10
  {
    if i == 0 then Two(Out, Out, NOBODY, [], false)
    else if i == 1 then Two(ReadLock(1), Out, NOBODY, [], false)
    else if i == 2 then Two(Read(1), Out, 0, [], false)
    else if i == 3 then Two(ReadDrowsy(1), Out, 0, [], false)
    else if i == 4 then Two(ReadFalling(1), Out, NOBODY, [], false)
    else if i == 5 then Two(ReadAsleep(1), Out, NOBODY, [], false)
    else if i == 6 then Two(ReadAsleep(1), WriteLock(0, 2), NOBODY, [], false)
    else if i == 7 then Two(ReadAsleep(1), Write(0, 2), 1, [], false)
    else if i == 8 then Two(ReadAsleep(1), Write(1, 2), 1, [65], false)
    else if i == 9 then Two(ReadAsleep(1), Write(1, 2), 1, [65], true)
    else Two(ReadAsleep(1), Out, NOBODY, [65], true)
  }

  lemma StrandsStep(i: nat)
    requires i < 10
    ensures Steps(Strands(i), Strands(i + 1))
  {
    if i == 8 {
      assert Killed(Strands(8), 1, Strands(9));
    } else if i < 5 {
      ReaderStep(i);
    } else {
      WriterStep(i);
    }
  }

  lemma ReaderStep(i: nat)
    requires i < 5
    ensures Steps(Strands(i), Strands(i + 1))
  {
    var op := if i == 1 then Acquire else if i == 3 then Release else Nothing;
    assert Step(Strands(i), 0, op, Strands(i + 1));
  }

  lemma WriterStep(i: nat)
    requires 5 <= i < 10 && i != 8
    ensures Steps(Strands(i), Strands(i + 1))
  {
    var op := if i == 5 then Nothing else if i == 6 then Acquire else if i == 7 then Store(65) else Release;
    assert Step(Strands(i), 1, op, Strands(i + 1));
  }

  /** A writer killed after storing a byte returns without wakeup: the reader sleeps on with a byte to read. */
  lemma StrandedReader() returns (run: seq<State>)
    ensures Run(run) && |run| == 11
    ensures run[10].at == [ReadAsleep(1), Out] && run[10].lock == NOBODY
    ensures run[10].stored == [65] && run[10].taken == [] && Stranded(run[10], 0)
  {
    hide Steps;
    run := seq(11, i requires 0 <= i < 11 => Strands(i));
    forall i, j | 0 <= i < j < |run| && j == i + 1
      ensures Steps(run[i], run[j])
    {
      StrandsStep(i);
    }
  }
}
