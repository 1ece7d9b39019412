/**
 Who waits for what in the virtio disk driver (kernel/virtio_disk.c): any number of threads
 in virtio_disk_rw and virtio_disk_intr, interleaved step by step under vdisk_lock, on top
 of the queue of Virtio and its device. A thread sleeps on &disk.free[0] for descriptors
 and on its buffer for its own request.
 */
module DiskWaiters {
  import opened Virtio

  datatype Pc =
    | Out
    | Lock(b: nat, r: Req)                // virtio_disk_rw: wants vdisk_lock
    | Alloc(b: nat, r: Req)               // holds vdisk_lock, at alloc3_desc
    | Undo(b: nat, r: Req, k: nat)        // alloc3_desc gives back what it took: wakeup(&disk.free[0])
    | AllocDrowsy(b: nat, r: Req)         // in sleep: vdisk_lock and its own lock held
    | AllocFalling(b: nat, r: Req)        // its own lock only, not yet SLEEPING
    | AllocAsleep(b: nat, r: Req)         // SLEEPING on &disk.free[0]
    | WaitLock(b: nat, h: nat)            // request queued under head h: wants vdisk_lock
    | Wait(b: nat, h: nat)                // holds vdisk_lock, tests b->disk
    | WaitDrowsy(b: nat, h: nat)
    | WaitFalling(b: nat, h: nat)
    | WaitAsleep(b: nat, h: nat)          // SLEEPING on b
    | Freed(k: nat)                       // chain freed: wakeup(&disk.free[0])
    | IntrLock
    | Intr                                // virtio_disk_intr: holds vdisk_lock
    | IntrWake(b: nat, k: nat)            // wakeup(b)

  const NOBODY: int := -1
  const FREE: int := -1                   // the channel &disk.free[0]; a buffer's channel is its number

  /** who gives the thread of each chain in flight, by head. */
  datatype Driver = Driver(q: Queue, g: History, lock: int, at: seq<Pc>, who: map<nat, nat>)

  predicate Holds(pc: Pc) {
    pc.Alloc? || pc.Undo? || pc.AllocDrowsy? || pc.Wait? || pc.WaitDrowsy? || pc.Freed? || pc.Intr? || pc.IntrWake?
  }

  predicate OwnLocked(pc: Pc) {
    pc.AllocDrowsy? || pc.AllocFalling? || pc.WaitDrowsy? || pc.WaitFalling?
  }

  predicate HasChain(pc: Pc) {
    pc.WaitLock? || pc.Wait? || pc.WaitDrowsy? || pc.WaitFalling? || pc.WaitAsleep?
  }

  /** Inside virtio_disk_rw for pc.b, whose sleep lock the caller holds. */
  predicate HasBuf(pc: Pc) {
    HasChain(pc) || pc.Lock? || pc.Alloc? || pc.Undo? || pc.AllocDrowsy? || pc.AllocFalling? || pc.AllocAsleep?
  }

  predicate NoThree(q: Queue)
    requires Sizes(q)
  {
    forall i, j, k :: 0 <= i < j < k < NUM ==> !q.free[i] || !q.free[j] || !q.free[k]
  }

  // ----- steps -----

  function To(s: Driver, t: nat, pc: Pc): Driver
    requires t < |s.at|
  {
    s.(at := s.at[t := pc])
  }

  function Woken(pc: Pc, chan: int): Pc {
    if chan == FREE && pc.AllocAsleep? then Lock(pc.b, pc.r)
    else if pc.WaitAsleep? && pc.b == chan then WaitLock(pc.b, pc.h)
    else pc
  }

  /** One turn of wakeup's scan, or its end; the caller itself is passed over. */
  ghost predicate Scan(s: Driver, t: nat, s': Driver, k: nat, chan: int, next: Pc, done: Pc)
    requires t < |s.at|
  {
    if k >= |s.at| then s' == To(s, t, done).(lock := if Holds(done) then t else NOBODY)
    else
      && (k == t || !OwnLocked(s.at[k]))
      && s' == To(if k == t then s else To(s, k, Woken(s.at[k], chan)), t, next)
  }

  /** The caller of virtio_disk_rw has b to itself. */
  ghost predicate Unused(s: Driver, b: nat) {
    forall u :: 0 <= u < |s.at| && HasBuf(s.at[u]) ==> s.at[u].b != b
  }

  /** Thread t goes on to pc with the lock at l, and changes nothing else. */
  ghost predicate Goes(s: Driver, t: nat, pc: Pc, l: int)
    requires t < |s.at| && Sizes(s.q)
  {
    match s.at[t]
    case Out => l == s.lock && (pc == IntrLock || (pc.Lock? && Unused(s, pc.b)))
    case Lock(b, r) => s.lock == NOBODY && l == t && pc == Alloc(b, r)
    case Alloc(b, r) => l == s.lock && NoThree(s.q) && (pc == Undo(b, r, 0) || pc == AllocDrowsy(b, r))
    case AllocDrowsy(b, r) => l == NOBODY && pc == AllocFalling(b, r)
    case AllocFalling(b, r) => l == s.lock && pc == AllocAsleep(b, r)
    case AllocAsleep(b, r) => l == s.lock && pc == Lock(b, r)     // kkill makes any sleeper runnable
    case WaitLock(b, h) => s.lock == NOBODY && l == t && pc == Wait(b, h)
    case Wait(b, h) => l == s.lock && b in s.q.disk && s.q.disk[b] && pc == WaitDrowsy(b, h)
    case WaitDrowsy(b, h) => l == NOBODY && pc == WaitFalling(b, h)
    case WaitFalling(b, h) => l == s.lock && pc == WaitAsleep(b, h)
    case WaitAsleep(b, h) => l == s.lock && pc == WaitLock(b, h)
    case IntrLock => s.lock == NOBODY && l == t && pc == Intr
    case Intr => s.q.seen == s.q.usedIdx && l == NOBODY && pc == Out
    case _ => false
  }

  ghost predicate Moves(s: Driver, t: nat, s': Driver)
    requires t < |s.at| && Sizes(s.q)
  {
    |s'.at| == |s.at| && Goes(s, t, s'.at[t], s'.lock) && s' == To(s, t, s'.at[t]).(lock := s'.lock)
  }

  ghost predicate Scans(s: Driver, t: nat, s': Driver)
    requires t < |s.at|
  {
    match s.at[t]
    case Undo(b, r, k) => Scan(s, t, s', k, FREE, Undo(b, r, k + 1), AllocDrowsy(b, r))
    case Freed(k) => Scan(s, t, s', k, FREE, Freed(k + 1), Out)
    case IntrWake(b, k) => Scan(s, t, s', k, b, IntrWake(b, k + 1), Intr)
    case _ => false
  }

  ghost predicate Queues(s: Driver, t: nat, s': Driver, h: nat, i1: nat, i2: nat)
    requires t < |s.at|
  {
    && s.at[t].Alloc? && Submits(s.q, s.g, h, i1, i2, s.at[t].b, s.at[t].r, s'.q, s'.g)
    && s' == Driver(s'.q, s'.g, s.lock, s.at[t := Wait(s.at[t].b, h)], s.who[h := t])
  }

  ghost predicate Ends(s: Driver, t: nat, s': Driver)
    requires t < |s.at|
  {
    && s.at[t].Wait? && !(s.at[t].b in s.q.disk && s.q.disk[s.at[t].b]) && Finishes(s.q, s.g, s.at[t].h, s'.q, s'.g)
    && s' == Driver(s'.q, s'.g, s.lock, s.at[t := Freed(0)], s.who - {s.at[t].h})
  }

  ghost predicate Handles(s: Driver, t: nat, s': Driver)
    requires t < |s.at|
  {
    && s.at[t].Intr? && Completes(s.q, s.g, s'.q, s'.g)
    && s' == Driver(s'.q, s'.g, s.lock, s.at[t := IntrWake(s.g.chains[s.q.used[s.q.seen % NUM]].b, 0)], s.who)
  }

  /** The device takes a request or finishes one. */
  ghost predicate Works(s: Driver, s': Driver) {
    && (Fetches(s.q, s.g, s'.q, s'.g) || exists h, good :: Posts(s.q, s.g, h, good, s'.q, s'.g))
    && s' == Driver(s'.q, s'.g, s.lock, s.at, s.who)
  }

  ghost predicate Step(s: Driver, t: nat, s': Driver)
    requires t < |s.at| && Sizes(s.q)
  {
    Moves(s, t, s') || Scans(s, t, s') || (exists h, i1, i2 :: Queues(s, t, s', h, i1, i2)) || Ends(s, t, s')
      || Handles(s, t, s')
  }

  // ----- the invariant -----

  function HolderPc(s: Driver): Pc {
    if 0 <= s.lock < |s.at| then s.at[s.lock] else Out
  }

  /** The holder of vdisk_lock, at hp, has yet to wake thread u if it sleeps for descriptors, or on b. */
  predicate WakesAlloc(hp: Pc, u: nat) {
    hp.Freed? && hp.k <= u
  }

  predicate WakesWait(hp: Pc, b: nat, u: nat) {
    hp.IntrWake? && hp.b == b && hp.k <= u
  }

  /**
   Nobody sleeps past its condition: short, fewer than three descriptors are free; done, the
   thread's request is done.
   */
  predicate Sleeps(pc: Pc, u: nat, hp: Pc, short: bool, done: bool) {
    && (pc.AllocDrowsy? || pc.Undo? ==> short)
    && (pc.AllocFalling? || pc.AllocAsleep? ==> short || WakesAlloc(hp, u))
    && (pc.WaitDrowsy? ==> !done)
    && (pc.WaitFalling? || pc.WaitAsleep? ==> !done || WakesWait(hp, pc.b, u))
  }

  predicate Done(pc: Pc, g: History) {
    HasChain(pc) && pc.h in g.chains && g.chains[pc.h].phase.Done?
  }

  predicate ChainOk(pc: Pc, u: nat, g: History, who: map<nat, nat>) {
    HasChain(pc) ==> pc.h in g.chains && g.chains[pc.h].b == pc.b && pc.h in who && who[pc.h] == u
  }

  /** Thread x of at has chain h. */
  predicate Has(at: seq<Pc>, who: map<nat, nat>, h: nat) {
    h in who && who[h] < |at| && HasChain(at[who[h]]) && at[who[h]].h == h
  }

  predicate HeadOk(g: History, b: nat) {
    b in g.headOf ==> g.headOf[b] in g.chains && g.chains[g.headOf[b]].b == b
  }

  ghost predicate Waits(s: Driver)
    requires Sizes(s.q)
  {
    forall u :: 0 <= u < |s.at| ==> Sleeps(s.at[u], u, HolderPc(s), NoThree(s.q), Done(s.at[u], s.g))
  }

  predicate Locked(lock: int, at: seq<Pc>) {
    -1 <= lock < |at| && forall u :: 0 <= u < |at| ==> (Holds(at[u]) <==> lock == u)
  }

  ghost predicate Threads(s: Driver) {
    && Locked(s.lock, s.at)
    && (forall u :: 0 <= u < |s.at| ==> ChainOk(s.at[u], u, s.g, s.who))
    && (forall u, v :: 0 <= u < v < |s.at| && HasBuf(s.at[u]) && HasBuf(s.at[v]) ==> s.at[u].b != s.at[v].b)
    && (forall h :: h in s.g.chains ==> Has(s.at, s.who, h))
    && (forall b :: HeadOk(s.g, b))
  }

  ghost predicate Inv(s: Driver) {
    Virtio.Inv(s.q, s.g) && Threads(s) && Waits(s)
  }

  // ----- preservation -----

  /** The same chain, and the same buffer if it had one. */
  predicate Same(pc: Pc, pc': Pc) {
    && HasChain(pc) == HasChain(pc') && (HasChain(pc) ==> pc.h == pc'.h)
    && (HasBuf(pc) ==> HasBuf(pc') && pc.b == pc'.b)
  }

  /** A step without the queue, in which only t may take a buffer up. */
  ghost predicate Keeps(s: Driver, t: nat, s': Driver) {
    && |s'.at| == |s.at| && s'.q == s.q && s'.g == s.g && s'.who == s.who && Locked(s'.lock, s'.at)
    && (forall u :: 0 <= u < |s.at| ==> Same(s.at[u], s'.at[u]))
    && (forall u :: 0 <= u < |s.at| && HasBuf(s'.at[u]) && !HasBuf(s.at[u]) ==> u == t && Unused(s, s'.at[u].b))
  }

  lemma KeepsThreads(s: Driver, t: nat, s': Driver)
    requires Threads(s) && Keeps(s, t, s')
    ensures Threads(s')
  {
    hide Locked;
    forall u | 0 <= u < |s'.at|
      ensures ChainOk(s'.at[u], u, s'.g, s'.who)
    {
      assert ChainOk(s.at[u], u, s.g, s.who) && Same(s.at[u], s'.at[u]);
    }
    forall h | h in s.g.chains
      ensures Has(s'.at, s'.who, h)
    {
      assert Has(s.at, s.who, h) && Same(s.at[s.who[h]], s'.at[s.who[h]]);
    }
    KeepsBufs(s, t, s');
  }

  lemma KeepsBufs(s: Driver, t: nat, s': Driver)
    requires Threads(s) && Keeps(s, t, s')
    ensures forall u, v :: 0 <= u < v < |s'.at| && HasBuf(s'.at[u]) && HasBuf(s'.at[v]) ==> s'.at[u].b != s'.at[v].b
  {
    hide Locked, ChainOk, Has, HeadOk;
    forall u, v | 0 <= u < v < |s'.at| && HasBuf(s'.at[u]) && HasBuf(s'.at[v])
      ensures s'.at[u].b != s'.at[v].b
    {
      assert Same(s.at[u], s'.at[u]) && Same(s.at[v], s'.at[v]);
    }
  }

  /** A thread that does not hold vdisk_lock leaves it, or takes it when it is free. */
  lemma GoesOn(s: Driver, t: nat, pc: Pc, l: int)
    requires Sizes(s.q) && Locked(s.lock, s.at) && t < |s.at| && Goes(s, t, pc, l)
    ensures Same(s.at[t], pc) && (HasBuf(pc) && !HasBuf(s.at[t]) ==> Unused(s, pc.b))
    ensures Holds(pc) <==> l == t
    ensures l != s.lock ==> s.lock in {NOBODY, t} && l in {NOBODY, t}
    ensures !s.at[t].Freed? && !s.at[t].IntrWake?
  {
    hide NoThree, Unused;
    assert Holds(s.at[t]) <==> s.lock == t;
  }

  lemma MovesKeeps(s: Driver, t: nat, s': Driver)
    requires Sizes(s.q) && Locked(s.lock, s.at) && t < |s.at| && Moves(s, t, s')
    ensures Keeps(s, t, s') && forall u :: 0 <= u < |s.at| && u != t ==> s'.at[u] == s.at[u]
    ensures HolderPc(s).Freed? || HolderPc(s).IntrWake? ==> HolderPc(s') == HolderPc(s)
  {
    hide NoThree, Unused, Goes, Holds, HasBuf, HasChain;
    GoesOn(s, t, s'.at[t], s'.lock);
    forall u | 0 <= u < |s.at|
      ensures Same(s.at[u], s'.at[u]) && (Holds(s'.at[u]) <==> s'.lock == u)
    {
      assert Holds(s.at[u]) <==> s.lock == u;
    }
  }

  /** What t finds when it goes to sleep is so. */
  lemma MovesOwn(s: Driver, t: nat, s': Driver)
    requires Sizes(s.q) && t < |s.at| && Moves(s, t, s') && Formed(s) && ChainOk(s.at[t], t, s.g, s.who)
    requires Sleeps(s.at[t], t, HolderPc(s), NoThree(s.q), Done(s.at[t], s.g)) && s'.q == s.q
    requires |s'.at| == |s.at| && (HolderPc(s).Freed? || HolderPc(s).IntrWake? ==> HolderPc(s') == HolderPc(s))
    ensures Sleeps(s'.at[t], t, HolderPc(s'), NoThree(s'.q), Done(s'.at[t], s'.g))
  {
    hide NoThree, HolderPc, Unused;
  }

  lemma MovesWaits(s: Driver, t: nat, s': Driver)
    requires Sizes(s.q) && Threads(s) && Waits(s) && t < |s.at| && Moves(s, t, s') && Formed(s)
    ensures Keeps(s, t, s') && Waits(s')
  {
    hide NoThree, Has, HeadOk, Moves, HolderPc, Locked, Same, Unused;
    MovesKeeps(s, t, s');
    MovesOwn(s, t, s');
    forall u | 0 <= u < |s'.at|
      ensures Sleeps(s'.at[u], u, HolderPc(s'), NoThree(s'.q), Done(s'.at[u], s'.g))
    {
      assert Sleeps(s.at[u], u, HolderPc(s), NoThree(s.q), Done(s.at[u], s.g));
    }
  }

  /** The driver's flag for a thread's buffer says whether its request is done. */
  ghost predicate Formed(s: Driver) {
    forall h :: h in s.g.chains ==>
      s.g.chains[h].b in s.q.disk && s.q.disk[s.g.chains[h].b] == !s.g.chains[h].phase.Done?
  }

  lemma ChainsFormed(s: Driver)
    requires Virtio.Inv(s.q, s.g)
    ensures Formed(s)
  {
    hide Rings;
    forall h | h in s.g.chains
      ensures s.g.chains[h].b in s.q.disk && s.q.disk[s.g.chains[h].b] == !s.g.chains[h].phase.Done?
    {
      ChainFacts(s.q, s.g, h);
    }
  }

  lemma ScansKeeps(s: Driver, t: nat, s': Driver)
    requires Locked(s.lock, s.at) && t < |s.at| && Scans(s, t, s')
    ensures Keeps(s, t, s')
  {
    hide Unused;
    assert Holds(s.at[t]) <==> s.lock == t;
    forall u | 0 <= u < |s.at|
      ensures Same(s.at[u], s'.at[u]) && (Holds(s'.at[u]) <==> s'.lock == u) && (HasBuf(s'.at[u]) ==> HasBuf(s.at[u]))
    {
      assert Holds(s.at[u]) <==> s.lock == u;
    }
  }

  /** A scan leaves no sleeper behind that its condition should have woken. */
  lemma ScanOther(s: Driver, t: nat, s': Driver, u: nat, k: nat, chan: int, next: Pc, done: Pc, short: bool)
    requires t < |s.at| && u < |s.at| && u != t && Scan(s, t, s', k, chan, next, done)
    requires
      || (s.at[t].Undo? && k == s.at[t].k && next.Undo? && chan == FREE)
      || (s.at[t] == Freed(k) && next == Freed(k + 1) && chan == FREE)
      || (chan >= 0 && s.at[t] == IntrWake(chan, k) && next == IntrWake(chan, k + 1))
    requires Sleeps(s.at[u], u, s.at[t], short, Done(s.at[u], s.g)) && (s.at[t].Undo? ==> short)
    ensures |s'.at| == |s.at| && s'.g == s.g
    ensures Sleeps(s'.at[u], u, if k < |s.at| then next else Out, short, Done(s'.at[u], s'.g))
  {
    hide HasBuf, Holds, Done;
    assert s'.at[u] == s.at[u] || (k == u && s'.at[u] == Woken(s.at[u], chan));
  }

  lemma ScansOne(s: Driver, t: nat, s': Driver, u: nat, short: bool)
    requires t < |s.at| && u < |s.at| && s.lock == t && Scans(s, t, s')
    requires Sleeps(s.at[u], u, s.at[t], short, Done(s.at[u], s.g))
    requires Sleeps(s.at[t], t, s.at[t], short, Done(s.at[t], s.g))
    ensures |s'.at| == |s.at| && Sleeps(s'.at[u], u, HolderPc(s'), short, Done(s'.at[u], s'.g))
  {
    hide HasBuf, HolderPc, Woken;
    ScanHolder(s, t, s');
    if u != t {
      match s.at[t]
      case Undo(b, r, k) => ScanOther(s, t, s', u, k, FREE, Undo(b, r, k + 1), AllocDrowsy(b, r), short);
      case Freed(k) => ScanOther(s, t, s', u, k, FREE, Freed(k + 1), Out, short);
      case IntrWake(b, k) => ScanOther(s, t, s', u, k, b, IntrWake(b, k + 1), Intr, short);
    }
  }

  lemma ScanHolder(s: Driver, t: nat, s': Driver)
    requires t < |s.at| && s.lock == t && Scans(s, t, s')
    ensures |s'.at| == |s.at| && HolderPc(s') == if Holds(s'.at[t]) then s'.at[t] else Out
  {
    hide HasBuf, Woken;
  }

  lemma ScansWaits(s: Driver, t: nat, s': Driver)
    requires Sizes(s.q) && Threads(s) && Waits(s) && t < |s.at| && Scans(s, t, s') && s'.q == s.q && |s'.at| == |s.at|
    ensures Waits(s')
  {
    hide NoThree, Has, HeadOk, HasBuf, ChainOk, Scans, Sleeps, Done;
    ScansHolds(s, t, s');
    forall u | 0 <= u < |s'.at|
      ensures Sleeps(s'.at[u], u, HolderPc(s'), NoThree(s'.q), Done(s'.at[u], s'.g))
    {
      assert Sleeps(s.at[u], u, HolderPc(s), NoThree(s.q), Done(s.at[u], s.g));
      assert Sleeps(s.at[t], t, HolderPc(s), NoThree(s.q), Done(s.at[t], s.g));
      assert Holds(s.at[u]) <==> s.lock == u;
      ScansOne(s, t, s', u, NoThree(s.q));
    }
  }

  lemma ScansHolds(s: Driver, t: nat, s': Driver)
    requires t < |s.at| && Scans(s, t, s') && Locked(s.lock, s.at)
    ensures s.lock == t
  {
    hide Scan;
    assert Holds(s.at[t]) <==> s.lock == t;
  }

  lemma QueuesThreads(s: Driver, t: nat, s': Driver, h: nat, i1: nat, i2: nat)
    requires Sizes(s.q) && Threads(s) && t < |s.at| && Queues(s, t, s', h, i1, i2) && h !in s.g.chains
    requires |s.g.owner| == NUM
    ensures Threads(s')
  {
    hide CanSubmit, Submit;
    var b := s.at[t].b;
    forall u | 0 <= u < |s'.at|
      ensures ChainOk(s'.at[u], u, s'.g, s'.who)
    {
      assert ChainOk(s.at[u], u, s.g, s.who);
    }
    forall x | x in s'.g.chains
      ensures Has(s'.at, s'.who, x)
    {
      assert x != h ==> Has(s.at, s.who, x);
    }
    forall x
      ensures HeadOk(s'.g, x)
    {
      assert HeadOk(s.g, x);
    }
  }

  lemma QueuesWaits(s: Driver, t: nat, s': Driver, h: nat, i1: nat, i2: nat)
    requires Sizes(s.q) && Threads(s) && Waits(s) && t < |s.at| && Queues(s, t, s', h, i1, i2) && !NoThree(s.q)
    requires h !in s.g.chains && !s'.g.chains[h].phase.Done? && Sizes(s'.q)
    requires forall x :: x in s.g.chains ==> x in s'.g.chains && s'.g.chains[x] == s.g.chains[x]
    ensures Waits(s')
  {
    hide NoThree, Has, HeadOk, Submits;
    forall u | 0 <= u < |s'.at|
      ensures Sleeps(s'.at[u], u, HolderPc(s'), NoThree(s'.q), Done(s'.at[u], s'.g))
    {
      assert Sleeps(s.at[u], u, HolderPc(s), NoThree(s.q), Done(s.at[u], s.g));
      assert ChainOk(s.at[u], u, s.g, s.who);
      assert Holds(s.at[u]) <==> s.lock == u;
      assert Holds(s.at[t]) <==> s.lock == t;
    }
  }

  lemma QueuesInv(s: Driver, t: nat, s': Driver, h: nat, i1: nat, i2: nat)
    requires Inv(s) && t < |s.at| && Queues(s, t, s', h, i1, i2)
    ensures Inv(s')
  {
    hide Threads, Waits, Partition, Rings;
    SubmitInv(s.q, s.g, h, i1, i2, s.at[t].b, s.at[t].r);
    NotYet(s, t, s', h, i1, i2);
    QueuesThreads(s, t, s', h, i1, i2);
    QueuesWaits(s, t, s', h, i1, i2);
  }

  lemma NotYet(s: Driver, t: nat, s': Driver, h: nat, i1: nat, i2: nat)
    requires Virtio.Inv(s.q, s.g) && t < |s.at| && Queues(s, t, s', h, i1, i2)
    ensures h !in s.g.chains && !NoThree(s.q) && |s.g.owner| == NUM
  {
    hide Rings;
    assert h in s.g.chains ==> Formatted(s.q, h, s.g.chains[h]);
    var x, z := Least(h, i1, i2), Most(h, i1, i2);
    var y := h + i1 + i2 - x - z;
    assert s.q.free[x] && s.q.free[y] && s.q.free[z] && x < y < z;
  }

  function Least(a: nat, b: nat, c: nat): nat {
    if a <= b && a <= c then a else if b <= c then b else c
  }

  function Most(a: nat, b: nat, c: nat): nat {
    if a >= b && a >= c then a else if b >= c then b else c
  }

  lemma EndsThreads(s: Driver, t: nat, s': Driver)
    requires Sizes(s.q) && Threads(s) && t < |s.at| && Ends(s, t, s')
    ensures Threads(s')
  {
    hide Finish;
    var h := s.at[t].h;
    assert ChainOk(s.at[t], t, s.g, s.who);
    forall u | 0 <= u < |s'.at|
      ensures ChainOk(s'.at[u], u, s'.g, s'.who)
    {
      assert ChainOk(s.at[u], u, s.g, s.who);
    }
    forall x | x in s'.g.chains
      ensures Has(s'.at, s'.who, x)
    {
      assert Has(s.at, s.who, x);
    }
    forall x
      ensures HeadOk(s'.g, x)
    {
      assert HeadOk(s.g, x) && Owns(s.g, h);
    }
  }

  lemma EndsWaits(s: Driver, t: nat, s': Driver)
    requires Sizes(s.q) && Threads(s) && Waits(s) && t < |s.at| && Ends(s, t, s') && Sizes(s'.q)
    ensures Waits(s')
  {
    hide NoThree, Has, HeadOk, Finish;
    forall u | 0 <= u < |s'.at|
      ensures Sleeps(s'.at[u], u, HolderPc(s'), NoThree(s'.q), Done(s'.at[u], s'.g))
    {
      assert Sleeps(s.at[u], u, HolderPc(s), NoThree(s.q), Done(s.at[u], s.g));
      assert ChainOk(s.at[u], u, s.g, s.who) && ChainOk(s.at[t], t, s.g, s.who);
      assert Holds(s.at[u]) <==> s.lock == u;
      assert Holds(s.at[t]) <==> s.lock == t;
    }
  }

  lemma HandlesThreads(s: Driver, t: nat, s': Driver)
    requires Sizes(s.q) && Threads(s) && t < |s.at| && Handles(s, t, s')
    ensures Threads(s')
  {
    hide Complete;
    forall u | 0 <= u < |s'.at|
      ensures ChainOk(s'.at[u], u, s'.g, s'.who)
    {
      assert ChainOk(s.at[u], u, s.g, s.who);
    }
    forall x | x in s'.g.chains
      ensures Has(s'.at, s'.who, x)
    {
      assert Has(s.at, s.who, x);
    }
    forall x
      ensures HeadOk(s'.g, x)
    {
      assert HeadOk(s.g, x);
    }
  }

  lemma HandlesWaits(s: Driver, t: nat, s': Driver)
    requires Sizes(s.q) && Threads(s) && Waits(s) && t < |s.at| && Handles(s, t, s') && s'.q.free == s.q.free
    requires Sizes(s'.q)
    ensures Waits(s')
  {
    hide Has, HeadOk, Complete;
    assert NoThree(s'.q) == NoThree(s.q);
    forall u | 0 <= u < |s'.at|
      ensures Sleeps(s'.at[u], u, HolderPc(s'), NoThree(s'.q), Done(s'.at[u], s'.g))
    {
      assert Sleeps(s.at[u], u, HolderPc(s), NoThree(s.q), Done(s.at[u], s.g));
      assert ChainOk(s.at[u], u, s.g, s.who);
      assert Holds(s.at[u]) <==> s.lock == u;
      assert Holds(s.at[t]) <==> s.lock == t;
    }
  }

  lemma WorksThreads(s: Driver, s': Driver)
    requires Threads(s) && Works(s, s')
    ensures Threads(s')
    ensures forall h :: h in s.g.chains ==> h in s'.g.chains
    ensures forall h :: h in s.g.chains && s'.g.chains[h].phase.Done? ==> s.g.chains[h].phase.Done?
  {
    hide Fetch, Post;
    forall u | 0 <= u < |s'.at|
      ensures ChainOk(s'.at[u], u, s'.g, s'.who)
    {
      assert ChainOk(s.at[u], u, s.g, s.who);
    }
    forall x | x in s'.g.chains
      ensures Has(s'.at, s'.who, x)
    {
      assert Has(s.at, s.who, x);
    }
    forall x
      ensures HeadOk(s'.g, x)
    {
      assert HeadOk(s.g, x);
    }
  }

  lemma WorksWaits(s: Driver, s': Driver)
    requires Sizes(s.q) && Sizes(s'.q) && Threads(s) && Waits(s) && s'.q.free == s.q.free && s'.lock == s.lock
    requires s'.at == s.at
    requires forall h :: h in s.g.chains ==> h in s'.g.chains
    requires forall h :: h in s.g.chains && s'.g.chains[h].phase.Done? ==> s.g.chains[h].phase.Done?
    ensures Waits(s')
  {
    hide Has, HeadOk;
    assert NoThree(s'.q) == NoThree(s.q);
    forall u | 0 <= u < |s'.at|
      ensures Sleeps(s'.at[u], u, HolderPc(s'), NoThree(s'.q), Done(s'.at[u], s'.g))
    {
      assert Sleeps(s.at[u], u, HolderPc(s), NoThree(s.q), Done(s.at[u], s.g));
      assert ChainOk(s.at[u], u, s.g, s.who);
    }
  }

  lemma WorksInv(s: Driver, s': Driver)
    requires Inv(s) && Works(s, s')
    ensures Inv(s')
  {
    hide Threads, Waits, Partition, Rings;
    assert Next(s.q, s.g, s'.q, s'.g);
    NextInv(s.q, s.g, s'.q, s'.g);
    WorksThreads(s, s');
    WorksWaits(s, s');
  }

  lemma StepInv(s: Driver, t: nat, s': Driver)
    requires Inv(s) && t < |s.at| && Step(s, t, s')
    ensures Inv(s')
  {
    hide Waits, Partition, Rings, Moves, Scans, Queues, ChainOk, Has, HeadOk, Locked;
    ChainsFormed(s);
    if Moves(s, t, s') {
      MovesWaits(s, t, s');
      KeepsThreads(s, t, s');
    } else if Scans(s, t, s') {
      ScansKeeps(s, t, s');
      KeepsThreads(s, t, s');
      ScansWaits(s, t, s');
    } else if h, i1, i2 :| Queues(s, t, s', h, i1, i2) {
      QueuesInv(s, t, s', h, i1, i2);
    } else {
      assert Next(s.q, s.g, s'.q, s'.g);
      NextInv(s.q, s.g, s'.q, s'.g);
      if Ends(s, t, s') {
        EndsThreads(s, t, s');
        EndsWaits(s, t, s');
      } else {
        HandlesThreads(s, t, s');
        HandlesWaits(s, t, s');
      }
    }
  }

  // ----- runs -----

  ghost predicate Steps(s: Driver, s': Driver) {
    Sizes(s.q) && ((exists t: nat :: t < |s.at| && Step(s, t, s')) || Works(s, s'))
  }

  /** Any interleaving of any number of threads and the device, from an initialised disk. */
  ghost predicate Run(run: seq<Driver>) {
    && |run| > 0 && Start(Virtio.State(run[0].q, run[0].g)) && run[0].lock == NOBODY
    && (forall t :: 0 <= t < |run[0].at| ==> run[0].at[t] == Out)
    && forall i, j :: 0 <= i < j < |run| && j == i + 1 ==> Steps(run[i], run[j])
  }

  lemma StartInv(s: Driver)
    requires Start(Virtio.State(s.q, s.g)) && s.lock == NOBODY && forall t :: 0 <= t < |s.at| ==> s.at[t] == Out
    ensures Inv(s)
  {
  }

  lemma {:induction false} RunInv(run: seq<Driver>, i: nat)
    requires Run(run) && i < |run|
    ensures Inv(run[i])
  {
    hide Inv, Step, Works;
    if i == 0 {
      StartInv(run[0]);
    } else {
      RunInv(run, i - 1);
      assert Steps(run[i - 1], run[i]);
      if Works(run[i - 1], run[i]) {
        WorksInv(run[i - 1], run[i]);
      } else {
        var t: nat :| t < |run[i - 1].at| && Step(run[i - 1], t, run[i]);
        StepInv(run[i - 1], t, run[i]);
      }
    }
  }

  /** A thread's buffer has no request in flight until it queues one: any three free descriptors will do. */
  lemma AllocProceeds(run: seq<Driver>, i: nat, t: nat, h: nat, i1: nat, i2: nat)
    requires Run(run) && i < |run| && t < |run[i].at| && run[i].at[t].Alloc? && Sizes(run[i].q)
    requires h < NUM && i1 < NUM && i2 < NUM && h != i1 && h != i2 && i1 != i2
    requires run[i].q.free[h] && run[i].q.free[i1] && run[i].q.free[i2]
    ensures run[i].at[t].b !in run[i].g.headOf && exists s' :: Queues(run[i], t, s', h, i1, i2)
  {
    hide Run, Partition, Rings, Waits, Locked, Submit, Submitted;
    RunInv(run, i);
    var s, b, r := run[i], run[i].at[t].b, run[i].at[t].r;
    assert HeadOk(s.g, b);
    OwnersSized(s.q, s.g);
    var s' := Driver(Submit(s.q, h, i1, i2, b, r), Submitted(s.g, h, i1, i2, b, r), s.lock,
                     s.at[t := Wait(b, h)], s.who[h := t]);
    assert Queues(s, t, s', h, i1, i2);
  }

  lemma OwnersSized(q: Queue, g: History)
    requires Virtio.Inv(q, g)
    ensures |g.owner| == NUM
  {
  }

  /** A thread that finds b->disk clear has its request done and frees the chain it queued. */
  lemma WaitProceeds(run: seq<Driver>, i: nat, t: nat)
    requires Run(run) && i < |run| && t < |run[i].at| && run[i].at[t].Wait?
    requires run[i].at[t].b in run[i].q.disk ==> !run[i].q.disk[run[i].at[t].b]
    ensures exists s' :: Ends(run[i], t, s')
  {
    hide Run, Partition, Rings, Waits, Locked, Finish, Finished;
    RunInv(run, i);
    var s, h := run[i], run[i].at[t].h;
    assert ChainOk(s.at[t], t, s.g, s.who);
    ChainsFormed(s);
    ChainFacts(s.q, s.g, h);
    var c := s.g.chains[h];
    var s' := Driver(Finish(s.q, h, c.i1, c.i2), Finished(s.g, h), s.lock, s.at[t := Freed(0)], s.who - {h});
    assert Ends(s, t, s');
  }

  /** With vdisk_lock free, a thread asleep on its buffer has a request the device or the used ring still holds. */
  lemma RequestPending(run: seq<Driver>, i: nat, t: nat)
    requires Run(run) && i < |run| && t < |run[i].at| && run[i].lock == NOBODY && run[i].at[t].WaitAsleep?
    ensures var s, pc := run[i], run[i].at[t];
      && pc.h in s.g.chains && s.g.chains[pc.h].b == pc.b && !s.g.chains[pc.h].phase.Done?
      && pc.b in s.q.disk && s.q.disk[pc.b]
  {
    hide Run;
    RunInv(run, i);
    var s := run[i];
    ChainsFormed(s);
    assert ChainOk(s.at[t], t, s.g, s.who);
    assert Sleeps(s.at[t], t, Out, NoThree(s.q), Done(s.at[t], s.g));
  }

  /**
   With vdisk_lock free, a thread asleep for descriptors finds fewer than three of them
   free, and two other threads have requests in flight: each will free its chain and wake it.
   */
  lemma DescriptorsTaken(run: seq<Driver>, i: nat, t: nat)
    requires Run(run) && i < |run| && t < |run[i].at| && run[i].lock == NOBODY && run[i].at[t].AllocAsleep?
    ensures Sizes(run[i].q) && NoThree(run[i].q)
    ensures exists u, v :: 0 <= u < v < |run[i].at| && HasChain(run[i].at[u]) && HasChain(run[i].at[v])
  {
    hide Run;
    RunInv(run, i);
    var s := run[i];
    assert Sleeps(s.at[t], t, Out, NoThree(s.q), Done(s.at[t], s.g));
    var h, k := TwoChains(s.q, s.g);
    assert Has(s.at, s.who, h) && Has(s.at, s.who, k);
    var u, v := s.who[h], s.who[k];
    if u < v {
      assert HasChain(s.at[u]) && HasChain(s.at[v]);
    } else {
      assert v < u && HasChain(s.at[v]) && HasChain(s.at[u]);
    }
  }

  /** Six of the eight descriptors are taken, so besides one chain there is another. */
  lemma TwoChains(q: Queue, g: History) returns (h: nat, k: nat)
    requires Virtio.Inv(q, g) && NoThree(q)
    ensures h in g.chains && k in g.chains && h != k
  {
    hide Rings, Partition, NoThree;
    var i := TakenBut(q, NUM, NUM, NUM);
    IsOwned(q, g, i);
    h := g.owner[i];
    var j := TakenBut(q, h, g.chains[h].i1, g.chains[h].i2);
    IsOwned(q, g, j);
    k := g.owner[j];
  }

  lemma IsOwned(q: Queue, g: History, i: nat)
    requires Virtio.Inv(q, g) && i < NUM && !q.free[i]
    ensures |g.owner| == NUM && g.owner[i] >= 0 && g.owner[i] in g.chains
    ensures (var h: nat := g.owner[i]; In(g.chains[h], h, i))
  {
    hide Rings, Formatted, Owns;
    assert OwnerOk(q, g, i);
  }

  /** Of eight positions at least three differ from x, y and z. */
  lemma TakenBut(q: Queue, x: nat, y: nat, z: nat) returns (i: nat)
    requires Sizes(q) && NoThree(q)
    ensures i < NUM && !q.free[i] && i != x && i != y && i != z
  {
    var a := NextBut(x, y, z, 0);
    var b := NextBut(x, y, z, a + 1);
    var c := NextBut(x, y, z, b + 1);
    assert !q.free[a] || !q.free[b] || !q.free[c];
    i := if !q.free[a] then a else if !q.free[b] then b else c;
  }

  /** The first position from j on that is none of x, y and z. */
  function NextBut(x: nat, y: nat, z: nat, j: nat): (i: nat)
    ensures j <= i <= j + 3 && i != x && i != y && i != z
  {
    if j != x && j != y && j != z then j
    else if j + 1 != x && j + 1 != y && j + 1 != z then j + 1
    else if j + 2 != x && j + 2 != y && j + 2 != z then j + 2
    else j + 3
  }
}
