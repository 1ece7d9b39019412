/**
 Processes, CPUs and their locks (kernel/proc.c) as interleaved steps: scheduler, swtch,
 yield, sleep, wakeup, kill, fork, exit and wait, each acquire and release a step of its
 own unless one lock alone is taken, looked under and dropped. A lock's holder is a CPU.
 */
module Scheduling {

  datatype PState = UNUSED | USED | SLEEPING | RUNNABLE | RUNNING | ZOMBIE

  datatype Chan = Nowhere | Child(parent: nat) | Other(id: nat)   // Child(p): asleep in kwait on p itself

  /** Where a process's kernel thread is. */
  datatype Pc =
    | Fresh                             // will start in forkret, holding its own lock
    | Run                               // anywhere that holds none of these locks
    | SleepOther(id: nat)               // sleep(chan): own lock held
    | AsleepOther                       // at sched() in sleep
    | Alloc(i: nat)                     // kfork: allocproc's scan
    | ForkCopy(np: nat)                 // holds np's lock
    | ForkWl(np: nat)
    | ForkParent(np: nat)               // holds wait_lock
    | ForkLock(np: nat)
    | ForkReady(np: nat)                // holds np's lock
    | ExitWl
    | Reparent(i: nat)                  // kexit, up to ExitRelease: holds wait_lock
    | WakeInit(i: nat, k: nat)
    | WakeParent(k: nat)
    | ExitLock
    | ExitSet                           // holds its own lock too
    | ExitRelease
    | Dead                              // at sched() in kexit
    | WaitWl
    | Scan(i: nat, kids: bool)          // kwait, up to SleepRelease: holds wait_lock
    | Reap(i: nat)                      // holds child i's lock too
    | Reaped(i: nat)
    | SleepLock
    | SleepRelease                      // holds its own lock too
    | SleepSet                          // own lock only
    | Asleep                            // at sched() in sleep

  /** A timer interrupt can put yield() on top of any point that holds no lock. */
  datatype Interrupt = None | YieldSet | Yielded

  datatype Proc = Proc(st: PState, chan: Chan, parent: int, killed: bool, lock: int,
                       pc: Pc, irq: Interrupt, on: int, maker: int)

  /** What a CPU executes: its scheduler, or the thread of a process. */
  datatype At = Idle | Got(p: nat) | Chosen(p: nat) | In(p: nat) | Back(p: nat) | Drop(p: nat)

  datatype Cpu = Cpu(proc: int, at: At)

  /** on and maker are auxiliary: the CPU a thread executes on, and who allocated a process. */
  datatype State = State(procs: seq<Proc>, cpus: seq<Cpu>, wl: int)

  const NOBODY: int := -1
  const INIT: nat := 0

  // ----- classes of points -----

  /** At sched(): suspended, about to switch out, or just switched back in. */
  predicate AtSched(r: Proc) {
    r.irq.Yielded? || (r.irq.None? && (r.pc.AsleepOther? || r.pc.Asleep? || r.pc.Dead?))
  }

  predicate OwnLocked(r: Proc) {
    || !r.irq.None?
    || r.pc.Fresh? || r.pc.SleepOther? || r.pc.AsleepOther? || r.pc.ExitSet? || r.pc.ExitRelease? || r.pc.Dead?
    || r.pc.SleepRelease? || r.pc.SleepSet? || r.pc.Asleep?
  }

  function OtherLock(pc: Pc): int {
    if pc.ForkCopy? || pc.ForkReady? then pc.np
    else if pc.Reap? || pc.Reaped? then pc.i
    else NOBODY
  }

  predicate HoldsWl(pc: Pc) {
    || pc.ForkParent? || pc.Reparent? || pc.WakeInit? || pc.WakeParent? || pc.ExitLock? || pc.ExitSet?
      || pc.ExitRelease?
    || pc.Scan? || pc.Reap? || pc.Reaped? || pc.SleepLock? || pc.SleepRelease?
  }

  /** Holds no lock, so interrupts are on. */
  predicate Preemptible(pc: Pc) {
    pc.Run? || pc.Alloc? || pc.ForkWl? || pc.ForkLock? || pc.ExitWl? || pc.WaitWl?
  }

  predicate Resumable(r: Proc) {
    r.irq.Yielded? || (r.irq.None? && (r.pc.Fresh? || r.pc.AsleepOther? || r.pc.Asleep?))
  }

  predicate Alive(st: PState) {
    st.SLEEPING? || st.RUNNABLE? || st.RUNNING?
  }

  // ----- control: who runs where and who holds what -----

  predicate Proc?(s: State, p: int) {
    0 <= p < |s.procs|
  }

  predicate Cpu?(s: State, c: int) {
    0 <= c < |s.cpus|
  }

  predicate CpuOk(s: State, c: int)
    requires Cpu?(s, c)
  {
    var u := s.cpus[c];
    (u.at.Idle? ==> u.proc == NOBODY)
    && (!u.at.Idle? ==>
          && Proc?(s, u.at.p)
          && var r := s.procs[u.at.p];
             && (u.at.Got? ==> u.proc == NOBODY && r.lock == c)
             && (u.at.Chosen? ==> u.proc == NOBODY && r.lock == c && r.st == RUNNING && r.on == NOBODY)
             && (u.at.In? ==> u.proc == u.at.p && r.on == c)
             && (u.at.Back? ==> u.proc == u.at.p && r.lock == c && r.on == NOBODY && r.st != RUNNING)
             && (u.at.Drop? ==> u.proc == NOBODY && r.lock == c))
  }

  predicate ProcOk(s: State, p: int)
    requires Proc?(s, p)
  {
    var r := s.procs[p];
    && -1 <= r.on < |s.cpus| && -1 <= r.lock < |s.cpus|
    && (r.on != NOBODY ==>
        s.cpus[r.on].at == In(p) && (r.st == RUNNING || (r.lock == r.on && (AtSched(r) || r.pc.ExitRelease?))))
    && (r.on == NOBODY && r.st == RUNNING ==> r.lock != NOBODY && s.cpus[r.lock].at == Chosen(p))
    && (r.on != NOBODY && OwnLocked(r) ==> r.lock == r.on)
  }

  /** The state a process is in says where its thread is. */
  predicate PcOk(r: Proc, p: nat) {
    && (r.st == SLEEPING ==>
        r.irq.None? && ((r.pc.Asleep? && r.chan == Child(p)) || (r.pc.AsleepOther? && r.chan.Other?)))
    && (r.st == RUNNABLE ==> Resumable(r))
    && (r.st == RUNNING && r.on == NOBODY ==> Resumable(r))
    && (r.st == USED ==> r.pc.Fresh? && r.irq.None? && r.on == NOBODY)
    && (r.st == UNUSED ==> (r.pc.Fresh? || r.pc.Dead?) && r.irq.None? && r.on == NOBODY)
    && (r.st == ZOMBIE <==> r.st != UNUSED && (r.pc.ExitRelease? || r.pc.Dead?))
    && (r.st == ZOMBIE && r.pc.ExitRelease? ==> r.on != NOBODY)
    && (!r.irq.None? ==> Preemptible(r.pc))
  }

  predicate LockOk(s: State, p: int)
    requires Proc?(s, p)
  {
    var c := s.procs[p].lock;
    c != NOBODY ==>
      && Cpu?(s, c) && !s.cpus[c].at.Idle? && Proc?(s, s.cpus[c].at.p)
      && var u := s.cpus[c].at;
         if u.In? then (u.p == p && OwnLocked(s.procs[p])) || OtherLock(s.procs[u.p].pc) == p else u.p == p
  }

  predicate HoldOk(s: State, p: int)
    requires Proc?(s, p)
  {
    var r := s.procs[p];
    && (OtherLock(r.pc) != NOBODY ==>
          && r.on != NOBODY && Proc?(s, OtherLock(r.pc)) && OtherLock(r.pc) != p
          && s.procs[OtherLock(r.pc)].lock == r.on)
    && (HoldsWl(r.pc) ==> r.on != NOBODY && s.wl == r.on)
  }

  predicate WlOk(s: State) {
    s.wl != NOBODY ==>
      && Cpu?(s, s.wl) && s.cpus[s.wl].at.In? && Proc?(s, s.cpus[s.wl].at.p)
      && HoldsWl(s.procs[s.cpus[s.wl].at.p].pc)
  }

  ghost predicate Control(s: State) {
    && |s.procs| > INIT
    && (forall c :: Cpu?(s, c) ==> CpuOk(s, c))
    && (forall p :: Proc?(s, p) ==> ProcOk(s, p))
    && (forall p :: Proc?(s, p) ==> PcOk(s.procs[p], p))
    && (forall p :: Proc?(s, p) ==> LockOk(s, p))
    && (forall p :: Proc?(s, p) ==> HoldOk(s, p))
    && WlOk(s)
  }

  // ----- families: parents, children and who waits for whom -----

  function Target(pc: Pc): int {
    if pc.ForkCopy? || pc.ForkWl? || pc.ForkParent? || pc.ForkLock? || pc.ForkReady? then pc.np else NOBODY
  }

  /** In kexit, children below this index have been passed to init. */
  function Moved(n: nat, pc: Pc): int {
    if pc.Reparent? then pc.i
    else if pc.WakeInit? then pc.i + 1
    else if pc.WakeParent? || pc.ExitLock? || pc.ExitSet? || pc.ExitRelease? then n
    else 0
  }

  /** In kwait, children below this index have been found not to be zombies. */
  function Scanned(n: nat, pc: Pc): int {
    if pc.Scan? then pc.i else if pc.SleepLock? || pc.SleepRelease? then n else 0
  }

  /** In kexit, processes below this index that slept waiting for a child of ours have been woken. */
  function Woke(n: nat, pc: Pc): int {
    if pc.WakeParent? then pc.k else if pc.ExitLock? || pc.ExitSet? then n else 0
  }

  /** Asleep in kwait, or past the point of no return: wait_lock released, own lock held. */
  predicate Committed(r: Proc) {
    (r.st == SLEEPING && r.pc.Asleep?) || r.pc.SleepSet?
  }

  /** The process holding wait_lock is about to wake init. */
  predicate Pending(s: State) {
    && Cpu?(s, s.wl) && s.cpus[s.wl].at.In? && Proc?(s, s.cpus[s.wl].at.p)
    && s.procs[s.cpus[s.wl].at.p].pc.WakeInit? && s.procs[s.cpus[s.wl].at.p].pc.k <= INIT
  }

  predicate ExitPc(pc: Pc) {
    pc.ExitWl? || pc.Reparent? || pc.WakeInit? || pc.WakeParent? || pc.ExitLock? || pc.ExitSet? || pc.ExitRelease?
      || pc.Dead?
  }

  predicate Solo(r: Proc, p: nat, n: nat) {
    && -1 <= r.parent < n && r.parent != p
    && (r.st == UNUSED ==> r.parent == NOBODY)
    && (p == INIT ==> r.parent == NOBODY && Alive(r.st) && !ExitPc(r.pc))
    && (p != INIT && (Alive(r.st) || r.st == ZOMBIE) ==> r.parent != NOBODY)
    && -1 <= Target(r.pc) < n && ((r.pc.Reap? || r.pc.Reaped?) ==> r.pc.i < n)
  }

  /** A parent is alive; fork and wait know the state of the child they work on. */
  predicate Links(r: Proc, p: nat, t: Proc, z: nat) {
    && (t.parent == p ==> Alive(r.st))
    && (Target(r.pc) == z ==>
        t.st == USED && t.maker == p && t.parent == if r.pc.ForkLock? || r.pc.ForkReady? then p else NOBODY)
    && (r.pc == Reap(z) ==> t.st == ZOMBIE && t.parent == p)
    && (r.pc == Reaped(z) ==> t.st == UNUSED)
  }

  /** How far exit and wait have got, and that a committed parent has no zombie child nobody will tell it of. */
  predicate Watch(n: nat, r: Proc, p: nat, t: Proc, z: nat, pending: bool) {
    && (z < Moved(n, r.pc) ==> t.parent != p)
    && (z < Scanned(n, r.pc) && t.parent == p ==> t.st != ZOMBIE)
    && (r.parent == z && z < Woke(n, r.pc) ==> !Committed(t))
    && (t.parent == p && t.st == ZOMBIE && Committed(r) ==> p == INIT && pending)
  }

  /** What process p, with record r, and process z, with record t, have to do with each other. */
  predicate Kin(n: nat, r: Proc, p: nat, t: Proc, z: nat, pending: bool) {
    Links(r, p, t, z) && Watch(n, r, p, t, z, pending)
  }

  predicate Pair(s: State, p: nat, z: nat)
    requires Proc?(s, p) && Proc?(s, z)
  {
    Kin(|s.procs|, s.procs[p], p, s.procs[z], z, Pending(s))
  }

  ghost predicate Family(s: State) {
    && (forall p :: Proc?(s, p) ==> Solo(s.procs[p], p, |s.procs|))
    && (forall p, z :: Proc?(s, p) && Proc?(s, z) ==> Pair(s, p, z))
  }

  // ----- steps -----

  function SetP(s: State, p: nat, r: Proc): State
    requires Proc?(s, p)
  {
    s.(procs := s.procs[p := r])
  }

  function SetC(s: State, c: nat, u: Cpu): State
    requires Cpu?(s, c)
  {
    s.(cpus := s.cpus[c := u])
  }

  datatype Act =
    // the scheduler of a CPU
    | SchedAcquire(q: nat)
    | SchedPass
    | SchedPick
    | SchedSwitch
    | SchedBack
    | SchedRelease
    | SwitchOut
    // the thread a CPU executes
    | SwitchedIn
    | YieldAcquire
    | YieldState
    | SleepAcquire(id: nat)
    | SleepState
    | Call(target: Pc)
    | Fork
    | ForkFails
    | Exit
    | Wait
    | ReapFails
    // somebody's kkill, or wakeup on a channel other than a waiting parent
    | Kill(q: nat)
    | Wake(q: nat)

  predicate OfScheduler(a: Act) {
    a.SchedAcquire? || a.SchedPass? || a.SchedPick? || a.SchedSwitch? || a.SchedBack? || a.SchedRelease? || a.SwitchOut?
  }

  /** scheduler(), and sched() giving the CPU back to it. */
  ghost predicate Sched(s: State, c: nat, a: Act, s': State)
    requires OfScheduler(a)
  {
    && Cpu?(s, c)
    && var u := s.cpus[c];
       if a.SchedAcquire? then
         && u.at.Idle? && Proc?(s, a.q) && s.procs[a.q].lock == NOBODY
         && s' == SetC(SetP(s, a.q, s.procs[a.q].(lock := c)), c, u.(at := Got(a.q)))
       else
         && !u.at.Idle? && Proc?(s, u.at.p)
         && var p, r := u.at.p, s.procs[u.at.p];
            match a
            case SchedPass => u.at.Got? && r.st != RUNNABLE &&
              s' == SetC(SetP(s, p, r.(lock := NOBODY)), c, u.(at := Idle))
            case SchedPick => u.at.Got? && r.st == RUNNABLE &&
              s' == SetC(SetP(s, p, r.(st := RUNNING)), c, u.(at := Chosen(p)))
            case SchedSwitch => u.at.Chosen? &&
              s' == SetC(SetP(s, p, r.(on := c)), c, Cpu(p, In(p)))
            case SchedBack => u.at.Back? &&
              s' == SetC(s, c, Cpu(NOBODY, Drop(p)))
            case SchedRelease => u.at.Drop? &&
              s' == SetC(SetP(s, p, r.(lock := NOBODY)), c, u.(at := Idle))
            case SwitchOut => u.at.In? && AtSched(r) && r.st != RUNNING &&
              s' == SetC(SetP(s, p, r.(on := NOBODY)), c, u.(at := Back(p)))
            case _ => false
  }

  /** CPU c executes thread p. */
  predicate Executes(s: State, c: nat, p: nat) {
    Cpu?(s, c) && Proc?(s, p) && s.cpus[c].at == In(p)
  }

  /** The process whose record thread p looks at next, or p itself. */
  function Touched(n: nat, p: nat, pc: Pc): (q: nat)
    ensures p < n ==> q < n
  {
    if (pc.Alloc? || pc.Reparent? || pc.Scan? || pc.Reap? || pc.Reaped?) && pc.i < n then pc.i
    else if (pc.WakeInit? || pc.WakeParent?) && pc.k < n then pc.k
    else if Target(pc) != NOBODY && pc.np < n then pc.np
    else p
  }

  /**
   The records around a step of thread p on CPU c: p's own, that of the process q it
   touches, and the holder of wait_lock.
   */
  datatype View = View(n: nat, c: nat, p: nat, r: Proc, r': Proc, q: nat, t: Proc, t': Proc, wl: int, wl': int)

  predicate Own(v: View, r': Proc) {
    v.r' == r' && (v.q != v.p ==> v.t' == v.t)
  }

  predicate Both(v: View, t': Proc, r': Proc) {
    v.q != v.p && v.t' == t' && v.r' == r'
  }

  /** Leaving sched(), yield and sleep. */
  predicate Switch(v: View, a: Act) {
    var r := v.r;
    && v.wl' == v.wl
    && match a
       case SwitchedIn => (AtSched(r) || (r.pc.Fresh? && r.irq.None?)) && r.st == RUNNING &&
         Own(v, if r.irq.Yielded? then r.(irq := None, lock := NOBODY)
                else r.(chan := Nowhere, lock := NOBODY, pc := if r.pc.Asleep? then WaitWl else Run))
       case YieldAcquire => r.irq.None? && Preemptible(r.pc) && r.lock == NOBODY
         && Own(v, r.(lock := v.c, irq := YieldSet))
       case YieldState => r.irq.YieldSet? && Own(v, r.(st := RUNNABLE, irq := Yielded))
       case SleepAcquire(id) => r.irq.None? && r.pc.Run? && r.lock == NOBODY
         && Own(v, r.(lock := v.c, pc := SleepOther(id)))
       case SleepState => r.irq.None? && r.pc.SleepOther? &&
         Own(v, r.(st := SLEEPING, chan := Other(r.pc.id), pc := AsleepOther))
       case Call(target) => r.irq.None? && r.pc.Run? && Own(v, r.(pc := target)) &&
         (target == Alloc(0) || (target == ExitWl && v.p != INIT) || target == WaitWl)
       case _ => false
  }

  function FreeProc(r: Proc): Proc {
    r.(st := UNUSED, parent := NOBODY, chan := Nowhere, killed := false)
  }

  /** kfork; a failed allocation or copy frees the new process. */
  predicate Forks(v: View, fails: bool) {
    var r, t := v.r, v.t;
    && r.irq.None?
    && match r.pc
       case Alloc(i) => !fails && v.wl' == v.wl &&
         if i >= v.n then Own(v, r.(pc := Run))
         else
           && t.lock == NOBODY
           && if t.st == UNUSED
              then Both(v, t.(st := USED, lock := v.c, pc := Fresh, maker := v.p), r.(pc := ForkCopy(i)))
              else Own(v, r.(pc := Alloc(i + 1)))
       case ForkCopy(np) => v.wl' == v.wl &&
         if fails then Both(v, FreeProc(t).(lock := NOBODY), r.(pc := Run))
         else Both(v, t.(lock := NOBODY), r.(pc := ForkWl(np)))
       case ForkWl(np) => !fails && v.wl == NOBODY && v.wl' == v.c && Own(v, r.(pc := ForkParent(np)))
       case ForkParent(np) => !fails && v.wl' == NOBODY && Both(v, t.(parent := v.p), r.(pc := ForkLock(np)))
       case ForkLock(np) => !fails && v.wl' == v.wl && t.lock == NOBODY
         && Both(v, t.(lock := v.c), r.(pc := ForkReady(np)))
       case ForkReady(np) => !fails && v.wl' == v.wl && Both(v, t.(st := RUNNABLE, lock := NOBODY), r.(pc := Run))
       case _ => false
  }

  /** One turn of wakeup's loop: acquire, test, perhaps make runnable, release; the caller itself is passed over. */
  predicate Wakes(v: View, chan: Chan, next: Pc) {
    if v.q == v.p then Own(v, v.r.(pc := next))
    else
      && v.t.lock == NOBODY
      && Both(v, if v.t.st == SLEEPING && v.t.chan == chan then v.t.(st := RUNNABLE) else v.t, v.r.(pc := next))
  }

  /** kexit, with reparent and its wakeups. */
  predicate Exits(v: View) {
    var r, t := v.r, v.t;
    && r.irq.None?
    && match r.pc
       case ExitWl => v.wl == NOBODY && v.wl' == v.c && Own(v, r.(pc := Reparent(0)))
       case Reparent(i) => v.wl' == v.wl &&
         if i >= v.n then Own(v, r.(pc := WakeParent(0)))
         else if t.parent == v.p then Both(v, t.(parent := INIT), r.(pc := WakeInit(i, 0)))
         else Own(v, r.(pc := Reparent(i + 1)))
       case WakeInit(i, k) => v.wl' == v.wl &&
         if k >= v.n then Own(v, r.(pc := Reparent(i + 1))) else Wakes(v, Child(INIT), WakeInit(i, k + 1))
       case WakeParent(k) => v.wl' == v.wl &&
         if k >= v.n then Own(v, r.(pc := ExitLock))
         else Wakes(v, if r.parent >= 0 then Child(r.parent) else Nowhere, WakeParent(k + 1))
       case ExitLock => v.wl' == v.wl && r.lock == NOBODY && Own(v, r.(lock := v.c, pc := ExitSet))
       case ExitSet => v.wl' == v.wl && Own(v, r.(st := ZOMBIE, pc := ExitRelease))
       case ExitRelease => v.wl' == NOBODY && Own(v, r.(pc := Dead))
       case _ => false
  }

  /** kwait, and its sleep; copying out the status of a found zombie may fail. */
  predicate Waits(v: View, fails: bool) {
    var r, t := v.r, v.t;
    && r.irq.None?
    && match r.pc
       case WaitWl => !fails && v.wl == NOBODY && v.wl' == v.c && Own(v, r.(pc := Scan(0, false)))
       case Scan(i, kids) => !fails &&
         if i < v.n then
           && v.wl' == v.wl
           && if t.parent != v.p then Own(v, r.(pc := Scan(i + 1, kids)))
              else
                && t.lock == NOBODY
                && if t.st == ZOMBIE then Both(v, t.(lock := v.c), r.(pc := Reap(i)))
                  else Own(v, r.(pc := Scan(i + 1, true)))
         else if kids && !r.killed then r.lock == NOBODY && v.wl' == v.wl && Own(v, r.(pc := SleepLock))
         else (kids ==> r.lock == NOBODY) && v.wl' == NOBODY && Own(v, r.(pc := Run))
       case Reap(i) =>
         if fails then v.wl' == NOBODY && Both(v, t.(lock := NOBODY), r.(pc := Run))
         else v.wl' == v.wl && Both(v, FreeProc(t), r.(pc := Reaped(i)))
       case Reaped(i) => !fails && v.wl' == NOBODY && Both(v, t.(lock := NOBODY), r.(pc := Run))
       case SleepLock => !fails && v.wl' == v.wl && r.lock == NOBODY && Own(v, r.(lock := v.c, pc := SleepRelease))
       case SleepRelease => !fails && v.wl' == NOBODY && Own(v, r.(pc := SleepSet))
       case SleepSet => !fails && v.wl' == v.wl && Own(v, r.(st := SLEEPING, chan := Child(v.p), pc := Asleep))
       case _ => false
  }

  predicate Rec(v: View, a: Act) {
    || Switch(v, a)
    || ((a.Fork? || a.ForkFails?) && Forks(v, a.ForkFails?))
    || (a.Exit? && Exits(v))
    || ((a.Wait? || a.ReapFails?) && Waits(v, a.ReapFails?))
  }

  function Viewed(s: State, c: nat, p: nat, s': State): View
    requires Proc?(s, p) && |s'.procs| == |s.procs|
  {
    var n, q := |s.procs|, Touched(|s.procs|, p, s.procs[p].pc);
    View(n, c, p, s.procs[p], s'.procs[p], q, s.procs[q], s'.procs[q], s.wl, s'.wl)
  }

  ghost predicate Thread(s: State, c: nat, p: nat, a: Act, s': State) {
    && Executes(s, c, p) && s'.cpus == s.cpus && |s'.procs| == |s.procs|
    && (forall x :: 0 <= x < |s.procs| && x != p && x != Viewed(s, c, p, s').q ==> s'.procs[x] == s.procs[x])
    && Rec(Viewed(s, c, p, s'), a)
  }

  ghost predicate Outside(s: State, a: Act, s': State)
    requires a.Kill? || a.Wake?
  {
    && Proc?(s, a.q) && s.procs[a.q].lock == NOBODY
    && var r := s.procs[a.q];
       if a.Kill? then s' == SetP(s, a.q, r.(killed := true, st := if r.st == SLEEPING then RUNNABLE else r.st))
       else r.st == SLEEPING && r.chan.Other? && s' == SetP(s, a.q, r.(st := RUNNABLE))
  }

  /** CPU c takes step a. */
  ghost predicate Next(s: State, c: nat, a: Act, s': State) {
    if OfScheduler(a) then Sched(s, c, a, s')
    else if a.Kill? || a.Wake? then Outside(s, a, s')
    else Cpu?(s, c) && s.cpus[c].at.In? && Thread(s, c, s.cpus[c].at.p, a, s')
  }

  // ----- control is kept -----

  /** A step that upsets nobody else: what p may do to itself, to q and to wait_lock. */
  predicate Mild(v: View) {
    && OwnMild(v.r, v.r', v.c, v.p)
    && (v.q != v.p ==> OtherMild(v.t, v.t', v.c, v.q, OtherLock(v.r'.pc)))
    && (OtherLock(v.r'.pc) == NOBODY || (v.q != v.p && OtherLock(v.r'.pc) == v.q))
    && (OtherLock(v.r.pc) == NOBODY || OtherLock(v.r.pc) == v.q)
    && (if HoldsWl(v.r'.pc) then v.wl' == v.c && (v.wl == v.c || v.wl == NOBODY)
        else v.wl' == if v.wl == v.c then NOBODY else v.wl)
  }

  predicate OwnMild(r: Proc, r': Proc, c: nat, p: nat) {
    && r'.on == c && PcOk(r', p)
    && (r'.st == RUNNING || (r'.lock == c && (AtSched(r') || r'.pc.ExitRelease?)))
    && (OwnLocked(r') ==> r'.lock == c && (r.lock == c || r.lock == NOBODY))
    && (!OwnLocked(r') ==> r'.lock == if OwnLocked(r) then NOBODY else r.lock)
  }

  predicate OtherMild(t: Proc, t': Proc, c: nat, q: nat, locked: int) {
    && t'.on == t.on && t'.irq == t.irq && PcOk(t', q)
    && (if locked == q then t'.lock == c && (t.lock == c || t.lock == NOBODY)
        else t'.lock == if t.lock == c then NOBODY else t.lock)
    && (t'.st != t.st || t'.pc != t.pc ==>
          t.on == NOBODY && (t.lock == c || t.lock == NOBODY) && t.st != RUNNING && t'.st != RUNNING &&
          OtherLock(t'.pc) == NOBODY && !HoldsWl(t'.pc))
  }

  ghost predicate Gentle(s: State, c: nat, p: nat, s': State) {
    && Executes(s, c, p) && s'.cpus == s.cpus && |s'.procs| == |s.procs|
    && (forall x :: 0 <= x < |s.procs| && x != p && x != Viewed(s, c, p, s').q ==> s'.procs[x] == s.procs[x])
    && Mild(Viewed(s, c, p, s'))
  }

  lemma MildCpu(s: State, c: nat, p: nat, s': State, d: nat)
    requires Control(s) && Gentle(s, c, p, s') && Cpu?(s, d)
    ensures CpuOk(s', d)
  {
    var q := Viewed(s, c, p, s').q;
    assert CpuOk(s, d) && CpuOk(s, c) && ProcOk(s, p) && LockOk(s, p) && LockOk(s, q);
    hide PcOk, Touched;
  }

  lemma MildProc(s: State, c: nat, p: nat, s': State, x: nat)
    requires Control(s) && Gentle(s, c, p, s') && Proc?(s, x)
    ensures ProcOk(s', x) && PcOk(s'.procs[x], x)
  {
    assert ProcOk(s, x) && PcOk(s.procs[x], x) && CpuOk(s, c);
    hide Touched;
  }

  lemma MildLock(s: State, c: nat, p: nat, s': State, x: nat)
    requires Control(s) && Gentle(s, c, p, s') && Proc?(s, x)
    ensures LockOk(s', x)
  {
    assert LockOk(s, x) && CpuOk(s, c) && HoldOk(s, p) && ProcOk(s, p);
    hide Touched;
  }

  lemma MildHold(s: State, c: nat, p: nat, s': State, x: nat)
    requires Control(s) && Gentle(s, c, p, s') && Proc?(s, x)
    ensures HoldOk(s', x)
  {
    assert HoldOk(s, x) && CpuOk(s, c) && HoldOk(s, p) && ProcOk(s, x);
    hide PcOk, Touched;
  }

  lemma MildControl(s: State, c: nat, p: nat, s': State)
    requires Control(s) && Gentle(s, c, p, s')
    ensures Control(s')
  {
    forall d | Cpu?(s', d)
      ensures CpuOk(s', d)
    {
      MildCpu(s, c, p, s', d);
    }
    forall x | Proc?(s', x)
      ensures ProcOk(s', x) && PcOk(s'.procs[x], x) && LockOk(s', x) && HoldOk(s', x)
    {
      MildProc(s, c, p, s', x);
      MildLock(s, c, p, s', x);
      MildHold(s, c, p, s', x);
    }
    assert WlOk(s') by {
      assert CpuOk(s, c) && HoldOk(s, p);
    }
  }

  /** What is known of the records around a step. */
  predicate Known(v: View, pending: bool) {
    && v.p < v.n && v.q < v.n && (v.q == v.p ==> v.t == v.r && v.t' == v.r') && v.q == Touched(v.n, v.p, v.r.pc)
    && v.r.on == v.c && (v.wl == v.c <==> HoldsWl(v.r.pc))
    && (v.r.st == RUNNING || (v.r.lock == v.c && (AtSched(v.r) || v.r.pc.ExitRelease?)))
    && (v.r.lock == v.c <==> OwnLocked(v.r))
    && PcOk(v.r, v.p) && PcOk(v.t, v.q)
    && (v.q != v.p ==> (v.t.lock == v.c <==> OtherLock(v.r.pc) == v.q) && v.t.on != v.c)
    && (v.t.st != RUNNING && v.t.on != NOBODY ==> v.t.lock == v.t.on)
    && (OtherLock(v.r.pc) != NOBODY ==> OtherLock(v.r.pc) == v.q != v.p)
    && Solo(v.r, v.p, v.n) && Kin(v.n, v.r, v.p, v.t, v.q, pending)
  }

  lemma Facts(s: State, c: nat, p: nat, a: Act, s': State)
    requires Control(s) && Family(s) && Thread(s, c, p, a, s')
    ensures Known(Viewed(s, c, p, s'), Pending(s))
  {
    hide Rec;
    var q := Viewed(s, c, p, s').q;
    assert CpuOk(s, c) && ProcOk(s, p) && ProcOk(s, q) && LockOk(s, p) && LockOk(s, q) && HoldOk(s, p);
    assert Pair(s, p, q);
  }

  lemma SwitchMild(v: View, pending: bool, a: Act)
    requires Known(v, pending) && Switch(v, a)
    ensures Mild(v)
  {
    hide Kin, Solo;
  }

  lemma ForkMild(v: View, pending: bool, fails: bool)
    requires Known(v, pending) && Forks(v, fails)
    ensures Mild(v)
  {
    hide Committed, Moved, Scanned, Woke;
  }

  lemma ExitMild(v: View, pending: bool)
    requires Known(v, pending) && Exits(v)
    ensures Mild(v)
  {
    hide Kin;
  }

  lemma WaitMild(v: View, pending: bool, fails: bool)
    requires Known(v, pending) && Waits(v, fails)
    ensures Mild(v)
  {
    hide Committed, Moved, Scanned, Woke;
  }

  lemma ThreadMild(s: State, c: nat, p: nat, a: Act, s': State)
    requires Control(s) && Family(s) && Thread(s, c, p, a, s')
    ensures Mild(Viewed(s, c, p, s'))
  {
    hide Control, Family, Known, Mild, Switch, Forks, Exits, Waits;
    Facts(s, c, p, a, s');
    var v := Viewed(s, c, p, s');
    if Switch(v, a) {
      SwitchMild(v, Pending(s), a);
    } else if a.Exit? {
      ExitMild(v, Pending(s));
    } else if a.Fork? || a.ForkFails? {
      ForkMild(v, Pending(s), a.ForkFails?);
    } else {
      WaitMild(v, Pending(s), a.ReapFails?);
    }
  }

  // ----- the scheduler, swtch and outsiders -----

  /** CPU c, whose business is process p alone, moves on: what it may change. */
  predicate Dispatch(s: State, c: nat, p: nat, s': State) {
    && Cpu?(s, c) && Proc?(s, p) && |s'.procs| == |s.procs| && |s'.cpus| == |s.cpus| && s'.wl == s.wl
    && (forall x :: 0 <= x < |s.procs| && x != p ==> s'.procs[x] == s.procs[x])
    && (forall d :: 0 <= d < |s.cpus| && d != c ==> s'.cpus[d] == s.cpus[d])
    && var r, r', u, u' := s.procs[p], s'.procs[p], s.cpus[c].at, s'.cpus[c].at;
       && (u.Idle? || (u.p == p && (u.In? ==> AtSched(r) && r.st != RUNNING)))
       && r'.pc == r.pc && r'.irq == r.irq && r'.chan == r.chan && r'.parent == r.parent && r'.maker == r.maker
       && (r'.st == r.st || (r.st == RUNNABLE && r'.st == RUNNING && u.Got? && u'.Chosen?))
       && (if u'.Idle? then r'.lock == NOBODY else u'.p == p && r'.lock == c)
       && (if u.Idle? then r.lock == NOBODY else r.lock == c)
       && (r'.on == if u'.In? then c else if u.In? || u.Chosen? || u.Back? then NOBODY else r.on)
       && (u'.In? || u'.Chosen? ==> r'.st == RUNNING) && (u'.Back? ==> r'.st != RUNNING)
       && (u'.In? ==> u.Chosen?) && (u'.Chosen? ==> u.Got? && r.st == RUNNABLE) && (u'.Back? ==> u.In?)
       && (u.Chosen? ==> u'.In?)
       && s'.cpus[c].proc == if u'.In? || u'.Back? then p else NOBODY
  }

  lemma SchedDispatch(s: State, c: nat, a: Act, s': State)
    requires Control(s) && OfScheduler(a) && Sched(s, c, a, s')
    ensures Dispatch(s, c, if a.SchedAcquire? then a.q else s.cpus[c].at.p, s')
  {
    hide PcOk, LockOk, HoldOk, WlOk;
    assert CpuOk(s, c);
    if a.SwitchOut? {
      assert ProcOk(s, s.cpus[c].at.p);
    }
  }

  lemma DispatchCpu(s: State, c: nat, p: nat, s': State, d: nat)
    requires Control(s) && Dispatch(s, c, p, s') && Cpu?(s, d)
    ensures CpuOk(s', d)
  {
    assert CpuOk(s, d) && CpuOk(s, c) && ProcOk(s, p) && LockOk(s, p);
  }

  lemma DispatchProc(s: State, c: nat, p: nat, s': State, x: nat)
    requires Control(s) && Dispatch(s, c, p, s') && Proc?(s, x)
    ensures ProcOk(s', x) && PcOk(s'.procs[x], x)
  {
    assert ProcOk(s, x) && PcOk(s.procs[x], x) && CpuOk(s, c) && ProcOk(s, p) && LockOk(s, x);
  }

  lemma DispatchLock(s: State, c: nat, p: nat, s': State, x: nat)
    requires Control(s) && Dispatch(s, c, p, s') && Proc?(s, x)
    ensures LockOk(s', x)
  {
    assert LockOk(s, x) && CpuOk(s, c) && PcOk(s.procs[p], p);
  }

  lemma DispatchHold(s: State, c: nat, p: nat, s': State, x: nat)
    requires Control(s) && Dispatch(s, c, p, s') && Proc?(s, x)
    ensures HoldOk(s', x)
  {
    assert HoldOk(s, x) && CpuOk(s, c) && ProcOk(s, x) && LockOk(s, p) && PcOk(s.procs[p], p);
  }

  lemma DispatchControl(s: State, c: nat, p: nat, s': State)
    requires Control(s) && Dispatch(s, c, p, s')
    ensures Control(s')
  {
    forall d | Cpu?(s', d)
      ensures CpuOk(s', d)
    {
      DispatchCpu(s, c, p, s', d);
    }
    forall x | Proc?(s', x)
      ensures ProcOk(s', x) && PcOk(s'.procs[x], x) && LockOk(s', x) && HoldOk(s', x)
    {
      DispatchProc(s, c, p, s', x);
      DispatchLock(s, c, p, s', x);
      DispatchHold(s, c, p, s', x);
    }
    assert WlOk(s') by {
      assert CpuOk(s, c);
    }
  }

  lemma OutsideControl(s: State, a: Act, s': State)
    requires Control(s) && (a.Kill? || a.Wake?) && Outside(s, a, s')
    ensures Control(s')
  {
    forall d | Cpu?(s', d)
      ensures CpuOk(s', d)
    {
      assert CpuOk(s, d) && ProcOk(s, a.q);
    }
    forall x | Proc?(s', x)
      ensures ProcOk(s', x) && PcOk(s'.procs[x], x) && LockOk(s', x) && HoldOk(s', x)
    {
      assert ProcOk(s, x) && PcOk(s.procs[x], x) && LockOk(s, x) && HoldOk(s, x);
    }
  }

  // ----- families are kept -----

  /** Points that say nothing about any other process. */
  predicate Neutral(pc: Pc) {
    && Target(pc) == NOBODY && !pc.Reap? && !pc.Reaped? && !pc.WakeInit? && !pc.WakeParent? && !pc.SleepSet?
    && !pc.ExitLock? && !pc.ExitSet? && !pc.ExitRelease? && !pc.SleepLock? && !pc.SleepRelease?
    && ((pc.Reparent? || pc.Scan?) ==> pc.i == 0)
  }

  /** A change of one process that no family fact can see. */
  predicate Unseen(r: Proc, r': Proc, p: nat) {
    && r'.parent == r.parent && r'.maker == r.maker
    && (r'.st == r.st || (Alive(r.st) && Alive(r'.st)))
    && (r'.pc == r.pc || (Neutral(r.pc) && Neutral(r'.pc)))
    && (Committed(r') ==> Committed(r)) && (ExitPc(r'.pc) ==> p != INIT)
  }

  lemma UnseenFamily(s: State, s': State)
    requires Family(s) && |s'.procs| == |s.procs| && (Pending(s) ==> Pending(s'))
    requires forall p :: 0 <= p < |s.procs| ==> Unseen(s.procs[p], s'.procs[p], p)
    ensures Family(s')
  {
    forall p | Proc?(s', p)
      ensures Solo(s'.procs[p], p, |s'.procs|)
    {
      assert Solo(s.procs[p], p, |s.procs|) && Unseen(s.procs[p], s'.procs[p], p);
    }
    forall p, z | Proc?(s', p) && Proc?(s', z)
      ensures Pair(s', p, z)
    {
      hide Pending;
      assert Pair(s, p, z) && Unseen(s.procs[p], s'.procs[p], p) && Unseen(s.procs[z], s'.procs[z], z);
    }
  }

  lemma DispatchFamily(s: State, c: nat, p: nat, s': State)
    requires Control(s) && Family(s) && Dispatch(s, c, p, s')
    ensures Family(s')
  {
    hide Family;
    assert CpuOk(s, c) && Solo(s.procs[p], p, |s.procs|) by {
      FamilySolo(s, p);
    }
    hide Control;
    forall x | 0 <= x < |s.procs|
      ensures Unseen(s.procs[x], s'.procs[x], x)
    {
      FamilySolo(s, x);
    }
    UnseenFamily(s, s');
  }

  lemma FamilySolo(s: State, p: nat)
    requires Family(s) && Proc?(s, p)
    ensures Solo(s.procs[p], p, |s.procs|)
  {
  }

  /** wait_lock has one holder. */
  lemma WlOnly(s: State, c: nat, p: nat, x: nat)
    requires Control(s) && Executes(s, c, p) && Proc?(s, x) && HoldsWl(s.procs[p].pc) && HoldsWl(s.procs[x].pc)
    ensures x == p
  {
    assert CpuOk(s, c) && HoldOk(s, p) && HoldOk(s, x) && ProcOk(s, x);
  }

  /** Process x has record y before the step and y' after it. */
  predicate Turns(v: View, x: nat, y: Proc, y': Proc) {
    (x == v.p ==> y == v.r && y' == v.r') && (x == v.q ==> y == v.t && y' == v.t') && (x != v.p && x != v.q ==> y' == y)
  }

  /** What is known of processes x and z, with records y and w, when thread p takes a step. */
  predicate Seen(v: View, pending: bool, x: nat, y: Proc, z: nat, w: Proc) {
    && v.p < v.n && v.q < v.n && x < v.n && z < v.n && INIT < v.n
    && (v.q == v.p ==> v.t == v.r && v.t' == v.r') && v.q == Touched(v.n, v.p, v.r.pc)
    && (v.r.st == RUNNING || v.r.pc.ExitRelease?) && (v.wl == v.c <==> HoldsWl(v.r.pc))
    && (v.t.st == SLEEPING && v.t.pc.Asleep? ==> v.t.chan == Child(v.q))
    && Solo(y, x, v.n) && Solo(w, z, v.n) && Solo(v.r, v.p, v.n) && Solo(v.t, v.q, v.n)
    && Kin(v.n, y, x, w, z, pending) && Kin(v.n, v.r, v.p, w, z, pending) && Kin(v.n, y, x, v.r, v.p, pending)
    && Kin(v.n, y, x, v.t, v.q, pending) && Kin(v.n, v.t, v.q, w, z, pending) && Kin(v.n, v.r, v.p, y, x, pending)
    && Kin(v.n, v.r, v.p, v.t, v.q, pending)
    && (HoldsWl(v.r.pc) ==> (HoldsWl(y.pc) ==> x == v.p) && (HoldsWl(v.t.pc) ==> v.q == v.p))
    && (OtherLock(y.pc) == v.q || v.t.pc.SleepSet? ==> v.t.lock != NOBODY)
    && (v.wl == v.c ==> pending == (v.r.pc.WakeInit? && v.r.pc.k <= INIT)) && (v.wl == NOBODY ==> !pending)
  }

  predicate PendingAfter(v: View, pending: bool, pending': bool) {
    pending' == if v.wl' == v.c then v.r'.pc.WakeInit? && v.r'.pc.k <= INIT else v.wl' != NOBODY && pending
  }

  lemma AllocLinks(v: View, pending: bool, pending': bool, fails: bool, x: nat, y: Proc, y': Proc, z: nat, w: Proc,
                   w': Proc)
    requires Seen(v, pending, x, y, z, w) && Turns(v, x, y, y') && Turns(v, z, w, w')
    requires PendingAfter(v, pending, pending')
    requires Forks(v, fails) && (v.r.pc.Alloc?)
    ensures Links(y', x, w', z) && Solo(y', x, v.n)
  {
    hide Watch;
  }

  lemma AllocWatch(v: View, pending: bool, pending': bool, fails: bool, x: nat, y: Proc, y': Proc, z: nat, w: Proc,
                   w': Proc)
    requires Seen(v, pending, x, y, z, w) && Turns(v, x, y, y') && Turns(v, z, w, w')
    requires PendingAfter(v, pending, pending')
    requires Forks(v, fails) && (v.r.pc.Alloc?)
    ensures Watch(v.n, y', x, w', z, pending')
  {
    hide Links;
  }

  lemma CopyLinks(v: View, pending: bool, pending': bool, fails: bool, x: nat, y: Proc, y': Proc, z: nat, w: Proc,
                  w': Proc)
    requires Seen(v, pending, x, y, z, w) && Turns(v, x, y, y') && Turns(v, z, w, w')
    requires PendingAfter(v, pending, pending')
    requires Forks(v, fails) && (v.r.pc.ForkCopy?)
    ensures Links(y', x, w', z) && Solo(y', x, v.n)
  {
    hide Watch;
  }

  lemma CopyWatch(v: View, pending: bool, pending': bool, fails: bool, x: nat, y: Proc, y': Proc, z: nat, w: Proc,
                  w': Proc)
    requires Seen(v, pending, x, y, z, w) && Turns(v, x, y, y') && Turns(v, z, w, w')
    requires PendingAfter(v, pending, pending')
    requires Forks(v, fails) && (v.r.pc.ForkCopy?)
    ensures Watch(v.n, y', x, w', z, pending')
  {
    hide Links;
  }

  lemma PublishLinks(v: View, pending: bool, pending': bool, fails: bool, x: nat, y: Proc, y': Proc, z: nat, w: Proc,
                     w': Proc)
    requires Seen(v, pending, x, y, z, w) && Turns(v, x, y, y') && Turns(v, z, w, w')
    requires PendingAfter(v, pending, pending')
    requires Forks(v, fails) && (v.r.pc.ForkWl? || v.r.pc.ForkParent?)
    ensures Links(y', x, w', z) && Solo(y', x, v.n)
  {
    hide Watch;
  }

  lemma PublishWatch(v: View, pending: bool, pending': bool, fails: bool, x: nat, y: Proc, y': Proc, z: nat, w: Proc,
                     w': Proc)
    requires Seen(v, pending, x, y, z, w) && Turns(v, x, y, y') && Turns(v, z, w, w')
    requires PendingAfter(v, pending, pending')
    requires Forks(v, fails) && (v.r.pc.ForkWl? || v.r.pc.ForkParent?)
    ensures Watch(v.n, y', x, w', z, pending')
  {
    hide Links;
  }

  lemma ReadyLinks(v: View, pending: bool, pending': bool, fails: bool, x: nat, y: Proc, y': Proc, z: nat, w: Proc,
                   w': Proc)
    requires Seen(v, pending, x, y, z, w) && Turns(v, x, y, y') && Turns(v, z, w, w')
    requires PendingAfter(v, pending, pending')
    requires Forks(v, fails) && (v.r.pc.ForkLock? || v.r.pc.ForkReady?)
    ensures Links(y', x, w', z) && Solo(y', x, v.n)
  {
    hide Watch;
  }

  lemma ReadyWatch(v: View, pending: bool, pending': bool, fails: bool, x: nat, y: Proc, y': Proc, z: nat, w: Proc,
                   w': Proc)
    requires Seen(v, pending, x, y, z, w) && Turns(v, x, y, y') && Turns(v, z, w, w')
    requires PendingAfter(v, pending, pending')
    requires Forks(v, fails) && (v.r.pc.ForkLock? || v.r.pc.ForkReady?)
    ensures Watch(v.n, y', x, w', z, pending')
  {
    hide Links;
  }

  lemma ReparentLinks(v: View, pending: bool, pending': bool, x: nat, y: Proc, y': Proc, z: nat, w: Proc, w': Proc)
    requires Seen(v, pending, x, y, z, w) && Turns(v, x, y, y') && Turns(v, z, w, w')
    requires PendingAfter(v, pending, pending')
    requires Exits(v) && (v.r.pc.ExitWl? || v.r.pc.Reparent?)
    ensures Links(y', x, w', z) && Solo(y', x, v.n)
  {
    hide Watch;
  }

  lemma ReparentWatch(v: View, pending: bool, pending': bool, x: nat, y: Proc, y': Proc, z: nat, w: Proc, w': Proc)
    requires Seen(v, pending, x, y, z, w) && Turns(v, x, y, y') && Turns(v, z, w, w')
    requires PendingAfter(v, pending, pending')
    requires Exits(v) && (v.r.pc.ExitWl? || v.r.pc.Reparent?)
    ensures Watch(v.n, y', x, w', z, pending')
  {
    hide Links;
  }

  lemma WakeLinks(v: View, pending: bool, pending': bool, x: nat, y: Proc, y': Proc, z: nat, w: Proc, w': Proc)
    requires Seen(v, pending, x, y, z, w) && Turns(v, x, y, y') && Turns(v, z, w, w')
    requires PendingAfter(v, pending, pending')
    requires Exits(v) && (v.r.pc.WakeInit? || v.r.pc.WakeParent?)
    ensures Links(y', x, w', z) && Solo(y', x, v.n)
  {
    hide Watch;
  }

  lemma WakeInitWatch(v: View, pending: bool, pending': bool, x: nat, y: Proc, y': Proc, z: nat, w: Proc, w': Proc)
    requires Seen(v, pending, x, y, z, w) && Turns(v, x, y, y') && Turns(v, z, w, w')
    requires PendingAfter(v, pending, pending')
    requires Exits(v) && v.r.pc.WakeInit?
    ensures Watch(v.n, y', x, w', z, pending')
  {
    hide Links;
  }

  lemma WakeParentWatch(v: View, pending: bool, pending': bool, x: nat, y: Proc, y': Proc, z: nat, w: Proc, w': Proc)
    requires Seen(v, pending, x, y, z, w) && Turns(v, x, y, y') && Turns(v, z, w, w')
    requires PendingAfter(v, pending, pending')
    requires Exits(v) && v.r.pc.WakeParent?
    ensures Watch(v.n, y', x, w', z, pending')
  {
    hide Links;
  }

  lemma ZombieLinks(v: View, pending: bool, pending': bool, x: nat, y: Proc, y': Proc, z: nat, w: Proc, w': Proc)
    requires Seen(v, pending, x, y, z, w) && Turns(v, x, y, y') && Turns(v, z, w, w')
    requires PendingAfter(v, pending, pending')
    requires Exits(v) && (v.r.pc.ExitLock? || v.r.pc.ExitSet? || v.r.pc.ExitRelease?)
    ensures Links(y', x, w', z) && Solo(y', x, v.n)
  {
  }

  lemma ZombieWatch(v: View, pending: bool, pending': bool, x: nat, y: Proc, y': Proc, z: nat, w: Proc, w': Proc)
    requires Seen(v, pending, x, y, z, w) && Turns(v, x, y, y') && Turns(v, z, w, w')
    requires PendingAfter(v, pending, pending')
    requires Exits(v) && (v.r.pc.ExitLock? || v.r.pc.ExitSet? || v.r.pc.ExitRelease?)
    ensures Watch(v.n, y', x, w', z, pending')
  {
    hide Links;
  }

  lemma ScanLinks(v: View, pending: bool, pending': bool, fails: bool, x: nat, y: Proc, y': Proc, z: nat, w: Proc,
                  w': Proc)
    requires Seen(v, pending, x, y, z, w) && Turns(v, x, y, y') && Turns(v, z, w, w')
    requires PendingAfter(v, pending, pending')
    requires Waits(v, fails) && (v.r.pc.WaitWl? || v.r.pc.Scan?)
    ensures Links(y', x, w', z) && Solo(y', x, v.n)
  {
    hide Watch;
  }

  lemma ScanWatch(v: View, pending: bool, pending': bool, fails: bool, x: nat, y: Proc, y': Proc, z: nat, w: Proc,
                  w': Proc)
    requires Seen(v, pending, x, y, z, w) && Turns(v, x, y, y') && Turns(v, z, w, w')
    requires PendingAfter(v, pending, pending')
    requires Waits(v, fails) && (v.r.pc.WaitWl? || v.r.pc.Scan?)
    ensures Watch(v.n, y', x, w', z, pending')
  {
    hide Links;
  }

  lemma ReapLinks(v: View, pending: bool, pending': bool, fails: bool, x: nat, y: Proc, y': Proc, z: nat, w: Proc,
                  w': Proc)
    requires Seen(v, pending, x, y, z, w) && Turns(v, x, y, y') && Turns(v, z, w, w')
    requires PendingAfter(v, pending, pending')
    requires Waits(v, fails) && (v.r.pc.Reap? || v.r.pc.Reaped?)
    ensures Links(y', x, w', z) && Solo(y', x, v.n)
  {
    hide Watch;
  }

  lemma ReapWatch(v: View, pending: bool, pending': bool, fails: bool, x: nat, y: Proc, y': Proc, z: nat, w: Proc,
                  w': Proc)
    requires Seen(v, pending, x, y, z, w) && Turns(v, x, y, y') && Turns(v, z, w, w')
    requires PendingAfter(v, pending, pending')
    requires Waits(v, fails) && (v.r.pc.Reap? || v.r.pc.Reaped?)
    ensures Watch(v.n, y', x, w', z, pending')
  {
    hide Links;
  }

  lemma SleepLinks(v: View, pending: bool, pending': bool, fails: bool, x: nat, y: Proc, y': Proc, z: nat, w: Proc,
                   w': Proc)
    requires Seen(v, pending, x, y, z, w) && Turns(v, x, y, y') && Turns(v, z, w, w')
    requires PendingAfter(v, pending, pending')
    requires Waits(v, fails) && (v.r.pc.SleepLock? || v.r.pc.SleepRelease? || v.r.pc.SleepSet?)
    ensures Links(y', x, w', z) && Solo(y', x, v.n)
  {
    hide Watch;
  }

  lemma SleepWatch(v: View, pending: bool, pending': bool, fails: bool, x: nat, y: Proc, y': Proc, z: nat, w: Proc,
                   w': Proc)
    requires Seen(v, pending, x, y, z, w) && Turns(v, x, y, y') && Turns(v, z, w, w')
    requires PendingAfter(v, pending, pending')
    requires Waits(v, fails) && (v.r.pc.SleepLock? || v.r.pc.SleepRelease? || v.r.pc.SleepSet?)
    ensures Watch(v.n, y', x, w', z, pending')
  {
    hide Links;
  }

  lemma SeenAll(s: State, c: nat, p: nat, a: Act, s': State, x: nat, z: nat)
    requires Control(s) && Family(s) && Thread(s, c, p, a, s') && s.procs[p].irq.None? && !AtSched(s.procs[p])
    requires Proc?(s, x) && Proc?(s, z)
    ensures Seen(Viewed(s, c, p, s'), Pending(s), x, s.procs[x], z, s.procs[z])
  {
    hide Rec;
    Facts(s, c, p, a, s');
    var v := Viewed(s, c, p, s');
    assert Pair(s, x, z) && Pair(s, p, z) && Pair(s, x, p) && Pair(s, x, v.q) && Pair(s, v.q, z) && Pair(s, p, x);
    assert HoldOk(s, x) && ProcOk(s, v.q) && ProcOk(s, x) && PcOk(s.procs[v.q], v.q) && HoldOk(s, p);
    if HoldsWl(s.procs[p].pc) && HoldsWl(s.procs[x].pc) {
      WlOnly(s, c, p, x);
    }
    if HoldsWl(s.procs[p].pc) && HoldsWl(s.procs[v.q].pc) {
      WlOnly(s, c, p, v.q);
    }
  }

  lemma PendingThread(s: State, c: nat, p: nat, a: Act, s': State)
    requires Control(s) && Thread(s, c, p, a, s') && Mild(Viewed(s, c, p, s'))
    ensures PendingAfter(Viewed(s, c, p, s'), Pending(s), Pending(s'))
  {
    hide Rec, PcOk;
    assert CpuOk(s, c);
    if s.wl != NOBODY && s.wl != c {
      assert CpuOk(s, s.wl);
    }
  }

  lemma SwitchFamily(s: State, c: nat, p: nat, a: Act, s': State)
    requires Control(s) && Family(s) && Thread(s, c, p, a, s') && Switch(Viewed(s, c, p, s'), a)
    ensures Family(s')
  {
    Facts(s, c, p, a, s');
    var v := Viewed(s, c, p, s');
    SwitchUnseen(v, Pending(s), a);
    SwitchMild(v, Pending(s), a);
    PendingThread(s, c, p, a, s');
    hide Rec, Switch, Mild, Control;
    forall x | 0 <= x < |s.procs|
      ensures Unseen(s.procs[x], s'.procs[x], x)
    {
      FamilySolo(s, x);
    }
    UnseenFamily(s, s');
  }

  lemma SwitchUnseen(v: View, pending: bool, a: Act)
    requires Known(v, pending) && Switch(v, a)
    ensures Unseen(v.r, v.r', v.p) && (v.q != v.p ==> v.t' == v.t) && (v.wl' == v.c <==> v.wl == v.c) && v.wl' == v.wl
    ensures v.r'.pc.WakeInit? <==> v.r.pc.WakeInit?
  {
    hide Kin;
  }

  lemma ForkStep(v: View, pending: bool, pending': bool, fails: bool, x: nat, y: Proc, y': Proc, z: nat, w: Proc,
                 w': Proc)
    requires Seen(v, pending, x, y, z, w) && Turns(v, x, y, y') && Turns(v, z, w, w')
    requires PendingAfter(v, pending, pending')
    requires Forks(v, fails)
    ensures Kin(v.n, y', x, w', z, pending') && Solo(y', x, v.n)
  {
    hide Seen, Turns, PendingAfter, Links, Watch, Solo;
    if v.r.pc.Alloc? {
      AllocLinks(v, pending, pending', fails, x, y, y', z, w, w');
      AllocWatch(v, pending, pending', fails, x, y, y', z, w, w');
    } else if v.r.pc.ForkCopy? {
      CopyLinks(v, pending, pending', fails, x, y, y', z, w, w');
      CopyWatch(v, pending, pending', fails, x, y, y', z, w, w');
    } else if v.r.pc.ForkWl? || v.r.pc.ForkParent? {
      PublishLinks(v, pending, pending', fails, x, y, y', z, w, w');
      PublishWatch(v, pending, pending', fails, x, y, y', z, w, w');
    } else {
      ReadyLinks(v, pending, pending', fails, x, y, y', z, w, w');
      ReadyWatch(v, pending, pending', fails, x, y, y', z, w, w');
    }
  }

  lemma ExitStep(v: View, pending: bool, pending': bool, x: nat, y: Proc, y': Proc, z: nat, w: Proc, w': Proc)
    requires Seen(v, pending, x, y, z, w) && Turns(v, x, y, y') && Turns(v, z, w, w')
    requires PendingAfter(v, pending, pending')
    requires Exits(v)
    ensures Kin(v.n, y', x, w', z, pending') && Solo(y', x, v.n)
  {
    hide Seen, Turns, PendingAfter, Links, Watch, Solo;
    if v.r.pc.ExitWl? || v.r.pc.Reparent? {
      ReparentLinks(v, pending, pending', x, y, y', z, w, w');
      ReparentWatch(v, pending, pending', x, y, y', z, w, w');
    } else if v.r.pc.WakeInit? || v.r.pc.WakeParent? {
      WakeLinks(v, pending, pending', x, y, y', z, w, w');
      if v.r.pc.WakeInit? {
        WakeInitWatch(v, pending, pending', x, y, y', z, w, w');
      } else {
        WakeParentWatch(v, pending, pending', x, y, y', z, w, w');
      }
    } else {
      ZombieLinks(v, pending, pending', x, y, y', z, w, w');
      ZombieWatch(v, pending, pending', x, y, y', z, w, w');
    }
  }

  lemma WaitStep(v: View, pending: bool, pending': bool, fails: bool, x: nat, y: Proc, y': Proc, z: nat, w: Proc,
                 w': Proc)
    requires Seen(v, pending, x, y, z, w) && Turns(v, x, y, y') && Turns(v, z, w, w')
    requires PendingAfter(v, pending, pending')
    requires Waits(v, fails)
    ensures Kin(v.n, y', x, w', z, pending') && Solo(y', x, v.n)
  {
    hide Seen, Turns, PendingAfter, Links, Watch, Solo;
    if v.r.pc.WaitWl? || v.r.pc.Scan? {
      ScanLinks(v, pending, pending', fails, x, y, y', z, w, w');
      ScanWatch(v, pending, pending', fails, x, y, y', z, w, w');
    } else if v.r.pc.Reap? || v.r.pc.Reaped? {
      ReapLinks(v, pending, pending', fails, x, y, y', z, w, w');
      ReapWatch(v, pending, pending', fails, x, y, y', z, w, w');
    } else {
      SleepLinks(v, pending, pending', fails, x, y, y', z, w, w');
      SleepWatch(v, pending, pending', fails, x, y, y', z, w, w');
    }
  }

  lemma ThreadPair(s: State, c: nat, p: nat, a: Act, s': State, x: nat, z: nat)
    requires Control(s) && Family(s) && Thread(s, c, p, a, s') && Mild(Viewed(s, c, p, s'))
    requires !Switch(Viewed(s, c, p, s'), a) && Proc?(s, x) && Proc?(s, z)
    ensures Pair(s', x, z) && Solo(s'.procs[x], x, |s'.procs|)
  {
    hide Control, Family, Mild, Switch, Seen, Solo, Kin;
    var v := Viewed(s, c, p, s');
    assert s.procs[p].irq.None? && !AtSched(s.procs[p]);
    SeenAll(s, c, p, a, s', x, z);
    PendingThread(s, c, p, a, s');
    if a.Exit? {
      ExitStep(v, Pending(s), Pending(s'), x, s.procs[x], s'.procs[x], z, s.procs[z], s'.procs[z]);
    } else if a.Fork? || a.ForkFails? {
      ForkStep(v, Pending(s), Pending(s'), a.ForkFails?, x, s.procs[x], s'.procs[x], z, s.procs[z], s'.procs[z]);
    } else {
      WaitStep(v, Pending(s), Pending(s'), a.ReapFails?, x, s.procs[x], s'.procs[x], z, s.procs[z], s'.procs[z]);
    }
  }

  lemma ThreadFamily(s: State, c: nat, p: nat, a: Act, s': State)
    requires Control(s) && Family(s) && Thread(s, c, p, a, s')
    ensures Family(s')
  {
    hide Control, Mild, Switch, Solo, Pair, Rec;
    ThreadMild(s, c, p, a, s');
    if Switch(Viewed(s, c, p, s'), a) {
      SwitchFamily(s, c, p, a, s');
    } else {
      forall x, z | Proc?(s', x) && Proc?(s', z)
        ensures Pair(s', x, z) && Solo(s'.procs[x], x, |s'.procs|)
      {
        ThreadPair(s, c, p, a, s', x, z);
      }
      forall x | Proc?(s', x)
        ensures Solo(s'.procs[x], x, |s'.procs|)
      {
        assert Pair(s', x, x);
      }
    }
  }

  lemma OutsideFamily(s: State, a: Act, s': State)
    requires Control(s) && Family(s) && (a.Kill? || a.Wake?) && Outside(s, a, s')
    ensures Family(s')
  {
    forall x | 0 <= x < |s.procs|
      ensures Unseen(s.procs[x], s'.procs[x], x)
    {
      FamilySolo(s, x);
    }
    UnseenFamily(s, s');
  }

  // ----- runs -----

  ghost predicate Inv(s: State) {
    Control(s) && Family(s)
  }

  lemma SchedInv(s: State, c: nat, a: Act, s': State)
    requires Inv(s) && OfScheduler(a) && Sched(s, c, a, s')
    ensures Inv(s')
  {
    hide Control, Family, Dispatch;
    SchedDispatch(s, c, a, s');
    var p := if a.SchedAcquire? then a.q else s.cpus[c].at.p;
    DispatchControl(s, c, p, s');
    DispatchFamily(s, c, p, s');
  }

  lemma StepInv(s: State, c: nat, a: Act, s': State)
    requires Inv(s) && Next(s, c, a, s')
    ensures Inv(s')
  {
    hide Control, Family, Sched, Thread, Outside;
    if OfScheduler(a) {
      SchedInv(s, c, a, s');
    } else if a.Kill? || a.Wake? {
      OutsideControl(s, a, s');
      OutsideFamily(s, a, s');
    } else {
      var p := s.cpus[c].at.p;
      ThreadMild(s, c, p, a, s');
      assert Gentle(s, c, p, s') by {
        ThreadGentle(s, c, p, a, s');
      }
      MildControl(s, c, p, s');
      ThreadFamily(s, c, p, a, s');
    }
  }

  lemma ThreadGentle(s: State, c: nat, p: nat, a: Act, s': State)
    requires Thread(s, c, p, a, s') && Mild(Viewed(s, c, p, s'))
    ensures Gentle(s, c, p, s')
  {
    hide Mild, Rec;
  }

  /** userinit is done: init can run, every other slot is free, every CPU is in its scheduler. */
  predicate Start(s: State) {
    && |s.procs| > INIT && s.wl == NOBODY
    && (forall c :: 0 <= c < |s.cpus| ==> s.cpus[c] == Cpu(NOBODY, Idle))
    && (forall p :: 0 <= p < |s.procs| ==>
          && s.procs[p].st == (if p == INIT then RUNNABLE else UNUSED)
          && s.procs[p].parent == NOBODY && s.procs[p].lock == NOBODY && s.procs[p].on == NOBODY
          && s.procs[p].pc == Fresh && s.procs[p].irq == None)
  }

  lemma StartInv(s: State)
    requires Start(s)
    ensures Inv(s)
  {
  }

  ghost predicate Steps(s: State, s': State) {
    exists c: nat, a :: Next(s, c, a, s')
  }

  /** Any interleaving of any CPUs' steps. */
  ghost predicate History(run: seq<State>) {
    |run| > 0 && Start(run[0]) && forall i, j :: 0 <= i < j < |run| && j == i + 1 ==> Steps(run[i], run[j])
  }

  lemma {:induction false} RunInv(run: seq<State>, i: nat)
    requires History(run) && i < |run|
    ensures Inv(run[i])
  {
    hide Inv, Next;
    if i == 0 {
      StartInv(run[0]);
    } else {
      RunInv(run, i - 1);
      assert Steps(run[i - 1], run[i]);
      var c: nat, a :| Next(run[i - 1], c, a, run[i]);
      StepInv(run[i - 1], c, a, run[i]);
    }
  }

  // ----- what holds in every reachable state -----

  /** c->proc names a process on at most one CPU, and with its lock free exactly when it is RUNNING. */
  lemma RunningOnce(run: seq<State>, i: nat, p: nat)
    requires History(run) && i < |run| && Proc?(run[i], p)
    ensures var s := run[i];
      && (forall c, d :: Cpu?(s, c) && Cpu?(s, d) && s.cpus[c].proc == p && s.cpus[d].proc == p ==> c == d)
      && (s.procs[p].lock == NOBODY ==> (s.procs[p].st == RUNNING <==> exists c :: Cpu?(s, c) && s.cpus[c].proc == p))
  {
    RunInv(run, i);
    var s := run[i];
    assert Control(s) && ProcOk(s, p);
    forall c | Cpu?(s, c)
      ensures s.cpus[c].proc == p ==> s.procs[p].lock == c || s.procs[p].on == c
      ensures s.cpus[c].proc == p && s.procs[p].lock == NOBODY ==> s.procs[p].on == c
    {
      assert CpuOk(s, c);
    }
    forall c, d | Cpu?(s, c) && Cpu?(s, d) && s.cpus[c].proc == p && s.cpus[d].proc == p
      ensures c == d
    {
      assert CpuOk(s, c) && CpuOk(s, d);
    }
    var o := s.procs[p].on;
    if o != NOBODY {
      assert Cpu?(s, o) && CpuOk(s, o) && s.cpus[o].proc == p;
    }
  }

  /** kwait reclaims a child only when no CPU still runs it or is leaving its stack. */
  lemma ReapSafe(run: seq<State>, i: nat, p: nat, q: nat, c: nat)
    requires History(run) && i < |run| && Proc?(run[i], p) && Proc?(run[i], q) && Cpu?(run[i], c)
    requires run[i].procs[p].pc == Reap(q)
    ensures run[i].procs[q].st == ZOMBIE && run[i].procs[q].parent == p
    ensures run[i].cpus[c].proc != q && run[i].cpus[c].at != In(q) && run[i].cpus[c].at != Back(q)
  {
    RunInv(run, i);
    var s := run[i];
    assert Pair(s, p, q);
    assert CpuOk(s, c) && HoldOk(s, p) && ProcOk(s, p) && ProcOk(s, q);
  }

  /** With wait_lock free, a parent asleep in kwait has no zombie child. */
  lemma NoMissedZombie(run: seq<State>, i: nat, p: nat, z: nat)
    requires History(run) && i < |run| && Proc?(run[i], p) && Proc?(run[i], z) && run[i].wl == NOBODY
    requires run[i].procs[p].st == SLEEPING && run[i].procs[p].chan == Child(p)
    ensures !(run[i].procs[z].parent == p && run[i].procs[z].st == ZOMBIE)
  {
    RunInv(run, i);
    assert Pair(run[i], p, z) && PcOk(run[i].procs[p], p);
  }

  /** Every process but init that has been published has a parent that is neither ZOMBIE nor UNUSED. */
  lemma ParentAlive(run: seq<State>, i: nat, z: nat)
    requires History(run) && i < |run| && Proc?(run[i], z) && z != INIT
    requires Alive(run[i].procs[z].st) || run[i].procs[z].st == ZOMBIE
    ensures Proc?(run[i], run[i].procs[z].parent) && Alive(run[i].procs[run[i].procs[z].parent].st)
  {
    RunInv(run, i);
    assert Solo(run[i].procs[z], z, |run[i].procs|);
    assert Pair(run[i], run[i].procs[z].parent, z);
  }

  /** sched() is entered with p->lock held and no other of these locks, and an exited process never returns from it. */
  lemma SchedLocks(run: seq<State>, i: nat, c: nat, p: nat, q: nat)
    requires History(run) && i < |run| && Executes(run[i], c, p) && AtSched(run[i].procs[p]) && Proc?(run[i], q)
    requires q != p
    ensures run[i].procs[p].lock == c && run[i].procs[q].lock != c && run[i].wl != c
    ensures run[i].procs[p].pc.Dead? ==> run[i].procs[p].st != RUNNING
  {
    RunInv(run, i);
    var s := run[i];
    assert CpuOk(s, c) && ProcOk(s, p) && PcOk(s.procs[p], p) && LockOk(s, q);
  }

  // ----- no deadlock among wait_lock and the process locks -----

  /** CPU c itself, its scheduler or its thread, has a next step; kkill and wakeups by others do not count. */
  ghost predicate CanStep(s: State, c: nat) {
    exists a: Act, s' :: !a.Kill? && !a.Wake? && Next(s, c, a, s')
  }

  /** The process whose lock a thread that holds wait_lock takes next. */
  function Wanted(n: nat, p: nat, pc: Pc): nat {
    if pc.ExitLock? || pc.SleepLock? then p else Touched(n, p, pc)
  }

  /** CPU c is after a process lock that another CPU holds, and that CPU has a next step. */
  ghost predicate WaitsForMover(s: State, c: nat, p: nat)
    requires Proc?(s, p)
  {
    var q := Wanted(|s.procs|, p, s.procs[p].pc);
    Proc?(s, q) && s.procs[q].lock >= 0 && s.procs[q].lock != c && CanStep(s, s.procs[q].lock)
  }

  lemma ThreadCanStep(s: State, c: nat, p: nat, a: Act, r': Proc, t': Proc, wl': int)
    requires Executes(s, c, p) && !OfScheduler(a) && !a.Kill? && !a.Wake?
    requires var q := Touched(|s.procs|, p, s.procs[p].pc);
      Rec(View(|s.procs|, c, p, s.procs[p], r', q, s.procs[q], if q == p then r' else t', s.wl, wl'), a)
    ensures CanStep(s, c)
  {
    hide Rec;
    var q := Touched(|s.procs|, p, s.procs[p].pc);
    var s' := State(s.procs[q := t'][p := r'], s.cpus, wl');
    assert Thread(s, c, p, a, s');
    assert Next(s, c, a, s');
  }

  /** A thread that holds its own lock never waits: what it does next. */
  lemma OwnerNext(n: nat, c: nat, p: nat, r: Proc, q: nat, t: Proc, wl: int) returns (a: Act, r': Proc, wl': int)
    requires OwnLocked(r) && PcOk(r, p) && (r.st == RUNNING || r.pc.ExitRelease?) && q == Touched(n, p, r.pc)
    requires r.st == ZOMBIE || !r.pc.Dead?
    ensures !OfScheduler(a) && !a.Kill? && !a.Wake?
    ensures Rec(View(n, c, p, r, r', q, t, if q == p then r' else t, wl, wl'), a)
  {
    wl' := wl;
    if r.irq.Yielded? {
      a, r' := SwitchedIn, r.(irq := None, lock := NOBODY);
    } else if r.irq.YieldSet? {
      a, r' := YieldState, r.(st := RUNNABLE, irq := Yielded);
    } else if r.pc.SleepOther? {
      a, r' := SleepState, r.(st := SLEEPING, chan := Other(r.pc.id), pc := AsleepOther);
    } else if r.pc.ExitSet? {
      a, r' := Exit, r.(st := ZOMBIE, pc := ExitRelease);
    } else if r.pc.ExitRelease? {
      a, r', wl' := Exit, r.(pc := Dead), NOBODY;
    } else if r.pc.SleepRelease? {
      a, r', wl' := Wait, r.(pc := SleepSet), NOBODY;
    } else if r.pc.SleepSet? {
      a, r' := Wait, r.(st := SLEEPING, chan := Child(p), pc := Asleep);
    } else {
      a, r' := SwitchedIn, r.(chan := Nowhere, lock := NOBODY, pc := if r.pc.Asleep? then WaitWl else Run);
    }
  }

  lemma OwnerMoves(s: State, c: nat, p: nat)
    requires Control(s) && Executes(s, c, p) && OwnLocked(s.procs[p])
    ensures CanStep(s, c)
  {
    hide CanStep, Rec, LockOk, HoldOk, WlOk;
    assert CpuOk(s, c) && ProcOk(s, p) && PcOk(s.procs[p], p);
    if AtSched(s.procs[p]) && s.procs[p].st != RUNNING {
      LeaveCanStep(s, c, p);
    } else {
      var q := Touched(|s.procs|, p, s.procs[p].pc);
      var a, r', wl' := OwnerNext(|s.procs|, c, p, s.procs[p], q, s.procs[q], s.wl);
      ThreadCanStep(s, c, p, a, r', s.procs[q], wl');
    }
  }

  lemma LeaveCanStep(s: State, c: nat, p: nat)
    requires Executes(s, c, p) && AtSched(s.procs[p]) && s.procs[p].st != RUNNING
    ensures CanStep(s, c)
  {
    assert Next(s, c, SwitchOut, SetC(SetP(s, p, s.procs[p].(on := NOBODY)), c, s.cpus[c].(at := Back(p))));
  }

  /** Nor does a thread that holds another process's lock. */
  lemma BorrowerNext(n: nat, c: nat, p: nat, r: Proc, q: nat, t: Proc, wl: int)
    returns (a: Act, r': Proc, t': Proc, wl': int)
    requires OtherLock(r.pc) == q && q != p && q < n && r.irq.None?
    ensures !OfScheduler(a) && !a.Kill? && !a.Wake?
    ensures Rec(View(n, c, p, r, r', q, t, t', wl, wl'), a)
  {
    wl' := wl;
    if r.pc.ForkCopy? {
      a, r', t' := Fork, r.(pc := ForkWl(q)), t.(lock := NOBODY);
    } else if r.pc.ForkReady? {
      a, r', t' := Fork, r.(pc := Run), t.(st := RUNNABLE, lock := NOBODY);
    } else if r.pc.Reap? {
      a, r', t' := Wait, r.(pc := Reaped(q)), FreeProc(t);
    } else {
      a, r', t', wl' := Wait, r.(pc := Run), t.(lock := NOBODY), NOBODY;
    }
  }

  lemma BorrowerMoves(s: State, c: nat, p: nat)
    requires Control(s) && Executes(s, c, p) && OtherLock(s.procs[p].pc) != NOBODY
    ensures CanStep(s, c)
  {
    hide CanStep, Rec, LockOk, WlOk;
    assert CpuOk(s, c) && HoldOk(s, p) && PcOk(s.procs[p], p);
    var q := Touched(|s.procs|, p, s.procs[p].pc);
    var a, r', t', wl' := BorrowerNext(|s.procs|, c, p, s.procs[p], q, s.procs[q], s.wl);
    ThreadCanStep(s, c, p, a, r', t', wl');
  }

  lemma SchedulerMoves(s: State, c: nat)
    requires Control(s) && Cpu?(s, c) && !s.cpus[c].at.Idle? && !s.cpus[c].at.In?
    ensures CanStep(s, c)
  {
    assert CpuOk(s, c);
    hide Control;
    var u, p := s.cpus[c], s.cpus[c].at.p;
    var r := s.procs[p];
    match u.at
    case Got(_) =>
      if r.st == RUNNABLE {
        assert Next(s, c, SchedPick, SetC(SetP(s, p, r.(st := RUNNING)), c, u.(at := Chosen(p))));
      } else {
        assert Next(s, c, SchedPass, SetC(SetP(s, p, r.(lock := NOBODY)), c, u.(at := Idle)));
      }
    case Chosen(_) => assert Next(s, c, SchedSwitch, SetC(SetP(s, p, r.(on := c)), c, Cpu(p, In(p))));
    case Back(_) => assert Next(s, c, SchedBack, SetC(s, c, Cpu(NOBODY, Drop(p))));
    case Drop(_) => assert Next(s, c, SchedRelease, SetC(SetP(s, p, r.(lock := NOBODY)), c, u.(at := Idle)));
  }

  /** The CPU that holds a process lock can always go on, so nobody waits for that lock for ever. */
  lemma HolderMoves(run: seq<State>, i: nat, p: nat)
    requires History(run) && i < |run| && Proc?(run[i], p) && run[i].procs[p].lock != NOBODY
    ensures run[i].procs[p].lock >= 0 && CanStep(run[i], run[i].procs[p].lock)
  {
    hide Control, CanStep, Family;
    RunInv(run, i);
    LockHolderMoves(run[i], p);
  }

  lemma LockHolderMoves(s: State, p: nat)
    requires Control(s) && Proc?(s, p) && s.procs[p].lock != NOBODY
    ensures s.procs[p].lock >= 0 && CanStep(s, s.procs[p].lock)
  {
    var c := s.procs[p].lock;
    assert LockOk(s, p) && ProcOk(s, p);
    hide Control, CanStep;
    if !s.cpus[c].at.In? {
      SchedulerMoves(s, c);
    } else if s.cpus[c].at.p == p && OwnLocked(s.procs[p]) {
      OwnerMoves(s, c, p);
    } else {
      BorrowerMoves(s, c, s.cpus[c].at.p);
    }
  }

  /** Holding wait_lock and none of the others: a step, or a wait for a process lock that another CPU holds. */
  lemma WaitLockNext(n: nat, c: nat, p: nat, r: Proc, q: nat, t: Proc, wl: int)
    returns (waits: int, a: Act, r': Proc, t': Proc, wl': int)
    requires HoldsWl(r.pc) && !OwnLocked(r) && OtherLock(r.pc) == NOBODY && q == Touched(n, p, r.pc)
    requires (q == p ==> t == r)
    requires r.lock != c && t.lock != c && (r.pc.ForkParent? ==> q != p) && (r.pc.Reparent? && q == p ==> r.parent != p)
    requires r.pc.Scan? && t.parent == p ==> q != p
    ensures !OfScheduler(a) && !a.Kill? && !a.Wake?
    ensures waits == NOBODY || (waits == p && r.lock != NOBODY) || (waits == q && t.lock != NOBODY)
    ensures waits == NOBODY || waits == Wanted(n, p, r.pc)
    ensures waits == NOBODY ==> Rec(View(n, c, p, r, r', q, t, if q == p then r' else t', wl, wl'), a)
  {
    waits, a, r', t', wl' := NOBODY, Exit, r, t, wl;
    match r.pc
    case ForkParent(np) => a, r', t', wl' := Fork, r.(pc := ForkLock(np)), t.(parent := p), NOBODY;
    case Reparent(i) =>
      if i >= n {
        r' := r.(pc := WakeParent(0));
      } else if t.parent == p {
        r', t' := r.(pc := WakeInit(i, 0)), t.(parent := INIT);
      } else {
        r' := r.(pc := Reparent(i + 1));
      }
    case WakeInit(i, k) =>
      if k >= n {
        r' := r.(pc := Reparent(i + 1));
      } else if q != p && t.lock != NOBODY {
        waits := q;
      } else {
        r' := r.(pc := WakeInit(i, k + 1));
        t' := if t.st == SLEEPING && t.chan == Child(INIT) then t.(st := RUNNABLE) else t;
      }
    case WakeParent(k) =>
      if k >= n {
        r' := r.(pc := ExitLock);
      } else if q != p && t.lock != NOBODY {
        waits := q;
      } else {
        r' := r.(pc := WakeParent(k + 1));
        var chan := if r.parent >= 0 then Child(r.parent) else Nowhere;
        t' := if t.st == SLEEPING && t.chan == chan then t.(st := RUNNABLE) else t;
      }
    case ExitLock =>
      if r.lock == NOBODY {
        r' := r.(lock := c, pc := ExitSet);
      } else {
        waits := p;
      }
    case Scan(i, kids) =>
      a := Wait;
      if i < n {
        if t.parent != p {
          r' := r.(pc := Scan(i + 1, kids));
        } else if t.lock != NOBODY {
          waits := q;
        } else if t.st == ZOMBIE {
          r', t' := r.(pc := Reap(i)), t.(lock := c);
        } else {
          r' := r.(pc := Scan(i + 1, true));
        }
      } else if kids && r.lock != NOBODY {
        waits := p;
      } else if kids && !r.killed {
        r' := r.(pc := SleepLock);
      } else {
        r', wl' := r.(pc := Run), NOBODY;
      }
    case SleepLock =>
      if r.lock == NOBODY {
        a, r' := Wait, r.(lock := c, pc := SleepRelease);
      } else {
        waits := p;
      }
  }

  /**
   The holder of wait_lock can go on, or the lock it takes next is held by a CPU that can:
   there is no cycle of waits.
   */
  lemma WaitLockMoves(run: seq<State>, i: nat)
    requires History(run) && i < |run| && run[i].wl != NOBODY
    ensures var s := run[i];
      && Cpu?(s, s.wl) && s.cpus[s.wl].at.In? && Proc?(s, s.cpus[s.wl].at.p)
      && (CanStep(s, s.wl) || WaitsForMover(s, s.wl, s.cpus[s.wl].at.p))
  {
    hide CanStep, Rec, WaitsForMover;
    RunInv(run, i);
    var s := run[i];
    var c := s.wl;
    assert CpuOk(s, c);
    var p := s.cpus[c].at.p;
    if OwnLocked(s.procs[p]) {
      OwnerMoves(s, c, p);
    } else if OtherLock(s.procs[p].pc) != NOBODY {
      BorrowerMoves(s, c, p);
    } else {
      WaitLockThread(s, c, p);
    }
  }

  lemma WaitLockThread(s: State, c: nat, p: nat)
    requires Control(s) && Family(s) && Executes(s, c, p) && HoldsWl(s.procs[p].pc)
    requires !OwnLocked(s.procs[p]) && OtherLock(s.procs[p].pc) == NOBODY
    ensures CanStep(s, c) || WaitsForMover(s, c, p)
  {
    hide CanStep, Rec, WlOk;
    var q := Touched(|s.procs|, p, s.procs[p].pc);
    assert CpuOk(s, c) && LockOk(s, p) && LockOk(s, q) && ProcOk(s, p) && ProcOk(s, q);
    assert Solo(s.procs[p], p, |s.procs|) && Pair(s, p, q);
    var waits, a, r', t', wl' := WaitLockNext(|s.procs|, c, p, s.procs[p], q, s.procs[q], s.wl);
    if waits == NOBODY {
      ThreadCanStep(s, c, p, a, r', t', wl');
    } else {
      LockHolderMoves(s, waits);
    }
  }
}
