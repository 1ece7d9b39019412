/**
 Sleep locks (kernel/sleeplock.c) as a client of sleep and wakeup (kernel/proc.c): any
 number of threads calling acquiresleep and releasesleep, interleaved step by step.
 sleep() takes the caller's own process lock, drops lk->lk and only then marks the caller
 SLEEPING; wakeup() cannot look at a thread whose process lock is held.
 */
module SleepLock {

  datatype Pc =
    | Out
    | Enter                  // acquiresleep: wants lk->lk
    | Testing                // holds lk->lk
    | Drowsy                 // in sleep: holds lk->lk and its own lock
    | Falling                // its own lock only, not yet SLEEPING
    | Asleep                 // SLEEPING on lk
    | Owner                  // acquiresleep has returned
    | Leaving                // releasesleep: wants lk->lk
    | Waking(k: nat)         // holds lk->lk, in wakeup's scan

  const NOBODY: int := -1

  /** pid is the holder recorded in the lock; threads are named by their pid. */
  datatype State = State(locked: bool, pid: int, lk: int, at: seq<Pc>)

  predicate HoldsLk(pc: Pc) {
    pc.Testing? || pc.Drowsy? || pc.Waking?
  }

  /** Its process lock is held by the thread itself. */
  predicate OwnLocked(pc: Pc) {
    pc.Drowsy? || pc.Falling?
  }

  predicate Committed(pc: Pc) {
    pc.Falling? || pc.Asleep?
  }

  ghost predicate Step(s: State, t: nat, s': State)
    requires t < |s.at|
  {
    match s.at[t]
    case Out => s' == s.(at := s.at[t := Enter])
    case Enter => s.lk == NOBODY && s' == s.(lk := t, at := s.at[t := Testing])
    case Testing =>
      if s.locked then s' == s.(at := s.at[t := Drowsy])
      else s' == s.(locked := true, pid := t, lk := NOBODY, at := s.at[t := Owner])
    case Drowsy => s' == s.(lk := NOBODY, at := s.at[t := Falling])
    case Falling => s' == s.(at := s.at[t := Asleep])
    case Asleep => s' == s.(at := s.at[t := Enter])       // kkill makes any sleeper runnable
    case Owner => s' == s.(at := s.at[t := Leaving])
    case Leaving => s.lk == NOBODY && s' == s.(locked := false, pid := NOBODY, lk := t, at := s.at[t := Waking(0)])
    case Waking(k) =>
      if k >= |s.at| then s' == s.(lk := NOBODY, at := s.at[t := Out])
      else
        && (k == t || !OwnLocked(s.at[k]))
        && s' == s.(at := (if k != t && s.at[k].Asleep? then s.at[k := Enter] else s.at)[t := Waking(k + 1)])
  }

  /** Someone holding lk->lk has yet to reach thread t in its wakeup scan. */
  predicate WillWake(s: State, t: nat) {
    0 <= s.lk < |s.at| && s.at[s.lk].Waking? && s.at[s.lk].k <= t
  }

  predicate ThreadOk(s: State, t: nat)
    requires t < |s.at|
  {
    && (HoldsLk(s.at[t]) <==> s.lk == t)
    && (s.at[t].Owner? || s.at[t].Leaving? <==> s.locked && s.pid == t)
    && (s.at[t].Drowsy? ==> s.locked)
    && (s.at[t].Waking? ==> !s.locked)
    && (Committed(s.at[t]) ==> s.locked || WillWake(s, t))
  }

  ghost predicate Inv(s: State) {
    && -1 <= s.lk < |s.at| && (s.locked ==> 0 <= s.pid < |s.at|)
    && forall t :: 0 <= t < |s.at| ==> ThreadOk(s, t)
  }

  lemma StepInv(s: State, t: nat, s': State)
    requires Inv(s) && t < |s.at| && Step(s, t, s')
    ensures Inv(s')
  {
    forall u | 0 <= u < |s'.at|
      ensures ThreadOk(s', u)
    {
      assert ThreadOk(s, t) && ThreadOk(s, u);
      if 0 <= s.lk {
        assert ThreadOk(s, s.lk);
      }
    }
  }

  ghost predicate Steps(s: State, s': State) {
    exists t: nat :: t < |s.at| && Step(s, t, s')
  }

  /** Any interleaving of any number of threads, from an unlocked lock. */
  ghost predicate Run(run: seq<State>) {
    && |run| > 0 && !run[0].locked && run[0].lk == NOBODY
    && (forall t :: 0 <= t < |run[0].at| ==> run[0].at[t] == Out)
    && forall i, j :: 0 <= i < j < |run| && j == i + 1 ==> Steps(run[i], run[j])
  }

  lemma {:induction false} RunInv(run: seq<State>, i: nat)
    requires Run(run) && i < |run|
    ensures Inv(run[i])
  {
    if i > 0 {
      RunInv(run, i - 1);
      assert Steps(run[i - 1], run[i]);
      var t: nat :| t < |run[i - 1].at| && Step(run[i - 1], t, run[i]);
      StepInv(run[i - 1], t, run[i]);
    }
  }

  /** At most one thread is between acquiresleep and releasesleep, and holdingsleep is true of exactly that one. */
  lemma MutualExclusion(run: seq<State>, i: nat, t: nat, u: nat)
    requires Run(run) && i < |run| && t < |run[i].at| && u < |run[i].at|
    ensures run[i].at[t].Owner? && run[i].at[u].Owner? ==> t == u
    ensures run[i].locked && run[i].pid == t <==> run[i].at[t].Owner? || run[i].at[t].Leaving?
  {
    RunInv(run, i);
    assert ThreadOk(run[i], t) && ThreadOk(run[i], u);
  }

  /** With lk->lk free, a thread asleep on the lock means that some thread owns it and will release it. */
  lemma SleeperHasOwner(run: seq<State>, i: nat, t: nat)
    requires Run(run) && i < |run| && t < |run[i].at| && run[i].lk == NOBODY && Committed(run[i].at[t])
    ensures run[i].locked && 0 <= run[i].pid < |run[i].at|
    ensures run[i].at[run[i].pid].Owner? || run[i].at[run[i].pid].Leaving?
  {
    RunInv(run, i);
    assert ThreadOk(run[i], t) && ThreadOk(run[i], run[i].pid);
  }

  /** When a release has finished its wakeups, nobody who slept on the lock is still asleep. */
  lemma ReleaseWakesAll(run: seq<State>, i: nat, t: nat, u: nat)
    requires Run(run) && i < |run| && t < |run[i].at| && u < |run[i].at|
    requires run[i].at[t] == Waking(|run[i].at|)
    ensures !Committed(run[i].at[u])
  {
    RunInv(run, i);
    assert ThreadOk(run[i], t) && ThreadOk(run[i], u);
  }
}
