/**
 The buffer cache of kernel/bio.c: NBUF buffers on a circular doubly linked list, most
 recently released first. Pointers are indices; index NBUF is the list head.
 */
module BufferCache {
  import opened Bytes

  datatype Option<T> = None | Some(value: T)

  // ----- the doubly linked list -----

  predicate Distinct(c: seq<nat>) {
    forall i, j :: 0 <= i < j < |c| ==> c[i] != c[j]
  }

  /** Following `next` from c[0] visits c in order and returns; following `prev` visits it backwards. */
  predicate Ring(next: seq<nat>, prev: seq<nat>, c: seq<nat>) {
    Distinct(c) && Linked(next, prev, c)
  }

  predicate Linked(next: seq<nat>, prev: seq<nat>, c: seq<nat>) {
    && |next| == |prev| && |c| > 0
    && (forall i :: 0 <= i < |c| ==> c[i] < |next|)
    && (forall i {:trigger next[c[i]]} :: 0 <= i < |c| - 1 ==> next[c[i]] == c[i + 1])
    && (forall i {:trigger prev[c[i]]} :: 0 < i < |c| ==> prev[c[i]] == c[i - 1])
    && next[c[|c| - 1]] == c[0] && prev[c[0]] == c[|c| - 1]
  }

  function Without(c: seq<nat>, k: nat): (r: seq<nat>)
    requires k < |c|
  {
    c[..k] + c[k + 1..]
  }

  lemma WithoutDistinct(c: seq<nat>, k: nat)
    requires Distinct(c) && k < |c|
    ensures Distinct(Without(c, k)) && c[k] !in Without(c, k)
    ensures |Without(c, k)| == |c| - 1
    ensures forall i :: 0 <= i < |c| - 1 ==> Without(c, k)[i] == if i < k then c[i] else c[i + 1]
  {
  }

  /** Taking c[k] out of the ring: c[k]->next->prev = c[k]->prev, c[k]->prev->next = c[k]->next. */
  lemma Unlink(next: seq<nat>, prev: seq<nat>, c: seq<nat>, k: nat)
    requires Ring(next, prev, c) && 0 < k < |c|
    ensures next[c[k]] < |next| && prev[c[k]] < |next|
    ensures var b := c[k];
      Ring(next[prev[b] := next[b]], prev[next[b] := prev[b]], Without(c, k))
  {
    var b, d := c[k], Without(c, k);
    WithoutDistinct(c, k);
    var p, n := c[k - 1], if k + 1 < |c| then c[k + 1] else c[0];
    assert prev[b] == p && next[b] == n;
    var next', prev' := next[p := n], prev[n := p];
    forall i | 0 <= i < |d| - 1
      ensures next'[d[i]] == d[i + 1]
    {
      assert d[i] == if i < k then c[i] else c[i + 1];
    }
    forall i | 0 < i < |d|
      ensures prev'[d[i]] == d[i - 1]
    {
      assert d[i] == if i < k then c[i] else c[i + 1];
    }
  }

  lemma PushDistinct(c: seq<nat>, b: nat)
    requires Distinct(c) && |c| > 0 && b !in c
    ensures Distinct([c[0], b] + c[1..])
    ensures forall i :: 2 <= i < |c| + 1 ==> ([c[0], b] + c[1..])[i] == c[i - 1]
  {
  }

  /** Inserting b just after the head c[0]. */
  lemma PushFront(next: seq<nat>, prev: seq<nat>, c: seq<nat>, b: nat)
    requires Ring(next, prev, c) && b < |next| && b !in c
    ensures next[c[0]] < |next|
    ensures var h := c[0];
      Ring(next[b := next[h]][h := b], prev[b := h][next[h] := b], [h, b] + c[1..])
  {
    var h, d := c[0], [c[0], b] + c[1..];
    PushDistinct(c, b);
    var n := if |c| > 1 then c[1] else h;
    assert next[h] == n;
    var next', prev' := next[b := n][h := b], prev[b := h][n := b];
    forall i | 0 <= i < |d| - 1 ensures next'[d[i]] == d[i + 1] {
    }
    forall i | 0 < i < |d| ensures prev'[d[i]] == d[i - 1] {
    }
  }

  /** Release times decrease along the list behind the head. */
  predicate ByRelease(c: seq<nat>, stamp: seq<int>) {
    && (forall i :: 0 <= i < |c| ==> c[i] < |stamp|)
    && (forall i, j :: 1 <= i < j == i + 1 < |c| ==> stamp[c[i]] > stamp[c[j]])
  }

  lemma {:induction false} EarlierReleasedLater(c: seq<nat>, stamp: seq<int>, i: nat, j: nat)
    requires ByRelease(c, stamp) && 1 <= i < j < |c|
    ensures stamp[c[i]] > stamp[c[j]]
    decreases j - i
  {
    if i + 1 < j {
      EarlierReleasedLater(c, stamp, i, j - 1);
    }
  }

  // ----- buffers -----

  datatype Buf = Buf(dev: nat, blockno: nat, refcnt: nat, valid: bool, data: Block, pid: nat) // pid 0: not locked

  predicate Tagged(b: Buf, dev: nat, blockno: nat) {
    b.dev == dev && b.blockno == blockno
  }

  /** Each block of a real device is held by at most one buffer; device 0 marks unused buffers. */
  predicate Unique(bufs: seq<Buf>) {
    forall i, j :: 0 <= i < |bufs| && 0 <= j < |bufs| && i != j && bufs[i].dev != 0 ==>
      !Tagged(bufs[j], bufs[i].dev, bufs[i].blockno)
  }

  predicate Cached(bufs: seq<Buf>, dev: nat, blockno: nat) {
    exists i :: 0 <= i < |bufs| && Tagged(bufs[i], dev, blockno)
  }

  /** Reference counts are exactly the bget users plus the log's pins, and only a user holds the lock. */
  predicate Counted(bufs: seq<Buf>, users: seq<nat>, pins: seq<nat>) {
    && |users| == |pins| == |bufs|
    && forall b :: 0 <= b < |bufs| ==> bufs[b].refcnt == users[b] + pins[b] && (bufs[b].pid != 0 ==> users[b] > 0)
  }

  /** Of all unreferenced buffers, b was released longest ago. */
  predicate LeastRecent(bufs: seq<Buf>, stamp: seq<int>, b: nat)
    requires |bufs| <= |stamp|
  {
    && b < |bufs| && bufs[b].refcnt == 0
    && forall x :: 0 <= x < |bufs| && x != b && bufs[x].refcnt == 0 ==> stamp[b] < stamp[x]
  }

  /** The list after a release with no user left: b first. */
  function Moved(c: seq<nat>, k: nat): (r: seq<nat>)
    requires 0 < k < |c|
  {
    [c[0], c[k]] + Without(c, k)[1..]
  }

  lemma MovedRing(next: seq<nat>, prev: seq<nat>, c: seq<nat>, k: nat)
    requires Ring(next, prev, c) && 0 < k < |c|
    ensures next[c[k]] < |next| && prev[c[k]] < |next|
    ensures var b, h := c[k], c[0];
      var prev1, next1 := prev[next[b] := prev[b]], next[prev[b] := next[b]];
      && next1[h] < |next|
      && Ring(next1[b := next1[h]][h := b], prev1[b := h][next1[h] := b], Moved(c, k))
  {
    Unlink(next, prev, c, k);
    var b := c[k];
    var d := Without(c, k);
    assert b !in d && d[0] == c[0];
    PushFront(next[prev[b] := next[b]], prev[next[b] := prev[b]], d, b);
  }

  lemma MovedOrder(c: seq<nat>, k: nat, stamp: seq<int>, now: int)
    requires Distinct(c) && 0 < k < |c| && ByRelease(c, stamp)
    requires forall i :: 1 <= i < |c| ==> stamp[c[i]] < now
    ensures ByRelease(Moved(c, k), stamp[c[k] := now])
  {
    var d := Moved(c, k);
    assert forall i :: 2 <= i < |d| ==> d[i] == if i <= k then c[i - 1] else c[i];
    if 1 < k < |c| - 1 {
      EarlierReleasedLater(c, stamp, k - 1, k + 1);
    }
  }

  lemma MovedAll(c: seq<nat>, k: nat, x: nat)
    requires 0 < k < |c| && x in c
    ensures x in Moved(c, k)
  {
    var d := Moved(c, k);
    var i :| 0 <= i < |c| && c[i] == x;
    if i == 0 || i == k {
      assert d[0] == c[0] && d[1] == c[k];
    } else {
      assert d[if i < k then i + 1 else i] == x;
    }
  }

  function Total(s: seq<nat>): (n: nat) {
    if s == [] then 0 else s[0] + Total(s[1..])
  }

  /** "bget: no buffers" cannot happen while users and pins together are fewer than the buffers. */
  lemma {:induction false} SpareBuffer(bufs: seq<Buf>, users: seq<nat>, pins: seq<nat>)
    requires Counted(bufs, users, pins) && Total(users) + Total(pins) < |bufs|
    ensures exists b :: 0 <= b < |bufs| && bufs[b].refcnt == 0
  {
    if bufs[0].refcnt > 0 {
      assert Counted(bufs[1..], users[1..], pins[1..]);
      SpareBuffer(bufs[1..], users[1..], pins[1..]);
      var b :| 0 <= b < |bufs[1..]| && bufs[1..][b].refcnt == 0;
      assert bufs[b + 1].refcnt == 0;
    }
  }

  /** The list of n buffers behind head n, with the times of their last release. */
  predicate ListOk(n: nat, next: seq<nat>, prev: seq<nat>, order: seq<nat>, stamp: seq<int>, clock: int) {
    && |next| == n + 1
    && Ring(next, prev, order) && order[0] == n && |order| == n + 1
    && (forall b :: 0 <= b < n ==> b in order)
    && |stamp| == n + 1 && ByRelease(order, stamp)
    && (forall i :: 1 <= i < |order| ==> stamp[order[i]] <= clock)
  }

  lemma MovedListOk(n: nat, order: seq<nat>, stamp: seq<int>, clock: int, k: nat,
                    next: seq<nat>, prev: seq<nat>)
    requires Distinct(order) && |order| == n + 1 && order[0] == n && forall b :: 0 <= b < n ==> b in order
    requires |stamp| == n + 1 && ByRelease(order, stamp)
    requires forall i :: 1 <= i < |order| ==> stamp[order[i]] <= clock
    requires 0 < k < |order| && |next| == n + 1 && Ring(next, prev, Moved(order, k))
    ensures ListOk(n, next, prev, Moved(order, k), stamp[order[k] := clock + 1], clock + 1)
  {
    var d := Moved(order, k);
    MovedOrder(order, k, stamp, clock + 1);
    forall x | 0 <= x < n ensures x in d {
      MovedAll(order, k, x);
    }
    assert forall i :: 2 <= i < |d| ==> d[i] == if i <= k then order[i - 1] else order[i];
  }

  class BCache {
    const NBUF: nat
    var bufs: seq<Buf>
    var next: seq<nat>
    var prev: seq<nat>

    ghost var order: seq<nat> // the ring, head first
    ghost var stamp: seq<int> // when each buffer was last released with no user left
    ghost var clock: int
    ghost var users: seq<nat> // callers between bget and brelse
    ghost var pins: seq<nat>  // bpin without bunpin

    ghost predicate ValidList()
      reads this
    {
      ListOk(NBUF, next, prev, order, stamp, clock)
    }

    ghost predicate Valid()
      reads this
    {
      ValidList() && |bufs| == NBUF && Unique(bufs) && Counted(bufs, users, pins)
    }

    /** binit: the bss is zero, and the list links the buffers last to first. */
    constructor (n: nat)
      ensures Valid() && NBUF == n
      ensures forall b :: 0 <= b < n ==> bufs[b] == Buf(0, 0, 0, false, ZeroBlock(), 0)
      ensures order == [n] + seq(n, i requires 0 <= i < n => n - 1 - i)
    {
      NBUF := n;
      bufs := seq(n, _ => Buf(0, 0, 0, false, ZeroBlock(), 0));
      users, pins := seq(n, _ => 0), seq(n, _ => 0);
      next := seq(n + 1, _ => n);
      prev := seq(n + 1, _ => n);
      order := [n];
      stamp := seq(n + 1, i => i);
      clock := n;
      new;
      BuildList();
      forall x | 0 <= x < n ensures x in order {
        assert order[n - x] == x;
      }
    }

    method BuildList()
      requires |next| == NBUF + 1 && next[NBUF] == NBUF && |prev| == NBUF + 1 && prev[NBUF] == NBUF && order == [NBUF]
      modifies this`next, this`prev, this`order
      ensures |next| == NBUF + 1 && Ring(next, prev, order)
      ensures order == [NBUF] + seq(NBUF, i requires 0 <= i < NBUF => NBUF - 1 - i)
    {
      var b := 0;
      while b < NBUF
        invariant 0 <= b <= NBUF && |next| == NBUF + 1
        invariant order == [NBUF] + seq(b, i requires 0 <= i < b => b - 1 - i)
        invariant Ring(next, prev, order)
      {
        PushFront(next, prev, order, b);
        next := next[b := next[NBUF]];
        prev := prev[b := NBUF];
        prev := prev[next[NBUF] := b];
        next := next[NBUF := b];
        order := [NBUF, b] + order[1..];
        b := b + 1;
      }
    }

    /** Forward scan: the first buffer from the most recent end holding the block, or the head. */
    method Find(dev: nat, blockno: nat) returns (b: nat)
      requires Valid()
      ensures b <= NBUF
      ensures b < NBUF ==> Tagged(bufs[b], dev, blockno)
      ensures b == NBUF ==> !Cached(bufs, dev, blockno)
    {
      b := next[NBUF];
      ghost var i := 1;
      while b != NBUF
        invariant 1 <= i <= NBUF + 1 && b == if i <= NBUF then order[i] else NBUF
        invariant forall j :: 1 <= j < i ==> order[j] < NBUF && !Tagged(bufs[order[j]], dev, blockno)
        decreases NBUF + 1 - i
      {
        if bufs[b].dev == dev && bufs[b].blockno == blockno {
          return;
        }
        b := next[b];
        i := i + 1;
      }
      forall x | 0 <= x < NBUF ensures !Tagged(bufs[x], dev, blockno) {
        assert x in order;
        var j :| 0 <= j < |order| && order[j] == x;
      }
    }

    /** Backward scan: the least recently released unreferenced buffer, or the head. */
    method FindUnused() returns (b: nat)
      requires Valid()
      ensures b <= NBUF
      ensures b < NBUF ==> LeastRecent(bufs, stamp, b)
      ensures b == NBUF ==> forall x :: 0 <= x < NBUF ==> bufs[x].refcnt > 0
    {
      b := prev[NBUF];
      ghost var i := NBUF;
      while b != NBUF
        invariant 0 <= i <= NBUF && b == order[i]
        invariant forall j :: i < j <= NBUF ==> order[j] < NBUF && bufs[order[j]].refcnt > 0
        decreases i
      {
        if bufs[b].refcnt == 0 {
          break;
        }
        b := prev[b];
        i := i - 1;
      }
      forall x | 0 <= x < NBUF && x != b && bufs[x].refcnt == 0 ensures stamp[b] < stamp[x] && b < NBUF {
        assert x in order;
        var j :| 0 <= j < |order| && order[j] == x;
        EarlierReleasedLater(order, stamp, j, i);
      }
    }

    /** bget up to acquiresleep; None is the panic for lack of buffers. */
    method Bget(dev: nat, blockno: nat) returns (r: Option<nat>)
      requires Valid()
      modifies this`bufs, this`users
      ensures Valid()
      ensures r.None? <==> !old(Cached(bufs, dev, blockno)) && forall x :: 0 <= x < NBUF ==> old(bufs)[x].refcnt > 0
      ensures r.None? ==> bufs == old(bufs) && users == old(users)
      ensures r.Some? ==> r.value < NBUF
      ensures r.Some? && old(Cached(bufs, dev, blockno)) ==>
        var b := r.value;
        && Tagged(old(bufs)[b], dev, blockno)
        && bufs == old(bufs)[b := old(bufs)[b].(refcnt := old(bufs)[b].refcnt + 1)]
        && users == old(users)[b := old(users)[b] + 1]
      ensures r.Some? && !old(Cached(bufs, dev, blockno)) ==>
        var b := r.value;
        && LeastRecent(old(bufs), stamp, b) && old(pins)[b] == 0 && old(bufs)[b].pid == 0
        && bufs == old(bufs)[b := Buf(dev, blockno, 1, false, old(bufs)[b].data, 0)]
        && users == old(users)[b := 1]
    {
      var b := Find(dev, blockno);
      if b != NBUF {
        bufs := bufs[b := bufs[b].(refcnt := bufs[b].refcnt + 1)];
        users := users[b := users[b] + 1];
        return Some(b);
      }
      b := FindUnused();
      if b == NBUF {
        return None;
      }
      bufs := bufs[b := bufs[b].(dev := dev, blockno := blockno, valid := false, refcnt := 1)];
      users := users[b := 1];
      r := Some(b);
    }

    /** acquiresleep on a free buffer lock by one of its users. */
    method Lock(b: nat, pid: nat)
      requires Valid() && b < NBUF && users[b] > 0 && bufs[b].pid == 0 && pid != 0
      modifies this`bufs
      ensures Valid() && bufs == old(bufs)[b := old(bufs)[b].(pid := pid)]
    {
      bufs := bufs[b := bufs[b].(pid := pid)];
    }

    /** bread's tail, buffer locked: an invalid buffer is filled from the disk, a valid one never. */
    method Fill(b: nat, disk: seq<Block>)
      requires Valid() && b < NBUF && bufs[b].pid != 0 && bufs[b].blockno < |disk|
      modifies this`bufs
      ensures Valid() && bufs[b].valid
      ensures bufs == old(bufs)[b := old(bufs)[b].(valid := true,
                data := if old(bufs)[b].valid then old(bufs)[b].data else disk[old(bufs)[b].blockno])]
    {
      if !bufs[b].valid {
        bufs := bufs[b := bufs[b].(data := disk[bufs[b].blockno])];
        bufs := bufs[b := bufs[b].(valid := true)];
      }
    }

    /** brelse: false is its panic; a buffer nobody uses any more becomes the most recent. */
    method Brelse(b: nat, pid: nat) returns (ok: bool)
      requires Valid() && b < NBUF && pid != 0
      modifies this
      ensures Valid() && pins == old(pins)
      ensures ok <==> old(bufs)[b].pid == pid
      ensures !ok ==> bufs == old(bufs) && order == old(order) && stamp == old(stamp) && users == old(users)
      ensures ok ==>
        && bufs == old(bufs)[b := old(bufs)[b].(pid := 0, refcnt := old(bufs)[b].refcnt - 1)]
        && users == old(users)[b := old(users)[b] - 1]
        && if bufs[b].refcnt > 0 then order == old(order) && stamp == old(stamp)
           else order[1] == b && stamp == old(stamp)[b := clock] && clock == old(clock) + 1
    {
      if bufs[b].pid != pid {
        return false;
      }
      bufs := bufs[b := bufs[b].(pid := 0)];
      bufs := bufs[b := bufs[b].(refcnt := bufs[b].refcnt - 1)];
      users := users[b := users[b] - 1];
      if bufs[b].refcnt == 0 {
        MoveToFront(b);
      }
      ok := true;
    }

    /** The six pointer assignments of brelse. */
    method Relink(b: nat, ghost k: nat)
      requires |next| == NBUF + 1 && Ring(next, prev, order) && order[0] == NBUF
      requires 0 < k < |order| && order[k] == b
      modifies this`next, this`prev
      ensures |next| == NBUF + 1 && Ring(next, prev, Moved(order, k))
    {
      MovedRing(next, prev, order, k);
      assert next[b] == if k + 1 < |order| then order[k + 1] else order[0];
      prev := prev[next[b] := prev[b]];
      next := next[prev[b] := next[b]];
      next := next[b := next[NBUF]];
      prev := prev[b := NBUF];
      prev := prev[next[NBUF] := b];
      next := next[NBUF := b];
    }

    method MoveToFront(b: nat)
      requires ValidList() && b < NBUF
      modifies this`next, this`prev, this`order, this`stamp, this`clock
      ensures ValidList() && order[1] == b && stamp == old(stamp)[b := clock] && clock == old(clock) + 1
    {
      assert b in order;
      ghost var k :| 0 <= k < |order| && order[k] == b;
      Relink(b, k);
      ghost var d, released := Moved(order, k), stamp[b := clock + 1];
      MovedListOk(NBUF, order, stamp, clock, k, next, prev);
      order, stamp, clock := d, released, clock + 1;
    }

    method Bpin(b: nat)
      requires Valid() && b < NBUF
      modifies this`bufs, this`pins
      ensures Valid()
      ensures bufs == old(bufs)[b := old(bufs)[b].(refcnt := old(bufs)[b].refcnt + 1)]
      ensures pins == old(pins)[b := old(pins)[b] + 1]
    {
      bufs := bufs[b := bufs[b].(refcnt := bufs[b].refcnt + 1)];
      pins := pins[b := pins[b] + 1];
    }

    method Bunpin(b: nat)
      requires Valid() && b < NBUF && pins[b] > 0
      modifies this`bufs, this`pins
      ensures Valid()
      ensures bufs == old(bufs)[b := old(bufs)[b].(refcnt := old(bufs)[b].refcnt - 1)]
      ensures pins == old(pins)[b := old(pins)[b] - 1]
    {
      bufs := bufs[b := bufs[b].(refcnt := bufs[b].refcnt - 1)];
      pins := pins[b := pins[b] - 1];
    }
  }
}
