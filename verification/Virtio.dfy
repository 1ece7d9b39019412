/**
 The virtio disk driver (kernel/virtio_disk.c) and the device at the other end of the
 split virtqueue (sections 2.6 and 5.2 of VIRTIO 1.1). Driver and device share the
 descriptor table, the available ring and the used ring; ring indices are 16 bits wide
 and wrap. The driver's operations run under vdisk_lock.
 */
module Virtio {

  const NUM: nat := 8
  const TWO16: nat := 0x1_0000
  const SECTORS: nat := 2        // BSIZE / 512

  type Idx = x: int | 0 <= x < 0x1_0000

  /** What a descriptor's address points at: a command header, a buffer's data or a status byte. */
  datatype Target = Zero | Header(i: nat) | DataOf(b: nat) | StatusOf(i: nat)

  /** VRING_DESC_F_NEXT is more, VRING_DESC_F_WRITE is deviceWrites. */
  datatype Desc = Desc(addr: Target, more: bool, deviceWrites: bool, next: nat)

  datatype Req = Req(write: bool, sector: nat)

  /** info[i].b, or -1, and whether the device has written status 0. */
  datatype Info = Info(b: int, ok: bool)

  /** Shared memory, the driver's book-keeping, the device's own index and b->disk of every buffer. */
  datatype Queue = Queue(
    free: seq<bool>, desc: seq<Desc>, ops: seq<Req>, info: seq<Info>,
    avail: seq<nat>, availIdx: Idx, used: seq<nat>, usedIdx: Idx,
    seen: Idx, fetched: Idx, busy: set<nat>, disk: map<nat, bool>)

  // ----- history -----

  /** How far a request has got; positions count from boot and never wrap. good: the device reported success. */
  datatype Phase = Queued(k: nat) | Working | Posted(k: nat, good: bool) | Done

  datatype Chain = Chain(i1: nat, i2: nat, b: nat, req: Req, phase: Phase)

  /**
   The chains in flight by head, whose chain each descriptor is in (or -1), the head of each
   buffer's chain, and how many heads each party has put in or taken out of a ring.
   */
  datatype History = History(chains: map<nat, Chain>, owner: seq<int>, headOf: map<nat, nat>,
                             queued: nat, fetched: nat, posted: nat, seen: nat)

  predicate In(c: Chain, h: nat, i: nat) {
    i == h || i == c.i1 || i == c.i2
  }

  predicate Sizes(q: Queue) {
    |q.free| == |q.desc| == |q.ops| == |q.info| == |q.avail| == |q.used| == NUM
  }

  /** A chain as the device will find it: header, data, status, and nothing more. */
  predicate Formatted(q: Queue, h: nat, c: Chain)
    requires Sizes(q)
  {
    && h < NUM && c.i1 < NUM && c.i2 < NUM && h != c.i1 && h != c.i2 && c.i1 != c.i2
    && !q.free[h] && !q.free[c.i1] && !q.free[c.i2]
    && q.desc[h] == Desc(Header(h), true, false, c.i1)
    && q.desc[c.i1] == Desc(DataOf(c.b), true, !c.req.write, c.i2)
    && q.desc[c.i2] == Desc(StatusOf(h), false, true, 0)
    && q.ops[h] == c.req && q.info[h].b == c.b
    && c.b in q.disk && q.disk[c.b] == !c.phase.Done?
    && (c.phase.Working? <==> h in q.busy)
    && (c.phase.Posted? ==> q.info[h].ok == c.phase.good)
  }

  /** Chain h owns its three descriptors and its buffer. */
  predicate Owns(g: History, h: nat) {
    && h in g.chains && |g.owner| == NUM
    && var c := g.chains[h];
       && h < NUM && c.i1 < NUM && c.i2 < NUM && g.owner[h] == g.owner[c.i1] == g.owner[c.i2] == h
       && c.b in g.headOf && g.headOf[c.b] == h
  }

  predicate OwnerOk(q: Queue, g: History, i: nat)
    requires Sizes(q) && |g.owner| == NUM && i < NUM
  {
    if q.free[i] then g.owner[i] == -1 && q.desc[i] == NODESC
    else g.owner[i] >= 0 && var h: nat := g.owner[i]; h in g.chains && In(g.chains[h], h, i)
  }

  ghost predicate Partition(q: Queue, g: History)
    requires Sizes(q)
  {
    && |g.owner| == NUM
    && (forall h :: h in g.chains ==> Formatted(q, h, g.chains[h]) && Owns(g, h))
    && (forall i :: 0 <= i < NUM ==> OwnerOk(q, g, i))
    && (forall h :: h in q.busy ==> h in g.chains)
  }

  predicate IsPosted(c: Chain, k: nat) {
    c.phase.Posted? && c.phase.k == k
  }

  ghost predicate Rings(q: Queue, g: History)
    requires Sizes(q)
  {
    && g.seen <= g.posted && g.fetched <= g.queued
    && q.availIdx == g.queued % TWO16 && q.fetched == g.fetched % TWO16
    && q.usedIdx == g.posted % TWO16 && q.seen == g.seen % TWO16
    && (forall h :: h in g.chains && g.chains[h].phase.Queued? ==>
          g.fetched <= g.chains[h].phase.k < g.queued && q.avail[g.chains[h].phase.k % NUM] == h)
    && (forall h :: h in g.chains && g.chains[h].phase.Posted? ==>
          g.seen <= g.chains[h].phase.k < g.posted && q.used[g.chains[h].phase.k % NUM] == h)
    && (forall k :: g.fetched <= k < g.queued ==>
          q.avail[k % NUM] in g.chains && g.chains[q.avail[k % NUM]].phase == Queued(k))
    && (forall k :: g.seen <= k < g.posted ==>
          q.used[k % NUM] in g.chains && IsPosted(g.chains[q.used[k % NUM]], k))
  }

  ghost predicate Inv(q: Queue, g: History) {
    Sizes(q) && Partition(q, g) && Rings(q, g)
  }

  // ----- at most two requests -----

  function Triple(g: History, h: nat): set<nat>
    requires h in g.chains
  {
    {h, g.chains[h].i1, g.chains[h].i2}
  }

  lemma ChainFacts(q: Queue, g: History, h: nat)
    requires Sizes(q) && Partition(q, g) && (h in g.chains || h in q.busy)
    ensures h in g.chains && Formatted(q, h, g.chains[h]) && |g.owner| == NUM && Owns(g, h)
  {
    hide Formatted, Owns;
  }

  lemma Three(a: nat, b: nat, c: nat)
    requires a < NUM && b < NUM && c < NUM && a != b && b != c && a != c
    ensures |{a, b, c}| == 3 && {a, b, c} <= {0, 1, 2, 3, 4, 5, 6, 7}
  {
    assert {a, b, c} == {a} + {b} + {c};
  }

  lemma TripleFacts(q: Queue, g: History, h: nat, k: nat)
    requires Sizes(q) && Partition(q, g) && h in g.chains && k in g.chains
    ensures |Triple(g, h)| == 3 && Triple(g, h) <= {0, 1, 2, 3, 4, 5, 6, 7}
    ensures h != k ==> Triple(g, h) !! Triple(g, k)
  {
    hide Partition;
    ChainFacts(q, g, h);
    ChainFacts(q, g, k);
    Three(h, g.chains[h].i1, g.chains[h].i2);
    if h != k {
      forall i | i in Triple(g, h)
        ensures i !in Triple(g, k)
      {
        assert g.owner[i] == h;
      }
    }
  }

  /** Three chains would need nine descriptors. */
  lemma AtMostTwo(q: Queue, g: History, a: nat, b: nat, c: nat)
    requires Sizes(q) && Partition(q, g) && a in g.chains && b in g.chains && c in g.chains
    ensures a == b || b == c || a == c
  {
    hide Partition, Triple;
    if a != b && b != c && a != c {
      TripleFacts(q, g, a, b);
      TripleFacts(q, g, b, c);
      TripleFacts(q, g, c, a);
      var s, all := Triple(g, a) + Triple(g, b) + Triple(g, c), {0, 1, 2, 3, 4, 5, 6, 7};
      assert |Triple(g, a) + Triple(g, b)| == 6;
      assert (Triple(g, a) + Triple(g, b)) !! Triple(g, c);
      assert |s| == 9 && s <= all;
      SubsetSize(s, all);
      assert false;
    }
  }

  lemma {:induction false} SubsetSize(s: set<nat>, t: set<nat>)
    requires s <= t
    ensures |s| <= |t|
    decreases |s|
  {
    if s != {} {
      var x :| x in s;
      SubsetSize(s - {x}, t - {x});
    }
  }

  /** So no more than two entries wait in either ring, and a new one overwrites none. */
  lemma RingRoom(q: Queue, g: History)
    requires Inv(q, g)
    ensures g.queued <= g.fetched + 2 && g.posted <= g.seen + 2
  {
    hide Partition;
    if g.queued > g.fetched + 2 {
      var a, b, c := QueuedAt(q, g, g.fetched), QueuedAt(q, g, g.fetched + 1), QueuedAt(q, g, g.fetched + 2);
      AtMostTwo(q, g, a, b, c);
    }
    if g.posted > g.seen + 2 {
      var a, b, c := PostedAt(q, g, g.seen), PostedAt(q, g, g.seen + 1), PostedAt(q, g, g.seen + 2);
      AtMostTwo(q, g, a, b, c);
    }
  }

  function QueuedAt(q: Queue, g: History, k: nat): (h: nat)
    requires Sizes(q) && Rings(q, g) && g.fetched <= k < g.queued
    ensures h in g.chains && g.chains[h].phase == Queued(k)
  {
    q.avail[k % NUM]
  }

  function PostedAt(q: Queue, g: History, k: nat): (h: nat)
    requires Sizes(q) && Rings(q, g) && g.seen <= k < g.posted
    ensures h in g.chains && IsPosted(g.chains[h], k)
  {
    q.used[k % NUM]
  }

  // ----- what each step does -----

  /** virtio_disk_rw, once it has three descriptors: format them and hand the head to the device. */
  function Submit(q: Queue, h: nat, i1: nat, i2: nat, b: nat, req: Req): (q': Queue)
    requires Sizes(q) && h < NUM && i1 < NUM && i2 < NUM
    ensures Sizes(q')
  {
    q.(free := q.free[h := false][i1 := false][i2 := false],
       desc := q.desc[h := Desc(Header(h), true, false, i1)]
                     [i1 := Desc(DataOf(b), true, !req.write, i2)]
                     [i2 := Desc(StatusOf(h), false, true, 0)],
       ops := q.ops[h := req], info := q.info[h := Info(b, false)], disk := q.disk[b := true],
       avail := q.avail[q.availIdx % NUM := h], availIdx := (q.availIdx + 1) % TWO16)
  }

  function Submitted(g: History, h: nat, i1: nat, i2: nat, b: nat, req: Req): (g': History)
    requires |g.owner| == NUM && h < NUM && i1 < NUM && i2 < NUM
  {
    g.(chains := g.chains[h := Chain(i1, i2, b, req, Queued(g.queued))], owner := g.owner[h := h][i1 := h][i2 := h],
       headOf := g.headOf[b := h], queued := g.queued + 1)
  }

  /** The device takes the next head from the available ring. */
  function Fetch(q: Queue): (q': Queue)
    requires Sizes(q)
    ensures Sizes(q')
  {
    q.(busy := q.busy + {q.avail[q.fetched % NUM]}, fetched := (q.fetched + 1) % TWO16)
  }

  /** The device finishes a request it works on, in any order: the status, 0 for good, then the used ring. */
  function Post(q: Queue, h: nat, good: bool): (q': Queue)
    requires Sizes(q) && h < NUM
    ensures Sizes(q')
  {
    q.(busy := q.busy - {h}, info := q.info[h := q.info[h].(ok := good)],
       used := q.used[q.usedIdx % NUM := h], usedIdx := (q.usedIdx + 1) % TWO16)
  }

  /** One turn of virtio_disk_intr's loop. */
  function Complete(q: Queue, b: nat): (q': Queue)
    requires Sizes(q)
    ensures Sizes(q')
  {
    q.(disk := q.disk[b := false], seen := (q.seen + 1) % TWO16)
  }

  const NODESC: Desc := Desc(Zero, false, false, 0)

  /** The end of virtio_disk_rw: free the chain. */
  function Finish(q: Queue, h: nat, i1: nat, i2: nat): (q': Queue)
    requires Sizes(q) && h < NUM && i1 < NUM && i2 < NUM
    ensures Sizes(q')
  {
    q.(free := q.free[h := true][i1 := true][i2 := true], desc := q.desc[h := NODESC][i1 := NODESC][i2 := NODESC],
       info := q.info[h := q.info[h].(b := -1)])
  }

  function Finished(g: History, h: nat): (g': History)
    requires h in g.chains && |g.owner| == NUM && h < NUM && g.chains[h].i1 < NUM && g.chains[h].i2 < NUM
  {
    g.(chains := g.chains - {h}, owner := g.owner[h := -1][g.chains[h].i1 := -1][g.chains[h].i2 := -1],
       headOf := g.headOf - {g.chains[h].b})
  }

  function Moved(g: History, h: nat, phase: Phase): (g': History)
    requires h in g.chains
  {
    g.(chains := g.chains[h := g.chains[h].(phase := phase)])
  }

  // ----- every step keeps the invariant -----

  /** Three distinct free descriptors, and a buffer with no request in flight. */
  ghost predicate CanSubmit(q: Queue, g: History, h: nat, i1: nat, i2: nat, b: nat) {
    && Sizes(q) && Partition(q, g) && h < NUM && i1 < NUM && i2 < NUM && h != i1 && h != i2 && i1 != i2
    && q.free[h] && q.free[i1] && q.free[i2] && b !in g.headOf
  }

  lemma SubmitOld(q: Queue, g: History, h: nat, i1: nat, i2: nat, b: nat, req: Req, x: nat)
    requires CanSubmit(q, g, h, i1, i2, b) && x in g.chains
    ensures x != h && Formatted(Submit(q, h, i1, i2, b, req), x, g.chains[x])
    ensures Owns(Submitted(g, h, i1, i2, b, req), x)
  {
    assert Formatted(q, x, g.chains[x]) && Owns(g, x);
    hide Partition;
  }

  lemma SubmitNew(q: Queue, g: History, h: nat, i1: nat, i2: nat, b: nat, req: Req)
    requires CanSubmit(q, g, h, i1, i2, b)
    ensures var g' := Submitted(g, h, i1, i2, b, req);
      Formatted(Submit(q, h, i1, i2, b, req), h, g'.chains[h]) && Owns(g', h)
  {
    assert h in q.busy ==> h in g.chains && Formatted(q, h, g.chains[h]);
    hide Partition;
  }

  lemma SubmitOwner(q: Queue, g: History, h: nat, i1: nat, i2: nat, b: nat, req: Req, i: nat)
    requires CanSubmit(q, g, h, i1, i2, b) && i < NUM
    ensures OwnerOk(Submit(q, h, i1, i2, b, req), Submitted(g, h, i1, i2, b, req), i)
  {
    assert OwnerOk(q, g, i);
    if !q.free[i] {
      SubmitOld(q, g, h, i1, i2, b, req, g.owner[i]);
    }
    hide Partition;
  }

  lemma SubmitPartition(q: Queue, g: History, h: nat, i1: nat, i2: nat, b: nat, req: Req)
    requires CanSubmit(q, g, h, i1, i2, b)
    ensures Partition(Submit(q, h, i1, i2, b, req), Submitted(g, h, i1, i2, b, req))
  {
    hide Formatted, Owns, OwnerOk;
    var q', g' := Submit(q, h, i1, i2, b, req), Submitted(g, h, i1, i2, b, req);
    forall x | x in g'.chains
      ensures Formatted(q', x, g'.chains[x]) && Owns(g', x)
    {
      if x == h {
        SubmitNew(q, g, h, i1, i2, b, req);
      } else {
        SubmitOld(q, g, h, i1, i2, b, req, x);
      }
    }
    forall i | 0 <= i < NUM
      ensures OwnerOk(q', g', i)
    {
      SubmitOwner(q, g, h, i1, i2, b, req, i);
    }
  }

  lemma SubmitRings(q: Queue, g: History, h: nat, i1: nat, i2: nat, b: nat, req: Req)
    requires Inv(q, g) && CanSubmit(q, g, h, i1, i2, b) && h !in g.chains
    ensures Rings(Submit(q, h, i1, i2, b, req), Submitted(g, h, i1, i2, b, req))
  {
    RingRoom(q, g);
    hide Partition;
    var q', g' := Submit(q, h, i1, i2, b, req), Submitted(g, h, i1, i2, b, req);
    Wrap(g.queued);
    forall k | g'.fetched <= k < g'.queued
      ensures q'.avail[k % NUM] in g'.chains && g'.chains[q'.avail[k % NUM]].phase == Queued(k)
    {
      if k < g.queued {
        Apart(g.fetched, g.queued, k);
      }
    }
  }

  lemma Wrap(n: nat)
    ensures (n % TWO16 + 1) % TWO16 == (n + 1) % TWO16 && n % TWO16 % NUM == n % NUM
  {
    assert TWO16 == 0x2000 * NUM;
  }

  lemma Apart(lo: nat, hi: nat, k: nat)
    requires lo <= k < hi <= lo + 2
    ensures k % NUM != hi % NUM
  {
  }

  lemma SubmitInv(q: Queue, g: History, h: nat, i1: nat, i2: nat, b: nat, req: Req)
    requires Inv(q, g) && CanSubmit(q, g, h, i1, i2, b)
    ensures |g.owner| == NUM && Inv(Submit(q, h, i1, i2, b, req), Submitted(g, h, i1, i2, b, req))
  {
    assert forall x :: x in g.chains ==> Formatted(q, x, g.chains[x]);
    SubmitPartition(q, g, h, i1, i2, b, req);
    SubmitRings(q, g, h, i1, i2, b, req);
    hide Rings, Partition;
  }

  /** Moving chain h to another phase, when only its status, busy mark or b->disk change with it. */
  lemma MovePartition(q: Queue, g: History, q': Queue, h: nat, phase: Phase)
    requires Sizes(q) && Partition(q, g) && h in g.chains && Sizes(q')
    requires q'.free == q.free && q'.desc == q.desc && q'.ops == q.ops
    requires forall i :: 0 <= i < NUM ==> q'.info[i].b == q.info[i].b && (i != h ==> q'.info[i].ok == q.info[i].ok)
    requires q'.busy == if phase.Working? then q.busy + {h} else q.busy - {h}
    requires q'.disk == if phase.Done? then q.disk[g.chains[h].b := false] else q.disk
    requires phase.Done? || !g.chains[h].phase.Done?
    requires phase.Posted? ==> h < NUM && q'.info[h].ok == phase.good
    ensures Partition(q', Moved(g, h, phase))
  {
    var g' := Moved(g, h, phase);
    forall x | x in g'.chains
      ensures Formatted(q', x, g'.chains[x]) && Owns(g', x)
    {
      assert Formatted(q, x, g.chains[x]) && Owns(g, x) && Owns(g, h);
    }
    forall i | 0 <= i < NUM
      ensures OwnerOk(q', g', i)
    {
      assert OwnerOk(q, g, i);
    }
  }

  lemma CountsPartition(q: Queue, g: History, g': History)
    requires Sizes(q) && Partition(q, g) && g'.chains == g.chains && g'.owner == g.owner && g'.headOf == g.headOf
    ensures Partition(q, g')
  {
    forall i | 0 <= i < NUM
      ensures OwnerOk(q, g', i)
    {
      assert OwnerOk(q, g, i);
    }
    forall h | h in g'.chains
      ensures Owns(g', h)
    {
      assert Owns(g, h);
    }
  }

  lemma FetchRings(q: Queue, g: History)
    requires Inv(q, g) && q.fetched != q.availIdx
    ensures var h := q.avail[q.fetched % NUM];
      && h in g.chains && g.chains[h].phase == Queued(g.fetched)
      && Rings(Fetch(q), Moved(g, h, Working).(fetched := g.fetched + 1))
  {
    hide Partition;
    RingRoom(q, g);
    Wrap(g.fetched);
    assert g.fetched < g.queued;
  }

  lemma FetchInv(q: Queue, g: History)
    requires Inv(q, g) && q.fetched != q.availIdx
    ensures var h := q.avail[q.fetched % NUM];
      h in g.chains && g.chains[h].phase == Queued(g.fetched)
        && Inv(Fetch(q), Moved(g, h, Working).(fetched := g.fetched + 1))
  {
    hide Rings, Partition;
    FetchRings(q, g);
    var h := q.avail[q.fetched % NUM];
    MovePartition(q, g, Fetch(q), h, Working);
    CountsPartition(Fetch(q), Moved(g, h, Working), Moved(g, h, Working).(fetched := g.fetched + 1));
  }

  lemma PostRings(q: Queue, g: History, h: nat, good: bool)
    requires Inv(q, g) && h in g.chains && g.chains[h].phase.Working? && h < NUM
    ensures Rings(Post(q, h, good), Moved(g, h, Posted(g.posted, good)).(posted := g.posted + 1))
  {
    hide Partition;
    RingRoom(q, g);
    Wrap(g.posted);
    var q', g' := Post(q, h, good), Moved(g, h, Posted(g.posted, good)).(posted := g.posted + 1);
    forall k | g'.seen <= k < g'.posted
      ensures q'.used[k % NUM] in g'.chains && IsPosted(g'.chains[q'.used[k % NUM]], k)
    {
      if k < g.posted {
        Apart(g.seen, g.posted, k);
      }
    }
  }

  lemma PostInv(q: Queue, g: History, h: nat, good: bool)
    requires Inv(q, g) && h in q.busy
    ensures h in g.chains && g.chains[h].phase.Working? && h < NUM
    ensures Inv(Post(q, h, good), Moved(g, h, Posted(g.posted, good)).(posted := g.posted + 1))
  {
    hide Rings, Partition;
    ChainFacts(q, g, h);
    PostRings(q, g, h, good);
    MovePartition(q, g, Post(q, h, good), h, Posted(g.posted, good));
    CountsPartition(Post(q, h, good), Moved(g, h, Posted(g.posted, good)),
                    Moved(g, h, Posted(g.posted, good)).(posted := g.posted + 1));
  }

  lemma CompleteRings(q: Queue, g: History, b: nat)
    requires Inv(q, g) && q.seen != q.usedIdx
    ensures g.seen < g.posted
    ensures var h := q.used[q.seen % NUM];
      && h in g.chains && IsPosted(g.chains[h], g.seen)
      && Rings(Complete(q, b), Moved(g, h, Done).(seen := g.seen + 1))
  {
    hide Partition;
    RingRoom(q, g);
    Wrap(g.seen);
    assert g.seen < g.posted;
  }

  /**
   The completion the interrupt handler sees is a posted request, with the status the device
   gave it, and its buffer issued it.
   */
  lemma CompleteInv(q: Queue, g: History)
    requires Inv(q, g) && q.seen != q.usedIdx
    ensures g.seen < g.posted
    ensures var h := q.used[q.seen % NUM];
      && h in g.chains && h < NUM && IsPosted(g.chains[h], g.seen)
      && q.info[h].ok == g.chains[h].phase.good && q.info[h].b == g.chains[h].b && g.chains[h].b in q.disk
        && q.disk[g.chains[h].b]
      && Inv(Complete(q, g.chains[h].b), Moved(g, h, Done).(seen := g.seen + 1))
  {
    hide Rings, Partition;
    CompleteRings(q, g, 0);
    var h := q.used[q.seen % NUM];
    ChainFacts(q, g, h);
    var b := g.chains[h].b;
    CompleteRings(q, g, b);
    assert q.busy - {h} == q.busy;
    MovePartition(q, g, Complete(q, b), h, Done);
    CountsPartition(Complete(q, b), Moved(g, h, Done), Moved(g, h, Done).(seen := g.seen + 1));
  }

  lemma FinishRings(q: Queue, g: History, h: nat)
    requires Inv(q, g) && h in g.chains && g.chains[h].phase.Done? && Owns(g, h)
    ensures Rings(Finish(q, h, g.chains[h].i1, g.chains[h].i2), Finished(g, h))
  {
    hide Partition;
  }

  lemma FinishOld(q: Queue, g: History, h: nat, x: nat)
    requires Sizes(q) && Partition(q, g) && h in g.chains && g.chains[h].phase.Done? && Owns(g, h) && x in g.chains
    requires x != h
    ensures Formatted(Finish(q, h, g.chains[h].i1, g.chains[h].i2), x, g.chains[x]) && Owns(Finished(g, h), x)
  {
    assert Formatted(q, x, g.chains[x]) && Owns(g, x);
    hide Partition;
  }

  lemma FinishOwner(q: Queue, g: History, h: nat, i: nat)
    requires Sizes(q) && Partition(q, g) && h in g.chains && g.chains[h].phase.Done? && Owns(g, h) && i < NUM
    ensures OwnerOk(Finish(q, h, g.chains[h].i1, g.chains[h].i2), Finished(g, h), i)
  {
    assert OwnerOk(q, g, i);
    hide Partition;
  }

  lemma FinishInv(q: Queue, g: History, h: nat)
    requires Inv(q, g) && h in g.chains && g.chains[h].phase.Done?
    ensures Owns(g, h) && Inv(Finish(q, h, g.chains[h].i1, g.chains[h].i2), Finished(g, h))
  {
    hide Rings, Formatted, OwnerOk;
    assert Owns(g, h);
    FinishRings(q, g, h);
    FinishPartition(q, g, h);
  }

  lemma FinishPartition(q: Queue, g: History, h: nat)
    requires Sizes(q) && Partition(q, g) && h in g.chains && g.chains[h].phase.Done? && Owns(g, h)
    ensures Partition(Finish(q, h, g.chains[h].i1, g.chains[h].i2), Finished(g, h))
  {
    var q', g' := Finish(q, h, g.chains[h].i1, g.chains[h].i2), Finished(g, h);
    assert h !in q.busy by {
      assert Formatted(q, h, g.chains[h]);
    }
    forall x | x in g'.chains
      ensures Formatted(q', x, g'.chains[x]) && Owns(g', x)
    {
      FinishOld(q, g, h, x);
    }
    forall i | 0 <= i < NUM
      ensures OwnerOk(q', g', i)
    {
      FinishOwner(q, g, h, i);
    }
  }

  // ----- runs -----

  ghost predicate Submits(q: Queue, g: History, h: nat, i1: nat, i2: nat, b: nat, req: Req, q': Queue, g': History) {
    CanSubmit(q, g, h, i1, i2, b) && q' == Submit(q, h, i1, i2, b, req) && g' == Submitted(g, h, i1, i2, b, req)
  }

  ghost predicate Fetches(q: Queue, g: History, q': Queue, g': History) {
    && Sizes(q) && q.fetched != q.availIdx && q.avail[q.fetched % NUM] in g.chains && q' == Fetch(q)
    && g' == Moved(g, q.avail[q.fetched % NUM], Working).(fetched := g.fetched + 1)
  }

  ghost predicate Posts(q: Queue, g: History, h: nat, good: bool, q': Queue, g': History) {
    && Sizes(q) && h in q.busy && h in g.chains && h < NUM && q' == Post(q, h, good)
    && g' == Moved(g, h, Posted(g.posted, good)).(posted := g.posted + 1)
  }

  /** With a bad status the interrupt handler panics instead. */
  ghost predicate Completes(q: Queue, g: History, q': Queue, g': History) {
    && Sizes(q) && q.seen != q.usedIdx && q.used[q.seen % NUM] in g.chains
    && q.used[q.seen % NUM] < NUM && q.info[q.used[q.seen % NUM]].ok
    && q' == Complete(q, g.chains[q.used[q.seen % NUM]].b)
    && g' == Moved(g, q.used[q.seen % NUM], Done).(seen := g.seen + 1)
  }

  ghost predicate Finishes(q: Queue, g: History, h: nat, q': Queue, g': History) {
    && Sizes(q) && Owns(g, h) && g.chains[h].phase.Done?
    && q' == Finish(q, h, g.chains[h].i1, g.chains[h].i2) && g' == Finished(g, h)
  }

  /** Any step of the driver or the device. */
  ghost predicate Next(q: Queue, g: History, q': Queue, g': History) {
    || (exists h, i1, i2, b, req :: Submits(q, g, h, i1, i2, b, req, q', g'))
    || Fetches(q, g, q', g')
    || (exists h, good :: Posts(q, g, h, good, q', g'))
    || Completes(q, g, q', g')
    || (exists h :: Finishes(q, g, h, q', g'))
  }

  lemma NextInv(q: Queue, g: History, q': Queue, g': History)
    requires Inv(q, g) && Next(q, g, q', g')
    ensures Inv(q', g')
  {
    hide Partition, Rings, Submit, Submitted, Fetch, Post, Complete, Finish, Finished, Moved;
    if h, i1, i2, b, req :| Submits(q, g, h, i1, i2, b, req, q', g') {
      SubmitInv(q, g, h, i1, i2, b, req);
    } else if Fetches(q, g, q', g') {
      FetchInv(q, g);
    } else if h, good :| Posts(q, g, h, good, q', g') {
      PostInv(q, g, h, good);
    } else if Completes(q, g, q', g') {
      CompleteInv(q, g);
    } else {
      var h :| Finishes(q, g, h, q', g');
      FinishInv(q, g, h);
    }
  }

  datatype State = State(q: Queue, g: History)

  ghost predicate Start(s: State) {
    && Sizes(s.q) && |s.g.owner| == NUM && s.g.chains == map[] && s.g.headOf == map[] && s.q.busy == {}
    && s.g.queued == s.g.fetched == s.g.posted == s.g.seen == 0
    && s.q.availIdx == s.q.fetched == s.q.usedIdx == s.q.seen == 0
    && forall i :: 0 <= i < NUM ==> s.q.free[i] && s.g.owner[i] == -1 && s.q.desc[i] == NODESC
  }

  ghost predicate Run(run: seq<State>) {
    && |run| > 0 && Start(run[0])
    && forall i, j :: 0 <= i < j < |run| && j == i + 1 ==> Next(run[i].q, run[i].g, run[j].q, run[j].g)
  }

  lemma {:induction false} RunInv(run: seq<State>, i: nat)
    requires Run(run) && i < |run|
    ensures Inv(run[i].q, run[i].g)
  {
    hide Next;
    if i > 0 {
      RunInv(run, i - 1);
      assert Next(run[i - 1].q, run[i - 1].g, run[i].q, run[i].g);
      NextInv(run[i - 1].q, run[i - 1].g, run[i].q, run[i].g);
    }
  }

  /** In every reachable state a descriptor is free or in exactly one of at most two chains. */
  lemma DescriptorsPartitioned(run: seq<State>, i: nat, d: nat, h: nat, k: nat, l: nat)
    requires Run(run) && i < |run| && d < NUM && h in run[i].g.chains && k in run[i].g.chains && l in run[i].g.chains
    ensures Sizes(run[i].q) && (h == k || k == l || h == l)
    ensures In(run[i].g.chains[h], h, d) ==> !run[i].q.free[d] && (In(run[i].g.chains[k], k, d) ==> h == k)
    ensures !run[i].q.free[d] ==> exists x :: x in run[i].g.chains && In(run[i].g.chains[x], x, d)
  {
    RunInv(run, i);
    var q, g := run[i].q, run[i].g;
    AtMostTwo(q, g, h, k, l);
    ChainFacts(q, g, h);
    ChainFacts(q, g, k);
    assert OwnerOk(q, g, d);
  }

  /** Following a queued head through the descriptor table, the device finds the request that buffer issued. */
  lemma DeviceSees(run: seq<State>, i: nat, k: nat)
    requires Run(run) && i < |run| && run[i].g.fetched <= k < run[i].g.queued
    ensures Sizes(run[i].q)
    ensures var q, g := run[i].q, run[i].g;
      var h := q.avail[k % NUM];
      && h in g.chains && h < NUM && q.desc[h].addr == Header(h) && q.desc[h].more && q.desc[h].next < NUM
      && var d1 := q.desc[q.desc[h].next];
         && d1.addr == DataOf(g.chains[h].b) && d1.more && d1.next < NUM && d1.deviceWrites == !q.ops[h].write
         && q.desc[d1.next].addr == StatusOf(h) && !q.desc[d1.next].more
         && q.ops[h] == g.chains[h].req && g.chains[h].b in q.disk && q.disk[g.chains[h].b]
  {
    RunInv(run, i);
    ChainFacts(run[i].q, run[i].g, QueuedAt(run[i].q, run[i].g, k));
  }

  // ----- the driver -----

  lemma Submitting(q: Queue, g: History, h: nat, i1: nat, i2: nat, b: nat, req: Req)
    requires CanSubmit(q, g, h, i1, i2, b)
    ensures |g.owner| == NUM
    ensures Submits(q, g, h, i1, i2, b, req, Submit(q, h, i1, i2, b, req), Submitted(g, h, i1, i2, b, req))
  {
  }

  lemma FreeIsBlank(q: Queue, g: History)
    requires Inv(q, g)
    ensures forall k :: 0 <= k < NUM && q.free[k] ==> q.desc[k] == NODESC
  {
    forall k | 0 <= k < NUM && q.free[k]
      ensures q.desc[k] == NODESC
    {
      assert OwnerOk(q, g, k);
    }
  }

  /** Some completions have been handled: the same chains, where posted ones may be done. */
  ghost predicate Settling(g: History, g': History) {
    && g'.chains.Keys == g.chains.Keys && g'.posted == g.posted
    && g'.owner == g.owner && g'.headOf == g.headOf && g'.queued == g.queued && g'.fetched == g.fetched
    && forall h :: h in g.chains ==>
         g'.chains[h] == g.chains[h] || (g.chains[h].phase.Posted? && g'.chains[h] == g.chains[h].(phase := Done))
  }

  /** Those handled so far had succeeded. */
  ghost predicate AllGood(g: History, g': History)
    requires g'.chains.Keys == g.chains.Keys
  {
    forall h :: h in g.chains && g'.chains[h] != g.chains[h] ==> g.chains[h].phase.Posted? && g.chains[h].phase.good
  }

  /** All of them have. */
  ghost predicate Settled(g: History, g': History) {
    && g'.chains.Keys == g.chains.Keys
    && forall h :: h in g.chains ==>
         g'.chains[h] == if g.chains[h].phase.Posted? then g.chains[h].(phase := Done) else g.chains[h]
  }

  ghost predicate WasPosted(g: History, b: nat) {
    exists h :: h in g.chains && g.chains[h].phase.Posted? && g.chains[h].b == b
  }

  lemma SeenAll(q: Queue, g: History)
    requires Inv(q, g) && q.seen == q.usedIdx
    ensures g.seen == g.posted && forall h :: h in g.chains ==> !g.chains[h].phase.Posted?
  {
    RingRoom(q, g);
    hide Partition;
  }

  lemma ThreeTaken(free0: seq<bool>, free: seq<bool>, idx: seq<nat>)
    requires |free0| == |free| == NUM && |idx| == 3
    requires forall j :: 0 <= j < 3 ==> idx[j] < NUM && !free[idx[j]]
    requires forall d :: 0 <= d < NUM && d !in idx ==> free[d] == free0[d]
    ensures free == free0[idx[0] := false][idx[1] := false][idx[2] := false]
  {
    assert forall j :: 0 <= j < 3 ==> idx[j] in idx;
  }

  class Disk {
    var free: seq<bool>
    var desc: seq<Desc>
    var ops: seq<Req>
    var info: seq<Info>
    var avail: seq<nat>
    var availIdx: Idx
    var used: seq<nat>
    var usedIdx: Idx
    var seen: Idx
    ghost var fetched: Idx            // the device's
    ghost var busy: set<nat>          // the device's
    var disk: map<nat, bool>          // b->disk
    ghost var g: History

    ghost function Q(): Queue
      reads this
    {
      Queue(free, desc, ops, info, avail, availIdx, used, usedIdx, seen, fetched, busy, disk)
    }

    ghost predicate Valid()
      reads this
    {
      Inv(Q(), g)
    }

    /** virtio_disk_init: everything is free and the rings are empty. */
    constructor ()
      ensures Valid() && g.chains == map[] && forall i :: 0 <= i < NUM ==> free[i]
    {
      free, desc := seq(NUM, _ => true), seq(NUM, _ => NODESC);
      ops, info := seq(NUM, _ => Req(false, 0)), seq(NUM, _ => Info(-1, true));
      avail, used := seq(NUM, _ => 0), seq(NUM, _ => 0);
      availIdx, usedIdx, seen, fetched := 0, 0, 0, 0;
      busy, disk := {}, map[];
      g := History(map[], seq(NUM, _ => -1), map[], 0, 0, 0, 0);
    }

    method AllocDesc() returns (i: int)
      requires |free| == NUM
      modifies `free
      ensures |free| == NUM && -1 <= i < NUM
      ensures i == -1 ==> free == old(free) && forall k :: 0 <= k < NUM ==> !free[k]
      ensures i >= 0 ==> old(free)[i] && free == old(free)[i := false] && forall k :: 0 <= k < i ==> !free[k]
    {
      i := 0;
      while i < NUM
        invariant 0 <= i <= NUM && free == old(free)
        invariant forall k :: 0 <= k < i ==> !free[k]
      {
        if free[i] {
          free := free[i := false];
          return;
        }
        i := i + 1;
      }
      i := -1;
    }

    method FreeDesc(i: nat)
      requires |free| == |desc| == NUM && i < NUM && !free[i]
      modifies `free, `desc
      ensures free == old(free)[i := true] && desc == old(desc)[i := NODESC]
    {
      desc := desc[i := NODESC];
      free := free[i := true];
    }

    /** All three or none: when fewer than three are free, those taken go back. */
    method Alloc3Desc() returns (ok: bool, idx: seq<nat>)
      requires |free| == |desc| == NUM && forall k :: 0 <= k < NUM && free[k] ==> desc[k] == NODESC
      modifies `free, `desc
      ensures desc == old(desc) && |free| == NUM
      ensures ok ==>
          && |idx| == 3 && idx[0] < NUM && idx[1] < NUM && idx[2] < NUM
          && idx[0] != idx[1] && idx[0] != idx[2] && idx[1] != idx[2]
          && old(free)[idx[0]] && old(free)[idx[1]] && old(free)[idx[2]]
          && free == old(free)[idx[0] := false][idx[1] := false][idx[2] := false]
      ensures !ok ==>
          && free == old(free)
          && forall a, b, c :: 0 <= a < b < c < NUM ==> !free[a] || !free[b] || !free[c]
    {
      idx := [];
      var i := 0;
      while i < 3
        invariant 0 <= i <= 3 && |idx| == i && desc == old(desc) && |free| == NUM
        invariant forall j :: 0 <= j < i ==> idx[j] < NUM && old(free)[idx[j]] && !free[idx[j]]
        invariant forall j, k :: 0 <= j < k < i ==> idx[j] != idx[k]
        invariant forall d :: 0 <= d < NUM && d !in idx ==> free[d] == old(free)[d]
      {
        var d := AllocDesc();
        if d < 0 {
          UndoAlloc(idx, old(free), old(desc));
          return false, [];
        }
        idx := idx + [d];
        i := i + 1;
      }
      ThreeTaken(old(free), free, idx);
      ok := true;
    }

    /** The failure branch of alloc3_desc. */
    method UndoAlloc(idx: seq<nat>, ghost free0: seq<bool>, ghost desc0: seq<Desc>)
      requires |free| == |desc| == |free0| == NUM && |idx| <= 2 && desc == desc0
      requires forall j :: 0 <= j < |idx| ==> idx[j] < NUM && free0[idx[j]] && !free[idx[j]] && desc[idx[j]] == NODESC
      requires forall j, k :: 0 <= j < k < |idx| ==> idx[j] != idx[k]
      requires forall d :: 0 <= d < NUM && d !in idx ==> free[d] == free0[d]
      modifies `free, `desc
      ensures free == free0 && desc == desc0
    {
      var j := 0;
      while j < |idx|
        invariant 0 <= j <= |idx| && |free| == NUM && desc == desc0
        invariant forall k :: 0 <= k < j ==> free[idx[k]]
        invariant forall k :: j <= k < |idx| ==> !free[idx[k]]
        invariant forall d :: 0 <= d < NUM && d !in idx ==> free[d] == free0[d]
      {
        FreeDesc(idx[j]);
        j := j + 1;
      }
    }

    /** virtio_disk_rw up to the notification; without three free descriptors the caller sleeps and retries. */
    method Begin(b: nat, blockno: nat, write: bool) returns (ok: bool, h: nat)
      requires Valid() && b !in g.headOf
      modifies this
      ensures Valid()
      ensures !ok ==>
          && Q() == old(Q()) && g == old(g)
          && forall i, j, k :: 0 <= i < j < k < NUM ==> !free[i] || !free[j] || !free[k]
      ensures ok ==> exists i1, i2 ::
          Submits(old(Q()), old(g), h, i1, i2, b, Req(write, blockno * SECTORS % 0x1_0000_0000), Q(), g)
    {
      hide Partition, Rings, Submits;
      FreeIsBlank(Q(), g);
      var idx;
      ok, idx := Alloc3Desc();
      if !ok {
        return false, 0;
      }
      h := idx[0];
      var req := Req(write, blockno * SECTORS % 0x1_0000_0000);
      SubmitInv(old(Q()), g, h, idx[1], idx[2], b, req);
      Enqueue(h, idx[1], idx[2], b, req, old(Q()));
      g := Submitted(g, h, idx[1], idx[2], b, req);
      Submitting(old(Q()), old(g), h, idx[1], idx[2], b, req);
    }

    /** Formatting the three descriptors, recording the buffer and telling the device. */
    method Enqueue(h: nat, i1: nat, i2: nat, b: nat, req: Req, ghost q: Queue)
      requires Sizes(q) && h < NUM && i1 < NUM && i2 < NUM && h != i1 && h != i2 && i1 != i2
      requires Q() == q.(free := q.free[h := false][i1 := false][i2 := false])
      modifies `ops, `desc, `info, `disk, `avail, `availIdx
      ensures Q() == Submit(q, h, i1, i2, b, req)
    {
      ops := ops[h := req];
      desc := desc[h := Desc(Header(h), true, false, i1)];
      desc := desc[i1 := Desc(DataOf(b), true, !req.write, i2)];
      info := info[h := Info(b, false)];
      desc := desc[i2 := Desc(StatusOf(h), false, true, 0)];
      disk := disk[b := true];
      avail := avail[availIdx % NUM := h];
      availIdx := (availIdx + 1) % TWO16;
    }

    method FreeChain(h: nat, ghost i1: nat, ghost i2: nat)
      requires |free| == |desc| == NUM && h < NUM && i1 < NUM && i2 < NUM && h != i1 && h != i2 && i1 != i2
      requires !free[h] && !free[i1] && !free[i2]
      requires desc[h].more && desc[h].next == i1 && desc[i1].more && desc[i1].next == i2 && !desc[i2].more
      modifies `free, `desc
      ensures free == old(free)[h := true][i1 := true][i2 := true]
      ensures desc == old(desc)[h := NODESC][i1 := NODESC][i2 := NODESC]
    {
      var i := h;
      ghost var n := 0;
      while true
        invariant n <= 2 && i == (if n == 0 then h else if n == 1 then i1 else i2)
        invariant free ==
          (if n == 0 then old(free) else if n == 1 then old(free)[h := true] else old(free)[h := true][i1 := true])
        invariant desc ==
          (if n == 0 then old(desc) else if n == 1 then old(desc)[h := NODESC]
           else old(desc)[h := NODESC][i1 := NODESC])
        decreases 2 - n
      {
        var more, next := desc[i].more, desc[i].next;
        FreeDesc(i);
        if !more {
          break;
        }
        i := next;
        n := n + 1;
      }
    }

    /** The end of virtio_disk_rw, once b->disk has been cleared. */
    method End(h: nat)
      requires Valid() && h in g.chains && g.chains[h].phase.Done?
      modifies this
      ensures Valid() && Finishes(old(Q()), old(g), h, Q(), g)
    {
      hide Partition, Rings;
      ChainFacts(Q(), g, h);
      FinishInv(Q(), g, h);
      info := info[h := info[h].(b := -1)];
      FreeChain(h, g.chains[h].i1, g.chains[h].i2);
      g := Finished(g, h);
      assert Q() == Finish(old(Q()), h, old(g).chains[h].i1, old(g).chains[h].i2);
    }

    /**
     Every posted request, and no other, is marked done. False is the status panic: the
     device reported a failure for one of them, and those seen before it are done.
     */
    method Intr() returns (ok: bool)
      requires Valid()
      modifies `disk, `seen, `g
      ensures Valid() && Settling(old(g), g)
      ensures ok <==> forall h :: h in old(g).chains && old(g).chains[h].phase.Posted? ==> old(g).chains[h].phase.good
      ensures ok ==> g.seen == g.posted && Settled(old(g), g)
      ensures forall b :: b in old(disk) ==> b in disk && (disk[b] != old(disk)[b] ==> WasPosted(old(g), b))
    {
      hide Partition, Rings;
      while seen != usedIdx
        invariant Valid() && Settling(old(g), g) && AllGood(old(g), g)
        invariant forall b :: b in old(disk) ==> b in disk && (disk[b] != old(disk)[b] ==> WasPosted(old(g), b))
        decreases g.posted - g.seen
      {
        CompleteInv(Q(), g);
        ghost var g0 := g;
        ghost var q' := Complete(Q(), g.chains[used[seen % NUM]].b);
        var id := used[seen % NUM];
        if !info[id].ok {
          assert old(g).chains[id] == g.chains[id];
          return false;
        }
        var b := info[id].b;
        disk := disk[b := false];
        seen := (seen + 1) % TWO16;
        g := Moved(g, id, Done).(seen := g.seen + 1);
        assert Q() == q';
      }
      SeenAll(Q(), g);
      ok := true;
    }
  }
}
