/**
 The code of kernel/log.c over the buffer cache: each method is proved to send the disk
 exactly the writes that RedoLog reasons about. Buffers are volatile; the device is not.
 */
module LogDriver {
  import opened Bytes
  import opened RedoLog

  datatype Outcome = Ok | Panic(msg: string)

  /** The virtio disk as the log sees it: one atomic write per block. */
  class Device {
    var blocks: Disk
    ghost var writes: seq<Write> // every write so far, in order

    constructor (image: Disk)
      ensures blocks == image && writes == []
    {
      blocks := image;
      writes := [];
    }

    method Put(b: nat, data: Block)
      requires b < |blocks|
      modifies this
      ensures blocks == old(blocks)[b := data]
      ensures writes == old(writes) + [Write(b, data)]
    {
      blocks := blocks[b := data];
      writes := writes + [Write(b, data)];
    }
  }

  predicate Distinct(lh: seq<uint32>) {
    forall i, j :: 0 <= i < j < |lh| ==> lh[i] != lh[j]
  }

  /** log_write's effect on the in-memory header: log absorption keeps one entry per block. */
  function Absorb(lh: seq<uint32>, b: uint32): (r: seq<uint32>)
    ensures b in r && (Distinct(lh) ==> Distinct(r))
    ensures forall x :: x in r <==> x in lh || x == b
  {
    if b in lh then lh else lh + [b]
  }

  type Cache = map<nat, Block>

  /** What bread(b) returns: the valid buffer if there is one, else the disk block. */
  function View(cache: Cache, d: Disk, b: nat): (data: Block)
    requires b < |d|
  {
    if b in cache then cache[b] else d[b]
  }

  /** The modified blocks that a commit will copy into the log. */
  function LoggedData(cache: Cache, d: Disk, start: nat, lh: seq<uint32>): (data: seq<Block>)
    requires ValidTargets(d, start, lh)
    ensures |data| == |lh| && forall i :: 0 <= i < |lh| ==> data[i] == View(cache, d, lh[i])
  {
    seq<Block>(|lh|, i requires 0 <= i < |lh| => View(cache, d, lh[i]))
  }

  /** The log blocks as the cache shows them. */
  function LogArea(cache: Cache, d: Disk, start: nat, n: nat): (data: seq<Block>)
    requires Fits(d, start) && n <= LOGBLOCKS
    ensures |data| == n && forall i :: 0 <= i < n ==> data[i] == View(cache, d, start + 1 + i)
  {
    seq<Block>(n, i requires 0 <= i < n => View(cache, d, start + 1 + i))
  }

  /** Every valid buffer that is neither logged nor in `dirty` holds what the disk holds. */
  predicate Clean(cache: Cache, d: Disk, lh: seq<uint32>, dirty: set<nat>) {
    forall b :: b in cache ==> b < |d| && (b !in dirty && b !in lh ==> cache[b] == d[b])
  }

  /** The log and the cache between two steps of file-system operations. */
  predicate Coherent(cache: Cache, d: Disk, start: nat, lh: seq<uint32>, pins: multiset<uint32>, dirty: set<nat>) {
    && Fits(d, start)
    && ValidTargets(d, start, lh)
    && pins == multiset(lh)
    && (forall i :: 0 <= i < |lh| ==> lh[i] in cache)
    && (forall b :: b in dirty ==> !InLog(start, b))
    && Clean(cache, d, lh, dirty)
  }

  /** The cache after block `from` was copied over block `to` and written out. */
  function Copied(cache: Cache, d: Disk, from: nat, to: nat): (r: Cache)
    requires from < |d| && to < |d|
  {
    cache[from := View(cache, d, from)][to := View(cache, d, from)]
  }

  /** write_log has copied the first `tail` modified blocks. */
  predicate LogCopied(c0: Cache, d0: Disk, start: nat, lh: seq<uint32>, pins: multiset<uint32>, tail: nat,
                      cache: Cache, d: Disk, dirty: set<nat>)
    requires Coherent(c0, d0, start, lh, pins, dirty) && tail <= |lh|
  {
    var data := LoggedData(c0, d0, start, lh);
    && WritesFit(d0, LogWrites(start, data))
    && d == Apply(d0, LogWrites(start, data)[..tail])
    && Coherent(cache, d, start, lh, pins, dirty)
    && LoggedData(cache, d, start, lh) == data
    && LogArea(cache, d, start, tail) == data[..tail]
    && d[start] == d0[start]
  }

  lemma LogCopiedNext(c0: Cache, d0: Disk, start: nat, lh: seq<uint32>, pins: multiset<uint32>, tail: nat,
                      cache: Cache, d: Disk, dirty: set<nat>)
    requires Coherent(c0, d0, start, lh, pins, dirty) && tail < |lh|
    requires LogCopied(c0, d0, start, lh, pins, tail, cache, d, dirty)
    ensures var from := View(cache, d, lh[tail]);
      && LogWrites(start, LoggedData(c0, d0, start, lh))[tail] == Write(start + tail + 1, from)
      && LogCopied(c0, d0, start, lh, pins, tail + 1,
                   Copied(cache, d, lh[tail], start + tail + 1), d[start + tail + 1 := from], dirty)
  {
    var data := LoggedData(c0, d0, start, lh);
    ApplyNext(d0, LogWrites(start, data), tail);
    LogBlockWritten(cache, d, start, lh, pins, dirty, tail);
    assert data[..tail + 1] == data[..tail] + [data[tail]];
  }

  /** Copying modified block i over log block i: coherence and the modified blocks stay. */
  lemma LogBlockWritten(cache: Cache, d: Disk, start: nat, lh: seq<uint32>, pins: multiset<uint32>, dirty: set<nat>,
                        i: nat)
    requires Coherent(cache, d, start, lh, pins, dirty) && i < |lh|
    ensures var from := View(cache, d, lh[i]);
      var cache', d' := Copied(cache, d, lh[i], start + i + 1), d[start + i + 1 := from];
      && Coherent(cache', d', start, lh, pins, dirty)
      && LoggedData(cache', d', start, lh) == LoggedData(cache, d, start, lh)
      && LogArea(cache', d', start, i + 1) == LogArea(cache, d, start, i) + [from]
  {
  }

  /** install_trans has copied the first `tail` log blocks home. */
  predicate HomeCopied(c0: Cache, d0: Disk, start: nat, lh: seq<uint32>, tail: nat, cache: Cache, d: Disk,
                       dirty: set<nat>)
    requires Fits(d0, start) && ValidTargets(d0, start, lh) && tail <= |lh|
  {
    var data := LogArea(c0, d0, start, |lh|);
    && d == Apply(d0, InstallWrites(lh, data)[..tail])
    && LogArea(cache, d, start, |lh|) == data
    && Clean(cache, d, lh[tail..], dirty)
    && d[start] == d0[start]
  }

  lemma HomeCopiedNext(c0: Cache, d0: Disk, start: nat, lh: seq<uint32>, tail: nat, cache: Cache, d: Disk,
                       dirty: set<nat>)
    requires Fits(d0, start) && ValidTargets(d0, start, lh) && tail < |lh|
    requires HomeCopied(c0, d0, start, lh, tail, cache, d, dirty)
    ensures var from := View(cache, d, start + tail + 1);
      && InstallWrites(lh, LogArea(c0, d0, start, |lh|))[tail] == Write(lh[tail], from)
      && HomeCopied(c0, d0, start, lh, tail + 1, Copied(cache, d, start + tail + 1, lh[tail]), d[lh[tail] := from],
                    dirty)
  {
    var data := LogArea(c0, d0, start, |lh|);
    ApplyNext(d0, InstallWrites(lh, data), tail);
    assert View(cache, d, start + 1 + tail) == data[tail];
    HomeBlockWritten(cache, d, start, |lh|, lh[tail..], dirty, start + tail + 1);
    assert lh[tail..][1..] == lh[tail + 1..];
  }

  /** Copying a log block home makes the home buffer clean; the log area is untouched. */
  lemma HomeBlockWritten(cache: Cache, d: Disk, start: nat, n: nat, lh: seq<uint32>, dirty: set<nat>, from: nat)
    requires Fits(d, start) && ValidTargets(d, start, lh) && Clean(cache, d, lh, dirty) && lh != []
    requires n <= LOGBLOCKS && InLog(start, from)
    ensures var cache', d' := Copied(cache, d, from, lh[0]), d[lh[0] := View(cache, d, from)];
      && Clean(cache', d', lh[1..], dirty)
      && LogArea(cache', d', start, n) == LogArea(cache, d, start, n)
      && d'[start] == d[start]
  {
    var cache', d' := Copied(cache, d, from, lh[0]), d[lh[0] := View(cache, d, from)];
    forall b | b in cache' ensures b < |d'| && (b !in dirty && b !in lh[1..] ==> cache'[b] == d'[b]) {
      assert b in lh ==> b == lh[0] || b in lh[1..];
    }
  }

  lemma ApplyNext(d: Disk, ws: seq<Write>, k: nat)
    requires WritesFit(d, ws) && k < |ws|
    ensures Apply(d, ws[..k + 1]) == Apply(d, ws[..k])[ws[k].bno := ws[k].data]
  {
    assert ws[..k + 1] == ws[..k] + [ws[k]];
    ApplyAppend(d, ws[..k], [ws[k]]);
    ApplyOne(Apply(d, ws[..k]), ws[k]);
  }

  lemma UnpinFirst(lh: seq<uint32>, k: nat)
    requires k < |lh|
    ensures multiset(lh[k..]) - multiset{lh[k]} == multiset(lh[k + 1..])
  {
    assert lh[k..] == [lh[k]] + lh[k + 1..];
  }

  lemma AppendNext(before: seq<Write>, ws: seq<Write>, k: nat)
    requires k < |ws|
    ensures before + ws[..k] + [ws[k]] == before + ws[..k + 1]
  {
    assert ws[..k + 1] == ws[..k] + [ws[k]];
  }

  function RecordWrites(cache: Cache, d: Disk, start: nat, lh: seq<uint32>): (ws: seq<Write>)
    requires Fits(d, start) && ValidTargets(d, start, lh)
  {
    LogWrites(start, LoggedData(cache, d, start, lh)) + [Write(start, HeadBlock(d[start], lh))]
  }

  /** The log blocks and the header are on disk, and the cache still matches. */
  predicate Recorded(c0: Cache, d0: Disk, start: nat, lh: seq<uint32>, pins: multiset<uint32>, cache: Cache, d: Disk,
                     dirty: set<nat>)
    requires Coherent(c0, d0, start, lh, pins, dirty)
  {
    && WritesFit(d0, RecordWrites(c0, d0, start, lh))
    && d == Apply(d0, RecordWrites(c0, d0, start, lh))
    && Coherent(cache, d, start, lh, pins, dirty)
    && LogArea(cache, d, start, |lh|) == LoggedData(c0, d0, start, lh)
    && d[start] == HeadBlock(d0[start], lh)
  }

  lemma RecordHeader(c0: Cache, d0: Disk, start: nat, lh: seq<uint32>, pins: multiset<uint32>, cache: Cache, d: Disk,
                     dirty: set<nat>)
    requires Coherent(c0, d0, start, lh, pins, dirty) && LogCopied(c0, d0, start, lh, pins, |lh|, cache, d, dirty)
    ensures View(cache, d, start) == d0[start]
    ensures var h := HeadBlock(d0[start], lh);
      Recorded(c0, d0, start, lh, pins, cache[start := h], d[start := h], dirty)
  {
    var h := HeadBlock(d0[start], lh);
    var log := LogWrites(start, LoggedData(c0, d0, start, lh));
    assert log[..|lh|] == log;
    ApplyAppend(d0, log, [Write(start, h)]);
    ApplyOne(Apply(d0, log), Write(start, h));
    assert LogArea(cache[start := h], d[start := h], start, |lh|) == LogArea(cache, d, start, |lh|);
  }

  lemma InstalledAndCleared(c0: Cache, d0: Disk, start: nat, lh: seq<uint32>, cache: Cache, d: Disk, dirty: set<nat>)
    requires Fits(d0, start) && ValidTargets(d0, start, lh) && HomeCopied(c0, d0, start, lh, |lh|, cache, d, dirty)
    requires forall b :: b in dirty ==> !InLog(start, b)
    ensures View(cache, d, start) == d0[start]
    ensures var h := HeadBlock(d0[start], []);
      var ws := InstallWrites(lh, LogArea(c0, d0, start, |lh|)) + [Write(start, h)];
      && WritesFit(d0, ws)
      && Apply(d0, ws) == d[start := h]
      && Clean(cache[start := h], d[start := h], [], dirty)
  {
    var h := HeadBlock(d0[start], []);
    var ins := InstallWrites(lh, LogArea(c0, d0, start, |lh|));
    assert ins[..|lh|] == ins && lh[|lh|..] == [];
    ApplyAppend(d0, ins, [Write(start, h)]);
    ApplyOne(Apply(d0, ins), Write(start, h));
  }

  /** The two halves of a commit, joined. */
  lemma JoinCommit(before: seq<Write>, d: Disk, start: nat, lh: seq<uint32>, data: seq<Block>)
    requires Fits(d, start) && ValidTargets(d, start, lh) && |lh| == |data| > 0
    requires WritesFit(d, LogWrites(start, data))
    ensures var h := HeadBlock(d[start], lh);
      var record := LogWrites(start, data) + [Write(start, h)];
      var erase := InstallWrites(lh, data) + [Write(start, HeadBlock(h, []))];
      var ws := CommitWrites(d, start, lh, data);
      && ws[..|ws|] == ws
      && WritesFit(d, ws)
      && before + record + erase == before + ws
      && Apply(Apply(d, record), erase) == Apply(d, ws)
  {
    var h := HeadBlock(d[start], lh);
    ApplyAppend(d, LogWrites(start, data) + [Write(start, h)],
                InstallWrites(lh, data) + [Write(start, HeadBlock(h, []))]);
  }

  lemma AbsorbCoherent(cache: Cache, d: Disk, start: nat, lh: seq<uint32>, pins: multiset<uint32>, dirty: set<nat>,
                       b: uint32)
    requires Coherent(cache, d, start, lh, pins, dirty) && b in cache && b < |d| && !InLog(start, b)
    requires |lh| < LOGBLOCKS
    ensures Coherent(cache, d, start, Absorb(lh, b), if b in lh then pins else pins + multiset{b}, dirty - {b})
  {
  }

  class Log {
    const dev: Device
    const start: nat
    var cache: map<nat, Block>  // contents of the valid buffers
    var pins: multiset<uint32>  // buffers kept by bpin
    var lh: seq<uint32>         // lh.n is |lh|
    var outstanding: int
    var committing: bool

    ghost predicate Valid(dirty: set<nat>)
      reads this, dev
    {
      Coherent(cache, dev.blocks, start, lh, pins, dirty)
    }

    ghost function Data(): (data: seq<Block>)
      reads this, dev
      requires ValidTargets(dev.blocks, start, lh)
    {
      LoggedData(cache, dev.blocks, start, lh)
    }

    constructor (dev: Device, start: nat)
      ensures this.dev == dev && this.start == start
      ensures cache == map[] && pins == multiset{} && lh == [] && outstanding == 0 && !committing
    {
      this.dev, this.start := dev, start;
      cache, pins, lh, outstanding, committing := map[], multiset{}, [], 0, false;
    }

    method Bread(b: nat) returns (data: Block)
      requires b < |dev.blocks|
      modifies this`cache
      ensures data == View(old(cache), dev.blocks, b) && cache == old(cache)[b := data]
    {
      if b !in cache {
        cache := cache[b := dev.blocks[b]];
      }
      data := cache[b];
    }

    method Bwrite(b: nat, data: Block)
      requires b < |dev.blocks|
      modifies this`cache, dev
      ensures cache == old(cache)[b := data]
      ensures dev.blocks == old(dev.blocks)[b := data]
      ensures dev.writes == old(dev.writes) + [Write(b, data)]
    {
      cache := cache[b := data];
      dev.Put(b, data);
    }

    method ReadHead()
      requires Fits(dev.blocks, start) && HeadCount(View(cache, dev.blocks, start)) <= LOGBLOCKS
      modifies this`cache, this`lh
      ensures var h := View(old(cache), dev.blocks, start);
        lh == HeadTargets(h) && cache == old(cache)[start := h]
    {
      var h := Bread(start);
      var targets: seq<uint32> := [];
      var i := 0;
      while i < Signed(Word(h, 0))
        invariant 0 <= i && (i <= HeadCount(h) || (i == 0 && HeadCount(h) < 0))
        invariant |targets| == i && forall j :: 0 <= j < i ==> targets[j] == Word(h, 1 + j)
      {
        targets := targets + [Word(h, 1 + i)];
        i := i + 1;
      }
      lh := targets;
    }

    method WriteHead()
      requires Fits(dev.blocks, start) && |lh| <= LOGBLOCKS
      modifies this`cache, dev
      ensures var h := HeadBlock(View(old(cache), old(dev.blocks), start), lh);
        && cache == old(cache)[start := h]
        && dev.blocks == old(dev.blocks)[start := h]
        && dev.writes == old(dev.writes) + [Write(start, h)]
    {
      var h := Bread(start);
      var hb := SetWord(h, 0, |lh|);
      var i := 0;
      while i < |lh|
        invariant 0 <= i <= |lh|
        invariant hb == PutTargets(SetWord(h, 0, |lh|), lh, i)
      {
        hb := SetWord(hb, 1 + i, lh[i]);
        i := i + 1;
      }
      Bwrite(start, hb);
    }

    /** bread both blocks, copy the first over the second, bwrite it. */
    method CopyBlock(from: nat, to: nat)
      requires from < |dev.blocks| && to < |dev.blocks|
      modifies this`cache, dev
      ensures cache == Copied(old(cache), old(dev.blocks), from, to)
      ensures dev.blocks == old(dev.blocks)[to := View(old(cache), old(dev.blocks), from)]
      ensures dev.writes == old(dev.writes) + [Write(to, View(old(cache), old(dev.blocks), from))]
    {
      var _ := Bread(to);
      var data := Bread(from);
      Bwrite(to, data);
    }

    /** One round of write_log's loop. */
    method WriteLogBlock(tail: nat, ghost c0: Cache, ghost d0: Disk, ghost dirty: set<nat>)
      requires Coherent(c0, d0, start, lh, pins, dirty) && tail < |lh|
      requires LogCopied(c0, d0, start, lh, pins, tail, cache, dev.blocks, dirty)
      modifies this`cache, dev
      ensures LogCopied(c0, d0, start, lh, pins, tail + 1, cache, dev.blocks, dirty)
      ensures dev.writes == old(dev.writes) + [LogWrites(start, LoggedData(c0, d0, start, lh))[tail]]
    {
      LogCopiedNext(c0, d0, start, lh, pins, tail, cache, dev.blocks, dirty);
      CopyBlock(lh[tail], start + tail + 1);
    }

    /** One round of install_trans's loop. */
    method InstallBlock(recovering: bool, tail: nat, ghost c0: Cache, ghost d0: Disk, ghost dirty: set<nat>)
      requires Fits(d0, start) && ValidTargets(d0, start, lh) && tail < |lh|
      requires HomeCopied(c0, d0, start, lh, tail, cache, dev.blocks, dirty)
      modifies this`cache, this`pins, dev
      ensures HomeCopied(c0, d0, start, lh, tail + 1, cache, dev.blocks, dirty)
      ensures pins == if recovering then old(pins) else old(pins) - multiset{lh[tail]}
      ensures dev.writes == old(dev.writes) + [InstallWrites(lh, LogArea(c0, d0, start, |lh|))[tail]]
    {
      HomeCopiedNext(c0, d0, start, lh, tail, cache, dev.blocks, dirty);
      CopyBlock(start + tail + 1, lh[tail]);
      if !recovering {
        pins := pins - multiset{lh[tail]};
      }
    }

    /** Copies the modified blocks from the cache to the log. */
    method WriteLog(ghost dirty: set<nat>)
      requires Valid(dirty)
      modifies this`cache, dev
      ensures LogCopied(old(cache), old(dev.blocks), start, lh, pins, |lh|, cache, dev.blocks, dirty)
      ensures dev.writes == old(dev.writes) + LogWrites(start, old(Data()))
    {
      ghost var c0, d0, ws := cache, dev.blocks, LogWrites(start, Data());
      var tail := 0;
      while tail < |lh|
        invariant 0 <= tail <= |lh|
        invariant LogCopied(c0, d0, start, lh, pins, tail, cache, dev.blocks, dirty)
        invariant dev.writes == old(dev.writes) + ws[..tail]
      {
        AppendNext(old(dev.writes), ws, tail);
        WriteLogBlock(tail, c0, d0, dirty);
        tail := tail + 1;
      }
      assert ws[..tail] == ws;
    }

    /** Copies log block i to home lh[i], in order; unpins unless recovering. */
    method InstallTrans(recovering: bool, ghost dirty: set<nat>)
      requires Fits(dev.blocks, start) && ValidTargets(dev.blocks, start, lh)
      requires Clean(cache, dev.blocks, lh, dirty)
      requires !recovering ==> pins == multiset(lh)
      modifies this`cache, this`pins, dev
      ensures HomeCopied(old(cache), old(dev.blocks), start, lh, |lh|, cache, dev.blocks, dirty)
      ensures dev.writes == old(dev.writes) + InstallWrites(lh, LogArea(old(cache), old(dev.blocks), start, |lh|))
      ensures pins == if recovering then old(pins) else multiset{}
    {
      ghost var c0, d0, ws := cache, dev.blocks, InstallWrites(lh, LogArea(cache, dev.blocks, start, |lh|));
      var tail := 0;
      assert lh[0..] == lh;
      while tail < |lh|
        invariant 0 <= tail <= |lh|
        invariant HomeCopied(c0, d0, start, lh, tail, cache, dev.blocks, dirty)
        invariant dev.writes == old(dev.writes) + ws[..tail]
        invariant pins == if recovering then old(pins) else multiset(lh[tail..])
      {
        AppendNext(old(dev.writes), ws, tail);
        UnpinFirst(lh, tail);
        InstallBlock(recovering, tail, c0, d0, dirty);
        tail := tail + 1;
      }
      assert ws[..tail] == ws && lh[tail..] == [];
    }

    /** Boot: the log of the crashed disk is replayed and cleared. */
    method RecoverFromLog()
      requires ValidLog(dev.blocks, start) && cache == map[]
      modifies this`cache, this`pins, this`lh, dev
      ensures dev.writes == old(dev.writes) + RecoveryWrites(old(dev.blocks), start)
      ensures dev.blocks == Recover(old(dev.blocks), start)
      ensures lh == [] && Clean(cache, dev.blocks, [], {}) && pins == old(pins)
    {
      ghost var d := dev.blocks;
      ReadHead();
      ghost var c1, targets := cache, lh;
      assert LogArea(cache, d, start, |lh|) == Logged(d, start, |lh|);
      InstallTrans(true, {});
      InstalledAndCleared(c1, d, start, lh, cache, dev.blocks, {});
      lh := [];
      WriteHead();
      assert dev.writes == old(dev.writes) + RecoveryWrites(d, start);
    }

    /** write_log then write_head: the transaction is on disk once the header is. */
    method CommitRecord(ghost dirty: set<nat>)
      requires Valid(dirty)
      modifies this`cache, dev
      ensures Recorded(old(cache), old(dev.blocks), start, lh, pins, cache, dev.blocks, dirty)
      ensures dev.writes == old(dev.writes) + RecordWrites(old(cache), old(dev.blocks), start, lh)
    {
      ghost var c0, d0, ws := cache, dev.blocks, LogWrites(start, Data());
      WriteLog(dirty);
      RecordHeader(c0, d0, start, lh, pins, cache, dev.blocks, dirty);
      WriteHead();
    }

    /** install_trans, then write_head with an empty header: the transaction is erased. */
    method InstallAndErase(ghost dirty: set<nat>)
      requires Valid(dirty)
      modifies this`cache, this`pins, this`lh, dev
      ensures var ws := InstallWrites(old(lh), LogArea(old(cache), old(dev.blocks), start, |old(lh)|))
          + [Write(start, HeadBlock(old(dev.blocks)[start], []))];
        && WritesFit(old(dev.blocks), ws)
        && dev.writes == old(dev.writes) + ws
        && dev.blocks == Apply(old(dev.blocks), ws)
      ensures lh == [] && Valid(dirty)
    {
      ghost var c0, d0 := cache, dev.blocks;
      InstallTrans(false, dirty);
      InstalledAndCleared(c0, d0, start, lh, cache, dev.blocks, dirty);
      lh := [];
      WriteHead();
    }

    /**
     The writes of a commit are exactly CommitWrites, whatever buffers were modified and never
     logged; afterwards the log is empty.
     */
    method Commit(ghost dirty: set<nat>)
      requires Valid(dirty) && HeadCount(dev.blocks[start]) == 0
      modifies this`cache, this`pins, this`lh, dev
      ensures var ws := CommitWrites(old(dev.blocks), start, old(lh), old(Data()));
        && WritesFit(old(dev.blocks), ws)
        && dev.writes == old(dev.writes) + ws
        && dev.blocks == Apply(old(dev.blocks), ws)
      ensures lh == [] && Valid(dirty) && HeadCount(dev.blocks[start]) == 0
      ensures HomeEq(start, dev.blocks, Installed(old(dev.blocks), start, old(lh), old(Data())))
    {
      ghost var d, data, targets := dev.blocks, Data(), lh;
      CommitAtomic(d, start, targets, data, |CommitWrites(d, start, lh, data)|);
      if |lh| > 0 {
        CommitRecord(dirty);
        InstallAndErase(dirty);
        JoinCommit(old(dev.writes), d, start, targets, data);
      }
    }

    /** One critical section of begin_op: admitted, or the caller must sleep on the log. */
    method TryBegin() returns (admitted: bool)
      modifies this`outstanding
      ensures admitted <==> !committing && |lh| + (old(outstanding) + 1) * MAXOPBLOCKS <= LOGBLOCKS
      ensures outstanding == old(outstanding) + if admitted then 1 else 0
    {
      if committing {
        admitted := false;
      } else if |lh| + (outstanding + 1) * MAXOPBLOCKS > LOGBLOCKS {
        admitted := false;
      } else {
        outstanding := outstanding + 1;
        admitted := true;
      }
    }

    /** First critical section of end_op: who commits, and whether sleepers are woken. */
    method LeaveOp() returns (r: Outcome, doCommit: bool, wake: bool)
      modifies this`outstanding, this`committing
      ensures outstanding == old(outstanding) - 1
      ensures r.Panic? <==> old(committing)
      ensures r.Ok? ==> (doCommit <==> outstanding == 0) && (wake <==> !doCommit) && committing == doCommit
      ensures r.Panic? ==> committing && !doCommit && !wake
    {
      r, doCommit, wake := Ok, false, false;
      outstanding := outstanding - 1;
      if committing {
        r := Panic("log.committing");
      } else if outstanding == 0 {
        doCommit := true;
        committing := true;
      } else {
        wake := true;
      }
    }

    /** The rest of end_op for the committing process: commit, then readmit sleepers. */
    method FinishOp(ghost dirty: set<nat>)
      requires Valid(dirty) && HeadCount(dev.blocks[start]) == 0
      modifies this`cache, this`pins, this`lh, this`committing, dev
      ensures !committing && lh == [] && Valid(dirty) && HeadCount(dev.blocks[start]) == 0
      ensures HomeEq(start, dev.blocks, Installed(old(dev.blocks), start, old(lh), old(Data())))
    {
      Commit(dirty);
      committing := false;
    }

    /** log_write(b): refuses a full log even when b would be absorbed. */
    method LogWrite(b: uint32, ghost dirty: set<nat>) returns (r: Outcome)
      requires Valid(dirty) && b in cache && b < |dev.blocks| && !InLog(start, b)
      modifies this`lh, this`pins
      ensures r.Ok? <==> |old(lh)| < LOGBLOCKS && outstanding >= 1
      ensures r.Ok? ==> lh == Absorb(old(lh), b) && Valid(dirty - {b})
      ensures r.Panic? ==> lh == old(lh) && pins == old(pins)
    {
      hide Coherent;
      if |lh| >= LOGBLOCKS {
        return Panic("too big a transaction");
      }
      if outstanding < 1 {
        return Panic("log_write outside of trans");
      }
      var i := 0;
      while i < |lh|
        invariant 0 <= i <= |lh|
        invariant forall j :: 0 <= j < i ==> lh[j] != b
      {
        if lh[i] == b {
          break;
        }
        i := i + 1;
      }
      AbsorbCoherent(cache, dev.blocks, start, lh, pins, dirty, b);
      if i == |lh| {
        pins := pins + multiset{b};
        lh := lh + [b];
      } else {
        lh := lh[i := b];
        assert lh == old(lh);
      }
      r := Ok;
    }
  }
}
