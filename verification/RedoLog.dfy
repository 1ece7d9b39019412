/**
 The write-ahead redo log of kernel/log.c, seen as the exact list of block writes
 that commit() and recover_from_log() send to the disk. A crash keeps an arbitrary
 prefix of such a list: single-block writes are atomic.
 */
module RedoLog {
  import opened Bytes

  const MAXOPBLOCKS: nat := 10
  const LOGBLOCKS: nat := MAXOPBLOCKS * 3

  type Disk = seq<Block>

  datatype Write = Write(bno: nat, data: Block)

  /** The on-disk log: the header block at `start`, then LOGBLOCKS data blocks. */
  predicate InLog(start: nat, b: int) {
    start <= b <= start + LOGBLOCKS
  }

  predicate Fits(d: Disk, start: nat) {
    start + LOGBLOCKS < |d|
  }

  predicate WritesFit(d: Disk, ws: seq<Write>) {
    forall i :: 0 <= i < |ws| ==> ws[i].bno < |d|
  }

  /** The disk after performing the writes in order. */
  function Apply(d: Disk, ws: seq<Write>): (r: Disk)
    requires WritesFit(d, ws)
    ensures |r| == |d|
    decreases |ws|
  {
    if ws == [] then d else Apply(d[ws[0].bno := ws[0].data], ws[1..])
  }

  predicate Targeted(ws: seq<Write>, b: nat) {
    exists i :: 0 <= i < |ws| && ws[i].bno == b
  }

  /** Two disks agree on every block outside the log area. */
  predicate HomeEq(start: nat, d: Disk, e: Disk) {
    |d| == |e| && forall b :: 0 <= b < |d| && !InLog(start, b) ==> d[b] == e[b]
  }

  // ----- the log header block (struct logheader) -----

  function HeadCount(h: Block): (n: int) {
    Signed(Word(h, 0))
  }

  function HeadTargets(h: Block): (ts: seq<uint32>)
    requires HeadCount(h) <= LOGBLOCKS
  {
    if HeadCount(h) <= 0 then [] else seq(HeadCount(h), i requires 0 <= i < LOGBLOCKS => Word(h, 1 + i))
  }

  /** The first k entries of `lh` stored into words 1..k; the loop of write_head. */
  function PutTargets(h: Block, lh: seq<uint32>, k: nat): (r: Block)
    requires k <= |lh| <= LOGBLOCKS
  {
    if k == 0 then h else SetWord(PutTargets(h, lh, k - 1), k, lh[k - 1])
  }

  /** What write_head stores: the count, the entries, and the old bytes everywhere else. */
  function HeadBlock(h: Block, lh: seq<uint32>): (r: Block)
    requires |lh| <= LOGBLOCKS
  {
    PutTargets(SetWord(h, 0, |lh|), lh, |lh|)
  }

  lemma {:induction false} PutTargetsWord(h: Block, lh: seq<uint32>, k: nat, j: nat)
    requires k <= |lh| <= LOGBLOCKS && j < WORDS
    ensures Word(PutTargets(h, lh, k), j) == if 1 <= j <= k then lh[j - 1] else Word(h, j)
  {
    if k > 0 {
      PutTargetsWord(h, lh, k - 1, j);
      WordOfSetWord(PutTargets(h, lh, k - 1), k, lh[k - 1], j);
    }
  }

  /** read_head reads back exactly what write_head stored. */
  lemma HeadRoundTrip(h: Block, lh: seq<uint32>)
    requires |lh| <= LOGBLOCKS
    ensures HeadCount(HeadBlock(h, lh)) == |lh|
    ensures HeadTargets(HeadBlock(h, lh)) == lh
  {
    var h0 := SetWord(h, 0, |lh|);
    PutTargetsWord(h0, lh, |lh|, 0);
    WordOfSetWord(h, 0, |lh|, 0);
    forall i | 0 <= i < |lh| ensures Word(HeadBlock(h, lh), 1 + i) == lh[i] {
      PutTargetsWord(h0, lh, |lh|, 1 + i);
    }
  }

  // ----- the writes of commit and recovery -----

  /** write_log: copy the modified blocks into the log. */
  function LogWrites(start: nat, data: seq<Block>): (ws: seq<Write>) {
    seq(|data|, i requires 0 <= i < |data| => Write(start + 1 + i, data[i]))
  }

  /** install_trans: copy logged blocks to their home locations. */
  function InstallWrites(lh: seq<uint32>, data: seq<Block>): (ws: seq<Write>)
    requires |lh| == |data|
  {
    seq(|lh|, i requires 0 <= i < |lh| => Write(lh[i], data[i]))
  }

  /** commit(), as the list of its block writes, started on disk d. */
  function CommitWrites(d: Disk, start: nat, lh: seq<uint32>, data: seq<Block>): (ws: seq<Write>)
    requires Fits(d, start) && |lh| == |data| <= LOGBLOCKS
  {
    if lh == [] then [] else
      LogWrites(start, data) + [Write(start, HeadBlock(d[start], lh))] +
      (InstallWrites(lh, data) + [Write(start, HeadBlock(HeadBlock(d[start], lh), []))])
  }

  /** The header names at most LOGBLOCKS blocks, all of them outside the log. */
  predicate ValidTargets(d: Disk, start: nat, lh: seq<uint32>) {
    |lh| <= LOGBLOCKS && forall i :: 0 <= i < |lh| ==> lh[i] < |d| && !InLog(start, lh[i])
  }

  predicate ValidLog(d: Disk, start: nat) {
    Fits(d, start) && HeadCount(d[start]) <= LOGBLOCKS && ValidTargets(d, start, HeadTargets(d[start]))
  }

  function Logged(d: Disk, start: nat, n: nat): (data: seq<Block>)
    requires Fits(d, start) && n <= LOGBLOCKS
  {
    d[start + 1..start + 1 + n]
  }

  /** recover_from_log(), as the list of its block writes, started on disk d. */
  function RecoveryWrites(d: Disk, start: nat): (ws: seq<Write>)
    requires ValidLog(d, start)
    ensures WritesFit(d, ws)
  {
    var lh := HeadTargets(d[start]);
    InstallWrites(lh, Logged(d, start, |lh|)) + [Write(start, HeadBlock(d[start], []))]
  }

  function Recover(d: Disk, start: nat): (r: Disk)
    requires ValidLog(d, start)
  {
    Apply(d, RecoveryWrites(d, start))
  }

  // ----- list-of-writes algebra -----

  lemma {:induction false} ApplyAppend(d: Disk, a: seq<Write>, b: seq<Write>)
    requires WritesFit(d, a) && WritesFit(d, b)
    ensures WritesFit(d, a + b) && Apply(d, a + b) == Apply(Apply(d, a), b)
    decreases |a|
  {
    if a == [] {
      assert a + b == b;
    } else {
      assert (a + b)[1..] == a[1..] + b;
      ApplyAppend(d[a[0].bno := a[0].data], a[1..], b);
    }
  }

  lemma ApplyOne(d: Disk, w: Write)
    requires w.bno < |d|
    ensures Apply(d, [w]) == d[w.bno := w.data]
  {
    assert [w][1..] == [];
  }

  lemma {:induction false} ApplyFrame(d: Disk, ws: seq<Write>, b: nat)
    requires WritesFit(d, ws) && b < |d|
    requires forall i :: 0 <= i < |ws| ==> ws[i].bno != b
    ensures Apply(d, ws)[b] == d[b]
    decreases |ws|
  {
    if ws != [] {
      ApplyFrame(d[ws[0].bno := ws[0].data], ws[1..], b);
    }
  }

  /** A redo list erases every difference at the blocks it writes. */
  lemma {:induction false} ApplyAgree(c: Disk, d: Disk, ws: seq<Write>)
    requires |c| == |d| && WritesFit(d, ws)
    requires forall b :: 0 <= b < |d| ==> c[b] == d[b] || Targeted(ws, b)
    ensures Apply(c, ws) == Apply(d, ws)
    decreases |ws|
  {
    if ws == [] {
      assert c == d;
    } else {
      var w := ws[0];
      var c', d' := c[w.bno := w.data], d[w.bno := w.data];
      forall b | 0 <= b < |d'| ensures c'[b] == d'[b] || Targeted(ws[1..], b) {
        if c[b] != d[b] && b != w.bno {
          var i :| 0 <= i < |ws| && ws[i].bno == b;
          assert ws[1..][i - 1].bno == b;
        }
      }
      ApplyAgree(c', d', ws[1..]);
    }
  }

  /** Writing outside the log keeps two disks equal outside the log. */
  lemma {:induction false} ApplyHome(start: nat, c: Disk, d: Disk, ws: seq<Write>)
    requires HomeEq(start, c, d) && WritesFit(d, ws)
    ensures HomeEq(start, Apply(c, ws), Apply(d, ws))
    decreases |ws|
  {
    if ws != [] {
      var w := ws[0];
      ApplyHome(start, c[w.bno := w.data], d[w.bno := w.data], ws[1..]);
    }
  }

  /** write_log's copies read back. */
  lemma {:induction false} ApplyLogWrites(d: Disk, start: nat, data: seq<Block>, k: nat)
    requires k <= |data| <= LOGBLOCKS && Fits(d, start)
    ensures WritesFit(d, LogWrites(start, data))
    ensures var c := Apply(d, LogWrites(start, data)[..k]);
      HomeEq(start, c, d) && c[start] == d[start] && Logged(c, start, k) == data[..k]
  {
    var ws := LogWrites(start, data);
    if k == 0 {
      assert ws[..0] == [];
    } else {
      ApplyLogWrites(d, start, data, k - 1);
      assert ws[..k] == ws[..k - 1] + [ws[k - 1]];
      ApplyAppend(d, ws[..k - 1], [ws[k - 1]]);
      var c := Apply(d, ws[..k - 1]);
      ApplyOne(c, ws[k - 1]);
      assert data[..k] == data[..k - 1] + [data[k - 1]];
    }
  }

  // ----- crash safety -----

  /** A crash after any k writes of recovery, and then recovering again, ends on the same disk. */
  lemma RecoveryCrash(d: Disk, start: nat, k: nat)
    requires ValidLog(d, start) && k <= |RecoveryWrites(d, start)|
    ensures var c := Apply(d, RecoveryWrites(d, start)[..k]);
      ValidLog(c, start) && Recover(c, start) == Recover(d, start)
  {
    var ws := RecoveryWrites(d, start);
    var n := |HeadTargets(d[start])|;
    var c := Apply(d, ws[..k]);
    if k <= n {
      forall b | 0 <= b < |d| && !Targeted(ws[..k], b) ensures c[b] == d[b] {
        assert forall i :: 0 <= i < k ==> ws[..k][i].bno != b;
        ApplyFrame(d, ws[..k], b);
      }
      forall b | 0 <= b < |d| && InLog(start, b) ensures c[b] == d[b] {
        assert forall i :: 0 <= i < k ==> ws[i].bno != b;
      }
      assert Logged(c, start, n) == Logged(d, start, n);
      assert RecoveryWrites(c, start) == ws;
      forall b | 0 <= b < |d| ensures c[b] == d[b] || Targeted(ws, b) {
        if Targeted(ws[..k], b) {
          var i :| 0 <= i < k && ws[..k][i].bno == b;
          assert ws[i].bno == b;
        }
      }
      ApplyAgree(c, d, ws);
    } else {
      assert ws[..k] == ws;
      ClearedIsFixed(d, start);
    }
  }

  /** Recovery leaves an empty log, on which recovery changes nothing. */
  lemma ClearedIsFixed(d: Disk, start: nat)
    requires ValidLog(d, start)
    ensures var r := Recover(d, start);
      ValidLog(r, start) && HeadCount(r[start]) == 0 && Recover(r, start) == r
  {
    var ws := RecoveryWrites(d, start);
    var n := |ws| - 1;
    var r := Recover(d, start);
    assert ws == ws[..n] + [ws[n]];
    ApplyAppend(d, ws[..n], [ws[n]]);
    var m := Apply(d, ws[..n]);
    ApplyOne(m, ws[n]);
    HeadRoundTrip(d[start], []);
    assert HeadTargets(r[start]) == [];
    SetWordTwice(d[start], 0);
    assert HeadBlock(r[start], []) == r[start];
    assert RecoveryWrites(r, start) == [Write(start, r[start])];
    ApplyOne(r, Write(start, r[start]));
  }

  lemma SetWordTwice(h: Block, w: uint32)
    ensures SetWord(SetWord(h, 0, w), 0, w) == SetWord(h, 0, w)
  {
  }

  /** Any number of crashes: each disk is where a crash stopped the recovery of the previous one. */
  predicate CrashChain(ds: seq<Disk>, start: nat)
  {
    forall i :: 0 <= i < |ds| - 1 ==> ValidLog(ds[i], start) && CrashedRecovery(ds[i], ds[i + 1], start)
  }

  predicate CrashedRecovery(d: Disk, c: Disk, start: nat)
    requires ValidLog(d, start)
  {
    exists k | 0 <= k <= |RecoveryWrites(d, start)| :: c == Apply(d, RecoveryWrites(d, start)[..k])
  }

  lemma {:induction false} RepeatedCrashes(ds: seq<Disk>, start: nat)
    requires |ds| > 0 && ValidLog(ds[0], start) && CrashChain(ds, start)
    ensures ValidLog(ds[|ds| - 1], start)
    ensures Recover(ds[|ds| - 1], start) == Recover(ds[0], start)
  {
    if |ds| > 1 {
      var k :| 0 <= k <= |RecoveryWrites(ds[0], start)| && ds[1] == Apply(ds[0], RecoveryWrites(ds[0], start)[..k]);
      RecoveryCrash(ds[0], start, k);
      forall i | 0 <= i < |ds[1..]| - 1
        ensures ValidLog(ds[1..][i], start) && CrashedRecovery(ds[1..][i], ds[1..][i + 1], start)
      {
        assert ValidLog(ds[i + 1], start) && CrashedRecovery(ds[i + 1], ds[i + 1 + 1], start);
      }
      RepeatedCrashes(ds[1..], start);
    }
  }

  /** The disk commit started on, when every logged block has reached its home. */
  function Installed(d: Disk, start: nat, lh: seq<uint32>, data: seq<Block>): (r: Disk)
    requires ValidTargets(d, start, lh) && |lh| == |data|
  {
    Apply(d, InstallWrites(lh, data))
  }

  /** Just after the nonzero header write, the rest of commit is exactly a recovery. */
  lemma CommittedTail(d: Disk, start: nat, lh: seq<uint32>, data: seq<Block>)
    requires Fits(d, start) && ValidTargets(d, start, lh) && |lh| == |data|
    ensures WritesFit(d, LogWrites(start, data))
    ensures var c := Apply(d, LogWrites(start, data))[start := HeadBlock(d[start], lh)];
      && ValidLog(c, start)
      && HomeEq(start, c, d)
      && RecoveryWrites(c, start) ==
           InstallWrites(lh, data) + [Write(start, HeadBlock(HeadBlock(d[start], lh), []))]
      && HomeEq(start, Recover(c, start), Installed(d, start, lh, data))
  {
    assert LogWrites(start, data)[..|data|] == LogWrites(start, data);
    ApplyLogWrites(d, start, data, |data|);
    var e := Apply(d, LogWrites(start, data));
    var c := e[start := HeadBlock(d[start], lh)];
    HeadRoundTrip(d[start], lh);
    assert Logged(c, start, |lh|) == Logged(e, start, |lh|) == data;
    var ins := InstallWrites(lh, data);
    var tail := [Write(start, HeadBlock(HeadBlock(d[start], lh), []))];
    assert RecoveryWrites(c, start) == ins + tail;
    ApplyAppend(c, ins, tail);
    ApplyHome(start, c, d, ins);
    ApplyOne(Apply(c, ins), tail[0]);
  }

  /**
   Atomicity of commit: whatever prefix of its writes a crash lets through, recovery yields
   all-old home blocks up to the header write and all-new home blocks from it on.
   */
  lemma CommitAtomic(d: Disk, start: nat, lh: seq<uint32>, data: seq<Block>, k: nat)
    requires Fits(d, start) && HeadCount(d[start]) == 0
    requires ValidTargets(d, start, lh) && |lh| == |data|
    requires k <= |CommitWrites(d, start, lh, data)|
    ensures WritesFit(d, CommitWrites(d, start, lh, data))
    ensures var c := Apply(d, CommitWrites(d, start, lh, data)[..k]);
      && ValidLog(c, start)
      && HomeEq(start, Recover(c, start), if k <= |lh| then d else Installed(d, start, lh, data))
      && (k == |CommitWrites(d, start, lh, data)| ==>
           HeadCount(c[start]) == 0 && HomeEq(start, c, Installed(d, start, lh, data)))
  {
    CommitWritesFit(d, start, lh, data);
    var ws := CommitWrites(d, start, lh, data);
    if lh == [] {
      EmptyLogRecovers(d, start);
    } else if k <= |lh| {
      var log := LogWrites(start, data);
      assert ws[..k] == log[..k];
      ApplyLogWrites(d, start, data, k);
      EmptyLogRecovers(Apply(d, log[..k]), start);
    } else {
      var c, m := CommitPastHeader(d, start, lh, data, k);
      RecoveryCrash(c, start, m);
      ClearedIsFixed(c, start);
    }
  }

  lemma CommitWritesFit(d: Disk, start: nat, lh: seq<uint32>, data: seq<Block>)
    requires Fits(d, start) && ValidTargets(d, start, lh) && |lh| == |data|
    ensures WritesFit(d, CommitWrites(d, start, lh, data))
  {
  }

  /** Past the header write, commit's disk is a partly recovered committed disk c. */
  lemma CommitPastHeader(d: Disk, start: nat, lh: seq<uint32>, data: seq<Block>, k: nat)
    returns (c: Disk, m: nat)
    requires Fits(d, start) && ValidTargets(d, start, lh) && |lh| == |data|
    requires |lh| < k <= |CommitWrites(d, start, lh, data)|
    ensures WritesFit(d, CommitWrites(d, start, lh, data))
    ensures ValidLog(c, start) && HomeEq(start, Recover(c, start), Installed(d, start, lh, data))
    ensures m <= |RecoveryWrites(c, start)|
    ensures Apply(d, CommitWrites(d, start, lh, data)[..k]) == Apply(c, RecoveryWrites(c, start)[..m])
    ensures k == |CommitWrites(d, start, lh, data)| ==>
      Apply(d, CommitWrites(d, start, lh, data)[..k]) == Recover(c, start)
  {
    CommitWritesFit(d, start, lh, data);
    CommittedTail(d, start, lh, data);
    var log := LogWrites(start, data);
    var head := Write(start, HeadBlock(d[start], lh));
    c := Apply(d, log)[start := head.data];
    m := k - |lh| - 1;
    var rest := RecoveryWrites(c, start);
    assert CommitWrites(d, start, lh, data)[..k] == (log + [head]) + rest[..m];
    ApplyAppend(d, log, [head]);
    ApplyOne(Apply(d, log), head);
    ApplyAppend(d, log + [head], rest[..m]);
    if k == |CommitWrites(d, start, lh, data)| {
      assert rest[..m] == rest;
    }
  }

  lemma EmptyLogRecovers(d: Disk, start: nat)
    requires Fits(d, start) && HeadCount(d[start]) == 0
    ensures ValidLog(d, start) && HomeEq(start, Recover(d, start), d)
  {
    var w := Write(start, HeadBlock(d[start], []));
    assert RecoveryWrites(d, start) == [w];
    ApplyOne(d, w);
  }

  /** The headline: crash anywhere in commit, then crash any number of times while recovering. */
  lemma CommitThenCrashes(d: Disk, start: nat, lh: seq<uint32>, data: seq<Block>, k: nat, ds: seq<Disk>)
    requires Fits(d, start) && HeadCount(d[start]) == 0
    requires ValidTargets(d, start, lh) && |lh| == |data|
    requires k <= |CommitWrites(d, start, lh, data)| && WritesFit(d, CommitWrites(d, start, lh, data))
    requires |ds| > 0 && ds[0] == Apply(d, CommitWrites(d, start, lh, data)[..k]) && CrashChain(ds, start)
    ensures ValidLog(ds[|ds| - 1], start)
    ensures HomeEq(start, Recover(ds[|ds| - 1], start), if k <= |lh| then d else Installed(d, start, lh, data))
  {
    CommitAtomic(d, start, lh, data, k);
    RepeatedCrashes(ds, start);
  }

  /** With distinct targets (log absorption), every new block is its logged data and nothing else changed. */
  lemma {:induction false} InstalledBlocks(d: Disk, start: nat, lh: seq<uint32>, data: seq<Block>)
    requires ValidTargets(d, start, lh) && |lh| == |data|
    requires forall i, j :: 0 <= i < j < |lh| ==> lh[i] != lh[j]
    ensures forall i :: 0 <= i < |lh| ==> Installed(d, start, lh, data)[lh[i]] == data[i]
    ensures forall b :: 0 <= b < |d| && b !in lh ==> Installed(d, start, lh, data)[b] == d[b]
  {
    var ws := InstallWrites(lh, data);
    forall b | 0 <= b < |d| && b !in lh ensures Installed(d, start, lh, data)[b] == d[b] {
      ApplyFrame(d, ws, b);
    }
    forall i | 0 <= i < |lh| ensures Apply(d, ws)[lh[i]] == data[i] {
      assert ws == ws[..i + 1] + ws[i + 1..];
      ApplyAppend(d, ws[..i + 1], ws[i + 1..]);
      assert ws[..i + 1] == ws[..i] + [ws[i]];
      ApplyAppend(d, ws[..i], [ws[i]]);
      ApplyFrame(Apply(d, ws[..i + 1]), ws[i + 1..], lh[i]);
    }
  }
}
