/**
 The offline image checker (docs/xv6-tutorial/resources/recovery/fsck.py): replay of the
 log on a copy, block ownership against the free map, and the directory graph. A verdict
 without diagnostics is given exactly for the images that the kernel's own recovery
 (RedoLog) turns into a file system with the kernel's invariant on block maps (Inodes),
 one directory tree and exact link counts. Diagnostics are modelled by the flag "none so far".
 */
module Fsck {
  import opened Bytes
  import opened Inodes
  import R = RedoLog
  import T = DirectoryTree

  datatype Option<T> = None | Some(value: T)

  const LOGSTART: nat := 2
  const NLOG: nat := R.LOGBLOCKS + 1
  const FSMAGIC: nat := 0x1020_3040

  const T_DIR: int := 1
  const T_FILE: int := 2
  const T_DEVICE: int := 3

  // ----- superblock and log -----

  /** The superblock of d lays the image out as sb: log, inodes, free map and data, one after the other. */
  predicate Describes(d: Disk, sb: Super) {
    && |d| >= 2 && Word(d[1], 0) == FSMAGIC
    && Word(d[1], 1) == sb.size == |d| && 0 < sb.ninodes == Word(d[1], 3) <= sb.size * IPB
    && Word(d[1], 4) == NLOG && Word(d[1], 5) == LOGSTART && Word(d[1], 6) == sb.inodestart == LOGSTART + NLOG
    && Word(d[1], 7) == sb.bmapstart == sb.inodestart + (sb.ninodes + IPB - 1) / IPB
    && sb.datastart == sb.bmapstart + (sb.size + BPB - 1) / BPB < sb.size && Word(d[1], 2) == sb.size - sb.datastart
  }

  method ParseGeometry(d: Disk) returns (g: Option<Super>)
    ensures g.Some? ==> Describes(d, g.value) && SuperOk(g.value) && 0 < g.value.datastart
    ensures forall sb :: Describes(d, sb) ==> g == Some(sb)
  {
    if |d| < 2 {
      return None;
    }
    var b := d[1];
    var size, nblocks, ninodes, nlog := Word(b, 1), Word(b, 2), Word(b, 3), Word(b, 4);
    var logstart, inodestart, bmapstart := Word(b, 5), Word(b, 6), Word(b, 7);
    if Word(b, 0) != FSMAGIC {
      return None;
    }
    var datastart := bmapstart + (size + BPB - 1) / BPB;
    if size > 0 && |d| == size && 0 < ninodes <= size * IPB && nlog == NLOG && logstart == LOGSTART &&
       inodestart == logstart + nlog && bmapstart == inodestart + (ninodes + IPB - 1) / IPB &&
       datastart < size && nblocks == size - datastart {
      return Some(Super(size, ninodes, inodestart, bmapstart, datastart));
    }
    return None;
  }

  /** Every logged block has its own home among the inode, bitmap and data blocks. */
  predicate GoodTargets(sb: Super, ts: seq<uint32>) {
    && (forall i :: 0 <= i < |ts| ==> sb.inodestart <= ts[i] < sb.size)
    && forall i, j :: 0 <= i < j < |ts| ==> ts[i] != ts[j]
  }

  predicate GoodLog(sb: Super, d: Disk)
    requires LOGSTART < |d|
  {
    var h := d[LOGSTART];
    0 <= R.HeadCount(h) <= R.LOGBLOCKS && GoodTargets(sb, R.HeadTargets(h))
  }

  /** The replay on a copy is accepted exactly for good logs, and is then the kernel's recovery, byte for byte. */
  method ParseLog(d: Disk, sb: Super) returns (shadow: Option<Disk>)
    requires SuperOk(sb) && |d| == sb.size && sb.inodestart == LOGSTART + NLOG && sb.datastart < sb.size
    ensures shadow.Some? <==> GoodLog(sb, d)
    ensures shadow.Some? ==> R.ValidLog(d, LOGSTART) && shadow.value == R.Recover(d, LOGSTART)
  {
    var h := d[LOGSTART];
    var count := R.HeadCount(h);
    if count < 0 || count > R.LOGBLOCKS {
      return None;
    }
    var targets := R.HeadTargets(h);
    var bad, seen, i := false, {}, 0;
    while i < |targets|
      invariant 0 <= i <= |targets|
      invariant forall x :: x in seen <==> x in targets[..i]
      invariant !bad <==> GoodTargets(sb, targets[..i])
    {
      if targets[i] < sb.inodestart || targets[i] >= sb.size || LOGSTART <= targets[i] < LOGSTART + NLOG {
        bad := true;
      }
      if targets[i] in seen {
        bad := true;
      }
      seen := seen + {targets[i]};
      i := i + 1;
      assert targets[..i] == targets[..i - 1] + [targets[i - 1]];
    }
    assert targets[..|targets|] == targets;
    if bad {
      return None;
    }
    var s := Replay(d, sb, targets);
    shadow := Some(s);
  }

  method Replay(d: Disk, sb: Super, targets: seq<uint32>) returns (s: Disk)
    requires SuperOk(sb) && |d| == sb.size && sb.inodestart == LOGSTART + NLOG && sb.datastart < sb.size
    requires GoodLog(sb, d) && targets == R.HeadTargets(d[LOGSTART])
    ensures R.ValidLog(d, LOGSTART) && s == R.Recover(d, LOGSTART)
  {
    ghost var data := R.Logged(d, LOGSTART, |targets|);
    ghost var ws := R.InstallWrites(targets, data);
    s := d;
    var i := 0;
    while i < |targets|
      invariant 0 <= i <= |targets| && |s| == |d| && R.WritesFit(d, ws[..i])
      invariant s == R.Apply(d, ws[..i])
    {
      assert ws[..i + 1] == ws[..i] + [ws[i]];
      R.ApplyAppend(d, ws[..i], [ws[i]]);
      R.ApplyOne(s, ws[i]);
      s := s[targets[i] := d[LOGSTART + 1 + i]];
      i := i + 1;
    }
    assert ws[..|targets|] == ws;
    R.ApplyFrame(d, ws, LOGSTART);
    ghost var w := R.Write(LOGSTART, R.HeadBlock(d[LOGSTART], []));
    R.ApplyAppend(d, ws, [w]);
    R.ApplyOne(s, w);
    s := s[LOGSTART := SetWord(s[LOGSTART], 0, 0)];
  }

  // ----- inodes and the blocks they name -----

  datatype DInode = DInode(kind: int, nlink: int, size: uint32, addrs: seq<uint32>)

  function Signed16(x: nat): int {
    if x % 0x1_0000 < 0x8000 then x % 0x1_0000 else x % 0x1_0000 - 0x1_0000
  }

  /** struct dinode: type, major, minor and nlink in two words, then size and thirteen addresses. */
  function InodeAt(sb: Super, d: Disk, inum: nat): (ip: DInode)
    requires SuperOk(sb) && |d| == sb.size && inum < sb.ninodes
    ensures |ip.addrs| == NDIRECT + 1
  {
    var b, w := d[IBlock(sb, inum)], inum % IPB * 16;
    DInode(Signed16(Word(b, w)), Signed16(Word(b, w + 1) / 0x1_0000), Word(b, w + 2),
           seq<uint32>(NDIRECT + 1, k requires 0 <= k <= NDIRECT => Word(b, w + 3 + k)))
  }

  predicate InRegion(sb: Super, a: nat) {
    sb.datastart <= a < sb.size
  }

  /** The address of block k of the file; an indirect block outside the data region is not read. */
  function Logical(sb: Super, d: Disk, ip: DInode, k: nat): (a: uint32)
    requires |d| == sb.size && |ip.addrs| == NDIRECT + 1
  {
    if k < NDIRECT then ip.addrs[k]
    else if k < MAXFILE && InRegion(sb, ip.addrs[NDIRECT]) then Word(d[ip.addrs[NDIRECT]], k - NDIRECT)
    else 0
  }

  const INDIRECT: nat := MAXFILE      // the slot of the indirect block itself

  function Named(sb: Super, d: Disk, ip: DInode, slot: nat): (a: uint32)
    requires |d| == sb.size && |ip.addrs| == NDIRECT + 1
  {
    if slot == INDIRECT then ip.addrs[NDIRECT] else Logical(sb, d, ip, slot)
  }

  function Required(ip: DInode): nat {
    (ip.size + BSIZE - 1) / BSIZE
  }

  /** No holes below the size, nothing beyond it, and every block in the data region. */
  ghost predicate BlocksOk(sb: Super, d: Disk, ip: DInode)
    requires |d| == sb.size && |ip.addrs| == NDIRECT + 1
  {
    && (forall k :: 0 <= k < MAXFILE ==> (k < Required(ip) <==> Logical(sb, d, ip, k) != 0))
    && (Required(ip) <= NDIRECT ==> ip.addrs[NDIRECT] == 0)
    && forall s :: 0 <= s <= INDIRECT && Named(sb, d, ip, s) != 0 ==> InRegion(sb, Named(sb, d, ip, s))
  }

  /** The slots that name a block, each once, with the block. */
  ghost predicate Lists(sb: Super, d: Disk, ip: DInode, refs: seq<(nat, nat)>)
    requires |d| == sb.size && |ip.addrs| == NDIRECT + 1
  {
    && (forall i :: 0 <= i < |refs| ==> refs[i].0 <= INDIRECT && refs[i].1 == Named(sb, d, ip, refs[i].0) != 0)
    && (forall i, j :: 0 <= i < j < |refs| ==> refs[i].0 != refs[j].0)
    && forall s :: 0 <= s <= INDIRECT && Named(sb, d, ip, s) != 0 ==> (s, Named(sb, d, ip, s)) in refs
  }

  method InodeBlocks(sb: Super, d: Disk, ip: DInode) returns (refs: seq<(nat, nat)>, ok: bool)
    requires |d| == sb.size && |ip.addrs| == NDIRECT + 1 && sb.datastart > 0
    ensures Lists(sb, d, ip, refs) && (ok <==> BlocksOk(sb, d, ip))
  {
    refs := ListBlocks(sb, d, ip);
    ok := true;
    var k := 0;
    while k < MAXFILE
      invariant 0 <= k <= MAXFILE
      invariant ok <==> forall j :: 0 <= j < k ==> (j < Required(ip) <==> Logical(sb, d, ip, j) != 0)
    {
      var a := Logical(sb, d, ip, k);
      if (k < Required(ip) && a == 0) || (k >= Required(ip) && a != 0) {
        ok := false;
      }
      k := k + 1;
    }
    if Required(ip) <= NDIRECT && ip.addrs[NDIRECT] != 0 {
      ok := false;
    }
    var inside := AllInRegion(sb, refs);
    assert inside <==> forall s :: 0 <= s <= INDIRECT && Named(sb, d, ip, s) != 0 ==>
      InRegion(sb, Named(sb, d, ip, s)) by {
      assert inside ==> forall s :: 0 <= s <= INDIRECT && Named(sb, d, ip, s) != 0 ==> (s, Named(sb, d, ip, s)) in refs;
      if !inside {
        var i :| 0 <= i < |refs| && !InRegion(sb, refs[i].1);
        assert Named(sb, d, ip, refs[i].0) == refs[i].1;
      }
    }
    ok := ok && inside;
  }

  method AllInRegion(sb: Super, refs: seq<(nat, nat)>) returns (ok: bool)
    ensures ok <==> forall i :: 0 <= i < |refs| ==> InRegion(sb, refs[i].1)
  {
    ok := true;
    var i := 0;
    while i < |refs|
      invariant 0 <= i <= |refs|
      invariant ok <==> forall j :: 0 <= j < i ==> InRegion(sb, refs[j].1)
    {
      if !InRegion(sb, refs[i].1) {
        ok := false;
      }
      i := i + 1;
    }
  }

  /** Direct blocks, the indirect block, then its entries. */
  method ListBlocks(sb: Super, d: Disk, ip: DInode) returns (refs: seq<(nat, nat)>)
    requires |d| == sb.size && |ip.addrs| == NDIRECT + 1 && sb.datastart > 0
    ensures Lists(sb, d, ip, refs)
  {
    hide Listed, Lists;
    refs := [];
    ListedStart(sb, d, ip);
    var k := 0;
    while k < NDIRECT
      invariant 0 <= k <= NDIRECT && Listed(sb, d, ip, refs, k, false)
    {
      ListedNext(sb, d, ip, refs, k, false);
      if ip.addrs[k] != 0 {
        refs := refs + [(k, ip.addrs[k])];
      }
      k := k + 1;
    }
    ListedIndirect(sb, d, ip, refs);
    if ip.addrs[NDIRECT] != 0 {
      refs := refs + [(INDIRECT, ip.addrs[NDIRECT])];
      if InRegion(sb, ip.addrs[NDIRECT]) {
        while k < MAXFILE
          invariant NDIRECT <= k <= MAXFILE && Listed(sb, d, ip, refs, k, true)
        {
          ListedNext(sb, d, ip, refs, k, true);
          var a := Word(d[ip.addrs[NDIRECT]], k - NDIRECT);
          if a != 0 {
            refs := refs + [(k, a)];
          }
          k := k + 1;
        }
      }
    }
    ListedAll(sb, d, ip, refs, k);
  }

  /** Slots below k, and perhaps the indirect block, have been listed. */
  ghost predicate Listed(sb: Super, d: Disk, ip: DInode, refs: seq<(nat, nat)>, k: nat, ind: bool)
    requires |d| == sb.size && |ip.addrs| == NDIRECT + 1
  {
    && (forall i :: 0 <= i < |refs| ==> refs[i].0 <= INDIRECT && refs[i].1 == Named(sb, d, ip, refs[i].0) != 0)
    && (forall i :: 0 <= i < |refs| ==> refs[i].0 < k || (ind && refs[i].0 == INDIRECT))
    && (forall i, j :: 0 <= i < j < |refs| ==> refs[i].0 != refs[j].0)
    && forall s :: 0 <= s <= INDIRECT && (s < k || (ind && s == INDIRECT)) && Named(sb, d, ip, s) != 0 ==>
      (s, Named(sb, d, ip, s)) in refs
  }

  lemma ListedStart(sb: Super, d: Disk, ip: DInode)
    requires |d| == sb.size && |ip.addrs| == NDIRECT + 1
    ensures Listed(sb, d, ip, [], 0, false)
  {
  }

  lemma ListedNext(sb: Super, d: Disk, ip: DInode, refs: seq<(nat, nat)>, k: nat, ind: bool)
    requires |d| == sb.size && |ip.addrs| == NDIRECT + 1 && k < MAXFILE
    requires Listed(sb, d, ip, refs, k, ind)
    ensures Listed(sb, d, ip, if Named(sb, d, ip, k) != 0 then refs + [(k, Named(sb, d, ip, k))] else refs, k + 1, ind)
  {
    hide Named;
    var more := refs + [(k, Named(sb, d, ip, k))];
    assert more[|refs|] == (k, Named(sb, d, ip, k));
  }

  lemma ListedIndirect(sb: Super, d: Disk, ip: DInode, refs: seq<(nat, nat)>)
    requires |d| == sb.size && |ip.addrs| == NDIRECT + 1
    requires Listed(sb, d, ip, refs, NDIRECT, false)
    ensures var a := Named(sb, d, ip, INDIRECT);
      Listed(sb, d, ip, if a != 0 then refs + [(INDIRECT, a)] else refs, NDIRECT, true)
  {
    hide Named;
    var more := refs + [(INDIRECT, Named(sb, d, ip, INDIRECT))];
    assert more[|refs|] == (INDIRECT, Named(sb, d, ip, INDIRECT));
  }

  /** Without an indirect block in the data region, no slot past the direct ones names anything. */
  lemma ListedAll(sb: Super, d: Disk, ip: DInode, refs: seq<(nat, nat)>, k: nat)
    requires |d| == sb.size && |ip.addrs| == NDIRECT + 1 && NDIRECT <= k && Listed(sb, d, ip, refs, k, true)
    requires k == MAXFILE || !InRegion(sb, ip.addrs[NDIRECT])
    ensures Lists(sb, d, ip, refs)
  {
    assert forall s :: k <= s < MAXFILE ==> Named(sb, d, ip, s) == 0;
  }

  // ----- who owns which block -----

  /** An allocated inode of a known type. */
  predicate InUse(ip: DInode) {
    ip.kind in {T_DIR, T_FILE, T_DEVICE}
  }

  ghost predicate Good(sb: Super, d: Disk) {
    SuperOk(sb) && |d| == sb.size && 0 < sb.datastart < sb.size
  }

  /** The allocated inodes below n, in order. */
  ghost predicate AllInodes(sb: Super, d: Disk, inodes: map<nat, DInode>, inums: seq<nat>, n: nat)
    requires Good(sb, d) && n <= sb.ninodes
  {
    && (forall i :: i in inodes <==> 1 <= i < n && InUse(InodeAt(sb, d, i)))
    && (forall i :: i in inodes ==> inodes[i] == InodeAt(sb, d, i))
    && (forall i :: i in inums <==> i in inodes)
    && forall j, k :: 0 <= j < k < |inums| ==> inums[j] < inums[k]
  }

  /** No bad type and no oversized file among the inodes below n. */
  ghost predicate Sane(sb: Super, d: Disk, n: nat)
    requires Good(sb, d) && n <= sb.ninodes
  {
    forall i :: 1 <= i < n ==> SaneInode(InodeAt(sb, d, i))
  }

  predicate SaneInode(ip: DInode) {
    ip.kind == 0 || (InUse(ip) && ip.size <= MAXFILE * BSIZE)
  }

  method ParseInodes(sb: Super, d: Disk) returns (inodes: map<nat, DInode>, inums: seq<nat>, ok: bool)
    requires Good(sb, d)
    ensures AllInodes(sb, d, inodes, inums, sb.ninodes)
    ensures ok <==> Sane(sb, d, sb.ninodes) && T.ROOT in inodes && inodes[T.ROOT].kind == T_DIR
  {
    hide InodeAt;
    inodes, inums, ok := map[], [], true;
    var i := 1;
    while i < sb.ninodes
      invariant 1 <= i && (sb.ninodes > 0 ==> i <= sb.ninodes)
      invariant i <= sb.ninodes ==> AllInodes(sb, d, inodes, inums, i) && (ok <==> Sane(sb, d, i))
      invariant i > sb.ninodes ==> inodes == map[] && inums == [] && ok
    {
      var ip := InodeAt(sb, d, i);
      if ip.kind != 0 {
        if !InUse(ip) {
          ok := false;
        } else {
          if ip.size > MAXFILE * BSIZE {
            ok := false;
          }
          assert forall j :: 0 <= j < |inums| ==> inums[j] in inums;
          inodes := inodes[i := ip];
          inums := inums + [i];
        }
      }
      i := i + 1;
    }
    if T.ROOT !in inodes || inodes[T.ROOT].kind != T_DIR {
      ok := false;
    }
  }

  type Owners = map<nat, seq<(nat, nat)>>

  /** Inode i names block a in slot s. */
  predicate Names(sb: Super, d: Disk, inodes: map<nat, DInode>, i: nat, s: nat, a: nat)
    requires |d| == sb.size
  {
    i in inodes && |inodes[i].addrs| == NDIRECT + 1 && s <= INDIRECT && a != 0 && Named(sb, d, inodes[i], s) == a
      && InRegion(sb, a)
  }

  /** owners[a] lists, of the first n inodes, exactly those that name a, with the slot. */
  ghost predicate OwnersOf(sb: Super, d: Disk, inodes: map<nat, DInode>, inums: seq<nat>, n: nat, owners: Owners)
    requires |d| == sb.size && n <= |inums|
  {
    && OwnersNamed(sb, d, inodes, owners)
    && (forall j: nat, s: nat, a: nat :: j < n && Names(sb, d, inodes, inums[j], s, a) ==>
        a in owners && (inums[j], s) in owners[a])
    && (forall a, j :: a in owners && 0 <= j < |owners[a]| ==> owners[a][j].0 in inums[..n])
    && NoTwice(owners)
  }

  /** No owner is listed twice for a block. */
  ghost predicate NoTwice(owners: Owners) {
    forall a, j, k :: a in owners && 0 <= j < k < |owners[a]| ==> owners[a][j] != owners[a][k]
  }

  /** The slots of inode i listed so far are those of refs. */
  ghost predicate SlotsOf(owners: Owners, i: nat, refs: seq<(nat, nat)>) {
    forall a, j :: a in owners && 0 <= j < |owners[a]| && owners[a][j].0 == i ==>
      exists k :: 0 <= k < |refs| && refs[k].0 == owners[a][j].1
  }

  lemma AddOne(owners: Owners, i: nat, refs: seq<(nat, nat)>, s: nat, a: nat)
    requires NoTwice(owners) && SlotsOf(owners, i, refs) && forall k :: 0 <= k < |refs| ==> refs[k].0 != s
    ensures var l := (if a in owners then owners[a] else []) + [(i, s)];
      NoTwice(owners[a := l]) && SlotsOf(owners[a := l], i, refs + [(s, a)])
  {
    var l := (if a in owners then owners[a] else []) + [(i, s)];
    var o: Owners := owners[a := l];
    forall b, j | b in o && 0 <= j < |o[b]| && o[b][j].0 == i
      ensures exists k :: 0 <= k < |refs + [(s, a)]| && (refs + [(s, a)])[k].0 == o[b][j].1
    {
      if b in owners && j < |owners[b]| {
        var k :| 0 <= k < |refs| && refs[k].0 == owners[b][j].1;
        assert (refs + [(s, a)])[k] == refs[k];
      } else {
        assert (refs + [(s, a)])[|refs|] == (s, a);
      }
    }
  }

  lemma SkipOne(owners: Owners, i: nat, refs: seq<(nat, nat)>, r: (nat, nat))
    requires SlotsOf(owners, i, refs)
    ensures SlotsOf(owners, i, refs + [r])
  {
    forall a, j | a in owners && 0 <= j < |owners[a]| && owners[a][j].0 == i
      ensures exists k :: 0 <= k < |refs + [r]| && (refs + [r])[k].0 == owners[a][j].1
    {
      var k :| 0 <= k < |refs| && refs[k].0 == owners[a][j].1;
      assert (refs + [r])[k] == refs[k];
    }
  }

  /** Inode i's blocks at the slots of done have been added to owners0. */
  ghost predicate Adding(sb: Super, d: Disk, inodes: map<nat, DInode>, i: nat, done: seq<(nat, nat)>, owners0: Owners,
                         owners: Owners)
    requires |d| == sb.size
  {
    && NoTwice(owners) && SlotsOf(owners, i, done) && OwnersNamed(sb, d, inodes, owners)
    && (forall a, j :: a in owners && 0 <= j < |owners[a]| ==>
        owners[a][j].0 == i || (a in owners0 && owners[a][j] in owners0[a]))
    && (forall a, r :: a in owners0 && r in owners0[a] ==> a in owners && r in owners[a])
    && (forall j :: 0 <= j < |done| && InRegion(sb, done[j].1) ==>
        done[j].1 in owners && (i, done[j].0) in owners[done[j].1])
  }

  ghost predicate OwnersNamed(sb: Super, d: Disk, inodes: map<nat, DInode>, owners: Owners)
    requires |d| == sb.size
  {
    && (forall a, j :: a in owners && 0 <= j < |owners[a]| ==> Names(sb, d, inodes, owners[a][j].0, owners[a][j].1, a))
    && forall a :: a in owners ==> |owners[a]| >= 1
  }

  lemma AddingSkip(sb: Super, d: Disk, inodes: map<nat, DInode>, i: nat, done: seq<(nat, nat)>, owners0: Owners,
                   owners: Owners, r: (nat, nat))
    requires |d| == sb.size && Adding(sb, d, inodes, i, done, owners0, owners) && !InRegion(sb, r.1)
    ensures Adding(sb, d, inodes, i, done + [r], owners0, owners)
  {
    hide NoTwice, SlotsOf, OwnersNamed;
    SkipOne(owners, i, done, r);
  }

  lemma AddingNext(sb: Super, d: Disk, inodes: map<nat, DInode>, i: nat, done: seq<(nat, nat)>, owners0: Owners,
                   owners: Owners, s: nat, a: nat)
    requires |d| == sb.size && Adding(sb, d, inodes, i, done, owners0, owners) && Names(sb, d, inodes, i, s, a)
    requires forall k :: 0 <= k < |done| ==> done[k].0 != s
    ensures var l := (if a in owners then owners[a] else []) + [(i, s)];
      Adding(sb, d, inodes, i, done + [(s, a)], owners0, owners[a := l])
  {
    hide NoTwice, SlotsOf, Names, InRegion;
    AddOne(owners, i, done, s, a);
    var l := (if a in owners then owners[a] else []) + [(i, s)];
    assert l[|l| - 1] == (i, s);
  }

  method AddOwners(sb: Super, d: Disk, inodes: map<nat, DInode>, i: nat, refs: seq<(nat, nat)>, owners0: Owners)
    returns (owners: Owners)
    requires |d| == sb.size && i in inodes && |inodes[i].addrs| == NDIRECT + 1 && Lists(sb, d, inodes[i], refs)
    requires OwnersNamed(sb, d, inodes, owners0) && NoTwice(owners0)
    requires forall a, j :: a in owners0 && 0 <= j < |owners0[a]| ==> owners0[a][j].0 != i
    ensures Adding(sb, d, inodes, i, refs, owners0, owners)
    ensures forall s: nat, a: nat :: Names(sb, d, inodes, i, s, a) ==> a in owners && (i, s) in owners[a]
  {
    hide Adding, OwnersNamed, NoTwice, Named;
    owners := owners0;
    AddingStart(sb, d, inodes, i, owners0);
    assert refs[..0] == [];
    var k := 0;
    while k < |refs|
      invariant 0 <= k <= |refs| && Adding(sb, d, inodes, i, refs[..k], owners0, owners)
    {
      var (s, a) := refs[k];
      assert refs[..k + 1] == refs[..k] + [(s, a)];
      if InRegion(sb, a) {
        AddingNext(sb, d, inodes, i, refs[..k], owners0, owners, s, a);
        owners := owners[a := (if a in owners then owners[a] else []) + [(i, s)]];
      } else {
        AddingSkip(sb, d, inodes, i, refs[..k], owners0, owners, (s, a));
      }
      k := k + 1;
    }
    assert refs[..|refs|] == refs;
    AddedAll(sb, d, inodes, i, refs, owners0, owners);
  }

  lemma AddingStart(sb: Super, d: Disk, inodes: map<nat, DInode>, i: nat, owners0: Owners)
    requires |d| == sb.size && OwnersNamed(sb, d, inodes, owners0) && NoTwice(owners0)
    requires forall a, j :: a in owners0 && 0 <= j < |owners0[a]| ==> owners0[a][j].0 != i
    ensures Adding(sb, d, inodes, i, [], owners0, owners0)
  {
  }

  lemma AddedAll(sb: Super, d: Disk, inodes: map<nat, DInode>, i: nat, refs: seq<(nat, nat)>, owners0: Owners,
                 owners: Owners)
    requires |d| == sb.size && i in inodes && |inodes[i].addrs| == NDIRECT + 1 && Lists(sb, d, inodes[i], refs)
    requires Adding(sb, d, inodes, i, refs, owners0, owners)
    ensures forall s: nat, a: nat :: Names(sb, d, inodes, i, s, a) ==> a in owners && (i, s) in owners[a]
  {
    hide NoTwice, SlotsOf, OwnersNamed, Named;
    forall s: nat, a: nat | Names(sb, d, inodes, i, s, a)
      ensures a in owners && (i, s) in owners[a]
    {
      assert (s, a) in refs;
    }
  }

  ghost predicate AllBlocksOk(sb: Super, d: Disk, inodes: map<nat, DInode>, inums: seq<nat>, n: nat)
    requires Good(sb, d) && n <= |inums|
  {
    forall j :: 0 <= j < n ==>
      inums[j] in inodes && |inodes[inums[j]].addrs| == NDIRECT + 1 && BlocksOk(sb, d, inodes[inums[j]])
  }

  method CollectOwners(sb: Super, d: Disk, inodes: map<nat, DInode>, inums: seq<nat>) returns (owners: Owners, ok: bool)
    requires Good(sb, d) && (forall i :: i in inodes ==> |inodes[i].addrs| == NDIRECT + 1)
      && forall i :: i in inums ==> i in inodes
    requires forall j, k :: 0 <= j < k < |inums| ==> inums[j] < inums[k]
    ensures OwnersOf(sb, d, inodes, inums, |inums|, owners) && (ok <==> AllBlocksOk(sb, d, inodes, inums, |inums|))
  {
    hide Lists, BlocksOk, Names;
    owners, ok := map[], true;
    var k := 0;
    while k < |inums|
      invariant 0 <= k <= |inums|
      invariant OwnersOf(sb, d, inodes, inums, k, owners) && (ok <==> AllBlocksOk(sb, d, inodes, inums, k))
    {
      var refs, fine := InodeBlocks(sb, d, inodes[inums[k]]);
      if !fine {
        ok := false;
      }
      assert inums[..k + 1] == inums[..k] + [inums[k]];
      owners := AddOwners(sb, d, inodes, inums[k], refs, owners);
      k := k + 1;
    }
  }

  /** Metadata is marked; a data block is marked exactly when some inode names it, and then only one does. */
  ghost predicate Accounted(sb: Super, d: Disk, owners: Owners, b: nat)
    requires Good(sb, d) && b < sb.size
  {
    if b < sb.datastart then Marked(sb, d, b)
    else (Marked(sb, d, b) <==> b in owners) && (b in owners ==> |owners[b]| <= 1)
  }

  method CheckBitmap(sb: Super, d: Disk, owners: Owners) returns (ok: bool)
    requires Good(sb, d) && forall a :: a in owners ==> InRegion(sb, a)
    ensures ok <==> forall b :: 0 <= b < sb.size ==> Accounted(sb, d, owners, b)
  {
    hide Marked;
    ok := true;
    var b := 0;
    while b < sb.size
      invariant 0 <= b <= sb.size
      invariant ok <==> forall c :: 0 <= c < b ==> Accounted(sb, d, owners, c)
    {
      var bit := Marked(sb, d, b);
      var dup := b in owners && |owners[b]| > 1;
      var unmarked := b in owners && !bit;
      var metadata := b < sb.datastart && !bit;
      var leak := b >= sb.datastart && bit && b !in owners;
      if dup || unmarked || metadata || leak {
        ok := false;
      }
      assert Accounted(sb, d, owners, b) <==> !(dup || unmarked || metadata || leak);
      b := b + 1;
    }
  }

  // ----- a clean block check is the kernel's invariant -----

  /** The in-memory view of the inode table: free inodes name nothing. */
  ghost function Table(sb: Super, inodes: map<nat, DInode>): (t: seq<Inode>)
    ensures |t| == sb.ninodes
  {
    seq(sb.ninodes, i requires 0 <= i => if i in inodes then Inode(inodes[i].addrs, inodes[i].size)
        else Inode(seq<uint32>(NDIRECT + 1, _ => 0), 0))
  }

  ghost function OwnerOf(sb: Super, owners: Owners, b: nat): Owner {
    if b < sb.datastart then Meta
    else if b in owners && owners[b] != [] then
      if owners[b][0].1 == INDIRECT then Indirect(owners[b][0].0) else Data(owners[b][0].0, owners[b][0].1)
    else Owner.Free
  }

  ghost function OwnerTable(sb: Super, owners: Owners): (t: seq<Owner>)
    ensures |t| == sb.size && forall b :: 0 <= b < sb.size ==> t[b] == OwnerOf(sb, owners, b)
  {
    seq(sb.size, b requires 0 <= b => OwnerOf(sb, owners, b))
  }

  ghost predicate CleanBlocks(sb: Super, d: Disk, inodes: map<nat, DInode>, inums: seq<nat>, owners: Owners) {
    && Good(sb, d) && AllInodes(sb, d, inodes, inums, sb.ninodes) && Sane(sb, d, sb.ninodes)
    && AllBlocksOk(sb, d, inodes, inums, |inums|) && OwnersOf(sb, d, inodes, inums, |inums|, owners)
    && forall b :: 0 <= b < sb.size ==> Accounted(sb, d, owners, b)
  }

  lemma CleanInode(sb: Super, d: Disk, inodes: map<nat, DInode>, inums: seq<nat>, owners: Owners, i: nat)
    requires CleanBlocks(sb, d, inodes, inums, owners) && i in inodes
    ensures i < sb.ninodes && |inodes[i].addrs| == NDIRECT + 1 && BlocksOk(sb, d, inodes[i])
    ensures inodes[i].size <= MAXFILE * BSIZE
    ensures forall s: nat :: s <= INDIRECT && Named(sb, d, inodes[i], s) != 0 ==>
      var a := Named(sb, d, inodes[i], s);
      InRegion(sb, a) && a in owners && owners[a] == [(i, s)]
  {
    hide BlocksOk, InodeAt, Marked;
    assert i in inums;
    var j :| 0 <= j < |inums| && inums[j] == i;
    forall s: nat | s <= INDIRECT && Named(sb, d, inodes[i], s) != 0
      ensures var a := Named(sb, d, inodes[i], s); InRegion(sb, a) && a in owners && owners[a] == [(i, s)]
    {
      var a := Named(sb, d, inodes[i], s);
      InsideRegion(sb, d, inodes[i], s);
      assert Names(sb, d, inodes, inums[j], s, a);
      assert (i, s) in owners[a] && Accounted(sb, d, owners, a);
    }
  }

  lemma InsideRegion(sb: Super, d: Disk, ip: DInode, s: nat)
    requires |d| == sb.size && |ip.addrs| == NDIRECT + 1 && BlocksOk(sb, d, ip) && s <= INDIRECT
    requires Named(sb, d, ip, s) != 0
    ensures InRegion(sb, Named(sb, d, ip, s))
  {
  }

  lemma CleanAddr(sb: Super, d: Disk, inodes: map<nat, DInode>, inums: seq<nat>, owners: Owners, i: nat, bn: nat)
    requires CleanBlocks(sb, d, inodes, inums, owners) && i < sb.ninodes && bn < MAXFILE
    ensures var ip := Table(sb, inodes)[i];
      && InodeOk(sb, ip)
      && AddrOf(d, ip, bn) ==
        (if i in inodes && |inodes[i].addrs| == NDIRECT + 1 then Named(sb, d, inodes[i], bn) else 0)
  {
    hide AllInodes, OwnersOf, Sane, AllBlocksOk, Accounted;
    if i in inodes {
      CleanInode(sb, d, inodes, inums, owners, i);
      var ip := inodes[i];
      assert ip.addrs[NDIRECT] == Named(sb, d, ip, INDIRECT);
      forall j | 0 <= j <= NDIRECT
        ensures ip.addrs[j] < sb.size
      {
        assert ip.addrs[j] == Named(sb, d, ip, if j == NDIRECT then INDIRECT else j);
      }
    }
  }

  lemma CleanMap(sb: Super, d: Disk, inodes: map<nat, DInode>, inums: seq<nat>, owners: Owners)
    requires CleanBlocks(sb, d, inodes, inums, owners)
    ensures var t, o := Table(sb, inodes), OwnerTable(sb, owners);
      Shape(sb, d, t, o) && MapOk(sb, d, t, o) && NoHoles(sb, d, t, o)
  {
    hide CleanBlocks, AddrOf;
    var t, o := Table(sb, inodes), OwnerTable(sb, owners);
    CleanGood(sb, d, inodes, inums, owners);
    forall i | 0 <= i < |t|
      ensures InodeOk(sb, t[i])
    {
      CleanAddr(sb, d, inodes, inums, owners, i, 0);
    }
    forall i | 0 <= i < |t| && t[i].addrs[NDIRECT] != 0
      ensures o[t[i].addrs[NDIRECT]] == Indirect(i)
    {
      CleanInode(sb, d, inodes, inums, owners, i);
      assert Named(sb, d, inodes[i], INDIRECT) == t[i].addrs[NDIRECT];
    }
    forall i, bn | 0 <= i < |t| && 0 <= bn < MAXFILE && AddrOf(d, t[i], bn) != 0
      ensures AddrOf(d, t[i], bn) < sb.size && o[AddrOf(d, t[i], bn)] == Data(i, bn)
    {
      CleanAddr(sb, d, inodes, inums, owners, i, bn);
      CleanInode(sb, d, inodes, inums, owners, i);
    }
    forall i, bn | 0 <= i < |t| && 0 <= bn < MAXFILE && bn * BSIZE < t[i].size
      ensures AddrOf(d, t[i], bn) != 0
    {
      CleanAddr(sb, d, inodes, inums, owners, i, bn);
      CleanInode(sb, d, inodes, inums, owners, i);
      assert bn < Required(inodes[i]);
    }
  }

  lemma CleanGood(sb: Super, d: Disk, inodes: map<nat, DInode>, inums: seq<nat>, owners: Owners)
    requires CleanBlocks(sb, d, inodes, inums, owners)
    ensures Good(sb, d)
  {
  }

  lemma CleanOwner(sb: Super, d: Disk, inodes: map<nat, DInode>, inums: seq<nat>, owners: Owners, b: nat)
    requires CleanBlocks(sb, d, inodes, inums, owners) && b < sb.size
    ensures Marked(sb, d, b) <==> OwnerOf(sb, owners, b) != Owner.Free
    ensures b >= sb.datastart && b in owners ==>
      |owners[b]| == 1 && Names(sb, d, inodes, owners[b][0].0, owners[b][0].1, b) && owners[b][0].0 < sb.ninodes
  {
    hide AllBlocksOk, Sane, Marked, BlocksOk;
    assert Accounted(sb, d, owners, b);
  }

  /** The checker's verdict on blocks is the kernel's invariant: one owner per block, an exact free map, no holes. */
  lemma CleanInv(sb: Super, d: Disk, inodes: map<nat, DInode>, inums: seq<nat>, owners: Owners)
    requires CleanBlocks(sb, d, inodes, inums, owners)
    ensures var t, o := Table(sb, inodes), OwnerTable(sb, owners);
      Inv(sb, d, t, o) && NoHoles(sb, d, t, o)
  {
    hide CleanBlocks, AddrOf, OwnerOf, MapOk, NoHoles, Names, Marked;
    var t, o := Table(sb, inodes), OwnerTable(sb, owners);
    CleanGood(sb, d, inodes, inums, owners);
    CleanMap(sb, d, inodes, inums, owners);
    CleanNoLeak(sb, d, inodes, inums, owners);
    forall b | 0 <= b < sb.size
      ensures Marked(sb, d, b) <==> o[b] != Owner.Free
      ensures o[b] == Meta <==> b < sb.datastart
    {
      CleanOwner(sb, d, inodes, inums, owners, b);
      MetaFirst(sb, owners, b);
    }
  }

  lemma MetaFirst(sb: Super, owners: Owners, b: nat)
    ensures OwnerOf(sb, owners, b) == Meta <==> b < sb.datastart
  {
  }

  lemma CleanNoLeak(sb: Super, d: Disk, inodes: map<nat, DInode>, inums: seq<nat>, owners: Owners)
    requires CleanBlocks(sb, d, inodes, inums, owners)
    ensures var t, o := Table(sb, inodes), OwnerTable(sb, owners);
      Shape(sb, d, t, o) && NoLeak(sb, d, t, o)
  {
    hide CleanBlocks, AddrOf, Marked;
    var t, o := Table(sb, inodes), OwnerTable(sb, owners);
    CleanMap(sb, d, inodes, inums, owners);
    CleanGood(sb, d, inodes, inums, owners);
    forall b | 0 <= b < sb.size && o[b].Data?
      ensures o[b].inum < |t| && o[b].bn < MAXFILE && AddrOf(d, t[o[b].inum], o[b].bn) == b
    {
      CleanOwner(sb, d, inodes, inums, owners, b);
      CleanAddr(sb, d, inodes, inums, owners, o[b].inum, o[b].bn);
    }
    forall b | 0 <= b < sb.size && o[b].Indirect?
      ensures o[b].inum < |t| && t[o[b].inum].addrs[NDIRECT] == b
    {
      CleanOwner(sb, d, inodes, inums, owners, b);
    }
  }

  // ----- and the kernel's invariant is a clean block check, where no file owns blocks past its size -----

  /** A file owns no block past its size, and no indirect block it does not need. */
  ghost predicate Trimmed(d: Disk, t: seq<Inode>)
    requires Inodes.Readable(d, t)
  {
    && (forall i, bn :: 0 <= i < |t| && 0 <= bn < MAXFILE && AddrOf(d, t[i], bn) != 0 ==> bn * BSIZE < t[i].size)
    && forall i :: 0 <= i < |t| && t[i].addrs[NDIRECT] != 0 ==> t[i].size > NDIRECT * BSIZE
  }

  lemma CleanTrimmed(sb: Super, d: Disk, inodes: map<nat, DInode>, inums: seq<nat>, owners: Owners)
    requires CleanBlocks(sb, d, inodes, inums, owners)
    ensures var t, o := Table(sb, inodes), OwnerTable(sb, owners);
      Shape(sb, d, t, o) && Inodes.Readable(d, t) && Trimmed(d, t)
  {
    hide CleanBlocks, AddrOf;
    var t := Table(sb, inodes);
    CleanGood(sb, d, inodes, inums, owners);
    CleanMap(sb, d, inodes, inums, owners);
    forall i, bn | 0 <= i < |t| && 0 <= bn < MAXFILE && AddrOf(d, t[i], bn) != 0
      ensures bn * BSIZE < t[i].size
    {
      CleanAddr(sb, d, inodes, inums, owners, i, bn);
      CleanInode(sb, d, inodes, inums, owners, i);
      assert bn < Required(inodes[i]);
    }
    forall i | 0 <= i < |t| && t[i].addrs[NDIRECT] != 0
      ensures t[i].size > NDIRECT * BSIZE
    {
      CleanInode(sb, d, inodes, inums, owners, i);
    }
  }

  /** What the kernel's invariant says of inode i. */
  ghost predicate Kept(sb: Super, d: Disk, inodes: map<nat, DInode>, owner: seq<Owner>) {
    var t := Table(sb, inodes);
    Good(sb, d) && Inv(sb, d, t, owner) && Inodes.Readable(d, t) && NoHoles(sb, d, t, owner) && Trimmed(d, t)
  }

  /** The block in slot s of inode i, if any, is in the data region and owned for that slot. */
  lemma KeptSlot(sb: Super, d: Disk, inodes: map<nat, DInode>, owner: seq<Owner>, i: nat, s: nat)
    requires Kept(sb, d, inodes, owner) && i in inodes && i < sb.ninodes && |inodes[i].addrs| == NDIRECT + 1
      && s <= INDIRECT
    ensures var a := Named(sb, d, inodes[i], s);
      && Inodes.Readable(d, Table(sb, inodes))
      && (s < MAXFILE ==> a == AddrOf(d, Table(sb, inodes)[i], s))
      && (a != 0 ==>
          InRegion(sb, a) && |owner| == sb.size && owner[a] == if s == INDIRECT then Indirect(i) else Data(i, s))
  {
    hide Marked, NoHoles, Trimmed, NoLeak;
    var t := Table(sb, inodes);
    assert t[i] == Inode(inodes[i].addrs, inodes[i].size) && InodeOk(sb, t[i]);
    var ind := inodes[i].addrs[NDIRECT];
    assert ind != 0 ==> owner[ind] == Indirect(i) && InRegion(sb, ind);
  }

  lemma KeptBlocks(sb: Super, d: Disk, inodes: map<nat, DInode>, owner: seq<Owner>, i: nat)
    requires Kept(sb, d, inodes, owner) && i in inodes && i < sb.ninodes && |inodes[i].addrs| == NDIRECT + 1
    ensures BlocksOk(sb, d, inodes[i])
  {
    hide Inv, AddrOf, Logical;
    var t, ip := Table(sb, inodes), inodes[i];
    assert t[i] == Inode(ip.addrs, ip.size);
    forall k | 0 <= k < MAXFILE
      ensures k < Required(ip) <==> Logical(sb, d, ip, k) != 0
    {
      KeptSlot(sb, d, inodes, owner, i, k);
      assert Named(sb, d, ip, k) == Logical(sb, d, ip, k) == AddrOf(d, t[i], k);
      assert k * BSIZE < ip.size <==> k < Required(ip);
    }
    forall s | 0 <= s <= INDIRECT && Named(sb, d, ip, s) != 0
      ensures InRegion(sb, Named(sb, d, ip, s))
    {
      KeptSlot(sb, d, inodes, owner, i, s);
    }
  }

  lemma KeptAccounted(sb: Super, d: Disk, inodes: map<nat, DInode>, inums: seq<nat>, owner: seq<Owner>, owners: Owners,
                      b: nat)
    requires Kept(sb, d, inodes, owner) && AllInodes(sb, d, inodes, inums, sb.ninodes)
    requires OwnersOf(sb, d, inodes, inums, |inums|, owners)
    requires b < sb.size
    ensures Accounted(sb, d, owners, b)
  {
    hide Marked, AllInodes, OwnersOf, NoHoles, Trimmed, MapOk, NoLeak;
    assert Marked(sb, d, b) <==> owner[b] != Owner.Free;
    assert owner[b] == Meta <==> b < sb.datastart;
    if b >= sb.datastart {
      if b in owners {
        KeptOnce(sb, d, inodes, inums, owner, owners, b);
      }
      if owner[b] != Owner.Free {
        KeptListed(sb, d, inodes, inums, owner, owners, b);
      }
    }
  }

  lemma KeptOnce(sb: Super, d: Disk, inodes: map<nat, DInode>, inums: seq<nat>, owner: seq<Owner>, owners: Owners,
                 b: nat)
    requires Kept(sb, d, inodes, owner) && AllInodes(sb, d, inodes, inums, sb.ninodes)
    requires OwnersOf(sb, d, inodes, inums, |inums|, owners)
    requires Good(sb, d) && b in owners && b < sb.size == |owner|
    ensures |owners[b]| == 1 && owner[b] != Owner.Free
  {
    hide Marked, InodeAt, Kept;
    forall j | 0 <= j < |owners[b]|
      ensures owner[b] == if owners[b][j].1 == INDIRECT then Indirect(owners[b][j].0)
        else Data(owners[b][j].0, owners[b][j].1)
    {
      assert Names(sb, d, inodes, owners[b][j].0, owners[b][j].1, b);
      KeptSlot(sb, d, inodes, owner, owners[b][j].0, owners[b][j].1);
    }
    assert |owners[b]| >= 1;
    assert owners[b][0] == owners[b][|owners[b]| - 1];
  }

  lemma KeptListed(sb: Super, d: Disk, inodes: map<nat, DInode>, inums: seq<nat>, owner: seq<Owner>, owners: Owners,
                   b: nat)
    requires Kept(sb, d, inodes, owner) && AllInodes(sb, d, inodes, inums, sb.ninodes)
    requires OwnersOf(sb, d, inodes, inums, |inums|, owners)
    requires Good(sb, d) && sb.datastart <= b < sb.size == |owner| && owner[b] != Owner.Free
    ensures b in owners
  {
    hide Kept, InodeAt;
    KeptNamed(sb, d, inodes, inums, owner, b);
    var i, s := owner[b].inum, if owner[b].Indirect? then INDIRECT else owner[b].bn;
    assert i in inums;
    var j :| 0 <= j < |inums| && inums[j] == i;
    assert Names(sb, d, inodes, inums[j], s, b);
  }

  /** An owned data block is named by the inode that owns it. */
  lemma KeptNamed(sb: Super, d: Disk, inodes: map<nat, DInode>, inums: seq<nat>, owner: seq<Owner>, b: nat)
    requires Kept(sb, d, inodes, owner) && AllInodes(sb, d, inodes, inums, sb.ninodes) && sb.datastart <= b < sb.size
    requires |owner| == sb.size && owner[b] != Owner.Free
    ensures owner[b].Indirect? || owner[b].Data?
    ensures Names(sb, d, inodes, owner[b].inum, if owner[b].Indirect? then INDIRECT else owner[b].bn, b)
  {
    hide Marked, InodeAt, NoHoles, Trimmed, MapOk;
    var t := Table(sb, inodes);
    assert owner[b] != Meta;
    var i := owner[b].inum;
    assert i < |t|;
    assert i in inodes && |inodes[i].addrs| == NDIRECT + 1;
    KeptSlot(sb, d, inodes, owner, i, if owner[b].Indirect? then INDIRECT else owner[b].bn);
  }

  // ----- directories -----

  const DIRENT: nat := 16
  const DIRSIZ: nat := 14
  const DOT: seq<byte> := [46]
  const DOTDOT: seq<byte> := [46, 46]

  datatype Dirent = Dirent(inum: nat, name: seq<byte>)

  /** Byte k of the directory's contents; blocks it does not have read as zeros. */
  function DirByte(sb: Super, d: Disk, ip: DInode, k: nat): byte
    requires |d| == sb.size && |ip.addrs| == NDIRECT + 1
  {
    var a := Logical(sb, d, ip, k / BSIZE);
    if InRegion(sb, a) then d[a][k % BSIZE] else 0
  }

  /** raw up to its first NUL. */
  function DecodeName(raw: seq<byte>): (name: seq<byte>)
    ensures |name| <= |raw| && name == raw[..|name|] && 0 !in name
    ensures |name| < |raw| ==> raw[|name|] == 0
  {
    if raw == [] || raw[0] == 0 then [] else [raw[0]] + DecodeName(raw[1..])
  }

  function Entry(sb: Super, d: Disk, ip: DInode, e: nat): Dirent
    requires |d| == sb.size && |ip.addrs| == NDIRECT + 1
  {
    var o := e * DIRENT;
    Dirent(DirByte(sb, d, ip, o) + 256 * DirByte(sb, d, ip, o + 1),
           DecodeName(seq<byte>(DIRSIZ, j requires 0 <= j => DirByte(sb, d, ip, o + 2 + j))))
  }

  function EntryCount(ip: DInode): nat {
    ip.size / DIRENT
  }

  /** Entry e names an allocated inode under a name other than "." and "..". */
  predicate Kid(inodes: map<nat, DInode>, x: Dirent) {
    x.inum != 0 && x.name != [] && x.inum in inodes && x.name != DOT && x.name != DOTDOT
  }

  function Kids(sb: Super, d: Disk, inodes: map<nat, DInode>, ip: DInode, n: nat): (r: seq<nat>)
    requires |d| == sb.size && |ip.addrs| == NDIRECT + 1
    ensures forall k :: 0 <= k < |r| ==> r[k] in inodes
  {
    if n == 0 then []
    else
      var x := Entry(sb, d, ip, n - 1);
      Kids(sb, d, inodes, ip, n - 1) + if Kid(inodes, x) then [x.inum] else []
  }

  predicate EntryOk(inodes: map<nat, DInode>, i: nat, x: Dirent) {
    x.inum != 0 ==> x.name != [] && x.inum in inodes && (x.name == DOT ==> x.inum == i)
  }

  /** The used entries among the first n have names, all different, and name allocated inodes; "." names i. */
  ghost predicate EntriesOk(sb: Super, d: Disk, inodes: map<nat, DInode>, i: nat, ip: DInode, n: nat)
    requires |d| == sb.size && |ip.addrs| == NDIRECT + 1
  {
    && (forall e :: 0 <= e < n ==> EntryOk(inodes, i, Entry(sb, d, ip, e)))
    && forall e, f :: 0 <= e < f < n && Entry(sb, d, ip, e).inum != 0 && Entry(sb, d, ip, f).inum != 0 ==>
         Entry(sb, d, ip, e).name != Entry(sb, d, ip, f).name
  }

  ghost predicate HasEntry(sb: Super, d: Disk, ip: DInode, n: nat, name: seq<byte>, target: nat)
    requires |d| == sb.size && |ip.addrs| == NDIRECT + 1
  {
    target != 0 && exists e :: 0 <= e < n && Entry(sb, d, ip, e) == Dirent(target, name)
  }

  function Occurs(s: seq<nat>, t: nat): nat {
    if s == [] then 0 else Occurs(s[..|s| - 1], t) + if s[|s| - 1] == t then 1 else 0
  }

  /** The variables of the scan of one directory; up is the target of its last "..", or 0. */
  datatype Scan = Scan(kids: seq<nat>, dot: bool, up: nat, references: map<nat, nat>, names: set<seq<byte>>, ok: bool)

  /** The body of the loop over the entries of directory i. */
  function ScanEntry(inodes: map<nat, DInode>, i: nat, s: Scan, x: Dirent): (s': Scan) {
    if x.inum == 0 then s
    else if x.name == [] then s.(ok := false)
    else
      var s1 := s.(names := s.names + {x.name}, ok := s.ok && x.name !in s.names);
      if x.inum !in inodes then s1.(ok := false)
      else if x.name == DOT then s1.(dot := true, ok := s1.ok && x.inum == i)
      else if x.name == DOTDOT then s1.(up := x.inum)
      else s1.(kids := s.kids + [x.inum], references := s.references[x.inum := T.Get(s.references, x.inum) + 1])
  }

  ghost predicate ScanKids(sb: Super, d: Disk, inodes: map<nat, DInode>, ip: DInode, references: map<nat, nat>, e: nat,
                           s: Scan)
    requires |d| == sb.size && |ip.addrs| == NDIRECT + 1
  {
    && s.kids == Kids(sb, d, inodes, ip, e)
    && Tallied(references, s.references, s.kids)
    && (s.up != 0 ==> HasEntry(sb, d, ip, e, DOTDOT, s.up))
    && (s.up != 0 <==> HasUsed(sb, d, inodes, ip, e, DOTDOT))
    && (s.dot <==> HasUsed(sb, d, inodes, ip, e, DOT))
  }

  /** One of the first n entries gives name to an allocated inode. */
  ghost predicate HasUsed(sb: Super, d: Disk, inodes: map<nat, DInode>, ip: DInode, n: nat, name: seq<byte>)
    requires |d| == sb.size && |ip.addrs| == NDIRECT + 1
  {
    exists e :: 0 <= e < n && Entry(sb, d, ip, e).inum != 0 && Entry(sb, d, ip, e).inum in inodes
      && Entry(sb, d, ip, e).name == name
  }

  /** names holds the names of the used entries; there is no diagnostic exactly when they are in order. */
  ghost predicate ScanOk(sb: Super, d: Disk, inodes: map<nat, DInode>, i: nat, ip: DInode, e: nat, s: Scan)
    requires |d| == sb.size && |ip.addrs| == NDIRECT + 1
  {
    && (s.ok <==> ip.size % DIRENT == 0 && EntriesOk(sb, d, inodes, i, ip, e))
    && (forall f :: 0 <= f < e && Entry(sb, d, ip, f).inum != 0 && Entry(sb, d, ip, f).name != [] ==>
        Entry(sb, d, ip, f).name in s.names)
    && (forall x :: x in s.names ==>
        exists f :: 0 <= f < e && Entry(sb, d, ip, f).inum != 0 && Entry(sb, d, ip, f).name == x)
  }

  ghost predicate Tallied(references: map<nat, nat>, references': map<nat, nat>, kids: seq<nat>) {
    forall t :: T.Get(references', t) == T.Get(references, t) + Occurs(kids, t)
  }

  lemma TallyOne(references: map<nat, nat>, references': map<nat, nat>, kids: seq<nat>, x: nat)
    requires Tallied(references, references', kids)
    ensures Tallied(references, references'[x := T.Get(references', x) + 1], kids + [x])
  {
    assert (kids + [x])[..|kids + [x]| - 1] == kids;
  }

  lemma HasMore(sb: Super, d: Disk, ip: DInode, e: nat, name: seq<byte>, target: nat)
    requires |d| == sb.size && |ip.addrs| == NDIRECT + 1
    requires HasEntry(sb, d, ip, e, name, target) || (target != 0 && Entry(sb, d, ip, e) == Dirent(target, name))
    ensures HasEntry(sb, d, ip, e + 1, name, target)
  {
    hide Entry;
  }

  lemma UsedMore(sb: Super, d: Disk, inodes: map<nat, DInode>, ip: DInode, e: nat, name: seq<byte>)
    requires |d| == sb.size && |ip.addrs| == NDIRECT + 1
    ensures HasUsed(sb, d, inodes, ip, e + 1, name) <==>
      || HasUsed(sb, d, inodes, ip, e, name)
      || (Entry(sb, d, ip, e).inum != 0 && Entry(sb, d, ip, e).inum in inodes && Entry(sb, d, ip, e).name == name)
  {
    hide Entry;
  }

  lemma ScanKidsNext(sb: Super, d: Disk, inodes: map<nat, DInode>, i: nat, ip: DInode, references: map<nat, nat>,
                     e: nat, s: Scan)
    requires |d| == sb.size && |ip.addrs| == NDIRECT + 1 && ScanKids(sb, d, inodes, ip, references, e, s)
    ensures ScanKids(sb, d, inodes, ip, references, e + 1, ScanEntry(inodes, i, s, Entry(sb, d, ip, e)))
  {
    hide Entry, HasEntry, HasUsed, Tallied;
    var x := Entry(sb, d, ip, e);
    var s' := ScanEntry(inodes, i, s, x);
    if Kid(inodes, x) {
      TallyOne(references, s.references, s.kids, x.inum);
    }
    if s'.up != 0 {
      HasMore(sb, d, ip, e, DOTDOT, s'.up);
    }
    UsedMore(sb, d, inodes, ip, e, DOT);
    UsedMore(sb, d, inodes, ip, e, DOTDOT);
  }

  lemma ScanOkNext(sb: Super, d: Disk, inodes: map<nat, DInode>, i: nat, ip: DInode, e: nat, s: Scan)
    requires |d| == sb.size && |ip.addrs| == NDIRECT + 1 && ScanOk(sb, d, inodes, i, ip, e, s)
    ensures ScanOk(sb, d, inodes, i, ip, e + 1, ScanEntry(inodes, i, s, Entry(sb, d, ip, e)))
  {
    hide Entry;
    var x := Entry(sb, d, ip, e);
    var s' := ScanEntry(inodes, i, s, x);
    forall y | y in s'.names
      ensures exists f :: 0 <= f < e + 1 && Entry(sb, d, ip, f).inum != 0 && Entry(sb, d, ip, f).name == y
    {
      if y in s.names {
        var f :| 0 <= f < e && Entry(sb, d, ip, f).inum != 0 && Entry(sb, d, ip, f).name == y;
        assert f < e + 1;
      }
    }
    if x.inum != 0 && x.name in s.names {
      var f :| 0 <= f < e && Entry(sb, d, ip, f).inum != 0 && Entry(sb, d, ip, f).name == x.name;
      assert !EntriesOk(sb, d, inodes, i, ip, e + 1);
    }
    assert EntriesOk(sb, d, inodes, i, ip, e + 1) ==> EntriesOk(sb, d, inodes, i, ip, e) && EntryOk(inodes, i, x);
  }

  method ScanDir(sb: Super, d: Disk, inodes: map<nat, DInode>, i: nat, ip: DInode, references: map<nat, nat>)
    returns (s: Scan)
    requires |d| == sb.size && |ip.addrs| == NDIRECT + 1
    ensures ScanKids(sb, d, inodes, ip, references, EntryCount(ip), s)
    ensures ScanOk(sb, d, inodes, i, ip, EntryCount(ip), s)
  {
    hide Entry, ScanEntry, EntriesOk, HasEntry;
    s := Scan([], false, 0, references, {}, ip.size % DIRENT == 0);
    ScanStart(sb, d, inodes, i, ip);
    var e := 0;
    while e < EntryCount(ip)
      invariant 0 <= e <= EntryCount(ip)
      invariant ScanKids(sb, d, inodes, ip, references, e, s) && ScanOk(sb, d, inodes, i, ip, e, s)
    {
      ScanKidsNext(sb, d, inodes, i, ip, references, e, s);
      ScanOkNext(sb, d, inodes, i, ip, e, s);
      s := ScanEntry(inodes, i, s, Entry(sb, d, ip, e));
      e := e + 1;
    }
  }

  lemma ScanStart(sb: Super, d: Disk, inodes: map<nat, DInode>, i: nat, ip: DInode)
    requires |d| == sb.size && |ip.addrs| == NDIRECT + 1
    ensures EntriesOk(sb, d, inodes, i, ip, 0)
  {
  }

  // ----- the directory graph of an image -----

  function NodesOf(inodes: map<nat, DInode>): map<nat, T.Node> {
    map i | i in inodes :: T.Node(inodes[i].kind == T_DIR, inodes[i].nlink)
  }

  /** The entries of each directory that name something other than itself and its parent. */
  ghost function EdgesOf(sb: Super, d: Disk, inodes: map<nat, DInode>): T.Edges
    requires |d| == sb.size && forall i :: i in inodes ==> |inodes[i].addrs| == NDIRECT + 1
  {
    map i | i in inodes && inodes[i].kind == T_DIR :: Kids(sb, d, inodes, inodes[i], EntryCount(inodes[i]))
  }

  /** How many such entries, in the directories among the first n inodes, name t. */
  function RefCount(sb: Super, d: Disk, inodes: map<nat, DInode>, inums: seq<nat>, n: nat, t: nat): nat
    requires |d| == sb.size && n <= |inums|
    requires forall i :: i in inums ==> i in inodes && |inodes[i].addrs| == NDIRECT + 1
  {
    if n == 0 then 0
    else
      var ip := inodes[inums[n - 1]];
      RefCount(sb, d, inodes, inums, n - 1, t) +
      if ip.kind == T_DIR then Occurs(Kids(sb, d, inodes, ip, EntryCount(ip)), t) else 0
  }

  /** Directory i is well formed: "." is itself and ".." is p. */
  ghost predicate DirectoryOk(sb: Super, d: Disk, inodes: map<nat, DInode>, i: nat, p: nat)
    requires |d| == sb.size && i in inodes && |inodes[i].addrs| == NDIRECT + 1
  {
    var ip := inodes[i];
    && ip.size % DIRENT == 0 && EntriesOk(sb, d, inodes, i, ip, EntryCount(ip))
    && HasEntry(sb, d, ip, EntryCount(ip), DOT, i) && HasEntry(sb, d, ip, EntryCount(ip), DOTDOT, p)
  }

  ghost predicate Readable(sb: Super, d: Disk, inodes: map<nat, DInode>, inums: seq<nat>) {
    && |d| == sb.size && (forall i :: i in inodes ==> |inodes[i].addrs| == NDIRECT + 1)
    && forall i :: i in inums <==> i in inodes
  }

  /** What the scans of the directories among the first n inodes have gathered. */
  ghost predicate Gathered(sb: Super, d: Disk, inodes: map<nat, DInode>, inums: seq<nat>, n: nat,
                           edges: T.Edges, dots: set<nat>, dotdot: map<nat, nat>, references: map<nat, nat>, ok: bool)
    requires Readable(sb, d, inodes, inums) && n <= |inums|
  {
    && (forall i :: i in edges <==> i in inums[..n] && inodes[i].kind == T_DIR)
    && (forall i :: i in edges ==> edges[i] == Kids(sb, d, inodes, inodes[i], EntryCount(inodes[i])))
    && (forall i :: i in dotdot ==> i in edges && HasEntry(sb, d, inodes[i], EntryCount(inodes[i]), DOTDOT, dotdot[i]))
    && (forall i :: i in edges ==> (i in dotdot <==> HasUsed(sb, d, inodes, inodes[i], EntryCount(inodes[i]), DOTDOT)))
    && (forall i :: i in dots <==> i in edges && HasUsed(sb, d, inodes, inodes[i], EntryCount(inodes[i]), DOT))
    && (forall t :: T.Get(references, t) == RefCount(sb, d, inodes, inums, n, t))
    && (ok <==> forall i :: i in edges ==>
        inodes[i].size % DIRENT == 0 && EntriesOk(sb, d, inodes, i, inodes[i], EntryCount(inodes[i])))
  }

  method ScanAll(sb: Super, d: Disk, inodes: map<nat, DInode>, inums: seq<nat>)
    returns (edges: T.Edges, dots: set<nat>, dotdot: map<nat, nat>, references: map<nat, nat>, ok: bool)
    requires Readable(sb, d, inodes, inums) && forall j, k :: 0 <= j < k < |inums| ==> inums[j] < inums[k]
    ensures Gathered(sb, d, inodes, inums, |inums|, edges, dots, dotdot, references, ok)
  {
    hide Gathered, ScanKids, ScanOk;
    edges, dots, dotdot, references, ok := map[], {}, map[], map[], true;
    GatherStart(sb, d, inodes, inums);
    var k := 0;
    while k < |inums|
      invariant 0 <= k <= |inums| && Gathered(sb, d, inodes, inums, k, edges, dots, dotdot, references, ok)
    {
      var i := inums[k];
      assert i in inodes;
      if inodes[i].kind != T_DIR {
        GatherSkip(sb, d, inodes, inums, k, edges, dots, dotdot, references, ok);
      } else {
        var s := ScanDir(sb, d, inodes, i, inodes[i], references);
        assert i !in inums[..k];
        GatherOne(sb, d, inodes, inums, k, edges, dots, dotdot, references, ok, s);
        edges := edges[i := s.kids];
        dots := if s.dot then dots + {i} else dots;
        dotdot := if s.up != 0 then dotdot[i := s.up] else dotdot;
        references := s.references;
        ok := ok && s.ok;
      }
      k := k + 1;
    }
  }

  lemma GatherStart(sb: Super, d: Disk, inodes: map<nat, DInode>, inums: seq<nat>)
    requires Readable(sb, d, inodes, inums)
    ensures Gathered(sb, d, inodes, inums, 0, map[], {}, map[], map[], true)
  {
  }

  lemma GatherSkip(sb: Super, d: Disk, inodes: map<nat, DInode>, inums: seq<nat>, k: nat,
                   edges: T.Edges, dots: set<nat>, dotdot: map<nat, nat>, references: map<nat, nat>, ok: bool)
    requires Readable(sb, d, inodes, inums) && k < |inums| && inums[k] in inodes && inodes[inums[k]].kind != T_DIR
    requires Gathered(sb, d, inodes, inums, k, edges, dots, dotdot, references, ok)
    ensures Gathered(sb, d, inodes, inums, k + 1, edges, dots, dotdot, references, ok)
  {
    hide Kids, HasEntry, HasUsed, EntriesOk, Occurs, Entry;
    assert inums[..k + 1] == inums[..k] + [inums[k]];
  }

  lemma GatherOne(sb: Super, d: Disk, inodes: map<nat, DInode>, inums: seq<nat>, k: nat,
                  edges: T.Edges, dots: set<nat>, dotdot: map<nat, nat>, references: map<nat, nat>, ok: bool, s: Scan)
    requires Readable(sb, d, inodes, inums) && k < |inums| && inums[k] in inodes && inodes[inums[k]].kind == T_DIR
    requires Gathered(sb, d, inodes, inums, k, edges, dots, dotdot, references, ok)
    requires var ip := inodes[inums[k]];
      ScanKids(sb, d, inodes, ip, references, EntryCount(ip), s)
        && ScanOk(sb, d, inodes, inums[k], ip, EntryCount(ip), s)
    requires inums[k] !in inums[..k]
    ensures var i := inums[k];
      Gathered(sb, d, inodes, inums, k + 1, edges[i := s.kids], if s.dot then dots + {i} else dots,
               if s.up != 0 then dotdot[i := s.up] else dotdot, s.references, ok && s.ok)
  {
    hide Kids, HasEntry, HasUsed, EntriesOk, Occurs, Entry;
    assert inums[..k + 1] == inums[..k] + [inums[k]];
  }

  // ----- the verdict -----

  /** Inode i is linked as its count says; a directory's "." and ".." are itself and its parent. */
  ghost predicate LinksOk(sb: Super, d: Disk, inodes: map<nat, DInode>, inums: seq<nat>, i: nat)
    requires Readable(sb, d, inodes, inums) && i in inodes
  {
    var nodes, edges := NodesOf(inodes), EdgesOf(sb, d, inodes);
    if inodes[i].kind == T_DIR then
      && inodes[i].nlink == 1 + T.DirCount(nodes, T.Names(edges, i))
      && exists p :: T.ParentIs(nodes, edges, i, p) && DirectoryOk(sb, d, inodes, i, p)
    else inodes[i].nlink == RefCount(sb, d, inodes, inums, |inums|, i)
  }

  /**
   A consistent file system: the kernel's block invariant holds for some assignment of
   owners, files have exactly the blocks their sizes need, the directories form one tree and
   link counts are exact.
   */
  ghost predicate ConsistentWith(sb: Super, d: Disk, inodes: map<nat, DInode>, inums: seq<nat>, owner: seq<Owner>) {
    && Good(sb, d) && AllInodes(sb, d, inodes, inums, sb.ninodes) && Sane(sb, d, sb.ninodes)
    && Inv(sb, d, Table(sb, inodes), owner) && NoHoles(sb, d, Table(sb, inodes), owner)
    && Inodes.Readable(d, Table(sb, inodes)) && Trimmed(d, Table(sb, inodes))
    && Readable(sb, d, inodes, inums)
    && T.Tree(NodesOf(inodes), EdgesOf(sb, d, inodes))
    && forall i :: i in inodes ==> LinksOk(sb, d, inodes, inums, i)
  }

  ghost predicate Consistent(sb: Super, d: Disk) {
    exists inodes, inums, owner :: ConsistentWith(sb, d, inodes, inums, owner)
  }

  lemma ReadableOf(sb: Super, d: Disk, inodes: map<nat, DInode>, inums: seq<nat>)
    requires Good(sb, d) && AllInodes(sb, d, inodes, inums, sb.ninodes)
    ensures Readable(sb, d, inodes, inums) && T.NONE !in inodes
  {
  }

  lemma GatheredEdges(sb: Super, d: Disk, inodes: map<nat, DInode>, inums: seq<nat>,
                      edges: T.Edges, dots: set<nat>, dotdot: map<nat, nat>, references: map<nat, nat>, ok: bool)
    requires Readable(sb, d, inodes, inums) && T.NONE !in inodes
    requires Gathered(sb, d, inodes, inums, |inums|, edges, dots, dotdot, references, ok)
    ensures edges == EdgesOf(sb, d, inodes) && T.Graph(NodesOf(inodes), edges)
  {
    hide HasEntry, HasUsed, EntriesOk, Occurs;
    assert inums[..|inums|] == inums;
  }

  /** What the scans and the walk checked of inode i is what links it properly. */
  lemma CheckedLinks(sb: Super, d: Disk, inodes: map<nat, DInode>, inums: seq<nat>,
                     edges: T.Edges, dots: set<nat>, dotdot: map<nat, nat>, references: map<nat, nat>, i: nat)
    requires Readable(sb, d, inodes, inums) && edges == EdgesOf(sb, d, inodes) && i in inodes
    requires Gathered(sb, d, inodes, inums, |inums|, edges, dots, dotdot, references, true)
    ensures T.Checked(NodesOf(inodes), edges, dots, dotdot, references, i) <==> LinksOk(sb, d, inodes, inums, i)
  {
    hide HasEntry, HasUsed, EntriesOk, Occurs, Kids, T.ParentIs;
    if inodes[i].kind == T_DIR {
      assert i in edges;
      assert inodes[i].size % DIRENT == 0 && EntriesOk(sb, d, inodes, i, inodes[i], EntryCount(inodes[i]));
      UsedDots(sb, d, inodes, i, dots, dotdot);
    }
  }

  /** In a directory without diagnostics "." and ".." are found exactly when they are there, and are what they name. */
  lemma UsedDots(sb: Super, d: Disk, inodes: map<nat, DInode>, i: nat, dots: set<nat>, dotdot: map<nat, nat>)
    requires |d| == sb.size && i in inodes && |inodes[i].addrs| == NDIRECT + 1
    requires EntriesOk(sb, d, inodes, i, inodes[i], EntryCount(inodes[i]))
    requires i in dots <==> HasUsed(sb, d, inodes, inodes[i], EntryCount(inodes[i]), DOT)
    requires i in dotdot <==> HasUsed(sb, d, inodes, inodes[i], EntryCount(inodes[i]), DOTDOT)
    requires i in dotdot ==> HasEntry(sb, d, inodes[i], EntryCount(inodes[i]), DOTDOT, dotdot[i])
    ensures i in dots <==> HasEntry(sb, d, inodes[i], EntryCount(inodes[i]), DOT, i)
    ensures forall p :: HasEntry(sb, d, inodes[i], EntryCount(inodes[i]), DOTDOT, p) <==> i in dotdot && dotdot[i] == p
  {
    hide Entry;
    var ip, n := inodes[i], EntryCount(inodes[i]);
    assert forall e :: 0 <= e < n ==> EntryOk(inodes, i, Entry(sb, d, ip, e));
    assert i in dots ==> HasEntry(sb, d, ip, n, DOT, i);
    forall p | HasEntry(sb, d, ip, n, DOTDOT, p)
      ensures i in dotdot && dotdot[i] == p
    {
      var e :| 0 <= e < n && Entry(sb, d, ip, e) == Dirent(p, DOTDOT);
      assert HasUsed(sb, d, inodes, ip, n, DOTDOT);
      var f :| 0 <= f < n && Entry(sb, d, ip, f) == Dirent(dotdot[i], DOTDOT);
      assert e == f;
    }
  }

  ghost predicate Increasing(a: seq<nat>) {
    forall j, k :: 0 <= j < k < |a| ==> a[j] < a[k]
  }

  lemma WithoutLast(a: seq<nat>, x: nat)
    requires Increasing(a) && a != []
    ensures x in a[..|a| - 1] <==> x in a && x != a[|a| - 1]
    ensures x in a ==> x <= a[|a| - 1]
  {
    assert a == a[..|a| - 1] + [a[|a| - 1]];
  }

  lemma {:induction false} SameNumbers(a: seq<nat>, b: seq<nat>)
    requires Increasing(a) && Increasing(b) && forall x :: x in a <==> x in b
    ensures a == b
    decreases |a|
  {
    assert a != [] ==> a[0] in b;
    assert b != [] ==> b[0] in a;
    if a != [] && b != [] {
      var n, m := |a| - 1, |b| - 1;
      LastSame(a, b);
      assert Increasing(a[..n]) && Increasing(b[..m]);
      forall x
        ensures x in a[..n] <==> x in b[..m]
      {
        WithoutLast(a, x);
        WithoutLast(b, x);
      }
      SameNumbers(a[..n], b[..m]);
      assert a == a[..n] + [a[n]] && b == b[..m] + [b[m]];
    }
  }

  lemma LastSame(a: seq<nat>, b: seq<nat>)
    requires Increasing(a) && Increasing(b) && a != [] && b != [] && forall x :: x in a <==> x in b
    ensures a[|a| - 1] == b[|b| - 1]
  {
    assert a[|a| - 1] in b && b[|b| - 1] in a;
    WithoutLast(a, b[|b| - 1]);
    WithoutLast(b, a[|a| - 1]);
  }

  /** The inode table of an image is what it is. */
  lemma SameInodes(sb: Super, d: Disk, inodes: map<nat, DInode>, inums: seq<nat>, inodes': map<nat, DInode>,
                   inums': seq<nat>)
    requires Good(sb, d) && AllInodes(sb, d, inodes, inums, sb.ninodes) && AllInodes(sb, d, inodes', inums', sb.ninodes)
    ensures inodes == inodes' && inums == inums'
  {
    hide InodeAt, InUse;
    assert forall i :: i in inodes <==> i in inodes';
    assert inodes == inodes';
    SameNumbers(inums, inums');
  }

  /** All the diagnostics of a view are absent. */
  ghost predicate NoDiagnostics(sb: Super, d: Disk, inodes: map<nat, DInode>, inums: seq<nat>, owners: Owners,
                                edges: T.Edges, dots: set<nat>, dotdot: map<nat, nat>, references: map<nat, nat>)
  {
    && CleanBlocks(sb, d, inodes, inums, owners) && T.ROOT in inodes && inodes[T.ROOT].kind == T_DIR
    && Readable(sb, d, inodes, inums) && Gathered(sb, d, inodes, inums, |inums|, edges, dots, dotdot, references, true)
    && T.Tree(NodesOf(inodes), edges)
    && forall i :: i in inodes ==> T.Checked(NodesOf(inodes), edges, dots, dotdot, references, i)
  }

  lemma CleanConsistent(sb: Super, d: Disk, inodes: map<nat, DInode>, inums: seq<nat>, owners: Owners, edges: T.Edges,
                        dots: set<nat>, dotdot: map<nat, nat>, references: map<nat, nat>)
    requires NoDiagnostics(sb, d, inodes, inums, owners, edges, dots, dotdot, references)
    requires edges == EdgesOf(sb, d, inodes)
    ensures ConsistentWith(sb, d, inodes, inums, OwnerTable(sb, owners))
  {
    hide AllInodes, OwnersOf, AllBlocksOk, Accounted, Gathered, Inodes.Inv, Inodes.NoHoles, T.Tree, T.Checked, Sane,
      Trimmed, LinksOk;
    CleanInv(sb, d, inodes, inums, owners);
    CleanTrimmed(sb, d, inodes, inums, owners);
    forall i | i in inodes
      ensures LinksOk(sb, d, inodes, inums, i)
    {
      CheckedLinks(sb, d, inodes, inums, edges, dots, dotdot, references, i);
    }
  }

  lemma KeptClean(sb: Super, d: Disk, inodes: map<nat, DInode>, inums: seq<nat>, owner: seq<Owner>, owners: Owners)
    requires Kept(sb, d, inodes, owner) && AllInodes(sb, d, inodes, inums, sb.ninodes) && Sane(sb, d, sb.ninodes)
    requires OwnersOf(sb, d, inodes, inums, |inums|, owners)
    ensures CleanBlocks(sb, d, inodes, inums, owners)
  {
    hide OwnersOf, Accounted, BlocksOk, Sane, InodeAt, Inodes.Inv, Inodes.NoHoles, Trimmed;
    forall j | 0 <= j < |inums|
      ensures inums[j] in inodes && |inodes[inums[j]].addrs| == NDIRECT + 1 && BlocksOk(sb, d, inodes[inums[j]])
    {
      assert inums[j] in inums;
      KeptBlocks(sb, d, inodes, owner, inums[j]);
    }
    forall b | 0 <= b < sb.size
      ensures Accounted(sb, d, owners, b)
    {
      KeptAccounted(sb, d, inodes, inums, owner, owners, b);
    }
  }

  lemma LinkedGathered(sb: Super, d: Disk, inodes: map<nat, DInode>, inums: seq<nat>, edges: T.Edges,
                       dots: set<nat>, dotdot: map<nat, nat>, references: map<nat, nat>, ok: bool)
    requires Readable(sb, d, inodes, inums) && edges == EdgesOf(sb, d, inodes)
    requires forall i :: i in inodes ==> LinksOk(sb, d, inodes, inums, i)
    requires Gathered(sb, d, inodes, inums, |inums|, edges, dots, dotdot, references, ok)
    ensures ok
  {
    hide Kids, HasEntry, HasUsed, EntriesOk, Occurs, LinksOk;
    LinkedEntries(sb, d, inodes, inums);
  }

  lemma ConsistentClean(sb: Super, d: Disk, inodes: map<nat, DInode>, inums: seq<nat>, owner: seq<Owner>,
                        owners: Owners, edges: T.Edges,
                        dots: set<nat>, dotdot: map<nat, nat>, references: map<nat, nat>, ok: bool)
    requires ConsistentWith(sb, d, inodes, inums, owner) && OwnersOf(sb, d, inodes, inums, |inums|, owners)
    requires edges == EdgesOf(sb, d, inodes)
    requires Gathered(sb, d, inodes, inums, |inums|, edges, dots, dotdot, references, ok)
    ensures NoDiagnostics(sb, d, inodes, inums, owners, edges, dots, dotdot, references) && ok
  {
    hide OwnersOf, Sane, LinksOk, AllInodes, Gathered, CleanBlocks, Inodes.Inv, Inodes.NoHoles, Trimmed, T.Tree,
      T.Checked;
    KeptClean(sb, d, inodes, inums, owner, owners);
    LinkedGathered(sb, d, inodes, inums, edges, dots, dotdot, references, ok);
    T.TreeRoot(NodesOf(inodes), edges);
    forall i | i in inodes
      ensures T.Checked(NodesOf(inodes), edges, dots, dotdot, references, i)
    {
      CheckedLinks(sb, d, inodes, inums, edges, dots, dotdot, references, i);
    }
  }

  lemma LinkedEntries(sb: Super, d: Disk, inodes: map<nat, DInode>, inums: seq<nat>)
    requires Readable(sb, d, inodes, inums) && forall i :: i in inodes ==> LinksOk(sb, d, inodes, inums, i)
    ensures forall i :: i in inodes && inodes[i].kind == T_DIR ==>
      inodes[i].size % DIRENT == 0 && EntriesOk(sb, d, inodes, i, inodes[i], EntryCount(inodes[i]))
  {
    hide EntriesOk, HasEntry, Kids, T.ParentIs;
    forall i | i in inodes && inodes[i].kind == T_DIR
      ensures inodes[i].size % DIRENT == 0 && EntriesOk(sb, d, inodes, i, inodes[i], EntryCount(inodes[i]))
    {
      assert LinksOk(sb, d, inodes, inums, i);
    }
  }

  /** inspect_view: a view has no diagnostics exactly when it is a consistent file system. */
  method InspectView(sb: Super, d: Disk) returns (clean: bool)
    requires Good(sb, d)
    ensures clean <==> Consistent(sb, d)
  {
    hide OwnersOf, AllBlocksOk, Accounted, Gathered, Inodes.Inv, Inodes.NoHoles, T.Tree, T.Checked, T.Graph, Sane,
      Trimmed, InodeAt;
    var inodes, inums, ok1 := ParseInodes(sb, d);
    ReadableOf(sb, d, inodes, inums);
    var owners, ok2 := CollectOwners(sb, d, inodes, inums);
    OwnersInside(sb, d, inodes, inums, owners);
    var ok3 := CheckBitmap(sb, d, owners);
    var edges, dots, dotdot, references, ok4 := ScanAll(sb, d, inodes, inums);
    GatheredEdges(sb, d, inodes, inums, edges, dots, dotdot, references, ok4);
    var nodes := NodesOf(inodes);
    var ok5 := T.CheckTree(nodes, inums, edges, dots, dotdot, references);
    clean := ok1 && ok2 && ok3 && ok4 && ok5;
    assert clean <==> ok4 && NoDiagnostics(sb, d, inodes, inums, owners, edges, dots, dotdot, references);
    ViewVerdict(sb, d, inodes, inums, owners, edges, dots, dotdot, references, ok4);
  }

  lemma ViewVerdict(sb: Super, d: Disk, inodes: map<nat, DInode>, inums: seq<nat>, owners: Owners, edges: T.Edges,
                    dots: set<nat>, dotdot: map<nat, nat>, references: map<nat, nat>, ok: bool)
    requires Good(sb, d) && AllInodes(sb, d, inodes, inums, sb.ninodes) && Readable(sb, d, inodes, inums)
    requires OwnersOf(sb, d, inodes, inums, |inums|, owners) && edges == EdgesOf(sb, d, inodes)
    requires Gathered(sb, d, inodes, inums, |inums|, edges, dots, dotdot, references, ok)
    ensures ok && NoDiagnostics(sb, d, inodes, inums, owners, edges, dots, dotdot, references) <==> Consistent(sb, d)
  {
    hide OwnersOf, Gathered, Inodes.Inv, Inodes.NoHoles, T.Tree, Sane, Trimmed, NoDiagnostics, AllInodes;
    if ok && NoDiagnostics(sb, d, inodes, inums, owners, edges, dots, dotdot, references) {
      CleanConsistent(sb, d, inodes, inums, owners, edges, dots, dotdot, references);
    }
    if Consistent(sb, d) {
      var inodes', inums', owner :| ConsistentWith(sb, d, inodes', inums', owner);
      SameInodes(sb, d, inodes, inums, inodes', inums');
      ConsistentClean(sb, d, inodes, inums, owner, owners, edges, dots, dotdot, references, ok);
    }
  }

  lemma OwnersInside(sb: Super, d: Disk, inodes: map<nat, DInode>, inums: seq<nat>, owners: Owners)
    requires |d| == sb.size && OwnersOf(sb, d, inodes, inums, |inums|, owners)
    ensures forall a :: a in owners ==> InRegion(sb, a)
  {
    forall a | a in owners
      ensures InRegion(sb, a)
    {
      assert |owners[a]| >= 1;
      assert Names(sb, d, inodes, owners[a][0].0, owners[a][0].1, a);
    }
  }

  /** The image has a good superblock and a good log, and the kernel's recovery makes it a consistent file system. */
  ghost predicate Recovers(d: Disk, sb: Super) {
    Describes(d, sb) && GoodLog(sb, d) && R.ValidLog(d, LOGSTART) && Consistent(sb, R.Recover(d, LOGSTART))
  }

  /** check_bytes: the exact verdicts on the image and on what the kernel's recovery makes of it. */
  method CheckBytes(d: Disk) returns (clean: bool, rawClean: bool, pending: bool)
    ensures clean <==> exists sb :: Recovers(d, sb)
    ensures rawClean <==> exists sb :: Describes(d, sb) && GoodLog(sb, d) && Consistent(sb, d)
    ensures clean || rawClean ==> R.ValidLog(d, LOGSTART) && (pending <==> R.HeadCount(d[LOGSTART]) != 0)
    ensures rawClean && !pending ==> R.HomeEq(LOGSTART, R.Recover(d, LOGSTART), d)
  {
    hide Consistent, Describes, GoodLog, SuperOk;
    clean, rawClean, pending := false, false, false;
    var g := ParseGeometry(d);
    if g.None? {
      return;
    }
    var sb := g.value;
    var shadow := ParseLog(d, sb);
    if shadow.None? {
      return;
    }
    pending := R.HeadCount(d[LOGSTART]) != 0;
    rawClean := InspectView(sb, d);
    clean := InspectView(sb, shadow.value);
    assert clean <==> Recovers(d, sb);
    forall other | Describes(d, other)
      ensures other == sb
    {
    }
    if !pending {
      R.EmptyLogRecovers(d, LOGSTART);
    }
  }
}
