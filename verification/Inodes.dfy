/**
 Inode contents and block allocation (kernel/fs.c) over the logical disk that the log
 presents: the bitmap allocator, the direct and indirect block maps, and the ownership
 discipline that keeps files apart.
 */
module Inodes {
  import opened Bytes

  const NDIRECT: nat := 12
  const NINDIRECT: nat := 256
  const MAXFILE: nat := NDIRECT + NINDIRECT
  const BPB: nat := 8192 // bitmap bits per block
  const IPB: nat := 16   // inodes per block

  type Disk = seq<Block>

  datatype Super = Super(size: nat, ninodes: nat, inodestart: nat, bmapstart: nat, datastart: nat)

  datatype Inode = Inode(addrs: seq<uint32>, size: uint32)

  /** What each disk block is for. */
  datatype Owner = Free | Meta | Data(inum: nat, bn: nat) | Indirect(inum: nat)

  predicate SuperOk(sb: Super) {
    && sb.size < TWO32
    && sb.inodestart + (sb.ninodes + IPB - 1) / IPB <= sb.bmapstart
    && sb.bmapstart + (sb.size + BPB - 1) / BPB <= sb.datastart <= sb.size
  }

  function IBlock(sb: Super, inum: nat): nat {
    inum / IPB + sb.inodestart
  }

  function BBlock(sb: Super, b: nat): nat {
    b / BPB + sb.bmapstart
  }

  // ----- the bitmap -----

  /** `x & (1 << k)` is nonzero. */
  predicate Bit(x: nat, k: nat) {
    if k == 0 then x % 2 == 1 else Bit(x / 2, k - 1)
  }

  /** `x | 1 << k` or `x & ~(1 << k)`. */
  function WithBit(x: nat, k: nat, on: bool): (r: nat)
    ensures k < 8 && x < 256 ==> r < 256
  {
    WithBitBound(x, k, on);
    PutBit(x, k, on)
  }

  function PutBit(x: nat, k: nat, on: bool): (r: nat) {
    if k == 0 then x - x % 2 + (if on then 1 else 0) else 2 * PutBit(x / 2, k - 1, on) + x % 2
  }

  function Pow2(k: nat): (r: nat) {
    if k == 0 then 1 else 2 * Pow2(k - 1)
  }

  lemma {:induction false} PutBitBound(x: nat, k: nat, on: bool, w: nat)
    requires k < w && x < Pow2(w)
    ensures PutBit(x, k, on) < Pow2(w)
  {
    assert Pow2(w) == 2 * Pow2(w - 1);
    if k > 0 {
      PutBitBound(x / 2, k - 1, on, w - 1);
      var y := PutBit(x / 2, k - 1, on);
      assert PutBit(x, k, on) == 2 * y + x % 2 && y <= Pow2(w - 1) - 1;
    }
  }

  lemma WithBitBound(x: nat, k: nat, on: bool)
    ensures k < 8 && x < 256 ==> PutBit(x, k, on) < 256
  {
    if k < 8 && x < 256 {
      assert Pow2(8) == 256;
      PutBitBound(x, k, on, 8);
    }
  }

  lemma {:induction false} BitOfPutBit(x: nat, k: nat, on: bool, j: nat)
    ensures Bit(PutBit(x, k, on), j) == if j == k then on else Bit(x, j)
  {
    var y := PutBit(x, k, on);
    if k > 0 && j > 0 {
      BitOfPutBit(x / 2, k - 1, on, j - 1);
      assert y / 2 == PutBit(x / 2, k - 1, on);
    } else if j > 0 {
      assert y / 2 == x / 2;
    }
  }

  /** Block b is marked in use in the free map. */
  predicate Marked(sb: Super, d: Disk, b: nat)
    requires SuperOk(sb) && |d| == sb.size && b < sb.size
  {
    Bit(d[BBlock(sb, b)][b % BPB / 8], b % BPB % 8)
  }

  function SetMark(sb: Super, d: Disk, b: nat, on: bool): (r: Disk)
    requires SuperOk(sb) && |d| == sb.size && b < sb.size
    ensures |r| == |d|
  {
    var m := BBlock(sb, b);
    d[m := d[m][b % BPB / 8 := WithBit(d[m][b % BPB / 8], b % BPB % 8, on)]]
  }

  lemma MarkedAfter(sb: Super, d: Disk, b: nat, on: bool, c: nat)
    requires SuperOk(sb) && |d| == sb.size && b < sb.size && c < sb.size
    ensures Marked(sb, SetMark(sb, d, b, on), c) == if b == c then on else Marked(sb, d, c)
  {
    BitOfPutBit(d[BBlock(sb, b)][b % BPB / 8], b % BPB % 8, on, c % BPB % 8);
    if BBlock(sb, b) == BBlock(sb, c) && b % BPB / 8 == c % BPB / 8 && b % BPB % 8 == c % BPB % 8 {
      assert b == c;
    }
  }

  // ----- block maps -----

  predicate InodeOk(sb: Super, ip: Inode) {
    && |ip.addrs| == NDIRECT + 1
    && (forall j :: 0 <= j <= NDIRECT ==> ip.addrs[j] < sb.size)
    && ip.size <= MAXFILE * BSIZE
  }

  /** The address of the file's block bn, 0 if there is none: bmap without allocation. */
  function AddrOf(d: Disk, ip: Inode, bn: nat): (a: uint32)
    requires |ip.addrs| == NDIRECT + 1 && ip.addrs[NDIRECT] < |d| && bn < MAXFILE
  {
    if bn < NDIRECT then ip.addrs[bn]
    else if ip.addrs[NDIRECT] == 0 then 0
    else Word(d[ip.addrs[NDIRECT]], bn - NDIRECT)
  }

  /** Byte k of the file, reading unallocated blocks as zeros. */
  function FileByte(d: Disk, ip: Inode, k: nat): (x: byte)
    requires |ip.addrs| == NDIRECT + 1 && ip.addrs[NDIRECT] < |d| && k < MAXFILE * BSIZE
  {
    var a := AddrOf(d, ip, k / BSIZE);
    if a == 0 || a >= |d| then 0 else d[a][k % BSIZE]
  }

  predicate Shape(sb: Super, d: Disk, inodes: seq<Inode>, owner: seq<Owner>) {
    && SuperOk(sb) && |d| == |owner| == sb.size && |inodes| == sb.ninodes
    && forall i :: 0 <= i < |inodes| ==> InodeOk(sb, inodes[i])
  }

  /** The free map marks exactly the blocks that have an owner; metadata sits in front. */
  predicate BitmapOk(sb: Super, d: Disk, owner: seq<Owner>)
    requires SuperOk(sb) && |d| == |owner| == sb.size
  {
    && (forall b :: 0 <= b < sb.size ==> (Marked(sb, d, b) <==> owner[b] != Free))
    && (forall b :: 0 <= b < sb.size ==> (owner[b] == Meta <==> b < sb.datastart))
  }

  /** Every address an inode names is owned by that inode, for that position. */
  predicate MapOk(sb: Super, d: Disk, inodes: seq<Inode>, owner: seq<Owner>)
    requires Shape(sb, d, inodes, owner)
  {
    && (forall i :: 0 <= i < |inodes| && inodes[i].addrs[NDIRECT] != 0 ==>
          owner[inodes[i].addrs[NDIRECT]] == Indirect(i))
    && (forall i, bn :: 0 <= i < |inodes| && 0 <= bn < MAXFILE && AddrOf(d, inodes[i], bn) != 0 ==>
          AddrOf(d, inodes[i], bn) < sb.size && owner[AddrOf(d, inodes[i], bn)] == Data(i, bn))
  }

  /** Every owned block is named by its owner. */
  predicate NoLeak(sb: Super, d: Disk, inodes: seq<Inode>, owner: seq<Owner>)
    requires Shape(sb, d, inodes, owner)
  {
    && (forall b :: 0 <= b < sb.size && owner[b].Data? ==>
          && owner[b].inum < |inodes| && owner[b].bn < MAXFILE
          && AddrOf(d, inodes[owner[b].inum], owner[b].bn) == b)
    && (forall b :: 0 <= b < sb.size && owner[b].Indirect? ==>
          owner[b].inum < |inodes| && inodes[owner[b].inum].addrs[NDIRECT] == b)
  }

  predicate Inv(sb: Super, d: Disk, inodes: seq<Inode>, owner: seq<Owner>) {
    && Shape(sb, d, inodes, owner)
    && BitmapOk(sb, d, owner)
    && MapOk(sb, d, inodes, owner)
    && NoLeak(sb, d, inodes, owner)
  }

  /** Files have no holes below their size. */
  predicate NoHoles(sb: Super, d: Disk, inodes: seq<Inode>, owner: seq<Owner>)
    requires Shape(sb, d, inodes, owner)
  {
    forall i, bn :: 0 <= i < |inodes| && 0 <= bn < MAXFILE && bn * BSIZE < inodes[i].size ==>
      AddrOf(d, inodes[i], bn) != 0
  }

  predicate Readable(d: Disk, inodes: seq<Inode>) {
    forall i :: 0 <= i < |inodes| ==> |inodes[i].addrs| == NDIRECT + 1 && inodes[i].addrs[NDIRECT] < |d|
  }

  /** No byte of any file differs, nor any size. */
  predicate SameFiles(d: Disk, inodes: seq<Inode>, d': Disk, inodes': seq<Inode>)
    requires Readable(d, inodes) && Readable(d', inodes')
  {
    && |inodes| == |inodes'|
    && (forall i :: 0 <= i < |inodes| ==> inodes[i].size == inodes'[i].size)
    && (forall i, k :: 0 <= i < |inodes| && 0 <= k < MAXFILE * BSIZE ==>
          FileByte(d', inodes'[i], k) == FileByte(d, inodes[i], k))
  }

  // ----- allocation -----

  /** The disk after balloc returned b: marked and zeroed. */
  function Allocated(sb: Super, d: Disk, b: nat): (r: Disk)
    requires SuperOk(sb) && |d| == sb.size && b < sb.size
    ensures |r| == |d|
  {
    SetMark(sb, d, b, true)[b := ZeroBlock()]
  }

  /** Blocks that belong to files are untouched. */
  predicate KeepsOwned(d: Disk, d': Disk, owner: seq<Owner>) {
    |d| == |d'| == |owner| && forall b :: 0 <= b < |d| && (owner[b].Data? || owner[b].Indirect?) ==> d'[b] == d[b]
  }

  lemma AllocatedBitmap(sb: Super, d: Disk, owner: seq<Owner>, b: nat, who: Owner)
    requires SuperOk(sb) && |d| == |owner| == sb.size && BitmapOk(sb, d, owner)
    requires b < sb.size && owner[b] == Free && (who.Data? || who.Indirect?)
    ensures BitmapOk(sb, Allocated(sb, d, b), owner[b := who])
    ensures KeepsOwned(d, Allocated(sb, d, b), owner)
    ensures b != 0 && Allocated(sb, d, b)[b] == ZeroBlock()
  {
    var d1 := SetMark(sb, d, b, true);
    assert owner[BBlock(sb, b)] == Meta;
    forall c | 0 <= c < sb.size ensures Marked(sb, Allocated(sb, d, b), c) <==> owner[b := who][c] != Free {
      MarkedAfter(sb, d, b, true, c);
      assert owner[BBlock(sb, c)] == Meta;
      assert Marked(sb, Allocated(sb, d, b), c) == Marked(sb, d1, c);
    }
  }

  lemma ZeroWords(j: nat)
    requires j < NINDIRECT
    ensures Word(ZeroBlock(), j) == 0
  {
  }

  /** An unchanged indirect block means unchanged addresses. */
  lemma AddrsKept(sb: Super, d: Disk, d': Disk, inodes: seq<Inode>, owner: seq<Owner>, i: nat, bn: nat)
    requires Shape(sb, d, inodes, owner) && MapOk(sb, d, inodes, owner) && KeepsOwned(d, d', owner)
    requires i < |inodes| && bn < MAXFILE
    ensures AddrOf(d', inodes[i], bn) == AddrOf(d, inodes[i], bn)
  {
  }

  lemma BytesKept(sb: Super, d: Disk, d': Disk, inodes: seq<Inode>, owner: seq<Owner>, i: nat, k: nat)
    requires Shape(sb, d, inodes, owner) && MapOk(sb, d, inodes, owner) && KeepsOwned(d, d', owner)
    requires i < |inodes| && k < MAXFILE * BSIZE
    ensures FileByte(d', inodes[i], k) == FileByte(d, inodes[i], k)
  {
    AddrsKept(sb, d, d', inodes, owner, i, k / BSIZE);
  }

  /** Blocks only ever gain addresses: what a position named, it still names. */
  predicate AddrsGrow(d: Disk, inodes: seq<Inode>, d': Disk, inodes': seq<Inode>)
    requires Readable(d, inodes) && Readable(d', inodes')
  {
    && |inodes| == |inodes'|
    && (forall i :: 0 <= i < |inodes| && inodes[i].addrs[NDIRECT] != 0 ==>
          inodes'[i].addrs[NDIRECT] == inodes[i].addrs[NDIRECT])
    && (forall i, bn :: 0 <= i < |inodes| && 0 <= bn < MAXFILE && AddrOf(d, inodes[i], bn) != 0 ==>
          AddrOf(d', inodes'[i], bn) == AddrOf(d, inodes[i], bn))
  }

  /** A state with the same files, in which addresses were only added. */
  predicate Grown(sb: Super, d: Disk, inodes: seq<Inode>, d': Disk, inodes': seq<Inode>, owner': seq<Owner>) {
    && Readable(d, inodes)
    && Inv(sb, d', inodes', owner')
    && SameFiles(d, inodes, d', inodes')
    && AddrsGrow(d, inodes, d', inodes')
  }

  function WithAddr(ip: Inode, j: nat, a: uint32): (r: Inode)
    requires j < |ip.addrs|
  {
    ip.(addrs := ip.addrs[j := a])
  }

  /** Exactly the address at (i, bn) is new, and it is b. */
  predicate OneNewAddr(sb: Super, d: Disk, inodes: seq<Inode>, d': Disk, inodes': seq<Inode>, i: nat, bn: nat,
                       b: uint32)
  {
    && Readable(d, inodes) && Readable(d', inodes') && |inodes| == |inodes'|
    && (forall x :: 0 <= x < |inodes| ==>
          InodeOk(sb, inodes'[x]) && inodes[x].size == inodes'[x].size
            && inodes[x].addrs[NDIRECT] == inodes'[x].addrs[NDIRECT])
    && (forall x, y :: 0 <= x < |inodes| && 0 <= y < MAXFILE ==>
          AddrOf(d', inodes'[x], y) == if x == i && y == bn then b else AddrOf(d, inodes[x], y))
  }

  /** Data blocks are untouched. */
  predicate KeepsData(d: Disk, d': Disk, owner: seq<Owner>) {
    |d| == |d'| == |owner| && forall b :: 0 <= b < |d| && owner[b].Data? ==> d'[b] == d[b]
  }

  lemma NewAddrInv(sb: Super, d: Disk, inodes: seq<Inode>, owner: seq<Owner>, d': Disk, inodes': seq<Inode>, i: nat,
                   bn: nat, b: uint32)
    requires Inv(sb, d, inodes, owner) && OneNewAddr(sb, d, inodes, d', inodes', i, bn, b) && |d'| == |d|
    requires i < |inodes| && bn < MAXFILE && AddrOf(d, inodes[i], bn) == 0
    requires 0 != b < sb.size && owner[b] == Free
    requires BitmapOk(sb, d', owner[b := Data(i, bn)])
    ensures Inv(sb, d', inodes', owner[b := Data(i, bn)])
  {
    var owner' := owner[b := Data(i, bn)];
    assert MapOk(sb, d', inodes', owner');
    assert NoLeak(sb, d', inodes', owner');
  }

  lemma NewAddrBytes(sb: Super, d: Disk, inodes: seq<Inode>, owner: seq<Owner>, d': Disk, inodes': seq<Inode>, i: nat,
                     bn: nat, b: uint32)
    requires Shape(sb, d, inodes, owner) && MapOk(sb, d, inodes, owner)
    requires OneNewAddr(sb, d, inodes, d', inodes', i, bn, b) && KeepsData(d, d', owner)
    requires i < |inodes| && bn < MAXFILE && AddrOf(d, inodes[i], bn) == 0
    requires b < sb.size && d'[b] == ZeroBlock()
    ensures SameFiles(d, inodes, d', inodes') && AddrsGrow(d, inodes, d', inodes')
  {
    forall x, k | 0 <= x < |inodes| && 0 <= k < MAXFILE * BSIZE
      ensures FileByte(d', inodes'[x], k) == FileByte(d, inodes[x], k)
    {
      var a := AddrOf(d, inodes[x], k / BSIZE);
      assert AddrOf(d', inodes'[x], k / BSIZE) == if x == i && k / BSIZE == bn then b else a;
    }
  }

  /** bmap gives a new block to direct slot bn. */
  lemma DirectAlloc(sb: Super, d: Disk, inodes: seq<Inode>, owner: seq<Owner>, i: nat, bn: nat, b: uint32)
    requires Inv(sb, d, inodes, owner) && i < |inodes| && bn < NDIRECT && inodes[i].addrs[bn] == 0
    requires b < sb.size && owner[b] == Free
    ensures Grown(sb, d, inodes, Allocated(sb, d, b), inodes[i := WithAddr(inodes[i], bn, b)], owner[b := Data(i, bn)])
  {
    var d', inodes' := Allocated(sb, d, b), inodes[i := WithAddr(inodes[i], bn, b)];
    AllocatedBitmap(sb, d, owner, b, Data(i, bn));
    forall x, y | 0 <= x < |inodes| && 0 <= y < MAXFILE
      ensures AddrOf(d', inodes'[x], y) == if x == i && y == bn then b else AddrOf(d, inodes[x], y)
    {
      AddrsKept(sb, d, d', inodes, owner, x, y);
    }
    NewAddrInv(sb, d, inodes, owner, d', inodes', i, bn, b);
    NewAddrBytes(sb, d, inodes, owner, d', inodes', i, bn, b);
  }

  /** bmap gives the inode a new, empty indirect block. */
  lemma IndirectAlloc(sb: Super, d: Disk, inodes: seq<Inode>, owner: seq<Owner>, i: nat, b: uint32)
    requires Inv(sb, d, inodes, owner) && i < |inodes| && inodes[i].addrs[NDIRECT] == 0
    requires b < sb.size && owner[b] == Free
    ensures Grown(sb, d, inodes, Allocated(sb, d, b), inodes[i := WithAddr(inodes[i], NDIRECT, b)],
                  owner[b := Indirect(i)])
  {
    hide BitmapOk, NoLeak, SameFiles, AddrsGrow, Marked;
    var d', inodes', owner' := Allocated(sb, d, b), inodes[i := WithAddr(inodes[i], NDIRECT, b)],
      owner[b := Indirect(i)];
    AllocatedBitmap(sb, d, owner, b, Indirect(i));
    forall x, y | 0 <= x < |inodes| && 0 <= y < MAXFILE
      ensures AddrOf(d', inodes'[x], y) == AddrOf(d, inodes[x], y)
    {
      if x == i && y >= NDIRECT {
        ZeroWords(y - NDIRECT);
      } else {
        AddrsKept(sb, d, d', inodes, owner, x, y);
      }
    }
    BlockZero(sb, d, owner);
    IndirectNew(sb, d, inodes, owner, i, b, d', inodes', owner');
    SameAddrsSameFiles(sb, d, inodes, owner, d', inodes');
  }

  lemma BlockZero(sb: Super, d: Disk, owner: seq<Owner>)
    requires SuperOk(sb) && |d| == |owner| == sb.size && BitmapOk(sb, d, owner) && sb.size > 0
    ensures owner[0] == Meta
  {
  }

  lemma IndirectNew(sb: Super, d: Disk, inodes: seq<Inode>, owner: seq<Owner>, i: nat, b: uint32,
                    d': Disk, inodes': seq<Inode>, owner': seq<Owner>)
    requires Shape(sb, d, inodes, owner) && MapOk(sb, d, inodes, owner) && NoLeak(sb, d, inodes, owner)
    requires i < |inodes| && inodes[i].addrs[NDIRECT] == 0 && 0 < b < sb.size && owner[b] == Free && |d'| == |d|
    requires owner[0] == Meta
    requires inodes' == inodes[i := WithAddr(inodes[i], NDIRECT, b)] && owner' == owner[b := Indirect(i)]
    requires forall x, y :: 0 <= x < |inodes| && 0 <= y < MAXFILE ==>
      AddrOf(d', inodes'[x], y) == AddrOf(d, inodes[x], y)
    ensures Shape(sb, d', inodes', owner') && MapOk(sb, d', inodes', owner') && NoLeak(sb, d', inodes', owner')
    ensures AddrsGrow(d, inodes, d', inodes')
  {
    hide AddrOf;
  }

  lemma SameAddrsSameFiles(sb: Super, d: Disk, inodes: seq<Inode>, owner: seq<Owner>, d': Disk, inodes': seq<Inode>)
    requires Shape(sb, d, inodes, owner) && MapOk(sb, d, inodes, owner) && KeepsOwned(d, d', owner)
    requires |inodes'| == |inodes| && Readable(d', inodes')
    requires forall x :: 0 <= x < |inodes| ==> inodes'[x].size == inodes[x].size
    requires forall x, y :: 0 <= x < |inodes| && 0 <= y < MAXFILE ==>
      AddrOf(d', inodes'[x], y) == AddrOf(d, inodes[x], y)
    ensures Readable(d, inodes) && SameFiles(d, inodes, d', inodes')
  {
    hide AddrOf;
    forall x, k | 0 <= x < |inodes| && 0 <= k < MAXFILE * BSIZE
      ensures FileByte(d', inodes'[x], k) == FileByte(d, inodes[x], k)
    {
      assert AddrOf(d', inodes'[x], k / BSIZE) == AddrOf(d, inodes[x], k / BSIZE);
    }
  }

  function WithEntry(d: Disk, ind: nat, j: nat, a: uint32): (r: Disk)
    requires ind < |d| && j < NINDIRECT
  {
    d[ind := SetWord(d[ind], j, a)]
  }

  /** Storing entry j of an indirect block changes that one address. */
  lemma EntrySet(sb: Super, d: Disk, inodes: seq<Inode>, owner: seq<Owner>, i: nat, j: nat, d1: Disk, v: uint32)
    requires Shape(sb, d, inodes, owner) && MapOk(sb, d, inodes, owner) && KeepsOwned(d, d1, owner)
    requires i < |inodes| && j < NINDIRECT && inodes[i].addrs[NDIRECT] != 0
    ensures var d' := WithEntry(d1, inodes[i].addrs[NDIRECT], j, v);
      forall x, y :: 0 <= x < |inodes| && 0 <= y < MAXFILE ==>
        AddrOf(d', inodes[x], y) == if x == i && y == NDIRECT + j then v else AddrOf(d, inodes[x], y)
  {
    var ind := inodes[i].addrs[NDIRECT];
    var d' := WithEntry(d1, ind, j, v);
    assert owner[ind] == Indirect(i);
    forall x, y | 0 <= x < |inodes| && 0 <= y < MAXFILE
      ensures AddrOf(d', inodes[x], y) == if x == i && y == NDIRECT + j then v else AddrOf(d, inodes[x], y)
    {
      AddrsKept(sb, d, d1, inodes, owner, x, y);
      if x == i && y >= NDIRECT {
        WordOfSetWord(d1[ind], j, v, y - NDIRECT);
      }
    }
  }

  /** The free map does not see changes to file blocks. */
  lemma BitmapKept(sb: Super, d: Disk, owner: seq<Owner>, b: nat, blk: Block)
    requires SuperOk(sb) && |d| == |owner| == sb.size && BitmapOk(sb, d, owner) && b < sb.size && owner[b] != Meta
    ensures BitmapOk(sb, d[b := blk], owner)
  {
    forall c | 0 <= c < sb.size ensures Marked(sb, d[b := blk], c) == Marked(sb, d, c) {
      assert owner[BBlock(sb, c)] == Meta;
    }
  }

  /** bmap gives a new block to entry j of the indirect block. */
  lemma EntryAlloc(sb: Super, d: Disk, inodes: seq<Inode>, owner: seq<Owner>, i: nat, j: nat, b: uint32)
    requires Inv(sb, d, inodes, owner) && i < |inodes| && j < NINDIRECT
    requires inodes[i].addrs[NDIRECT] != 0 && AddrOf(d, inodes[i], NDIRECT + j) == 0
    requires b < sb.size && owner[b] == Free
    ensures var d' := WithEntry(Allocated(sb, d, b), inodes[i].addrs[NDIRECT], j, b);
      Grown(sb, d, inodes, d', inodes, owner[b := Data(i, NDIRECT + j)])
  {
    var ind, bn := inodes[i].addrs[NDIRECT], NDIRECT + j;
    var d1, owner' := Allocated(sb, d, b), owner[b := Data(i, bn)];
    var d' := WithEntry(d1, ind, j, b);
    AllocatedBitmap(sb, d, owner, b, Data(i, bn));
    BitmapKept(sb, d1, owner', ind, SetWord(d1[ind], j, b));
    EntrySet(sb, d, inodes, owner, i, j, d1, b);
    hide BitmapOk, NoLeak, SameFiles, AddrsGrow;
    NewAddrInv(sb, d, inodes, owner, d', inodes, i, bn, b);
    NewAddrBytes(sb, d, inodes, owner, d', inodes, i, bn, b);
  }

  // ----- writing file data -----

  /** One file block replaced: ownership and every address stay. */
  lemma DataWrite(sb: Super, d: Disk, inodes: seq<Inode>, owner: seq<Owner>, i: nat, bn: nat, blk: Block)
    requires Inv(sb, d, inodes, owner) && i < |inodes| && bn < MAXFILE && AddrOf(d, inodes[i], bn) != 0
    ensures AddrOf(d, inodes[i], bn) < sb.size
    ensures var d' := d[AddrOf(d, inodes[i], bn) := blk];
      && Inv(sb, d', inodes, owner)
      && (forall x, y :: 0 <= x < |inodes| && 0 <= y < MAXFILE ==> AddrOf(d', inodes[x], y) == AddrOf(d, inodes[x], y))
  {
    var a := AddrOf(d, inodes[i], bn);
    var d' := d[a := blk];
    assert owner[a] == Data(i, bn);
    forall x, y | 0 <= x < |inodes| && 0 <= y < MAXFILE ensures AddrOf(d', inodes[x], y) == AddrOf(d, inodes[x], y) {
      if inodes[x].addrs[NDIRECT] != 0 {
        assert owner[inodes[x].addrs[NDIRECT]] == Indirect(x);
      }
    }
    BitmapKept(sb, d, owner, a, blk);
  }

  /** One file block replaced: only that block of that file reads differently. */
  lemma DataWriteByte(sb: Super, d: Disk, inodes: seq<Inode>, owner: seq<Owner>, i: nat, bn: nat, blk: Block, x: nat,
                      k: nat)
    requires Inv(sb, d, inodes, owner) && i < |inodes| && bn < MAXFILE && AddrOf(d, inodes[i], bn) != 0
    requires x < |inodes| && k < MAXFILE * BSIZE
    ensures AddrOf(d, inodes[i], bn) < sb.size
    ensures FileByte(d[AddrOf(d, inodes[i], bn) := blk], inodes[x], k) ==
      if x == i && k / BSIZE == bn then blk[k % BSIZE] else FileByte(d, inodes[x], k)
  {
    DataWrite(sb, d, inodes, owner, i, bn, blk);
    var a, e := AddrOf(d, inodes[i], bn), AddrOf(d, inodes[x], k / BSIZE);
    assert owner[a] == Data(i, bn);
    assert e != 0 ==> owner[e] == Data(x, k / BSIZE);
    assert AddrOf(d[a := blk], inodes[x], k / BSIZE) == e;
  }

  /** Bytes [o, o + |s|) of a block replaced by s. */
  function Patch(blk: Block, o: nat, s: seq<byte>): (r: Block)
    requires o + |s| <= BSIZE
  {
    blk[..o] + s + blk[o + |s|..]
  }

  /** File i shows s at offset off over what it showed before; no other file differs. */
  predicate Shows(d0: Disk, inodes0: seq<Inode>, d: Disk, inodes: seq<Inode>, i: nat, off: nat, s: seq<byte>)
    requires Readable(d0, inodes0) && Readable(d, inodes)
  {
    && |inodes| == |inodes0| && i < |inodes| && off + |s| <= MAXFILE * BSIZE
    && (forall x :: 0 <= x < |inodes| ==> inodes[x].size == inodes0[x].size)
    && (forall x, k :: 0 <= x < |inodes| && 0 <= k < MAXFILE * BSIZE ==>
          FileByte(d, inodes[x], k) == if x == i && off <= k < off + |s| then s[k - off]
            else FileByte(d0, inodes0[x], k))
  }

  /** Every position of [off, end) of file i has a block. */
  predicate Backed(d: Disk, inodes: seq<Inode>, i: nat, off: nat, end: nat)
    requires Readable(d, inodes) && i < |inodes| && end <= MAXFILE * BSIZE
  {
    forall k :: off <= k < end ==> AddrOf(d, inodes[i], k / BSIZE) != 0
  }

  /** The state of writei's loop after tot bytes. */
  predicate WriteProgress(sb: Super, d0: Disk, inodes0: seq<Inode>, d: Disk, inodes: seq<Inode>, owner: seq<Owner>,
                          i: nat, off: nat, s: seq<byte>)
  {
    && Readable(d0, inodes0)
    && Inv(sb, d, inodes, owner)
    && AddrsGrow(d0, inodes0, d, inodes)
    && Shows(d0, inodes0, d, inodes, i, off, s)
    && Backed(d, inodes, i, off, off + |s|)
  }

  lemma ProgressStart(sb: Super, d: Disk, inodes: seq<Inode>, owner: seq<Owner>, i: nat, off: nat)
    requires Inv(sb, d, inodes, owner) && i < |inodes| && off <= MAXFILE * BSIZE
    ensures WriteProgress(sb, d, inodes, d, inodes, owner, i, off, [])
  {
  }

  /** bmap keeps the progress of a write. */
  lemma ProgressGrown(sb: Super, d0: Disk, inodes0: seq<Inode>, d: Disk, inodes: seq<Inode>, owner: seq<Owner>,
                      i: nat, off: nat, s: seq<byte>, d': Disk, inodes': seq<Inode>, owner': seq<Owner>)
    requires WriteProgress(sb, d0, inodes0, d, inodes, owner, i, off, s)
    requires Grown(sb, d, inodes, d', inodes', owner')
    ensures WriteProgress(sb, d0, inodes0, d', inodes', owner', i, off, s)
  {
    forall x, bn | 0 <= x < |inodes0| && 0 <= bn < MAXFILE && AddrOf(d0, inodes0[x], bn) != 0
      ensures AddrOf(d', inodes'[x], bn) == AddrOf(d0, inodes0[x], bn)
    {
      assert AddrOf(d, inodes[x], bn) == AddrOf(d0, inodes0[x], bn);
    }
    forall k | off <= k < off + |s| ensures AddrOf(d', inodes'[i], k / BSIZE) != 0 {
      assert AddrOf(d, inodes[i], k / BSIZE) != 0;
    }
    forall x, k | 0 <= x < |inodes| && 0 <= k < MAXFILE * BSIZE
      ensures FileByte(d', inodes'[x], k) == FileByte(d, inodes[x], k)
    {
    }
  }

  /** One byte of one file after the next chunk. */
  lemma ChunkShows(sb: Super, d: Disk, inodes: seq<Inode>, owner: seq<Owner>, i: nat, p: nat, chunk: seq<byte>, x: nat,
                   k: nat)
    requires Inv(sb, d, inodes, owner) && i < |inodes| && x < |inodes| && k < MAXFILE * BSIZE
    requires p + |chunk| <= MAXFILE * BSIZE && p % BSIZE + |chunk| <= BSIZE && |chunk| > 0
    requires AddrOf(d, inodes[i], p / BSIZE) != 0
    ensures var a := AddrOf(d, inodes[i], p / BSIZE);
      && a < |d|
      && FileByte(d[a := Patch(d[a], p % BSIZE, chunk)], inodes[x], k) ==
           if x == i && p <= k < p + |chunk| then chunk[k - p] else FileByte(d, inodes[x], k)
  {
    hide BitmapOk, MapOk, NoLeak;
    var a := AddrOf(d, inodes[i], p / BSIZE);
    DataWrite(sb, d, inodes, owner, i, p / BSIZE, ZeroBlock());
    DataWriteByte(sb, d, inodes, owner, i, p / BSIZE, Patch(d[a], p % BSIZE, chunk), x, k);
    ChunkByte(p, |chunk|, k);
  }

  lemma ChunkBacked(d: Disk, d': Disk, inodes: seq<Inode>, i: nat, off: nat, p: nat, m: nat)
    requires Readable(d, inodes) && Readable(d', inodes) && i < |inodes| && off <= p && p + m <= MAXFILE * BSIZE
    requires p % BSIZE + m <= BSIZE
    requires Backed(d, inodes, i, off, p) && (m > 0 ==> AddrOf(d, inodes[i], p / BSIZE) != 0)
    requires forall y :: 0 <= y < MAXFILE ==> AddrOf(d', inodes[i], y) == AddrOf(d, inodes[i], y)
    ensures Backed(d', inodes, i, off, p + m)
  {
    forall k | off <= k < p + m ensures AddrOf(d', inodes[i], k / BSIZE) != 0 {
      if k >= p {
        ChunkByte(p, m, k);
      } else {
        assert AddrOf(d, inodes[i], k / BSIZE) != 0;
      }
    }
  }

  /** Copying the next chunk into the current block advances the write. */
  lemma ProgressChunk(sb: Super, d0: Disk, inodes0: seq<Inode>, d: Disk, inodes: seq<Inode>, owner: seq<Owner>,
                      i: nat, off: nat, s: seq<byte>, chunk: seq<byte>)
    requires WriteProgress(sb, d0, inodes0, d, inodes, owner, i, off, s)
    requires off + |s| + |chunk| <= MAXFILE * BSIZE && (off + |s|) % BSIZE + |chunk| <= BSIZE && |chunk| > 0
    requires AddrOf(d, inodes[i], (off + |s|) / BSIZE) != 0
    ensures var a := AddrOf(d, inodes[i], (off + |s|) / BSIZE);
      && a < sb.size
      && WriteProgress(sb, d0, inodes0, d[a := Patch(d[a], (off + |s|) % BSIZE, chunk)], inodes, owner, i, off,
                       s + chunk)
  {
    hide BitmapOk, MapOk, NoLeak, Backed;
    var p := off + |s|;
    var a := AddrOf(d, inodes[i], p / BSIZE);
    DataWrite(sb, d, inodes, owner, i, p / BSIZE, ZeroBlock());
    var blk := Patch(d[a], p % BSIZE, chunk);
    DataWrite(sb, d, inodes, owner, i, p / BSIZE, blk);
    var d' := d[a := blk];
    forall x, k | 0 <= x < |inodes| && 0 <= k < MAXFILE * BSIZE
      ensures FileByte(d', inodes[x], k) ==
        if x == i && off <= k < p + |chunk| then (s + chunk)[k - off] else FileByte(d0, inodes0[x], k)
    {
      ChunkShows(sb, d, inodes, owner, i, p, chunk, x, k);
      assert FileByte(d, inodes[x], k) == if x == i && off <= k < p then s[k - off] else FileByte(d0, inodes0[x], k);
    }
    ChunkBacked(d, d', inodes, i, off, p, |chunk|);
    assert AddrsGrow(d0, inodes0, d', inodes);
  }

  /** A chunk that does not leave its block: which bytes it covers. */
  lemma ChunkByte(p: nat, m: nat, k: nat)
    requires p % BSIZE + m <= BSIZE
    ensures p <= k < p + m ==> k / BSIZE == p / BSIZE
    ensures k / BSIZE == p / BSIZE ==> (p <= k < p + m <==> p % BSIZE <= k % BSIZE < p % BSIZE + m)
    ensures k / BSIZE == p / BSIZE ==> k - p == k % BSIZE - p % BSIZE
  {
  }

  // ----- freeing -----

  lemma FreedBitmap(sb: Super, d: Disk, owner: seq<Owner>, b: nat)
    requires SuperOk(sb) && |d| == |owner| == sb.size && BitmapOk(sb, d, owner)
    requires b < sb.size && (owner[b].Data? || owner[b].Indirect?)
    ensures BitmapOk(sb, SetMark(sb, d, b, false), owner[b := Free])
    ensures KeepsOwned(d, SetMark(sb, d, b, false), owner)
    ensures Marked(sb, d, b)
  {
    assert owner[BBlock(sb, b)] == Meta;
    forall c | 0 <= c < sb.size ensures Marked(sb, SetMark(sb, d, b, false), c) <==> owner[b := Free][c] != Free {
      MarkedAfter(sb, d, b, false, c);
    }
  }

  /** Exactly the address at (i, bn) is gone. */
  predicate OneLostAddr(sb: Super, d: Disk, inodes: seq<Inode>, d': Disk, inodes': seq<Inode>, i: nat, bn: nat) {
    && Readable(d, inodes) && Readable(d', inodes') && |inodes| == |inodes'|
    && (forall x :: 0 <= x < |inodes| ==>
          InodeOk(sb, inodes'[x]) && inodes[x].addrs[NDIRECT] == inodes'[x].addrs[NDIRECT])
    && (forall x, y :: 0 <= x < |inodes| && 0 <= y < MAXFILE ==>
          AddrOf(d', inodes'[x], y) == if x == i && y == bn then 0 else AddrOf(d, inodes[x], y))
  }

  lemma LostAddrInv(sb: Super, d: Disk, inodes: seq<Inode>, owner: seq<Owner>, d': Disk, inodes': seq<Inode>, i: nat,
                    bn: nat)
    requires Inv(sb, d, inodes, owner) && OneLostAddr(sb, d, inodes, d', inodes', i, bn) && |d'| == |d|
    requires i < |inodes| && bn < MAXFILE && AddrOf(d, inodes[i], bn) != 0
    requires BitmapOk(sb, d', owner[AddrOf(d, inodes[i], bn) := Free])
    ensures Inv(sb, d', inodes', owner[AddrOf(d, inodes[i], bn) := Free])
  {
    var owner' := owner[AddrOf(d, inodes[i], bn) := Free];
    assert MapOk(sb, d', inodes', owner');
    assert NoLeak(sb, d', inodes', owner');
  }

  /** No other inode, and no byte of another file, differs. */
  predicate OthersSame(d: Disk, inodes: seq<Inode>, d': Disk, inodes': seq<Inode>, i: nat)
    requires Readable(d, inodes) && Readable(d', inodes')
  {
    && |inodes| == |inodes'|
    && forall x :: 0 <= x < |inodes| && x != i ==> SameFile(d, inodes[x], d', inodes'[x])
  }

  predicate SameFile(d: Disk, ip: Inode, d': Disk, ip': Inode)
    requires |ip.addrs| == |ip'.addrs| == NDIRECT + 1 && ip.addrs[NDIRECT] < |d| && ip'.addrs[NDIRECT] < |d'|
  {
    ip == ip' && forall k :: 0 <= k < MAXFILE * BSIZE ==> FileByte(d', ip', k) == FileByte(d, ip, k)
  }

  lemma OthersKept(sb: Super, d: Disk, inodes: seq<Inode>, owner: seq<Owner>, d': Disk, inodes': seq<Inode>, i: nat)
    requires Shape(sb, d, inodes, owner) && MapOk(sb, d, inodes, owner)
    requires Readable(d', inodes') && |d'| == |d| && |inodes| == |inodes'|
    requires forall x :: 0 <= x < |inodes| && x != i ==> inodes'[x] == inodes[x]
    requires forall b :: 0 <= b < |d| && OwnedByOther(owner[b], i) ==> d'[b] == d[b]
    ensures OthersSame(d, inodes, d', inodes', i)
  {
    forall x, k | 0 <= x < |inodes| && x != i && 0 <= k < MAXFILE * BSIZE
      ensures FileByte(d', inodes'[x], k) == FileByte(d, inodes[x], k)
    {
      assert inodes[x].addrs[NDIRECT] != 0 ==> owner[inodes[x].addrs[NDIRECT]] == Indirect(x);
      var a := AddrOf(d, inodes[x], k / BSIZE);
      assert a != 0 ==> owner[a] == Data(x, k / BSIZE);
    }
  }

  predicate OwnedByOther(o: Owner, i: nat) {
    (o.Data? || o.Indirect?) && o.inum != i
  }

  /** itrunc frees direct block bn. */
  lemma DirectFree(sb: Super, d: Disk, inodes: seq<Inode>, owner: seq<Owner>, i: nat, bn: nat)
    requires Inv(sb, d, inodes, owner) && i < |inodes| && bn < NDIRECT && inodes[i].addrs[bn] != 0
    ensures var b := inodes[i].addrs[bn];
      && Marked(sb, d, b) && owner[b] == Data(i, bn)
      && Inv(sb, SetMark(sb, d, b, false), inodes[i := WithAddr(inodes[i], bn, 0)], owner[b := Free])
      && OthersSame(d, inodes, SetMark(sb, d, b, false), inodes[i := WithAddr(inodes[i], bn, 0)], i)
  {
    var b := inodes[i].addrs[bn];
    assert AddrOf(d, inodes[i], bn) == b;
    var d', inodes' := SetMark(sb, d, b, false), inodes[i := WithAddr(inodes[i], bn, 0)];
    FreedBitmap(sb, d, owner, b);
    forall x, y | 0 <= x < |inodes| && 0 <= y < MAXFILE
      ensures AddrOf(d', inodes'[x], y) == if x == i && y == bn then 0 else AddrOf(d, inodes[x], y)
    {
      AddrsKept(sb, d, d', inodes, owner, x, y);
    }
    LostAddrInv(sb, d, inodes, owner, d', inodes', i, bn);
    OthersKept(sb, d, inodes, owner, d', inodes', i);
  }

  /** itrunc frees the block of indirect entry j, entry counted as cleared. */
  lemma AddrOwner(sb: Super, d: Disk, inodes: seq<Inode>, owner: seq<Owner>, i: nat, bn: nat)
    requires Shape(sb, d, inodes, owner) && MapOk(sb, d, inodes, owner)
    requires i < |inodes| && bn < MAXFILE && AddrOf(d, inodes[i], bn) != 0
    ensures AddrOf(d, inodes[i], bn) < sb.size && owner[AddrOf(d, inodes[i], bn)] == Data(i, bn)
    ensures bn >= NDIRECT ==> owner[inodes[i].addrs[NDIRECT]] == Indirect(i)
  {
  }

  lemma EntryFree(sb: Super, d: Disk, inodes: seq<Inode>, owner: seq<Owner>, i: nat, j: nat)
    requires Inv(sb, d, inodes, owner) && i < |inodes| && j < NINDIRECT && inodes[i].addrs[NDIRECT] != 0
    requires AddrOf(d, inodes[i], NDIRECT + j) != 0
    ensures AddrOf(d, inodes[i], NDIRECT + j) < sb.size
    ensures var b := AddrOf(d, inodes[i], NDIRECT + j);
      var d' := WithEntry(SetMark(sb, d, b, false), inodes[i].addrs[NDIRECT], j, 0);
      && Marked(sb, d, b) && owner[b] == Data(i, NDIRECT + j)
      && Inv(sb, d', inodes, owner[b := Free])
      && OthersSame(d, inodes, d', inodes, i)
  {
    hide BitmapOk, NoLeak, MapOk, Marked;
    var ind, bn := inodes[i].addrs[NDIRECT], NDIRECT + j;
    AddrOwner(sb, d, inodes, owner, i, bn);
    var b := AddrOf(d, inodes[i], bn);
    var d1 := SetMark(sb, d, b, false);
    var d' := WithEntry(d1, ind, j, 0);
    FreedBitmap(sb, d, owner, b);
    EntrySet(sb, d, inodes, owner, i, j, d1, 0);
    BitmapKept(sb, d1, owner[b := Free], ind, SetWord(d1[ind], j, 0));
    LostAddrInv(sb, d, inodes, owner, d', inodes, i, bn);
    OthersKept(sb, d, inodes, owner, d', inodes, i);
  }

  /** itrunc frees the indirect block itself, once it names nothing. */
  lemma IndirectFree(sb: Super, d: Disk, inodes: seq<Inode>, owner: seq<Owner>, i: nat)
    requires Inv(sb, d, inodes, owner) && i < |inodes| && inodes[i].addrs[NDIRECT] != 0
    requires forall bn :: NDIRECT <= bn < MAXFILE ==> AddrOf(d, inodes[i], bn) == 0
    ensures var b := inodes[i].addrs[NDIRECT];
      && Marked(sb, d, b) && owner[b] == Indirect(i)
      && Inv(sb, SetMark(sb, d, b, false), inodes[i := WithAddr(inodes[i], NDIRECT, 0)], owner[b := Free])
      && OthersSame(d, inodes, SetMark(sb, d, b, false), inodes[i := WithAddr(inodes[i], NDIRECT, 0)], i)
  {
    hide BitmapOk, NoLeak, Marked;
    var b := inodes[i].addrs[NDIRECT];
    var d', inodes', owner' := SetMark(sb, d, b, false), inodes[i := WithAddr(inodes[i], NDIRECT, 0)], owner[b := Free];
    FreedBitmap(sb, d, owner, b);
    forall x, y | 0 <= x < |inodes| && 0 <= y < MAXFILE
      ensures AddrOf(d', inodes'[x], y) == AddrOf(d, inodes[x], y)
    {
      AddrsKept(sb, d, d', inodes, owner, x, y);
    }
    IndirectGone(sb, d, inodes, owner, i, d', inodes', owner');
    OthersKept(sb, d, inodes, owner, d', inodes', i);
  }

  lemma IndirectGone(sb: Super, d: Disk, inodes: seq<Inode>, owner: seq<Owner>, i: nat,
                     d': Disk, inodes': seq<Inode>, owner': seq<Owner>)
    requires Shape(sb, d, inodes, owner) && MapOk(sb, d, inodes, owner) && NoLeak(sb, d, inodes, owner)
    requires i < |inodes| && inodes[i].addrs[NDIRECT] != 0 && |d'| == |d|
    requires inodes' == inodes[i := WithAddr(inodes[i], NDIRECT, 0)]
    requires owner' == owner[inodes[i].addrs[NDIRECT] := Free]
    requires forall x, y :: 0 <= x < |inodes| && 0 <= y < MAXFILE ==>
      AddrOf(d', inodes'[x], y) == AddrOf(d, inodes[x], y)
    ensures Shape(sb, d', inodes', owner') && MapOk(sb, d', inodes', owner') && NoLeak(sb, d', inodes', owner')
  {
    hide AddrOf;
    assert owner[inodes[i].addrs[NDIRECT]] == Indirect(i);
  }

  /** The contents of a free block do not matter. */
  lemma FreeBlockMoot(sb: Super, d: Disk, inodes: seq<Inode>, owner: seq<Owner>, b: nat, blk: Block, i: nat)
    requires Inv(sb, d, inodes, owner) && b < sb.size && owner[b] == Free
    ensures Inv(sb, d[b := blk], inodes, owner)
    ensures OthersSame(d, inodes, d[b := blk], inodes, i)
  {
    var d' := d[b := blk];
    BitmapKept(sb, d, owner, b, blk);
    assert KeepsOwned(d, d', owner);
    forall x, y | 0 <= x < |inodes| && 0 <= y < MAXFILE ensures AddrOf(d', inodes[x], y) == AddrOf(d, inodes[x], y) {
      AddrsKept(sb, d, d', inodes, owner, x, y);
    }
    forall x, k | 0 <= x < |inodes| && 0 <= k < MAXFILE * BSIZE
      ensures FileByte(d', inodes[x], k) == FileByte(d, inodes[x], k)
    {
      BytesKept(sb, d, d', inodes, owner, x, k);
    }
  }

  /** Ownership after the file blocks below m of inode i were freed. */
  predicate ReleasedTo(owner: seq<Owner>, owner': seq<Owner>, i: nat, m: nat) {
    |owner| == |owner'| && forall b :: 0 <= b < |owner| ==>
      owner'[b] == if owner[b].Data? && owner[b].inum == i && owner[b].bn < m then Free else owner[b]
  }

  /** Ownership after itrunc: every block of inode i is free, every other block keeps its owner. */
  predicate Released(owner: seq<Owner>, owner': seq<Owner>, i: nat) {
    |owner| == |owner'| && forall b :: 0 <= b < |owner| ==>
      owner'[b] == if owner[b] == Indirect(i) || (owner[b].Data? && owner[b].inum == i) then Free else owner[b]
  }

  /** One more position released, whether or not it named a block. */
  lemma ReleasedNext(sb: Super, d: Disk, inodes: seq<Inode>, owner0: seq<Owner>, owner: seq<Owner>, i: nat, bn: nat)
    requires Inv(sb, d, inodes, owner) && i < |inodes| && bn < MAXFILE && ReleasedTo(owner0, owner, i, bn)
    ensures var a := AddrOf(d, inodes[i], bn);
      if a == 0 then ReleasedTo(owner0, owner, i, bn + 1)
      else a < sb.size && ReleasedTo(owner0, owner[a := Free], i, bn + 1)
  {
    var a := AddrOf(d, inodes[i], bn);
    forall b | 0 <= b < |owner0| && owner0[b] == Data(i, bn) ensures b == a {
      assert owner[b] == Data(i, bn);
    }
    assert a != 0 ==> owner[a] == Data(i, bn);
  }

  lemma OthersTrans(d: Disk, inodes: seq<Inode>, d1: Disk, inodes1: seq<Inode>, d2: Disk, inodes2: seq<Inode>, i: nat)
    requires Readable(d, inodes) && Readable(d1, inodes1) && Readable(d2, inodes2)
    requires OthersSame(d, inodes, d1, inodes1, i) && OthersSame(d1, inodes1, d2, inodes2, i)
    ensures OthersSame(d, inodes, d2, inodes2, i)
  {
    forall x | 0 <= x < |inodes| && x != i ensures SameFile(d, inodes[x], d2, inodes2[x]) {
      assert SameFile(d, inodes[x], d1, inodes1[x]) && SameFile(d1, inodes1[x], d2, inodes2[x]);
      forall k | 0 <= k < MAXFILE * BSIZE ensures FileByte(d2, inodes2[x], k) == FileByte(d, inodes[x], k) {
        assert FileByte(d1, inodes1[x], k) == FileByte(d, inodes[x], k);
      }
    }
  }
}
