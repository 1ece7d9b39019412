/**
 The code of kernel/fs.c that allocates, maps, reads, writes and truncates file blocks,
 and filewrite's chunking from kernel/file.c, proved against Inodes.
 */
module FileSystem {
  import opened Bytes
  import opened Inodes

  const WRITEMAX: nat := ((10 - 1 - 1 - 2) / 2) * BSIZE // filewrite's bytes per transaction

  /** The file's bytes. */
  function Contents(d: Disk, ip: Inode): (s: seq<byte>)
    requires |ip.addrs| == NDIRECT + 1 && ip.addrs[NDIRECT] < |d| && ip.size <= MAXFILE * BSIZE
    ensures |s| == ip.size && forall k :: 0 <= k < ip.size ==> s[k] == FileByte(d, ip, k)
  {
    seq<byte>(ip.size, k requires 0 <= k < ip.size => FileByte(d, ip, k))
  }

  /** c with s written over it at off, extended if need be. */
  function Splice(c: seq<byte>, off: nat, s: seq<byte>): (r: seq<byte>)
    requires off <= |c|
  {
    c[..off] + s + if off + |s| < |c| then c[off + |s|..] else []
  }

  /** What a read of n bytes at off asks for. */
  function Asked(d: Disk, ip: Inode, off: nat, n: nat): (s: seq<byte>)
    requires |ip.addrs| == NDIRECT + 1 && ip.addrs[NDIRECT] < |d| && ip.size <= MAXFILE * BSIZE
  {
    if off > ip.size || off + n >= TWO32 then []
    else Contents(d, ip)[off..if off + n > ip.size then ip.size else off + n]
  }

  // ----- which blocks a write may log -----

  predicate InBitmap(sb: Super, m: nat) {
    sb.bmapstart <= m < sb.bmapstart + (sb.size + BPB - 1) / BPB
  }

  function BitmapBlocks(sb: Super): (r: set<nat>) {
    set m | 0 <= m < sb.bmapstart + (sb.size + BPB - 1) / BPB && InBitmap(sb, m)
  }

  /** The blocks holding positions lo..hi of a file. */
  function DataBlocks(d: Disk, ip: Inode, lo: nat, hi: nat): (r: set<nat>)
    requires |ip.addrs| == NDIRECT + 1 && ip.addrs[NDIRECT] < |d|
  {
    set bn | lo <= bn < hi && bn < MAXFILE && AddrOf(d, ip, bn) != 0 :: AddrOf(d, ip, bn)
  }

  function MapBlocks(sb: Super, ip: Inode): (r: set<nat>)
    requires |ip.addrs| == NDIRECT + 1
  {
    BitmapBlocks(sb) + if ip.addrs[NDIRECT] == 0 then {} else {ip.addrs[NDIRECT]}
  }

  lemma {:induction false} DataBlocksCount(d: Disk, ip: Inode, lo: nat, hi: nat)
    requires |ip.addrs| == NDIRECT + 1 && ip.addrs[NDIRECT] < |d| && lo <= hi
    ensures |DataBlocks(d, ip, lo, hi)| <= hi - lo
    decreases hi - lo
  {
    hide AddrOf;
    if lo == hi {
      assert DataBlocks(d, ip, lo, hi) == {};
    } else {
      DataBlocksCount(d, ip, lo, hi - 1);
      var one := if hi - 1 < MAXFILE && AddrOf(d, ip, hi - 1) != 0 then {AddrOf(d, ip, hi - 1) as nat} else {};
      assert DataBlocks(d, ip, lo, hi) == DataBlocks(d, ip, lo, hi - 1) + one;
      UnionSize(DataBlocks(d, ip, lo, hi - 1), one);
    }
  }

  /** One filewrite transaction fits the log: at most 7 distinct blocks when the bitmap is one block. */
  lemma WriteBudget(sb: Super, d: Disk, ip: Inode, i: nat, off: nat, n: nat)
    requires SuperOk(sb) && 0 < sb.size <= BPB && |ip.addrs| == NDIRECT + 1 && ip.addrs[NDIRECT] < |d|
    requires n <= WRITEMAX
    ensures |MapBlocks(sb, ip) + {IBlock(sb, i)} + DataBlocks(d, ip, off / BSIZE, (off + n + BSIZE - 1) / BSIZE)| <= 7
  {
    var lo, hi := off / BSIZE, (off + n + BSIZE - 1) / BSIZE;
    DataBlocksCount(d, ip, lo, hi);
    OneBitmapBlock(sb);
    var data := DataBlocks(d, ip, lo, hi);
    var ind: set<nat> := if ip.addrs[NDIRECT] == 0 then {} else {ip.addrs[NDIRECT]};
    UnionSize(BitmapBlocks(sb), ind);
    UnionSize(MapBlocks(sb, ip), {IBlock(sb, i)});
    UnionSize(MapBlocks(sb, ip) + {IBlock(sb, i)}, data);
  }

  lemma OneBitmapBlock(sb: Super)
    requires 0 < sb.size <= BPB
    ensures BitmapBlocks(sb) == {sb.bmapstart}
  {
  }

  lemma UnionSize(a: set<nat>, b: set<nat>)
    ensures |a + b| <= |a| + |b|
  {
    assert a + b == a + (b - a);
  }

  lemma NewEntry(d: Disk, d': Disk, ip: Inode, j: nat, a: uint32)
    requires |ip.addrs| == NDIRECT + 1 && 0 != ip.addrs[NDIRECT] < |d| == |d'| && j < NINDIRECT
    requires exists blk: Block :: d'[ip.addrs[NDIRECT]] == SetWord(blk, j, a)
    ensures AddrOf(d', ip, NDIRECT + j) == a
  {
    var blk: Block :| d'[ip.addrs[NDIRECT]] == SetWord(blk, j, a);
    WordOfSetWord(blk, j, a, j);
  }

  lemma GrownSame(sb: Super, d: Disk, inodes: seq<Inode>, owner: seq<Owner>)
    requires Inv(sb, d, inodes, owner)
    ensures Grown(sb, d, inodes, d, inodes, owner)
  {
  }

  lemma GrownTwice(sb: Super, d: Disk, inodes: seq<Inode>, d1: Disk, inodes1: seq<Inode>, owner1: seq<Owner>,
                   d2: Disk, inodes2: seq<Inode>, owner2: seq<Owner>)
    requires Grown(sb, d, inodes, d1, inodes1, owner1) && Grown(sb, d1, inodes1, d2, inodes2, owner2)
    ensures Grown(sb, d, inodes, d2, inodes2, owner2)
  {
    forall x, bn | 0 <= x < |inodes| && 0 <= bn < MAXFILE && AddrOf(d, inodes[x], bn) != 0
      ensures AddrOf(d2, inodes2[x], bn) == AddrOf(d, inodes[x], bn)
    {
      assert AddrOf(d1, inodes1[x], bn) == AddrOf(d, inodes[x], bn);
    }
    forall x, k | 0 <= x < |inodes| && 0 <= k < MAXFILE * BSIZE
      ensures FileByte(d2, inodes2[x], k) == FileByte(d, inodes[x], k)
    {
      assert FileByte(d1, inodes1[x], k) == FileByte(d, inodes[x], k);
    }
  }

  // ----- the meaning of a write -----

  /** File i is spliced with s at off and ends no earlier than off + n; every other file is as it was. */
  predicate Wrote(d0: Disk, inodes0: seq<Inode>, d: Disk, inodes: seq<Inode>, i: nat, off: nat, s: seq<byte>, n: nat)
    requires Readable(d0, inodes0) && Readable(d, inodes)
  {
    && |inodes| == |inodes0| && i < |inodes| && off <= inodes0[i].size && n <= |s| && off + |s| <= MAXFILE * BSIZE
    && inodes[i].size == (if off + n > inodes0[i].size then off + n else inodes0[i].size)
    && (forall k :: 0 <= k < MAXFILE * BSIZE ==>
          FileByte(d, inodes[i], k) == if off <= k < off + |s| then s[k - off] else FileByte(d0, inodes0[i], k))
    && (forall x :: 0 <= x < |inodes| && x != i ==> inodes[x].size == inodes0[x].size)
    && (forall x, k :: 0 <= x < |inodes| && x != i && 0 <= k < MAXFILE * BSIZE ==>
          FileByte(d, inodes[x], k) == FileByte(d0, inodes0[x], k))
  }

  /** Read back as byte sequences: file i is the splice, cut at its size, and no other file changed. */
  lemma WroteContents(sb: Super, d0: Disk, inodes0: seq<Inode>, owner0: seq<Owner>,
                      d: Disk, inodes: seq<Inode>, owner: seq<Owner>, i: nat, off: nat, s: seq<byte>, n: nat)
    requires Shape(sb, d0, inodes0, owner0) && Shape(sb, d, inodes, owner)
    requires Wrote(d0, inodes0, d, inodes, i, off, s, n)
    ensures inodes[i].size <= |Splice(Contents(d0, inodes0[i]), off, s)|
    ensures Contents(d, inodes[i]) == Splice(Contents(d0, inodes0[i]), off, s)[..inodes[i].size]
    ensures n == |s| ==> Contents(d, inodes[i]) == Splice(Contents(d0, inodes0[i]), off, s)
    ensures forall x :: 0 <= x < |inodes| && x != i ==> Contents(d, inodes[x]) == Contents(d0, inodes0[x])
  {
    var c0, c := Contents(d0, inodes0[i]), Contents(d, inodes[i]);
    forall k | 0 <= k < |c| ensures c[k] == Splice(c0, off, s)[k] {
      assert c[k] == FileByte(d, inodes[i], k);
    }
    forall x | 0 <= x < |inodes| && x != i ensures Contents(d, inodes[x]) == Contents(d0, inodes0[x]) {
      forall k | 0 <= k < inodes[x].size ensures Contents(d, inodes[x])[k] == Contents(d0, inodes0[x])[k] {
        assert FileByte(d, inodes[x], k) == FileByte(d0, inodes0[x], k);
      }
    }
  }

  /** What was written is what a read there returns. */
  lemma ReadBack(sb: Super, d0: Disk, inodes0: seq<Inode>, owner0: seq<Owner>,
                 d: Disk, inodes: seq<Inode>, owner: seq<Owner>, i: nat, off: nat, s: seq<byte>, n: nat, m: nat)
    requires Shape(sb, d0, inodes0, owner0) && Shape(sb, d, inodes, owner)
    requires Wrote(d0, inodes0, d, inodes, i, off, s, n) && m <= n
    ensures Asked(d, inodes[i], off, m) == s[..m]
  {
    var x := Asked(d, inodes[i], off, m);
    assert |x| == m;
    forall k | 0 <= k < m
      ensures x[k] == s[k]
    {
      assert x[k] == FileByte(d, inodes[i], off + k);
    }
  }

  /** The bytes of s from n on change nothing below the old end of the file. */
  predicate Unseen(c0: seq<byte>, off: nat, s: seq<byte>, n: nat)
    requires n <= |s|
  {
    forall k :: n <= k < |s| && off + k < |c0| ==> s[k] == c0[off + k]
  }

  lemma WroteUnseen(sb: Super, d0: Disk, inodes0: seq<Inode>, owner0: seq<Owner>,
                    d: Disk, inodes: seq<Inode>, owner: seq<Owner>, i: nat, off: nat, s: seq<byte>, n: nat)
    requires Shape(sb, d0, inodes0, owner0) && Shape(sb, d, inodes, owner)
    requires Wrote(d0, inodes0, d, inodes, i, off, s, n)
    ensures Contents(d, inodes[i]) == Splice(Contents(d0, inodes0[i]), off, s[..n]) <==>
      Unseen(Contents(d0, inodes0[i]), off, s, n)
  {
    WroteContents(sb, d0, inodes0, owner0, d, inodes, owner, i, off, s, n);
    SpliceCut(Contents(d0, inodes0[i]), off, s, n);
  }

  lemma SpliceCut(c0: seq<byte>, off: nat, s: seq<byte>, n: nat)
    requires off <= |c0| && n <= |s|
    ensures var size := if off + n > |c0| then off + n else |c0|;
      size <= |Splice(c0, off, s)| && (Splice(c0, off, s)[..size] == Splice(c0, off, s[..n]) <==> Unseen(c0, off, s, n))
  {
    var size := if off + n > |c0| then off + n else |c0|;
    var x, y := Splice(c0, off, s)[..size], Splice(c0, off, s[..n]);
    assert |x| == |y| == size;
    assert forall k :: 0 <= k < size && !(off + n <= k < off + |s|) ==> x[k] == y[k];
    assert forall k :: off + n <= k < size && k < off + |s| ==> x[k] == s[k - off] && y[k] == c0[k];
    if Unseen(c0, off, s, n) {
      assert x == y;
    } else {
      var k :| n <= k < |s| && off + k < |c0| && s[k] != c0[off + k];
      assert x[off + k] != y[off + k];
    }
  }

  /** Adjacent writes are one write. */
  lemma WroteTwice(d0: Disk, inodes0: seq<Inode>, d1: Disk, inodes1: seq<Inode>, d2: Disk, inodes2: seq<Inode>,
                   i: nat, off: nat, s: seq<byte>, t: seq<byte>, n: nat)
    requires Readable(d0, inodes0) && Readable(d1, inodes1) && Readable(d2, inodes2)
    requires Wrote(d0, inodes0, d1, inodes1, i, off, s, |s|) && Wrote(d1, inodes1, d2, inodes2, i, off + |s|, t, n)
    ensures Wrote(d0, inodes0, d2, inodes2, i, off, s + t, |s| + n)
  {
    forall k | 0 <= k < MAXFILE * BSIZE
      ensures FileByte(d2, inodes2[i], k) == if off <= k < off + |s + t| then (s + t)[k - off]
        else FileByte(d0, inodes0[i], k)
    {
      assert FileByte(d1, inodes1[i], k) == if off <= k < off + |s| then s[k - off] else FileByte(d0, inodes0[i], k);
    }
    forall x, k | 0 <= x < |inodes2| && x != i && 0 <= k < MAXFILE * BSIZE
      ensures FileByte(d2, inodes2[x], k) == FileByte(d0, inodes0[x], k)
    {
      assert FileByte(d1, inodes1[x], k) == FileByte(d0, inodes0[x], k);
    }
  }

  lemma ReadChunk(d: Disk, ip: Inode, pos: nat, m: nat, a: nat)
    requires |ip.addrs| == NDIRECT + 1 && ip.addrs[NDIRECT] < |d| && ip.size <= MAXFILE * BSIZE
    requires pos + m <= ip.size && pos % BSIZE + m <= BSIZE && pos / BSIZE < MAXFILE
    requires 0 != a == AddrOf(d, ip, pos / BSIZE) < |d|
    ensures Contents(d, ip)[pos..pos + m] == d[a][pos % BSIZE..pos % BSIZE + m]
  {
    var x, y := Contents(d, ip)[pos..pos + m], d[a][pos % BSIZE..pos % BSIZE + m];
    forall k | 0 <= k < m ensures x[k] == y[k] {
      ChunkByte(pos, m, pos + k);
    }
  }

  lemma SliceJoin(c: seq<byte>, off: nat, x: seq<byte>, y: seq<byte>)
    requires off + |x| + |y| <= |c| && x == c[off..off + |x|] && y == c[off + |x|..off + |x| + |y|]
    ensures x + y == c[off..off + |x + y|]
  {
  }

  /** A block map that only grew covers at least the blocks it covered. */
  lemma LoggedGrow(sb: Super, d: Disk, ip: Inode, d': Disk, ip': Inode, lo: nat, hi: nat, bn: nat)
    requires |ip.addrs| == |ip'.addrs| == NDIRECT + 1 && ip.addrs[NDIRECT] < |d| && ip'.addrs[NDIRECT] < |d'|
    requires forall y :: 0 <= y < MAXFILE && AddrOf(d, ip, y) != 0 ==> AddrOf(d', ip', y) == AddrOf(d, ip, y)
    requires ip.addrs[NDIRECT] != 0 ==> ip'.addrs[NDIRECT] == ip.addrs[NDIRECT]
    requires lo <= bn < hi && bn < MAXFILE
    ensures MapBlocks(sb, ip) <= MapBlocks(sb, ip')
    ensures DataBlocks(d, ip, lo, hi) <= DataBlocks(d', ip', lo, hi)
    ensures AddrOf(d', ip', bn) != 0 ==> AddrOf(d', ip', bn) in DataBlocks(d', ip', lo, hi)
  {
  }

  lemma SameDataBlocks(d: Disk, d': Disk, ip: Inode, lo: nat, hi: nat)
    requires |ip.addrs| == NDIRECT + 1 && ip.addrs[NDIRECT] < |d| == |d'|
    requires forall y :: 0 <= y < MAXFILE ==> AddrOf(d', ip, y) == AddrOf(d, ip, y)
    ensures DataBlocks(d', ip, lo, hi) == DataBlocks(d, ip, lo, hi)
  {
  }

  function Resized(inodes: seq<Inode>, i: nat, end: nat): (r: seq<Inode>)
    requires i < |inodes| && end <= MAXFILE * BSIZE
  {
    if end > inodes[i].size then inodes[i := inodes[i].(size := end)] else inodes
  }

  /** A new size moves no block. */
  lemma ResizedInv(sb: Super, d: Disk, inodes: seq<Inode>, owner: seq<Owner>, i: nat, end: nat)
    requires Inv(sb, d, inodes, owner) && i < |inodes| && end <= MAXFILE * BSIZE
    ensures Inv(sb, d, Resized(inodes, i, end), owner)
    ensures forall x, y :: 0 <= x < |inodes| && 0 <= y < MAXFILE ==>
      AddrOf(d, Resized(inodes, i, end)[x], y) == AddrOf(d, inodes[x], y)
  {
    var inodes' := Resized(inodes, i, end);
    assert forall x, y :: 0 <= x < |inodes| && 0 <= y < MAXFILE ==> AddrOf(d, inodes'[x], y) == AddrOf(d, inodes[x], y);
    assert MapOk(sb, d, inodes', owner);
    assert NoLeak(sb, d, inodes', owner);
  }

  /** Below the new size every position has a block. */
  lemma WrittenBacked(sb: Super, d0: Disk, inodes0: seq<Inode>, owner0: seq<Owner>, d: Disk, inodes: seq<Inode>,
                      i: nat, off: nat, end: nat, x: nat, bn: nat)
    requires Shape(sb, d0, inodes0, owner0) && NoHoles(sb, d0, inodes0, owner0)
    requires Readable(d, inodes) && AddrsGrow(d0, inodes0, d, inodes)
    requires i < |inodes| && off <= inodes0[i].size && off <= end <= MAXFILE * BSIZE && Backed(d, inodes, i, off, end)
    requires x < |inodes| && bn < MAXFILE && (bn * BSIZE < inodes0[x].size || (x == i && bn * BSIZE < end))
    ensures AddrOf(d, inodes[x], bn) != 0
  {
    if bn * BSIZE < inodes0[x].size {
      assert AddrOf(d0, inodes0[x], bn) != 0;
    } else {
      assert AddrOf(d, inodes[i], bn * BSIZE / BSIZE) != 0;
    }
  }

  lemma WrittenNoHoles(sb: Super, d0: Disk, inodes0: seq<Inode>, owner0: seq<Owner>, d: Disk, inodes: seq<Inode>,
                       owner: seq<Owner>, i: nat, off: nat, s: seq<byte>, n: nat)
    requires Shape(sb, d0, inodes0, owner0) && NoHoles(sb, d0, inodes0, owner0) && i < |inodes0|
    requires off <= inodes0[i].size
    requires WriteProgress(sb, d0, inodes0, d, inodes, owner, i, off, s) && n <= |s|
    requires Shape(sb, d, Resized(inodes, i, off + n), owner)
    ensures NoHoles(sb, d, Resized(inodes, i, off + n), owner)
  {
    var inodes' := Resized(inodes, i, off + n);
    forall x, bn | 0 <= x < |inodes'| && 0 <= bn < MAXFILE && bn * BSIZE < inodes'[x].size
      ensures AddrOf(d, inodes'[x], bn) != 0
    {
      WrittenBacked(sb, d0, inodes0, owner0, d, inodes, i, off, off + |s|, x, bn);
    }
  }

  lemma ResizedByte(d: Disk, inodes: seq<Inode>, i: nat, end: nat, x: nat, k: nat)
    requires Readable(d, inodes) && i < |inodes| && end <= MAXFILE * BSIZE && x < |inodes| && k < MAXFILE * BSIZE
    ensures Readable(d, Resized(inodes, i, end))
    ensures FileByte(d, Resized(inodes, i, end)[x], k) == FileByte(d, inodes[x], k)
  {
  }

  lemma WrittenBytes(d0: Disk, inodes0: seq<Inode>, d: Disk, inodes: seq<Inode>, i: nat, off: nat, s: seq<byte>, n: nat)
    requires Readable(d0, inodes0) && Readable(d, inodes) && Shows(d0, inodes0, d, inodes, i, off, s)
    requires off <= inodes0[i].size
    requires n <= |s|
    ensures Readable(d, Resized(inodes, i, off + n))
    ensures Wrote(d0, inodes0, d, Resized(inodes, i, off + n), i, off, s, n)
  {
    var inodes' := Resized(inodes, i, off + n);
    forall x, k | 0 <= x < |inodes| && 0 <= k < MAXFILE * BSIZE
      ensures FileByte(d, inodes'[x], k) == FileByte(d, inodes[x], k)
    {
      ResizedByte(d, inodes, i, off + n, x, k);
    }
  }

  /** What writei may log: the free map, the inode, its indirect block, and the blocks written. */
  function WriteSet(sb: Super, d: Disk, ip: Inode, off: nat, n: nat): (r: set<nat>)
    requires |ip.addrs| == NDIRECT + 1 && ip.addrs[NDIRECT] < |d|
  {
    MapBlocks(sb, ip) + DataBlocks(d, ip, off / BSIZE, (off + n + BSIZE - 1) / BSIZE)
  }

  /** The copy of a source readable for reach bytes has met its end with tot bytes counted. */
  predicate Faulted(off: nat, reach: nat, tot: nat) {
    tot <= reach && (off + tot) / BSIZE == (off + reach) / BSIZE && (tot == 0 || (off + tot) % BSIZE == 0)
  }

  /** bmap finds no block for the next byte and no free one. */
  predicate NoSpace(sb: Super, d: Disk, inodes: seq<Inode>, owner: seq<Owner>, i: nat, pos: nat)
    requires Readable(d, inodes) && |owner| == sb.size
  {
    && i < |inodes| && pos / BSIZE < MAXFILE && AddrOf(d, inodes[i], pos / BSIZE) == 0
    && forall c :: 0 <= c < sb.size ==> owner[c] != Free
  }

  /** How writei stops: tot bytes are counted, got copied into the file's blocks. */
  predicate Stopped(sb: Super, d: Disk, inodes: seq<Inode>, owner: seq<Owner>, i: nat, off: nat, len: nat, reach: nat,
                    tot: nat, got: nat)
    requires Readable(d, inodes) && |owner| == sb.size
  {
    && tot <= reach
    && (|| (tot == len && got == tot)
        || (got == tot && NoSpace(sb, d, inodes, owner, i, off + tot))
        || (reach < len && got == reach && Faulted(off, reach, tot)))
  }

  /** Where the next round starts, or the copy met the end of what can be read. */
  lemma ChunkEnd(off: nat, tot: nat, m: nat, len: nat, reach: nat)
    requires tot < len && tot <= reach && (tot == 0 || (off + tot) % BSIZE == 0)
    requires var room := BSIZE - (off + tot) % BSIZE; m == if len - tot < room then len - tot else room
    ensures m > 0 && tot + m <= len
    ensures tot + m > reach ==> reach < len && Faulted(off, reach, tot) && (off + tot) % BSIZE + (reach - tot) <= BSIZE
    ensures tot + m <= reach ==> tot + m == len || (off + tot + m) % BSIZE == 0
  {
    var p, q := off + tot, off + reach;
    assert p % BSIZE == p - p / BSIZE * BSIZE;
    if tot + m > reach {
      assert p / BSIZE * BSIZE <= p <= q < (p / BSIZE + 1) * BSIZE;
      assert q / BSIZE == p / BSIZE;
    } else if m < len - tot {
      assert p + m == (p / BSIZE + 1) * BSIZE;
    }
  }

  /** The start of the block, or of the write, in which a source readable for reach bytes ends. */
  function LastWhole(off: nat, reach: nat): (n: nat)
    ensures n <= reach
  {
    if off / BSIZE == (off + reach) / BSIZE then 0 else (off + reach) / BSIZE * BSIZE - off
  }

  /** The source can be read to its end, or its last, partial block holds what the file holds there already. */
  predicate Untorn(c0: seq<byte>, off: nat, src: seq<byte>, reach: nat) {
    reach >= |src| || forall k :: LastWhole(off, reach) <= k < reach && off + k < |c0| ==> src[k] == c0[off + k]
  }

  lemma FaultAt(off: nat, reach: nat, tot: nat)
    requires Faulted(off, reach, tot)
    ensures tot == LastWhole(off, reach)
  {
    var p, q := off + tot, off + reach;
    assert p / BSIZE == q / BSIZE;
    if tot > 0 {
      assert p == p / BSIZE * BSIZE;
      assert off / BSIZE < p / BSIZE;
    }
  }

  /** Where bmap found no space, the file had ended. */
  lemma NoSpacePastEnd(sb: Super, d: Disk, inodes: seq<Inode>, owner: seq<Owner>, i: nat, off: nat, reach: nat,
                       tot: nat, size0: nat)
    requires Shape(sb, d, inodes, owner) && NoHoles(sb, d, inodes, owner) && NoSpace(sb, d, inodes, owner, i, off + tot)
    requires off <= size0 <= inodes[i].size && tot <= reach
    ensures off + LastWhole(off, reach) >= size0
  {
    var bn := (off + tot) / BSIZE;
    assert bn * BSIZE >= inodes[i].size;
    assert bn <= (off + reach) / BSIZE;
    assert off / BSIZE == (off + reach) / BSIZE ==> bn * BSIZE <= off;
  }

  /** What writei reports is what it wrote, if and only if the write is untorn. */
  lemma WroteExactly(sb: Super, d0: Disk, inodes0: seq<Inode>, owner0: seq<Owner>, d: Disk, inodes: seq<Inode>,
                     owner: seq<Owner>, i: nat, off: nat, src: seq<byte>, reach: nat, r: nat, got: nat)
    requires Shape(sb, d0, inodes0, owner0) && Shape(sb, d, inodes, owner) && NoHoles(sb, d, inodes, owner)
    requires r <= got <= |src| && Wrote(d0, inodes0, d, inodes, i, off, src[..got], r)
    requires Stopped(sb, d, inodes, owner, i, off, |src|, reach, r, got)
    ensures Contents(d, inodes[i]) == Splice(Contents(d0, inodes0[i]), off, src[..r]) <==>
      Untorn(Contents(d0, inodes0[i]), off, src, reach)
  {
    hide NoHoles, LastWhole, NoSpace, Faulted, Splice;
    var c0 := Contents(d0, inodes0[i]);
    WroteUnseen(sb, d0, inodes0, owner0, d, inodes, owner, i, off, src[..got], r);
    assert src[..got][..r] == src[..r];
    if got == r && r < |src| && NoSpace(sb, d, inodes, owner, i, off + r) {
      NoSpacePastEnd(sb, d, inodes, owner, i, off, reach, r, |c0|);
    } else if reach < |src| && r < |src| {
      FaultAt(off, reach, r);
      assert Unseen(c0, off, src[..got], r) <==> Untorn(c0, off, src, reach);
    }
  }

  lemma StoppedResized(sb: Super, d: Disk, inodes: seq<Inode>, owner: seq<Owner>, i: nat, off: nat, len: nat,
                       reach: nat, tot: nat, got: nat, end: nat)
    requires Inv(sb, d, inodes, owner) && i < |inodes| && end <= MAXFILE * BSIZE
    requires Stopped(sb, d, inodes, owner, i, off, len, reach, tot, got)
    ensures Readable(d, Resized(inodes, i, end))
      && Stopped(sb, d, Resized(inodes, i, end), owner, i, off, len, reach, tot, got)
  {
    hide BitmapOk, MapOk, NoLeak;
    ResizedInv(sb, d, inodes, owner, i, end);
  }

  /** The end of writei: storing the new size completes the write. */
  lemma ProgressDone(sb: Super, d0: Disk, inodes0: seq<Inode>, owner0: seq<Owner>, d: Disk, inodes: seq<Inode>,
                     owner: seq<Owner>, i: nat, off: nat, s: seq<byte>, n: nat, len: nat)
    requires Inv(sb, d0, inodes0, owner0) && NoHoles(sb, d0, inodes0, owner0) && i < |inodes0| && off <= inodes0[i].size
    requires WriteProgress(sb, d0, inodes0, d, inodes, owner, i, off, s) && n <= |s|
    ensures var inodes' := Resized(inodes, i, off + n);
      && Inv(sb, d, inodes', owner) && NoHoles(sb, d, inodes', owner)
      && Readable(d, inodes') && Wrote(d0, inodes0, d, inodes', i, off, s, n)
      && WriteSet(sb, d, inodes'[i], off, len) == WriteSet(sb, d, inodes[i], off, len)
  {
    hide BitmapOk, MapOk, NoLeak, NoHoles, Wrote, WriteSet, AddrsGrow, Backed;
    ResizedInv(sb, d, inodes, owner, i, off + n);
    WrittenNoHoles(sb, d0, inodes0, owner0, d, inodes, owner, i, off, s, n);
    WrittenBytes(d0, inodes0, d, inodes, i, off, s, n);
    SameWriteSet(sb, d, inodes[i], Resized(inodes, i, off + n)[i], off, len);
  }

  lemma SameWriteSet(sb: Super, d: Disk, ip: Inode, ip': Inode, off: nat, n: nat)
    requires |ip.addrs| == NDIRECT + 1 && ip.addrs[NDIRECT] < |d| && ip'.addrs == ip.addrs
    ensures WriteSet(sb, d, ip', off, n) == WriteSet(sb, d, ip, off, n)
  {
    assert forall bn :: 0 <= bn < MAXFILE ==> AddrOf(d, ip', bn) == AddrOf(d, ip, bn);
  }

  // ----- the meaning of a truncation -----

  /** itrunc has freed the direct blocks below j. */
  predicate TruncDirect(sb: Super, d0: Disk, inodes0: seq<Inode>, owner0: seq<Owner>, d: Disk, inodes: seq<Inode>,
                        owner: seq<Owner>, i: nat, j: nat)
  {
    && Readable(d0, inodes0) && |inodes| == |inodes0| && i < |inodes| && j <= NDIRECT
    && Inv(sb, d, inodes, owner)
    && inodes == inodes0[i := inodes[i]] && inodes[i].size == inodes0[i].size
    && (forall x :: 0 <= x < j ==> inodes[i].addrs[x] == 0)
    && ReleasedTo(owner0, owner, i, j)
    && OthersSame(d0, inodes0, d, inodes, i)
  }

  lemma TruncStart(sb: Super, d: Disk, inodes: seq<Inode>, owner: seq<Owner>, i: nat)
    requires Inv(sb, d, inodes, owner) && i < |inodes|
    ensures TruncDirect(sb, d, inodes, owner, d, inodes, owner, i, 0)
  {
  }

  lemma TruncDirectNext(sb: Super, d0: Disk, inodes0: seq<Inode>, owner0: seq<Owner>, d: Disk, inodes: seq<Inode>,
                        owner: seq<Owner>, i: nat, j: nat)
    requires j < NDIRECT && TruncDirect(sb, d0, inodes0, owner0, d, inodes, owner, i, j)
    ensures var a := inodes[i].addrs[j];
      if a == 0 then TruncDirect(sb, d0, inodes0, owner0, d, inodes, owner, i, j + 1)
      else
        && Marked(sb, d, a)
        && TruncDirect(sb, d0, inodes0, owner0, SetMark(sb, d, a, false), inodes[i := WithAddr(inodes[i], j, 0)],
                       owner[a := Free], i, j + 1)
  {
    hide BitmapOk, MapOk, NoLeak, OthersSame, ReleasedTo;
    assert AddrOf(d, inodes[i], j) == inodes[i].addrs[j];
    ReleasedNext(sb, d, inodes, owner0, owner, i, j);
    var a := inodes[i].addrs[j];
    if a != 0 {
      DirectFree(sb, d, inodes, owner, i, j);
      OthersTrans(d0, inodes0, d, inodes, SetMark(sb, d, a, false), inodes[i := WithAddr(inodes[i], j, 0)], i);
    }
  }

  /**
   itrunc has freed the blocks of the indirect entries below j. The entries themselves stay in
   the indirect block, so ownership is stated of v, the disk with those entries cleared.
   */
  predicate TruncEntries(sb: Super, d0: Disk, inodes0: seq<Inode>, owner0: seq<Owner>, d: Disk, v: Disk,
                         inodes: seq<Inode>, owner: seq<Owner>, i: nat, j: nat)
  {
    && TruncDirectShape(d0, inodes0, inodes, i) && j <= NINDIRECT
    && Inv(sb, v, inodes, owner)
    && Uncleared(d, v, inodes[i].addrs[NDIRECT], j)
    && ReleasedTo(owner0, owner, i, NDIRECT + j)
    && OthersSame(d0, inodes0, v, inodes, i)
  }

  /** d still shows the first j entries of indirect block ind, which v shows cleared. */
  predicate Uncleared(d: Disk, v: Disk, ind: nat, j: nat) {
    && ind != 0 && |d| == |v| && ind < |d|
    && d == v[ind := d[ind]]
    && forall x :: 0 <= x < NINDIRECT ==> Word(v[ind], x) == if x < j then 0 else Word(d[ind], x)
  }

  predicate TruncDirectShape(d0: Disk, inodes0: seq<Inode>, inodes: seq<Inode>, i: nat) {
    && Readable(d0, inodes0) && |inodes| == |inodes0| && i < |inodes|
    && inodes == inodes0[i := inodes[i]] && inodes[i].size == inodes0[i].size
    && |inodes[i].addrs| == NDIRECT + 1 && forall x :: 0 <= x < NDIRECT ==> inodes[i].addrs[x] == 0
  }

  /** itrunc has freed every block of the file. */
  predicate TruncAll(sb: Super, d0: Disk, inodes0: seq<Inode>, owner0: seq<Owner>, d: Disk, inodes: seq<Inode>,
                     owner: seq<Owner>, i: nat)
  {
    && TruncDirectShape(d0, inodes0, inodes, i) && inodes[i].addrs[NDIRECT] == 0
    && Inv(sb, d, inodes, owner)
    && Released(owner0, owner, i)
    && OthersSame(d0, inodes0, d, inodes, i)
  }

  lemma TruncNoIndirect(sb: Super, d0: Disk, inodes0: seq<Inode>, owner0: seq<Owner>, d: Disk, inodes: seq<Inode>,
                        owner: seq<Owner>, i: nat)
    requires TruncDirect(sb, d0, inodes0, owner0, d, inodes, owner, i, NDIRECT) && inodes[i].addrs[NDIRECT] == 0
    ensures TruncAll(sb, d0, inodes0, owner0, d, inodes, owner, i)
  {
    assert owner[0] == Meta;
    forall b | 0 <= b < |owner0|
      ensures owner[b] == if owner0[b] == Indirect(i) || (owner0[b].Data? && owner0[b].inum == i) then Free
        else owner0[b]
    {
    }
  }

  lemma TruncEntriesStart(sb: Super, d0: Disk, inodes0: seq<Inode>, owner0: seq<Owner>, d: Disk, inodes: seq<Inode>,
                          owner: seq<Owner>, i: nat)
    requires TruncDirect(sb, d0, inodes0, owner0, d, inodes, owner, i, NDIRECT) && inodes[i].addrs[NDIRECT] != 0
    ensures TruncEntries(sb, d0, inodes0, owner0, d, d, inodes, owner, i, 0)
  {
  }

  /** Marks are kept apart from the indirect block. */
  lemma MarkBesideIndirect(sb: Super, v: Disk, owner: seq<Owner>, ind: nat, blk: Block, a: nat)
    requires SuperOk(sb) && |v| == |owner| == sb.size && BitmapOk(sb, v, owner) && ind < sb.size && owner[ind] != Meta
    requires a < sb.size
    ensures Marked(sb, v[ind := blk], a) == Marked(sb, v, a)
    ensures SetMark(sb, v[ind := blk], a, false) == SetMark(sb, v, a, false)[ind := blk]
    ensures SetMark(sb, v, a, false)[ind] == v[ind]
  {
    assert owner[BBlock(sb, a)] == Meta;
  }

  lemma TruncEntriesNext(sb: Super, d0: Disk, inodes0: seq<Inode>, owner0: seq<Owner>, d: Disk, v: Disk,
                         inodes: seq<Inode>, owner: seq<Owner>, i: nat, j: nat)
    requires j < NINDIRECT && TruncEntries(sb, d0, inodes0, owner0, d, v, inodes, owner, i, j)
    ensures var ind := inodes[i].addrs[NDIRECT];
      var a := Word(d[ind], j);
      if a == 0 then TruncEntries(sb, d0, inodes0, owner0, d, v, inodes, owner, i, j + 1)
      else
        && a < sb.size && Marked(sb, d, a)
        && TruncEntries(sb, d0, inodes0, owner0, SetMark(sb, d, a, false),
                        WithEntry(SetMark(sb, v, a, false), ind, j, 0), inodes, owner[a := Free], i, j + 1)
  {
    var ind := inodes[i].addrs[NDIRECT];
    var a := Word(d[ind], j);
    assert AddrOf(v, inodes[i], NDIRECT + j) == a;
    assert owner[ind] == Indirect(i);
    ReleasedNext(sb, v, inodes, owner0, owner, i, NDIRECT + j);
    if a != 0 {
      MarkBesideIndirect(sb, v, owner, ind, d[ind], a);
      EntryFree(sb, v, inodes, owner, i, j);
      hide BitmapOk, MapOk, NoLeak, OthersSame, ReleasedTo;
      var v' := WithEntry(SetMark(sb, v, a, false), ind, j, 0);
      OthersTrans(d0, inodes0, v, inodes, v', inodes, i);
      forall x | 0 <= x < NINDIRECT ensures Word(v'[ind], x) == if x < j + 1 then 0 else Word(d[ind], x) {
        WordOfSetWord(v[ind], j, 0, x);
      }
    }
  }

  lemma TruncEntriesEnd(sb: Super, d0: Disk, inodes0: seq<Inode>, owner0: seq<Owner>, d: Disk, v: Disk,
                        inodes: seq<Inode>, owner: seq<Owner>, i: nat)
    requires TruncEntries(sb, d0, inodes0, owner0, d, v, inodes, owner, i, NINDIRECT)
    ensures var ind := inodes[i].addrs[NDIRECT];
      && Marked(sb, d, ind)
      && TruncAll(sb, d0, inodes0, owner0, SetMark(sb, d, ind, false), inodes[i := WithAddr(inodes[i], NDIRECT, 0)],
                  owner[ind := Free], i)
  {
    var ind := inodes[i].addrs[NDIRECT];
    assert owner[ind] == Indirect(i);
    AllReleased(sb, v, inodes, owner0, owner, i);
    MarkBesideIndirect(sb, v, owner, ind, d[ind], ind);
    hide BitmapOk, MapOk, NoLeak, OthersSame, ReleasedTo, Released;
    forall bn | NDIRECT <= bn < MAXFILE ensures AddrOf(v, inodes[i], bn) == 0 {
      assert Word(v[ind], bn - NDIRECT) == 0;
    }
    IndirectFree(sb, v, inodes, owner, i);
    var v', inodes', owner' := SetMark(sb, v, ind, false), inodes[i := WithAddr(inodes[i], NDIRECT, 0)],
      owner[ind := Free];
    FreeBlockMoot(sb, v', inodes', owner', ind, d[ind], i);
    OthersTrans(d0, inodes0, v, inodes, v', inodes', i);
    OthersTrans(d0, inodes0, v', inodes', v'[ind := d[ind]], inodes', i);
  }

  lemma AllReleased(sb: Super, d: Disk, inodes: seq<Inode>, owner0: seq<Owner>, owner: seq<Owner>, i: nat)
    requires Inv(sb, d, inodes, owner) && i < |inodes| && ReleasedTo(owner0, owner, i, MAXFILE)
    requires inodes[i].addrs[NDIRECT] != 0
    ensures Released(owner0, owner[inodes[i].addrs[NDIRECT] := Free], i)
  {
    var ind := inodes[i].addrs[NDIRECT];
    forall b | 0 <= b < |owner0|
      ensures owner[ind := Free][b] == if owner0[b] == Indirect(i) || (owner0[b].Data? && owner0[b].inum == i) then Free
        else owner0[b]
    {
      if owner[b].Data? && owner[b].inum == i {
        assert owner[b].bn < MAXFILE;
      }
      if owner[b] == Indirect(i) {
        assert b == ind;
      }
    }
  }

  /** With all addresses gone, setting the size to 0 finishes the truncation. */
  lemma TruncEnd(sb: Super, d0: Disk, inodes0: seq<Inode>, owner0: seq<Owner>, d: Disk, inodes: seq<Inode>,
                 owner: seq<Owner>, i: nat, dinodes: seq<Inode>)
    requires Inv(sb, d0, inodes0, owner0) && NoHoles(sb, d0, inodes0, owner0) && dinodes == inodes0
    requires TruncAll(sb, d0, inodes0, owner0, d, inodes, owner, i)
    ensures var inodes' := inodes[i := inodes[i].(size := 0)];
      && inodes'[i] == Inode(seq(NDIRECT + 1, _ => 0), 0) && inodes' == inodes0[i := inodes'[i]]
        && dinodes[i := inodes'[i]] == inodes'
      && Inv(sb, d, inodes', owner) && NoHoles(sb, d, inodes', owner)
      && OthersSame(d0, inodes0, d, inodes', i)
  {
    var inodes' := inodes[i := inodes[i].(size := 0)];
    assert inodes[i].addrs == seq(NDIRECT + 1, _ => 0);
    assert forall x, y :: 0 <= x < |inodes| && 0 <= y < MAXFILE ==> AddrOf(d, inodes'[x], y) == AddrOf(d, inodes[x], y);
    TruncNoHoles(sb, d0, inodes0, owner0, d, inodes, owner, i);
  }

  lemma TruncNoHoles(sb: Super, d0: Disk, inodes0: seq<Inode>, owner0: seq<Owner>, d: Disk, inodes: seq<Inode>,
                     owner: seq<Owner>, i: nat)
    requires Inv(sb, d0, inodes0, owner0) && NoHoles(sb, d0, inodes0, owner0)
    requires TruncAll(sb, d0, inodes0, owner0, d, inodes, owner, i)
    ensures Shape(sb, d, inodes[i := inodes[i].(size := 0)], owner)
    ensures NoHoles(sb, d, inodes[i := inodes[i].(size := 0)], owner)
  {
    forall x, bn | 0 <= x < |inodes| && x != i && 0 <= bn < MAXFILE && bn * BSIZE < inodes[x].size
      ensures AddrOf(d, inodes[x], bn) != 0
    {
      var a := AddrOf(d0, inodes0[x], bn);
      assert a != 0 && owner0[a] == Data(x, bn);
      assert owner[a] == Data(x, bn);
    }
  }

  // ----- filewrite -----

  lemma WroteNothing(sb: Super, d: Disk, inodes: seq<Inode>, owner: seq<Owner>, i: nat, off: nat)
    requires Inv(sb, d, inodes, owner) && i < |inodes| && off <= inodes[i].size
    ensures Readable(d, inodes) && Wrote(d, inodes, d, inodes, i, off, [], 0)
  {
  }

  /** One more chunk of filewrite. */
  lemma WroteNext(d0: Disk, inodes0: seq<Inode>, d1: Disk, inodes1: seq<Inode>, d2: Disk, inodes2: seq<Inode>,
                  i: nat, off: nat, src: seq<byte>, n: nat, n1: nat, got: nat, r: nat)
    requires Readable(d0, inodes0) && Readable(d1, inodes1) && Readable(d2, inodes2)
    requires n + n1 <= |src| && r <= got <= n1
    requires Wrote(d0, inodes0, d1, inodes1, i, off, src[..n], n)
    requires Wrote(d1, inodes1, d2, inodes2, i, off + n, src[n..n + n1][..got], r)
    ensures Wrote(d0, inodes0, d2, inodes2, i, off, src[..n + got], n + r)
    ensures i < |inodes2| && off + n + r <= inodes2[i].size && off + n + r <= MAXFILE * BSIZE
  {
    WroteTwice(d0, inodes0, d1, inodes1, d2, inodes2, i, off, src[..n], src[n..n + n1][..got], r);
    assert src[..n] + src[n..n + n1][..got] == src[..n + got];
  }

  lemma {:induction false} NoBits(k: nat)
    ensures !Bit(0, k)
  {
    if k > 0 {
      NoBits(k - 1);
    }
  }

  lemma NoneMarked(sb: Super, d: Disk)
    requires SuperOk(sb) && |d| == sb.size && forall b :: 0 <= b < |d| ==> d[b] == ZeroBlock()
    ensures forall b :: 0 <= b < sb.size ==> !Marked(sb, d, b)
  {
    forall b | 0 <= b < sb.size
      ensures !Marked(sb, d, b)
    {
      NoBits(b % BPB % 8);
    }
  }

  const NOFILE: Inode := Inode(seq(NDIRECT + 1, _ => 0), 0)

  /** mkfs: every block zeroed, and the blocks in front of the data marked in the free map. */
  method Format(sb: Super) returns (d: Disk)
    requires SuperOk(sb)
    ensures |d| == sb.size && forall b :: 0 <= b < sb.size ==> (Marked(sb, d, b) <==> b < sb.datastart)
    ensures forall b :: sb.datastart <= b < sb.size ==> d[b] == ZeroBlock()
  {
    hide Marked;
    d := seq(sb.size, _ => ZeroBlock());
    NoneMarked(sb, d);
    var b := 0;
    while b < sb.datastart
      invariant b <= sb.datastart && |d| == sb.size
      invariant forall c :: 0 <= c < sb.size ==> (Marked(sb, d, c) <==> c < b)
      invariant forall c :: sb.datastart <= c < sb.size ==> d[c] == ZeroBlock()
    {
      forall c | 0 <= c < sb.size
        ensures Marked(sb, SetMark(sb, d, b, true), c) <==> c < b + 1
      {
        MarkedAfter(sb, d, b, true, c);
      }
      d := SetMark(sb, d, b, true);
      b := b + 1;
    }
  }

  lemma EmptyInv(sb: Super, d: Disk, inodes: seq<Inode>, owner: seq<Owner>)
    requires SuperOk(sb) && |d| == |owner| == sb.size && |inodes| == sb.ninodes
    requires forall b :: 0 <= b < sb.size ==> (Marked(sb, d, b) <==> b < sb.datastart)
    requires forall b :: 0 <= b < sb.size ==> owner[b] == if b < sb.datastart then Meta else Free
    requires forall i :: 0 <= i < |inodes| ==> inodes[i] == NOFILE
    ensures Inv(sb, d, inodes, owner) && NoHoles(sb, d, inodes, owner)
  {
    hide Marked;
    assert sb.size > 0 || sb.ninodes == 0;
  }

  class Volume {
    const sb: Super
    var d: Disk
    var inodes: seq<Inode>    // in-memory copies
    var dinodes: seq<Inode>   // what iupdate last stored
    ghost var owner: seq<Owner>
    ghost var logged: set<nat> // blocks passed to log_write

    /** Between file-system operations. */
    ghost predicate Valid()
      reads this
    {
      Inv(sb, d, inodes, owner) && NoHoles(sb, d, inodes, owner) && dinodes == inodes
    }

    /** The volume mkfs lays out before it adds files. */
    constructor (sb: Super)
      requires SuperOk(sb)
      ensures Valid() && this.sb == sb && logged == {}
      ensures |inodes| == sb.ninodes && forall i :: 0 <= i < |inodes| ==> inodes[i] == NOFILE
      ensures forall b :: sb.datastart <= b < sb.size ==> owner[b] == Free
    {
      this.sb := sb;
      var image := Format(sb);
      ghost var who := seq(sb.size, b => if b < sb.datastart then Meta else Free);
      EmptyInv(sb, image, seq(sb.ninodes, _ => NOFILE), who);
      d, inodes, dinodes := image, seq(sb.ninodes, _ => NOFILE), seq(sb.ninodes, _ => NOFILE);
      owner, logged := who, {};
    }

    /** balloc: the first free block, marked and zeroed; 0 when there is none. */
    method Balloc(ghost who: Owner) returns (b: uint32)
      requires SuperOk(sb) && |d| == |owner| == sb.size && BitmapOk(sb, d, owner) && (who.Data? || who.Indirect?)
      modifies this`d, this`owner, this`logged
      ensures b == 0 ==>
        d == old(d) && owner == old(owner) && logged == old(logged) && forall c :: 0 <= c < sb.size ==> owner[c] != Free
      ensures b != 0 ==>
        && b < sb.size && old(owner)[b] == Free && (forall c :: 0 <= c < b ==> old(owner)[c] != Free)
        && d == Allocated(sb, old(d), b) && owner == old(owner)[b := who]
        && logged == old(logged) + {BBlock(sb, b), b}
    {
      var base := 0;
      while base < sb.size
        invariant base % BPB == 0
        invariant d == old(d) && owner == old(owner) && logged == old(logged)
        invariant forall c :: 0 <= c < base && c < sb.size ==> owner[c] != Free
      {
        var bi := ScanBitmap(base);
        if bi < BPB && base + bi < sb.size {
          Claim(base + bi, who);
          return base + bi;
        }
        base := base + BPB;
      }
      b := 0;
    }

    /** balloc's inner loop: the first free bit of one bitmap block, from block number base. */
    method ScanBitmap(base: nat) returns (bi: nat)
      requires SuperOk(sb) && |d| == |owner| == sb.size && BitmapOk(sb, d, owner) && base < sb.size && base % BPB == 0
      ensures bi <= BPB && base + bi <= sb.size
      ensures forall c :: base <= c < base + bi ==> owner[c] != Free
      ensures bi < BPB && base + bi < sb.size ==> owner[base + bi] == Free
    {
      bi := 0;
      while bi < BPB && base + bi < sb.size
        invariant 0 <= bi <= BPB && base + bi <= sb.size
        invariant forall c :: base <= c < base + bi ==> owner[c] != Free
      {
        assert BBlock(sb, base + bi) == BBlock(sb, base) && (base + bi) % BPB == bi;
        assert Marked(sb, d, base + bi) <==> owner[base + bi] != Free;
        if !Bit(d[BBlock(sb, base)][bi / 8], bi % 8) {
          return;
        }
        bi := bi + 1;
      }
    }

    /** Mark block b in the free map, then bzero it. */
    method Claim(b: nat, ghost who: Owner)
      requires SuperOk(sb) && |d| == |owner| == sb.size && b < sb.size
      modifies this`d, this`owner, this`logged
      ensures d == Allocated(sb, old(d), b) && owner == old(owner)[b := who]
        && logged == old(logged) + {BBlock(sb, b), b}
    {
      var m, bi := BBlock(sb, b), b % BPB;
      d := d[m := d[m][bi / 8 := WithBit(d[m][bi / 8], bi % 8, true)]];
      logged := logged + {m};
      d := d[b := ZeroBlock()];
      logged := logged + {b};
      owner := owner[b := who];
    }

    /** bfree: false is the panic "freeing free block". */
    method Bfree(b: nat) returns (ok: bool)
      requires SuperOk(sb) && |d| == |owner| == sb.size && b < sb.size
      modifies this`d, this`owner, this`logged
      ensures ok <==> Marked(sb, old(d), b)
      ensures !ok ==> d == old(d) && owner == old(owner) && logged == old(logged)
      ensures ok ==>
        d == SetMark(sb, old(d), b, false) && owner == old(owner)[b := Free] && logged == old(logged) + {BBlock(sb, b)}
    {
      var m, bi := BBlock(sb, b), b % BPB;
      if !Bit(d[m][bi / 8], bi % 8) {
        return false;
      }
      d := d[m := d[m][bi / 8 := WithBit(d[m][bi / 8], bi % 8, false)]];
      owner := owner[b := Free];
      logged := logged + {m};
      ok := true;
    }

    /** bmap: file block bn of inode i, allocated if missing; 0 when the disk is full. */
    method Bmap(i: nat, bn: nat) returns (a: uint32)
      requires Inv(sb, d, inodes, owner) && i < |inodes| && bn < MAXFILE
      modifies this`d, this`inodes, this`owner, this`logged
      ensures Grown(sb, old(d), old(inodes), d, inodes, owner)
      ensures forall x :: 0 <= x < |inodes| && x != i ==> inodes[x] == old(inodes)[x]
      ensures a == AddrOf(d, inodes[i], bn)
      ensures a == 0 ==> forall c :: 0 <= c < sb.size ==> owner[c] != Free
      ensures AddrOf(old(d), old(inodes)[i], bn) != 0 ==>
        d == old(d) && inodes == old(inodes) && owner == old(owner) && logged == old(logged)
      ensures logged <= old(logged) + MapBlocks(sb, inodes[i]) + if a == 0 then {} else {a}
    {
      hide BitmapOk, MapOk, NoLeak, SameFiles, AddrsGrow;
      GrownSame(sb, d, inodes, owner);
      if bn < NDIRECT {
        a := inodes[i].addrs[bn];
        if a == 0 {
          a := Balloc(Data(i, bn));
          if a != 0 {
            DirectAlloc(sb, old(d), old(inodes), old(owner), i, bn, a);
            inodes := inodes[i := WithAddr(inodes[i], bn, a)];
          }
        }
        return;
      }
      a := BmapIndirect(i, bn - NDIRECT);
    }

    /** The inode's indirect block, allocated if missing; 0 when the disk is full. */
    method IndirectBlock(i: nat) returns (ind: uint32)
      requires Inv(sb, d, inodes, owner) && i < |inodes|
      modifies this`d, this`inodes, this`owner, this`logged
      ensures Grown(sb, old(d), old(inodes), d, inodes, owner)
      ensures forall x :: 0 <= x < |inodes| && x != i ==> inodes[x] == old(inodes)[x]
      ensures ind == inodes[i].addrs[NDIRECT]
      ensures ind == 0 ==> forall c :: 0 <= c < sb.size ==> owner[c] != Free
      ensures old(inodes)[i].addrs[NDIRECT] != 0 ==>
        d == old(d) && inodes == old(inodes) && owner == old(owner) && logged == old(logged)
      ensures logged <= old(logged) + MapBlocks(sb, inodes[i])
    {
      hide MapOk, NoLeak, SameFiles, AddrsGrow;
      GrownSame(sb, d, inodes, owner);
      ind := inodes[i].addrs[NDIRECT];
      if ind == 0 {
        ind := Balloc(Indirect(i));
        if ind != 0 {
          IndirectAlloc(sb, old(d), old(inodes), old(owner), i, ind);
          inodes := inodes[i := WithAddr(inodes[i], NDIRECT, ind)];
        }
      }
    }

    /** The block of entry j of the indirect block, allocated if missing. */
    method IndirectEntry(i: nat, j: nat) returns (a: uint32)
      requires Inv(sb, d, inodes, owner) && i < |inodes| && j < NINDIRECT && inodes[i].addrs[NDIRECT] != 0
      modifies this`d, this`owner, this`logged
      ensures Grown(sb, old(d), inodes, d, inodes, owner)
      ensures a == AddrOf(d, inodes[i], NDIRECT + j)
      ensures a == 0 ==> forall c :: 0 <= c < sb.size ==> owner[c] != Free
      ensures AddrOf(old(d), inodes[i], NDIRECT + j) != 0 ==>
        d == old(d) && owner == old(owner) && logged == old(logged)
      ensures logged <= old(logged) + MapBlocks(sb, inodes[i]) + if a == 0 then {} else {a}
    {
      hide MapOk, NoLeak, SameFiles, AddrsGrow;
      GrownSame(sb, d, inodes, owner);
      var ind := inodes[i].addrs[NDIRECT];
      a := Word(d[ind], j);
      if a == 0 {
        a := Balloc(Data(i, NDIRECT + j));
        if a != 0 {
          EntryAlloc(sb, old(d), inodes, old(owner), i, j, a);
          d := d[ind := SetWord(d[ind], j, a)];
          logged := logged + {ind};
          NewEntry(old(d), d, inodes[i], j, a);
        }
      }
    }

    method BmapIndirect(i: nat, j: nat) returns (a: uint32)
      requires Inv(sb, d, inodes, owner) && i < |inodes| && j < NINDIRECT
      modifies this`d, this`inodes, this`owner, this`logged
      ensures Grown(sb, old(d), old(inodes), d, inodes, owner)
      ensures forall x :: 0 <= x < |inodes| && x != i ==> inodes[x] == old(inodes)[x]
      ensures a == AddrOf(d, inodes[i], NDIRECT + j)
      ensures a == 0 ==> forall c :: 0 <= c < sb.size ==> owner[c] != Free
      ensures AddrOf(old(d), old(inodes)[i], NDIRECT + j) != 0 ==>
        d == old(d) && inodes == old(inodes) && owner == old(owner) && logged == old(logged)
      ensures logged <= old(logged) + MapBlocks(sb, inodes[i]) + if a == 0 then {} else {a}
    {
      var ind := IndirectBlock(i);
      if ind == 0 {
        return 0;
      }
      ghost var d1, inodes1, owner1 := d, inodes, owner;
      a := IndirectEntry(i, j);
      GrownTwice(sb, old(d), old(inodes), d1, inodes1, owner1, d, inodes, owner);
    }

    /** bmap of a block the file has: nothing is allocated. */
    method BmapExisting(i: nat, bn: nat) returns (a: uint32)
      requires Inv(sb, d, inodes, owner) && i < |inodes| && bn < MAXFILE && AddrOf(d, inodes[i], bn) != 0
      modifies this`d, this`inodes, this`owner, this`logged
      ensures d == old(d) && inodes == old(inodes) && owner == old(owner) && logged == old(logged)
      ensures a == AddrOf(d, inodes[i], bn) && a < |d|
    {
      a := Bmap(i, bn);
    }

    /**
     readi into memory that can be written for reach bytes; data is what was copied there, -1
     means not all of it fitted.
     */
    method Readi(i: nat, off: uint32, n: uint32, reach: nat) returns (r: int, data: seq<byte>)
      requires Valid() && i < |inodes|
      modifies this`d, this`inodes, this`owner, this`logged
      ensures d == old(d) && inodes == old(inodes) && owner == old(owner) && logged == old(logged)
      ensures var all := Asked(d, inodes[i], off, n);
        if reach < |all| then r == -1 && data == all[..reach] else r == |all| && data == all
    {
      hide BitmapOk, MapOk, NoLeak, NoHoles, Contents;
      if off > inodes[i].size || (off + n) % TWO32 < off {
        return 0, [];
      }
      var want := if off + n > inodes[i].size then inodes[i].size - off else n;
      r, data := ReadLoop(i, off, want, reach);
    }

    /** readi's loop: want bytes from off on, all of them in the file. */
    method ReadLoop(i: nat, off: nat, want: nat, reach: nat) returns (r: int, data: seq<byte>)
      requires Valid() && i < |inodes| && off + want <= inodes[i].size
      modifies this`d, this`inodes, this`owner, this`logged
      ensures d == old(d) && inodes == old(inodes) && owner == old(owner) && logged == old(logged)
      ensures r == (if reach < want then -1 else want)
      ensures data == Contents(d, inodes[i])[off..off + if reach < want then reach else want]
    {
      hide BitmapOk, MapOk, NoLeak, NoHoles, Contents;
      ghost var c := Contents(d, inodes[i]);
      r, data := 0, [];
      while r < want
        invariant d == old(d) && inodes == old(inodes) && owner == old(owner) && logged == old(logged)
        invariant 0 <= r == |data| <= want && r <= reach && data == c[off..off + r]
        decreases want - r
      {
        var chunk := ReadBlock(i, off + r, want - r);
        var m := |chunk|;
        if r + m > reach {
          SliceJoin(c, off, data, chunk[..reach - r]);
          return -1, data + chunk[..reach - r];
        }
        SliceJoin(c, off, data, chunk);
        data := data + chunk;
        r := r + m;
      }
    }

    /** One round of readi's loop: the rest of the request, or of the current block. */
    method ReadBlock(i: nat, pos: nat, left: nat) returns (chunk: seq<byte>)
      requires Valid() && i < |inodes| && left > 0 && pos + left <= inodes[i].size
      modifies this`d, this`inodes, this`owner, this`logged
      ensures d == old(d) && inodes == old(inodes) && owner == old(owner) && logged == old(logged)
      ensures 0 < |chunk| <= left && chunk == Contents(d, inodes[i])[pos..pos + |chunk|]
    {
      assert AddrOf(d, inodes[i], pos / BSIZE) != 0;
      var a := BmapExisting(i, pos / BSIZE);
      var room := BSIZE - pos % BSIZE;
      var m := if left < room then left else room;
      ReadChunk(d, inodes[i], pos, m, a);
      chunk := d[a][pos % BSIZE..pos % BSIZE + m];
    }

    /** writei from a source readable for reach bytes: -1, or how many bytes it counts as written; got were copied. */
    method Writei(i: nat, off: uint32, src: seq<byte>, reach: nat) returns (r: int, ghost got: nat)
      requires Valid() && i < |inodes| && |src| < TWO32
      modifies this
      ensures r == -1 <==> off > old(inodes)[i].size || off + |src| > MAXFILE * BSIZE
      ensures r == -1 ==>
        d == old(d) && inodes == old(inodes) && dinodes == old(dinodes) && owner == old(owner) && logged == old(logged)
      ensures Valid() && -1 <= r <= got <= |src| && |inodes| == |old(inodes)|
      ensures r >= 0 ==> Wrote(old(d), old(inodes), d, inodes, i, off, src[..got], r)
      ensures r >= 0 ==> Stopped(sb, d, inodes, owner, i, off, |src|, reach, r, got)
      ensures r >= 0 ==>
        (Contents(d, inodes[i]) == Splice(old(Contents(d, inodes[i])), off, src[..r]) <==>
         Untorn(old(Contents(d, inodes[i])), off, src, reach))
      ensures r >= 0 ==> logged <= old(logged) + WriteSet(sb, d, inodes[i], off, |src|) + {IBlock(sb, i)}
    {
      hide BitmapOk, MapOk, NoLeak, NoHoles, Wrote, WriteSet, AddrsGrow, Backed, Shows, Stopped;
      got := 0;
      if off > inodes[i].size || (off + |src|) % TWO32 < off {
        return -1, 0;
      }
      if (off + |src|) % TWO32 > MAXFILE * BSIZE {
        return -1, 0;
      }
      var tot;
      tot, got := WriteLoop(i, off, src, reach);
      ProgressDone(sb, old(d), old(inodes), old(owner), d, inodes, owner, i, off, src[..got], tot, |src|);
      StoppedResized(sb, d, inodes, owner, i, off, |src|, reach, tot, got, off + tot);
      if off + tot > inodes[i].size {
        inodes := inodes[i := inodes[i].(size := off + tot)];
      }
      Iupdate(i);
      r := tot;
      WroteExactly(sb, old(d), old(inodes), old(owner), d, inodes, owner, i, off, src, reach, r, got);
    }

    /**
     What a torn write looks like: two bytes over the first two of a file, the second unreadable.
     writei says it wrote none, and the file's first byte is the new one.
     */
    method TornWrite(i: nat, b: byte, c: byte) returns (r: int)
      requires Valid() && i < |inodes| && inodes[i].size >= 2 && b != Contents(d, inodes[i])[0]
      modifies this
      ensures Valid() && r == 0 && |inodes| == |old(inodes)|
      ensures Contents(d, inodes[i]) == [b] + old(Contents(d, inodes[i]))[1..] != old(Contents(d, inodes[i]))
    {
      hide BitmapOk, MapOk, NoLeak, AddrsGrow;
      ghost var d0, inodes0, owner0 := d, inodes, owner;
      ghost var got;
      r, got := Writei(i, 0, [b, c], 1);
      assert AddrOf(d, inodes[i], 0) != 0;
      WroteContents(sb, d0, inodes0, owner0, d, inodes, owner, i, 0, [b, c][..got], r);
    }

    method Iupdate(i: nat)
      requires i < |inodes| == |dinodes|
      modifies this`dinodes, this`logged
      ensures dinodes == old(dinodes)[i := inodes[i]] && logged == old(logged) + {IBlock(sb, i)}
    {
      dinodes := dinodes[i := inodes[i]];
      logged := logged + {IBlock(sb, i)};
    }

    /** writei's loop: map, copy, log, block by block, until done, out of space or unable to read on. */
    method WriteLoop(i: nat, off: nat, src: seq<byte>, reach: nat) returns (tot: nat, ghost got: nat)
      requires Inv(sb, d, inodes, owner) && i < |inodes| && off + |src| <= MAXFILE * BSIZE
      modifies this`d, this`inodes, this`owner, this`logged
      ensures tot <= got <= |src| && WriteProgress(sb, old(d), old(inodes), d, inodes, owner, i, off, src[..got])
      ensures Stopped(sb, d, inodes, owner, i, off, |src|, reach, tot, got)
      ensures |inodes| == |old(inodes)| && forall x :: 0 <= x < |inodes| && x != i ==> inodes[x] == old(inodes)[x]
      ensures logged <= old(logged) + WriteSet(sb, d, inodes[i], off, |src|)
    {
      hide BitmapOk, MapOk, NoLeak, AddrsGrow, Backed, Shows, WriteSet;
      tot, got := 0, 0;
      ProgressStart(sb, d, inodes, owner, i, off);
      assert src[..0] == [];
      var stop := false;
      while tot < |src| && !stop
        invariant 0 <= tot <= got <= |src| && tot <= reach && (tot == 0 || tot == |src| || (off + tot) % BSIZE == 0)
        invariant WriteProgress(sb, old(d), old(inodes), d, inodes, owner, i, off, src[..got])
        invariant if stop then Stopped(sb, d, inodes, owner, i, off, |src|, reach, tot, got) else got == tot
        invariant |inodes| == |old(inodes)| && forall x :: 0 <= x < |inodes| && x != i ==> inodes[x] == old(inodes)[x]
        invariant logged <= old(logged) + WriteSet(sb, d, inodes[i], off, |src|)
        decreases |src| - tot, !stop
      {
        var m;
        m, got := WriteRound(i, off, src, reach, tot, old(d), old(inodes), old(logged));
        stop := m == 0;
        tot := tot + m;
      }
    }

    /** One round of writei's loop; 0 means that bmap found no space or that the source could not be read to its end. */
    method WriteRound(i: nat, off: nat, src: seq<byte>, reach: nat, tot: nat, ghost d0: Disk, ghost inodes0: seq<Inode>,
                      ghost logged0: set<nat>)
      returns (m: nat, ghost got: nat)
      requires i < |inodes| && off + |src| <= MAXFILE * BSIZE && tot < |src| && tot <= reach
      requires (tot == 0 || (off + tot) % BSIZE == 0)
      requires WriteProgress(sb, d0, inodes0, d, inodes, owner, i, off, src[..tot])
      requires logged <= logged0 + WriteSet(sb, d, inodes[i], off, |src|)
      modifies this`d, this`inodes, this`owner, this`logged
      ensures tot + m <= got <= |src| && WriteProgress(sb, d0, inodes0, d, inodes, owner, i, off, src[..got])
      ensures m == 0 ==> Stopped(sb, d, inodes, owner, i, off, |src|, reach, tot, got)
      ensures m > 0 ==> got == tot + m <= reach && (got == |src| || (off + got) % BSIZE == 0)
      ensures |inodes| == |old(inodes)| && forall x :: 0 <= x < |inodes| && x != i ==> inodes[x] == old(inodes)[x]
      ensures logged <= logged0 + WriteSet(sb, d, inodes[i], off, |src|)
    {
      hide BitmapOk, MapOk, NoLeak, AddrsGrow, Backed, Shows, WriteSet;
      var a := MapForWrite(i, off, src, tot, d0, inodes0, logged0);
      if a == 0 {
        return 0, tot;
      }
      m, got := CopyChunk(i, off, src, reach, tot, a, d0, inodes0, logged0);
    }

    /** The bmap call of writei's loop. */
    method MapForWrite(i: nat, off: nat, src: seq<byte>, tot: nat, ghost d0: Disk, ghost inodes0: seq<Inode>,
                       ghost logged0: set<nat>)
      returns (a: uint32)
      requires i < |inodes| && off + |src| <= MAXFILE * BSIZE && tot < |src|
      requires WriteProgress(sb, d0, inodes0, d, inodes, owner, i, off, src[..tot])
      requires logged <= logged0 + WriteSet(sb, d, inodes[i], off, |src|)
      modifies this`d, this`inodes, this`owner, this`logged
      ensures WriteProgress(sb, d0, inodes0, d, inodes, owner, i, off, src[..tot])
      ensures a == AddrOf(d, inodes[i], (off + tot) / BSIZE)
      ensures a == 0 ==> forall c :: 0 <= c < sb.size ==> owner[c] != Free
      ensures |inodes| == |old(inodes)| && forall x :: 0 <= x < |inodes| && x != i ==> inodes[x] == old(inodes)[x]
      ensures logged <= logged0 + WriteSet(sb, d, inodes[i], off, |src|)
      ensures a != 0 ==> a in WriteSet(sb, d, inodes[i], off, |src|)
    {
      a := Bmap(i, (off + tot) / BSIZE);
      ProgressGrown(sb, d0, inodes0, old(d), old(inodes), old(owner), i, off, src[..tot], d, inodes, owner);
      LoggedGrow(sb, old(d), old(inodes)[i], d, inodes[i], off / BSIZE, (off + |src| + BSIZE - 1) / BSIZE,
                 (off + tot) / BSIZE);
    }

    /**
     The copy of writei's loop: as much as is left, or as fits in the block. When the source ends early, what could be
     read is in the buffer all the same, and the buffer is not logged.
     */
    method CopyChunk(i: nat, off: nat, src: seq<byte>, reach: nat, tot: nat, a: uint32,
                     ghost d0: Disk, ghost inodes0: seq<Inode>, ghost logged0: set<nat>)
      returns (m: nat, ghost got: nat)
      requires i < |inodes| && off + |src| <= MAXFILE * BSIZE && tot < |src| && tot <= reach
      requires (tot == 0 || (off + tot) % BSIZE == 0)
      requires WriteProgress(sb, d0, inodes0, d, inodes, owner, i, off, src[..tot])
      requires 0 != a == AddrOf(d, inodes[i], (off + tot) / BSIZE) && a in WriteSet(sb, d, inodes[i], off, |src|)
      requires logged <= logged0 + WriteSet(sb, d, inodes[i], off, |src|)
      modifies this`d, this`logged
      ensures tot + m <= got <= |src| && WriteProgress(sb, d0, inodes0, d, inodes, owner, i, off, src[..got])
      ensures m == 0 ==> reach < |src| && got == reach && Faulted(off, reach, tot) && logged == old(logged)
      ensures m > 0 ==> got == tot + m <= reach && (got == |src| || (off + got) % BSIZE == 0)
      ensures logged <= logged0 + WriteSet(sb, d, inodes[i], off, |src|)
    {
      hide BitmapOk, MapOk, NoLeak, AddrsGrow, Backed, Shows, DataBlocks, MapBlocks;
      var pos := off + tot;
      var room := BSIZE - pos % BSIZE;
      m := if |src| - tot < room then |src| - tot else room;
      ChunkEnd(off, tot, m, |src|, reach);
      var n := if tot + m <= reach then m else reach - tot;
      got := tot + n;
      if n > 0 {
        var chunk := src[tot..tot + n];
        assert src[..tot] + chunk == src[..tot + n];
        ProgressChunk(sb, d0, inodes0, d, inodes, owner, i, off, src[..tot], chunk);
        DataWrite(sb, d, inodes, owner, i, pos / BSIZE, Patch(d[a], pos % BSIZE, chunk));
        SameDataBlocks(d, d[a := Patch(d[a], pos % BSIZE, chunk)], inodes[i], off / BSIZE,
                       (off + |src| + BSIZE - 1) / BSIZE);
        d := d[a := Patch(d[a], pos % BSIZE, chunk)];
      }
      if n < m {
        return 0, got;
      }
      logged := logged + {a};
    }

    // ----- truncation -----

    /** itrunc: every block of the file becomes free and no other; bfree never panics. */
    method Itrunc(i: nat) returns (ok: bool)
      requires Valid() && i < |inodes|
      modifies this
      ensures ok && Valid()
      ensures inodes == old(inodes)[i := Inode(seq(NDIRECT + 1, _ => 0), 0)]
      ensures Released(old(owner), owner, i)
      ensures OthersSame(old(d), old(inodes), d, inodes, i)
    {
      hide BitmapOk, MapOk, NoLeak, NoHoles, OthersSame, ReleasedTo, Released;
      TruncStart(sb, d, inodes, owner, i);
      var j := 0;
      while j < NDIRECT
        invariant 0 <= j <= NDIRECT
        invariant TruncDirect(sb, old(d), old(inodes), old(owner), d, inodes, owner, i, j)
        invariant dinodes == old(dinodes)
      {
        ok := FreeDirect(i, j, old(d), old(inodes), old(owner));
        if !ok {
          return false;
        }
        j := j + 1;
      }
      ok := FreeIndirect(i, old(d), old(inodes), old(owner));
      if !ok {
        return false;
      }
      TruncEnd(sb, old(d), old(inodes), old(owner), d, inodes, owner, i, dinodes);
      inodes := inodes[i := inodes[i].(size := 0)];
      Iupdate(i);
    }

    method FreeDirect(i: nat, j: nat, ghost d0: Disk, ghost inodes0: seq<Inode>, ghost owner0: seq<Owner>)
      returns (ok: bool)
      requires j < NDIRECT && TruncDirect(sb, d0, inodes0, owner0, d, inodes, owner, i, j)
      modifies this`d, this`inodes, this`owner, this`logged
      ensures ok && TruncDirect(sb, d0, inodes0, owner0, d, inodes, owner, i, j + 1)
    {
      hide BitmapOk, MapOk, NoLeak, OthersSame, ReleasedTo;
      TruncDirectNext(sb, d0, inodes0, owner0, d, inodes, owner, i, j);
      ok := true;
      if inodes[i].addrs[j] != 0 {
        ok := Bfree(inodes[i].addrs[j]);
        inodes := inodes[i := WithAddr(inodes[i], j, 0)];
      }
    }

    method FreeIndirect(i: nat, ghost d0: Disk, ghost inodes0: seq<Inode>, ghost owner0: seq<Owner>) returns (ok: bool)
      requires TruncDirect(sb, d0, inodes0, owner0, d, inodes, owner, i, NDIRECT)
      modifies this`d, this`inodes, this`owner, this`logged
      ensures ok && TruncAll(sb, d0, inodes0, owner0, d, inodes, owner, i)
    {
      hide BitmapOk, MapOk, NoLeak, OthersSame, ReleasedTo, Released;
      ok := true;
      var ind := inodes[i].addrs[NDIRECT];
      if ind == 0 {
        TruncNoIndirect(sb, d0, inodes0, owner0, d, inodes, owner, i);
        return;
      }
      ghost var v := d;
      TruncEntriesStart(sb, d0, inodes0, owner0, d, inodes, owner, i);
      var j := 0;
      while j < NINDIRECT
        invariant 0 <= j <= NINDIRECT
        invariant |inodes| == |inodes0| && i < |inodes| && inodes == old(inodes)
        invariant TruncEntries(sb, d0, inodes0, owner0, d, v, inodes, owner, i, j)
      {
        ok, v := FreeEntry(i, j, d0, inodes0, owner0, v);
        if !ok {
          return false;
        }
        j := j + 1;
      }
      TruncEntriesEnd(sb, d0, inodes0, owner0, d, v, inodes, owner, i);
      ok := Bfree(ind);
      inodes := inodes[i := WithAddr(inodes[i], NDIRECT, 0)];
    }

    method FreeEntry(i: nat, j: nat, ghost d0: Disk, ghost inodes0: seq<Inode>, ghost owner0: seq<Owner>, ghost v: Disk)
      returns (ok: bool, ghost v': Disk)
      requires j < NINDIRECT && TruncEntries(sb, d0, inodes0, owner0, d, v, inodes, owner, i, j)
      modifies this`d, this`owner, this`logged
      ensures ok && TruncEntries(sb, d0, inodes0, owner0, d, v', inodes, owner, i, j + 1)
    {
      hide BitmapOk, MapOk, NoLeak, OthersSame, ReleasedTo;
      TruncEntriesNext(sb, d0, inodes0, owner0, d, v, inodes, owner, i, j);
      ok, v' := true, v;
      var a := Word(d[inodes[i].addrs[NDIRECT]], j);
      if a != 0 {
        v' := WithEntry(SetMark(sb, v, a, false), inodes[i].addrs[NDIRECT], j, 0);
        ok := Bfree(a);
      }
    }

    // ----- filewrite -----

    /**
     filewrite on an inode, from a source readable for reach bytes: chunks of WRITEMAX bytes,
     one transaction each.
     */
    method Filewrite(i: nat, off: uint32, src: seq<byte>, reach: nat) returns (ret: int, off': uint32, ghost got: nat)
      requires Valid() && i < |inodes| && |src| < 0x8000_0000
      modifies this
      ensures Valid() && |inodes| == |old(inodes)|
      ensures ret == |src| || ret == -1
      ensures off <= off' <= off + got <= off + |src|
      ensures ret == |src| ==> off' == off + |src|
      ensures reach >= |src| ==> off' == off + got
      ensures off <= old(inodes)[i].size ==> Wrote(old(d), old(inodes), d, inodes, i, off, src[..got], off' - off)
      ensures off > old(inodes)[i].size ==>
        off' == off && d == old(d) && inodes == old(inodes) && owner == old(owner) && ret == if src == [] then 0 else -1
      ensures ret == -1 ==>
        off > old(inodes)[i].size || off + |src| > MAXFILE * BSIZE || reach < |src|
          || forall c :: 0 <= c < sb.size ==> owner[c] != Free
    {
      hide BitmapOk, MapOk, NoLeak, NoHoles, Wrote, AddrsGrow, WriteSet, Contents, Splice, Untorn, Faulted;
      if off <= inodes[i].size {
        WroteNothing(sb, d, inodes, owner, i, off);
      }
      assert src[..0] == [];
      off', got := off, 0;
      var n, done := 0, false;
      while n < |src| && !done
        invariant 0 <= n <= |src| && Valid() && |inodes| == |old(inodes)|
        invariant off + n <= off' <= off + got <= off + |src| && (!done ==> off' == off + n == off + got)
        invariant reach >= |src| ==> off' == off + got
        invariant Readable(old(d), old(inodes)) && Readable(d, inodes)
        invariant off <= old(inodes)[i].size ==> Wrote(old(d), old(inodes), d, inodes, i, off, src[..got], off' - off)
        invariant off <= old(inodes)[i].size && !done ==> off' <= inodes[i].size
        invariant off > old(inodes)[i].size ==>
          n == 0 && off' == off && d == old(d) && inodes == old(inodes) && owner == old(owner)
        invariant done ==>
          && n < |src|
          && (off > old(inodes)[i].size || off + |src| > MAXFILE * BSIZE || reach < |src|
              || forall c :: 0 <= c < sb.size ==> owner[c] != Free)
        decreases |src| - n, !done
      {
        var n1 := if |src| - n > WRITEMAX then WRITEMAX else |src| - n;
        ghost var d1, inodes1 := d, inodes;
        var r;
        ghost var more;
        r, more := Writei(i, off', src[n..n + n1], if reach > n then reach - n else 0);
        if r >= 0 {
          WroteNext(old(d), old(inodes), d1, inodes1, d, inodes, i, off, src, n, n1, more, r);
          got := n + more;
        }
        if r > 0 {
          off' := off' + r;
        }
        if r != n1 {
          done := true;
        } else {
          n := n + r;
        }
      }
      ret := if n == |src| then |src| else -1;
    }
  }
}
