/** The on-disk structures of k/include/k/kfs.h, their bytes under the checksum, and how a file is read back. */
module Kfs {
  import opened Words
  import opened Checksum

  const KFS_MAGIC := 0xd35f9caa
  const KFS_BLK_SZ := 4096
  const KFS_BLK_DATA_SZ := 4084
  const KFS_DIRECT_BLK := 10
  const KFS_INDIRECT_BLK := 16
  const KFS_INDIRECT_BLK_CNT := 16
  const KFS_FNAME_SZ := 32
  const KFS_MAX_FILE_SZ := (KFS_DIRECT_BLK + KFS_INDIRECT_BLK * KFS_INDIRECT_BLK_CNT) * KFS_BLK_DATA_SZ

  type Bytes = seq<Byte>

  datatype DataBlock = DataBlock(idx: nat, usage: nat, cksum: nat, data: Bytes)

  datatype IndexBlock = IndexBlock(idx: nat, blkCnt: nat, blks: seq<nat>, cksum: nat)

  datatype Inode = Inode(
    inumber: nat, filename: Bytes, fileSz: nat, idx: nat, blkCnt: nat, nextInode: nat,
    dBlkCnt: nat, iBlkCnt: nat, dBlks: seq<nat>, iBlks: seq<nat>, cksum: nat)

  datatype Superblock = Superblock(magic: nat, name: Bytes, ctime: nat, blkCnt: nat, inodeCnt: nat, inodeIdx: nat,
                                   cksum: nat)

  datatype Entry = Data(blk: DataBlock) | Index(iblk: IndexBlock) | Node(ino: Inode) | Super(sb: Superblock)

  /** The image: what was last written at each block index. */
  type Image = map<nat, Entry>

  // ----- the bytes that are summed

  function Le32(x: nat): (s: Bytes)
    ensures |s| == 4
  {
    [x % 256, x / 256 % 256, x / 65536 % 256, x / 16777216 % 256]
  }

  function Words32(xs: seq<nat>): (s: Bytes)
    ensures |s| == 4 * |xs|
  {
    if xs == [] then [] else Le32(xs[0]) + Words32(xs[1..])
  }

  /** A data block is summed whole, with its checksum field still zero. */
  function DataBytes(b: DataBlock): Bytes { Le32(b.idx) + Le32(b.usage) + Le32(0) + b.data }

  /** The others are summed up to the checksum field. */
  function IndexBytes(b: IndexBlock): Bytes { Le32(b.idx) + Le32(b.blkCnt) + Words32(b.blks) }

  function InodeHeader(n: Inode): Bytes {
    Le32(n.inumber) + n.filename + Le32(n.fileSz) + Le32(n.idx) + Le32(n.blkCnt) + Le32(n.nextInode)
    + Le32(n.dBlkCnt) + Le32(n.iBlkCnt)
  }

  function InodeBytes(n: Inode): Bytes { InodeHeader(n) + Words32(n.dBlks) + Words32(n.iBlks) }

  function SuperBytes(s: Superblock): Bytes {
    Le32(s.magic) + s.name + Le32(s.ctime) + Le32(s.blkCnt) + Le32(s.inodeCnt) + Le32(s.inodeIdx)
  }

  /** Fields of the sizes the structures declare. */
  predicate WellSized(e: Entry) {
    match e
    case Data(b) => |b.data| == KFS_BLK_DATA_SZ && b.usage <= KFS_BLK_DATA_SZ
    case Index(b) => |b.blks| == KFS_INDIRECT_BLK_CNT && b.blkCnt <= KFS_INDIRECT_BLK_CNT
    case Node(n) => |n.filename| == KFS_FNAME_SZ && |n.dBlks| == KFS_DIRECT_BLK && |n.iBlks| == KFS_INDIRECT_BLK
                    && n.dBlkCnt <= KFS_DIRECT_BLK && n.iBlkCnt <= KFS_INDIRECT_BLK
    case Super(s) => |s.name| == KFS_FNAME_SZ
  }

  /** The index field; the superblock is block 0. */
  function IndexField(e: Entry): nat {
    match e
    case Data(b) => b.idx
    case Index(b) => b.idx
    case Node(n) => n.idx
    case Super(_) => 0
  }

  /** What a structure does not use is zero. */
  predicate Blank(e: Entry) {
    match e
    case Data(b) => forall k | b.usage <= k < |b.data| :: b.data[k] == 0
    case Index(b) => forall k | b.blkCnt <= k < |b.blks| :: b.blks[k] == 0
    case Node(n) =>
      && (forall k | n.dBlkCnt <= k < |n.dBlks| :: n.dBlks[k] == 0)
      && (forall k | n.iBlkCnt <= k < |n.iBlks| :: n.iBlks[k] == 0)
    case Super(_) => true
  }

  /** Block i holds a structure with its own index, zeros where it is not in use and, as checksum, its Adler-32. */
  predicate Sealed(i: nat, e: Entry) {
    && WellSized(e) && IndexField(e) == i && Blank(e)
    && match e
       case Data(b) => b.cksum == Adler32(DataBytes(b))
       case Index(b) => b.cksum == Adler32(IndexBytes(b))
       case Node(n) => n.cksum == Adler32(InodeBytes(n))
       case Super(s) => s.cksum == Adler32(SuperBytes(s))
  }

  /** Every structure is short enough for the delayed modulo. */
  lemma StructuresShort(e: Entry)
    requires WellSized(e)
    ensures e.Data? ==> |DataBytes(e.blk)| == KFS_BLK_SZ <= LONGEST
    ensures e.Index? ==> |IndexBytes(e.iblk)| == 72
    ensures e.Node? ==> |InodeBytes(e.ino)| == 164
    ensures e.Super? ==> |SuperBytes(e.sb)| == 52
  {}

  // ----- every field where the structure has it

  /** The little-endian 32-bit word at offset i. */
  function WordAt(s: Bytes, i: nat): nat
    requires i + 4 <= |s|
  {
    s[i] as nat + 256 * s[i + 1] as nat + 65536 * s[i + 2] as nat + 16777216 * s[i + 3] as nat
  }

  lemma Le32Back(x: nat)
    requires x < TWO32
    ensures WordAt(Le32(x), 0) == x
  {
    assert x / 256 / 256 == x / 65536 && x / 65536 / 256 == x / 16777216;
  }

  /** Appending moves no word, and those appended follow. */
  lemma Appended(s: Bytes, t: Bytes)
    ensures forall i: nat | i + 4 <= |s| :: WordAt(s + t, i) == WordAt(s, i)
    ensures forall i: nat | i + 4 <= |t| :: WordAt(s + t, |s| + i) == WordAt(t, i)
  {}

  lemma AppendWord(s: Bytes, x: nat)
    requires x < TWO32
    ensures |s + Le32(x)| == |s| + 4 && WordAt(s + Le32(x), |s|) == x && (s + Le32(x))[..|s|] == s
    ensures forall i: nat | i + 4 <= |s| :: WordAt(s + Le32(x), i) == WordAt(s, i)
  {
    Appended(s, Le32(x));
    Le32Back(x);
    hide Le32, WordAt;
    assert WordAt(s + Le32(x), |s| + 0) == WordAt(Le32(x), 0);
  }

  predicate Narrow(xs: seq<nat>) { forall k | 0 <= k < |xs| :: xs[k] < TWO32 }

  lemma {:induction false} AppendWords(s: Bytes, xs: seq<nat>)
    requires Narrow(xs)
    ensures |s + Words32(xs)| == |s| + 4 * |xs| && (s + Words32(xs))[..|s|] == s
    ensures forall k | 0 <= k < |xs| :: WordAt(s + Words32(xs), |s| + 4 * k) == xs[k]
    ensures forall i: nat | i + 4 <= |s| :: WordAt(s + Words32(xs), i) == WordAt(s, i)
    decreases |xs|
  {
    hide WordAt, Le32;
    Appended(s, Words32(xs));
    if xs != [] {
      var s', r := s + Le32(xs[0]), xs[1..];
      assert s + Words32(xs) == s' + Words32(r);
      hide Words32;
      AppendWord(s, xs[0]);
      AppendWords(s', r);
      forall k | 0 <= k < |xs| ensures WordAt(s + Words32(xs), |s| + 4 * k) == xs[k] {
        if k > 0 {
          assert WordAt(s' + Words32(r), |s'| + 4 * (k - 1)) == r[k - 1];
        } else {
          assert WordAt(s' + Words32(r), |s|) == WordAt(s', |s|);
        }
      }
    }
  }

  /** struct kfs_block: the checksum, still zero, lies between usage and data. */
  lemma DataFields(b: DataBlock)
    requires WellSized(Data(b)) && b.idx < TWO32
    ensures var s := DataBytes(b);
            && |s| == 4096 && WordAt(s, 0) == b.idx && WordAt(s, 4) == b.usage && WordAt(s, 8) == 0 && s[12..] == b.data
  {
    var s1 := Le32(b.idx);
    var s2 := s1 + Le32(b.usage);
    var s3 := s2 + Le32(0);
    Le32Back(b.idx);
    AppendWord(s1, b.usage);
    AppendWord(s2, 0);
    Appended(s3, b.data);
    hide Le32, WordAt;
  }

  /** struct kfs_iblock */
  lemma IndexFields(b: IndexBlock)
    requires WellSized(Index(b)) && b.idx < TWO32 && Narrow(b.blks)
    ensures var s := IndexBytes(b);
            && |s| == 72 && WordAt(s, 0) == b.idx && WordAt(s, 4) == b.blkCnt
            && forall k | 0 <= k < KFS_INDIRECT_BLK_CNT :: WordAt(s, 8 + 4 * k) == b.blks[k]
  {
    var s1 := Le32(b.idx);
    var s2 := s1 + Le32(b.blkCnt);
    Le32Back(b.idx);
    AppendWord(s1, b.blkCnt);
    AppendWords(s2, b.blks);
    hide Le32, WordAt, Words32;
  }

  /** struct kfs_inode up to its block lists. */
  lemma HeaderFields(n: Inode)
    requires WellSized(Node(n)) && Narrow([n.inumber, n.fileSz, n.idx, n.blkCnt, n.nextInode])
    ensures var s := InodeHeader(n);
            && |s| == 60 && WordAt(s, 0) == n.inumber && s[4..36] == n.filename && WordAt(s, 36) == n.fileSz
            && WordAt(s, 40) == n.idx && WordAt(s, 44) == n.blkCnt && WordAt(s, 48) == n.nextInode
            && WordAt(s, 52) == n.dBlkCnt && WordAt(s, 56) == n.iBlkCnt
  {
    var l := [n.inumber, n.fileSz, n.idx, n.blkCnt, n.nextInode];
    assert l[0] < TWO32 && l[1] < TWO32 && l[2] < TWO32 && l[3] < TWO32 && l[4] < TWO32;
    var s0 := Le32(n.inumber);
    var s1 := s0 + n.filename;
    var s2 := s1 + Le32(n.fileSz);
    var s3 := s2 + Le32(n.idx);
    var s4 := s3 + Le32(n.blkCnt);
    var s5 := s4 + Le32(n.nextInode);
    var s6 := s5 + Le32(n.dBlkCnt);
    Le32Back(n.inumber);
    Appended(s0, n.filename);
    assert s1[4..36] == n.filename;
    AppendWord(s1, n.fileSz);
    AppendWord(s2, n.idx);
    AppendWord(s3, n.blkCnt);
    AppendWord(s4, n.nextInode);
    AppendWord(s5, n.dBlkCnt);
    AppendWord(s6, n.iBlkCnt);
    hide Le32, WordAt;
  }

  /** struct kfs_inode */
  lemma InodeFields(n: Inode)
    requires WellSized(Node(n)) && Narrow([n.inumber, n.fileSz, n.idx, n.blkCnt, n.nextInode])
    requires Narrow(n.dBlks) && Narrow(n.iBlks)
    ensures var s := InodeBytes(n);
            && |s| == 164 && WordAt(s, 0) == n.inumber && s[4..36] == n.filename && WordAt(s, 36) == n.fileSz
            && WordAt(s, 40) == n.idx && WordAt(s, 44) == n.blkCnt && WordAt(s, 48) == n.nextInode
            && WordAt(s, 52) == n.dBlkCnt && WordAt(s, 56) == n.iBlkCnt
            && (forall k | 0 <= k < KFS_DIRECT_BLK :: WordAt(s, 60 + 4 * k) == n.dBlks[k])
            && (forall k | 0 <= k < KFS_INDIRECT_BLK :: WordAt(s, 100 + 4 * k) == n.iBlks[k])
  {
    var s1 := InodeHeader(n);
    var s2 := s1 + Words32(n.dBlks);
    HeaderFields(n);
    AppendWords(s1, n.dBlks);
    AppendWords(s2, n.iBlks);
    hide Le32, WordAt, Words32, InodeHeader;
  }

  /** struct kfs_superblock */
  lemma SuperFields(b: Superblock)
    requires WellSized(Super(b)) && Narrow([b.magic, b.ctime, b.blkCnt, b.inodeCnt, b.inodeIdx])
    ensures var s := SuperBytes(b);
            && |s| == 52 && WordAt(s, 0) == b.magic && s[4..36] == b.name && WordAt(s, 36) == b.ctime
            && WordAt(s, 40) == b.blkCnt && WordAt(s, 44) == b.inodeCnt && WordAt(s, 48) == b.inodeIdx
  {
    var l := [b.magic, b.ctime, b.blkCnt, b.inodeCnt, b.inodeIdx];
    assert l[0] < TWO32 && l[1] < TWO32 && l[2] < TWO32 && l[3] < TWO32 && l[4] < TWO32;
    var s0 := Le32(b.magic);
    var s1 := s0 + b.name;
    var s2 := s1 + Le32(b.ctime);
    var s3 := s2 + Le32(b.blkCnt);
    var s4 := s3 + Le32(b.inodeCnt);
    Le32Back(b.magic);
    Appended(s0, b.name);
    assert s1[4..36] == b.name;
    AppendWord(s1, b.ctime);
    AppendWord(s2, b.blkCnt);
    AppendWord(s3, b.inodeCnt);
    AppendWord(s4, b.inodeIdx);
    hide Le32, WordAt;
  }

  // ----- reading

  function Payload(img: Image, i: nat): Bytes {
    if i in img && img[i].Data? && img[i].blk.usage <= |img[i].blk.data| then img[i].blk.data[..img[i].blk.usage]
    else []
  }

  /** The data of the blocks, one after the other. */
  function ReadBlocks(img: Image, idxs: seq<nat>): Bytes {
    if idxs == [] then [] else ReadBlocks(img, idxs[..|idxs| - 1]) + Payload(img, idxs[|idxs| - 1])
  }

  /** The block numbers an index block lists. */
  function Listed(img: Image, i: nat): seq<nat> {
    if i in img && img[i].Index? && img[i].iblk.blkCnt <= |img[i].iblk.blks| then img[i].iblk.blks[..img[i].iblk.blkCnt]
    else []
  }

  function ReadIndirect(img: Image, idxs: seq<nat>): Bytes {
    if idxs == [] then [] else ReadIndirect(img, idxs[..|idxs| - 1]) + ReadBlocks(img, Listed(img, idxs[|idxs| - 1]))
  }

  /** The direct blocks, then those the index blocks list. */
  function ReadFile(img: Image, n: Inode): Bytes
    requires WellSized(Node(n))
  {
    ReadBlocks(img, n.dBlks[..n.dBlkCnt]) + ReadIndirect(img, n.iBlks[..n.iBlkCnt])
  }

  // ----- what reading depends on

  predicate AllIn(idxs: seq<nat>, lo: nat, hi: nat) { forall k | 0 <= k < |idxs| :: lo <= idxs[k] < hi }

  /** The images agree on the blocks from lo to hi. */
  predicate Agree(img: Image, img': Image, lo: nat, hi: nat) {
    forall i | lo <= i < hi :: (i in img <==> i in img') && (i in img ==> img'[i] == img[i])
  }

  lemma {:induction false} BlocksFrame(img: Image, img': Image, idxs: seq<nat>, lo: nat, hi: nat)
    requires AllIn(idxs, lo, hi) && Agree(img, img', lo, hi)
    ensures ReadBlocks(img', idxs) == ReadBlocks(img, idxs)
  {
    if idxs != [] { BlocksFrame(img, img', idxs[..|idxs| - 1], lo, hi); }
  }

  predicate IndirectIn(img: Image, idxs: seq<nat>, lo: nat, hi: nat) {
    AllIn(idxs, lo, hi) && forall k | 0 <= k < |idxs| :: AllIn(Listed(img, idxs[k]), lo, hi)
  }

  lemma {:induction false} IndirectFrame(img: Image, img': Image, idxs: seq<nat>, lo: nat, hi: nat)
    requires IndirectIn(img, idxs, lo, hi) && Agree(img, img', lo, hi)
    ensures ReadIndirect(img', idxs) == ReadIndirect(img, idxs) && IndirectIn(img', idxs, lo, hi)
  {
    if idxs != [] {
      var last := idxs[|idxs| - 1];
      IndirectFrame(img, img', idxs[..|idxs| - 1], lo, hi);
      assert Listed(img', last) == Listed(img, last);
      BlocksFrame(img, img', Listed(img, last), lo, hi);
    }
  }

  /** The inode's blocks lie in [lo, hi) and hold the file. */
  ghost predicate HoldsFile(img: Image, n: Inode, file: Bytes, lo: nat, hi: nat) {
    && WellSized(Node(n)) && AllIn(n.dBlks[..n.dBlkCnt], lo, hi) && IndirectIn(img, n.iBlks[..n.iBlkCnt], lo, hi)
    && ReadFile(img, n) == file
  }

  lemma HoldsFrame(img: Image, img': Image, n: Inode, file: Bytes, lo: nat, hi: nat)
    requires HoldsFile(img, n, file, lo, hi) && Agree(img, img', lo, hi)
    ensures HoldsFile(img', n, file, lo, hi)
  {
    BlocksFrame(img, img', n.dBlks[..n.dBlkCnt], lo, hi);
    IndirectFrame(img, img', n.iBlks[..n.iBlkCnt], lo, hi);
  }
}
