/** tools/mkkfs: writing files into an image, and what the image then says. */
module Mkkfs {
  import opened Words
  import opened Checksum
  import opened Kfs

  class Rom {
    var img: Image
    /** The block indices written, in order. */
    ghost var log: seq<nat>
  }

  /** kfs_write */
  method KfsWrite(rom: Rom, i: nat, e: Entry)
    modifies rom
    ensures rom.img == old(rom.img)[i := e] && rom.log == old(rom.log) + [i]
  {
    rom.img := rom.img[i := e];
    rom.log := rom.log + [i];
  }

  function Range(lo: nat, hi: nat): (s: seq<nat>)
    requires lo <= hi
    ensures |s| == hi - lo && forall k | 0 <= k < |s| :: s[k] == lo + k
  {
    seq(hi - lo, k requires 0 <= k => lo + k)
  }

  lemma RangeNext(lo: nat, hi: nat)
    requires lo <= hi
    ensures Range(lo, hi + 1) == Range(lo, hi) + [hi]
  {}

  /** What strncpy leaves in a field of n bytes that was zero. */
  function Padded(s: Bytes, n: nat): (r: Bytes)
    ensures |r| == n && forall i | 0 <= i < n :: r[i] == if i < |s| then s[i] else 0
    ensures |s| <= n ==> r[..|s|] == s
  {
    seq(n, i requires 0 <= i < n => if i < |s| then s[i] else 0)
  }

  /** What read returns for a block-sized buffer. */
  function Rest(file: Bytes, pos: nat): nat
    requires pos <= |file|
  {
    if |file| - pos < KFS_BLK_DATA_SZ then |file| - pos else KFS_BLK_DATA_SZ
  }

  /** The image after a data block; the log grows by its index. */
  method WriteData(rom: Rom, file: Bytes, pos: nat, idx: nat) returns (rc: nat)
    requires pos <= |file|
    modifies rom
    ensures rc == Rest(file, pos)
    ensures rc == 0 ==> rom.img == old(rom.img) && rom.log == old(rom.log)
    ensures rc > 0 ==> rom.log == old(rom.log) + [idx] && Only(old(rom.img), rom.img, idx)
    ensures rc > 0 ==> idx in rom.img && Sealed(idx, rom.img[idx]) && rom.img[idx].Data? && rom.img[idx].blk.idx == idx
                       && Payload(rom.img, idx) == file[pos..pos + rc]
  {
    hide Adler32, Delayed;
    rc := Rest(file, pos);
    if rc > 0 {
      var blk := DataBlock(idx, rc, 0, Padded(file[pos..pos + rc], KFS_BLK_DATA_SZ));
      StructuresShort(Data(blk));
      var sum := KfsChecksum(DataBytes(blk));
      ShortStrings(DataBytes(blk));
      KfsWrite(rom, idx, Data(blk.(cksum := sum)));
    }
  }

  /** Nothing but entry i has changed. */
  ghost predicate Only(img: Image, img': Image, i: nat) {
    forall j | j != i :: (j in img <==> j in img') && (j in img ==> img'[j] == img[j])
  }

  /** One more block at the end of a list. */
  lemma ReadNext(img: Image, img': Image, s: seq<nat>, idx: nat, lo: nat)
    requires AllIn(s, lo, idx) && Only(img, img', idx) && lo <= idx
    ensures ReadBlocks(img', s + [idx]) == ReadBlocks(img, s) + Payload(img', idx) && AllIn(s + [idx], lo, idx + 1)
  {
    BlocksFrame(img, img', s, lo, idx);
    assert (s + [idx])[..|s|] == s;
  }

  /** Blocks lo to hi have been written, each once and in order, sealed; the others are as before. */
  ghost predicate Filled(img: Image, log: seq<nat>, img': Image, log': seq<nat>, lo: nat, hi: nat) {
    && lo <= hi && log' == log + Range(lo, hi)
    && (forall i | lo <= i < hi :: i in img' && Sealed(i, img'[i]))
    && Agree(img, img', 0, lo) && (forall i | hi <= i :: (i in img <==> i in img') && (i in img ==> img'[i] == img[i]))
  }

  lemma FilledNext(img: Image, log: seq<nat>, img1: Image, log1: seq<nat>, img2: Image, log2: seq<nat>, lo: nat,
                   hi: nat)
    requires Filled(img, log, img1, log1, lo, hi) && Only(img1, img2, hi) && log2 == log1 + [hi] && hi in img2
    requires Sealed(hi, img2[hi])
    ensures Filled(img, log, img2, log2, lo, hi + 1)
  {
    hide Sealed;
    RangeNext(lo, hi);
  }

  /** nd data blocks have taken the file up to pos. */
  predicate Taken(file: Bytes, pos: nat, nd: nat) {
    && pos <= |file| && pos == (if nd * KFS_BLK_DATA_SZ < |file| then nd * KFS_BLK_DATA_SZ else |file|)
    && (nd > 0 ==> (nd - 1) * KFS_BLK_DATA_SZ < |file|)
  }

  lemma TakenNext(file: Bytes, pos: nat, nd: nat)
    requires Taken(file, pos, nd) && pos < |file|
    ensures Taken(file, pos + Rest(file, pos), nd + 1)
  {}

  /** align_up(size, KFS_BLK_DATA_SZ) / KFS_BLK_DATA_SZ */
  function BlocksOf(size: nat): nat {
    (size + KFS_BLK_DATA_SZ - 1) / KFS_BLK_DATA_SZ * KFS_BLK_DATA_SZ / KFS_BLK_DATA_SZ
  }

  lemma BlocksTaken(file: Bytes, nd: nat)
    requires Taken(file, |file|, nd)
    ensures nd == BlocksOf(|file|)
  {}

  // ----- kfs_write_inode

  /** The direct blocks. */
  method WriteDirect(rom: Rom, file: Bytes, inode0: Inode, blk0: nat)
    returns (inode: Inode, blk: nat, pos: nat, eof: bool)
    requires WellSized(Node(inode0)) && inode0.dBlkCnt == 0 && Blank(Node(inode0))
    modifies rom
    ensures Filled(old(rom.img), old(rom.log), rom.img, rom.log, blk0, blk)
    ensures inode == inode0.(dBlks := inode.dBlks, dBlkCnt := blk - blk0) && WellSized(Node(inode))
    ensures Blank(Node(inode))
    ensures AllIn(inode.dBlks[..blk - blk0], blk0, blk) && Taken(file, pos, blk - blk0)
    ensures ReadBlocks(rom.img, inode.dBlks[..blk - blk0]) == file[..pos]
    ensures if eof then pos == |file| else blk - blk0 == KFS_DIRECT_BLK
  {
    hide Filled, ReadBlocks, Sealed, Payload, Only, Rest;
    inode, blk, pos, eof := inode0, blk0, 0, false;
    var i := 0;
    NothingFilled(rom.img, rom.log, blk0);
    NothingRead(rom.img, inode.dBlks, file);
    while i < KFS_DIRECT_BLK
      invariant 0 <= i <= KFS_DIRECT_BLK && blk == blk0 + i && WellSized(Node(inode)) && Blank(Node(inode))
      invariant inode == inode0.(dBlks := inode.dBlks, dBlkCnt := i)
      invariant Filled(old(rom.img), old(rom.log), rom.img, rom.log, blk0, blk)
      invariant AllIn(inode.dBlks[..i], blk0, blk) && Taken(file, pos, i)
      invariant ReadBlocks(rom.img, inode.dBlks[..i]) == file[..pos]
    {
      ghost var img, log := rom.img, rom.log;
      RestZero(file, pos);
      var rc := WriteData(rom, file, pos, blk);
      if rc == 0 {
        eof := true;
        return;
      }
      FilledNext(old(rom.img), old(rom.log), img, log, rom.img, rom.log, blk0, blk);
      ReadNext(img, rom.img, inode.dBlks[..i], blk, blk0);
      TakenNext(file, pos, i);
      Joined(file, pos, rc);
      assert inode.dBlks[i := blk][..i + 1] == inode.dBlks[..i] + [blk];
      inode := inode.(dBlks := inode.dBlks[i := blk], dBlkCnt := inode.dBlkCnt + 1);
      pos := pos + rc;
      blk := blk + 1;
      i := i + 1;
    }
  }

  lemma RestZero(file: Bytes, pos: nat)
    requires pos <= |file|
    ensures Rest(file, pos) == 0 <==> pos == |file|
    ensures pos + Rest(file, pos) <= |file|
  {}

  lemma Joined(file: Bytes, pos: nat, rc: nat)
    requires pos + rc <= |file|
    ensures file[..pos] + file[pos..pos + rc] == file[..pos + rc]
  {}

  lemma NothingFilled(img: Image, log: seq<nat>, blk: nat)
    ensures Filled(img, log, img, log, blk, blk)
  {
    assert Range(blk, blk) == [];
  }

  lemma NothingRead(img: Image, s: seq<nat>, file: Bytes)
    ensures ReadBlocks(img, s[..0]) == file[..0] && ReadIndirect(img, s[..0]) == []
  {}

  /** Up to sixteen data blocks of an index block. */
  method WriteGroupData(rom: Rom, file: Bytes, pos0: nat, blk0: nat, ghost nd: nat)
    returns (blks: seq<nat>, cnt: nat, pos: nat)
    requires Taken(file, pos0, nd)
    modifies rom
    ensures cnt <= KFS_INDIRECT_BLK_CNT == |blks| && Taken(file, pos, nd + cnt)
    ensures Filled(old(rom.img), old(rom.log), rom.img, rom.log, blk0, blk0 + cnt)
    ensures AllIn(blks[..cnt], blk0, blk0 + cnt) && pos0 <= pos && ReadBlocks(rom.img, blks[..cnt]) == file[pos0..pos]
    ensures cnt < KFS_INDIRECT_BLK_CNT ==> pos == |file|
    ensures forall k | cnt <= k < |blks| :: blks[k] == 0
  {
    hide Filled, ReadBlocks, Sealed, Payload, Only, Rest, Taken;
    TakenIn(file, pos0, nd);
    blks, cnt, pos := seq(KFS_INDIRECT_BLK_CNT, _ => 0), 0, pos0;
    NothingFilled(rom.img, rom.log, blk0);
    NothingRead(rom.img, blks, file);
    var j := 0;
    while j < KFS_INDIRECT_BLK_CNT
      invariant 0 <= j == cnt <= KFS_INDIRECT_BLK_CNT == |blks| && pos0 <= pos <= |file| && Taken(file, pos, nd + cnt)
      invariant forall k | cnt <= k < |blks| :: blks[k] == 0
      invariant Filled(old(rom.img), old(rom.log), rom.img, rom.log, blk0, blk0 + cnt)
      invariant AllIn(blks[..cnt], blk0, blk0 + cnt) && ReadBlocks(rom.img, blks[..cnt]) == file[pos0..pos]
    {
      ghost var img, log := rom.img, rom.log;
      RestZero(file, pos);
      var rc := WriteData(rom, file, pos, blk0 + j);
      if rc == 0 {
        break;
      }
      FilledNext(old(rom.img), old(rom.log), img, log, rom.img, rom.log, blk0, blk0 + j);
      ReadNext(img, rom.img, blks[..j], blk0 + j, blk0);
      TakenStep(file, pos, nd + cnt);
      assert file[pos0..pos] + file[pos..pos + rc] == file[pos0..pos + rc];
      assert blks[j := blk0 + j][..j + 1] == blks[..j] + [blk0 + j];
      blks := blks[j := blk0 + j];
      cnt := cnt + 1;
      pos := pos + rc;
      j := j + 1;
    }
  }

  lemma TakenIn(file: Bytes, pos: nat, nd: nat)
    requires Taken(file, pos, nd)
    ensures pos <= |file|
  {}

  lemma TakenStep(file: Bytes, pos: nat, nd: nat)
    requires Taken(file, pos, nd) && Rest(file, pos) > 0
    ensures Taken(file, pos + Rest(file, pos), nd + 1)
  {
    TakenNext(file, pos, nd);
  }

  /** An index block and the data blocks it lists, unless the file is at its end. */
  method WriteGroup(rom: Rom, file: Bytes, pos0: nat, blk0: nat, ghost nd: nat) returns (cnt: nat, blk: nat, pos: nat)
    requires Taken(file, pos0, nd)
    modifies rom
    ensures cnt <= KFS_INDIRECT_BLK_CNT && Taken(file, pos, nd + cnt) && (cnt < KFS_INDIRECT_BLK_CNT ==> pos == |file|)
    ensures Filled(old(rom.img), old(rom.log), rom.img, rom.log, blk0, blk)
    ensures blk == blk0 + (if cnt == 0 then 0 else cnt + 1) && pos0 <= pos && (cnt == 0 ==> pos == pos0)
    ensures cnt > 0 ==>
              && AllIn(Listed(rom.img, blk - 1), blk0, blk)
              && ReadBlocks(rom.img, Listed(rom.img, blk - 1)) == file[pos0..pos]
  {
    hide Filled, ReadBlocks, Payload, Only, Taken, Adler32, Delayed, IndexBytes;
    var blks;
    blks, cnt, pos := WriteGroupData(rom, file, pos0, blk0, nd);
    blk := blk0 + cnt;
    if cnt == 0 {
      EmptyRead(rom.img, blks[..0], file, pos0, pos);
      return;
    }
    var iblk := IndexBlock(blk, cnt, blks, 0);
    StructuresShort(Index(iblk));
    var sum := KfsChecksum(IndexBytes(iblk));
    ShortStrings(IndexBytes(iblk));
    assert IndexBytes(iblk.(cksum := sum)) == IndexBytes(iblk) by { IndexBytesSame(iblk, sum); }
    ghost var img, log := rom.img, rom.log;
    KfsWrite(rom, blk, Index(iblk.(cksum := sum)));
    OnlyOne(img, rom.img, blk);
    FilledNext(old(rom.img), old(rom.log), img, log, rom.img, rom.log, blk0, blk);
    assert Listed(rom.img, blk) == blks[..cnt];
    OnlyAgrees(img, rom.img, blk, blk0);
    BlocksFrame(img, rom.img, blks[..cnt], blk0, blk);
    blk := blk + 1;
  }

  lemma IndexBytesSame(b: IndexBlock, sum: nat)
    ensures IndexBytes(b.(cksum := sum)) == IndexBytes(b)
  {}

  lemma EmptyRead(img: Image, s: seq<nat>, file: Bytes, pos0: nat, pos: nat)
    requires s == [] && pos0 <= pos <= |file| && ReadBlocks(img, s) == file[pos0..pos]
    ensures pos == pos0
  {
    assert |file[pos0..pos]| == pos - pos0;
  }

  lemma OnlyOne(img: Image, img': Image, i: nat)
    requires i in img' && img' == img[i := img'[i]]
    ensures Only(img, img', i)
  {}

  lemma OnlyAgrees(img: Image, img': Image, i: nat, lo: nat)
    requires Only(img, img', i)
    ensures Agree(img, img', lo, i)
  {}

  lemma FilledTrans(img: Image, log: seq<nat>, img1: Image, log1: seq<nat>, img2: Image, log2: seq<nat>, lo: nat,
                    mid: nat, hi: nat)
    requires Filled(img, log, img1, log1, lo, mid) && Filled(img1, log1, img2, log2, mid, hi)
    ensures Filled(img, log, img2, log2, lo, hi)
  {
    hide Sealed;
    assert Range(lo, mid) + Range(mid, hi) == Range(lo, hi);
  }

  /** One more index block at the end of a list. */
  lemma ReadGroup(img: Image, log: seq<nat>, img': Image, log': seq<nat>, s: seq<nat>, lo: nat, mid: nat, hi: nat)
    requires IndirectIn(img, s, lo, mid) && Filled(img, log, img', log', mid, hi) && lo <= mid < hi
    requires AllIn(Listed(img', hi - 1), mid, hi)
    ensures ReadIndirect(img', s + [hi - 1]) == ReadIndirect(img, s) + ReadBlocks(img', Listed(img', hi - 1))
    ensures IndirectIn(img', s + [hi - 1], lo, hi)
  {
    hide Filled, Listed, ReadBlocks;
    FilledAgrees(img, log, img', log', lo, mid, hi);
    IndirectFrame(img, img', s, lo, mid);
    assert (s + [hi - 1])[..|s|] == s;
  }

  lemma FilledAgrees(img: Image, log: seq<nat>, img': Image, log': seq<nat>, lo: nat, mid: nat, hi: nat)
    requires Filled(img, log, img', log', mid, hi)
    ensures Agree(img, img', lo, mid) && mid <= hi
  {
    hide Sealed;
  }

  /** The index blocks and what they list. */
  method WriteIndirect(rom: Rom, file: Bytes, inode0: Inode, blk0: nat, pos0: nat)
    returns (inode: Inode, blk: nat, ghost nd: nat)
    requires WellSized(Node(inode0)) && inode0.iBlkCnt == 0 && Taken(file, pos0, KFS_DIRECT_BLK)
    requires Blank(Node(inode0))
    requires |file| <= KFS_MAX_FILE_SZ
    modifies rom
    ensures Filled(old(rom.img), old(rom.log), rom.img, rom.log, blk0, blk) && Taken(file, |file|, nd)
    ensures inode == inode0.(iBlks := inode.iBlks, iBlkCnt := inode.iBlkCnt) && WellSized(Node(inode))
    ensures Blank(Node(inode))
    ensures IndirectIn(rom.img, inode.iBlks[..inode.iBlkCnt], blk0, blk)
    ensures pos0 <= |file| && ReadIndirect(rom.img, inode.iBlks[..inode.iBlkCnt]) == file[pos0..]
    ensures blk - blk0 == nd - KFS_DIRECT_BLK + inode.iBlkCnt
  {
    hide Filled, ReadBlocks, ReadIndirect, Sealed, Payload, Only, Listed, IndirectIn, Taken;
    inode, blk, nd := inode0, blk0, KFS_DIRECT_BLK;
    var pos := pos0;
    TakenIn(file, pos0, nd);
    NothingFilled(rom.img, rom.log, blk0);
    NothingRead(rom.img, inode.iBlks, file);
    NothingIndirect(rom.img, inode.iBlks, blk0);
    var i := 0;
    while i < KFS_INDIRECT_BLK
      invariant 0 <= i == inode.iBlkCnt <= KFS_INDIRECT_BLK && WellSized(Node(inode)) && pos0 <= pos <= |file|
      invariant inode == inode0.(iBlks := inode.iBlks, iBlkCnt := i) && Blank(Node(inode))
      invariant Filled(old(rom.img), old(rom.log), rom.img, rom.log, blk0, blk) && Taken(file, pos, nd)
      invariant IndirectIn(rom.img, inode.iBlks[..i], blk0, blk)
      invariant ReadIndirect(rom.img, inode.iBlks[..i]) == file[pos0..pos]
      invariant blk0 <= blk && blk - blk0 == nd - KFS_DIRECT_BLK + i
      invariant pos < |file| ==> nd == KFS_DIRECT_BLK + KFS_INDIRECT_BLK_CNT * i
    {
      ghost var img, log := rom.img, rom.log;
      var cnt, blk', pos' := WriteGroup(rom, file, pos, blk, nd);
      TakenIn(file, pos', nd + cnt);
      FilledTrans(old(rom.img), old(rom.log), img, log, rom.img, rom.log, blk0, blk, blk');
      if cnt == 0 {
        SameImage(img, log, rom.img, rom.log, inode.iBlks[..i], blk0, blk);
        break;
      }
      ReadGroup(img, log, rom.img, rom.log, inode.iBlks[..i], blk0, blk, blk');
      assert file[pos0..pos] + file[pos..pos'] == file[pos0..pos'];
      assert inode.iBlks[i := blk' - 1][..i + 1] == inode.iBlks[..i] + [blk' - 1];
      inode := inode.(iBlks := inode.iBlks[i := blk' - 1], iBlkCnt := inode.iBlkCnt + 1);
      blk := blk';
      pos := pos';
      nd := nd + cnt;
      i := i + 1;
    }
    AllTaken(file, pos, nd);
    assert file[pos0..pos] == file[pos0..];
  }

  lemma NothingIndirect(img: Image, s: seq<nat>, blk: nat)
    ensures IndirectIn(img, s[..0], blk, blk)
  {}

  /** A group without data leaves the image alone. */
  lemma SameImage(img: Image, log: seq<nat>, img': Image, log': seq<nat>, s: seq<nat>, lo: nat, blk: nat)
    requires Filled(img, log, img', log', blk, blk) && IndirectIn(img, s, lo, blk)
    ensures ReadIndirect(img', s) == ReadIndirect(img, s) && IndirectIn(img', s, lo, blk)
  {
    hide Sealed;
    IndirectFrame(img, img', s, lo, blk);
  }

  /** 266 blocks take any file that is not too large. */
  lemma AllTaken(file: Bytes, pos: nat, nd: nat)
    requires Taken(file, pos, nd) && |file| <= KFS_MAX_FILE_SZ
    requires pos < |file| ==> nd == KFS_DIRECT_BLK + KFS_INDIRECT_BLK_CNT * KFS_INDIRECT_BLK
    ensures pos == |file|
  {}

  /** kfs_write_inode: the inode then describes the file, and the blocks used are those from blk0 on. */
  method WriteInode(rom: Rom, file: Bytes, inode0: Inode, blk0: nat) returns (inode: Inode, blk: nat)
    requires WellSized(Node(inode0)) && inode0.dBlkCnt == 0 && inode0.iBlkCnt == 0 && |file| <= KFS_MAX_FILE_SZ
    requires Blank(Node(inode0))
    modifies rom
    ensures Filled(old(rom.img), old(rom.log), rom.img, rom.log, blk0, blk)
    ensures inode == inode0.(dBlks := inode.dBlks, dBlkCnt := inode.dBlkCnt, iBlks := inode.iBlks,
                             iBlkCnt := inode.iBlkCnt)
    ensures HoldsFile(rom.img, inode, file, blk0, blk) && Blank(Node(inode))
    ensures blk - blk0 == BlocksOf(|file|) + inode.iBlkCnt
  {
    hide Filled, ReadBlocks, ReadIndirect, Sealed, Payload, Only, Listed, Taken, BlocksOf, IndirectIn;
    var pos, eof;
    inode, blk, pos, eof := WriteDirect(rom, file, inode0, blk0);
    if eof {
      BlocksTaken(file, blk - blk0);
      NothingRead(rom.img, inode.iBlks, file);
      NothingIndirect(rom.img, inode.iBlks, blk0);
      IndirectWider(rom.img, inode.iBlks[..0], blk0, blk0, blk0, blk);
      assert file[..pos] + [] == file;
      return;
    }
    ghost var img, log, mid := rom.img, rom.log, blk;
    ghost var direct := inode.dBlks[..inode.dBlkCnt];
    ghost var nd;
    inode, blk, nd := WriteIndirect(rom, file, inode, blk, pos);
    FilledTrans(old(rom.img), old(rom.log), img, log, rom.img, rom.log, blk0, mid, blk);
    FilledAgrees(img, log, rom.img, rom.log, blk0, mid, blk);
    BlocksFrame(img, rom.img, direct, blk0, mid);
    BlocksTaken(file, nd);
    FilledOrder(img, log, rom.img, rom.log, mid, blk);
    IndirectWider(rom.img, inode.iBlks[..inode.iBlkCnt], mid, blk, blk0, blk);
    assert file[..pos] + file[pos..] == file;
  }

  lemma FilledOrder(img: Image, log: seq<nat>, img': Image, log': seq<nat>, lo: nat, hi: nat)
    requires Filled(img, log, img', log', lo, hi)
    ensures lo <= hi
  {}

  lemma IndirectWider(img: Image, s: seq<nat>, lo: nat, hi: nat, lo': nat, hi': nat)
    requires IndirectIn(img, s, lo, hi) && lo' <= lo && hi <= hi'
    ensures IndirectIn(img, s, lo', hi')
  {
    hide Listed;
  }

  // ----- kfs_write_files

  /** A file as the tool sees it. */
  datatype Source = Source(name: Bytes, content: Bytes)

  /** The inode of file f of n, with its blocks in [lo, hi). */
  ghost predicate InodeOf(img: Image, f: nat, n: nat, src: Source, lo: nat, hi: nat) {
    && 1 + f in img && img[1 + f].Node? && Sealed(1 + f, img[1 + f])
    && var ino := img[1 + f].ino;
       && ino.inumber == f + 1 && ino.idx == 1 + f && ino.nextInode == (if f == n - 1 then 0 else f + 2)
       && ino.fileSz == |src.content| && ino.blkCnt == BlocksOf(|src.content|)
       && ino.filename == Padded(src.name, KFS_FNAME_SZ)
       && HoldsFile(img, ino, src.content, lo, hi)
  }

  lemma InodeFrame(img: Image, img': Image, f: nat, n: nat, src: Source, lo: nat, hi: nat)
    requires InodeOf(img, f, n, src, lo, hi) && Agree(img, img', lo, hi) && Agree(img, img', 1 + f, 2 + f)
    ensures InodeOf(img', f, n, src, lo, hi)
  {
    hide Sealed, BlocksOf, HoldsFile;
    HoldsFrame(img, img', img[1 + f].ino, src.content, lo, hi);
  }

  /** The first i files are in place: bounds say where each one's blocks lie. */
  ghost predicate FilesDone(img: Image, n: nat, srcs: seq<Source>, i: nat, bounds: seq<nat>) {
    && i <= |srcs| == n && |bounds| == i + 1 && bounds[0] == n + 1
    && (forall f | 0 <= f < i :: bounds[f] <= bounds[f + 1])
    && (forall f | 0 <= f < i :: InodeOf(img, f, n, srcs[f], bounds[f], bounds[f + 1]))
    && (forall b | n + 1 <= b < bounds[i] :: b in img && Sealed(b, img[b]))
  }

  lemma {:induction false} BoundsUp(bounds: seq<nat>, j: nat, k: nat)
    requires j <= k < |bounds| && forall f | 0 <= f < |bounds| - 1 :: bounds[f] <= bounds[f + 1]
    ensures bounds[j] <= bounds[k]
  {
    if j < k { BoundsUp(bounds, j, k - 1); }
  }

  /** Writing further blocks and one more inode disturbs no earlier file. */
  lemma FilesFrame(img: Image, img': Image, n: nat, srcs: seq<Source>, i: nat, bounds: seq<nat>)
    requires FilesDone(img, n, srcs, i, bounds)
    requires Agree(img, img', n + 1, bounds[i]) && Agree(img, img', 1, 1 + i)
    ensures FilesDone(img', n, srcs, i, bounds)
  {
    hide Sealed, InodeOf;
    forall f | 0 <= f < i ensures InodeOf(img', f, n, srcs[f], bounds[f], bounds[f + 1]) {
      BoundsUp(bounds, 0, f);
      BoundsUp(bounds, f + 1, i);
      InodeFrame(img, img', f, n, srcs[f], bounds[f], bounds[f + 1]);
    }
  }

  lemma FilesNext(img: Image, n: nat, srcs: seq<Source>, i: nat, bounds: seq<nat>, hi: nat)
    requires FilesDone(img, n, srcs, i, bounds) && i < n && bounds[i] <= hi
    requires InodeOf(img, i, n, srcs[i], bounds[i], hi)
    requires forall b | bounds[i] <= b < hi :: b in img && Sealed(b, img[b])
    ensures FilesDone(img, n, srcs, i + 1, bounds + [hi])
  {
    hide Sealed, InodeOf;
    var bounds' := bounds + [hi];
    forall f | 0 <= f < i + 1 ensures InodeOf(img, f, n, srcs[f], bounds'[f], bounds'[f + 1]) {}
  }

  /** The inode goes out after its blocks. */
  method WriteNode(rom: Rom, inode: Inode)
    requires WellSized(Node(inode)) && Blank(Node(inode)) && inode.cksum == 0
    modifies rom
    ensures rom.log == old(rom.log) + [inode.idx] && Only(old(rom.img), rom.img, inode.idx)
    ensures inode.idx in rom.img && Sealed(inode.idx, rom.img[inode.idx]) && rom.img[inode.idx].Node?
    ensures rom.img[inode.idx].ino == inode.(cksum := rom.img[inode.idx].ino.cksum)
  {
    hide Adler32, Delayed, InodeBytes;
    StructuresShort(Node(inode));
    var sum := KfsChecksum(InodeBytes(inode));
    ShortStrings(InodeBytes(inode));
    InodeBytesSame(inode, sum);
    KfsWrite(rom, inode.idx, Node(inode.(cksum := sum)));
  }

  lemma InodeBytesSame(n: Inode, sum: nat)
    ensures InodeBytes(n.(cksum := sum)) == InodeBytes(n)
  {}

  /** What one file's writes leave for the others. */
  lemma FileDone(img: Image, log: seq<nat>, img1: Image, log1: seq<nat>, img2: Image, n: nat, srcs: seq<Source>, i: nat,
                 bounds: seq<nat>, hi: nat, ino: Inode)
    requires FilesDone(img, n, srcs, i, bounds) && i < n && Filled(img, log, img1, log1, bounds[i], hi)
    requires Only(img1, img2, 1 + i)
    requires 1 + i in img2 && Sealed(1 + i, img2[1 + i]) && img2[1 + i].Node?
    requires HoldsFile(img1, ino, srcs[i].content, bounds[i], hi)
    requires var d := img2[1 + i].ino;
             && d == ino.(cksum := d.cksum) && d.inumber == i + 1 && d.idx == 1 + i
             && d.nextInode == (if i == n - 1 then 0 else i + 2)
             && d.fileSz == |srcs[i].content| && d.blkCnt == BlocksOf(|srcs[i].content|)
             && d.filename == Padded(srcs[i].name, KFS_FNAME_SZ)
    ensures FilesDone(img2, n, srcs, i + 1, bounds + [hi])
  {
    hide Sealed, BlocksOf, InodeOf, HoldsFile;
    BoundsUp(bounds, 0, i);
    FilesFrame(img, img2, n, srcs, i, bounds);
    HoldsSummed(img1, ino, img2[1 + i].ino, srcs[i].content, bounds[i], hi);
    HoldsFrame(img1, img2, img2[1 + i].ino, srcs[i].content, bounds[i], hi);
    assert InodeOf(img2, i, n, srcs[i], bounds[i], hi) by { InodeMade(img2, i, n, srcs[i], bounds[i], hi); }
    FilesNext(img2, n, srcs, i, bounds, hi);
  }

  lemma InodeMade(img: Image, f: nat, n: nat, src: Source, lo: nat, hi: nat)
    requires 1 + f in img && img[1 + f].Node? && Sealed(1 + f, img[1 + f])
    requires HoldsFile(img, img[1 + f].ino, src.content, lo, hi)
    requires var ino := img[1 + f].ino;
             && ino.inumber == f + 1 && ino.idx == 1 + f && ino.nextInode == (if f == n - 1 then 0 else f + 2)
             && ino.fileSz == |src.content| && ino.blkCnt == BlocksOf(|src.content|)
             && ino.filename == Padded(src.name, KFS_FNAME_SZ)
    ensures InodeOf(img, f, n, src, lo, hi)
  {}

  /** The checksum is not part of what an inode says about its file. */
  lemma HoldsSummed(img: Image, ino: Inode, d: Inode, file: Bytes, lo: nat, hi: nat)
    requires HoldsFile(img, ino, file, lo, hi) && d == ino.(cksum := d.cksum)
    ensures HoldsFile(img, d, file, lo, hi)
  {
    hide ReadBlocks, ReadIndirect, AllIn, IndirectIn;
  }

  // ----- which blocks are written, counted with multiplicity

  ghost predicate LogOk(log: seq<nat>, n: nat, i: nat, blk: nat) {
    n + 1 <= blk && multiset(log) == multiset(Range(n + 1, blk)) + multiset(Range(1, 1 + i))
  }

  lemma LogNext(log: seq<nat>, log1: seq<nat>, log2: seq<nat>, n: nat, i: nat, blk: nat, hi: nat)
    requires LogOk(log, n, i, blk) && blk <= hi && log1 == log + Range(blk, hi) && log2 == log1 + [1 + i]
    ensures LogOk(log2, n, i + 1, hi)
  {
    assert Range(n + 1, hi) == Range(n + 1, blk) + Range(blk, hi);
    RangeNext(1, 1 + i);
  }

  lemma LogWhole(log: seq<nat>, log1: seq<nat>, n: nat, blk: nat)
    requires LogOk(log, n, n, blk) && log1 == log + [0]
    ensures multiset(log1) == multiset(Range(0, blk))
  {
    assert Range(0, blk) == [0] + Range(1, 1 + n) + Range(n + 1, blk);
  }

  // ----- the whole image

  /** kfs_write_files; a file that is too large ends the program. */
  method WriteFiles(rom: Rom, srcs: seq<Source>) returns (ok: bool, blkCnt: nat, ghost bounds: seq<nat>)
    requires rom.log == []
    modifies rom
    ensures ok <==> forall f | 0 <= f < |srcs| :: |srcs[f].content| <= KFS_MAX_FILE_SZ
    ensures ok ==>
              && FilesDone(rom.img, |srcs|, srcs, |srcs|, bounds) && blkCnt == bounds[|srcs|]
              && LogOk(rom.log, |srcs|, |srcs|, blkCnt)
  {
    hide FilesDone, LogOk, Filled, Sealed, HoldsFile, Only;
    var n := |srcs|;
    ok, blkCnt, bounds := true, n + 1, [n + 1];
    NoFiles(rom.img, rom.log, srcs, n);
    var i := 0;
    while i < n
      invariant 0 <= i <= n && ok && |bounds| == i + 1 && FilesDone(rom.img, n, srcs, i, bounds)
      invariant blkCnt == bounds[i] && LogOk(rom.log, n, i, blkCnt)
      invariant forall f | 0 <= f < i :: |srcs[f].content| <= KFS_MAX_FILE_SZ
    {
      if |srcs[i].content| > KFS_MAX_FILE_SZ {
        ok := false;
        return;
      }
      blkCnt := WriteOneFile(rom, srcs, n, i, blkCnt, bounds);
      bounds := bounds + [blkCnt];
      i := i + 1;
    }
  }

  lemma NoFiles(img: Image, log: seq<nat>, srcs: seq<Source>, n: nat)
    requires n == |srcs| && log == []
    ensures FilesDone(img, n, srcs, 0, [n + 1]) && LogOk(log, n, 0, n + 1)
  {}

  /** One turn of the loop: the inode is filled in, its blocks and then itself are written. */
  method WriteOneFile(rom: Rom, srcs: seq<Source>, n: nat, i: nat, blk0: nat, ghost bounds: seq<nat>) returns (blk: nat)
    requires i < n == |srcs| && |bounds| == i + 1 && blk0 == bounds[i] && |srcs[i].content| <= KFS_MAX_FILE_SZ
    requires FilesDone(rom.img, n, srcs, i, bounds) && LogOk(rom.log, n, i, blk0)
    modifies rom
    ensures FilesDone(rom.img, n, srcs, i + 1, bounds + [blk]) && LogOk(rom.log, n, i + 1, blk)
  {
    hide FilesDone, LogOk, Sealed, HoldsFile, Only, BlocksOf, Padded;
    ghost var img, log := rom.img, rom.log;
    var inode := Inode(i + 1, Padded(srcs[i].name, KFS_FNAME_SZ), |srcs[i].content|, 1 + i, BlocksOf(|srcs[i].content|),
                       1 + i + 1, 0, 0, seq(KFS_DIRECT_BLK, _ => 0), seq(KFS_INDIRECT_BLK, _ => 0), 0);
    if i == n - 1 {
      inode := inode.(nextInode := 0);
    }
    inode, blk := WriteInode(rom, srcs[i].content, inode, blk0);
    ghost var img1, log1 := rom.img, rom.log;
    HeldSized(img1, inode, srcs[i].content, blk0, blk);
    WriteNode(rom, inode);
    FileDone(img, log, img1, log1, rom.img, n, srcs, i, bounds, blk, inode);
    LogNext(log, log1, rom.log, n, i, blk0, blk);
  }

  lemma HeldSized(img: Image, ino: Inode, file: Bytes, lo: nat, hi: nat)
    requires HoldsFile(img, ino, file, lo, hi)
    ensures WellSized(Node(ino))
  {}

  /** kfs_write_superblock */
  method WriteSuperblock(rom: Rom, name: Bytes, ctime: nat, blkCnt: nat, filesCnt: nat)
    modifies rom
    ensures rom.log == old(rom.log) + [0] && Only(old(rom.img), rom.img, 0)
    ensures 0 in rom.img && Sealed(0, rom.img[0]) && rom.img[0].Super?
    ensures var sb := rom.img[0].sb;
            && sb.magic == KFS_MAGIC && sb.name == Padded(name, KFS_FNAME_SZ) && sb.ctime == ctime
            && sb.blkCnt == blkCnt && sb.inodeCnt == filesCnt && sb.inodeIdx == 1
  {
    hide Adler32, Delayed;
    var sb := Superblock(KFS_MAGIC, Padded(name, KFS_FNAME_SZ), ctime, blkCnt, filesCnt, 1, 0);
    StructuresShort(Super(sb));
    var sum := KfsChecksum(SuperBytes(sb));
    ShortStrings(SuperBytes(sb));
    KfsWrite(rom, 0, Super(sb.(cksum := sum)));
  }

  /** Following the inode chain for at most steps inodes. */
  function FilesFrom(img: Image, idx: nat, steps: nat): seq<Source>
    decreases steps
  {
    if steps == 0 || idx == 0 || idx !in img || !img[idx].Node? || !WellSized(img[idx]) then []
    else
      [Source(img[idx].ino.filename, ReadFile(img, img[idx].ino))] + FilesFrom(img, img[idx].ino.nextInode, steps - 1)
  }

  /** What went in, with names cut or padded to their field. */
  function Stored(srcs: seq<Source>): (r: seq<Source>)
    ensures |r| == |srcs|
  {
    seq(|srcs|, f requires 0 <= f < |srcs| => Source(Padded(srcs[f].name, KFS_FNAME_SZ), srcs[f].content))
  }

  /** A name field holds the name as far as it fits, then zeros. */
  predicate NameField(field: Bytes, name: Bytes) {
    && |field| == 32
    && (forall i | 0 <= i < 32 && i < |name| :: field[i] == name[i])
    && (forall i | |name| <= i < 32 :: field[i] == 0)
  }

  /** The files read back are those put in, in order, with their names cut to the field. */
  predicate SameFiles(got: seq<Source>, srcs: seq<Source>) {
    && |got| == |srcs|
    && forall f | 0 <= f < |srcs| :: got[f].content == srcs[f].content && NameField(got[f].name, srcs[f].name)
  }

  /** Inode f, counted from one, is numbered, has the size of the file, and counts its blocks of 4084 bytes. */
  ghost predicate HeaderOf(img: Image, f: nat, src: Source) {
    && 1 + f in img && img[1 + f].Node? && NameField(img[1 + f].ino.filename, src.name)
    && var ino := img[1 + f].ino;
       && ino.inumber == f + 1 && ino.fileSz == |src.content|
       && ino.fileSz <= ino.blkCnt * 4084 < ino.fileSz + 4084
  }

  lemma BlocksLeast(size: nat)
    ensures size <= BlocksOf(size) * 4084 < size + 4084
  {}

  lemma HeadersOf(img: Image, n: nat, srcs: seq<Source>, bounds: seq<nat>)
    requires FilesDone(img, n, srcs, n, bounds)
    ensures forall f | 0 <= f < n :: HeaderOf(img, f, srcs[f])
  {
    hide Sealed, HoldsFile, BlocksOf;
    forall f | 0 <= f < n ensures HeaderOf(img, f, srcs[f]) {
      assert InodeOf(img, f, n, srcs[f], bounds[f], bounds[f + 1]);
      BlocksLeast(|srcs[f].content|);
    }
  }

  /** From inode f on, the chain yields the files from f on, in order, and ends. */
  lemma {:induction false} ChainYields(img: Image, n: nat, srcs: seq<Source>, bounds: seq<nat>, f: nat, steps: nat)
    requires FilesDone(img, n, srcs, n, bounds) && f < n && steps >= n - f
    ensures FilesFrom(img, 1 + f, steps) == Stored(srcs)[f..]
    decreases n - f
  {
    hide Sealed, BlocksOf, ReadFile, AllIn, IndirectIn;
    assert InodeOf(img, f, n, srcs[f], bounds[f], bounds[f + 1]);
    if f < n - 1 { ChainYields(img, n, srcs, bounds, f + 1, steps - 1); }
  }

  /**
   mkkfs: from the superblock on, the chain of inodes gives every file back once and in order, every block
   is written exactly once, every checksum is right, and what is not in use is zero.
   */
  method Mkkfs(rom: Rom, srcs: seq<Source>, name: Bytes, ctime: nat) returns (ok: bool)
    requires rom.log == [] && |srcs| > 0
    modifies rom
    ensures ok <==> forall f | 0 <= f < |srcs| :: |srcs[f].content| <= KFS_MAX_FILE_SZ
    ensures ok ==>
              && 0 in rom.img && rom.img[0].Super?
              && var sb := rom.img[0].sb;
                 && sb.magic == 0xd35f9caa && sb.inodeCnt == |srcs| && sb.inodeIdx == 1 && sb.ctime == ctime
                 && NameField(sb.name, name)
                 && (forall steps: nat | steps >= sb.inodeCnt ::
                       && FilesFrom(rom.img, sb.inodeIdx, steps) == Stored(srcs)
                       && SameFiles(FilesFrom(rom.img, sb.inodeIdx, steps), srcs))
    ensures ok ==> forall f | 0 <= f < |srcs| :: HeaderOf(rom.img, f, srcs[f])
    ensures ok ==> multiset(rom.log) == multiset(Range(0, rom.img[0].sb.blkCnt))
    ensures ok ==> forall b | 0 <= b < rom.img[0].sb.blkCnt :: b in rom.img && Sealed(b, rom.img[b])
  {
    hide Sealed, FilesDone, LogOk, Only, FilesFrom, Padded, WellSized;
    var blkCnt;
    ghost var bounds;
    ok, blkCnt, bounds := WriteFiles(rom, srcs);
    if ok {
      var n := |srcs|;
      ghost var img, log := rom.img, rom.log;
      WriteSuperblock(rom, name, ctime, blkCnt, n);
      SuperFrame(img, rom.img, n, srcs, bounds);
      LogWhole(log, rom.log, n, blkCnt);
      AllSealed(rom.img, n, srcs, bounds);
      HeadersOf(rom.img, n, srcs, bounds);
      forall steps: nat | steps >= n ensures FilesFrom(rom.img, 1, steps) == Stored(srcs) {
        ChainYields(rom.img, n, srcs, bounds, 0, steps);
      }
    }
  }

  lemma SuperFrame(img: Image, img': Image, n: nat, srcs: seq<Source>, bounds: seq<nat>)
    requires FilesDone(img, n, srcs, n, bounds) && Only(img, img', 0)
    ensures FilesDone(img', n, srcs, n, bounds)
  {
    hide Sealed, InodeOf;
    FilesFrame(img, img', n, srcs, n, bounds);
  }

  lemma AllSealed(img: Image, n: nat, srcs: seq<Source>, bounds: seq<nat>)
    requires FilesDone(img, n, srcs, n, bounds) && 0 in img && Sealed(0, img[0])
    ensures forall b | 0 <= b < bounds[n] :: b in img && Sealed(b, img[b])
  {
    hide Sealed, HoldsFile;
    forall b | 0 <= b < bounds[n] ensures b in img && Sealed(b, img[b]) {
      if 1 <= b < n + 1 { assert InodeOf(img, b - 1, n, srcs[b - 1], bounds[b - 1], bounds[b]); }
    }
  }
}
