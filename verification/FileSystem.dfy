/** The read-only file system (file_sys.c): an image of 4 KB blocks - one boot block, the inodes,
    the data blocks - in which a file's bytes are found through its inode's block indices. */
module FileSystem {
  import opened Bytes

  const BLOCK := 4096
  /** Block indices an inode has room for. */
  const MAX_BLOCKS := 1023
  const EXEC_OFFSET := 0x48000
  const USER_MEM := 0x8000000
  const USER_SIZE := 0x400000
  const ELF_EIP_OFFSET := 24

  type Image = seq<byte>

  /** A little-endian 32-bit word. */
  function Word(img: Image, a: nat): nat
    requires a + 4 <= |img|
  {
    img[a] as nat + 0x100 * img[a + 1] as nat + 0x1_0000 * img[a + 2] as nat + 0x100_0000 * img[a + 3] as nat
  }

  function NumInodes(img: Image): nat
    requires |img| >= BLOCK
  {
    Word(img, 4)
  }

  function NumBlocks(img: Image): nat
    requires |img| >= BLOCK
  {
    Word(img, 8)
  }

  /** `node_head + i`, with `node_head` as `fs_init` sets it. */
  function InodeAt(i: nat): nat {
    (1 + i) * BLOCK
  }

  /** `data_head + b`, with `data_head` as `fs_init` sets it. */
  function BlockAt(img: Image, b: nat): nat
    requires |img| >= BLOCK
  {
    (1 + NumInodes(img) + b) * BLOCK
  }

  predicate Sized(img: Image) {
    |img| >= BLOCK && |img| == (1 + NumInodes(img) + NumBlocks(img)) * BLOCK
  }

  /** There is a block where inode `i` would be; one past the last that is the first data block. */
  predicate HasInode(img: Image, i: nat) {
    Sized(img) && i <= NumInodes(img) && (i == NumInodes(img) ==> NumBlocks(img) > 0)
  }

  function ByteLength(img: Image, i: nat): nat
    requires HasInode(img, i)
  {
    Word(img, InodeAt(i))
  }

  function BlockIndex(img: Image, i: nat, j: nat): nat
    requires HasInode(img, i) && j < MAX_BLOCKS
  {
    Word(img, InodeAt(i) + 4 + 4 * j)
  }

  /** The length fits the index table, and the indices in use are data blocks. */
  predicate GoodInode(img: Image, i: nat)
    requires HasInode(img, i)
  {
    && ByteLength(img, i) <= MAX_BLOCKS * BLOCK
    && forall j :: 0 <= j < MAX_BLOCKS && j * BLOCK < ByteLength(img, i) ==> BlockIndex(img, i, j) < NumBlocks(img)
  }

  /** An image as the tools make it: every inode is good. */
  predicate WellFormed(img: Image) {
    Sized(img) && forall i :: 0 <= i < NumInodes(img) ==> GoodInode(img, i)
  }

  /** What a read needs of its inode: it is good, and a file that fills the whole index table is
      followed by another block, into which the fetch of the next index reads. */
  predicate Readable(img: Image, i: nat) {
    && HasInode(img, i) && GoodInode(img, i)
    && (ByteLength(img, i) > (MAX_BLOCKS - 1) * BLOCK ==> InodeAt(i) + 2 * BLOCK <= |img|)
  }

  /** All inodes of a well-formed image can be read. */
  lemma WellFormedReadable(img: Image, i: nat)
    requires WellFormed(img) && i < NumInodes(img)
    ensures Readable(img, i)
  {
    assert GoodInode(img, i);
    if ByteLength(img, i) > 0 {
      assert BlockIndex(img, i, 0) < NumBlocks(img);
    }
  }

  /** Where byte `k` of a file lies in the image. */
  function ByteAt(img: Image, i: nat, k: nat): (a: nat)
    requires Readable(img, i) && k < ByteLength(img, i)
    ensures a < |img|
  {
    assert GoodInode(img, i);
    BlockAt(img, BlockIndex(img, i, k / BLOCK)) + k % BLOCK
  }

  /** The file as one flat sequence of bytes. */
  function Content(img: Image, i: nat): (s: seq<byte>)
    requires Readable(img, i)
    ensures |s| == ByteLength(img, i)
  {
    seq(ByteLength(img, i), k requires 0 <= k < ByteLength(img, i) => img[ByteAt(img, i, k)])
  }

  function Min(a: int, b: int): int {
    if a > b then b else a
  }

  /** `memcpy` from the image. */
  method Copy(img: Image, from: nat, buf: array<byte>, to: nat, n: nat)
    requires from + n <= |img| && to + n <= buf.Length
    modifies buf
    ensures buf[..] == Splice(old(buf[..]), to, img[from..from + n])
  {
    for k := 0 to n
      invariant buf[to..to + k] == img[from..from + k]
      invariant buf[..to] == old(buf[..to]) && buf[to + k..] == old(buf[to + k..])
    {
      buf[to + k] := img[from + k];
    }
    assert buf[..] == buf[..to] + buf[to..to + n] + buf[to + n..];
  }

  /** The bytes a read of `length` at `offset` delivers. */
  function Chunk(content: seq<byte>, offset: nat, length: nat): (s: seq<byte>)
    requires offset <= |content|
    ensures |s| == Min(|content| - offset, length)
  {
    content[offset..offset + Min(|content| - offset, length)]
  }

  lemma SameBlock(pos: nat, k: nat)
    requires pos % BLOCK + k < BLOCK
    ensures (pos + k) / BLOCK == pos / BLOCK && (pos + k) % BLOCK == pos % BLOCK + k
  {
  }

  /** A run of bytes inside one block is that part of the file. */
  lemma BlockRun(img: Image, i: nat, pos: nat, n: nat)
    requires Readable(img, i) && 0 < n
    requires pos + n <= ByteLength(img, i) && pos % BLOCK + n <= BLOCK
    ensures var a := ByteAt(img, i, pos); a + n <= |img| && img[a..a + n] == Content(img, i)[pos..pos + n]
  {
    var a := ByteAt(img, i, pos);
    SameBlock(pos, n - 1);
    assert a + n - 1 == ByteAt(img, i, pos + n - 1);
    var run, part := img[a..a + n], Content(img, i)[pos..pos + n];
    forall k | 0 <= k < n ensures run[k] == part[k] {
      SameBlock(pos, k);
      assert ByteAt(img, i, pos + k) == a + k;
    }
  }

  /** The word that holds block index `j`; index 1023, which the read loop may fetch but not use,
      is the first word of the block behind the inode. */
  lemma IndexInImage(img: Image, i: nat, j: nat)
    requires Readable(img, i) && j <= MAX_BLOCKS
    requires j == MAX_BLOCKS ==> ByteLength(img, i) > (MAX_BLOCKS - 1) * BLOCK
    ensures InodeAt(i) + 4 + 4 * j + 4 <= |img|
  {
  }

  /** `was` with `part` written over it from `at` on. */
  ghost function Splice(was: seq<byte>, at: nat, part: seq<byte>): seq<byte>
    requires at + |part| <= |was|
  {
    was[..at] + part + was[at + |part|..]
  }

  /** Writing the next part of `content` behind what is already there. */
  lemma SpliceMore(was: seq<byte>, at: nat, content: seq<byte>, offset: nat, pos: nat, round: nat)
    requires offset <= pos && pos + round <= |content| && at + pos + round - offset <= |was|
    ensures Splice(Splice(was, at, content[offset..pos]), at + pos - offset, content[pos..pos + round]) ==
            Splice(was, at, content[offset..pos + round])
  {
    assert content[offset..pos] + content[pos..pos + round] == content[offset..pos + round];
  }

  /** The loop's pointers stand at byte `pos` of the file: `data` in the block `db`, whose index
      is number `dbIdx` of the inode. */
  predicate Aims(img: Image, inode: nat, pos: nat, dbIdx: nat, db: nat, data: nat)
    requires Readable(img, inode) && pos < ByteLength(img, inode)
  {
    dbIdx == pos / BLOCK && data == ByteAt(img, inode, pos) && data == db + pos % BLOCK
  }

  /** The buffer `now` is `was` with the file's bytes from `offset` up to `pos` at `at`. */
  ghost predicate Filled(now: seq<byte>, was: seq<byte>, at: nat, img: Image, inode: nat, offset: nat, pos: nat)
    requires Readable(img, inode) && offset <= pos <= ByteLength(img, inode)
  {
    at + pos - offset <= |was| && now == Splice(was, at, Content(img, inode)[offset..pos])
  }

  /** One turn of the loop in `read_data`: copy up to the end of the current block. */
  method ReadRound(img: Image, inode: nat, ghost offset: nat, ghost pos: nat, ghost was: seq<byte>, ghost at: nat,
                   buf: array<byte>, to: nat, bRem: nat, ghost dbIdx: nat, db: nat, data: nat)
    returns (round: nat)
    requires Readable(img, inode)
    requires 0 < bRem && offset <= pos && pos + bRem <= ByteLength(img, inode) && to + bRem <= buf.Length
    requires Aims(img, inode, pos, dbIdx, db, data)
    requires to == at + pos - offset && Filled(buf[..], was, at, img, inode, offset, pos)
    modifies buf
    ensures 0 < round == Min(bRem, BLOCK - pos % BLOCK)
    ensures Filled(buf[..], was, at, img, inode, offset, pos + round)
  {
    hide Filled, Readable, Splice, Content, ByteAt;
    FilledLength(buf[..], was, at, img, inode, offset, pos);
    round := Min(bRem, db + BLOCK - data);
    BlockRun(img, inode, pos, round);
    Copy(img, data, buf, to, round);
    FilledMore(old(buf[..]), buf[..], was, at, img, inode, offset, pos, round);
  }

  lemma FilledLength(now: seq<byte>, was: seq<byte>, at: nat, img: Image, inode: nat, offset: nat, pos: nat)
    requires Readable(img, inode) && offset <= pos <= ByteLength(img, inode)
    requires Filled(now, was, at, img, inode, offset, pos)
    ensures |now| == |was|
  {
  }

  lemma FilledNone(was: seq<byte>, at: nat, img: Image, inode: nat, offset: nat)
    requires Readable(img, inode) && offset <= ByteLength(img, inode) && at <= |was|
    ensures Filled(was, was, at, img, inode, offset, offset)
  {
  }

  lemma FilledMore(mid: seq<byte>, now: seq<byte>, was: seq<byte>, at: nat, img: Image, inode: nat,
                   offset: nat, pos: nat, round: nat)
    requires Readable(img, inode) && offset <= pos && pos + round <= ByteLength(img, inode)
    requires at + pos + round - offset <= |was| && Filled(mid, was, at, img, inode, offset, pos)
    requires now == Splice(mid, at + pos - offset, Content(img, inode)[pos..pos + round])
    ensures Filled(now, was, at, img, inode, offset, pos + round)
  {
    SpliceMore(was, at, Content(img, inode), offset, pos, round);
  }

  /** Where the loop looks next: the first byte of the following block. */
  lemma NextBlock(img: Image, inode: nat, pos: nat)
    requires Readable(img, inode)
    requires pos - pos % BLOCK + BLOCK < ByteLength(img, inode)
    ensures var next := pos - pos % BLOCK + BLOCK;
            && next % BLOCK == 0 && next / BLOCK == pos / BLOCK + 1 < MAX_BLOCKS
            && ByteAt(img, inode, next) == BlockAt(img, BlockIndex(img, inode, pos / BLOCK + 1))
  {
    assert GoodInode(img, inode);
  }

  /** The bounds check of `read_data`. */
  predicate Refused(img: Image, inode: nat, offset: nat)
    requires Sized(img) && (inode == NumInodes(img) ==> NumBlocks(img) > 0)
  {
    inode > NumInodes(img) || Word(img, InodeAt(inode)) < offset
  }

  /** `read_data`, into `buf` from `at` on: -1 for an inode or an offset out of range, otherwise
      exactly the requested part of the file's flat content. */
  method ReadData(img: Image, inode: nat, offset: nat, buf: array<byte>, at: nat, length: nat) returns (r: int)
    requires Sized(img) && (inode <= NumInodes(img) ==> Readable(img, inode))
    requires inode <= NumInodes(img) && offset <= ByteLength(img, inode) ==>
               at + Min(ByteLength(img, inode) - offset, length) <= buf.Length
    modifies buf
    ensures r == -1 <==> inode > NumInodes(img) || offset > ByteLength(img, inode)
    ensures r == -1 ==> buf[..] == old(buf[..])
    ensures r != -1 ==>
              && r == |Chunk(Content(img, inode), offset, length)|
              && buf[..] == Splice(old(buf[..]), at, Chunk(Content(img, inode), offset, length))
  {
    if Refused(img, inode, offset) {
      return -1;
    }
    r := ReadBlocks(img, inode, offset, buf, at, Min(ByteLength(img, inode) - offset, length));
  }

  /** The loop of `read_data`. */
  method ReadBlocks(img: Image, inode: nat, offset: nat, buf: array<byte>, at: nat, total: nat) returns (bRead: nat)
    requires Readable(img, inode) && offset + total <= ByteLength(img, inode)
    requires at + total <= buf.Length
    modifies buf
    ensures bRead == total && Filled(buf[..], old(buf[..]), at, img, inode, offset, offset + total)
  {
    hide Readable, Aims, Filled;
    FilledNone(buf[..], at, img, inode, offset);
    var bRem: nat, dbIdx: nat := total, offset / BLOCK;
    var db: nat := FetchBlock(img, inode, dbIdx, offset);
    var data: nat := db + offset % BLOCK;
    bRead := 0;
    while bRem > 0
      invariant bRead + bRem == total
      invariant bRem > 0 ==> Aims(img, inode, offset + bRead, dbIdx, db, data)
      invariant Filled(buf[..], old(buf[..]), at, img, inode, offset, offset + bRead)
    {
      ghost var pos := offset + bRead;
      var round := ReadRound(img, inode, offset, pos, old(buf[..]), at, buf, at + bRead, bRem, dbIdx, db, data);
      bRead := bRead + round;
      bRem := bRem - round;
      dbIdx, db, data := Advance(img, inode, pos, dbIdx, db, data);
    }
  }

  /** `data_head + data_blocks[dbIdx]` */
  method FetchBlock(img: Image, inode: nat, dbIdx: nat, ghost pos: nat) returns (db: nat)
    requires Readable(img, inode) && pos <= ByteLength(img, inode)
    requires dbIdx == pos / BLOCK
    ensures pos < ByteLength(img, inode) ==> Aims(img, inode, pos, dbIdx, db, db + pos % BLOCK)
  {
    assert GoodInode(img, inode);
    IndexInImage(img, inode, dbIdx);
    db := BlockAt(img, Word(img, InodeAt(inode) + 4 + 4 * dbIdx));
  }

  /** The end of a turn: the block after the one that holds byte `pos`. */
  method Advance(img: Image, inode: nat, ghost pos: nat, dbIdx: nat, ghost db0: nat, ghost data0: nat)
    returns (next: nat, db: nat, data: nat)
    requires Readable(img, inode) && pos < ByteLength(img, inode)
    requires Aims(img, inode, pos, dbIdx, db0, data0)
    ensures var start := pos - pos % BLOCK + BLOCK;
            start < ByteLength(img, inode) ==> Aims(img, inode, start, next, db, data)
  {
    assert GoodInode(img, inode);
    next := dbIdx + 1;
    IndexInImage(img, inode, next);
    db := BlockAt(img, Word(img, InodeAt(inode) + 4 + 4 * next));
    data := db;
    ghost var start := pos - pos % BLOCK + BLOCK;
    if start < ByteLength(img, inode) {
      NextBlock(img, inode, pos);
    }
  }

  /** The bounds check refuses every inode out of range but the one just past the last: there the
      first data block is taken for an inode, and only an offset above its first word is refused. */
  lemma OneInodeTooMany(img: Image, inode: nat, offset: nat)
    requires Sized(img) && NumBlocks(img) > 0 && inode >= NumInodes(img)
    ensures Refused(img, inode, offset) <==> inode > NumInodes(img) || Word(img, BlockAt(img, 0)) < offset
  {
    assert inode == NumInodes(img) ==> InodeAt(inode) == BlockAt(img, 0);
  }

  /** An image without a single inode, of which inode 0 has five bytes to read. */
  lemma NoInodeRead()
    ensures exists img: Image :: WellFormed(img) && NumInodes(img) == 0
              && Readable(img, 0) && !Refused(img, 0, 0) && |Content(img, 0)| == 5
  {
    var img: Image := seq(2 * BLOCK, i => if i == 8 then 1 else if i == BLOCK then 5 else 0);
    assert Word(img, 4) == 0 && Word(img, 8) == 1;
    assert Word(img, BLOCK) == 5 && Word(img, BLOCK + 4) == 0;
    assert WellFormed(img) && Readable(img, 0);
  }

  // ---------- open files ----------

  /** An open regular file; `file_pos` advances with every read. */
  class OpenFile {
    const img: Image
    const inode: nat
    var pos: nat

    ghost predicate Valid()
      reads this
    {
      Readable(img, inode) && pos <= ByteLength(img, inode)
    }

    /** `file_open`, on an inode the directory names. */
    constructor (img: Image, inode: nat)
      requires Readable(img, inode)
      ensures Valid() && this.img == img && this.inode == inode && pos == 0
    {
      this.img, this.inode, pos := img, inode, 0;
    }

    /** `file_read`: on an open file it never fails. */
    method FileRead(buf: array<byte>, nbytes: nat) returns (r: int)
      requires Valid() && nbytes <= buf.Length
      modifies `pos, buf
      ensures Valid()
      ensures var chunk := Chunk(Content(img, inode), old(pos), nbytes);
              r == |chunk| && pos == old(pos) + |chunk| && buf[..] == Splice(old(buf[..]), 0, chunk)
    {
      r := ReadData(img, inode, pos, buf, 0, nbytes);
      pos := pos + r;
    }
  }

  /** What a sequence of reads of the given sizes delivers, read by read. */
  function Reads(content: seq<byte>, pos: nat, sizes: seq<nat>): (chunks: seq<seq<byte>>)
    requires pos <= |content|
    ensures |chunks| == |sizes|
    decreases |sizes|
  {
    if sizes == [] then [] else
      var chunk := Chunk(content, pos, sizes[0]);
      [chunk] + Reads(content, pos + |chunk|, sizes[1..])
  }

  function Concat(chunks: seq<seq<byte>>): seq<byte> {
    if chunks == [] then [] else chunks[0] + Concat(chunks[1..])
  }

  /** Sequential reads of any sizes deliver the file from the starting position on, in order and
      without gaps, and have delivered all of it once a read of positive size returns nothing. */
  lemma {:induction false} ReadsCompose(content: seq<byte>, pos: nat, sizes: seq<nat>)
    requires pos <= |content|
    ensures Concat(Reads(content, pos, sizes)) <= content[pos..]
    ensures (exists k :: 0 <= k < |sizes| && sizes[k] > 0 && Reads(content, pos, sizes)[k] == []) ==>
              Concat(Reads(content, pos, sizes)) == content[pos..]
    decreases |sizes|
  {
    if sizes != [] {
      var chunk := Chunk(content, pos, sizes[0]);
      var rest := Reads(content, pos + |chunk|, sizes[1..]);
      ReadsCompose(content, pos + |chunk|, sizes[1..]);
      assert content[pos..] == chunk + content[pos + |chunk|..];
      assert Reads(content, pos, sizes)[1..] == rest;
      if k :| 0 <= k < |sizes| && sizes[k] > 0 && Reads(content, pos, sizes)[k] == [] {
        if k == 0 {
          assert content[pos..] == [];
        } else {
          assert sizes[1..][k - 1] == sizes[k] && rest[k - 1] == [];
        }
      }
    }
  }

  // ---------- the program loader ----------

  /** `file_loader`: copies the whole file to the load address and checks the entry point stored
      in bytes 24 to 27.  `mem` is the process's 4 MB page. */
  method LoadFile(img: Image, inode: nat, mem: array<byte>) returns (ok: bool, eip: nat)
    requires Readable(img, inode)
    requires mem.Length == USER_SIZE && ByteLength(img, inode) <= USER_SIZE - EXEC_OFFSET
    modifies mem
    ensures mem[..] == Splice(old(mem[..]), EXEC_OFFSET, Content(img, inode))
    ensures ok <==> USER_MEM + EXEC_OFFSET <= Word(mem[..], EXEC_OFFSET + ELF_EIP_OFFSET) <= USER_MEM + USER_SIZE
    ensures ok ==> eip == Word(mem[..], EXEC_OFFSET + ELF_EIP_OFFSET)
  {
    var bRem, fPos: nat := ByteLength(img, inode), 0;
    ghost var content := Content(img, inode);
    while bRem > 0
      invariant bRem >= 0 && fPos + bRem == |content|
      invariant mem[..] == Splice(old(mem[..]), EXEC_OFFSET, content[..fPos])
    {
      ghost var mid := mem[..];
      var bRead := ReadData(img, inode, fPos, mem, EXEC_OFFSET + fPos, bRem);
      SpliceMore(old(mem[..]), EXEC_OFFSET, content, 0, fPos, bRead);
      fPos := fPos + bRead;
      bRem := bRem - bRead;
    }
    assert content[..fPos] == content;
    eip := Word(mem[..], EXEC_OFFSET + ELF_EIP_OFFSET);
    ok := !(eip < USER_MEM + EXEC_OFFSET || eip > USER_MEM + USER_SIZE);
  }
}
