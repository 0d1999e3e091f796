/** An image of the file system written from the layout alone - counts in the boot block, a length and
    block numbers in every inode, data behind them - and that reading it gives the files back. */
module Mkfs {
  import opened Bytes
  import opened FileSystem

  /** The `i`th byte of a 32-bit word, least significant first. */
  function ByteOf(n: nat, i: nat): byte {
    var q := if i == 0 then n else if i == 1 then n / 0x100 else if i == 2 then n / 0x1_0000 else n / 0x100_0000;
    (q % 0x100) as byte
  }

  /** Files that fit in `m` blocks each, with block numbers that fit in a word. */
  predicate Fits(files: seq<seq<byte>>, m: nat) {
    && files != [] && 0 < m <= MAX_BLOCKS && |files| * m < 0x1_0000_0000
    && forall i :: 0 <= i < |files| ==> |files[i]| <= m * BLOCK
  }

  /** The boot block: no directory entries, then the two counts. */
  function BootByte(n: nat, blocks: nat, k: nat): byte {
    if 4 <= k < 8 then ByteOf(n, k - 4) else if 8 <= k < 12 then ByteOf(blocks, k - 8) else 0
  }

  /** An inode: the length, then the numbers of its blocks.  The files' blocks take turns. */
  function InodeByte(len: nat, i: nat, n: nat, m: nat, k: nat): byte {
    if k < 4 then ByteOf(len, k)
    else if (k - 4) / 4 < m then ByteOf(i + (k - 4) / 4 * n, (k - 4) % 4)
    else 0
  }

  /** Data block `b` is part `b / n` of file `b % n`. */
  function DataByte(files: seq<seq<byte>>, b: nat, k: nat): byte
    requires files != []
  {
    var file, at := files[b % |files|], b / |files| * BLOCK + k;
    if at < |file| then file[at] else 0
  }

  function ImageByte(files: seq<seq<byte>>, m: nat, a: nat): byte
    requires files != []
  {
    var block, k, n := a / BLOCK, a % BLOCK, |files|;
    if block == 0 then BootByte(n, n * m, k)
    else if block <= n then InodeByte(|files[block - 1]|, block - 1, n, m, k)
    else DataByte(files, block - 1 - n, k)
  }

  function Encode(files: seq<seq<byte>>, m: nat): (img: Image)
    requires Fits(files, m)
    ensures |img| == (1 + |files| + |files| * m) * BLOCK
  {
    seq((1 + |files| + |files| * m) * BLOCK, a requires 0 <= a => ImageByte(files, m, a))
  }

  // ---------- words ----------

  lemma WordBack(img: Image, a: nat, n: nat)
    requires a + 4 <= |img| && n < 0x1_0000_0000
    requires img[a] == ByteOf(n, 0) && img[a + 1] == ByteOf(n, 1)
    requires img[a + 2] == ByteOf(n, 2) && img[a + 3] == ByteOf(n, 3)
    ensures Word(img, a) == n
  {
    assert n / 0x100 / 0x100 == n / 0x1_0000 && n / 0x1_0000 / 0x100 == n / 0x100_0000;
  }

  /** Where a byte of a block lies. */
  lemma BlockByte(files: seq<seq<byte>>, m: nat, block: nat, k: nat)
    requires Fits(files, m) && block < 1 + |files| + |files| * m && k < BLOCK
    ensures block * BLOCK + k < |Encode(files, m)|
    ensures (block * BLOCK + k) / BLOCK == block && (block * BLOCK + k) % BLOCK == k
    ensures Encode(files, m)[block * BLOCK + k] == ImageByte(files, m, block * BLOCK + k)
  {
    assert (block + 1) * BLOCK <= (1 + |files| + |files| * m) * BLOCK;
  }

  lemma BootWords(files: seq<seq<byte>>, m: nat)
    requires Fits(files, m)
    ensures var img := Encode(files, m);
            |img| >= BLOCK && NumInodes(img) == |files| && NumBlocks(img) == |files| * m && Sized(img)
  {
    var img, n := Encode(files, m), |files|;
    CountBound(n, m);
    forall k | 0 <= k < 12 ensures k < |img| && img[k] == BootByte(n, n * m, k) {
      BlockByte(files, m, 0, k);
    }
    WordBack(img, 4, n);
    WordBack(img, 8, n * m);
  }

  lemma InodeByteAt(files: seq<seq<byte>>, m: nat, i: nat, k: nat)
    requires Fits(files, m) && i < |files| && k < BLOCK
    ensures InodeAt(i) + k < |Encode(files, m)|
    ensures Encode(files, m)[InodeAt(i) + k] == InodeByte(|files[i]|, i, |files|, m, k)
  {
    BlockByte(files, m, 1 + i, k);
    hide Encode;
  }

  /** The word an inode holds at place `j`: the length, then the block numbers. */
  function InodeEntry(len: nat, i: nat, n: nat, j: nat): nat {
    if j == 0 then len else i + (j - 1) * n
  }

  lemma EntryByte(len: nat, i: nat, n: nat, m: nat, j: nat, d: nat)
    requires j <= m && d < 4
    ensures InodeByte(len, i, n, m, 4 * j + d) == ByteOf(InodeEntry(len, i, n, j), d)
  {
    if j > 0 {
      assert (4 * j + d - 4) / 4 == j - 1 && (4 * j + d - 4) % 4 == d;
    }
    hide ByteOf;
  }

  lemma InodeWord(files: seq<seq<byte>>, m: nat, i: nat, j: nat)
    requires Fits(files, m) && i < |files| && j <= m && InodeEntry(|files[i]|, i, |files|, j) < 0x1_0000_0000
    ensures InodeAt(i) + 4 * j + 4 <= |Encode(files, m)|
    ensures Word(Encode(files, m), InodeAt(i) + 4 * j) == InodeEntry(|files[i]|, i, |files|, j)
  {
    hide Encode, InodeByte, InodeEntry, ByteOf;
    var img, a, x := Encode(files, m), InodeAt(i) + 4 * j, InodeEntry(|files[i]|, i, |files|, j);
    forall d: nat | d < 4 ensures a + d < |img| && img[a + d] == ByteOf(x, d) {
      InodeByteAt(files, m, i, 4 * j + d);
      EntryByte(|files[i]|, i, |files|, m, j, d);
    }
    assert img[a + 0] == ByteOf(x, 0);
    WordBack(img, a, x);
  }

  lemma CountBound(n: nat, m: nat)
    requires m > 0
    ensures n <= n * m
  {
  }

  lemma Apart(n: nat, q: nat, d: nat)
    requires d > 0
    ensures n * (q + d) >= n * q + n
  {
    CountBound(n, d);
  }

  /** Quotient and remainder are the only ones. */
  lemma Division(n: nat, q: nat, r: nat, q': nat, r': nat)
    requires r < n && r' < n && n * q + r == n * q' + r'
    ensures q == q' && r == r'
  {
    if q < q' {
      Apart(n, q, q' - q);
    } else if q' < q {
      Apart(n, q', q - q');
    }
  }

  /** The number given to block `j` of file `i` tells both. */
  lemma BlockNumber(n: nat, m: nat, i: nat, j: nat)
    requires i < n && j < m
    ensures i + j * n < n * m && (i + j * n) % n == i && (i + j * n) / n == j
  {
    var b := i + j * n;
    assert (j + 1) * n <= m * n;
    Division(n, b / n, b % n, j, i);
  }

  lemma BlockEntry(len: nat, n: nat, m: nat, i: nat, j: nat)
    requires i < n && j < m
    ensures InodeEntry(len, i, n, j + 1) == i + j * n < n * m
  {
    BlockNumber(n, m, i, j);
  }

  lemma BlockWord(files: seq<seq<byte>>, m: nat, i: nat, j: nat)
    requires Fits(files, m) && i < |files| && j < m
    ensures HasInode(Encode(files, m), i) && BlockIndex(Encode(files, m), i, j) == i + j * |files| < |files| * m
  {
    hide Encode, Word, InodeEntry;
    BootWords(files, m);
    BlockEntry(|files[i]|, |files|, m, i, j);
    InodeWord(files, m, i, j + 1);
    assert InodeAt(i) + 4 * (j + 1) == InodeAt(i) + 4 + 4 * j;
  }

  lemma LengthWord(files: seq<seq<byte>>, m: nat, i: nat)
    requires Fits(files, m) && i < |files|
    ensures HasInode(Encode(files, m), i) && ByteLength(Encode(files, m), i) == |files[i]|
  {
    hide Encode, Word;
    BootWords(files, m);
    InodeWord(files, m, i, 0);
  }

  lemma EncodedGood(files: seq<seq<byte>>, m: nat, i: nat)
    requires Fits(files, m) && i < |files|
    ensures HasInode(Encode(files, m), i) && GoodInode(Encode(files, m), i)
  {
    var img := Encode(files, m);
    BootWords(files, m);
    LengthWord(files, m, i);
    forall j | 0 <= j < MAX_BLOCKS && j * BLOCK < |files[i]| ensures BlockIndex(img, i, j) < NumBlocks(img) {
      BlockWord(files, m, i, j);
    }
  }

  /** What `mkfs` writes is an image the kernel can read. */
  lemma EncodedWellFormed(files: seq<seq<byte>>, m: nat)
    requires Fits(files, m)
    ensures WellFormed(Encode(files, m)) && NumInodes(Encode(files, m)) == |files|
  {
    BootWords(files, m);
    forall i | 0 <= i < |files| ensures GoodInode(Encode(files, m), i) {
      EncodedGood(files, m, i);
    }
  }

  lemma DataByteAt(files: seq<seq<byte>>, m: nat, b: nat, k: nat)
    requires Fits(files, m) && b < |files| * m && k < BLOCK
    ensures var at := (1 + |files| + b) * BLOCK + k;
            at < |Encode(files, m)| && Encode(files, m)[at] == DataByte(files, b, k)
  {
    BlockByte(files, m, 1 + |files| + b, k);
    hide Encode, DataByte;
  }

  /** Block `j` of file `i`, as it lies in the image. */
  lemma DataBack(files: seq<seq<byte>>, m: nat, i: nat, j: nat, k: nat)
    requires Fits(files, m) && i < |files| && j < m && k < BLOCK && j * BLOCK + k < |files[i]|
    ensures var at := (1 + |files| + (i + j * |files|)) * BLOCK + k;
            at < |Encode(files, m)| && Encode(files, m)[at] == files[i][j * BLOCK + k]
  {
    BlockNumber(|files|, m, i, j);
    DataByteAt(files, m, i + j * |files|, k);
    hide Encode;
  }

  lemma ByteBack(files: seq<seq<byte>>, m: nat, i: nat, k: nat)
    requires Fits(files, m) && i < |files| && k < |files[i]|
    requires Readable(Encode(files, m), i) && ByteLength(Encode(files, m), i) == |files[i]|
    ensures Encode(files, m)[ByteAt(Encode(files, m), i, k)] == files[i][k]
  {
    hide Encode, Readable, HasInode, NumInodes, NumBlocks, BlockIndex, ByteLength;
    BootWords(files, m);
    BlockWord(files, m, i, k / BLOCK);
    DataBack(files, m, i, k / BLOCK, k % BLOCK);
  }

  /** Reading an encoded image gives back every file, byte for byte. */
  lemma RoundTrip(files: seq<seq<byte>>, m: nat, i: nat)
    requires Fits(files, m) && i < |files|
    ensures Readable(Encode(files, m), i) && Content(Encode(files, m), i) == files[i]
  {
    var img := Encode(files, m);
    EncodedWellFormed(files, m);
    WellFormedReadable(img, i);
    LengthWord(files, m, i);
    forall k | 0 <= k < |files[i]| ensures Content(img, i)[k] == files[i][k] {
      ByteBack(files, m, i, k);
    }
  }
}
