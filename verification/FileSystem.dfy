/** The read-only file system (student-distrib/fs.c) over the bytes of a boot module: a boot
    block with the directory, one block per inode, then the data blocks. */
module FileSystem {
  import opened CInt

  const BLOCK := 4096
  const DENTRY_START := 64
  const DENTRY_SIZE := 64
  const NAME_LEN := 32
  const MAX_DENTRIES := 63
  const MAX_FILE_BLOCKS := 1023

  type Image = seq<byte>

  datatype FileType = RtcType | DirectoryType | RegularType | OtherType

  /** A little-endian word. */
  function U32(img: Image, at: nat): (w: nat)
    requires at + 4 <= |img|
    ensures w < 0x1_0000_0000
  {
    img[at] as int + 0x100 * (img[at + 1] as int) + 0x1_0000 * (img[at + 2] as int) + 0x100_0000 * (img[at + 3] as int)
  }

  /** The bytes of a word. */
  function LittleEndian(w: nat): (bs: seq<byte>)
    requires w < 0x1_0000_0000
    ensures |bs| == 4 && U32(bs, 0) == w
  {
    var w1 := w / 0x100;
    var w2 := w1 / 0x100;
    [(w % 0x100) as byte, (w1 % 0x100) as byte, (w2 % 0x100) as byte, (w2 / 0x100) as byte]
  }

  function NDentries(img: Image): nat
    requires |img| >= BLOCK
  {
    U32(img, 0)
  }

  function NInodes(img: Image): nat
    requires |img| >= BLOCK
  {
    U32(img, 4)
  }

  function NBlocks(img: Image): nat
    requires |img| >= BLOCK
  {
    U32(img, 8)
  }

  /** The blocks the boot block announces are all there, and no inode claims more blocks
      than fit in its own. Block numbers are not constrained. */
  ghost predicate Sized(img: Image) {
    && |img| >= BLOCK
    && NDentries(img) <= MAX_DENTRIES
    && |img| >= BLOCK * (1 + NInodes(img) + NBlocks(img))
    && forall ino: nat :: ino < NInodes(img) ==> FileSize(img, ino) <= MAX_FILE_BLOCKS * BLOCK
  }

  /** The first word of an inode. */
  function FileSize(img: Image, ino: nat): nat
    requires |img| >= BLOCK && |img| >= BLOCK * (1 + NInodes(img) + NBlocks(img)) && ino < NInodes(img)
  {
    U32(img, BLOCK * (ino + 1))
  }

  /** Entry `k` of an inode's block list. */
  function BlockNo(img: Image, ino: nat, k: nat): nat
    requires Sized(img) && ino < NInodes(img) && k < MAX_FILE_BLOCKS
  {
    U32(img, BLOCK * (ino + 1) + 4 * (k + 1))
  }

  /** The data block that holds byte `i` of a file. */
  function BlockOf(img: Image, ino: nat, i: nat): nat
    requires Sized(img) && ino < NInodes(img) && i < FileSize(img, ino)
  {
    BlockNo(img, ino, i / BLOCK)
  }

  /** Where a data block starts in the image. */
  function BlockBase(img: Image, id: nat): (at: nat)
    requires Sized(img) && id < NBlocks(img)
    ensures at + BLOCK <= |img|
  {
    BLOCK * (id + NInodes(img) + 1)
  }

  predicate Stored(img: Image, ino: nat, i: nat)
    requires Sized(img) && ino < NInodes(img) && i < FileSize(img, ino)
  {
    BlockOf(img, ino, i) < NBlocks(img)
  }

  function FileByte(img: Image, ino: nat, i: nat): byte
    requires Sized(img) && ino < NInodes(img) && i < FileSize(img, ino) && Stored(img, ino, i)
  {
    img[BlockBase(img, BlockOf(img, ino, i)) + i % BLOCK]
  }

  /** Every byte of the range lies in a data block that exists. */
  predicate AllStored(img: Image, ino: nat, lo: nat, hi: nat)
    requires Sized(img) && ino < NInodes(img) && hi <= FileSize(img, ino)
  {
    forall i :: lo <= i < hi ==> Stored(img, ino, i)
  }

  /** The bytes of a file from `lo` up to `hi`. */
  function Slice(img: Image, ino: nat, lo: nat, hi: nat): (s: seq<byte>)
    requires Sized(img) && ino < NInodes(img) && lo <= hi <= FileSize(img, ino) && AllStored(img, ino, lo, hi)
    ensures |s| == hi - lo
  {
    seq<byte>(hi - lo, k requires 0 <= k < hi - lo => FileByte(img, ino, lo + k))
  }

  /** The whole file as a flat byte sequence. */
  function Content(img: Image, ino: nat): seq<byte>
    requires Sized(img) && ino < NInodes(img) && AllStored(img, ino, 0, FileSize(img, ino))
  {
    Slice(img, ino, 0, FileSize(img, ino))
  }

  /** Where a read of `length` bytes at `offset` ends: the length is capped at the end of
      the file, and a read from past the end is empty. */
  function ReadEnd(size: nat, offset: nat, length: nat): (hi: nat)
    ensures offset <= hi
  {
    if offset >= size then offset else if length > size - offset then size else offset + length
  }

  /** A read as the file system promises it; `None` is the failure. */
  function ReadResult(img: Image, ino: nat, offset: nat, length: nat): (r: Option<seq<byte>>)
    requires Sized(img)
    ensures r.Some? ==> |r.value| <= length
  {
    if ino >= NInodes(img) then None else
    var hi := ReadEnd(FileSize(img, ino), offset, length);
    if hi == offset then Some([])
    else if AllStored(img, ino, offset, hi) then Some(Slice(img, ino, offset, hi))
    else None
  }

  /** The image has `c` where byte `i` of a file belongs: the inode's block list starts at its
      second word, and the data blocks follow the boot block and the inodes. */
  predicate LiesAt(img: Image, ino: nat, i: nat, c: byte) {
    var entry := 4096 * (ino + 1) + 4 * (i / 4096 + 1);
    && 8 <= entry + 4 <= |img|
    && var at := 4096 * (1 + U32(img, 4) + U32(img, entry)) + i % 4096;
       at < |img| && img[at] == c
  }

  /** How much a read of `length` bytes at `offset` gets, from the inode's first word. */
  predicate Length(img: Image, ino: nat, offset: nat, length: nat, n: nat) {
    && 4096 * (ino + 1) + 4 <= |img|
    && var size := U32(img, 4096 * (ino + 1));
       n == if offset >= size then 0 else if length < size - offset then length else size - offset
  }

  /** Byte `i` of the file is in no data block of the image. */
  predicate Missing(img: Image, ino: nat, i: nat) {
    var entry := 4096 * (ino + 1) + 4 * (i / 4096 + 1);
    12 <= entry + 4 <= |img| && U32(img, entry) >= U32(img, 8)
  }

  lemma ByteLies(img: Image, ino: nat, i: nat)
    requires Sized(img) && ino < NInodes(img) && i < FileSize(img, ino) && Stored(img, ino, i)
    ensures LiesAt(img, ino, i, FileByte(img, ino, i))
  {
    var id := BlockOf(img, ino, i);
    assert id == U32(img, 4096 * (ino + 1) + 4 * (i / 4096 + 1));
    hide U32;
    assert BlockBase(img, id) == 4096 * (1 + NInodes(img) + id);
  }

  /** A whole file, byte by byte. */
  lemma ContentLocates(img: Image, ino: nat)
    requires Sized(img) && ino < NInodes(img) && AllStored(img, ino, 0, FileSize(img, ino))
    ensures |Content(img, ino)| == U32(img, 4096 * (ino + 1))
    ensures forall i: nat :: i < |Content(img, ino)| ==> LiesAt(img, ino, i, Content(img, ino)[i])
  {
    forall i: nat | i < |Content(img, ino)|
      ensures LiesAt(img, ino, i, Content(img, ino)[i])
    {
      ByteLies(img, ino, i);
    }
  }

  /** What a read gets, byte by byte, from where it is in the image. */
  lemma ReadLocates(img: Image, ino: nat, offset: nat, length: nat)
    requires Sized(img)
    ensures var r := ReadResult(img, ino, offset, length);
            r.Some? ==>
              && Length(img, ino, offset, length, |r.value|)
              && forall k: nat :: k < |r.value| ==> LiesAt(img, ino, offset + k, r.value[k])
  {
    var r := ReadResult(img, ino, offset, length);
    if r.Some? {
      forall k: nat | k < |r.value|
        ensures LiesAt(img, ino, offset + k, r.value[k])
      {
        ByteLies(img, ino, offset + k);
        assert r.value[k] == FileByte(img, ino, offset + k);
      }
    }
  }

  /** When a read fails: a bad inode, or a byte of the range in a block that does not exist. */
  lemma ReadFails(img: Image, ino: nat, offset: nat, length: nat, n: nat)
    requires Sized(img) && (ino < U32(img, 4) ==> Length(img, ino, offset, length, n))
    ensures ReadResult(img, ino, offset, length).None?
            <==> ino >= U32(img, 4) || exists i: nat :: offset <= i < offset + n && Missing(img, ino, i)
  {
    if ino < U32(img, 4) {
      var hi := ReadEnd(FileSize(img, ino), offset, length);
      assert hi == offset + n;
      assert forall i: nat :: offset <= i < hi ==> (Missing(img, ino, i) <==> !Stored(img, ino, i));
    }
  }

  /** `s` with the bytes from `at` on replaced by `run`. */
  function Patched(s: seq<byte>, at: nat, run: seq<byte>): (r: seq<byte>)
    requires at + |run| <= |s|
    ensures |r| == |s|
  {
    s[..at] + run + s[at + |run|..]
  }

  /** `memcpy`. */
  method CopyBytes(dst: array<byte>, at: nat, src: seq<byte>, src_at: nat, n: nat)
    requires at + n <= dst.Length && src_at + n <= |src|
    modifies dst
    ensures dst[..] == Patched(old(dst[..]), at, src[src_at..src_at + n])
  {
    for i := 0 to n
      invariant forall k :: at <= k < at + i ==> dst[k] == src[src_at + (k - at)]
      invariant forall k :: 0 <= k < dst.Length && !(at <= k < at + i) ==> dst[k] == old(dst[k])
    {
      dst[at + i] := src[src_at + i];
    }
  }

  /** The bytes of one block are contiguous in the image. */
  lemma OneBlock(img: Image, ino: nat, lo: nat, hi: nat)
    requires Sized(img) && ino < NInodes(img) && lo < hi <= FileSize(img, ino)
    requires lo % BLOCK + (hi - lo) <= BLOCK
    requires Stored(img, ino, lo)
    ensures AllStored(img, ino, lo, hi)
    ensures var base := BlockBase(img, BlockOf(img, ino, lo)) + lo % BLOCK;
            base + (hi - lo) <= |img| && Slice(img, ino, lo, hi) == img[base..base + (hi - lo)]
  {
    var base := BlockBase(img, BlockOf(img, ino, lo)) + lo % BLOCK;
    forall i | lo <= i < hi
      ensures Stored(img, ino, i) && FileByte(img, ino, i) == img[base + (i - lo)]
    {
      SameBlock(lo, i);
      assert BlockOf(img, ino, i) == BlockOf(img, ino, lo);
    }
  }

  lemma SameBlock(lo: nat, i: nat)
    requires lo <= i && lo % BLOCK + (i - lo) < BLOCK
    ensures i / BLOCK == lo / BLOCK && i % BLOCK == lo % BLOCK + (i - lo)
  {
  }

  lemma NextBlock(i: nat, n: nat)
    requires i % BLOCK + n == BLOCK
    ensures (i + n) / BLOCK == i / BLOCK + 1 && (i + n) % BLOCK == 0
  {
  }

  lemma SliceAppend(img: Image, ino: nat, lo: nat, mid: nat, hi: nat)
    requires Sized(img) && ino < NInodes(img) && lo <= mid <= hi <= FileSize(img, ino)
    requires AllStored(img, ino, lo, mid) && AllStored(img, ino, mid, hi)
    ensures AllStored(img, ino, lo, hi)
    ensures Slice(img, ino, lo, hi) == Slice(img, ino, lo, mid) + Slice(img, ino, mid, hi)
  {
  }

  /** A buffer that held `was` and starts with `done` now. */
  ghost predicate Filled(now: seq<byte>, done: seq<byte>, was: seq<byte>) {
    |done| <= |was| && now == done + was[|done|..]
  }

  lemma PatchFills(now: seq<byte>, done: seq<byte>, run: seq<byte>, was: seq<byte>)
    requires Filled(now, done, was) && |done| + |run| <= |was|
    ensures Filled(Patched(now, |done|, run), done + run, was)
  {
    assert now[..|done|] == done;
    assert now[|done| + |run|..] == was[|done| + |run|..];
  }

  /** A buffer that held `was` has received the first `count` bytes of a read. */
  ghost predicate Copied(img: Image, ino: nat, offset: nat, count: nat, now: seq<byte>, was: seq<byte>)
    requires Sized(img) && ino < NInodes(img) && offset + count <= FileSize(img, ino)
  {
    && AllStored(img, ino, offset, offset + count)
    && Filled(now, Slice(img, ino, offset, offset + count), was)
  }

  /** A file position as block number and offset. */
  ghost predicate At(pos: nat, blocknum: int, blockoffset: int) {
    blocknum == pos / BLOCK && blockoffset == pos % BLOCK
  }

  /** One turn of the read loop: the next `n` bytes come from one block. */
  lemma ReadBlock(img: Image, ino: nat, offset: nat, count: nat, n: nat, blocknum: nat, blockoffset: nat, base: nat,
                  now: seq<byte>, after: seq<byte>, was: seq<byte>)
    requires Sized(img) && ino < NInodes(img) && n > 0 && offset + count + n <= FileSize(img, ino)
    requires At(offset + count, blocknum, blockoffset) && blockoffset + n <= BLOCK && blocknum < MAX_FILE_BLOCKS
    requires BlockNo(img, ino, blocknum) < NBlocks(img)
    requires Copied(img, ino, offset, count, now, was) && count + n <= |was|
    requires base == BlockBase(img, BlockNo(img, ino, blocknum)) + blockoffset
    requires base + n <= |img| && after == Patched(now, count, img[base..base + n])
    ensures Copied(img, ino, offset, count + n, after, was)
    ensures n == BLOCK - blockoffset ==> At(offset + (count + n), blocknum + 1, 0)
  {
    var lo := offset + count;
    assert BlockNo(img, ino, blocknum) == BlockOf(img, ino, lo);
    OneBlock(img, ino, lo, lo + n);
    SliceAppend(img, ino, offset, lo, lo + n);
    PatchFills(now, Slice(img, ino, offset, lo), img[base..base + n], was);
    if blockoffset + n == BLOCK {
      NextBlock(lo, n);
    }
  }

  /** One turn of the loop of `read_data`: as much as one block holds, or -1. */
  method CopyFromBlock(img: Image, inode: nat, ghost offset: nat, blocknum: nat, blockoffset: nat,
                       buf: array<byte>, count: nat, len: nat, ghost was: seq<byte>) returns (readlen: int)
    requires Sized(img) && inode < NInodes(img) && count < len <= buf.Length == |was|
    requires offset + len <= FileSize(img, inode) && At(offset + count, blocknum, blockoffset)
    requires Copied(img, inode, offset, count, buf[..], was)
    modifies buf
    ensures readlen == -1 <==> !Stored(img, inode, offset + count)
    ensures readlen != -1 ==>
              && 0 < readlen <= len - count
              && Copied(img, inode, offset, count + readlen, buf[..], was)
              && (count + readlen < len ==> At(offset + count + readlen, blocknum + 1, 0))
  {
    assert BlockNo(img, inode, blocknum) == BlockOf(img, inode, offset + count);
    var id := BlockNo(img, inode, blocknum);
    if id >= NBlocks(img) {
      return -1;
    }
    readlen := len - count;
    if readlen > BLOCK - blockoffset {
      readlen := BLOCK - blockoffset;
    }
    var base := BlockBase(img, id) + blockoffset;
    ghost var now := buf[..];
    CopyBytes(buf, count, img, base, readlen);
    ReadBlock(img, inode, offset, count, readlen, blocknum, blockoffset, base, now, buf[..], was);
  }

  /** The loop of `read_data`: `len` bytes that the file has, unless a block is missing. */
  method CopyBlocks(img: Image, inode: nat, offset: nat, buf: array<byte>, len: nat) returns (r: int)
    requires Sized(img) && inode < NInodes(img) && offset + len <= FileSize(img, inode) && len <= buf.Length
    modifies buf
    ensures r == if AllStored(img, inode, offset, offset + len) then len else -1
    ensures r == len ==> Copied(img, inode, offset, len, buf[..], old(buf[..]))
  {
    var blocknum, blockoffset := offset / BLOCK, offset % BLOCK;
    var count := 0;
    while count < len
      invariant 0 <= count <= len
      invariant count < len ==> At(offset + count, blocknum, blockoffset)
      invariant Copied(img, inode, offset, count, buf[..], old(buf[..]))
    {
      var readlen := CopyFromBlock(img, inode, offset, blocknum, blockoffset, buf, count, len, old(buf[..]));
      if readlen == -1 {
        return -1;
      }
      count := count + readlen;
      blocknum := blocknum + 1;
      blockoffset := 0;
    }
    return count;
  }

  /** `read_data`: against the flat view of the file. */
  method ReadData(img: Image, inode: nat, offset: nat, buf: array<byte>, length: nat) returns (r: int)
    requires Sized(img) && length <= buf.Length
    modifies buf
    ensures r == -1 <==> ReadResult(img, inode, offset, length).None?
    ensures r != -1 ==>
              && r == |ReadResult(img, inode, offset, length).value|
              && buf[..] == ReadResult(img, inode, offset, length).value + old(buf[..])[r..]
    ensures r != -1 ==>
              && Length(img, inode, offset, length, r)
              && forall k: nat :: k < r ==> LiesAt(img, inode, offset + k, buf[k])
  {
    ReadLocates(img, inode, offset, length);
    if inode >= NInodes(img) {
      return -1;
    }
    var filesize := FileSize(img, inode);
    if offset >= filesize {
      return 0;
    }
    var len := length;
    if len > filesize - offset {
      len := filesize - offset;
    }
    r := CopyBlocks(img, inode, offset, buf, len);
  }

  /** Reads slice the flat file. */
  lemma ReadIsSliceOfContent(img: Image, ino: nat, offset: nat, length: nat)
    requires Sized(img) && ino < NInodes(img) && AllStored(img, ino, 0, FileSize(img, ino))
    requires offset <= FileSize(img, ino)
    ensures ReadResult(img, ino, offset, length)
            == Some(Content(img, ino)[offset..ReadEnd(FileSize(img, ino), offset, length)])
  {
    var hi := ReadEnd(FileSize(img, ino), offset, length);
    assert AllStored(img, ino, offset, hi);
    assert Slice(img, ino, offset, hi) == Content(img, ino)[offset..hi];
  }

  // ---------- the directory ----------

  datatype Dentry = Dentry(name: seq<byte>, kind: FileType, inode: nat)

  function TypeOf(w: nat): FileType {
    if w == 0 then RtcType else if w == 1 then DirectoryType else if w == 2 then RegularType else OtherType
  }

  /** A name field is NUL-terminated unless all 32 bytes are used. */
  function CString(field: seq<byte>): (s: seq<byte>)
    ensures NUL !in s && |s| <= |field|
  {
    field[..IndexFrom(field, NUL, 0)]
  }

  function DentryAt(img: Image, i: nat): (d: Dentry)
    requires Sized(img) && i < NDentries(img)
    ensures |d.name| <= NAME_LEN && NUL !in d.name && d.inode < 0x1_0000_0000
  {
    var at := DENTRY_START + DENTRY_SIZE * i;
    Dentry(CString(img[at..at + NAME_LEN]), TypeOf(U32(img, at + NAME_LEN)), U32(img, at + NAME_LEN + 4))
  }

  /** Directory entry `i` of the image is `d`: 64 bytes after the 64 bytes of counts, with the name
      up to its NUL or all 32 bytes, then the type, then the inode. */
  predicate EntryLies(img: Image, i: nat, d: Dentry) {
    var at := 64 + 64 * i;
    var n := |d.name|;
    && at + 64 <= |img|
    && n <= 32 && NUL !in d.name && img[at..at + n] == d.name
    && (n < 32 ==> img[at + n] == 0)
    && (d.kind.RtcType? <==> U32(img, at + 32) == 0)
    && (d.kind.DirectoryType? <==> U32(img, at + 32) == 1)
    && (d.kind.RegularType? <==> U32(img, at + 32) == 2)
    && d.inode == U32(img, at + 36)
  }

  lemma DentryLies(img: Image, i: nat)
    requires Sized(img) && i < NDentries(img)
    ensures EntryLies(img, i, DentryAt(img, i))
  {
    CStringEnds(img[64 + 64 * i..64 + 64 * i + NAME_LEN]);
  }

  /** Where a string ends in its field. */
  lemma CStringEnds(field: seq<byte>)
    ensures var n := |CString(field)|;
            field[..n] == CString(field) && (n < |field| ==> field[n] == NUL)
  {
  }

  /** The first entry at or after `i` with that name. */
  function FindFrom(img: Image, name: seq<byte>, i: nat): (r: Option<nat>)
    requires Sized(img) && i <= NDentries(img)
    ensures r.Some? ==> i <= r.value < NDentries(img) && DentryAt(img, r.value).name == name
    ensures forall k :: i <= k < (if r.Some? then r.value else NDentries(img)) ==> DentryAt(img, k).name != name
    decreases NDentries(img) - i
  {
    if i == NDentries(img) then None
    else if DentryAt(img, i).name == name then Some(i)
    else FindFrom(img, name, i + 1)
  }

  function Lookup(img: Image, name: seq<byte>): (d: Option<Dentry>)
    requires Sized(img)
    ensures d.Some? ==> d.value.inode < 0x1_0000_0000
  {
    match FindFrom(img, name, 0)
    case Some(i) => Some(DentryAt(img, i))
    case None => None
  }

  /** A look-up finds the first entry of the image that has the name, or there is none. */
  lemma LookupLies(img: Image, name: seq<byte>)
    requires Sized(img)
    ensures match Lookup(img, name)
            case Some(d) =>
              exists i: nat :: i < U32(img, 0) && d.name == name && EntryLies(img, i, d)
                               && forall j: nat :: j < i ==> DentryAt(img, j).name != name
            case None => forall i: nat :: i < U32(img, 0) ==> DentryAt(img, i).name != name
  {
    var r := FindFrom(img, name, 0);
    if r.Some? {
      DentryLies(img, r.value);
    }
  }

  lemma CStringPrefix(s: seq<byte>, k: nat)
    requires k <= |s| && NUL !in s[..k] && (k == |s| || s[k] == NUL)
    ensures CString(s) == s[..k]
  {
    assert forall i :: 0 <= i < k ==> s[i] == s[..k][i] != NUL;
  }

  /** `strnlen`: it looks at the byte before it looks at the bound. */
  method StrNLen(s: seq<byte>, n: nat) returns (len: nat)
    requires |s| > n
    ensures len == |CString(s[..n])|
  {
    len := 0;
    while s[len] != NUL && len < n
      invariant len <= n && NUL !in s[..len]
      decreases n - len
    {
      assert s[..len + 1] == s[..len] + [s[len]];
      len := len + 1;
    }
    assert s[..n][..len] == s[..len];
    CStringPrefix(s[..n], len);
  }

  /** `strlen` of a terminated string. */
  method StrLen(s: seq<byte>) returns (len: nat)
    requires NUL in s
    ensures len == |CString(s)| < |s|
  {
    len := 0;
    while s[len] != NUL
      invariant len < |s| && NUL !in s[..len]
      decreases |s| - len
    {
      assert s[..len + 1] == s[..len] + [s[len]];
      assert s == s[..len + 1] + s[len + 1..];
      len := len + 1;
    }
    CStringPrefix(s, len);
  }

  /** `strncmp`: zero exactly when both strings, cut at `n`, are the same. */
  method StrNCmp(s1: seq<byte>, s2: seq<byte>, n: nat) returns (r: int)
    requires |s1| >= n && NUL in s2
    ensures r == 0 <==> CString(s1[..n]) == CString(if n <= |s2| then s2[..n] else s2)
  {
    ghost var t := if n <= |s2| then s2[..n] else s2;
    var i := 0;
    while i < n
      invariant 0 <= i <= n && i <= |s2|
      invariant s1[..i] == s2[..i] && NUL !in s1[..i]
    {
      assert s2[..|s2|] == s2;
      assert s1[..i] == s1[..n][..i] && s2[..i] == t[..i];
      var a, b := s1[i] as int, s2[i] as int;
      if a != b || a == NUL as int {
        if a == b {
          CStringPrefix(s1[..n], i);
          CStringPrefix(t, i);
        } else {
          DifferentStrings(s1[..n], t, i);
        }
        return a - b;
      }
      assert s1[..i + 1] == s1[..i] + [s1[i]] && s2[..i + 1] == s2[..i] + [s2[i]];
      i := i + 1;
    }
    assert t == s1[..n];
    return 0;
  }

  lemma DifferentStrings(s: seq<byte>, t: seq<byte>, i: nat)
    requires i < |s| && i < |t| && s[..i] == t[..i] && NUL !in s[..i] && s[i] != t[i]
    ensures CString(s) != CString(t)
  {
    assert forall k :: 0 <= k < i ==> s[k] == s[..i][k] && t[k] == t[..i][k] && s[k] != NUL;
    var j, k := IndexFrom(s, NUL, 0), IndexFrom(t, NUL, 0);
    if i < j && i < k {
      assert CString(s)[i] == s[i] && CString(t)[i] == t[i];
    }
  }

  /** The test of one directory entry in the search loop. */
  method NameMatches(entry: seq<byte>, fname: seq<byte>) returns (b: bool)
    requires |entry| == DENTRY_SIZE && NUL !in fname
    ensures b <==> CString(entry[..NAME_LEN]) == fname
  {
    var str := fname + [NUL];
    assert str[..|fname|] == fname;
    CStringPrefix(str, |fname|);
    var nlen := StrNLen(entry, NAME_LEN);
    var flen := StrLen(str);
    if nlen != flen {
      return false;
    }
    CStringCut(str, fname, NAME_LEN);
    var c := StrNCmp(entry, str, NAME_LEN);
    assert fname[..|fname|] == fname;
    return c == 0;
  }

  lemma EntryName(img: Image, i: nat)
    requires Sized(img) && i < NDentries(img)
    ensures var at := DENTRY_START + DENTRY_SIZE * i;
            at + DENTRY_SIZE <= |img| && CString(img[at..at + DENTRY_SIZE][..NAME_LEN]) == DentryAt(img, i).name
  {
    var at := DENTRY_START + DENTRY_SIZE * i;
    assert img[at..at + DENTRY_SIZE][..NAME_LEN] == img[at..at + NAME_LEN];
  }

  /** `read_dentry_by_name`. */
  method ReadDentryByName(img: Image, fname: seq<byte>) returns (r: Option<Dentry>)
    requires Sized(img) && NUL !in fname
    ensures r == Lookup(img, fname)
  {
    hide CString, U32, DentryAt;
    var max := NDentries(img);
    var i := 0;
    while i < max
      invariant 0 <= i <= max
      invariant FindFrom(img, fname, 0) == FindFrom(img, fname, i)
    {
      var at := DENTRY_START + DENTRY_SIZE * i;
      EntryName(img, i);
      var found := NameMatches(img[at..at + DENTRY_SIZE], fname);
      if found {
        break;
      }
      i := i + 1;
    }
    if i >= max {
      return None;
    }
    return Some(DentryAt(img, i));
  }

  lemma CStringCut(str: seq<byte>, s: seq<byte>, n: nat)
    requires NUL !in s && str == s + [NUL]
    ensures CString(if n <= |str| then str[..n] else str) == if n <= |s| then s[..n] else s
  {
    if n <= |s| {
      assert str[..n] == s[..n];
      assert s[..n][..n] == s[..n];
      CStringPrefix(s[..n], n);
    } else {
      var t := if n <= |str| then str[..n] else str;
      assert t[..|s|] == s;
      CStringPrefix(t, |s|);
    }
  }

  /** `read_dentry_by_index`: there is an entry exactly below the count, and it is the 64 bytes
      at its place: the name up to its NUL or all 32 bytes, then the type, then the inode. */
  method ReadDentryByIndex(img: Image, index: nat) returns (r: Option<Dentry>)
    requires Sized(img)
    ensures r.Some? <==> index < U32(img, 0)
    ensures r.Some? ==>
              r.value == DentryAt(img, index) && EntryLies(img, index, r.value)
  {
    if index < NDentries(img) {
      DentryLies(img, index);
    }
    var max := NDentries(img);
    if index >= max {
      return None;
    }
    var at := DENTRY_START + DENTRY_SIZE * index;
    var entry := img[at..at + DENTRY_SIZE];
    assert entry[..NAME_LEN] == img[at..at + NAME_LEN];
    return Some(Dentry(CString(entry[..NAME_LEN]), TypeOf(U32(entry, NAME_LEN)), U32(entry, NAME_LEN + 4)));
  }

  /** What a directory read of `n` bytes leaves in the buffer: the name padded with NULs to
      at most 32 bytes, and one more NUL if there is room for it. */
  function DirBytes(name: seq<byte>, n: nat): (s: seq<byte>)
    requires |name| <= NAME_LEN
    ensures |s| <= n
  {
    var k := if n > NAME_LEN then NAME_LEN else n;
    (if |name| >= k then name[..k] else name + Repeat(NUL, k - |name|))
    + if k < n then [NUL] else []
  }

  /** Byte by byte: the name, then NULs, to at most 33 bytes. */
  lemma DirBytesAre(name: seq<byte>, n: nat)
    requires |name| <= NAME_LEN
    ensures |DirBytes(name, n)| == if n < 33 then n else 33
    ensures forall k :: 0 <= k < |DirBytes(name, n)| ==> DirBytes(name, n)[k] == if k < |name| then name[k] else 0
  {
  }

  /** `strncpy`. */
  method StrNCpy(dst: array<byte>, src: seq<byte>, n: nat)
    requires n <= dst.Length && n < |src|
    modifies dst
    ensures dst[n..] == old(dst[n..])
    ensures dst[..n] == CString(src[..n]) + Repeat(NUL, n - |CString(src[..n])|)
  {
    var i := 0;
    while src[i] != NUL && i < n
      invariant i <= n && NUL !in src[..i]
      invariant forall k :: 0 <= k < i ==> dst[k] == src[k]
      invariant forall k :: n <= k < dst.Length ==> dst[k] == old(dst[k])
      decreases n - i
    {
      assert src[..i + 1] == src[..i] + [src[i]];
      dst[i] := src[i];
      i := i + 1;
    }
    assert src[..n][..i] == src[..i];
    CStringPrefix(src[..n], i);
    ghost var len := i;
    while i < n
      invariant len <= i <= n
      invariant forall k :: 0 <= k < len ==> dst[k] == src[k]
      invariant forall k :: len <= k < i ==> dst[k] == NUL
      invariant forall k :: n <= k < dst.Length ==> dst[k] == old(dst[k])
    {
      dst[i] := NUL;
      i := i + 1;
    }
  }

  /** The padded name, terminated if there is room. */
  method CopyName(field: seq<byte>, buf: array<byte>, nbytes: nat) returns (cpcount: nat)
    requires |field| == DENTRY_SIZE && nbytes <= buf.Length
    modifies buf
    ensures cpcount == if nbytes > NAME_LEN then NAME_LEN else nbytes
    ensures var bytes := DirBytes(CString(field[..NAME_LEN]), nbytes);
            buf[..] == bytes + old(buf[..])[|bytes|..]
  {
    cpcount := nbytes;
    if cpcount > NAME_LEN {
      cpcount := NAME_LEN;
    }
    StrNCpy(buf, field, cpcount);
    CutName(field, cpcount);
    ghost var padded := buf[..];
    assert padded == buf[..cpcount] + old(buf[cpcount..]);
    if cpcount < nbytes {
      buf[cpcount] := NUL;
      assert buf[..] == padded[cpcount := NUL];
      assert buf[..] == padded[..cpcount] + [NUL] + old(buf[..])[cpcount + 1..];
    }
  }

  /** `dir_read` at entry `pos`. */
  method DirRead(img: Image, pos: nat, buf: array<byte>, nbytes: nat) returns (r: int, pos': nat)
    requires Sized(img) && nbytes <= buf.Length
    modifies buf
    ensures pos >= NDentries(img) ==> r == 0 && pos' == pos && buf[..] == old(buf[..])
    ensures pos < NDentries(img) ==>
              && r == (if nbytes > NAME_LEN then NAME_LEN else nbytes)
              && pos' == pos + 1
              && var bytes := DirBytes(DentryAt(img, pos).name, nbytes);
                 buf[..] == bytes + old(buf[..])[|bytes|..]
  {
    var de := ReadDentryByIndex(img, pos);
    if de.None? {
      return 0, pos;
    }
    var at := DENTRY_START + DENTRY_SIZE * pos;
    assert img[at..at + DENTRY_SIZE][..NAME_LEN] == img[at..at + NAME_LEN];
    r := CopyName(img[at..at + DENTRY_SIZE], buf, nbytes);
    pos' := pos + 1;
  }

  lemma CutName(field: seq<byte>, k: nat)
    requires |field| == DENTRY_SIZE && k <= NAME_LEN
    ensures var name := CString(field[..NAME_LEN]);
            CString(field[..k]) + Repeat(NUL, k - |CString(field[..k])|)
            == if |name| >= k then name[..k] else name + Repeat(NUL, k - |name|)
  {
    var j := IndexFrom(field[..NAME_LEN], NUL, 0);
    if j >= k {
      assert forall i :: 0 <= i < k ==> field[..k][i] == field[..NAME_LEN][i];
      assert field[..k][..k] == field[..k];
      CStringPrefix(field[..k], k);
      assert field[..k] == field[..NAME_LEN][..j][..k];
    } else {
      assert forall i :: 0 <= i < j ==> field[..k][i] == field[..NAME_LEN][i];
      assert field[..k][..j] == field[..NAME_LEN][..j];
      CStringPrefix(field[..k], j);
    }
  }

  /** A directory scan with a 33-byte buffer sees every name, terminated, even one that fills
      all 32 bytes of its field; and looking a seen name up finds the same entry exactly when
      no earlier entry has it. */
  lemma DirectoryRoundTrip(img: Image, i: nat)
    requires Sized(img) && i < NDentries(img)
    ensures CString(DirBytes(DentryAt(img, i).name, NAME_LEN + 1)) == DentryAt(img, i).name
    ensures FindFrom(img, CString(DirBytes(DentryAt(img, i).name, NAME_LEN + 1)), 0) == Some(i)
            <==> forall j :: 0 <= j < i ==> DentryAt(img, j).name != DentryAt(img, i).name
  {
    var name := DentryAt(img, i).name;
    var bytes := DirBytes(name, NAME_LEN + 1);
    assert bytes[..|name|] == name;
    CStringPrefix(bytes, |name|);
    var r := FindFrom(img, name, 0);
    if r.Some? && r.value < i {
      assert DentryAt(img, r.value).name == name;
    }
  }
}
