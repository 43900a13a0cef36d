/** An image with a sound shell and a second program, `bad`, of two blocks of which the second
    does not exist. The kernel accepts it, and the failures of `open` and `execute` occur on it. */
module BrokenImage {
  import opened CInt
  import opened FileSystem
  import opened Programs
  import opened KernelRefinement

  const BAD: seq<byte> := [98, 97, 100]

  /** Byte `i` of the image: boot block, two inodes, one data block. */
  function ByteAt(i: nat): byte {
    if i == 0 || i == 4 then 2
    else if i == 8 then 1
    else if DENTRY_START <= i < DENTRY_START + 5 then SHELL[i - DENTRY_START]
    else if i == DENTRY_START + NAME_LEN then 2
    else if 2 * DENTRY_START <= i < 2 * DENTRY_START + 3 then BAD[i - 2 * DENTRY_START]
    else if i == 2 * DENTRY_START + NAME_LEN then 2
    else if i == 2 * DENTRY_START + NAME_LEN + 4 then 1
    else if i == BLOCK then ELF_BYTES as byte
    else if i == 2 * BLOCK + 1 then 0x20
    else if i == 2 * BLOCK + 8 then 1
    else if 3 * BLOCK <= i < 3 * BLOCK + 4 then ELF_MAGIC[i - 3 * BLOCK]
    else 0
  }

  function Image(): (img: Image)
    ensures |img| == 4 * BLOCK && forall i :: 0 <= i < 4 * BLOCK ==> img[i] == ByteAt(i)
  {
    seq(4 * BLOCK, i requires 0 <= i < 4 * BLOCK => ByteAt(i))
  }

  lemma Counts()
    ensures NDentries(Image()) == 2 && NInodes(Image()) == 2 && NBlocks(Image()) == 1
    ensures U32(Image(), BLOCK) == ELF_BYTES && U32(Image(), BLOCK + 4) == 0
    ensures U32(Image(), 2 * BLOCK) == 2 * BLOCK
    ensures U32(Image(), 2 * BLOCK + 4) == 0 && U32(Image(), 2 * BLOCK + 8) == 1
  {
  }

  /** Both files are there; the second block of `bad` is not. */
  lemma ItsFiles()
    ensures Sized(Image()) && NInodes(Image()) == 2 && NBlocks(Image()) == 1
    ensures FileSize(Image(), 0) == ELF_BYTES && FileSize(Image(), 1) == 2 * BLOCK
    ensures BlockNo(Image(), 0, 0) == 0 && BlockNo(Image(), 1, 0) == 0 && BlockNo(Image(), 1, 1) == 1
  {
    Counts();
  }

  /** The first block of either file starts with the ELF magic. */
  lemma ItsHeader(ino: nat)
    requires ino < 2
    ensures Sized(Image()) && ino < NInodes(Image()) && FileSize(Image(), ino) >= ELF_BYTES
    ensures AllStored(Image(), ino, 0, ELF_BYTES) && Slice(Image(), ino, 0, ELF_BYTES)[..4] == ELF_MAGIC
  {
    ItsFiles();
    hide U32;
    forall i: nat | i < ELF_BYTES
      ensures Stored(Image(), ino, i) && FileByte(Image(), ino, i) == ByteAt(3 * BLOCK + i)
    {
      assert i / BLOCK == 0 && i % BLOCK == i;
    }
  }

  lemma ItsShell()
    ensures Sized(Image()) && NDentries(Image()) == 2
    ensures DentryAt(Image(), 0) == Dentry(SHELL, RegularType, 0)
  {
    ItsFiles();
    var field := Image()[DENTRY_START..DENTRY_START + NAME_LEN];
    assert forall i :: 0 <= i < 6 ==> field[i] == ByteAt(DENTRY_START + i);
    assert field[..5] == SHELL && field[5] == NUL;
    CStringPrefix(field, 5);
  }

  lemma ItsBad()
    ensures Sized(Image()) && NDentries(Image()) == 2
    ensures DentryAt(Image(), 1) == Dentry(BAD, RegularType, 1)
  {
    ItsFiles();
    var field := Image()[2 * DENTRY_START..2 * DENTRY_START + NAME_LEN];
    assert forall i :: 0 <= i < 4 ==> field[i] == ByteAt(2 * DENTRY_START + i);
    assert field[..3] == BAD && field[3] == NUL;
    CStringPrefix(field, 3);
  }

  lemma ItsNames()
    ensures Sized(Image())
    ensures Lookup(Image(), SHELL) == Some(Dentry(SHELL, RegularType, 0))
    ensures Lookup(Image(), BAD) == Some(Dentry(BAD, RegularType, 1))
  {
    ItsShell();
    ItsBad();
    hide DentryAt;
    assert FindFrom(Image(), SHELL, 0) == Some(0);
    assert FindFrom(Image(), BAD, 1) == Some(1);
  }

  /** A file with the magic in its first block runs if all of its blocks are there. */
  lemma ProgramRuns(img: FileSystem.Image, name: seq<byte>, junk: seq<byte>)
    requires Sized(img) && |junk| == ELF_BYTES && Lookup(img, name).Some?
    requires var ino := Lookup(img, name).value.inode;
             && ino < NInodes(img) && ELF_BYTES <= FileSize(img, ino)
             && AllStored(img, ino, 0, ELF_BYTES) && Slice(img, ino, 0, ELF_BYTES)[..4] == ELF_MAGIC
    ensures var ino := Lookup(img, name).value.inode;
            if AllStored(img, ino, 0, FileSize(img, ino)) then Resolve(img, name, junk).Runnable?
            else Resolve(img, name, junk) == MissingBlock
  {
    hide Lookup, U32;
    var ino := Lookup(img, name).value.inode;
    var data := Slice(img, ino, 0, ELF_BYTES);
    assert ReadResult(img, ino, 0, ELF_BYTES) == Some(data);
    assert Header(data, junk) == data;
  }

  /** Its shell runs; `bad` passes the header check and then a block is missing. */
  lemma BadMissesBlock(junk: seq<byte>)
    requires |junk| == ELF_BYTES
    ensures Sized(Image())
    ensures Resolve(Image(), SHELL, junk).Runnable? && Resolve(Image(), BAD, junk) == MissingBlock
  {
    hide U32, Slice, Lookup, Resolve, Image;
    ItsFiles();
    ItsNames();
    ItsHeader(0);
    ItsHeader(1);
    assert AllStored(Image(), 0, 0, ELF_BYTES);
    assert !Stored(Image(), 1, BLOCK);
    ProgramRuns(Image(), SHELL, junk);
    ProgramRuns(Image(), BAD, junk);
  }

  /** And the driver refuses to open it. */
  lemma BadIsRefused()
    ensures Sized(Image()) && Lookup(Image(), BAD) == Some(Dentry(BAD, RegularType, 1))
    ensures !Openable(Image(), 1) && DriverFails(Image(), Dentry(BAD, RegularType, 1))
  {
    ItsFiles();
    ItsNames();
  }

  lemma BadCommand()
    ensures InDomain(BAD) && CommandName(BAD) == BAD && CommandArgs(BAD) == []
  {
    NameStops(BAD, 0, 3);
  }
}
