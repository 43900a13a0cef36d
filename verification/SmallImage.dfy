/** The smallest file system the kernel can boot from: one directory entry, one inode, one
    block. It shows that the images the theorems speak of exist. */
module SmallImage {
  import opened CInt
  import opened FileSystem
  import opened Programs

  /** Byte `i` of the image. */
  function ByteAt(i: nat): byte {
    if i == 0 || i == 4 || i == 8 then 1
    else if DENTRY_START <= i < DENTRY_START + 5 then SHELL[i - DENTRY_START]
    else if i == DENTRY_START + NAME_LEN then 2
    else if i == BLOCK then ELF_BYTES as byte
    else if 2 * BLOCK <= i < 2 * BLOCK + 4 then ELF_MAGIC[i - 2 * BLOCK]
    else 0
  }

  function Image(): (img: Image)
    ensures |img| == 3 * BLOCK && forall i :: 0 <= i < 3 * BLOCK ==> img[i] == ByteAt(i)
  {
    seq(3 * BLOCK, i requires 0 <= i < 3 * BLOCK => ByteAt(i))
  }

  lemma Counts()
    ensures NDentries(Image()) == 1 && NInodes(Image()) == 1 && NBlocks(Image()) == 1
    ensures U32(Image(), BLOCK) == ELF_BYTES && U32(Image(), BLOCK + 4) == 0
    ensures U32(Image(), DENTRY_START + NAME_LEN) == 2 && U32(Image(), DENTRY_START + NAME_LEN + 4) == 0
  {
  }

  lemma ItsFile()
    ensures Sized(Image()) && FileSize(Image(), 0) == ELF_BYTES && AllStored(Image(), 0, 0, ELF_BYTES)
    ensures Content(Image(), 0)[..4] == ELF_MAGIC
  {
    Counts();
    forall i: nat | i < ELF_BYTES
      ensures Stored(Image(), 0, i) && FileByte(Image(), 0, i) == ByteAt(2 * BLOCK + i)
    {
      assert i / BLOCK == 0 && i % BLOCK == i;
    }
  }

  lemma ItsEntry()
    ensures Sized(Image()) && NDentries(Image()) == 1
    ensures DentryAt(Image(), 0) == Dentry(SHELL, RegularType, 0)
  {
    Counts();
    ItsFile();
    var field := Image()[DENTRY_START..DENTRY_START + NAME_LEN];
    assert forall i :: 0 <= i < 6 ==> field[i] == ByteAt(DENTRY_START + i);
    assert field[..5] == SHELL && field[5] == NUL;
    CStringPrefix(field, 5);
  }

  /** There is a well-formed image with a shell. */
  lemma ShellImage()
    ensures WellFormed(Image()) && HasShell(Image())
  {
    ItsFile();
    ItsEntry();
    assert FindFrom(Image(), SHELL, 0) == Some(0);
  }
}
