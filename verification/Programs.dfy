/** What `execute` makes of a command line: the name and argument parsing and the checks on
    the program file (student-distrib/syscalls.c). */
module Programs {
  import opened CInt
  import opened FileSystem
  import Paging

  const ELF_BYTES := 40
  const ARG_BUFF_SIZE := 128
  const ELF_MAGIC: seq<byte> := [0x7F, 0x45, 0x4C, 0x46]
  const SHELL: seq<byte> := [115, 104, 101, 108, 108]

  predicate EndsName(c: byte) {
    c == SPACE || c == NEWLINE
  }

  function SkipSpaces(s: seq<byte>, i: nat): (k: nat)
    requires i <= |s|
    ensures i <= k <= |s|
    decreases |s| - i
  {
    if i < |s| && s[i] == SPACE then SkipSpaces(s, i + 1) else i
  }

  function NameEnd(s: seq<byte>, i: nat): (k: nat)
    requires i <= |s|
    ensures i <= k <= |s|
    ensures forall j :: i <= j < k ==> !EndsName(s[j])
    decreases |s| - i
  {
    if i < |s| && !EndsName(s[i]) then NameEnd(s, i + 1) else i
  }

  /** The first word of a command line. */
  function CommandName(cmd: seq<byte>): seq<byte> {
    var i := SkipSpaces(cmd, 0);
    cmd[i..NameEnd(cmd, i)]
  }

  /** Everything after the first word and its spaces, up to the end of the line. */
  function CommandArgs(cmd: seq<byte>): seq<byte> {
    var i := SkipSpaces(cmd, NameEnd(cmd, SkipSpaces(cmd, 0)));
    cmd[i..IndexFrom(cmd, NEWLINE, i)]
  }

  function Spaces(n: nat): seq<byte> {
    Repeat(SPACE, n)
  }

  /** The pieces of a command line: a word, the rest of the line, and what follows the line. */
  predicate Pieces(word: seq<byte>, gap: nat, rest: seq<byte>, tail: seq<byte>) {
    && SPACE !in word && NEWLINE !in word
    && NEWLINE !in rest && (rest != [] ==> gap > 0 && rest[0] != SPACE)
    && (tail != [] ==> tail[0] == NEWLINE)
  }

  /** A command line with `lead` spaces before the word and `gap` after it. */
  function Line(lead: nat, word: seq<byte>, gap: nat, rest: seq<byte>, tail: seq<byte>): (cmd: seq<byte>)
    ensures |cmd| == lead + |word| + gap + |rest| + |tail|
  {
    Spaces(lead) + word + Spaces(gap) + rest + tail
  }

  lemma {:induction false} SkipStops(s: seq<byte>, i: nat, k: nat)
    requires i <= k <= |s| && (forall j :: i <= j < k ==> s[j] == SPACE) && (k < |s| ==> s[k] != SPACE)
    ensures SkipSpaces(s, i) == k
    decreases k - i
  {
    if i < k {
      SkipStops(s, i + 1, k);
    }
  }

  lemma {:induction false} NameStops(s: seq<byte>, i: nat, k: nat)
    requires i <= k <= |s| && (forall j :: i <= j < k ==> !EndsName(s[j])) && (k < |s| ==> EndsName(s[k]))
    ensures NameEnd(s, i) == k
    decreases k - i
  {
    if i < k {
      NameStops(s, i + 1, k);
    }
  }

  lemma {:induction false} LineStops(s: seq<byte>, i: nat, k: nat)
    requires i <= k <= |s| && (forall j :: i <= j < k ==> s[j] != NEWLINE) && (k < |s| ==> s[k] == NEWLINE)
    ensures IndexFrom(s, NEWLINE, i) == k
    decreases k - i
  {
    if i < k {
      LineStops(s, i + 1, k);
    }
  }

  /** The characters of a command line, piece by piece. */
  lemma LineAt(lead: nat, word: seq<byte>, gap: nat, rest: seq<byte>, tail: seq<byte>)
    ensures var cmd := Line(lead, word, gap, rest, tail);
            var w, g, r, e := lead, lead + |word|, lead + |word| + gap, lead + |word| + gap + |rest|;
            && (forall j :: 0 <= j < w ==> cmd[j] == SPACE)
            && cmd[w..g] == word
            && (forall j :: g <= j < r ==> cmd[j] == SPACE)
            && cmd[r..e] == rest
            && cmd[e..] == tail
  {
  }

  /** However many spaces there are before and after the first word, it is the name, and the rest
      of the line, which does not start with a space, is the arguments; what follows a newline
      is not looked at. */
  lemma ReadsBack(lead: nat, word: seq<byte>, gap: nat, rest: seq<byte>, tail: seq<byte>)
    requires word != [] && Pieces(word, gap, rest, tail)
    ensures var cmd := Line(lead, word, gap, rest, tail);
            CommandName(cmd) == word && CommandArgs(cmd) == rest
  {
    var cmd := Line(lead, word, gap, rest, tail);
    var w, g, r, e := lead, lead + |word|, lead + |word| + gap, lead + |word| + gap + |rest|;
    LineAt(lead, word, gap, rest, tail);
    hide Line;
    forall j | w <= j < g
      ensures !EndsName(cmd[j])
    {
      assert cmd[j] == cmd[w..g][j - w] && cmd[j] in word;
    }
    forall j | r <= j < e
      ensures cmd[j] != NEWLINE
    {
      assert cmd[j] == cmd[r..e][j - r] && cmd[j] in rest;
    }
    assert rest != [] ==> cmd[r] == rest[0];
    assert tail != [] ==> cmd[e] == cmd[e..][0] == NEWLINE;
    SkipStops(cmd, 0, w);
    NameStops(cmd, w, g);
    SkipStops(cmd, g, r);
    LineStops(cmd, r, e);
  }

  /** And every command line is made of its name and its arguments in that way. */
  lemma SplitsUp(cmd: seq<byte>) returns (lead: nat, gap: nat, tail: seq<byte>)
    ensures cmd == Line(lead, CommandName(cmd), gap, CommandArgs(cmd), tail)
    ensures Pieces(CommandName(cmd), gap, CommandArgs(cmd), tail)
  {
    hide Line, SkipSpaces, NameEnd, IndexFrom;
    lead := SkipSpaces(cmd, 0);
    var g := NameEnd(cmd, lead);
    var r := SkipSpaces(cmd, g);
    var e := IndexFrom(cmd, NEWLINE, r);
    gap, tail := r - g, cmd[e..];
    Skipped(cmd, 0);
    Skipped(cmd, g);
    Named(cmd, lead);
    Absent(cmd, SPACE, lead, g);
    Absent(cmd, NEWLINE, lead, g);
    Absent(cmd, NEWLINE, r, e);
    Cut(cmd, lead, g, r, e);
  }

  lemma Absent(s: seq<byte>, b: byte, i: nat, k: nat)
    requires i <= k <= |s| && forall j :: i <= j < k ==> s[j] != b
    ensures b !in s[i..k]
  {
  }

  lemma Cut(cmd: seq<byte>, w: nat, g: nat, r: nat, e: nat)
    requires w <= g <= r <= e <= |cmd|
    requires (forall j :: 0 <= j < w ==> cmd[j] == SPACE) && (forall j :: g <= j < r ==> cmd[j] == SPACE)
    ensures cmd == Line(w, cmd[w..g], r - g, cmd[r..e], cmd[e..])
  {
    AllSpaces(cmd, 0, w);
    AllSpaces(cmd, g, r);
    hide Spaces;
    FiveParts(cmd, w, g, r, e);
  }

  lemma AllSpaces(s: seq<byte>, i: nat, k: nat)
    requires i <= k <= |s| && forall j :: i <= j < k ==> s[j] == SPACE
    ensures s[i..k] == Spaces(k - i)
  {
  }

  lemma FiveParts(s: seq<byte>, w: nat, g: nat, r: nat, e: nat)
    requires w <= g <= r <= e <= |s|
    ensures s == s[0..w] + s[w..g] + s[g..r] + s[r..e] + s[e..]
  {
  }

  lemma {:induction false} Skipped(s: seq<byte>, i: nat)
    requires i <= |s|
    ensures var k := SkipSpaces(s, i);
            (forall j :: i <= j < k ==> s[j] == SPACE) && (k < |s| ==> s[k] != SPACE)
    decreases |s| - i
  {
    if i < |s| && s[i] == SPACE {
      Skipped(s, i + 1);
    }
  }

  lemma {:induction false} Named(s: seq<byte>, i: nat)
    requires i <= |s|
    ensures var k := NameEnd(s, i); k < |s| ==> EndsName(s[k])
    decreases |s| - i
  {
    if i < |s| && !EndsName(s[i]) {
      Named(s, i + 1);
    }
  }

  /** The command lines `execute` has room for. */
  predicate InDomain(cmd: seq<byte>) {
    && NUL !in cmd
    && |CommandName(cmd)| < NAME_LEN
    && |CommandArgs(cmd)| < ARG_BUFF_SIZE
  }

  /** The parsing loops of `execute`, over the command with its NUL: its name and its arguments are
      what is left of it without the spaces before each and what follows a newline. */
  method ParseCommand(cmd: seq<byte>)
    returns (name: seq<byte>, args: seq<byte>, ghost lead: nat, ghost gap: nat, ghost tail: seq<byte>)
    requires InDomain(cmd)
    ensures name == CommandName(cmd) && args == CommandArgs(cmd)
    ensures cmd == Line(lead, name, gap, args, tail) && Pieces(name, gap, args, tail)
  {
    lead, gap, tail := SplitsUp(cmd);
    var i := Skip(cmd, 0);
    i, name := ParseName(cmd, i);
    i := Skip(cmd, i);
    args := ParseArgs(cmd, i);
  }

  method Skip(cmd: seq<byte>, from: nat) returns (i: nat)
    requires from <= |cmd|
    ensures i == SkipSpaces(cmd, from)
  {
    var command := cmd + [NUL];
    i := from;
    while command[i] == SPACE
      invariant i <= |cmd|
      invariant SkipSpaces(cmd, from) == SkipSpaces(cmd, i)
      decreases |cmd| - i
    {
      i := i + 1;
    }
  }

  method ParseName(cmd: seq<byte>, from: nat) returns (i: nat, name: seq<byte>)
    requires NUL !in cmd && from <= |cmd|
    requires NameEnd(cmd, from) - from < NAME_LEN
    ensures i == NameEnd(cmd, from) && name == cmd[from..i]
  {
    var command := cmd + [NUL];
    i, name := from, [];
    while |name| < NAME_LEN && command[i] != SPACE && command[i] != NUL && command[i] != NEWLINE
      invariant from <= i <= |cmd| && |name| == i - from
      invariant name == cmd[from..i]
      invariant NameEnd(cmd, from) == NameEnd(cmd, i)
      decreases |cmd| - i
    {
      name := name + [command[i]];
      i := i + 1;
    }
  }

  method ParseArgs(cmd: seq<byte>, from: nat) returns (args: seq<byte>)
    requires NUL !in cmd && from <= |cmd|
    requires IndexFrom(cmd, NEWLINE, from) - from < ARG_BUFF_SIZE
    ensures args == cmd[from..IndexFrom(cmd, NEWLINE, from)]
  {
    var command := cmd + [NUL];
    var i := from;
    args := [];
    while command[i] != NUL && command[i] != NEWLINE && |args| < ARG_BUFF_SIZE
      invariant from <= i <= |cmd| && |args| == i - from
      invariant args == cmd[from..i]
      invariant IndexFrom(cmd, NEWLINE, from) == IndexFrom(cmd, NEWLINE, i)
      decreases |cmd| - i
    {
      args := args + [command[i]];
      i := i + 1;
    }
  }

  /** The loop of `getargs`: the string with its NUL, or as much as there is room for. */
  method CopyArgs(args: seq<byte>, buf: array<byte>, nbytes: nat) returns (eos: bool)
    requires NUL !in args && nbytes <= buf.Length
    modifies buf
    ensures eos <==> |args| < nbytes
    ensures eos ==> buf[..|args| + 1] == args + [NUL]
    ensures !eos ==> buf[..nbytes] == args[..nbytes]
  {
    var s := args + [NUL];
    eos := false;
    var i := 0;
    while i < nbytes && !eos
      invariant 0 <= i <= nbytes
      invariant if eos then i == |args| < nbytes && buf[..i + 1] == s[..i + 1] else i <= |args| && buf[..i] == s[..i]
      decreases nbytes - i, !eos
    {
      buf[i] := s[i];
      assert i < |args| ==> s[i] in args;
      if s[i] == NUL {
        eos := true;
      } else {
        i := i + 1;
      }
    }
    assert s[..|args| + 1] == s;
    assert nbytes <= |args| ==> s[..nbytes] == args[..nbytes];
  }

  /** Where a program starts, and what is loaded into its page. */
  datatype Program = Program(entry: nat, text: seq<byte>)

  /** The program file, before a pid is taken and after. */
  datatype Launch = NoProgram | MissingBlock | Runnable(program: Program)

  /** The header buffer: what the file gives, then whatever was on the stack. */
  function Header(data: seq<byte>, junk: seq<byte>): (h: seq<byte>)
    requires |data| <= ELF_BYTES == |junk|
    ensures |h| == ELF_BYTES
  {
    data + junk[|data|..]
  }

  function Resolve(img: Image, name: seq<byte>, junk: seq<byte>): Launch
    requires Sized(img) && |junk| == ELF_BYTES
  {
    match Lookup(img, name)
    case None => NoProgram
    case Some(d) =>
      match ReadResult(img, d.inode, 0, ELF_BYTES)
      case None => NoProgram
      case Some(data) =>
        var h := Header(data, junk);
        if h[..4] != ELF_MAGIC then NoProgram
        else
          match ReadResult(img, d.inode, 0, Paging.MB4)
          case None => MissingBlock
          case Some(text) => Runnable(Program(U32(h, 24), text))
  }

  /** What is loaded and where it starts: the file itself, as it is in the image up to its size,
      with the magic in its first four bytes and the entry point in bytes 24 to 27. */
  lemma LoadedProgram(img: Image, name: seq<byte>, junk: seq<byte>)
    requires Sized(img) && |junk| == ELF_BYTES && Resolve(img, name, junk).Runnable?
    ensures Lookup(img, name).Some?
    ensures var ino := Lookup(img, name).value.inode;
            var p := Resolve(img, name, junk).program;
            && Length(img, ino, 0, 0x40_0000, |p.text|)
            && (forall k: nat :: k < |p.text| ==> LiesAt(img, ino, k, p.text[k]))
            && (|p.text| >= 40 ==>
                  && p.text[..4] == [0x7F, 0x45, 0x4C, 0x46]
                  && p.entry == p.text[24] as int + 0x100 * p.text[25] as int + 0x1_0000 * p.text[26] as int
                                + 0x100_0000 * p.text[27] as int)
  {
    var ino := Lookup(img, name).value.inode;
    ReadLocates(img, ino, 0, Paging.MB4);
    var text := ReadResult(img, ino, 0, Paging.MB4).value;
    if |text| >= 40 {
      HeaderOfText(img, ino, junk);
    }
    hide LiesAt, Lookup, ReadResult;
  }

  /** A shorter file leaves the rest of the buffer as it was. */
  lemma ShortHeader(data: seq<byte>, junk: seq<byte>)
    requires |data| <= ELF_BYTES == |junk|
    ensures forall k :: 0 <= k < 40 ==> Header(data, junk)[k] == if k < |data| then data[k] else junk[k]
  {
  }

  /** A file of at least a header fills the whole header buffer. */
  lemma HeaderOfText(img: Image, ino: nat, junk: seq<byte>)
    requires Sized(img) && |junk| == ELF_BYTES && ReadResult(img, ino, 0, Paging.MB4).Some?
    requires |ReadResult(img, ino, 0, Paging.MB4).value| >= ELF_BYTES && ReadResult(img, ino, 0, ELF_BYTES).Some?
    ensures var text := ReadResult(img, ino, 0, Paging.MB4).value;
            Header(ReadResult(img, ino, 0, ELF_BYTES).value, junk) == text[..ELF_BYTES]
  {
  }

  /** Every directory entry's file has all its blocks, and regular files have an inode. */
  ghost predicate WellFormed(img: Image) {
    && Sized(img)
    && forall i :: 0 <= i < NDentries(img) ==>
         var d := DentryAt(img, i);
         && (d.kind == RegularType ==> d.inode < NInodes(img))
         && (d.inode < NInodes(img) ==> AllStored(img, d.inode, 0, FileSize(img, d.inode)))
  }

  /** The image has a shell: a file of at least a header, with the ELF magic. */
  ghost predicate HasShell(img: Image)
    requires WellFormed(img)
  {
    && Lookup(img, SHELL).Some?
    && var d := Lookup(img, SHELL).value;
       && d.inode < NInodes(img)
       && FileSize(img, d.inode) >= ELF_BYTES
       && Content(img, d.inode)[..4] == ELF_MAGIC
  }

  lemma FileOfWellFormed(img: Image, name: seq<byte>)
    requires WellFormed(img) && Lookup(img, name).Some?
    ensures var d := Lookup(img, name).value;
            && (d.kind == RegularType ==> d.inode < NInodes(img))
            && (d.inode < NInodes(img) ==> AllStored(img, d.inode, 0, FileSize(img, d.inode)))
  {
    assert Lookup(img, name).value == DentryAt(img, FindFrom(img, name, 0).value);
  }

  /** In a well-formed image a program that passes the header check loads completely. */
  lemma LoadsCompletely(img: Image, name: seq<byte>, junk: seq<byte>)
    requires WellFormed(img) && |junk| == ELF_BYTES
    ensures !Resolve(img, name, junk).MissingBlock?
  {
    var r := Lookup(img, name);
    if r.Some? {
      FileOfWellFormed(img, name);
    }
  }

  /** The header buffer of the shell holds only bytes of the file. */
  lemma ShellHeader(img: Image, junk: seq<byte>)
    requires WellFormed(img) && HasShell(img) && |junk| == ELF_BYTES
    ensures var r := ReadResult(img, Lookup(img, SHELL).value.inode, 0, ELF_BYTES);
            && r.Some?
            && Header(r.value, junk) == Content(img, Lookup(img, SHELL).value.inode)[..ELF_BYTES]
  {
    var d := Lookup(img, SHELL).value;
    FileOfWellFormed(img, SHELL);
    ReadIsSliceOfContent(img, d.inode, 0, ELF_BYTES);
  }

  /** The shell can always be started, whatever is on the stack: at the same entry point, and
      with its whole file loaded. */
  lemma ShellRuns(img: Image, junk: seq<byte>)
    requires WellFormed(img) && HasShell(img) && |junk| == ELF_BYTES
    ensures var file := Content(img, Lookup(img, SHELL).value.inode);
            Resolve(img, SHELL, junk) == Runnable(Program(U32(file[..ELF_BYTES], 24), file))
  {
    var d := Lookup(img, SHELL).value;
    FileOfWellFormed(img, SHELL);
    var file := Content(img, d.inode);
    LoadsCompletely(img, SHELL, junk);
    ShellHeader(img, junk);
    ReadIsSliceOfContent(img, d.inode, 0, Paging.MB4);
    assert file[..ELF_BYTES][..4] == file[..4];
    assert file[0..|file|] == file;
  }

  /** The shell's own command line. */
  lemma ShellCommand()
    ensures InDomain(SHELL) && CommandName(SHELL) == SHELL && CommandArgs(SHELL) == []
  {
    NameStops(SHELL, 0, 5);
  }

  // ---------- the checks of `execute` ----------

  /** The header check: the first bytes of the file, read over whatever is on the stack. */
  method CheckProgram(img: Image, name: seq<byte>, junk: seq<byte>) returns (ok: bool, inode: nat, entry: nat)
    requires Sized(img) && NUL !in name && |junk| == ELF_BYTES
    ensures ok <==> !Resolve(img, name, junk).NoProgram?
    ensures ok ==> Lookup(img, name).Some? && inode == Lookup(img, name).value.inode
    ensures Resolve(img, name, junk).Runnable? ==>
              var p := Resolve(img, name, junk).program;
              entry == p.entry && ReadResult(img, inode, 0, Paging.MB4) == Some(p.text)
    ensures ok ==> (ReadResult(img, inode, 0, Paging.MB4).None? <==> Resolve(img, name, junk).MissingBlock?)
  {
    hide Sized, U32;
    ok, inode, entry := false, 0, 0;
    var de := ReadDentryByName(img, name);
    if de.Some? {
      inode := de.value.inode;
      var elf_buffer := new byte[ELF_BYTES](i requires 0 <= i < ELF_BYTES => junk[i]);
      assert elf_buffer[..] == junk;
      var n := ReadData(img, inode, 0, elf_buffer, ELF_BYTES);
      if n != -1 {
        ghost var data := ReadResult(img, inode, 0, ELF_BYTES).value;
        assert elf_buffer[..] == Header(data, junk);
        ok := HasMagic(elf_buffer);
        entry := U32(elf_buffer[..], 24);
      }
    }
  }

  method HasMagic(elf_buffer: array<byte>) returns (ok: bool)
    requires elf_buffer.Length == ELF_BYTES
    ensures ok <==> elf_buffer[..4] == ELF_MAGIC
  {
    var i := 0;
    while i < 4
      invariant 0 <= i <= 4 && forall k :: 0 <= k < i ==> elf_buffer[k] == ELF_MAGIC[k]
    {
      if elf_buffer[i] != ELF_MAGIC[i] {
        assert elf_buffer[..4][i] != ELF_MAGIC[i];
        return false;
      }
      i := i + 1;
    }
    return true;
  }

  /** The load into the program's page: it fails if a block of the file is missing. */
  method LoadProgram(img: Image, inode: nat) returns (ok: bool, text: seq<byte>)
    requires Sized(img)
    ensures ok <==> ReadResult(img, inode, 0, Paging.MB4).Some?
    ensures ok ==> text == ReadResult(img, inode, 0, Paging.MB4).value
  {
    var page := new byte[Paging.MB4];
    var test := ReadData(img, inode, 0, page, Paging.MB4);
    ok, text := test != -1, [];
    if ok {
      text := page[..test];
      assert page[..][..test] == page[..test];
    }
  }
}
