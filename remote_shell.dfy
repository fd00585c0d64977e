/** The remote end of src/utils/ssh.ts: the escaping the SSH tool applies to every path it
    puts between double quotes, the four command lines it builds from such paths, how a
    POSIX shell reads those lines back, and what they do to the server's file system.

    The server's file system is a set of directory paths, a map from file paths to
    contents, and a set of paths the login user may not create, remove or write. */
module RemoteShell {
  import opened Wrappers
  import opened Text

  // ---------------------------------------------------------------------------------
  // Escaping

  /** The characters `/(["$`\\])/g` selects. */
  predicate IsShellSpecial(c: char) {
    c == '"' || c == '$' || c == '`' || c == '\\'
  }

  function CountSpecial(s: string): nat
    decreases |s|
  {
    if |s| == 0 then 0 else (if IsShellSpecial(s[0]) then 1 else 0) + CountSpecial(s[1..])
  }

  /** `s.replace(/(["$`\\])/g, '\\$1')`: a backslash in front of every special character. */
  function ShellEscape(s: string): (r: string)
    ensures |r| == |s| + CountSpecial(s)
    decreases |s|
  {
    if |s| == 0 then ""
    else (if IsShellSpecial(s[0]) then ['\\', s[0]] else [s[0]]) + ShellEscape(s[1..])
  }

  lemma {:induction false} EscapeAppend(a: string, b: string)
    ensures ShellEscape(a + b) == ShellEscape(a) + ShellEscape(b)
    decreases |a|
  {
    if |a| > 0 {
      assert (a + b)[1..] == a[1..] + b;
      EscapeAppend(a[1..], b);
    } else {
      assert a + b == b;
    }
  }

  /** Every character other than the four special ones is kept, in place and in order:
      the escaped text is the input exactly when the input has no special character. */
  lemma {:induction false} EscapeIsIdentityIffPlain(s: string)
    ensures ShellEscape(s) == s <==> CountSpecial(s) == 0
    decreases |s|
  {
    if |s| > 0 {
      EscapeIsIdentityIffPlain(s[1..]);
      if CountSpecial(s) == 0 {
        assert s == [s[0]] + s[1..];
      }
    }
  }

  /** The escaping adds and removes no `/`. */
  lemma {:induction false} EscapeKeepsSlashes(s: string)
    ensures '/' in ShellEscape(s) <==> '/' in s
    decreases |s|
  {
    if |s| > 0 {
      EscapeKeepsSlashes(s[1..]);
      assert s == [s[0]] + s[1..];
      var head := if IsShellSpecial(s[0]) then ['\\', s[0]] else [s[0]];
      assert ShellEscape(s) == head + ShellEscape(s[1..]);
      assert '/' in head <==> s[0] == '/';
    }
  }

  // ---------------------------------------------------------------------------------
  // How the shell reads a double-quoted word

  /** The word a POSIX shell reads from the text that follows an opening `"`, and the
      index just past the closing `"`. Inside double quotes a backslash before `"`, `$`,
      backquote or backslash stands for that character, a backslash before a newline
      disappears, and any other backslash is kept. An unescaped `$` or backquote starts
      an expansion, whose value this model does not know: the word is then not read. */
  function ReadQuoted(s: string): (r: Option<(string, nat)>)
    ensures r.Some? ==> 0 < r.value.1 <= |s|
    decreases |s|
  {
    if |s| == 0 then None
    else if s[0] == '"' then Some(("", 1))
    else if s[0] == '$' || s[0] == '`' then None
    else if s[0] == '\\' && |s| >= 2 && (IsShellSpecial(s[1]) || s[1] == '\n') then
      match ReadQuoted(s[2..])
      case None => None
      case Some((w, n)) => Some((if s[1] == '\n' then w else [s[1]] + w, n + 2))
    else
      match ReadQuoted(s[1..])
      case None => None
      case Some((w, n)) => Some(([s[0]] + w, n + 1))
  }

  /** The shell reads back exactly the path that was escaped, whatever follows the
      closing quote. */
  lemma {:induction false} ReadEscaped(p: string, rest: string)
    ensures ReadQuoted(ShellEscape(p) + "\"" + rest) == Some((p, |ShellEscape(p)| + 1))
    decreases |p|
  {
    if |p| == 0 {
      assert ShellEscape(p) + "\"" + rest == "\"" + rest;
    } else {
      ReadEscaped(p[1..], rest);
      ReadEscapedStep(p, rest);
    }
  }

  /** One step of `ReadEscaped`: the first character of the path, escaped or not, is read
      back in front of what the rest reads to. */
  lemma ReadEscapedStep(p: string, rest: string)
    requires |p| > 0
    requires ReadQuoted(ShellEscape(p[1..]) + "\"" + rest) == Some((p[1..], |ShellEscape(p[1..])| + 1))
    ensures ReadQuoted(ShellEscape(p) + "\"" + rest) == Some((p, |ShellEscape(p)| + 1))
  {
    var s := ShellEscape(p) + "\"" + rest;
    var tail := ShellEscape(p[1..]) + "\"" + rest;
    var head := if IsShellSpecial(p[0]) then ['\\', p[0]] else [p[0]];
    assert ShellEscape(p) == head + ShellEscape(p[1..]);
    assert s == head + tail;
    assert p == [p[0]] + p[1..];
    if IsShellSpecial(p[0]) {
      assert s[0] == '\\' && s[1] == p[0] && s[2..] == tail;
    } else {
      assert s[0] == p[0] && s[1..] == tail;
    }
  }

  // ---------------------------------------------------------------------------------
  // The command lines the SSH tool builds

  datatype ShellCommand =
    | TestDir(path: string)                       // directoryExists
    | MakeDir(path: string)                       // createDirectory
    | RemoveTree(path: string)                    // backupDirectory, removing an old backup
    | CopyTree(source: string, target: string)    // backupDirectory, copying

  /** A path between double quotes, escaped. */
  function Quote(p: string): string {
    "\"" + ShellEscape(p) + "\""
  }

  const TestDirTail: string := " ] && echo \"exists\""

  function Render(c: ShellCommand): string {
    match c
    case TestDir(p) => "[ -d " + Quote(p) + TestDirTail
    case MakeDir(p) => "mkdir -p " + Quote(p)
    case RemoveTree(p) => "rm -rf " + Quote(p)
    case CopyTree(a, b) => "cp -r " + Quote(a) + " " + Quote(b)
  }

  /** The quoted word that starts at index `i` of `text` (just after its opening quote),
      and the index just past its closing quote. */
  function WordAt(text: string, i: nat): (r: Option<(string, nat)>)
    ensures r.Some? ==> i < r.value.1 <= |text|
  {
    if i <= |text| then
      match ReadQuoted(text[i..])
      case None => None
      case Some((w, n)) => Some((w, i + n))
    else None
  }

  /** One quoted path filling the rest of `text` from index `i` (just after its opening
      quote) to the end, with `tail` after the closing quote. */
  function PathTo(text: string, i: nat, tail: string): Option<string> {
    match WordAt(text, i)
    case Some((p, j)) => if text[j..] == tail then Some(p) else None
    case None => None
  }

  function ParseCopy(text: string): Option<ShellCommand> {
    match WordAt(text, 7)
    case Some((a, j)) =>
      if StartsWith(text[j..], " \"") then
        match PathTo(text, j + 2, "")
        case Some(b) => Some(CopyTree(a, b))
        case None => None
      else None
    case None => None
  }

  /** How the remote shell reads a command line of one of the four shapes; `None` for
      every other line. */
  function Parse(text: string): Option<ShellCommand> {
    if StartsWith(text, "[ -d \"") then
      match PathTo(text, 6, TestDirTail)
      case Some(p) => Some(TestDir(p))
      case None => None
    else if StartsWith(text, "mkdir -p \"") then
      match PathTo(text, 10, "")
      case Some(p) => Some(MakeDir(p))
      case None => None
    else if StartsWith(text, "rm -rf \"") then
      match PathTo(text, 8, "")
      case Some(p) => Some(RemoveTree(p))
      case None => None
    else if StartsWith(text, "cp -r \"") then ParseCopy(text)
    else None
  }

  /** A quoted word in the middle of a command line is read back as the path it quotes. */
  lemma WordAtQuote(head: string, p: string, tail: string)
    ensures WordAt(head + Quote(p) + tail, |head| + 1) == Some((p, |head| + |Quote(p)|))
  {
    var text := head + Quote(p) + tail;
    assert text[|head| + 1..] == ShellEscape(p) + "\"" + tail;
    ReadEscaped(p, tail);
  }

  lemma RenderTestDir(p: string)
    ensures Parse(Render(TestDir(p))) == Some(TestDir(p))
  {
    var text := Render(TestDir(p));
    WordAtQuote("[ -d ", p, TestDirTail);
    assert text[..6] == "[ -d \"";
    assert text[5 + |Quote(p)|..] == TestDirTail;
  }

  lemma RenderMakeDir(p: string)
    ensures Parse(Render(MakeDir(p))) == Some(MakeDir(p))
  {
    var text := Render(MakeDir(p));
    WordAtQuote("mkdir -p ", p, "");
    assert text == "mkdir -p " + Quote(p) + "";
    assert text[..10] == "mkdir -p \"";
    assert text[0] == 'm';
  }

  lemma RenderRemoveTree(p: string)
    ensures Parse(Render(RemoveTree(p))) == Some(RemoveTree(p))
  {
    var text := Render(RemoveTree(p));
    WordAtQuote("rm -rf ", p, "");
    assert text == "rm -rf " + Quote(p) + "";
    assert text[..8] == "rm -rf \"";
    assert text[0] == 'r';
  }

  lemma RenderCopyTree(a: string, b: string)
    ensures Parse(Render(CopyTree(a, b))) == Some(CopyTree(a, b))
  {
    var text := Render(CopyTree(a, b));
    ParseCopyRendered(a, b);
    assert text[..7] == "cp -r \"";
    ParseDispatchesCopy(text);
  }

  lemma ParseCopyRendered(a: string, b: string)
    ensures ParseCopy(Render(CopyTree(a, b))) == Some(CopyTree(a, b))
  {
    var qa, qb := Quote(a), Quote(b);
    var head := "cp -r " + qa + " ";
    var text := head + qb;
    assert Render(CopyTree(a, b)) == text;
    var j := 6 + |qa|;
    WordAtQuote("cp -r ", a, " " + qb);
    assert "cp -r " + qa + (" " + qb) == text;
    WordAtQuote(head, b, "");
    assert head + qb + "" == text;
    assert text[j..] == " " + qb;
    assert qb[0] == '"';
    ParseCopyOf(text, a, j, b);
  }

  lemma ParseCopyOf(text: string, a: string, j: nat, b: string)
    requires WordAt(text, 7) == Some((a, j))
    requires j + 2 <= |text| && text[j..j + 2] == " \""
    requires WordAt(text, j + 2) == Some((b, |text|))
    ensures ParseCopy(text) == Some(CopyTree(a, b))
  {
    assert text[|text|..] == "";
  }

  lemma ParseDispatchesCopy(text: string)
    requires StartsWith(text, "cp -r \"")
    ensures Parse(text) == ParseCopy(text)
  {
    assert text[0] == text[..7][0] == 'c';
    assert !StartsWith(text, "[ -d \"") by { assert "[ -d \""[0] == '['; }
    assert !StartsWith(text, "mkdir -p \"") by { assert "mkdir -p \""[0] == 'm'; }
    assert !StartsWith(text, "rm -rf \"") by { assert "rm -rf \""[0] == 'r'; }
  }

  /** Every command line the tool builds is read by the shell as the command it was built
      from: the escaping protects every path, whatever characters it holds. */
  lemma ParseRender(c: ShellCommand)
    ensures Parse(Render(c)) == Some(c)
  {
    match c
    case TestDir(p) => RenderTestDir(p);
    case MakeDir(p) => RenderMakeDir(p);
    case RemoveTree(p) => RenderRemoveTree(p);
    case CopyTree(a, b) => RenderCopyTree(a, b);
  }

  // ---------------------------------------------------------------------------------
  // The server's file system

  datatype RemoteFs = RemoteFs(dirs: set<string>, files: map<string, string>, denied: set<string>)

  /** `p` is `root` or lies beneath it. */
  predicate Under(root: string, p: string) {
    p == root || StartsWith(p, root + "/")
  }

  /** The directories `mkdir -p` creates on the way to `p`. */
  function Ancestors(p: string): set<string> {
    set i | 0 < i < |p| && p[i] == '/' :: p[..i]
  }

  /** The index of the last `/` of `p`, or -1. */
  function LastSlash(p: string): (i: int)
    ensures -1 <= i < |p|
    ensures i >= 0 ==> p[i] == '/'
    ensures forall k :: i < k < |p| ==> p[k] != '/'
    decreases |p|
  {
    if |p| == 0 then -1
    else if p[|p| - 1] == '/' then |p| - 1
    else LastSlash(p[..|p| - 1])
  }

  /** The directory a new entry at `p` goes into exists: the root, the login directory
      (a path without `/`), or a directory of the file system. */
  predicate ParentPresent(fs: RemoteFs, p: string) {
    var i := LastSlash(p);
    i <= 0 || p[..i] in fs.dirs
  }

  /** The last `/` of `dir + "/" + name`, for a name without `/`, is the one joining them. */
  lemma ParentOfJoin(dir: string, name: string)
    requires '/' !in name
    ensures LastSlash(dir + "/" + name) == |dir|
    ensures (dir + "/" + name)[..|dir|] == dir
  {
    var p := dir + "/" + name;
    assert p[|dir|] == '/';
    assert forall k :: |dir| < k < |p| ==> p[k] == name[k - |dir| - 1];
    assert forall k :: 0 <= k < |name| ==> name[k] != '/';
    LastSlashIs(p, |dir|);
  }

  /** A `/` with no `/` after it is the last one. */
  lemma LastSlashIs(p: string, i: nat)
    requires i < |p| && p[i] == '/'
    requires forall k :: i < k < |p| ==> p[k] != '/'
    ensures LastSlash(p) == i
  {
  }

  /** Where the copy of `p` lands when `source` is copied to `target`. */
  function Relocate(p: string, source: string, target: string): string
    requires Under(source, p)
  {
    target + p[|source|..]
  }

  lemma RelocateInjective(f1: string, f2: string, source: string, target: string)
    requires Under(source, f1) && Under(source, f2)
    requires Relocate(f1, source, target) == Relocate(f2, source, target)
    ensures f1 == f2
  {
    var x1, x2 := f1[|source|..], f2[|source|..];
    assert (target + x1)[|target|..] == x1 && (target + x2)[|target|..] == x2;
    assert f1 == f1[..|source|] + x1 && f2 == f2[..|source|] + x2;
  }

  /** The copies `cp -r source target` makes of the files beneath `source`. */
  function CopiedFiles(fs: RemoteFs, source: string, target: string): map<string, string> {
    assert forall f1, f2 | Under(source, f1) && Under(source, f2) ::
             Relocate(f1, source, target) == Relocate(f2, source, target) ==> f1 == f2 by {
      forall f1, f2 | Under(source, f1) && Under(source, f2)
        ensures Relocate(f1, source, target) == Relocate(f2, source, target) ==> f1 == f2
      {
        if Relocate(f1, source, target) == Relocate(f2, source, target) {
          RelocateInjective(f1, f2, source, target);
        }
      }
    }
    map f | f in fs.files && Under(source, f) :: Relocate(f, source, target) := fs.files[f]
  }

  function Copy(fs: RemoteFs, source: string, target: string): RemoteFs {
    fs.(dirs := fs.dirs + (set d | d in fs.dirs && Under(source, d) :: Relocate(d, source, target)),
        files := fs.files + CopiedFiles(fs, source, target))
  }

  function Remove(fs: RemoteFs, root: string): RemoteFs {
    fs.(dirs := (set d | d in fs.dirs && !Under(root, d)),
        files := (map f | f in fs.files && !Under(root, f) :: fs.files[f]))
  }

  /** What the channel of one exec delivers: the exit code with the stdout and stderr
      chunks, or one of the two ways the exec can fail. */
  datatype Reply =
    | Done(code: int, out: seq<string>, err: seq<string>)
    | ExecFailed(message: string)          // the exec callback's error
    | StreamFailed(message: string)        // the channel's 'error' event

  function Failure(message: string): Reply {
    Done(1, [], [message + "\n"])
  }

  /** `[ -d p ] && echo "exists"`: prints `exists` exactly when the directory is there. */
  function RunTestDir(fs: RemoteFs, p: string): (Reply, RemoteFs) {
    (if p in fs.dirs then Done(0, ["exists\n"], []) else Done(1, [], []), fs)
  }

  /** `mkdir -p p`: creates `p` and the directories on the way to it. It fails when a
      file stands at `p` or at one of those directories, and when `p` is not there yet
      and may not be created; an existing directory is left as it is. */
  function RunMakeDir(fs: RemoteFs, p: string): (Reply, RemoteFs) {
    if p in fs.files then (Failure("mkdir: cannot create directory '" + p + "': File exists"), fs)
    else if !(Ancestors(p) !! fs.files.Keys) then
      (Failure("mkdir: cannot create directory '" + p + "': Not a directory"), fs)
    else if p in fs.denied && p !in fs.dirs then
      (Failure("mkdir: cannot create directory '" + p + "': Permission denied"), fs)
    else (Done(0, [], []), fs.(dirs := fs.dirs + {p} + Ancestors(p)))
  }

  /** `rm -rf p`: removes `p` and everything beneath it. */
  function RunRemoveTree(fs: RemoteFs, p: string): (Reply, RemoteFs) {
    if p in fs.denied then (Failure("rm: cannot remove '" + p + "': Permission denied"), fs)
    else (Done(0, [], []), Remove(fs, p))
  }

  /** The last component of `p`: what follows its last `/`. */
  function Basename(p: string): (name: string)
    ensures '/' !in name
    ensures |name| <= |p| && name == p[|p| - |name|..]
    ensures |name| < |p| ==> p[|p| - |name| - 1] == '/'
  {
    var i := LastSlash(p);
    var name := p[i + 1..];
    forall j | 0 <= j < |name| ensures name[j] != '/' {
      assert name[j] == p[i + 1 + j];
    }
    name
  }

  /** Where `cp -r a b` puts the copy of `a`: at `b` when `b` is not a directory, and
      beneath `b`, under the last component of `a`, when it is. */
  function CopyDestination(fs: RemoteFs, a: string, b: string): string {
    if b in fs.dirs then b + "/" + Basename(a) else b
  }

  /** `cp -r a b`: copies the tree at `a` to `CopyDestination(fs, a, b)`, merging it into
      a directory already there. It fails when `a` is not a directory, when the copy would
      land inside `a`, on a file, at a path that is not there and may not be created, or
      where no directory holds it. A source that is a file fails here although `cp -r`
      would copy it; the tool copies only a source its `[ -d ]` test has found. */
  function RunCopyTree(fs: RemoteFs, a: string, b: string): (Reply, RemoteFs) {
    var t := CopyDestination(fs, a, b);
    if a !in fs.dirs then (Failure("cp: cannot stat '" + a + "': No such file or directory"), fs)
    else if Under(a, t) then
      (Failure("cp: cannot copy a directory, '" + a + "', into itself, '" + t + "'"), fs)
    else if t in fs.files then
      (Failure("cp: cannot overwrite non-directory '" + t + "' with directory '" + a + "'"), fs)
    else if (t in fs.denied && t !in fs.dirs) || !ParentPresent(fs, t) then
      (Failure("cp: cannot create directory '" + t + "'"), fs)
    else (Done(0, [], []), Copy(fs, a, t))
  }

  /** What one of the four commands prints and does on the server. */
  function Run(fs: RemoteFs, c: ShellCommand): (Reply, RemoteFs) {
    match c
    case TestDir(p) => RunTestDir(fs, p)
    case MakeDir(p) => RunMakeDir(fs, p)
    case RemoveTree(p) => RunRemoveTree(fs, p)
    case CopyTree(a, b) => RunCopyTree(fs, a, b)
  }

  /** `test -d` reports a directory exactly when the file system has it, and changes
      nothing. */
  lemma TestDirReports(fs: RemoteFs, p: string)
    ensures Run(fs, TestDir(p)).1 == fs
    ensures Run(fs, TestDir(p)).0.Done?
    ensures Run(fs, TestDir(p)).0.code == 0 <==> p in fs.dirs
  {
  }

  /** `cp -r` always exits with a code, and when it fails it changes nothing. */
  lemma CopyTreeReports(fs: RemoteFs, a: string, b: string)
    ensures RunCopyTree(fs, a, b).0.Done?
    ensures RunCopyTree(fs, a, b).0.code != 0 ==> RunCopyTree(fs, a, b).1 == fs
  {
  }

  /** After `rm -rf p` succeeds nothing remains at or beneath `p`, and everything else is
      kept. */
  lemma RemoveClears(fs: RemoteFs, p: string, q: string)
    requires Run(fs, RemoveTree(p)).0.code == 0
    ensures q in Run(fs, RemoveTree(p)).1.dirs <==> q in fs.dirs && !Under(p, q)
    ensures q in Run(fs, RemoveTree(p)).1.files <==> q in fs.files && !Under(p, q)
  {
  }

  /** After `cp -r a b` succeeds every file beneath `a` has a copy with the same contents
      at the corresponding place beneath the destination (`b`, or `b/<last component of
      a>` when `b` was already a directory), and the original stays. */
  lemma CopyDuplicates(fs: RemoteFs, a: string, b: string, f: string)
    requires RunCopyTree(fs, a, b).0.code == 0
    requires f in fs.files && Under(a, f)
    ensures var copy := Relocate(f, a, CopyDestination(fs, a, b));
            copy in RunCopyTree(fs, a, b).1.files && RunCopyTree(fs, a, b).1.files[copy] == fs.files[f]
    ensures f in RunCopyTree(fs, a, b).1.files
  {
    var t := CopyDestination(fs, a, b);
    var copies := CopiedFiles(fs, a, t);
    assert RunCopyTree(fs, a, b).1.files == fs.files + copies;
    var k := Relocate(f, a, t);
    assert k in copies;
    var g :| g in fs.files && Under(a, g) && Relocate(g, a, t) == k && copies[k] == fs.files[g];
    RelocateInjective(f, g, a, t);
  }

}
