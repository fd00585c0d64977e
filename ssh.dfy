/** `SSHTool` of src/utils/ssh.ts: the connection flag, command execution with its result
    shaping, the directory helpers, single-file and recursive directory upload, and the
    remote backup.

    Everything the tool cannot see is an input: the server's file system (`RemoteFs`),
    how the handshake ends, whether the SFTP subsystem starts, what the server replies to
    commands other than the four the tool builds (`Host`), and the local directory tree
    being uploaded (`Entry`). Each state-changing method is specified by a function from
    the old `Session` to the new one and the method's outcome; the lemmas below state
    what the source promises about those functions. */
module Ssh {
  import opened Wrappers
  import opened Text
  import opened JsValues
  import opened Errors
  import opened RemoteShell

  // ---------------------------------------------------------------------------------
  // prepareSSHConfig

  /** The options handed to the ssh2 client. */
  datatype ConnectionConfig = ConnectionConfig(
    host: JsValue,
    port: JsValue,
    username: JsValue,
    password: JsValue,
    hostKey: Option<JsValue>,
    readyTimeout: int)

  const DefaultPort: real := 22.0
  const ReadyTimeout: int := 30000

  /** `prepareSSHConfig(serverConfig)` on the loaded server section. */
  function PrepareSshConfig(server: JsValue): ConnectionConfig {
    ConnectionConfig(
      Prop(server, "host"),
      if Truthy(Prop(server, "port")) then Prop(server, "port") else Num(DefaultPort),
      Prop(server, "username"),
      Prop(server, "password"),
      if Truthy(Prop(server, "hostKey")) then Some(Prop(server, "hostKey")) else None,
      ReadyTimeout)
  }

  /** The client options for a server section: the port falls back to 22 exactly when the
      given one is falsy, the user name is read from `username`, and a host key is passed
      only when one is given. */
  lemma ConnectionConfigFields(server: JsValue)
    ensures Truthy(PrepareSshConfig(server).port)
    ensures PrepareSshConfig(server).port == Num(22.0) <==>
              !Truthy(Prop(server, "port")) || Prop(server, "port") == Num(22.0)
    ensures PrepareSshConfig(server).username == Prop(server, "username")
    ensures PrepareSshConfig(server).hostKey.Some? <==> Truthy(Prop(server, "hostKey"))
    ensures PrepareSshConfig(server).readyTimeout == 30000
  {
  }

  // ---------------------------------------------------------------------------------
  // State and answers from the server

  /** What the tool asks of the client, in order. */
  datatype Request =
    | Open(config: ConnectionConfig)     // client.connect
    | Exec(command: string)              // client.exec
    | Put(path: string, content: string) // an SFTP write stream, piped from a local file
    | End                                // client.end

  /** The tool's state: its `connected` flag, the server's file system, and every request
      made so far. */
  datatype Session = Session(connected: bool, fs: RemoteFs, sent: seq<Request>)

  /** A failure of the channel of a command line the tool builds, before any exit code:
      the exec callback's error or the channel's 'error' event. */
  datatype ChannelFault = ExecError(message: string) | StreamError(message: string)

  /** The server's behaviour: how the handshake ends (`None` for 'ready', an error message
      otherwise), the error the SFTP subsystem reports when it does not start, the reply
      to every command line other than the four the tool builds, and the channel
      failure, if any, for each line the tool builds. A line gets the same answer and
      the same channel failure every time it is sent. */
  datatype Host = Host(
    handshakeError: Option<string>,
    sftpError: Option<string>,
    respond: string -> Reply,
    fault: string -> Option<ChannelFault>)

  datatype CommandResult = CommandResult(code: int, stdout: string, stderr: string, success: bool)

  /** A local directory entry as `readdirSync`/`statSync` see it. */
  datatype Entry =
    | File(name: string, content: string)
    | Dir(name: string, children: seq<Entry>)
    | Other(name: string)                      // neither a regular file nor a directory

  /** `path.join` of a directory and an entry name. */
  function PathJoin(dir: string, name: string): string {
    dir + "/" + name
  }

  const ConnectFailedPrefix: string := "SSH 连接失败: "
  const ExecNotConnected: string := "SSH 连接未建立，请先调用 connect() 方法"
  const ExecFailedPrefix: string := "命令执行失败: "
  const StreamFailedPrefix: string := "命令执行错误: "
  const MkdirFailedPrefix: string := "创建目录失败: "
  const UploadNotConnected: string := "SSH 连接未建立"
  const LocalFileMissingPrefix: string := "本地文件不存在: "
  const SftpFailedPrefix: string := "SFTP 初始化失败: "
  const WriteFailedPrefix: string := "文件上传失败: "
  const LocalDirMissingPrefix: string := "本地目录不存在: "
  const BackupFailedPrefix: string := "备份创建失败: "
  const TestCommand: string := "echo \"SSH连接测试成功\""
  const TestGreeting: string := "SSH连接测试成功"

  /** The error Node's `readdirSync` throws for a path that is not a directory. */
  function NotADirectory(path: string): Error {
    NewPlainError("ENOTDIR: not a directory, scandir '" + path + "'")
  }

  // ---------------------------------------------------------------------------------
  // connect, disconnect

  function ConnectSpec(h: Host, config: ConnectionConfig, s: Session): (Session, Result<Unit, Error>) {
    if s.connected then (s, Ok(Unit))
    else
      var attempt := s.(sent := s.sent + [Open(config)]);
      match h.handshakeError
      case None => (attempt.(connected := true), Ok(Unit))
      case Some(m) => (attempt, Err(NewPlainError(ConnectFailedPrefix + m)))
  }

  function DisconnectSpec(s: Session): Session {
    if s.connected then s.(connected := false, sent := s.sent + [End]) else s
  }

  /** `connect` while connected returns at once and opens nothing; otherwise the flag is
      set exactly when the handshake succeeds. */
  lemma ConnectOutcome(h: Host, config: ConnectionConfig, s: Session)
    ensures s.connected ==> ConnectSpec(h, config, s) == (s, Ok(Unit))
    ensures ConnectSpec(h, config, s).0.connected <==> s.connected || h.handshakeError.None?
    ensures ConnectSpec(h, config, s).1.Ok? <==> ConnectSpec(h, config, s).0.connected
  {
  }

  /** After `disconnect` the flag is down; when it was already down nothing happens, so
      disconnecting twice is disconnecting once. */
  lemma DisconnectOutcome(s: Session)
    ensures !DisconnectSpec(s).connected
    ensures !s.connected ==> DisconnectSpec(s) == s
    ensures DisconnectSpec(DisconnectSpec(s)) == DisconnectSpec(s)
  {
  }

  // ---------------------------------------------------------------------------------
  // executeCommand

  /** The text of a stream's chunks, in the order they arrived. */
  function Concat(chunks: seq<string>): string
    decreases |chunks|
  {
    if |chunks| == 0 then "" else Concat(chunks[..|chunks| - 1]) + chunks[|chunks| - 1]
  }

  /** `stdout += data.toString()` for every chunk. */
  method Collect(chunks: seq<string>) returns (text: string)
    ensures text == Concat(chunks)
  {
    text := "";
    for k := 0 to |chunks|
      invariant text == Concat(chunks[..k])
    {
      assert chunks[..k + 1][..k] == chunks[..k];
      text := text + chunks[k];
    }
    assert chunks[..|chunks|] == chunks;
  }

  /** A command line handed to `executeCommand`: one the tool builds around a quoted
      path, which the shell reads back as that command (`ParseRender`), or text given to
      the tool (a deploy hook, the connection test). */
  datatype CommandLine = Built(command: ShellCommand) | Given(text: string)

  /** The text sent to the server. */
  function Line(cl: CommandLine): string {
    match cl
    case Built(c) => Render(c)
    case Given(t) => t
  }

  function FaultReply(f: ChannelFault): Reply {
    match f
    case ExecError(m) => ExecFailed(m)
    case StreamError(m) => StreamFailed(m)
  }

  /** The error `executeCommand` rejects with when the channel fails. */
  function FaultError(f: ChannelFault): Error {
    match f
    case ExecError(m) => NewPlainError(ExecFailedPrefix + m)
    case StreamError(m) => NewPlainError(StreamFailedPrefix + m)
  }

  /** The channel of the built command `c` does not fail. */
  predicate Faultless(h: Host, c: ShellCommand) {
    h.fault(Render(c)).None?
  }

  /** What the server answers to a command the tool builds: the channel failure the host
      gives its line, with nothing run, or else what the shell does. */
  function BuiltAnswer(h: Host, fs: RemoteFs, c: ShellCommand): (Reply, RemoteFs) {
    match h.fault(Render(c))
    case Some(f) => (FaultReply(f), fs)
    case None => Run(fs, c)
  }

  /** What the server answers to a command line, and its file system afterwards. */
  function Answer(h: Host, fs: RemoteFs, command: CommandLine): (Reply, RemoteFs) {
    match command
    case Built(c) => BuiltAnswer(h, fs, c)
    case Given(t) => (h.respond(t), fs)
  }

  function Shape(code: int, out: seq<string>, err: seq<string>): CommandResult {
    CommandResult(code, Trim(Concat(out)), Trim(Concat(err)), code == 0)
  }

  /** What `executeCommand(line)` makes of the server's answer: refused without a
      connection; otherwise the line is sent, the server's file system becomes what the
      answer leaves, and the reply is shaped into a result or an error. */
  function ExecReply(s: Session, line: string, answer: (Reply, RemoteFs)): (Session, Result<CommandResult, Error>) {
    if !s.connected then (s, Err(NewPlainError(ExecNotConnected)))
    else
      var after := s.(fs := answer.1, sent := s.sent + [Exec(line)]);
      match answer.0
      case Done(code, out, err) => (after, Ok(Shape(code, out, err)))
      case ExecFailed(m) => (after, Err(NewPlainError(ExecFailedPrefix + m)))
      case StreamFailed(m) => (after, Err(NewPlainError(StreamFailedPrefix + m)))
  }

  /** `executeCommand(command)` */
  function ExecSpec(h: Host, s: Session, command: CommandLine): (Session, Result<CommandResult, Error>) {
    ExecReply(s, Line(command), Answer(h, s.fs, command))
  }

  /** `executeCommand` of a line the tool does not build, which leaves the modelled file
      system as it is. */
  function ExecGiven(h: Host, s: Session, text: string): (Session, Result<CommandResult, Error>) {
    ExecReply(s, text, (h.respond(text), s.fs))
  }

  lemma ExecGivenIsExec(h: Host, s: Session, text: string)
    ensures ExecSpec(h, s, Given(text)) == ExecGiven(h, s, text)
  {
  }

  /** A command is refused without reaching the server when not connected; otherwise it
      is sent once, the file system is what the server's answer leaves, and the result
      reports success exactly for exit code 0, with both streams trimmed. */
  lemma ExecOutcome(s: Session, line: string, answer: (Reply, RemoteFs))
    ensures !s.connected ==> ExecReply(s, line, answer) == (s, Err(NewPlainError(ExecNotConnected)))
    ensures s.connected ==> ExecReply(s, line, answer).0 == s.(fs := answer.1, sent := s.sent + [Exec(line)])
    ensures ExecReply(s, line, answer).1.Ok? <==> s.connected && answer.0.Done?
    ensures ExecReply(s, line, answer).1.Ok? ==>
              var r := ExecReply(s, line, answer).1.value;
              && r.code == answer.0.code
              && (r.success <==> r.code == 0) && Trim(r.stdout) == r.stdout && Trim(r.stderr) == r.stderr
  {
    if s.connected && answer.0.Done? {
      var reply := answer.0;
      TrimIsInfix(Concat(reply.out));
      TrimOfTrimmed(Trim(Concat(reply.out)));
      TrimIsInfix(Concat(reply.err));
      TrimOfTrimmed(Trim(Concat(reply.err)));
    }
  }

  // ---------------------------------------------------------------------------------
  // directoryExists, createDirectory

  function DirExistsSpec(h: Host, s: Session, path: string): (Session, bool) {
    var (after, r) := ExecReply(s, Render(TestDir(path)), BuiltAnswer(h, s.fs, TestDir(path)));
    (after, r.Ok? && Contains(r.value.stdout, "exists"))
  }

  function CreateDirSpec(h: Host, s: Session, path: string): (Session, Result<Unit, Error>) {
    var (after, r) := ExecReply(s, Render(MakeDir(path)), BuiltAnswer(h, s.fs, MakeDir(path)));
    if r.Err? then (after, Err(r.error))
    else if !r.value.success then (after, Err(NewPlainError(MkdirFailedPrefix + r.value.stderr)))
    else (after, Ok(Unit))
  }

  /** `if (!(await directoryExists(p))) await createDirectory(p)` */
  function EnsureDirSpec(h: Host, s: Session, path: string): (Session, Result<Unit, Error>) {
    var (after, present) := DirExistsSpec(h, s, path);
    if present then (after, Ok(Unit)) else CreateDirSpec(h, after, path)
  }

  /** On a connected session `directoryExists` answers whether the server has the
      directory (the escaped path reaches the shell intact), and changes nothing there;
      when the channel fails, or on a closed session, the error is swallowed and the
      answer is false. */
  lemma DirExistsAnswers(h: Host, s: Session, path: string)
    ensures DirExistsSpec(h, s, path).1 <==> s.connected && Faultless(h, TestDir(path)) && path in s.fs.dirs
    ensures DirExistsSpec(h, s, path).0.fs == s.fs
    ensures DirExistsSpec(h, s, path).0.connected == s.connected
  {
    if s.connected && Faultless(h, TestDir(path)) {
      var found := path in s.fs.dirs;
      assert ExecReply(s, Render(TestDir(path)), BuiltAnswer(h, s.fs, TestDir(path))).1 ==
               Ok(if found then Shape(0, ["exists\n"], []) else Shape(1, [], []));
      ExistsPrinted();
      NothingPrinted();
    }
  }

  /** The output of the directory test when the directory is there contains `exists`. */
  lemma ExistsPrinted()
    ensures Contains(Shape(0, ["exists\n"], []).stdout, "exists")
  {
    var w := "exists";
    ConcatOne(w + "\n");
    TrimLine(w);
    ContainsItself(w);
  }

  lemma ConcatOne(x: string)
    ensures Concat([x]) == x
  {
    assert [x][..0] == [];
  }

  /** A line ending in a newline trims to its text when that neither starts nor ends with
      white space. */
  lemma TrimLine(w: string)
    requires |w| > 0 && !IsSpace(w[0]) && !IsSpace(w[|w| - 1])
    ensures Trim(w + "\n") == w
  {
    var s := w + "\n";
    assert TrimStart(s) == s;
    assert s[..|s| - 1] == w;
    assert TrimEnd(s) == TrimEnd(w);
    TrimOfTrimmed(w);
  }

  /** The output of the directory test when it is not there is empty. */
  lemma NothingPrinted()
    ensures !Contains(Shape(1, [], []).stdout, "exists")
  {
  }

  /** On a connected session `createDirectory` rejects with the channel's error when the
      channel fails; otherwise it succeeds exactly when no file stands at the path or at a
      directory on the way to it and the path is either a directory already or may be
      created; when it succeeds the directory and its ancestors exist. */
  lemma CreateDirOutcome(h: Host, s: Session, path: string)
    requires s.connected
    ensures !Faultless(h, MakeDir(path)) ==>
              CreateDirSpec(h, s, path).1 == Err(FaultError(h.fault(Render(MakeDir(path))).value))
    ensures CreateDirSpec(h, s, path).1.Ok? <==>
              && Faultless(h, MakeDir(path))
              && path !in s.fs.files
              && (forall d :: d in Ancestors(path) ==> d !in s.fs.files)
              && (path in s.fs.dirs || path !in s.fs.denied)
    ensures CreateDirSpec(h, s, path).1.Ok? ==>
              path in CreateDirSpec(h, s, path).0.fs.dirs && Ancestors(path) <= CreateDirSpec(h, s, path).0.fs.dirs
    ensures CreateDirSpec(h, s, path).0.connected
  {
  }

  // ---------------------------------------------------------------------------------
  // uploadFile

  /** Why an SFTP write to `target` fails, if it does. */
  function WriteRefusal(fs: RemoteFs, target: string): Option<string> {
    if !ParentPresent(fs, target) then Some("No such file")
    else if target in fs.denied then Some("Permission denied")
    else if target in fs.dirs then Some("Failure")
    else None
  }

  /** `uploadFile(localPath, remotePath)`; `content` is the local file, `None` when it does
      not exist. The path is escaped once more before it is handed to SFTP, which does not
      go through a shell, so the escapes stay in the name written. */
  function UploadFileSpec(h: Host, s: Session, localPath: string, content: Option<string>, remotePath: string)
    : (Session, Result<Unit, Error>)
  {
    if !s.connected then (s, Err(NewPlainError(UploadNotConnected)))
    else if content.None? then (s, Err(NewPlainError(LocalFileMissingPrefix + localPath)))
    else if h.sftpError.Some? then (s, Err(NewPlainError(SftpFailedPrefix + h.sftpError.value)))
    else
      var target := ShellEscape(remotePath);
      var after := s.(sent := s.sent + [Put(target, content.value)]);
      match WriteRefusal(s.fs, target)
      case Some(why) => (after, Err(NewPlainError(WriteFailedPrefix + why)))
      case None => (after.(fs := s.fs.(files := s.fs.files[target := content.value])), Ok(Unit))
  }

  /** Uploading requires a connection and an existing local file; a successful upload
      leaves the content at the escaped remote path. */
  lemma UploadFileOutcome(h: Host, s: Session, localPath: string, content: Option<string>, remotePath: string)
    ensures !s.connected ==> UploadFileSpec(h, s, localPath, content, remotePath).1 == Err(NewPlainError(UploadNotConnected))
    ensures s.connected && content.None? ==>
              UploadFileSpec(h, s, localPath, content, remotePath).1 == Err(NewPlainError(LocalFileMissingPrefix + localPath))
    ensures UploadFileSpec(h, s, localPath, content, remotePath).1.Ok? ==>
              var fs := UploadFileSpec(h, s, localPath, content, remotePath).0.fs;
              content.Some? && ShellEscape(remotePath) in fs.files && fs.files[ShellEscape(remotePath)] == content.value
    ensures UploadFileSpec(h, s, localPath, content, remotePath).0.connected == s.connected
  {
  }

  // ---------------------------------------------------------------------------------
  // uploadDirectory

  /** `countFiles`: the regular files of a listing, recursively. */
  function FileCount(es: seq<Entry>): nat
    decreases es
  {
    if |es| == 0 then 0 else FileCountOf(es[0]) + FileCount(es[1..])
  }

  function FileCountOf(e: Entry): nat
    decreases e
  {
    match e
    case File(_, _) => 1
    case Dir(_, cs) => FileCount(cs)
    case Other(_) => 0
  }

  /** The loop of `countFiles`, with `count++` for a file and `count += countFiles(sub)`
      for a directory. */
  method CountFiles(es: seq<Entry>) returns (count: nat)
    ensures count == FileCount(es)
    decreases es
  {
    count := 0;
    for k := 0 to |es|
      invariant count + FileCount(es[k..]) == FileCount(es)
    {
      assert es[k..][1..] == es[k + 1..];
      match es[k]
      case File(_, _) =>
        count := count + 1;
      case Dir(_, cs) =>
        var sub := CountFiles(cs);
        count := count + sub;
      case Other(_) =>
    }
  }

  /** The remote path an entry named `name` of remote directory `dir` is given. */
  function ItemPath(dir: string, name: string): string {
    PathJoin(dir, ShellEscape(name))
  }

  /** `uploadRecursive`: the entries in listing order, each handled by `UploadEntry`;
      the first failure ends the walk. `n` is the number of files uploaded before, the
      result the number after. */
  function UploadEntries(h: Host, s: Session, es: seq<Entry>, localDir: string, remoteDir: string, n: nat)
    : (Session, Result<nat, Error>)
    decreases es
  {
    if |es| == 0 then (s, Ok(n))
    else
      var (after, r) := UploadEntry(h, s, es[0], localDir, remoteDir, n);
      if r.Err? then (after, r) else UploadEntries(h, after, es[1..], localDir, remoteDir, r.value)
  }

  /** One entry of the walk: a file is uploaded, a directory created when missing and
      then descended into, anything else skipped. */
  function UploadEntry(h: Host, s: Session, e: Entry, localDir: string, remoteDir: string, n: nat)
    : (Session, Result<nat, Error>)
    decreases e
  {
    match e
    case File(name, content) =>
      var (s1, up) := UploadFileSpec(h, s, PathJoin(localDir, name), Some(content), ItemPath(remoteDir, name));
      (s1, if up.Err? then Err(up.error) else Ok(n + 1))
    case Dir(name, cs) =>
      var (s1, ready) := EnsureDirSpec(h, s, ItemPath(remoteDir, name));
      if ready.Err? then (s1, Err(ready.error))
      else UploadEntries(h, s1, cs, PathJoin(localDir, name), ItemPath(remoteDir, name), n)
    case Other(_) => (s, Ok(n))
  }

  /** `uploadDirectory(localPath, remotePath)`; `local` is what is at `localPath`. The
      result is the number of files reported as uploaded. */
  function UploadDirectorySpec(h: Host, s: Session, localPath: string, local: Option<Entry>, remotePath: string)
    : (Session, Result<nat, Error>)
  {
    if local.None? then (s, Err(NewPlainError(LocalDirMissingPrefix + localPath)))
    else
      var (s1, ready) := EnsureDirSpec(h, s, remotePath);
      if ready.Err? then (s1, Err(ready.error))
      else if !local.value.Dir? then (s1, Err(NotADirectory(localPath)))
      else UploadEntries(h, s1, local.value.children, localPath, remotePath, 0)
  }

  /** The SFTP writes among some requests. */
  function Puts(rs: seq<Request>): seq<Request>
    decreases |rs|
  {
    if |rs| == 0 then []
    else (if rs[0].Put? then [rs[0]] else []) + Puts(rs[1..])
  }

  lemma {:induction false} PutsAppend(a: seq<Request>, b: seq<Request>)
    ensures Puts(a + b) == Puts(a) + Puts(b)
    decreases |a|
  {
    if |a| == 0 {
      assert a + b == b;
    } else {
      var first := if a[0].Put? then [a[0]] else [];
      assert (a + b)[0] == a[0];
      assert (a + b)[1..] == a[1..] + b;
      PutsAppend(a[1..], b);
      assert Puts(a + b) == first + (Puts(a[1..]) + Puts(b));
      assert first + (Puts(a[1..]) + Puts(b)) == (first + Puts(a[1..])) + Puts(b);
    }
  }

  /** The writes a complete upload makes, depth first in listing order. */
  function PlannedPuts(es: seq<Entry>, remoteDir: string): seq<Request>
    decreases es
  {
    if |es| == 0 then [] else PlannedPutsOf(es[0], remoteDir) + PlannedPuts(es[1..], remoteDir)
  }

  function PlannedPutsOf(e: Entry, remoteDir: string): seq<Request>
    decreases e
  {
    match e
    case File(name, content) => [Put(ShellEscape(ItemPath(remoteDir, name)), content)]
    case Dir(name, cs) => PlannedPuts(cs, ItemPath(remoteDir, name))
    case Other(_) => []
  }

  lemma ExecAddsNoPut(s: Session, line: string, answer: (Reply, RemoteFs))
    ensures Puts(ExecReply(s, line, answer).0.sent) == Puts(s.sent)
  {
    if s.connected {
      PutsAppend(s.sent, [Exec(line)]);
      assert Puts([Exec(line)]) == [];
    }
  }

  lemma EnsureDirAddsNoPut(h: Host, s: Session, path: string)
    ensures Puts(EnsureDirSpec(h, s, path).0.sent) == Puts(s.sent)
  {
    ExecAddsNoPut(s, Render(TestDir(path)), BuiltAnswer(h, s.fs, TestDir(path)));
    var (s1, present) := DirExistsSpec(h, s, path);
    ExecAddsNoPut(s1, Render(MakeDir(path)), BuiltAnswer(h, s1.fs, MakeDir(path)));
  }

  lemma UploadFileAddsItsPut(h: Host, s: Session, localPath: string, content: string, remotePath: string)
    ensures var s1 := UploadFileSpec(h, s, localPath, Some(content), remotePath).0;
            Puts(s1.sent) == Puts(s.sent) || Puts(s1.sent) == Puts(s.sent) + [Put(ShellEscape(remotePath), content)]
    ensures UploadFileSpec(h, s, localPath, Some(content), remotePath).1.Ok? ==>
              Puts(UploadFileSpec(h, s, localPath, Some(content), remotePath).0.sent)
              == Puts(s.sent) + [Put(ShellEscape(remotePath), content)]
  {
    var p := Put(ShellEscape(remotePath), content);
    PutsAppend(s.sent, [p]);
    assert Puts([p]) == [p];
  }

  /** The upload walk writes files in depth-first listing order, never one beyond the
      planned sequence, and stops at the first failure: its writes are always a prefix of
      the planned ones, and all of them when it succeeds. On success the count grows by
      exactly the number of regular files. */
  lemma {:induction false} UploadEntriesProgress(h: Host, s: Session, es: seq<Entry>, localDir: string, remoteDir: string, n: nat)
    ensures var (s', r) := UploadEntries(h, s, es, localDir, remoteDir, n);
            && Puts(s'.sent) <= Puts(s.sent) + PlannedPuts(es, remoteDir)
            && (r.Ok? ==> Puts(s'.sent) == Puts(s.sent) + PlannedPuts(es, remoteDir))
            && (r.Ok? ==> r.value == n + FileCount(es))
    decreases es
  {
    if |es| > 0 {
      var (after, r) := UploadEntry(h, s, es[0], localDir, remoteDir, n);
      UploadEntryProgress(h, s, es[0], localDir, remoteDir, n);
      var head := PlannedPutsOf(es[0], remoteDir);
      var rest := PlannedPuts(es[1..], remoteDir);
      assert PlannedPuts(es, remoteDir) == head + rest;
      assert FileCount(es) == FileCountOf(es[0]) + FileCount(es[1..]);
      if r.Ok? {
        UploadEntriesProgress(h, after, es[1..], localDir, remoteDir, r.value);
        var final := UploadEntries(h, after, es[1..], localDir, remoteDir, r.value);
        assert UploadEntries(h, s, es, localDir, remoteDir, n) == final;
        PutsCompose(Puts(s.sent), head, rest, Puts(final.0.sent));
      } else {
        assert UploadEntries(h, s, es, localDir, remoteDir, n) == (after, r);
        PrefixExtends(Puts(after.sent), Puts(s.sent) + head, rest);
      }
    }
  }

  /** A walk that wrote `head` after `done` and then at most (or exactly) `rest` wrote at
      most (or exactly) `head + rest`. */
  lemma PutsCompose(done: seq<Request>, head: seq<Request>, rest: seq<Request>, final: seq<Request>)
    requires final <= done + head + rest
    ensures final <= done + (head + rest)
    ensures final == done + head + rest ==> final == done + (head + rest)
  {
    assert done + head + rest == done + (head + rest);
  }

  lemma PrefixExtends(x: seq<Request>, y: seq<Request>, z: seq<Request>)
    requires x <= y
    ensures x <= y + z
  {
    assert (y + z)[..|y|] == y;
  }

  lemma {:induction false} UploadEntryProgress(h: Host, s: Session, e: Entry, localDir: string, remoteDir: string, n: nat)
    ensures var (s', r) := UploadEntry(h, s, e, localDir, remoteDir, n);
            && Puts(s'.sent) <= Puts(s.sent) + PlannedPutsOf(e, remoteDir)
            && (r.Ok? ==> Puts(s'.sent) == Puts(s.sent) + PlannedPutsOf(e, remoteDir))
            && (r.Ok? ==> r.value == n + FileCountOf(e))
    decreases e
  {
    match e {
      case File(name, content) =>
        UploadFileAddsItsPut(h, s, PathJoin(localDir, name), content, ItemPath(remoteDir, name));
      case Dir(name, cs) =>
        EnsureDirAddsNoPut(h, s, ItemPath(remoteDir, name));
        var (s1, ready) := EnsureDirSpec(h, s, ItemPath(remoteDir, name));
        if ready.Ok? {
          UploadEntriesProgress(h, s1, cs, PathJoin(localDir, name), ItemPath(remoteDir, name), n);
        }
      case Other(_) =>
    }
  }

  /** On success `uploadDirectory` reports exactly `countFiles` of the local directory. */
  lemma UploadDirectoryCount(h: Host, s: Session, localPath: string, local: Option<Entry>, remotePath: string)
    ensures UploadDirectorySpec(h, s, localPath, local, remotePath).1.Ok? ==>
              local.Some? && local.value.Dir? &&
              UploadDirectorySpec(h, s, localPath, local, remotePath).1.value == FileCount(local.value.children)
    ensures local.None? ==>
              UploadDirectorySpec(h, s, localPath, local, remotePath) == (s, Err(NewPlainError(LocalDirMissingPrefix + localPath)))
  {
    if local.Some? {
      var (s1, ready) := EnsureDirSpec(h, s, remotePath);
      if ready.Ok? && local.value.Dir? {
        UploadEntriesProgress(h, s1, local.value.children, localPath, remotePath, 0);
      }
    }
  }

  /** A file is written under the name it has locally only when neither it nor the remote
      directory holds `"`, `$`, a backquote or a backslash: its name is escaped when the
      remote item path is built and the whole path is escaped again for SFTP. */
  lemma UploadTargetKeepsNameIffPlain(remoteDir: string, name: string)
    ensures ShellEscape(ItemPath(remoteDir, name)) == PathJoin(remoteDir, name)
            <==> CountSpecial(remoteDir) == 0 && CountSpecial(name) == 0
  {
    var target := ShellEscape(ItemPath(remoteDir, name));
    EscapeAppend(remoteDir + "/", ShellEscape(name));
    EscapeAppend(remoteDir, "/");
    assert ShellEscape("/") == "/";
    assert target == ShellEscape(remoteDir) + "/" + ShellEscape(ShellEscape(name));
    if CountSpecial(remoteDir) == 0 && CountSpecial(name) == 0 {
      EscapeIsIdentityIffPlain(remoteDir);
      EscapeIsIdentityIffPlain(name);
    }
  }

  /** A subdirectory whose name holds one of those characters is created under its
      escaped name, since the shell removes only the second escape. */
  lemma SpecialDirectoryNameIsChanged(remoteDir: string, name: string)
    requires CountSpecial(name) > 0
    ensures ItemPath(remoteDir, name) != PathJoin(remoteDir, name)
  {
  }

  // ---------------------------------------------------------------------------------
  // backupDirectory

  function BackupPath(remotePath: string, backupName: string): string {
    remotePath + "_backup_" + backupName
  }

  /** Removing an earlier backup at `target`, if there is one. A failed `rm -rf` is
      ignored; only an exec that throws ends the backup. */
  function ClearSpec(h: Host, s: Session, target: string): (Session, Result<Unit, Error>) {
    var (s1, stale) := DirExistsSpec(h, s, target);
    if !stale then (s1, Ok(Unit))
    else
      var (s2, r) := ExecReply(s1, Render(RemoveTree(target)), BuiltAnswer(h, s1.fs, RemoveTree(target)));
      (s2, if r.Err? then Err(r.error) else Ok(Unit))
  }

  function CopySpec(h: Host, s: Session, source: string, target: string): (Session, Result<Unit, Error>) {
    var (s1, r) := ExecReply(s, Render(CopyTree(source, target)), BuiltAnswer(h, s.fs, CopyTree(source, target)));
    if r.Err? then (s1, Err(r.error))
    else if !r.value.success then (s1, Err(NewPlainError(BackupFailedPrefix + r.value.stderr)))
    else (s1, Ok(Unit))
  }

  /** `backupDirectory(remotePath, backupName)` */
  function BackupSpec(h: Host, s: Session, remotePath: string, backupName: string): (Session, Result<Unit, Error>) {
    var (s1, present) := DirExistsSpec(h, s, remotePath);
    if !present then (s1, Ok(Unit))
    else
      var target := BackupPath(remotePath, backupName);
      var (s2, cleared) := ClearSpec(h, s1, target);
      if cleared.Err? then (s2, cleared) else CopySpec(h, s2, remotePath, target)
  }

  /** On a connected session clearing sends the test and, when the test sees the backup
      path, `rm -rf`. It fails only when the channel of that `rm -rf` fails, with the
      channel's error. A directory stays at the path exactly when one was there and the
      test missed it, or its removal failed or was refused; everything outside is kept. */
  lemma ClearOutcome(h: Host, s: Session, target: string)
    requires s.connected
    ensures var (s', r) := ClearSpec(h, s, target);
            var seen := Faultless(h, TestDir(target)) && target in s.fs.dirs;
            && s'.connected
            && s'.sent == s.sent + [Exec(Render(TestDir(target)))]
                          + (if seen then [Exec(Render(RemoveTree(target)))] else [])
            && (r.Err? <==> seen && !Faultless(h, RemoveTree(target)))
            && (r.Err? ==> r.error == FaultError(h.fault(Render(RemoveTree(target))).value))
            && (forall f :: f in s.fs.files && !Under(target, f) ==> f in s'.fs.files && s'.fs.files[f] == s.fs.files[f])
            && (forall d :: d in s.fs.dirs && !Under(target, d) ==> d in s'.fs.dirs)
            && (target in s'.fs.dirs <==>
                  target in s.fs.dirs && (!seen || !Faultless(h, RemoveTree(target)) || target in s.fs.denied))
  {
    DirExistsAnswers(h, s, target);
    var (s1, stale) := DirExistsSpec(h, s, target);
    if stale {
      ExecOutcome(s1, Render(RemoveTree(target)), BuiltAnswer(h, s1.fs, RemoveTree(target)));
    }
  }

  /** `cp -r` rejects with the channel's error when its channel fails, changing nothing;
      otherwise it succeeds exactly when the shell's copy does. */
  lemma CopyOutcome(h: Host, s: Session, source: string, target: string)
    requires s.connected
    ensures var (s', r) := CopySpec(h, s, source, target);
            && s'.sent == s.sent + [Exec(Render(CopyTree(source, target)))]
            && (!Faultless(h, CopyTree(source, target)) ==>
                  r == Err(FaultError(h.fault(Render(CopyTree(source, target))).value)) && s'.fs == s.fs)
            && (r.Ok? <==> Faultless(h, CopyTree(source, target)) && RunCopyTree(s.fs, source, target).0.code == 0)
            && (Faultless(h, CopyTree(source, target)) ==> s'.fs == RunCopyTree(s.fs, source, target).1)
  {
    if Faultless(h, CopyTree(source, target)) {
      CopyTreeReports(s.fs, source, target);
    }
  }

  /** The commands a backup sends: when the test of the source does not find it only that
      test; otherwise the test of the backup path, `rm -rf` of that path when the test
      sees it, then, unless the channel of that `rm -rf` failed, `cp -r` of the source to
      it. */
  lemma BackupCommands(h: Host, s: Session, remotePath: string, backupName: string)
    requires s.connected
    ensures var target := BackupPath(remotePath, backupName);
            var found := Faultless(h, TestDir(remotePath)) && remotePath in s.fs.dirs;
            var seen := Faultless(h, TestDir(target)) && target in s.fs.dirs;
            var testSource := [Exec(Render(TestDir(remotePath)))];
            BackupSpec(h, s, remotePath, backupName).0.sent ==
              if !found then s.sent + testSource
              else s.sent + testSource + [Exec(Render(TestDir(target)))]
                     + (if seen then [Exec(Render(RemoveTree(target)))] else [])
                     + (if seen && !Faultless(h, RemoveTree(target)) then [] else [Exec(Render(CopyTree(remotePath, target)))])
  {
    var target := BackupPath(remotePath, backupName);
    DirExistsAnswers(h, s, remotePath);
    var (s1, present) := DirExistsSpec(h, s, remotePath);
    if present {
      ClearOutcome(h, s1, target);
      var (s2, cleared) := ClearSpec(h, s1, target);
      CopyOutcome(h, s2, remotePath, target);
    }
  }

  /** When the test of the source does not find it, because it is absent or because the
      channel fails, the backup is skipped after that test and reported as a success. */
  lemma BackupSkippedUnlessFound(h: Host, s: Session, remotePath: string, backupName: string)
    requires s.connected
    requires !Faultless(h, TestDir(remotePath)) || remotePath !in s.fs.dirs
    ensures BackupSpec(h, s, remotePath, backupName) ==
              (s.(sent := s.sent + [Exec(Render(TestDir(remotePath)))]), Ok(Unit))
  {
    DirExistsAnswers(h, s, remotePath);
    ExecOutcome(s, Render(TestDir(remotePath)), BuiltAnswer(h, s.fs, TestDir(remotePath)));
  }

  /** Nothing beneath a directory lies beneath its backup path. */
  lemma BackupPathIsApart(remotePath: string, backupName: string, f: string)
    requires Under(remotePath, f)
    ensures !Under(BackupPath(remotePath, backupName), f)
  {
    var target := BackupPath(remotePath, backupName);
    assert target[|remotePath|] == '_';
    if |f| > |remotePath| {
      assert f[|remotePath|] == (remotePath + "/")[|remotePath|] == '/';
      assert (target + "/")[|remotePath|] == '_';
    } else {
      assert f == remotePath;
    }
  }

  /** A backup of a source the test finds, on a connected session, clears the backup path
      and then copies: the outcome is the clearing's failure when the channel of its
      `rm -rf` fails, and otherwise that of the copy on the cleared session. That session
      is still connected, keeps every file outside the backup path, and has a directory
      at the backup path exactly when one was there that the test missed or that could
      not be removed. */
  lemma BackupReachesCopy(h: Host, s: Session, remotePath: string, backupName: string) returns (s2: Session)
    requires s.connected && remotePath in s.fs.dirs
    ensures s2.connected
    ensures var target := BackupPath(remotePath, backupName);
            var seen := Faultless(h, TestDir(target)) && target in s.fs.dirs;
            target in s2.fs.dirs <==>
              target in s.fs.dirs && (!seen || !Faultless(h, RemoveTree(target)) || target in s.fs.denied)
    ensures var target := BackupPath(remotePath, backupName);
            var seen := Faultless(h, TestDir(target)) && target in s.fs.dirs;
            Faultless(h, TestDir(remotePath)) ==>
              if seen && !Faultless(h, RemoveTree(target)) then
                BackupSpec(h, s, remotePath, backupName) == (s2, Err(FaultError(h.fault(Render(RemoveTree(target))).value)))
              else BackupSpec(h, s, remotePath, backupName) == CopySpec(h, s2, remotePath, target)
    ensures forall f :: f in s.fs.files && !Under(BackupPath(remotePath, backupName), f) ==>
              f in s2.fs.files && s2.fs.files[f] == s.fs.files[f]
  {
    var target := BackupPath(remotePath, backupName);
    DirExistsAnswers(h, s, remotePath);
    var (s1, present) := DirExistsSpec(h, s, remotePath);
    ClearOutcome(h, s1, target);
    var (s2', cleared) := ClearSpec(h, s1, target);
    s2 := s2';
  }

  /** Where a backup's copy lands: at the backup path, or, when an earlier backup is there
      and the test misses it or it may not be removed, beneath it under the last component
      of the source (`cp -r` into an existing directory). */
  function BackupDestination(h: Host, fs: RemoteFs, remotePath: string, backupName: string): string {
    var target := BackupPath(remotePath, backupName);
    if target in fs.dirs && (!Faultless(h, TestDir(target)) || target in fs.denied) then
      target + "/" + Basename(remotePath)
    else target
  }

  /** A successful backup of a source the test finds is a copy of every file beneath it,
      at the backup destination, with the same contents. */
  lemma BackupCopies(h: Host, s: Session, remotePath: string, backupName: string, f: string)
    requires s.connected && remotePath in s.fs.dirs
    requires f in s.fs.files && Under(remotePath, f)
    requires BackupSpec(h, s, remotePath, backupName).1.Ok?
    ensures var fs := BackupSpec(h, s, remotePath, backupName).0.fs;
            var copy := Relocate(f, remotePath, BackupDestination(h, s.fs, remotePath, backupName));
            Faultless(h, TestDir(remotePath)) ==> copy in fs.files && fs.files[copy] == s.fs.files[f]
  {
    var target := BackupPath(remotePath, backupName);
    BackupPathIsApart(remotePath, backupName, f);
    var s2 := BackupReachesCopy(h, s, remotePath, backupName);
    if Faultless(h, TestDir(remotePath)) {
      assert CopyDestination(s2.fs, remotePath, target) == BackupDestination(h, s.fs, remotePath, backupName);
      CopyOutcome(h, s2, remotePath, target);
      CopyDuplicates(s2.fs, remotePath, target, f);
    }
  }

  // ---------------------------------------------------------------------------------
  // What the compound operations leave of the connection and of the SFTP writes

  lemma EnsureDirKeepsFlag(h: Host, s: Session, path: string)
    ensures EnsureDirSpec(h, s, path).0.connected == s.connected
  {
    DirExistsAnswers(h, s, path);
    var (s1, present) := DirExistsSpec(h, s, path);
    ExecOutcome(s1, Render(MakeDir(path)), BuiltAnswer(h, s1.fs, MakeDir(path)));
  }

  /** No step of an upload walk opens or closes the connection. */
  lemma {:induction false} UploadEntriesKeepFlag(h: Host, s: Session, es: seq<Entry>, localDir: string, remoteDir: string, n: nat)
    ensures UploadEntries(h, s, es, localDir, remoteDir, n).0.connected == s.connected
    decreases es
  {
    if |es| > 0 {
      UploadEntryKeepsFlag(h, s, es[0], localDir, remoteDir, n);
      var (after, r) := UploadEntry(h, s, es[0], localDir, remoteDir, n);
      if r.Ok? {
        UploadEntriesKeepFlag(h, after, es[1..], localDir, remoteDir, r.value);
      }
    }
  }

  lemma {:induction false} UploadEntryKeepsFlag(h: Host, s: Session, e: Entry, localDir: string, remoteDir: string, n: nat)
    ensures UploadEntry(h, s, e, localDir, remoteDir, n).0.connected == s.connected
    decreases e
  {
    match e {
      case File(name, content) =>
      case Dir(name, cs) =>
        EnsureDirKeepsFlag(h, s, ItemPath(remoteDir, name));
        var (s1, ready) := EnsureDirSpec(h, s, ItemPath(remoteDir, name));
        if ready.Ok? {
          UploadEntriesKeepFlag(h, s1, cs, PathJoin(localDir, name), ItemPath(remoteDir, name), n);
        }
      case Other(_) =>
    }
  }

  lemma UploadDirectoryKeepsFlag(h: Host, s: Session, localPath: string, local: Option<Entry>, remotePath: string)
    ensures UploadDirectorySpec(h, s, localPath, local, remotePath).0.connected == s.connected
  {
    EnsureDirKeepsFlag(h, s, remotePath);
    var (s1, ready) := EnsureDirSpec(h, s, remotePath);
    if ready.Ok? && local.Some? && local.value.Dir? {
      UploadEntriesKeepFlag(h, s1, local.value.children, localPath, remotePath, 0);
    }
  }

  /** A successful `uploadDirectory` writes exactly the planned files, in order. */
  lemma UploadDirectoryPuts(h: Host, s: Session, localPath: string, local: Option<Entry>, remotePath: string)
    ensures var (s', r) := UploadDirectorySpec(h, s, localPath, local, remotePath);
            r.Ok? ==> local.Some? && local.value.Dir? &&
                      Puts(s'.sent) == Puts(s.sent) + PlannedPuts(local.value.children, remotePath)
  {
    EnsureDirAddsNoPut(h, s, remotePath);
    var (s1, ready) := EnsureDirSpec(h, s, remotePath);
    if ready.Ok? && local.Some? && local.value.Dir? {
      UploadEntriesProgress(h, s1, local.value.children, localPath, remotePath, 0);
    }
  }

  /** A backup only runs shell commands: it keeps the connection as it was and writes
      nothing over SFTP. */
  lemma BackupKeepsFlagAndWritesNothing(h: Host, s: Session, remotePath: string, backupName: string)
    ensures BackupSpec(h, s, remotePath, backupName).0.connected == s.connected
    ensures Puts(BackupSpec(h, s, remotePath, backupName).0.sent) == Puts(s.sent)
  {
    var target := BackupPath(remotePath, backupName);
    DirExistsAnswers(h, s, remotePath);
    ExecAddsNoPut(s, Render(TestDir(remotePath)), BuiltAnswer(h, s.fs, TestDir(remotePath)));
    var (s1, present) := DirExistsSpec(h, s, remotePath);
    if present {
      ClearKeepsFlagAndWritesNothing(h, s1, target);
      var (s3, cleared) := ClearSpec(h, s1, target);
      if cleared.Ok? {
        CopyKeepsFlagAndWritesNothing(h, s3, remotePath, target);
      }
    }
  }

  lemma ClearKeepsFlagAndWritesNothing(h: Host, s: Session, target: string)
    ensures ClearSpec(h, s, target).0.connected == s.connected
    ensures Puts(ClearSpec(h, s, target).0.sent) == Puts(s.sent)
  {
    DirExistsAnswers(h, s, target);
    ExecAddsNoPut(s, Render(TestDir(target)), BuiltAnswer(h, s.fs, TestDir(target)));
    var (s2, stale) := DirExistsSpec(h, s, target);
    ExecOutcome(s2, Render(RemoveTree(target)), BuiltAnswer(h, s2.fs, RemoveTree(target)));
    ExecAddsNoPut(s2, Render(RemoveTree(target)), BuiltAnswer(h, s2.fs, RemoveTree(target)));
  }

  lemma CopyKeepsFlagAndWritesNothing(h: Host, s: Session, source: string, target: string)
    ensures CopySpec(h, s, source, target).0.connected == s.connected
    ensures Puts(CopySpec(h, s, source, target).0.sent) == Puts(s.sent)
  {
    ExecOutcome(s, Render(CopyTree(source, target)), BuiltAnswer(h, s.fs, CopyTree(source, target)));
    ExecAddsNoPut(s, Render(CopyTree(source, target)), BuiltAnswer(h, s.fs, CopyTree(source, target)));
  }

  // ---------------------------------------------------------------------------------
  // The tool

  class SSHTool {
    const config: ConnectionConfig
    const host: Host
    var connected: bool
    var fs: RemoteFs
    var sent: seq<Request>

    function State(): Session
      reads this
    {
      Session(connected, fs, sent)
    }

    /** `new SSHTool(serverConfig)`, against a server with the given behaviour and file
        system. */
    constructor (server: JsValue, host: Host, fs: RemoteFs)
      ensures config == PrepareSshConfig(server) && this.host == host
      ensures State() == Session(false, fs, [])
    {
      config := PrepareSshConfig(server);
      this.host := host;
      connected := false;
      this.fs := fs;
      sent := [];
    }

    method Connect() returns (r: Result<Unit, Error>)
      modifies this
      ensures (State(), r) == ConnectSpec(host, config, old(State()))
    {
      if connected {
        return Ok(Unit);
      }
      sent := sent + [Open(config)];
      match host.handshakeError {
        case None =>
          connected := true;
          r := Ok(Unit);
        case Some(m) =>
          r := Err(NewPlainError(ConnectFailedPrefix + m));
      }
    }

    /** The client's 'close' event. */
    method Closed()
      modifies this
      ensures State() == old(State()).(connected := false)
    {
      connected := false;
    }

    method Disconnect()
      modifies this
      ensures State() == DisconnectSpec(old(State()))
    {
      if connected {
        sent := sent + [End];
        connected := false;
      }
    }

    method IsConnected() returns (b: bool)
      ensures b == connected
    {
      b := connected;
    }

    method Destroy()
      modifies this
      ensures State() == DisconnectSpec(old(State()))
    {
      if connected {
        Disconnect();
      }
    }

    method ExecuteCommand(command: CommandLine) returns (r: Result<CommandResult, Error>)
      modifies this
      ensures (State(), r) == ExecSpec(host, old(State()), command)
    {
      if !connected {
        return Err(NewPlainError(ExecNotConnected));
      }
      var (reply, fs') := Answer(host, fs, command);
      sent := sent + [Exec(Line(command))];
      fs := fs';
      match reply {
        case ExecFailed(m) =>
          r := Err(NewPlainError(ExecFailedPrefix + m));
        case StreamFailed(m) =>
          r := Err(NewPlainError(StreamFailedPrefix + m));
        case Done(code, out, err) =>
          var stdout := Collect(out);
          var stderr := Collect(err);
          r := Ok(CommandResult(code, Trim(stdout), Trim(stderr), code == 0));
      }
    }

    method DirectoryExists(path: string) returns (b: bool)
      modifies this
      ensures (State(), b) == DirExistsSpec(host, old(State()), path)
    {
      var r := ExecuteCommand(Built(TestDir(path)));
      b := r.Ok? && Contains(r.value.stdout, "exists");
    }

    method CreateDirectory(path: string) returns (r: Result<Unit, Error>)
      modifies this
      ensures (State(), r) == CreateDirSpec(host, old(State()), path)
    {
      var res := ExecuteCommand(Built(MakeDir(path)));
      if res.Err? {
        return Err(res.error);
      }
      if !res.value.success {
        return Err(NewPlainError(MkdirFailedPrefix + res.value.stderr));
      }
      r := Ok(Unit);
    }

    method EnsureDirectory(path: string) returns (r: Result<Unit, Error>)
      modifies this
      ensures (State(), r) == EnsureDirSpec(host, old(State()), path)
    {
      var present := DirectoryExists(path);
      if present {
        return Ok(Unit);
      }
      r := CreateDirectory(path);
    }

    method UploadFile(localPath: string, content: Option<string>, remotePath: string) returns (r: Result<Unit, Error>)
      modifies this
      ensures (State(), r) == UploadFileSpec(host, old(State()), localPath, content, remotePath)
    {
      if !connected {
        return Err(NewPlainError(UploadNotConnected));
      }
      if content.None? {
        return Err(NewPlainError(LocalFileMissingPrefix + localPath));
      }
      if host.sftpError.Some? {
        return Err(NewPlainError(SftpFailedPrefix + host.sftpError.value));
      }
      var target := ShellEscape(remotePath);
      sent := sent + [Put(target, content.value)];
      match WriteRefusal(fs, target) {
        case Some(why) =>
          r := Err(NewPlainError(WriteFailedPrefix + why));
        case None =>
          fs := fs.(files := fs.files[target := content.value]);
          r := Ok(Unit);
      }
    }

    method UploadRecursive(es: seq<Entry>, localDir: string, remoteDir: string, n: nat) returns (r: Result<nat, Error>)
      modifies this
      ensures (State(), r) == UploadEntries(host, old(State()), es, localDir, remoteDir, n)
      decreases es
    {
      var count := n;
      for k := 0 to |es|
        invariant UploadEntries(host, old(State()), es, localDir, remoteDir, n)
                  == UploadEntries(host, State(), es[k..], localDir, remoteDir, count)
      {
        assert es[k..][0] == es[k] && es[k..][1..] == es[k + 1..];
        match es[k] {
          case File(name, content) =>
            var up := UploadFile(PathJoin(localDir, name), Some(content), ItemPath(remoteDir, name));
            if up.Err? {
              return Err(up.error);
            }
            count := count + 1;
          case Dir(name, cs) =>
            var ready := EnsureDirectory(ItemPath(remoteDir, name));
            if ready.Err? {
              return Err(ready.error);
            }
            var sub := UploadRecursive(cs, PathJoin(localDir, name), ItemPath(remoteDir, name), count);
            if sub.Err? {
              return sub;
            }
            count := sub.value;
          case Other(_) =>
        }
      }
      r := Ok(count);
    }

    method UploadDirectory(localPath: string, local: Option<Entry>, remotePath: string) returns (r: Result<nat, Error>)
      modifies this
      ensures (State(), r) == UploadDirectorySpec(host, old(State()), localPath, local, remotePath)
      ensures r.Ok? ==> local.Some? && local.value.Dir? && r.value == FileCount(local.value.children)
    {
      ghost var s0 := State();
      UploadDirectoryCount(host, s0, localPath, local, remotePath);
      if local.None? {
        return Err(NewPlainError(LocalDirMissingPrefix + localPath));
      }
      var ready := EnsureDirectory(remotePath);
      if ready.Err? {
        return Err(ready.error);
      }
      if !local.value.Dir? {
        return Err(NotADirectory(localPath));
      }
      var total := CountFiles(local.value.children);
      r := UploadRecursive(local.value.children, localPath, remotePath, 0);
      // The total announced before the walk is the number of files a full walk uploads.
      assert r.Ok? ==> r.value == total;
    }

    /** The part of `backupDirectory` that removes an earlier backup at `target`. */
    method ClearBackupPath(target: string) returns (r: Result<Unit, Error>)
      modifies this
      ensures (State(), r) == ClearSpec(host, old(State()), target)
    {
      var stale := DirectoryExists(target);
      if stale {
        var removed := ExecuteCommand(Built(RemoveTree(target)));
        if removed.Err? {
          return Err(removed.error);
        }
      }
      r := Ok(Unit);
    }

    /** The part of `backupDirectory` that copies `source` to `target`. */
    method CopyToBackup(source: string, target: string) returns (r: Result<Unit, Error>)
      modifies this
      ensures (State(), r) == CopySpec(host, old(State()), source, target)
    {
      var copied := ExecuteCommand(Built(CopyTree(source, target)));
      if copied.Err? {
        return Err(copied.error);
      }
      if !copied.value.success {
        return Err(NewPlainError(BackupFailedPrefix + copied.value.stderr));
      }
      r := Ok(Unit);
    }

    method BackupDirectory(remotePath: string, backupName: string) returns (r: Result<Unit, Error>)
      modifies this
      ensures (State(), r) == BackupSpec(host, old(State()), remotePath, backupName)
    {
      var present := DirectoryExists(remotePath);
      if !present {
        return Ok(Unit);
      }
      var target := BackupPath(remotePath, backupName);
      r := ClearBackupPath(target);
      if r.Err? {
        return;
      }
      r := CopyToBackup(remotePath, target);
    }

    method TestConnection() returns (ok: bool)
      modifies this
      ensures var (s1, c) := ConnectSpec(host, config, old(State()));
              var (s2, e) := ExecGiven(host, s1, TestCommand);
              && (ok <==> c.Ok? && e.Ok? && e.value.success && Contains(e.value.stdout, TestGreeting))
              && State() == (if c.Err? then s1 else if e.Err? then s2 else DisconnectSpec(s2))
    {
      var c := Connect();
      if c.Err? {
        return false;
      }
      var e := ExecuteCommand(Given(TestCommand));
      if e.Err? {
        return false;
      }
      Disconnect();
      ok := e.value.success && Contains(e.value.stdout, TestGreeting);
    }
  }
}
