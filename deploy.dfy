/** `Deployer` of src/commands/deploy.ts: the fixed sequence of deployment steps run
    against an `SSHTool`, with best-effort hooks, the dry-run switch, the backup predicate,
    the rethrow of the first error and the disconnect that always follows.

    Each step the deployer starts is recorded in its `log`; the tool records what it sends
    to the server. The process's working directory, the local build directory and the
    clock's ISO timestamp are inputs. */
module Deploy {
  import opened Wrappers
  import opened Text
  import opened JsValues
  import opened Errors
  import opened RemoteShell
  import opened ConfigTypes
  import opened Ssh

  /** The command-line flags the deployer reads. `verbose` only selects what is logged. */
  datatype CliOptions = CliOptions(dryRun: Option<bool>, noBackup: Option<bool>, verbose: Option<bool>)

  /** The steps of `deploy`, and the `finally` disconnect. */
  datatype Step = Validate | Connect | PreDeploy | Backup | Upload | PostDeploy | Complete | Disconnect

  const EmptyDirPrefix: string := "本地目录为空: "

  predicate IsDryRun(o: CliOptions) {
    o.dryRun == Some(true)
  }

  /** `shouldBackup()`: both `!== false` and `!== true` are strict, so only an explicit
      `backup: false` or an explicit `noBackup: true` turns the backup off. */
  predicate ShouldBackup(c: EnvironmentConfig, o: CliOptions) {
    c.options.backup != Some(false) && o.noBackup != Some(true)
  }

  /** `${remotePath}/${projectName}`, the directory both the backup and the upload use. */
  function RemoteTarget(c: EnvironmentConfig): string {
    c.paths.remotePath + "/" + c.paths.projectName
  }

  /** `path.resolve(cwd, p)` without normalisation of `.`, `..` and repeated slashes. */
  function ResolvePath(cwd: string, p: string): string {
    if StartsWith(p, "/") then p else PathJoin(cwd, p)
  }

  /** `.replace(/[:.]/g, '-')`: every colon and dot becomes a dash. */
  function DashSeparators(s: string): (r: string)
    ensures |r| == |s|
    ensures forall i :: 0 <= i < |s| ==> r[i] == (if s[i] == ':' || s[i] == '.' then '-' else s[i])
    decreases |s|
  {
    if |s| == 0 then ""
    else (if s[0] == ':' || s[0] == '.' then "-" else [s[0]]) + DashSeparators(s[1..])
  }

  /** `backup-${timestamp}` for the ISO time `iso`. */
  function BackupName(iso: string): string {
    "backup-" + DashSeparators(iso)
  }

  /** The backup name keeps the timestamp's length and holds no colon and no dot, so it is
      a single plain path component whenever the timestamp has no slash. */
  lemma BackupNameIsPlain(iso: string)
    ensures |BackupName(iso)| == 7 + |iso|
    ensures StartsWith(BackupName(iso), "backup-")
    ensures forall i :: 0 <= i < |BackupName(iso)| ==> BackupName(iso)[i] != ':' && BackupName(iso)[i] != '.'
    ensures '/' !in iso ==> '/' !in BackupName(iso)
  {
    var r := BackupName(iso);
    assert r[..7] == "backup-";
    forall i | 7 <= i < |r|
      ensures r[i] == DashSeparators(iso)[i - 7]
    {
    }
    if '/' in iso {
    } else {
      forall i | 0 <= i < |r|
        ensures r[i] != '/'
      {
        if i >= 7 {
          assert r[i] == DashSeparators(iso)[i - 7];
          assert iso[i - 7] != '/';
        }
      }
    }
  }

  // ---------------------------------------------------------------------------------
  // The steps as functions of the session

  /** Everything a deployment depends on besides the session: the server's behaviour, the
      client options the tool was built with, the configuration, the flags, the resolved
      local directory and what is there, and the clock. */
  datatype Env = Env(
    host: Host,
    client: ConnectionConfig,
    config: EnvironmentConfig,
    options: CliOptions,
    localPath: string,
    local: Option<Entry>,
    now: string)

  /** `validatePreparation()`: the local directory must exist and list at least one
      entry; listing a path that is not a directory throws. */
  function ValidateSpec(localPath: string, local: Option<Entry>): Result<Unit, Error> {
    match local
    case None => Err(NewPlainError(LocalDirMissingPrefix + localPath))
    case Some(Dir(_, children)) =>
      if |children| == 0 then Err(NewPlainError(EmptyDirPrefix + localPath)) else Ok(Unit)
    case Some(_) => Err(NotADirectory(localPath))
  }

  lemma ValidateAcceptsNonEmptyDirectory(localPath: string, local: Option<Entry>)
    ensures ValidateSpec(localPath, local).Ok? <==> local.Some? && local.value.Dir? && |local.value.children| > 0
    ensures local.None? ==> ValidateSpec(localPath, local) == Err(NewPlainError(LocalDirMissingPrefix + localPath))
    ensures local.Some? && local.value.Dir? && |local.value.children| == 0 ==>
              ValidateSpec(localPath, local) == Err(NewPlainError(EmptyDirPrefix + localPath))
  {
  }

  /** `executePreDeployCommands` / `executePostDeployCommands`: the commands in order, none
      of them in a dry run. An unsuccessful result is only a warning; an exec that throws
      ends the step. */
  function HooksSpec(h: Host, s: Session, commands: seq<string>, dry: bool): (Session, Result<Unit, Error>)
    decreases |commands|
  {
    if |commands| == 0 then (s, Ok(Unit))
    else if dry then HooksSpec(h, s, commands[1..], dry)
    else
      var (s1, r) := ExecGiven(h, s, commands[0]);
      if r.Err? then (s1, Err(r.error)) else HooksSpec(h, s1, commands[1..], dry)
  }

  /** `backupExistingFiles()`; the tool's `backupDirectory` tests the directory again. */
  function BackupStepSpec(h: Host, s: Session, target: string, now: string): (Session, Result<Unit, Error>) {
    var (s1, present) := DirExistsSpec(h, s, target);
    if !present then (s1, Ok(Unit)) else BackupSpec(h, s1, target, BackupName(now))
  }

  /** `uploadNewFiles()` */
  function UploadStepSpec(h: Host, s: Session, localPath: string, local: Option<Entry>, target: string, dry: bool)
    : (Session, Result<Unit, Error>)
  {
    if dry then (s, Ok(Unit))
    else
      var (s1, ready) := EnsureDirSpec(h, s, target);
      if ready.Err? then (s1, Err(ready.error))
      else
        var (s2, up) := UploadDirectorySpec(h, s1, localPath, local, target);
        (s2, if up.Err? then Err(up.error) else Ok(Unit))
  }

  function StepSpec(d: Env, s: Session, step: Step): (Session, Result<Unit, Error>) {
    var dry := IsDryRun(d.options);
    match step
    case Validate => (s, ValidateSpec(d.localPath, d.local))
    case Connect => ConnectSpec(d.host, d.client, s)
    case PreDeploy => HooksSpec(d.host, s, d.config.options.preDeploy, dry)
    case Backup => BackupStepSpec(d.host, s, RemoteTarget(d.config), d.now)
    case Upload => UploadStepSpec(d.host, s, d.localPath, d.local, RemoteTarget(d.config), dry)
    case PostDeploy => HooksSpec(d.host, s, d.config.options.postDeploy, dry)
    case Complete => (s, Ok(Unit))
    case Disconnect => (DisconnectSpec(s), Ok(Unit))
  }

  /** The steps of the `try` block, the backup only when it is enabled. */
  function PlannedSteps(backup: bool): seq<Step> {
    [Validate, Connect, PreDeploy] + (if backup then [Backup] else []) + [Upload, PostDeploy, Complete]
  }

  /** Runs steps in order until one fails; the result names the steps started. */
  function RunSteps(d: Env, s: Session, steps: seq<Step>): (Session, Result<Unit, Error>, seq<Step>)
    decreases |steps|
  {
    if |steps| == 0 then (s, Ok(Unit), [])
    else
      var (s1, r) := StepSpec(d, s, steps[0]);
      if r.Err? then (s1, r, [steps[0]])
      else
        var (s2, r2, started) := RunSteps(d, s1, steps[1..]);
        (s2, r2, [steps[0]] + started)
  }

  /** `deploy()`: the `try` block, then the `finally` disconnect; the error the block
      threw is the error `deploy` rethrows. */
  function DeploySpec(d: Env, s: Session): (Session, Result<Unit, Error>, seq<Step>) {
    var (s1, r, started) := RunSteps(d, s, PlannedSteps(ShouldBackup(d.config, d.options)));
    (DisconnectSpec(s1), r, started + [Disconnect])
  }

  // ---------------------------------------------------------------------------------
  // Properties

  /** Steps run strictly in order: the steps started are a non-empty prefix of those
      planned, all of them exactly when none failed, and when one failed it is the last
      one started and its error is the result. */
  lemma {:induction false} RunStepsInOrder(d: Env, s: Session, steps: seq<Step>)
    ensures var (s', r, started) := RunSteps(d, s, steps);
            && started <= steps
            && (r.Ok? ==> started == steps)
            && (|steps| > 0 ==> |started| > 0)
    decreases |steps|
  {
    if |steps| > 0 {
      var (s1, r) := StepSpec(d, s, steps[0]);
      if r.Ok? {
        RunStepsInOrder(d, s1, steps[1..]);
        var (s2, r2, rest) := RunSteps(d, s1, steps[1..]);
        assert steps == [steps[0]] + steps[1..];
        assert RunSteps(d, s, steps) == (s2, r2, [steps[0]] + rest);
        if r2.Ok? {
          assert [steps[0]] + rest == steps;
        }
      }
    }
  }

  /** A deployment starts with validation, ends with the disconnect, and in between runs
      the planned steps in order until one fails; the backup is among the planned steps
      exactly when `shouldBackup` holds. */
  lemma DeployOrder(d: Env, s: Session)
    ensures var (s', r, log) := DeploySpec(d, s);
            var planned := PlannedSteps(ShouldBackup(d.config, d.options));
            && log[0] == Validate && log[|log| - 1] == Disconnect
            && log[..|log| - 1] <= planned
            && (r.Ok? ==> log == planned + [Disconnect])
            && (Backup in planned <==> ShouldBackup(d.config, d.options))
  {
    var planned := PlannedSteps(ShouldBackup(d.config, d.options));
    RunStepsInOrder(d, s, planned);
    var (s1, r, started) := RunSteps(d, s, planned);
    assert (started + [Disconnect])[..|started|] == started;
    assert started[0] == planned[0];
  }

  /** Whatever happens, the connection is closed when `deploy` returns. */
  lemma DeployAlwaysDisconnects(d: Env, s: Session)
    ensures !DeploySpec(d, s).0.connected
  {
  }

  /** A local directory that is missing, empty or not a directory stops the deployment
      before anything reaches the server: the only request is the disconnect of a
      session that was already open. */
  lemma ValidationPrecedesConnection(d: Env, s: Session)
    requires ValidateSpec(d.localPath, d.local).Err?
    ensures DeploySpec(d, s) == (DisconnectSpec(s), ValidateSpec(d.localPath, d.local), [Validate, Disconnect])
  {
    var planned := PlannedSteps(ShouldBackup(d.config, d.options));
    assert planned[0] == Validate;
    assert StepSpec(d, s, Validate) == (s, ValidateSpec(d.localPath, d.local));
    assert RunSteps(d, s, planned) == (s, ValidateSpec(d.localPath, d.local), [Validate]);
    assert [Validate] + [Disconnect] == [Validate, Disconnect];
  }

  lemma {:induction false} HooksKeepFlag(h: Host, s: Session, commands: seq<string>, dry: bool)
    ensures HooksSpec(h, s, commands, dry).0.connected == s.connected
    ensures Puts(HooksSpec(h, s, commands, dry).0.sent) == Puts(s.sent)
    decreases |commands|
  {
    if |commands| > 0 {
      if dry {
        HooksKeepFlag(h, s, commands[1..], dry);
      } else {
        ExecOutcome(s, commands[0], (h.respond(commands[0]), s.fs));
        ExecAddsNoPut(s, commands[0], (h.respond(commands[0]), s.fs));
        var (s1, r) := ExecGiven(h, s, commands[0]);
        HooksKeepFlag(h, s1, commands[1..], dry);
      }
    }
  }

  /** In a dry run the hooks send nothing and change nothing. */
  lemma {:induction false} DryHooksDoNothing(h: Host, s: Session, commands: seq<string>)
    ensures HooksSpec(h, s, commands, true) == (s, Ok(Unit))
    decreases |commands|
  {
    if |commands| > 0 {
      DryHooksDoNothing(h, s, commands[1..]);
    }
  }

  /** One `Exec` per command, in order. */
  function Execs(commands: seq<string>): seq<Request>
    decreases |commands|
  {
    if |commands| == 0 then [] else [Exec(commands[0])] + Execs(commands[1..])
  }

  /** A command the server always answers with an exit code, never with an exec or stream
      error. */
  predicate AlwaysAnswered(h: Host, command: string) {
    h.respond(command).Done?
  }

  lemma AnsweredExec(h: Host, s: Session, command: string)
    requires s.connected && AlwaysAnswered(h, command)
    ensures var (s', r) := ExecGiven(h, s, command);
            r.Ok? && s'.connected && s'.sent == s.sent + [Exec(command)]
  {
  }

  /** On an open connection every hook is sent, in declared order, and exit codes do not
      matter: as long as each command gets an answer the step succeeds, whatever codes
      those answers carry. */
  lemma {:induction false} HooksIgnoreExitCodes(h: Host, s: Session, commands: seq<string>)
    requires s.connected
    requires forall i :: 0 <= i < |commands| ==> AlwaysAnswered(h, commands[i])
    ensures HooksSpec(h, s, commands, false).1.Ok?
    ensures HooksSpec(h, s, commands, false).0.sent == s.sent + Execs(commands)
    decreases |commands|
  {
    if |commands| == 0 {
      assert s.sent + Execs(commands) == s.sent;
    } else {
      AnsweredExec(h, s, commands[0]);
      var (s1, r) := ExecGiven(h, s, commands[0]);
      var rest := commands[1..];
      forall i | 0 <= i < |rest|
        ensures AlwaysAnswered(h, rest[i])
      {
        assert rest[i] == commands[i + 1];
      }
      HooksIgnoreExitCodes(h, s1, rest);
      assert HooksSpec(h, s, commands, false) == HooksSpec(h, s1, rest, false);
      assert Execs(commands) == [Exec(commands[0])] + Execs(rest);
      assert s.sent + Execs(commands) == s1.sent + Execs(rest);
    }
  }

  lemma BackupStepKeepsFlagAndWritesNothing(h: Host, s: Session, target: string, now: string)
    ensures BackupStepSpec(h, s, target, now).0.connected == s.connected
    ensures Puts(BackupStepSpec(h, s, target, now).0.sent) == Puts(s.sent)
  {
    DirExistsAnswers(h, s, target);
    ExecAddsNoPut(s, Render(TestDir(target)), BuiltAnswer(h, s.fs, TestDir(target)));
    var (s1, present) := DirExistsSpec(h, s, target);
    BackupKeepsFlagAndWritesNothing(h, s1, target, BackupName(now));
  }

  /** The backup step is skipped, after one test, when that test does not find the remote
      project directory (it is absent, or the channel fails); when it finds it the tool
      backs it up under `backup-<timestamp>`. */
  lemma BackupStepOutcome(h: Host, s: Session, target: string, now: string)
    requires s.connected
    ensures !Faultless(h, TestDir(target)) || target !in s.fs.dirs ==>
              BackupStepSpec(h, s, target, now) ==
                (s.(sent := s.sent + [Exec(Render(TestDir(target)))]), Ok(Unit))
    ensures Faultless(h, TestDir(target)) && target in s.fs.dirs ==>
              BackupStepSpec(h, s, target, now) ==
                BackupSpec(h, s.(sent := s.sent + [Exec(Render(TestDir(target)))]), target, BackupName(now))
  {
    DirExistsAnswers(h, s, target);
    ExecOutcome(s, Render(TestDir(target)), BuiltAnswer(h, s.fs, TestDir(target)));
  }

  lemma StepKeepsFlagAndPuts(d: Env, s: Session, step: Step)
    requires step != Connect && step != Disconnect && step != Upload
    ensures StepSpec(d, s, step).0.connected == s.connected
    ensures Puts(StepSpec(d, s, step).0.sent) == Puts(s.sent)
  {
    match step {
      case PreDeploy => HooksKeepFlag(d.host, s, d.config.options.preDeploy, IsDryRun(d.options));
      case PostDeploy => HooksKeepFlag(d.host, s, d.config.options.postDeploy, IsDryRun(d.options));
      case Backup => BackupStepKeepsFlagAndWritesNothing(d.host, s, RemoteTarget(d.config), d.now);
      case _ =>
    }
  }

  lemma UploadStepKeepsFlag(d: Env, s: Session)
    ensures StepSpec(d, s, Upload).0.connected == s.connected
    ensures IsDryRun(d.options) ==> StepSpec(d, s, Upload) == (s, Ok(Unit))
  {
    var target := RemoteTarget(d.config);
    EnsureDirKeepsFlag(d.host, s, target);
    var (s1, ready) := EnsureDirSpec(d.host, s, target);
    UploadDirectoryKeepsFlag(d.host, s1, d.localPath, d.local, target);
  }

  /** Once connected, no step up to the end of the `try` block closes the connection. */
  lemma {:induction false} StepsAfterConnectKeepFlag(d: Env, s: Session, steps: seq<Step>)
    requires Connect !in steps && Disconnect !in steps
    ensures RunSteps(d, s, steps).0.connected == s.connected
    decreases |steps|
  {
    if |steps| > 0 {
      if steps[0] == Upload {
        UploadStepKeepsFlag(d, s);
      } else {
        StepKeepsFlagAndPuts(d, s, steps[0]);
      }
      var (s1, r) := StepSpec(d, s, steps[0]);
      if r.Ok? {
        StepsAfterConnectKeepFlag(d, s1, steps[1..]);
      }
    }
  }

  /** The steps after the connection is made, as planned. */
  function StepsAfterConnect(backup: bool): (steps: seq<Step>)
    ensures PlannedSteps(backup) == [Validate, Connect] + steps
    ensures Connect !in steps && Disconnect !in steps
  {
    [PreDeploy] + (if backup then [Backup] else []) + [Upload, PostDeploy, Complete]
  }

  lemma DeployFromClosedSession(d: Env, s: Session)
    requires ValidateSpec(d.localPath, d.local).Ok? && !s.connected && d.host.handshakeError.None?
    ensures var after := StepsAfterConnect(ShouldBackup(d.config, d.options));
            var live := s.(connected := true, sent := s.sent + [Open(d.client)]);
            var (s1, r, started) := RunSteps(d, live, after);
            DeploySpec(d, s) == (DisconnectSpec(s1), r, [Validate, Connect] + started + [Disconnect])
  {
    var after := StepsAfterConnect(ShouldBackup(d.config, d.options));
    var planned := PlannedSteps(ShouldBackup(d.config, d.options));
    var live := s.(connected := true, sent := s.sent + [Open(d.client)]);
    assert planned == [Validate] + ([Connect] + after);
    assert StepSpec(d, s, Validate) == (s, Ok(Unit));
    RunStepsCons(d, s, Validate, [Connect] + after);
    assert StepSpec(d, s, Connect) == (live, Ok(Unit));
    RunStepsCons(d, s, Connect, after);
    var (s1, r, started) := RunSteps(d, live, after);
    assert RunSteps(d, s, planned) == (s1, r, [Validate] + ([Connect] + started));
    assert [Validate] + ([Connect] + started) == [Validate, Connect] + started;
  }

  /** Running a first step and then the rest. */
  lemma RunStepsCons(d: Env, s: Session, step: Step, rest: seq<Step>)
    ensures var (s1, r) := StepSpec(d, s, step);
            RunSteps(d, s, [step] + rest) ==
              if r.Err? then (s1, r, [step])
              else var (s2, r2, started) := RunSteps(d, s1, rest); (s2, r2, [step] + started)
  {
    assert ([step] + rest)[0] == step && ([step] + rest)[1..] == rest;
  }

  /** In a dry run the hooks, the upload and the completion leave the session as it is. */
  lemma {:induction false} DryIdleSteps(d: Env, s: Session, steps: seq<Step>)
    requires IsDryRun(d.options)
    requires forall i :: 0 <= i < |steps| ==> steps[i] in {PreDeploy, Upload, PostDeploy, Complete}
    ensures RunSteps(d, s, steps) == (s, Ok(Unit), steps)
    decreases |steps|
  {
    if |steps| > 0 {
      assert steps == [steps[0]] + steps[1..];
      RunStepsCons(d, s, steps[0], steps[1..]);
      match steps[0] {
        case PreDeploy => DryHooksDoNothing(d.host, s, d.config.options.preDeploy);
        case PostDeploy => DryHooksDoNothing(d.host, s, d.config.options.postDeploy);
        case _ =>
      }
      DryIdleSteps(d, s, steps[1..]);
    }
  }

  /** When validation passes and the server accepts the handshake, a deployment from a
      closed session opens the connection first and closes it last. */
  lemma DeployOpensFirstClosesLast(d: Env, s: Session)
    requires ValidateSpec(d.localPath, d.local).Ok? && !s.connected && d.host.handshakeError.None?
    ensures var s' := DeploySpec(d, s).0;
            && |s'.sent| >= |s.sent| + 2
            && s'.sent[|s.sent|] == Open(d.client)
            && s'.sent[|s'.sent| - 1] == End
  {
    var after := StepsAfterConnect(ShouldBackup(d.config, d.options));
    var live := s.(connected := true, sent := s.sent + [Open(d.client)]);
    DeployFromClosedSession(d, s);
    StepsAfterConnectKeepFlag(d, live, after);
    SentOnlyGrows(d, live, after);
  }

  lemma {:induction false} SentOnlyGrows(d: Env, s: Session, steps: seq<Step>)
    ensures s.sent <= RunSteps(d, s, steps).0.sent
    decreases |steps|
  {
    if |steps| > 0 {
      StepExtendsSent(d, s, steps[0]);
      var (s1, r) := StepSpec(d, s, steps[0]);
      if r.Ok? {
        SentOnlyGrows(d, s1, steps[1..]);
      }
    }
  }

  lemma StepExtendsSent(d: Env, s: Session, step: Step)
    ensures s.sent <= StepSpec(d, s, step).0.sent
  {
    match step {
      case PreDeploy => HooksExtendSent(d.host, s, d.config.options.preDeploy, IsDryRun(d.options));
      case PostDeploy => HooksExtendSent(d.host, s, d.config.options.postDeploy, IsDryRun(d.options));
      case Backup => BackupStepExtendsSent(d.host, s, RemoteTarget(d.config), d.now);
      case Upload => UploadStepExtendsSent(d.host, s, d.localPath, d.local, RemoteTarget(d.config), IsDryRun(d.options));
      case _ =>
    }
  }

  lemma {:induction false} HooksExtendSent(h: Host, s: Session, commands: seq<string>, dry: bool)
    ensures s.sent <= HooksSpec(h, s, commands, dry).0.sent
    decreases |commands|
  {
    if |commands| > 0 {
      if dry {
        HooksExtendSent(h, s, commands[1..], dry);
      } else {
        var (s1, r) := ExecGiven(h, s, commands[0]);
        HooksExtendSent(h, s1, commands[1..], dry);
      }
    }
  }

  lemma ExecExtendsSent(s: Session, line: string, answer: (Reply, RemoteFs))
    ensures s.sent <= ExecReply(s, line, answer).0.sent
  {
  }

  lemma EnsureDirExtendsSent(h: Host, s: Session, path: string)
    ensures s.sent <= EnsureDirSpec(h, s, path).0.sent
  {
    ExecExtendsSent(s, Render(TestDir(path)), BuiltAnswer(h, s.fs, TestDir(path)));
    var (s1, present) := DirExistsSpec(h, s, path);
    ExecExtendsSent(s1, Render(MakeDir(path)), BuiltAnswer(h, s1.fs, MakeDir(path)));
  }

  lemma BackupExtendsSent(h: Host, s: Session, remotePath: string, backupName: string)
    ensures s.sent <= BackupSpec(h, s, remotePath, backupName).0.sent
  {
    ExecExtendsSent(s, Render(TestDir(remotePath)), BuiltAnswer(h, s.fs, TestDir(remotePath)));
    var (s1, present) := DirExistsSpec(h, s, remotePath);
    if present {
      var b := BackupPath(remotePath, backupName);
      ClearExtendsSent(h, s1, b);
      var (s3, cleared) := ClearSpec(h, s1, b);
      if cleared.Ok? {
        CopyExtendsSent(h, s3, remotePath, b);
      }
    }
  }

  lemma CopyExtendsSent(h: Host, s: Session, source: string, target: string)
    ensures s.sent <= CopySpec(h, s, source, target).0.sent
  {
    ExecExtendsSent(s, Render(CopyTree(source, target)), BuiltAnswer(h, s.fs, CopyTree(source, target)));
  }

  lemma ClearExtendsSent(h: Host, s: Session, target: string)
    ensures s.sent <= ClearSpec(h, s, target).0.sent
  {
    ExecExtendsSent(s, Render(TestDir(target)), BuiltAnswer(h, s.fs, TestDir(target)));
    var (s2, stale) := DirExistsSpec(h, s, target);
    ExecExtendsSent(s2, Render(RemoveTree(target)), BuiltAnswer(h, s2.fs, RemoveTree(target)));
  }

  lemma BackupStepExtendsSent(h: Host, s: Session, target: string, now: string)
    ensures s.sent <= BackupStepSpec(h, s, target, now).0.sent
  {
    ExecExtendsSent(s, Render(TestDir(target)), BuiltAnswer(h, s.fs, TestDir(target)));
    var (s1, present) := DirExistsSpec(h, s, target);
    BackupExtendsSent(h, s1, target, BackupName(now));
  }

  /** On an open connection the backup step first tests the remote project directory. */
  lemma BackupStepTestsFirst(h: Host, s: Session, target: string, now: string)
    requires s.connected
    ensures s.sent + [Exec(Render(TestDir(target)))] <= BackupStepSpec(h, s, target, now).0.sent
  {
    ExecOutcome(s, Render(TestDir(target)), BuiltAnswer(h, s.fs, TestDir(target)));
    var (s1, present) := DirExistsSpec(h, s, target);
    BackupExtendsSent(h, s1, target, BackupName(now));
  }

  lemma UploadStepExtendsSent(h: Host, s: Session, localPath: string, local: Option<Entry>, target: string, dry: bool)
    ensures s.sent <= UploadStepSpec(h, s, localPath, local, target, dry).0.sent
  {
    if !dry {
      EnsureDirExtendsSent(h, s, target);
      var (s1, ready) := EnsureDirSpec(h, s, target);
      if ready.Ok? && local.Some? {
        EnsureDirExtendsSent(h, s1, target);
        var (s2, again) := EnsureDirSpec(h, s1, target);
        if again.Ok? && local.value.Dir? {
          EntriesExtendSent(h, s2, local.value.children, localPath, target, 0);
        }
      }
    }
  }

  lemma {:induction false} EntriesExtendSent(h: Host, s: Session, es: seq<Entry>, localDir: string, remoteDir: string, n: nat)
    ensures s.sent <= UploadEntries(h, s, es, localDir, remoteDir, n).0.sent
    decreases es
  {
    if |es| > 0 {
      EntryExtendsSent(h, s, es[0], localDir, remoteDir, n);
      var (after, r) := UploadEntry(h, s, es[0], localDir, remoteDir, n);
      if r.Ok? {
        EntriesExtendSent(h, after, es[1..], localDir, remoteDir, r.value);
      }
    }
  }

  lemma {:induction false} EntryExtendsSent(h: Host, s: Session, e: Entry, localDir: string, remoteDir: string, n: nat)
    ensures s.sent <= UploadEntry(h, s, e, localDir, remoteDir, n).0.sent
    decreases e
  {
    match e {
      case File(name, content) =>
      case Dir(name, cs) =>
        EnsureDirExtendsSent(h, s, ItemPath(remoteDir, name));
        var (s1, ready) := EnsureDirSpec(h, s, ItemPath(remoteDir, name));
        if ready.Ok? {
          EntriesExtendSent(h, s1, cs, PathJoin(localDir, name), ItemPath(remoteDir, name), n);
        }
      case Other(_) =>
    }
  }

  /** A dry run sends no file over SFTP: it makes no `Put`. */
  lemma DryRunUploadsNothing(d: Env, s: Session)
    requires IsDryRun(d.options)
    ensures Puts(DeploySpec(d, s).0.sent) == Puts(s.sent)
  {
    var planned := PlannedSteps(ShouldBackup(d.config, d.options));
    DryStepsWriteNothing(d, s, planned);
    var (s1, r, started) := RunSteps(d, s, planned);
    PutsAppend(s1.sent, [End]);
    assert Puts([End]) == [];
  }

  /** With the backup off as well, a dry run from a closed session that passes validation
      and is accepted by the server succeeds, leaves the server's files as they were, and
      sends only the connection and its end. */
  lemma DryRunWithoutBackupOnlyConnects(d: Env, s: Session)
    requires IsDryRun(d.options) && !ShouldBackup(d.config, d.options)
    requires ValidateSpec(d.localPath, d.local).Ok? && !s.connected && d.host.handshakeError.None?
    ensures DeploySpec(d, s).0.sent == s.sent + [Open(d.client), End]
    ensures DeploySpec(d, s).0.fs == s.fs && DeploySpec(d, s).1.Ok?
  {
    var live := s.(connected := true, sent := s.sent + [Open(d.client)]);
    DeployFromClosedSession(d, s);
    var after := StepsAfterConnect(false);
    assert after == [PreDeploy, Upload, PostDeploy, Complete];
    DryIdleSteps(d, live, after);
  }

  lemma {:induction false} DryStepsWriteNothing(d: Env, s: Session, steps: seq<Step>)
    requires IsDryRun(d.options)
    ensures Puts(RunSteps(d, s, steps).0.sent) == Puts(s.sent)
    decreases |steps|
  {
    if |steps| > 0 {
      var step := steps[0];
      if step == Connect {
        if !s.connected {
          PutsAppend(s.sent, [Open(d.client)]);
          assert Puts([Open(d.client)]) == [];
        }
      } else if step == Disconnect {
        if s.connected {
          PutsAppend(s.sent, [End]);
          assert Puts([End]) == [];
        }
      } else if step == Upload {
        UploadStepKeepsFlag(d, s);
      } else {
        StepKeepsFlagAndPuts(d, s, step);
      }
      var (s1, r) := StepSpec(d, s, step);
      if r.Ok? {
        DryStepsWriteNothing(d, s1, steps[1..]);
      }
    }
  }

  /** A dry run is not a dry run for the connection and the backup: with the backup
      enabled and the handshake accepted, the first command sent tests the remote
      project directory. */
  lemma DryRunStillTestsForBackup(d: Env, s: Session)
    requires IsDryRun(d.options) && ShouldBackup(d.config, d.options)
    requires ValidateSpec(d.localPath, d.local).Ok? && !s.connected && d.host.handshakeError.None?
    ensures var s' := DeploySpec(d, s).0;
            |s'.sent| > |s.sent| + 1 && s'.sent[|s.sent| + 1] == Exec(Render(TestDir(RemoteTarget(d.config))))
  {
    var live := s.(connected := true, sent := s.sent + [Open(d.client)]);
    DeployFromClosedSession(d, s);
    var after := StepsAfterConnect(true);
    var target := RemoteTarget(d.config);
    var withTest := live.sent + [Exec(Render(TestDir(target)))];
    assert withTest <= RunSteps(d, live, after).0.sent by {
      assert after == [PreDeploy] + ([Backup] + after[2..]);
      RunStepsCons(d, live, PreDeploy, [Backup] + after[2..]);
      DryHooksDoNothing(d.host, live, d.config.options.preDeploy);
      RunStepsCons(d, live, Backup, after[2..]);
      BackupStepTestsFirst(d.host, live, target, d.now);
      var (s2, r2) := StepSpec(d, live, Backup);
      SentOnlyGrows(d, s2, after[2..]);
    }
    assert withTest[|s.sent| + 1] == Exec(Render(TestDir(target)));
  }
  /** A dry run with the backup enabled still backs up: the backup step has no dry-run
      guard, so when the test finds the remote project directory and the run succeeds,
      every file beneath that directory has a copy at the backup destination. The
      directory is tested twice with the same line (src/commands/deploy.ts:55, then in
      `backupDirectory`), and the host answers both sends alike, so the second test
      finds it too. */
  lemma DryRunBackupCopies(d: Env, s: Session, f: string)
    requires IsDryRun(d.options) && ShouldBackup(d.config, d.options)
    requires ValidateSpec(d.localPath, d.local).Ok? && !s.connected && d.host.handshakeError.None?
    requires Faultless(d.host, TestDir(RemoteTarget(d.config))) && RemoteTarget(d.config) in s.fs.dirs
    requires f in s.fs.files && Under(RemoteTarget(d.config), f)
    requires DeploySpec(d, s).1.Ok?
    ensures var fs := DeploySpec(d, s).0.fs;
            var copy := Relocate(f, RemoteTarget(d.config), BackupDestination(d.host, s.fs, RemoteTarget(d.config), BackupName(d.now)));
            copy in fs.files && fs.files[copy] == s.fs.files[f]
  {
    var h, target, name := d.host, RemoteTarget(d.config), BackupName(d.now);
    var live := s.(connected := true, sent := s.sent + [Open(d.client)]);
    DeployFromClosedSession(d, s);
    var after := StepsAfterConnect(true);
    var rest := [Upload, PostDeploy, Complete];
    assert after == [PreDeploy] + ([Backup] + rest);
    RunStepsCons(d, live, PreDeploy, [Backup] + rest);
    DryHooksDoNothing(h, live, d.config.options.preDeploy);
    RunStepsCons(d, live, Backup, rest);
    BackupStepOutcome(h, live, target, d.now);
    var tested := live.(sent := live.sent + [Exec(Render(TestDir(target)))]);
    var (s2, r2) := BackupSpec(h, tested, target, name);
    DryIdleSteps(d, s2, rest);
    assert r2.Ok?;
    BackupCopies(h, tested, target, name, f);
  }


  /** Running two lists of steps one after the other is running their concatenation. */
  lemma {:induction false} RunStepsAppend(d: Env, s: Session, a: seq<Step>, b: seq<Step>)
    ensures var (s1, r1, started1) := RunSteps(d, s, a);
            RunSteps(d, s, a + b) ==
              if r1.Err? then (s1, r1, started1)
              else var (s2, r2, started2) := RunSteps(d, s1, b); (s2, r2, started1 + started2)
    decreases |a|
  {
    if |a| == 0 {
      assert a + b == b;
      assert [] + RunSteps(d, s, b).2 == RunSteps(d, s, b).2;
    } else {
      assert (a + b)[0] == a[0] && (a + b)[1..] == a[1..] + b;
      var (s1, r) := StepSpec(d, s, a[0]);
      if r.Ok? {
        RunStepsAppend(d, s1, a[1..], b);
        var (s2, r2, started2) := RunSteps(d, s1, a[1..]);
        if r2.Ok? {
          var (s3, r3, started3) := RunSteps(d, s2, b);
          assert [a[0]] + (started2 + started3) == ([a[0]] + started2) + started3;
        }
      }
    }
  }

  /** Steps other than the upload write nothing over SFTP. */
  lemma {:induction false} OtherStepsWriteNothing(d: Env, s: Session, steps: seq<Step>)
    requires Upload !in steps
    ensures Puts(RunSteps(d, s, steps).0.sent) == Puts(s.sent)
    decreases |steps|
  {
    if |steps| > 0 {
      var step := steps[0];
      if step == Connect {
        if !s.connected {
          PutsAppend(s.sent, [Open(d.client)]);
          assert Puts([Open(d.client)]) == [];
        }
      } else if step == Disconnect {
        if s.connected {
          PutsAppend(s.sent, [End]);
          assert Puts([End]) == [];
        }
      } else {
        StepKeepsFlagAndPuts(d, s, step);
      }
      var (s1, r) := StepSpec(d, s, step);
      if r.Ok? {
        OtherStepsWriteNothing(d, s1, steps[1..]);
      }
    }
  }

  /** A successful upload step that is not a dry run writes exactly the planned files. */
  lemma UploadStepPuts(h: Host, s: Session, localPath: string, local: Option<Entry>, target: string)
    requires UploadStepSpec(h, s, localPath, local, target, false).1.Ok?
    ensures local.Some? && local.value.Dir?
    ensures Puts(UploadStepSpec(h, s, localPath, local, target, false).0.sent)
            == Puts(s.sent) + PlannedPuts(local.value.children, target)
  {
    EnsureDirAddsNoPut(h, s, target);
    var (s1, ready) := EnsureDirSpec(h, s, target);
    var (s2, up) := UploadDirectorySpec(h, s1, localPath, local, target);
    assert UploadStepSpec(h, s, localPath, local, target, false).0 == s2 && up.Ok?;
    UploadDirectoryPuts(h, s1, localPath, local, target);
  }

  /** The upload followed by the post-deploy hooks and the completion, when it all
      succeeds outside a dry run, writes exactly the planned files. */
  lemma UploadAndAfter(d: Env, s: Session)
    requires !IsDryRun(d.options)
    requires RunSteps(d, s, [Upload, PostDeploy, Complete]).1.Ok?
    ensures d.local.Some? && d.local.value.Dir?
    ensures Puts(RunSteps(d, s, [Upload, PostDeploy, Complete]).0.sent)
            == Puts(s.sent) + PlannedPuts(d.local.value.children, RemoteTarget(d.config))
  {
    var after := [PostDeploy, Complete];
    assert [Upload, PostDeploy, Complete] == [Upload] + after;
    RunStepsCons(d, s, Upload, after);
    var (s2, r2) := StepSpec(d, s, Upload);
    assert (s2, r2) == UploadStepSpec(d.host, s, d.localPath, d.local, RemoteTarget(d.config), false);
    UploadStepPuts(d.host, s, d.localPath, d.local, RemoteTarget(d.config));
    OtherStepsWriteNothing(d, s2, after);
  }

  /** A successful deployment that is not a dry run has uploaded every regular file of
      the local directory, depth first in listing order, and written nothing else over
      SFTP. */
  lemma SuccessfulDeployUploadsEverything(d: Env, s: Session)
    requires !IsDryRun(d.options)
    requires DeploySpec(d, s).1.Ok?
    ensures d.local.Some? && d.local.value.Dir?
    ensures Puts(DeploySpec(d, s).0.sent) == Puts(s.sent) + PlannedPuts(d.local.value.children, RemoteTarget(d.config))
  {
    var backup := ShouldBackup(d.config, d.options);
    var before := [Validate, Connect, PreDeploy] + (if backup then [Backup] else []);
    var rest := [Upload, PostDeploy, Complete];
    assert PlannedSteps(backup) == before + rest;
    RunStepsAppend(d, s, before, rest);
    var (s1, r1, started1) := RunSteps(d, s, before);
    OtherStepsWriteNothing(d, s, before);
    UploadAndAfter(d, s1);
    var s3 := RunSteps(d, s1, rest).0;
    PutsAppend(s3.sent, [End]);
    assert Puts([End]) == [];
  }

  // ---------------------------------------------------------------------------------
  // The deployer

  /** The tool is built from the typed server section, whose login field is `userName`:
      `prepareSSHConfig` reads `username`, so the client gets no user name, and since the
      section has no `hostKey` the client gets no host key either (the `sshKey` field is
      not read at all). */
  lemma TypedServerGivesNoUserName(c: EnvironmentConfig)
    ensures PrepareSshConfig(ServerToJs(c.server)).username == Undefined
    ensures PrepareSshConfig(ServerToJs(c.server)).hostKey == None
    ensures PrepareSshConfig(ServerToJs(c.server)).host == Str(c.server.host)
  {
    var v := ServerToJs(c.server);
    assert !HasOwn(v, "hostKey");
  }

  class Deployer {
    const config: EnvironmentConfig
    const options: CliOptions
    const tool: SSHTool
    /** `path.resolve(process.cwd(), config.paths.localDist)` */
    const localPath: string
    /** What the local file system holds at `localPath`. */
    const local: Option<Entry>
    /** The steps `deploy` has started, in order. */
    ghost var started: seq<Step>

    /** Everything the steps depend on, with `now` the ISO time the backup is named after. */
    function EnvAt(now: string): Env {
      Env(tool.host, tool.config, config, options, localPath, local, now)
    }

    /** `new Deployer(config, options)`, run from directory `cwd` against a server with the
        given behaviour and file system. */
    constructor (config: EnvironmentConfig, options: CliOptions, cwd: string, local: Option<Entry>,
                 host: Host, fs: RemoteFs)
      ensures this.config == config && this.options == options && this.local == local
      ensures localPath == ResolvePath(cwd, config.paths.localDist)
      ensures tool.config == PrepareSshConfig(ServerToJs(config.server)) && tool.host == host
      ensures tool.State() == Session(false, fs, [])
      ensures fresh(tool)
    {
      this.config := config;
      this.options := options;
      tool := new SSHTool(ServerToJs(config.server), host, fs);
      localPath := ResolvePath(cwd, config.paths.localDist);
      this.local := local;
    }

    method ValidatePreparation() returns (r: Result<Unit, Error>)
      ensures r == ValidateSpec(localPath, local)
    {
      if local.None? {
        return Err(NewPlainError(LocalDirMissingPrefix + localPath));
      }
      if !local.value.Dir? {
        return Err(NotADirectory(localPath));
      }
      if |local.value.children| == 0 {
        return Err(NewPlainError(EmptyDirPrefix + localPath));
      }
      r := Ok(Unit);
    }

    /** The loop of `executePreDeployCommands` / `executePostDeployCommands`. */
    method ExecuteHooks(commands: seq<string>) returns (r: Result<Unit, Error>)
      modifies tool
      ensures (tool.State(), r) == HooksSpec(tool.host, old(tool.State()), commands, IsDryRun(options))
    {
      var dry := IsDryRun(options);
      for k := 0 to |commands|
        invariant HooksSpec(tool.host, old(tool.State()), commands, dry)
                  == HooksSpec(tool.host, tool.State(), commands[k..], dry)
      {
        assert commands[k..][0] == commands[k] && commands[k..][1..] == commands[k + 1..];
        if !dry {
          ExecGivenIsExec(tool.host, tool.State(), commands[k]);
          var result := tool.ExecuteCommand(Given(commands[k]));
          if result.Err? {
            return Err(result.error);
          }
        }
      }
      r := Ok(Unit);
    }

    method ShouldBackupNow() returns (b: bool)
      ensures b <==> config.options.backup != Some(false) && options.noBackup != Some(true)
    {
      b := config.options.backup != Some(false) && options.noBackup != Some(true);
    }

    method BackupExistingFiles(now: string) returns (r: Result<Unit, Error>)
      modifies tool
      ensures (tool.State(), r) == BackupStepSpec(tool.host, old(tool.State()), RemoteTarget(config), now)
    {
      var remoteProjectPath := RemoteTarget(config);
      var present := tool.DirectoryExists(remoteProjectPath);
      if !present {
        return Ok(Unit);
      }
      r := tool.BackupDirectory(remoteProjectPath, BackupName(now));
    }

    method UploadNewFiles() returns (r: Result<Unit, Error>)
      modifies tool
      ensures (tool.State(), r)
              == UploadStepSpec(tool.host, old(tool.State()), localPath, local, RemoteTarget(config), IsDryRun(options))
    {
      var remotePath := RemoteTarget(config);
      if IsDryRun(options) {
        return Ok(Unit);
      }
      var present := tool.DirectoryExists(remotePath);
      if !present {
        var made := tool.CreateDirectory(remotePath);
        if made.Err? {
          return Err(made.error);
        }
      }
      var uploaded := tool.UploadDirectory(localPath, local, remotePath);
      if uploaded.Err? {
        return Err(uploaded.error);
      }
      r := Ok(Unit);
    }

    /** One statement of the `try` block of `deploy`, or the `finally` disconnect. */
    method RunStep(step: Step, now: string) returns (r: Result<Unit, Error>)
      modifies tool
      ensures (tool.State(), r) == StepSpec(EnvAt(now), old(tool.State()), step)
    {
      match step {
        case Validate => r := ValidatePreparation();
        case Connect => r := tool.Connect();
        case PreDeploy => r := ExecuteHooks(config.options.preDeploy);
        case Backup => r := BackupExistingFiles(now);
        case Upload => r := UploadNewFiles();
        case PostDeploy => r := ExecuteHooks(config.options.postDeploy);
        case Complete => r := Ok(Unit);
        case Disconnect =>
          tool.Disconnect();
          r := Ok(Unit);
      }
    }

    /** The `try` block of `deploy()`: the given statements in order until one throws. */
    method TryBlock(steps: seq<Step>, now: string) returns (r: Result<Unit, Error>)
      modifies this, tool
      ensures var run := RunSteps(EnvAt(now), old(tool.State()), steps);
              tool.State() == run.0 && r == run.1 && started == old(started) + run.2
    {
      ghost var d := EnvAt(now);
      ghost var total := RunSteps(d, tool.State(), steps);
      assert steps[0..] == steps;
      assert old(started) + total.2 == started + total.2;
      for k := 0 to |steps|
        invariant total == (RunSteps(d, tool.State(), steps[k..]).0, RunSteps(d, tool.State(), steps[k..]).1, total.2)
        invariant old(started) + total.2 == started + RunSteps(d, tool.State(), steps[k..]).2
      {
        ghost var s := tool.State();
        ghost var before := started;
        assert steps[k..] == [steps[k]] + steps[k + 1..];
        RunStepsCons(d, s, steps[k], steps[k + 1..]);
        started := started + [steps[k]];
        r := RunStep(steps[k], now);
        if r.Err? {
          return;
        }
        ghost var rest := RunSteps(d, tool.State(), steps[k + 1..]);
        assert before + ([steps[k]] + rest.2) == started + rest.2;
      }
      assert started + [] == started;
      r := Ok(Unit);
    }

    /** `deploy()`: the `try` block, whose backup statement runs only when
        `shouldBackup()` holds; an error it throws is rethrown after the `finally`
        disconnect. */
    method Deploy(now: string) returns (r: Result<Unit, Error>)
      modifies this, tool
      ensures (tool.State(), r, started) == DeploySpec(EnvAt(now), old(tool.State()))
    {
      ghost var d := EnvAt(now);
      ghost var s0 := tool.State();
      var backup := ShouldBackupNow();
      assert backup == ShouldBackup(d.config, d.options);
      started := [];
      r := TryBlock(PlannedSteps(backup), now);
      ghost var run := RunSteps(d, s0, PlannedSteps(backup));
      assert tool.State() == run.0 && r == run.1 && started == run.2;
      started := started + [Disconnect];
      tool.Disconnect();
      assert DeploySpec(d, s0) == (DisconnectSpec(run.0), run.1, run.2 + [Disconnect]);
    }

    method TestConnection() returns (ok: bool)
      modifies tool
      ensures var (s1, c) := ConnectSpec(tool.host, tool.config, old(tool.State()));
              var (s2, e) := ExecGiven(tool.host, s1, TestCommand);
              && (ok <==> c.Ok? && e.Ok? && e.value.success && Contains(e.value.stdout, TestGreeting))
              && tool.State() == (if c.Err? then s1 else if e.Err? then s2 else DisconnectSpec(s2))
    {
      ok := tool.TestConnection();
    }
  }
}
