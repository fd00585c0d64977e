# cl-deploy in Dafny

A model of the core of `@lchhzz/view-deploy` (cl-deploy). This command-line tool builds a
front-end project locally and deploys it to a server over SSH. The model covers these
parts of the tool:

- `IntelligentCommandConverter`, which tells a Unix command from a PowerShell command and
  rewrites one into the other.
- The `PathUtils` helpers.
- The two configuration checkers: `ConfigValidator`, and `ConfigManager.validateConfig` /
  `getSetting`.
- The error classes.
- `SSHTool`: the connection flag, command execution, the directory helpers, single-file and
  recursive upload, and the remote backup.
- The `Deployer` step sequence: validation, connection, hooks, backup, upload, completion,
  and the disconnect that always follows.
- The install and uninstall scripts, which add the `deploy*` scripts to the project's
  package manifest and remove them again.

Modules, one per file:

| module | models |
|---|---|
| `JsValues` | the JavaScript values a loaded configuration or manifest holds: truthiness, `typeof`, own-property reads |
| `Text` | `trim`, `includes`, `startsWith`, `split`/`join` on one character, the `\s` class |
| `Patterns` | the regular expressions of the converter as token sequences, with `test`, `exec` and non-global `replace` |
| `Errors` | `src/types/errors.ts` |
| `ConfigTypes` | the records of `src/types/config.ts` and the objects they load as |
| `PathUtils` | `src/utils/pathUtils.ts` |
| `ConfigValidator` | `src/utils/configValidator.ts` |
| `ConfigManager` | `validateConfig` and `getSetting` of `src/utils/config.ts` |
| `CommandConverter` | `src/utils/intelligent-command-converter.ts` |
| `RemoteShell` | the quoting `ssh.ts` applies to paths, the four shell commands it builds, how a POSIX shell reads them and what they do to the server's files |
| `Ssh` | `SSHTool` of `src/utils/ssh.ts`, as a class over a `Session` value |
| `Deploy` | `Deployer` of `src/commands/deploy.ts`, as a class that owns an `SSHTool` |
| `Setup` | `src/scripts/setup.ts` |
| `Uninstall` | `src/scripts/uninstall.ts` |
| `Wrappers` | `Option`, `Result`, `Unit` |

**Form of the model.** The code that changes state is modelled as classes with `modifies`
clauses:

- `SSHTool` holds the connection flag, the server's file system and the log of requests
  made.
- `Deployer` holds the steps it has started.

Each method is proved equal to a function from the old state to the new state and its
outcome. The properties the source promises are lemmas about those functions. Loops in
the source are `while`/`for` loops with invariants:

- the indicator loops of `detectCommandType`;
- the conversion tables;
- the stream chunks;
- `countFiles` and `uploadRecursive`;
- the `try` block of `deploy`;
- the setup merge;
- the uninstall deletion;
- the `getSetting` walk;
- the upward search of `getProjectRoot`.

**What the environment supplies.** Everything the tool cannot see is a parameter:

- the handshake result, the SFTP start-up error, the server's replies to commands the
  tool does not build, and the channel failure (an exec callback error or a stream
  'error' event), if any, for each command line it does build (`Ssh.Host`);
- the server's file system (`RemoteShell.RemoteFs`), which the four built commands act on;
- the local directory tree (`Ssh.Entry`);
- the working directory, `INIT_CWD`, and the `existsSync`/`resolve(d, '..')` answers;
- the clock's ISO timestamp;
- the value `JSON.parse` gives for a manifest or settings file.

**Regular expressions.** Every pattern in the converter's tables has one shape: a literal,
then items that either end where the next item must start with a character they cannot
consume, or are followed only by items that may match the empty string. For such patterns
JavaScript's backtracking matcher finds the same match, with the same groups, as a greedy
matcher that never goes back. `Patterns.MatchTokens` is that greedy matcher.

**Behaviour kept as the code has it:**

- `prepareSSHConfig` (`src/utils/ssh.ts:49`) and `validateConfig` (`src/utils/config.ts:86`)
  read `username`. The declared field is `userName` (`src/types/config.ts:10`). A typed
  configuration therefore gives the client no user name, and `validateConfig` always
  reports it missing (`Deploy.TypedServerGivesNoUserName`,
  `ConfigManager.DeclaredUserNameIsNeverSeen`).
- `uploadDirectory` escapes an item's remote path when it builds it
  (`src/utils/ssh.ts:308`). `uploadFile` escapes the path again before handing it to SFTP
  (`src/utils/ssh.ts:229`), which goes through no shell. A file is written under its own
  name exactly when neither the name nor the directory holds `"`, `$`, a backquote or a
  backslash (`Ssh.UploadTargetKeepsNameIffPlain`).
- `validateConfig` requires a password even when a key is given, although
  `validateServerConfig` accepts a key alone (`ConfigManager.KeyWithoutPasswordRejectedHere`).
- A dry run still connects. With the backup enabled it still tests for the remote
  directory (`Deploy.DryRunStillTestsForBackup`), and the backup step, which has no dry-run
  guard, deletes an earlier backup and copies the whole remote project
  (`Deploy.DryRunBackupCopies`, which takes the second test of the remote directory,
  inside `backupDirectory`, to answer as the first did). Only the upload and the hooks
  are skipped.
- `directoryExists` swallows every error and answers false. A channel failure on the test of
  the source makes `backupDirectory` skip the backup and report success
  (`Ssh.BackupSkippedUnlessFound`); one on the test of the backup path leaves an earlier
  backup in place, so the copy lands inside it.

## Model

| member | source | states |
|---|---|---|
| JsValues.Prop | src/utils/configValidator.ts:46 | a property read of a missing key, or of a value with no own properties, gives `undefined` |
| JsValues.ArrayIndex | src/utils/config.ts:114 | only a canonical decimal name (no leading zero) denotes an array index |
| JsValues.NonEmptyStringIsTruthyString | src/utils/configValidator.ts:46 | `!x \|\| typeof x !== 'string'` fails exactly for a non-empty string |
| Text.Count | src/utils/pathUtils.ts:45 | the count of a character is at most the length, and zero exactly when it is absent |
| Text.CountAppend | src/utils/pathUtils.ts:45 | the count of a concatenation is the sum of the counts |
| Text.ContainsCharIsMembership | src/scripts/setup.ts:19 | `includes` of one character is membership |
| Text.TrimIsInfix | src/utils/ssh.ts:143-144 | `trim` removes only white space at both ends; what it keeps neither starts nor ends with white space |
| Text.TrimOfTrimmed | src/utils/ssh.ts:143-144 | trimming a text with no white space at either end leaves it unchanged |
| Text.Split | src/utils/config.ts:111 | `split` on one character gives one more piece than there are separators, and no piece holds the separator |
| Text.JoinSplit | src/utils/config.ts:111 | joining the pieces with the separator gives back the string |
| Text.PrefixBefore | src/scripts/setup.ts:21-22 | `s.split(w)[0]` is a prefix of `s` followed by `w` when `w` occurs, and all of `s` otherwise |
| Patterns.RunEnd | src/utils/intelligent-command-converter.ts:80-101 | a greedy run takes every class character from the start and stops at the first that is not one |
| Patterns.MatchTokens | src/utils/intelligent-command-converter.ts:80-101 | a match of a token sequence never ends before its start or past the text |
| Patterns.Exec | src/utils/intelligent-command-converter.ts:103-108 | the match found is the leftmost: the pattern matches at its start with its end and groups and at no earlier index; an anchored pattern matches only at index 0; no match means the pattern matches at no index it may start at |
| Patterns.SearchFrom | src/utils/intelligent-command-converter.ts:103-108 | the match found from an index is the leftmost one from there: the pattern matches at its start and at no earlier index from there; no match means it matches at no index from there on |
| Patterns.Replace | src/utils/intelligent-command-converter.ts:105 | a non-global `replace` with no match returns the text unchanged |
| Patterns.ExpandPlain | src/utils/intelligent-command-converter.ts:80-101 | a replacement without `$` is inserted literally |
| Errors.NewPlainError | src/utils/config.ts:92 | `new Error` has name `Error`, the message, and no code |
| Errors.NewTypeError | src/utils/config.ts:85 | a property read of `undefined`/`null` throws a `TypeError` with no code |
| Errors.NewBaseError | src/types/errors.ts:4-10 | the name is the class name, and the code is whatever was passed |
| Errors.NewError | src/types/errors.ts:15-55 | the name is the subclass name; a given non-empty code is kept and an absent or empty one is replaced by the class default, so the code is never empty |
| Errors.NewCommandError | src/types/errors.ts:60-64 | the exit code is stored apart from the code, and the code defaults to `COMMAND_ERROR` |
| Errors.DefaultCodesDistinct | src/types/errors.ts:17-62 | different subclasses have different default codes |
| Errors.ClassNamesDistinct | src/types/errors.ts:7 | different classes have different names |
| Errors.ExplicitCodeKept | src/types/errors.ts:17-53 | a code passed by a validator is kept as it is |
| ConfigTypes.WithOptional | src/types/config.ts:8-13 | an optional field that is absent is not a key of the object |
| ConfigTypes.StrArray | src/types/config.ts:33-35 | a string list loads as an array with the same strings in order |
| ConfigTypes.ServerToJs | src/types/config.ts:4-14 | a typed server section loads as an object whose keys are `host`, `userName` and exactly the optional fields given, each holding its value, and never `username` |
| ConfigTypes.PathsToJs | src/types/config.ts:19-26 | a typed paths section loads as an object with its three strings |
| ConfigTypes.OptionsToJs | src/types/config.ts:31-40 | a typed options section loads as an object with two string arrays and the optional flags |
| ConfigTypes.EnvironmentToJs | src/types/config.ts:45-54 | a typed configuration loads as an object whose sections are the loaded sections |
| PathUtils.ToPlatformPath | src/utils/pathUtils.ts:7-9 | every `/` and `\` becomes the platform separator, and every other character is kept in place |
| PathUtils.ToUnixPath | src/utils/pathUtils.ts:14-16 | every backslash becomes `/`, and every other character is kept in place |
| PathUtils.ToWindowsPath | src/utils/pathUtils.ts:21-23 | every `/` becomes a backslash, and every other character is kept in place |
| PathUtils.ToUnixPathProperties | src/utils/pathUtils.ts:14-16 | a Unix path has no backslash, and converting it again changes nothing |
| PathUtils.ToWindowsPathHasNoSlash | src/utils/pathUtils.ts:21-23 | a Windows path has no `/` |
| PathUtils.PlatformPathMatchesFixedConversions | src/utils/pathUtils.ts:7-23 | the platform conversion with `/` or `\` agrees with composing the two fixed conversions |
| PathUtils.NormalizeRemotePath | src/utils/pathUtils.ts:28-39 | for a non-Windows server the result is the Unix path; for Windows it holds no `/` |
| PathUtils.NormalizeWindowsAddsDrive | src/utils/pathUtils.ts:30-35 | a Windows path without `:` gets the drive `C:` in front, and backslash separators |
| PathUtils.NormalizeWindowsKeepsDrive | src/utils/pathUtils.ts:30-35 | a path with a drive only has its separators changed |
| PathUtils.EscapePath | src/utils/pathUtils.ts:44-52 | the escaped path is longer by one per `'`, plus one per `$` for PowerShell |
| PathUtils.EscapedStart | src/utils/pathUtils.ts:44-52 | an escaped path never starts with a bare `$` (PowerShell) or a single `'` |
| PathUtils.EscapePathRoundTrip | src/utils/pathUtils.ts:44-52 | escaping loses nothing: unescaping gives back the path |
| PathUtils.DetectPathFormat | src/utils/pathUtils.ts:57-65 | `windows` iff there is a backslash; `unix` iff there is `/` and no backslash; `unknown` iff there is neither |
| PathUtils.ConvertedFormats | src/utils/pathUtils.ts:14-65 | a converted path holding a separator is detected as the format it was converted to |
| ConfigValidator.Invalid | src/utils/configValidator.ts:47 | a validation failure is a `ValidationError` with the given code |
| ConfigValidator.ConfigFailure | src/utils/configValidator.ts:134-140 | a configuration failure is a `ConfigError` with the given code |
| ConfigValidator.ValidateServerConfig | src/utils/configValidator.ts:40-71 | succeeds iff the server section is acceptable; every failure is a `ValidationError` with a `SERVER_` code |
| ConfigValidator.ValidatePathConfig | src/utils/configValidator.ts:77-96 | succeeds iff all three paths are non-empty strings; every failure has a `PATH_` code |
| ConfigValidator.ValidateDeployOptions | src/utils/configValidator.ts:102-126 | succeeds iff the hook lists are absent or arrays and the flags absent or booleans; every failure has an `OPTIONS_` code |
| ConfigValidator.ValidateEnvironmentConfig | src/utils/configValidator.ts:14-34 | succeeds iff the configuration is acceptable, returning the very object; every failure has a per-configuration code |
| ConfigValidator.ValidateEach | src/utils/configValidator.ts:143 | succeeds iff every element is acceptable; otherwise the error is that of the first failing element |
| ConfigValidator.Names | src/utils/configValidator.ts:146 | the names list holds each configuration's `name`, in order |
| ConfigValidator.ValidateEnvironmentConfigs | src/utils/configValidator.ts:133-153 | succeeds iff the input is a non-empty array of acceptable configurations with pairwise distinct names, returning the elements; a non-array fails with ConfigError `CONFIGS_NOT_ARRAY`, an empty array with ConfigError `CONFIGS_EMPTY`, an invalid element with that element's own error, and repeated names of valid elements with ValidationError `CONFIG_NAMES_DUPLICATE` |
| ConfigValidator.SetSizeDetectsDuplicates | src/utils/configValidator.ts:147 | a `Set` of the names is as large as the list exactly when no name repeats |
| ConfigValidator.NameCheckedFirst | src/utils/configValidator.ts:20-22 | a bad name is reported before anything else |
| ConfigValidator.ServerCheckOrder | src/utils/configValidator.ts:46-70 | the first failing server check (host, port, user, authentication, then a truthy `sshKey` that is not a string) names the error |
| ConfigValidator.PathCheckOrder | src/utils/configValidator.ts:82-95 | the first failing path check (localDist, remotePath, projectName) names the error |
| ConfigValidator.DuplicateCodeIsNotElementCode | src/utils/configValidator.ts:149 | the duplicate-name code is not a per-configuration code |
| ConfigValidator.ElementErrorsBeforeDuplicates | src/utils/configValidator.ts:143-150 | an invalid element is reported, never a duplicate name |
| ConfigValidator.TypedServerAccepted | src/utils/configValidator.ts:40-71 | a typed server section is accepted iff host and user are non-empty, the port is absent or in 1..65535, and a password or key is non-empty |
| ConfigValidator.TypedPathsAccepted | src/utils/configValidator.ts:77-96 | typed paths are accepted iff all three are non-empty |
| ConfigValidator.TypedOptionsAccepted | src/utils/configValidator.ts:102-126 | typed options are always accepted |
| ConfigValidator.TypedConfigAccepted | src/utils/configValidator.ts:14-34 | a typed configuration is accepted iff its name, host, user and three paths are non-empty, the port is in range, and a password or key is given |
| ConfigManager.Unmet | src/utils/config.ts:83-89 | at most one message per requirement |
| ConfigManager.UnmetOnlyFrom | src/utils/config.ts:85-89 | every message collected is one of the five requirements' messages |
| ConfigManager.UnmetMembership | src/utils/config.ts:85-89 | a requirement's message is collected iff the requirement is not met |
| ConfigManager.ServerMessages | src/utils/config.ts:85-87 | the three server checks collect the messages of the unmet server requirements, in order |
| ConfigManager.PathMessages | src/utils/config.ts:88-89 | the two path checks add the messages of the unmet path requirements |
| ConfigManager.ValidateConfig | src/utils/config.ts:82-94 | a missing configuration or section throws a `TypeError` at the first read; otherwise it fails iff a message was collected, with all of them joined after the prefix |
| ConfigManager.MessagePerEmptyField | src/utils/config.ts:85-89 | each of the five messages is reported exactly when its field is falsy |
| ConfigManager.DeclaredUserNameIsNeverSeen | src/utils/config.ts:86 | a configuration with the declared `userName` field always fails for the user name |
| ConfigManager.KeyWithoutPasswordRejectedHere | src/utils/config.ts:87 | a configuration the validator accepts with a key but no password is rejected here |
| ConfigManager.GetSetting | src/utils/config.ts:107-119 | the loop's result is the dotted-key walk over the split key |
| ConfigManager.AbsentSegmentSkipped | src/utils/config.ts:114 | a segment the current value lacks is skipped, and the walk goes on from the same value |
| ConfigManager.NonObjectIsFinal | src/utils/config.ts:114 | once the value is falsy or not an object, it is the result |
| ConfigManager.PlainKeyReadsOneProperty | src/utils/config.ts:111-115 | a key without dots reads one property |
| ConfigManager.LookupNested | src/utils/config.ts:112-115 | following a list of names through the object nested along them reaches the leaf |
| ConfigManager.SplitJoinedKey | src/utils/config.ts:111 | splitting at `.` a key made of names without dots gives the names back |
| ConfigManager.DottedKeyReachesNested | src/utils/config.ts:107-117 | a dotted key of any number of dot-free names reaches the value nested under those names in turn |
| CommandConverter.DetectCommandType | src/utils/intelligent-command-converter.ts:26-59 | Windows iff no Unix indicator and some Windows indicator matches; Unix otherwise |
| CommandConverter.AnyMatches | src/utils/intelligent-command-converter.ts:49-58 | the loop finds a match iff some pattern in the list matches |
| CommandConverter.WordAtStartMeaning | src/utils/intelligent-command-converter.ts:27 | `/^word\b/` matches iff the command starts with the word and no word character follows it |
| CommandConverter.ApplyFirstIsFirstMatch | src/utils/intelligent-command-converter.ts:103-108 | only the first matching table entry rewrites the command; with no match it is unchanged |
| CommandConverter.EscapePs | src/utils/intelligent-command-converter.ts:115 | escaping never shortens the text |
| CommandConverter.UnixToWindows | src/utils/intelligent-command-converter.ts:76-117 | the result is the wrapped, escaped table rewrite with its drive and separator conversions |
| CommandConverter.WindowsToUnix | src/utils/intelligent-command-converter.ts:122-156 | the result is the unwrapped text, rewritten by every table entry, with drive and separator conversions |
| CommandConverter.ConvertCommandByType | src/utils/intelligent-command-converter.ts:64-71 | dispatches on source and target type |
| CommandConverter.WrappedKeptForWindows | src/utils/intelligent-command-converter.ts:7-9 | a command that, trimmed, starts with the PowerShell wrapper comes back unchanged when Windows is the target |
| CommandConverter.ConvertCommand | src/utils/intelligent-command-converter.ts:5-21 | an already wrapped command is kept when the target is Windows; otherwise detection, identity or conversion |
| CommandConverter.EscapePsRoundTrip | src/utils/intelligent-command-converter.ts:115 | removing the backtick before each escaped `"`, backtick and `$` gives back the text: the escape loses nothing |
| CommandConverter.EscapePsGuardsQuotes | src/utils/intelligent-command-converter.ts:115-116 | every `"` and `$` of the escaped text is preceded by a backtick |
| CommandConverter.EscapePsAddsNoSlash | src/utils/intelligent-command-converter.ts:115 | escaping adds no `/` |
| CommandConverter.UnixToWindowsShape | src/utils/intelligent-command-converter.ts:111-116 | a converted command is the wrapper around an escaped body that holds no `/`, and the escape of the body can be undone |
| CommandConverter.WrappedIsRecognised | src/utils/intelligent-command-converter.ts:7 | a wrapped command is its own trim and matches the PowerShell prefix test |
| CommandConverter.OpeningIsPowerShell | src/utils/intelligent-command-converter.ts:7 | any text starting with the wrapper opening passes the prefix test |
| CommandConverter.OpeningIsStripped | src/utils/intelligent-command-converter.ts:126 | the wrapper-removal pattern consumes exactly the wrapper opening |
| CommandConverter.StripWrapperUndoesWrap | src/utils/intelligent-command-converter.ts:126-128 | removing the wrapper gives back the wrapped body |
| CommandConverter.WindowsToUnixOfWrapped | src/utils/intelligent-command-converter.ts:122-156 | converting a wrapped command back starts from the very body that was wrapped |
| CommandConverter.ConvertToWindowsIdempotent | src/utils/intelligent-command-converter.ts:5-9 | converting to Windows twice is converting once |
| CommandConverter.ConvertIdentityCases | src/utils/intelligent-command-converter.ts:15-17 | no target, a matching detected type, or a Unix target for a command with no PowerShell indicator leaves the command unchanged |
| CommandConverter.ConvertToUnixHasNoBackslash | src/utils/intelligent-command-converter.ts:152-153 | a PowerShell command converted to Unix holds no backslash |
| RemoteShell.ShellEscape | src/utils/ssh.ts:176 | the escaped path is longer by one per special character |
| RemoteShell.EscapeAppend | src/utils/ssh.ts:176 | escaping distributes over concatenation |
| RemoteShell.EscapeIsIdentityIffPlain | src/utils/ssh.ts:176 | escaping changes a path iff it holds `"`, `$`, a backquote or a backslash |
| RemoteShell.EscapeKeepsSlashes | src/utils/ssh.ts:176 | escaping adds and removes no `/` |
| RemoteShell.ReadQuoted | src/utils/ssh.ts:177 | a quoted word read by the shell ends within the text |
| RemoteShell.ReadEscaped | src/utils/ssh.ts:176-177 | the shell reads an escaped path inside double quotes back as the original path |
| RemoteShell.WordAtQuote | src/utils/ssh.ts:357 | a quoted path in the middle of a command line is read back as that path |
| RemoteShell.RenderTestDir | src/utils/ssh.ts:177 | the directory-test line is read as the test of that path |
| RemoteShell.RenderMakeDir | src/utils/ssh.ts:192 | the `mkdir -p` line is read as the creation of that path |
| RemoteShell.RenderRemoveTree | src/utils/ssh.ts:352 | the `rm -rf` line is read as the removal of that path |
| RemoteShell.RenderCopyTree | src/utils/ssh.ts:357 | the `cp -r` line is read as the copy between those two paths |
| RemoteShell.ParseRender | src/utils/ssh.ts:176-357 | every command line the tool builds is read as the command it was built from, whatever its paths hold |
| RemoteShell.LastSlash | src/utils/ssh.ts:192 | the index found is the last `/`, or -1 when there is none |
| RemoteShell.RelocateInjective | src/utils/ssh.ts:357 | distinct files beneath the source are copied to distinct places |
| RemoteShell.TestDirReports | src/utils/ssh.ts:177 | the test changes nothing and exits 0 iff the directory exists |
| RemoteShell.RemoveClears | src/utils/ssh.ts:352 | `rm -rf` leaves nothing at or beneath the path and keeps everything else |
| RemoteShell.Basename | src/utils/ssh.ts:357 | the last component of a path is the suffix after its last `/`, and holds no `/` |
| RemoteShell.CopyDuplicates | src/utils/ssh.ts:357 | `cp -r a b` copies every file beneath `a`, with its contents, to the same place beneath `b`, or beneath `b/<last component of a>` when `b` is already a directory, and keeps the original |
| Ssh.ConnectionConfigFields | src/utils/ssh.ts:45-57 | the port falls back to 22 iff it is falsy; the user is read from `username`; a host key only when given; a 30 s timeout |
| Ssh.ConnectOutcome | src/utils/ssh.ts:62-93 | connecting while connected does nothing; otherwise it connects iff the handshake succeeds, and reports success iff connected |
| Ssh.DisconnectOutcome | src/utils/ssh.ts:98-103 | afterwards the flag is down, and a second disconnect changes nothing |
| Ssh.Collect | src/utils/ssh.ts:129-138 | the collected output is the chunks' texts in arrival order |
| Ssh.ExecGivenIsExec | src/utils/ssh.ts:115-168 | a given command line is executed like any other |
| Ssh.ExecOutcome | src/utils/ssh.ts:115-168 | refused without a connection; otherwise sent once, and a reply gives a result with the exit code, trimmed streams and `success` iff code 0 |
| Ssh.DirExistsAnswers | src/utils/ssh.ts:173-182 | the answer is true iff connected, the channel of the test does not fail, and the directory exists; the files and the flag are unchanged |
| Ssh.ExistsPrinted | src/utils/ssh.ts:178 | the test's output for a present directory contains `exists` |
| Ssh.NothingPrinted | src/utils/ssh.ts:178 | the test's output for an absent directory does not contain `exists` |
| Ssh.CreateDirOutcome | src/utils/ssh.ts:187-199 | rejects with the channel's error when the channel fails; succeeds iff the channel does not fail, no file stands at the path or at a directory on the way to it and the path is a directory already or may be created; then the directory and all its ancestors exist |
| Ssh.UploadFileOutcome | src/utils/ssh.ts:204-262 | fails without a connection or without the local file; a success leaves the content at the escaped remote path |
| Ssh.CountFiles | src/utils/ssh.ts:280-295 | the loop counts the regular files of the tree |
| Ssh.PutsAppend | src/utils/ssh.ts:230 | the SFTP writes of a concatenation are those of its parts |
| Ssh.ExecAddsNoPut | src/utils/ssh.ts:115-168 | executing a command writes nothing over SFTP |
| Ssh.EnsureDirAddsNoPut | src/utils/ssh.ts:322-324 | making sure of a directory writes nothing over SFTP |
| Ssh.UploadFileAddsItsPut | src/utils/ssh.ts:204-262 | an upload adds at most its own write, and exactly that one on success |
| Ssh.UploadEntriesProgress | src/utils/ssh.ts:303-329 | the walk's writes are always a prefix of the planned depth-first writes, all of them on success, and the count grows by the file count |
| Ssh.UploadEntryProgress | src/utils/ssh.ts:306-328 | the same for one entry |
| Ssh.UploadDirectoryCount | src/utils/ssh.ts:267-333 | a missing directory fails with its message; on success the count reported is `countFiles` |
| Ssh.UploadTargetKeepsNameIffPlain | src/utils/ssh.ts:229-230 | a file is written under its own path iff neither directory nor name holds a special character |
| Ssh.SpecialDirectoryNameIsChanged | src/utils/ssh.ts:308 | a subdirectory named with a special character gets a different remote path |
| Ssh.ClearOutcome | src/utils/ssh.ts:350-353 | clearing tests the backup path and removes it when the test sees it; it fails iff the channel of that `rm -rf` fails, with the channel's error; a directory stays at the path exactly when one was there and the test missed it or its removal failed or was refused; everything outside it is kept |
| Ssh.CopyOutcome | src/utils/ssh.ts:357-361 | the copy is sent once; a failing channel rejects with its error and changes nothing; otherwise it succeeds iff the shell's copy does |
| Ssh.BackupCommands | src/utils/ssh.ts:338-364 | a backup sends the source test, and when that test finds the source the backup-path test, `rm -rf` when that test sees the path, then `cp -r` unless the `rm -rf` channel failed |
| Ssh.BackupSkippedUnlessFound | src/utils/ssh.ts:341-345 | when the source test does not find the source, because it is absent or the channel fails, the backup stops after that test and reports success |
| Ssh.BackupPathIsApart | src/utils/ssh.ts:347 | nothing beneath a directory is beneath its backup path |
| Ssh.BackupReachesCopy | src/utils/ssh.ts:338-364 | a backup of a source the test finds ends with the clearing's channel error or else with the copy, on a connected session that kept every file outside the backup path and has a directory at the backup path exactly when an earlier one there was missed by the test or could not be removed |
| Ssh.BackupCopies | src/utils/ssh.ts:338-364 | a successful backup of a source the test finds holds a copy of every file of the source, with the same contents, at the backup path, or nested beneath it under the source's last component when an earlier backup there was missed by the test or could not be removed |
| Ssh.EnsureDirKeepsFlag | src/utils/ssh.ts:275-277 | making sure of a directory does not change the connection |
| Ssh.UploadEntriesKeepFlag | src/utils/ssh.ts:303-329 | the upload walk does not change the connection |
| Ssh.UploadEntryKeepsFlag | src/utils/ssh.ts:306-328 | one upload entry does not change the connection |
| Ssh.UploadDirectoryKeepsFlag | src/utils/ssh.ts:267-333 | a directory upload does not change the connection |
| Ssh.UploadDirectoryPuts | src/utils/ssh.ts:267-333 | a successful directory upload writes exactly the planned files, in order |
| Ssh.BackupKeepsFlagAndWritesNothing | src/utils/ssh.ts:338-364 | a backup keeps the connection and writes nothing over SFTP |
| Ssh.SSHTool.constructor | src/utils/ssh.ts:37-40 | a new tool is disconnected, has sent nothing, and has the prepared client options |
| Ssh.SSHTool.Connect | src/utils/ssh.ts:62-93 | the new session and outcome are those of the connect specification |
| Ssh.SSHTool.Closed | src/utils/ssh.ts:85-88 | the client's `close` event lowers the flag and changes nothing else |
| Ssh.SSHTool.Disconnect | src/utils/ssh.ts:98-103 | the new session is the disconnect specification |
| Ssh.SSHTool.IsConnected | src/utils/ssh.ts:108-110 | returns the flag |
| Ssh.SSHTool.Destroy | src/utils/ssh.ts:383-388 | `destroy` is a disconnect |
| Ssh.SSHTool.ExecuteCommand | src/utils/ssh.ts:115-168 | the new session and outcome are those of the exec specification |
| Ssh.SSHTool.DirectoryExists | src/utils/ssh.ts:173-182 | the new session and answer are those of the directory test |
| Ssh.SSHTool.CreateDirectory | src/utils/ssh.ts:187-199 | the new session and outcome are those of `mkdir -p` |
| Ssh.SSHTool.EnsureDirectory | src/utils/ssh.ts:275-277 | test, then create when missing |
| Ssh.SSHTool.UploadFile | src/utils/ssh.ts:204-262 | the new session and outcome are those of the single-file upload |
| Ssh.SSHTool.UploadRecursive | src/utils/ssh.ts:303-329 | the loop follows the walk specification entry by entry |
| Ssh.SSHTool.UploadDirectory | src/utils/ssh.ts:267-333 | follows the directory upload specification, and a success reports `countFiles` |
| Ssh.SSHTool.ClearBackupPath | src/utils/ssh.ts:350-353 | follows the clearing specification |
| Ssh.SSHTool.CopyToBackup | src/utils/ssh.ts:357-361 | follows the copy specification |
| Ssh.SSHTool.BackupDirectory | src/utils/ssh.ts:338-364 | follows the backup specification |
| Ssh.SSHTool.TestConnection | src/utils/ssh.ts:369-378 | true iff the connection and the echo succeed and the greeting is printed; disconnects only after a successful echo |
| Deploy.DashSeparators | src/commands/deploy.ts:62 | every `:` and `.` becomes `-`, and every other character is kept in place |
| Deploy.BackupNameIsPlain | src/commands/deploy.ts:62-63 | the backup name is `backup-` plus the timestamp's length, with no `:`, no `.` and no new `/` |
| Deploy.ValidateAcceptsNonEmptyDirectory | src/commands/deploy.ts:189-203 | validation passes iff the local directory exists and lists an entry, with the source's messages otherwise |
| Deploy.RunStepsInOrder | src/commands/deploy.ts:155-176 | the steps started are a non-empty prefix of the plan, and all of it on success |
| Deploy.DeployOrder | src/commands/deploy.ts:150-183 | a deployment starts with validation and ends with the disconnect; the backup is planned iff `shouldBackup` holds |
| Deploy.DeployAlwaysDisconnects | src/commands/deploy.ts:179-182 | whatever happens, the connection is closed at the end |
| Deploy.ValidationPrecedesConnection | src/commands/deploy.ts:155-158 | failing validation reaches no server: its error is rethrown after the disconnect |
| Deploy.HooksKeepFlag | src/commands/deploy.ts:23-40 | the hooks keep the connection and write nothing over SFTP |
| Deploy.DryHooksDoNothing | src/commands/deploy.ts:32 | in a dry run the hooks do nothing |
| Deploy.HooksIgnoreExitCodes | src/commands/deploy.ts:29-38 | every hook is sent in order, and non-zero exit codes do not fail the step |
| Deploy.BackupStepKeepsFlagAndWritesNothing | src/commands/deploy.ts:51-66 | the backup step keeps the connection and writes nothing over SFTP |
| Deploy.BackupStepOutcome | src/commands/deploy.ts:51-66 | a remote directory the test does not find (absent, or the channel fails) is skipped after one test; one it finds is backed up under `backup-<timestamp>` |
| Deploy.StepKeepsFlagAndPuts | src/commands/deploy.ts:155-176 | steps other than connect, upload and disconnect keep the connection and write nothing |
| Deploy.UploadStepKeepsFlag | src/commands/deploy.ts:70-91 | the upload keeps the connection, and in a dry run does nothing |
| Deploy.StepsAfterConnectKeepFlag | src/commands/deploy.ts:160-176 | no step after the connection closes it |
| Deploy.StepsAfterConnect | src/commands/deploy.ts:155-176 | the plan is validation, connection, then steps that neither connect nor disconnect |
| Deploy.DeployFromClosedSession | src/commands/deploy.ts:150-183 | from a closed session that validates and is accepted, the deployment connects and then runs the remaining steps |
| Deploy.DryIdleSteps | src/commands/deploy.ts:32-120 | in a dry run the hooks, the upload and the completion change nothing |
| Deploy.DeployOpensFirstClosesLast | src/commands/deploy.ts:155-182 | the first request is the connection and the last is its end |
| Deploy.SentOnlyGrows | src/commands/deploy.ts:155-176 | requests are only appended |
| Deploy.BackupStepTestsFirst | src/commands/deploy.ts:55 | the backup step first tests the remote directory |
| Deploy.DryRunUploadsNothing | src/commands/deploy.ts:77-82 | a dry run sends no file over SFTP |
| Deploy.DryRunWithoutBackupOnlyConnects | src/commands/deploy.ts:150-183 | a dry run without backup only connects and disconnects, and changes no remote file |
| Deploy.DryRunStillTestsForBackup | src/commands/deploy.ts:165-167 | with backup enabled, a dry run still sends the remote directory test |
| Deploy.DryRunBackupCopies | src/commands/deploy.ts:165-167 | with backup enabled, a successful dry run whose test finds the remote directory still leaves a copy of every file beneath it at the backup destination; the second test of the same line, inside `backupDirectory`, is taken to answer as the first did |
| Deploy.RunStepsAppend | src/commands/deploy.ts:155-176 | running two step lists in turn is running their concatenation |
| Deploy.OtherStepsWriteNothing | src/commands/deploy.ts:155-176 | only the upload step writes files |
| Deploy.UploadStepPuts | src/commands/deploy.ts:70-91 | a successful upload step writes exactly the planned files |
| Deploy.UploadAndAfter | src/commands/deploy.ts:168-176 | the upload, the post-deploy hooks and the completion write exactly the planned files |
| Deploy.SuccessfulDeployUploadsEverything | src/commands/deploy.ts:150-183 | a successful deployment that is not a dry run uploads every local file, depth first in listing order, and nothing else |
| Deploy.TypedServerGivesNoUserName | src/utils/ssh.ts:45-57 | a typed server section gives the client no user name and no host key |
| Deploy.Deployer.constructor | src/commands/deploy.ts:15-18 | the deployer keeps the configuration and the flags, and its tool is new and disconnected |
| Deploy.Deployer.ValidatePreparation | src/commands/deploy.ts:189-203 | follows the validation specification |
| Deploy.Deployer.ExecuteHooks | src/commands/deploy.ts:23-40 | the loop follows the hooks specification |
| Deploy.Deployer.ShouldBackupNow | src/commands/deploy.ts:44-46 | back up unless the configuration says `backup: false` or the flag says `noBackup: true` |
| Deploy.Deployer.BackupExistingFiles | src/commands/deploy.ts:51-66 | follows the backup step specification |
| Deploy.Deployer.UploadNewFiles | src/commands/deploy.ts:70-91 | follows the upload step specification |
| Deploy.Deployer.RunStep | src/commands/deploy.ts:155-182 | runs one step of the plan |
| Deploy.Deployer.TryBlock | src/commands/deploy.ts:154-178 | the loop runs the steps until one throws, recording each step started |
| Deploy.Deployer.Deploy | src/commands/deploy.ts:150-183 | follows the deployment specification, including the final disconnect |
| Deploy.Deployer.TestConnection | src/commands/deploy.ts:144-146 | delegates to the tool's connection test |
| Setup.SearchUpFindsManifest | src/scripts/setup.ts:29-43 | a directory the search returns holds a manifest and is among the first ancestors |
| Setup.SearchUpFindsFirst | src/scripts/setup.ts:29-43 | the search returns the first ancestor holding a manifest when no earlier one is the root |
| Setup.ProjectRoot | src/scripts/setup.ts:8-47 | a non-empty `INIT_CWD` wins; then the part before `node_modules`; then the found directory or the working directory |
| Setup.GetProjectRoot | src/scripts/setup.ts:8-47 | the counted loop follows the search specification |
| Setup.ScriptRootHasNoBackslash | src/scripts/setup.ts:49 | the root the script uses holds no backslash |
| Setup.DeployScriptsWellFormed | src/scripts/setup.ts:65-71 | the five script names are distinct and their commands non-empty |
| Setup.MergeKeepsOtherNames | src/scripts/setup.ts:75-81 | entries outside the table are untouched |
| Setup.MergeKeepsTruthy | src/scripts/setup.ts:76 | a truthy entry is never overwritten |
| Setup.MergeFillsFalsy | src/scripts/setup.ts:76-78 | a falsy table entry is set to its command |
| Setup.MergeCountsAdded | src/scripts/setup.ts:74-78 | the count is the number of distinct names added |
| Setup.MergeAddingNothingChangesNothing | src/scripts/setup.ts:82-87 | a merge that adds nothing changes nothing |
| Setup.MergeChangesIffAdded | src/scripts/setup.ts:82 | the manifest changes iff the count is positive |
| Setup.MergeMakesAllTruthy | src/scripts/setup.ts:75-81 | afterwards every deploy name is truthy |
| Setup.MergeOfComplete | src/scripts/setup.ts:75-81 | a complete map is a fixed point |
| Setup.MergeIdempotent | src/scripts/setup.ts:75-81 | merging twice adds nothing the second time |
| Setup.MergeScripts | src/scripts/setup.ts:74-81 | the loop follows the merge specification |
| Setup.AddDeployScripts | src/scripts/setup.ts:52-92 | follows the script's specification, including the missing, unparsable and non-object manifests |
| Setup.MergeEntries | src/scripts/setup.ts:73-81 | each entry of the merged map, table name or not |
| Setup.AddDeployScriptsMerges | src/scripts/setup.ts:73-87 | the manifest is written iff a deploy name was missing, with every other field kept |
| Setup.AddDeployScriptsIdempotent | src/scripts/setup.ts:52-92 | running setup again on what it wrote writes nothing |
| Setup.InstalledHasAllScripts | src/scripts/setup.ts:52-92 | after setup every deploy name holds a truthy script |
| Uninstall.DeployNames | src/scripts/uninstall.ts:6 | the names found are keys of the scripts object that start with `deploy` |
| Uninstall.CleanupSpec | src/scripts/uninstall.ts:3-23 | a written manifest keeps every other field; its scripts lose exactly the reported `deploy*` names and keep everything else |
| Uninstall.CleanupScripts | src/scripts/uninstall.ts:3-23 | the deletion loop follows the cleanup specification |
| Uninstall.CleanupWritesIffDeployScripts | src/scripts/uninstall.ts:8-18 | written iff some script name starts with `deploy`; fails iff unparsable or null |
| Uninstall.CleanupRemovesAllDeployNames | src/scripts/uninstall.ts:13-18 | a manifest with all five names loses all of them |
| Uninstall.CleanupAfterSetup | src/scripts/uninstall.ts:3-23 | uninstalling after setup removes every script setup added |

## Left out

- Path normalisation is not modelled. `path.join` is concatenation with `/`, and
  `path.resolve` is concatenation with no handling of `.`, `..` or repeated slashes.
  `PathUtils.join`, `dirname`, `basename` and `extname` are thin wrappers over Node's `path`
  module and are left out.
- The clock is a parameter. Backup names are built from an ISO timestamp the caller
  supplies.
- Logging, console output, colours and progress percentages are not modelled; they decide
  no outcome.
- `silentAutoInit`'s `execSync` of the CLI is not modelled: it is a child process whose
  failure the script swallows.
- `ConfigManager.createdSetting` (`src/utils/config.ts:99-101`) is not modelled: as written
  it is a syntax error. The empty `setSetting` is not modelled either.
- `loadConfig`, `findConfigFile` and `loadConfigFile` are not modelled. They are dynamic
  imports and filesystem lookups.
- `JSON.stringify` formatting and key order are not modelled. A written manifest is a value.
- Named properties on arrays are not kept. An array manifest or an array `scripts` written
  back is the one read, as `JSON.stringify` would print it.
- Setup's assignments on a string, number or boolean are modelled as throwing, as they do in
  strict mode (ES modules).
- JavaScript numbers are reals: NaN, infinities and `-0` are not modelled.
- `JsValues.Prop` on a string gives `undefined`. String indices and `length` are not
  modelled, and no modelled path reads them.
- `in` sees own properties only. The prototype chain is not modelled.
- Deploy hooks and the connection-test command do not change the modelled remote file
  system. The server's reply to them is a parameter.
- The `try` block of `deploy` is a loop over the planned steps.
  `handleDeploymentError`, `completeDeployment` and the `delay` only log, so the
  completion step is a step that succeeds.
- The ssh2 transport and the SFTP streams are not modelled. A connection's outcome, the SFTP
  start-up error, every write refusal and the channel failure of every command line are
  inputs. A built command whose channel fails is taken not to have run on the server.
- `Ssh.Host`: a command line's reply and channel failure are the same each time the line
  is sent, so a run in which one line's channel fails on one send and not on another is
  not modelled.
- Deploy.DryRunBackupCopies: the remote project directory is tested twice with one line
  (src/commands/deploy.ts:55 and src/utils/ssh.ts:342), and the lemma takes the second
  test to answer as the first did; a second test whose channel fails would make
  `backupDirectory` skip the backup and report success, which the model cannot express.
  `Deploy.BackupStepOutcome` rests on the same assumption.
- Windows path separators on the local side are not modelled: local paths are joined with
  `/`.
- Strings are sequences of Unicode scalar values, not JavaScript's UTF-16 code units:
  lengths and indices differ for characters outside the Basic Multilingual Plane.
- The server's permissions are one set of paths that may not be created or removed; owners,
  modes and the permissions of the directories above a path are not modelled.
- RemoteShell.RunCopyTree: the last component of the source is the text after its last `/`;
  `cp` drops trailing slashes first, which falls under the path normalisation left out above.
- There is no concurrency: every `await` runs to completion before the next statement.
- `getProjectRoot`'s filesystem checks are functions given as parameters.
- `cli.ts`, `progress.ts` and `index.ts` are not part of this model.
