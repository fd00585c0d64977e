/** `IntelligentCommandConverter` of src/utils/intelligent-command-converter.ts: it tells a
    Unix shell command from a PowerShell one by its first word and rewrites a command for
    the other kind of server through two fixed tables of regular expressions. */
module CommandConverter {
  import opened Wrappers
  import opened Text
  import opened Patterns
  import PathUtils

  datatype CommandType = Windows | Unix

  // Pattern items that recur in the tables.
  const Ws1: Token := Run(Spaces, true, false)        // \s+
  const Ws0: Token := Run(Spaces, false, false)       // \s*
  const Arg1: Token := Run(NonSpaces, true, true)     // (\S+)
  const Arg0: Token := Run(NonSpaces, false, true)    // (\S*)
  const Quoted: Token := Run(NonQuotes, true, true)   // ([^'"]+)
  const Quote: Token := OneChar(Quotes)               // ['"]

  /** `/^powershell\s+-Command/i` */
  const PowerShellPrefix: Regex := Regex(true, [LitFold("powershell"), Ws1, LitFold("-command")])

  /** `/^word\b/` */
  function WordAtStart(word: string): Regex {
    Regex(true, [Lit(word), WordEnd])
  }

  /** `/^prefix/` */
  function PrefixAtStart(prefix: string): Regex {
    Regex(true, [Lit(prefix)])
  }

  const UnixIndicators: seq<Regex> := [
    WordAtStart("ls"), WordAtStart("cd"), WordAtStart("pwd"), WordAtStart("mkdir"), WordAtStart("rm"),
    WordAtStart("cp"), WordAtStart("mv"), WordAtStart("cat"), WordAtStart("grep"), WordAtStart("find"),
    WordAtStart("chmod"), WordAtStart("chown"), WordAtStart("sudo"), WordAtStart("uname"),
    WordAtStart("df"), WordAtStart("free"), WordAtStart("ps"), WordAtStart("systemctl"),
    WordAtStart("service"), WordAtStart("ip"), WordAtStart("ss")
  ]

  const WindowsIndicators: seq<Regex> := [
    PowerShellPrefix,
    PrefixAtStart("Get-"), PrefixAtStart("Set-"), PrefixAtStart("New-"), PrefixAtStart("Remove-"),
    PrefixAtStart("Rename-"), PrefixAtStart("Copy-"), PrefixAtStart("Move-"), PrefixAtStart("Test-"),
    PrefixAtStart("Start-"), PrefixAtStart("Stop-"), PrefixAtStart("Restart-"), PrefixAtStart("Import-"),
    PrefixAtStart("Export-"), PrefixAtStart("Write-"), PrefixAtStart("Read-"), PrefixAtStart("Select-")
  ]

  datatype Conversion = Conversion(regex: Regex, replace: string)

  /** The Unix-to-PowerShell table, in the order it is tried. */
  const UnixToWindowsConversions: seq<Conversion> := [
    Conversion(Regex(true, [Lit("ls"), Ws1, OptFlag("la"), Ws0, Arg0]),
               "Get-ChildItem $2 | Format-Table Name,Length,LastWriteTime -AutoSize"),
    Conversion(Regex(true, [Lit("pwd")]), "Get-Location"),
    Conversion(Regex(true, [Lit("mkdir"), Ws1, Lit("-p"), Ws1, Arg1]),
               "New-Item -ItemType Directory -Force -Path \"$1\""),
    Conversion(Regex(true, [Lit("mkdir"), Ws1, Arg1]), "New-Item -ItemType Directory -Path \"$1\""),
    Conversion(Regex(true, [Lit("rm"), Ws1, Lit("-rf"), Ws1, Arg1]), "Remove-Item -Recurse -Force -Path \"$1\""),
    Conversion(Regex(true, [Lit("rm"), Ws1, Arg1]), "Remove-Item -Path \"$1\""),
    Conversion(Regex(true, [Lit("cp"), Ws1, Lit("-r"), Ws1, Arg1, Ws1, Arg1]),
               "Copy-Item -Recurse -Path \"$1\" -Destination \"$2\""),
    Conversion(Regex(true, [Lit("cp"), Ws1, Arg1, Ws1, Arg1]), "Copy-Item -Path \"$1\" -Destination \"$2\""),
    Conversion(Regex(true, [Lit("mv"), Ws1, Arg1, Ws1, Arg1]), "Move-Item -Path \"$1\" -Destination \"$2\""),
    Conversion(Regex(true, [Lit("cat"), Ws1, Arg1]), "Get-Content -Path \"$1\""),
    Conversion(Regex(true, [Lit("uname"), Ws1, Lit("-a")]), "systeminfo | Select-String \"OS Name\",\"OS Version\""),
    Conversion(Regex(true, [Lit("df"), Ws1, Lit("-h")]), "Get-PSDrive C | Format-List Used,Free,Size"),
    Conversion(Regex(true, [Lit("ps"), Ws1, Lit("aux")]),
               "Get-Process | Sort-Object CPU -Descending | Select-Object -First 10"),
    Conversion(Regex(true, [Lit("find"), Ws1, Lit("."), Ws1, Lit("-name"), Ws1, Quote, Quoted, Quote]),
               "Get-ChildItem -Recurse -Filter \"$1\""),
    Conversion(Regex(true, [Lit("grep"), Ws1, OptFlag("riv"), Ws0, Quote, Quoted, Quote, Ws1, Arg1]),
               "Select-String -Pattern \"$2\" -Path \"$3\"")
  ]

  /** The PowerShell-to-Unix table; every entry is applied, each to its first occurrence. */
  const WindowsToUnixConversions: seq<Conversion> := [
    Conversion(Regex(false, [Lit("Get-ChildItem")]), "ls -la"),
    Conversion(Regex(false, [Lit("Get-Location")]), "pwd"),
    Conversion(Regex(false, [Lit("New-Item"), Ws1, Lit("-ItemType"), Ws1, Lit("Directory"), Ws1,
                             Lit("-Force"), Ws1, Lit("-Path"), Ws1, Arg1]), "mkdir -p $1"),
    Conversion(Regex(false, [Lit("Remove-Item"), Ws1, Lit("-Recurse"), Ws1, Lit("-Force"), Ws1,
                             Lit("-Path"), Ws1, Arg1]), "rm -rf $1"),
    Conversion(Regex(false, [Lit("Copy-Item"), Ws1, Lit("-Recurse"), Ws1, Lit("-Path"), Ws1, Arg1, Ws1,
                             Lit("-Destination"), Ws1, Arg1]), "cp -r $1 $2"),
    Conversion(Regex(false, [Lit("Move-Item"), Ws1, Lit("-Path"), Ws1, Arg1, Ws1,
                             Lit("-Destination"), Ws1, Arg1]), "mv $1 $2"),
    Conversion(Regex(false, [Lit("Get-Content"), Ws1, Lit("-Path"), Ws1, Arg1]), "cat $1"),
    Conversion(Regex(false, [Lit("Test-Path"), Ws1, Arg1]), "test -e $1"),
    Conversion(Regex(false, [Lit("Get-Process")]), "ps aux"),
    Conversion(Regex(false, [Lit("Get-Service")]), "systemctl list-units --type=service")
  ]

  /** `/^powershell\s+-Command\s+["']?/`, the wrapper prefix `windowsToUnix` removes. */
  const WrapperPrefix: Regex :=
    Regex(true, [Lit("powershell"), Ws1, Lit("-Command"), Ws1, OptChar(Quotes)])

  const WrapperOpening: string := "powershell -Command \""

  // ---------------------------------------------------------------------------------
  // Detection

  predicate MatchesAny(rs: seq<Regex>, s: string) {
    exists k :: 0 <= k < |rs| && Test(rs[k], s)
  }

  /** The kind `detectCommandType` reports: a Unix indicator wins over a Windows one,
      and a command that matches neither is taken for Unix. */
  function DetectSpec(command: string): CommandType {
    if MatchesAny(UnixIndicators, command) then Unix
    else if MatchesAny(WindowsIndicators, command) then Windows
    else Unix
  }

  method DetectCommandType(command: string) returns (t: CommandType)
    ensures t == DetectSpec(command)
    ensures t == Windows <==> !MatchesAny(UnixIndicators, command) && MatchesAny(WindowsIndicators, command)
  {
    var unix := AnyMatches(UnixIndicators, command);
    if unix {
      return Unix;
    }
    var windows := AnyMatches(WindowsIndicators, command);
    if windows {
      return Windows;
    }
    return Unix;
  }

  /** The `for ... of` loop over an indicator list, returning on the first pattern that
      matches. */
  method AnyMatches(rs: seq<Regex>, s: string) returns (found: bool)
    ensures found <==> MatchesAny(rs, s)
  {
    for k := 0 to |rs|
      invariant forall j :: 0 <= j < k ==> !Test(rs[j], s)
    {
      if Test(rs[k], s) {
        return true;
      }
    }
    return false;
  }

  /** A word indicator matches exactly when the command starts with that word and the
      word is not continued by a letter, digit or `_`. */
  lemma {:induction false} WordAtStartMeaning(word: string, command: string)
    ensures Test(WordAtStart(word), command) <==>
              StartsWith(command, word) && (|command| == |word| || !IsWordChar(command[|word|]))
  {
    var toks := WordAtStart(word).tokens;
    assert command[0..] == command;
    if StartsWith(command, word) {
      assert Step(Lit(word), command, 0) == Some((|word|, []));
      assert toks[1..] == [WordEnd] && [WordEnd][1..] == [];
      var none: seq<string> := []; assert none + none == none;
      assert MatchTokens(toks, command, 0, []) == MatchTokens([WordEnd], command, |word|, []);
      assert MatchTokens([WordEnd], command, |word|, []).Some? <==>
               (|command| == |word| || !IsWordChar(command[|word|]));
    } else {
      assert Step(Lit(word), command, 0) == None;
    }
  }

  // ---------------------------------------------------------------------------------
  // The two tables

  /** The first entry whose pattern matches rewrites the command; the rest are not tried. */
  function ApplyFirst(table: seq<Conversion>, s: string): string
    decreases |table|
  {
    if |table| == 0 then s
    else if Test(table[0].regex, s) then Replace(table[0].regex, table[0].replace, s)
    else ApplyFirst(table[1..], s)
  }

  /** Every entry is applied in order to the result of the previous one. */
  function ApplyAll(table: seq<Conversion>, s: string): string
    decreases |table|
  {
    if |table| == 0 then s
    else ApplyAll(table[1..], Replace(table[0].regex, table[0].replace, s))
  }

  /** `ApplyFirst` applies the earliest matching entry, and leaves the command alone when
      no entry matches. */
  lemma {:induction false} ApplyFirstIsFirstMatch(table: seq<Conversion>, s: string, k: nat)
    requires k <= |table|
    requires forall j :: 0 <= j < k ==> !Test(table[j].regex, s)
    ensures k == |table| ==> ApplyFirst(table, s) == s
    ensures k < |table| && Test(table[k].regex, s) ==>
              ApplyFirst(table, s) == Replace(table[k].regex, table[k].replace, s)
    decreases k
  {
    if k > 0 {
      assert !Test(table[0].regex, s);
      ApplyFirstIsFirstMatch(table[1..], s, k - 1);
    }
  }

  // ---------------------------------------------------------------------------------
  // Global rewrites of paths and quoting

  /** `replace(/\/([a-zA-Z])[/\\]/g, '$1:\\')`: every `/x/` or `/x\`, with `x` a letter,
      becomes the drive `x:\`. */
  function DriveToWindows(s: string): string
    decreases |s|
  {
    if |s| >= 3 && s[0] == '/' && IsAsciiLetter(s[1]) && (s[2] == '/' || s[2] == '\\')
    then [s[1], ':', '\\'] + DriveToWindows(s[3..])
    else if |s| == 0 then ""
    else [s[0]] + DriveToWindows(s[1..])
  }

  /** `replace(/([a-zA-Z]):\\/g, '/$1/')`: a drive `c:\` becomes `/c/`. */
  function DriveToUnix(s: string): string
    decreases |s|
  {
    if |s| >= 3 && IsAsciiLetter(s[0]) && s[1] == ':' && s[2] == '\\'
    then ['/', s[0], '/'] + DriveToUnix(s[3..])
    else if |s| == 0 then ""
    else [s[0]] + DriveToUnix(s[1..])
  }

  predicate IsPsSpecial(c: char) {
    c == '"' || c == '`' || c == '$'
  }

  /** `replace(/["`\$]/g, '`$&')`: a backtick before every `"`, backtick and `$`. */
  function EscapePs(s: string): (r: string)
    ensures |r| >= |s|
  {
    if |s| == 0 then ""
    else (if IsPsSpecial(s[0]) then ['`', s[0]] else [s[0]]) + EscapePs(s[1..])
  }

  /** The inverse of `EscapePs` on the three escaped characters: a backtick before a `"`,
      a backtick or a `$` is dropped. */
  function UnescapePs(s: string): string
    decreases |s|
  {
    if |s| >= 2 && s[0] == '`' && IsPsSpecial(s[1]) then [s[1]] + UnescapePs(s[2..])
    else if |s| == 0 then ""
    else [s[0]] + UnescapePs(s[1..])
  }

  /** `powershell -Command "…"` */
  function Wrap(body: string): string {
    WrapperOpening + body + "\""
  }

  /** `replace(/["']?$/, '')`: one quote at the very end is dropped. */
  function DropTrailingQuote(s: string): string {
    if |s| > 0 && InClass(s[|s| - 1], Quotes) then s[..|s| - 1] else s
  }

  /** The wrapper removal at the start of `windowsToUnix`. */
  function StripWrapper(s: string): string {
    if StartsWith(s, "powershell -Command") then DropTrailingQuote(Replace(WrapperPrefix, "", s))
    else s
  }

  // ---------------------------------------------------------------------------------
  // The conversions

  /** The command after the table and the two path rewrites, before escaping. */
  function WindowsBody(command: string): string {
    PathUtils.ToWindowsPath(DriveToWindows(ApplyFirst(UnixToWindowsConversions, command)))
  }

  function UnixToWindowsSpec(command: string): string {
    Wrap(EscapePs(WindowsBody(command)))
  }

  function WindowsToUnixSpec(command: string): string {
    var converted := ApplyAll(WindowsToUnixConversions, StripWrapper(command));
    PathUtils.ToUnixPath(DriveToUnix(converted))
  }

  function ConvertByTypeSpec(command: string, source: CommandType, target: CommandType): string {
    if source == Unix && target == Windows then UnixToWindowsSpec(command)
    else if source == Windows && target == Unix then WindowsToUnixSpec(command)
    else command
  }

  /** `convertCommand(command, targetType)`; `None` is an absent target type. */
  function ConvertSpec(command: string, target: Option<CommandType>): string {
    if target == Some(Windows) && Test(PowerShellPrefix, Trim(command)) then command
    else
      var source := DetectSpec(command);
      if target.None? || source == target.value then command
      else ConvertByTypeSpec(command, source, target.value)
  }

  /** A command that, trimmed, already starts with the PowerShell wrapper is returned as
      it is when Windows is the target, whatever it holds. */
  lemma WrappedKeptForWindows(command: string)
    requires Test(PowerShellPrefix, Trim(command))
    ensures ConvertSpec(command, Some(Windows)) == command
  {
  }

  method UnixToWindows(unixCommand: string) returns (r: string)
    ensures r == UnixToWindowsSpec(unixCommand)
  {
    var converted := unixCommand;
    var conversions := UnixToWindowsConversions;
    for k := 0 to |conversions|
      invariant converted == unixCommand
      invariant ApplyFirst(conversions, unixCommand) == ApplyFirst(conversions[k..], unixCommand)
    {
      assert conversions[k..][1..] == conversions[k + 1..];
      if Test(conversions[k].regex, converted) {
        converted := Replace(conversions[k].regex, conversions[k].replace, converted);
        break;
      }
    }
    converted := DriveToWindows(converted);
    converted := PathUtils.ToWindowsPath(converted);
    r := Wrap(EscapePs(converted));
  }

  method WindowsToUnix(windowsCommand: string) returns (r: string)
    ensures r == WindowsToUnixSpec(windowsCommand)
  {
    var converted := windowsCommand;
    if StartsWith(converted, "powershell -Command") {
      converted := DropTrailingQuote(Replace(WrapperPrefix, "", converted));
    }
    var conversions := WindowsToUnixConversions;
    for k := 0 to |conversions|
      invariant ApplyAll(conversions, StripWrapper(windowsCommand)) == ApplyAll(conversions[k..], converted)
    {
      assert conversions[k..][1..] == conversions[k + 1..];
      converted := Replace(conversions[k].regex, conversions[k].replace, converted);
    }
    converted := DriveToUnix(converted);
    r := PathUtils.ToUnixPath(converted);
  }

  method ConvertCommandByType(command: string, source: CommandType, target: CommandType) returns (r: string)
    ensures r == ConvertByTypeSpec(command, source, target)
  {
    if source == Unix && target == Windows {
      r := UnixToWindows(command);
    } else if source == Windows && target == Unix {
      r := WindowsToUnix(command);
    } else {
      r := command;
    }
  }

  method ConvertCommand(command: string, target: Option<CommandType>) returns (r: string)
    ensures r == ConvertSpec(command, target)
  {
    if target == Some(Windows) && Test(PowerShellPrefix, Trim(command)) {
      return command;
    }
    var source := DetectCommandType(command);
    if target.None? || source == target.value {
      return command;
    }
    r := ConvertCommandByType(command, source, target.value);
  }

  // ---------------------------------------------------------------------------------
  // Properties

  /** Escaping for PowerShell loses nothing. */
  lemma {:induction false} EscapePsRoundTrip(s: string)
    ensures UnescapePs(EscapePs(s)) == s
  {
    if |s| > 0 {
      EscapePsRoundTrip(s[1..]);
      var e := EscapePs(s);
      if IsPsSpecial(s[0]) {
        assert e[2..] == EscapePs(s[1..]);
      } else {
        assert e[1..] == EscapePs(s[1..]);
      }
      assert s == [s[0]] + s[1..];
    }
  }

  /** In an escaped text every `"` and `$` is preceded by a backtick. */
  lemma {:induction false} EscapePsGuardsQuotes(s: string)
    ensures forall i :: 0 <= i < |EscapePs(s)| && (EscapePs(s)[i] == '"' || EscapePs(s)[i] == '$') ==>
              i > 0 && EscapePs(s)[i - 1] == '`'
  {
    if |s| > 0 {
      EscapePsGuardsQuotes(s[1..]);
      var head := if IsPsSpecial(s[0]) then ['`', s[0]] else [s[0]];
      var rest := EscapePs(s[1..]);
      var e := EscapePs(s);
      assert e == head + rest;
      forall i | 0 <= i < |e| && (e[i] == '"' || e[i] == '$') ensures i > 0 && e[i - 1] == '`' {
        if i >= |head| {
          assert e[i] == rest[i - |head|];
          if i - |head| > 0 {
            assert e[i - 1] == rest[i - |head| - 1];
          }
        }
      }
    }
  }

  /** Escaping adds only backticks: a text without `/` keeps none. */
  lemma {:induction false} EscapePsAddsNoSlash(s: string)
    requires '/' !in s
    ensures '/' !in EscapePs(s)
  {
    if |s| > 0 {
      assert s[1..] == s[1..] && '/' !in s[1..];
      EscapePsAddsNoSlash(s[1..]);
    }
  }

  /** A command converted for Windows is the wrapped, escaped form of a text that holds no
      forward slash: the table's rewrite after the drive and separator conversions. */
  lemma UnixToWindowsShape(command: string)
    ensures '/' !in WindowsBody(command)
    ensures UnixToWindowsSpec(command) == Wrap(EscapePs(WindowsBody(command)))
    ensures '/' !in EscapePs(WindowsBody(command))
    ensures UnescapePs(EscapePs(WindowsBody(command))) == WindowsBody(command)
  {
    var converted := WindowsBody(command);
    PathUtils.ToWindowsPathHasNoSlash(DriveToWindows(ApplyFirst(UnixToWindowsConversions, command)));
    EscapePsAddsNoSlash(converted);
    EscapePsRoundTrip(converted);
  }

  lemma WrapLayout(body: string)
    ensures |Wrap(body)| == |WrapperOpening| + |body| + 1
    ensures Wrap(body)[..|WrapperOpening|] == WrapperOpening
    ensures Wrap(body)[|WrapperOpening|..] == body + "\""
    ensures Wrap(body)[|Wrap(body)| - 1] == '"'
  {
  }

  /** A wrapped command is recognised as already wrapped by `convertCommand`. */
  lemma {:induction false} WrappedIsRecognised(body: string)
    ensures Trim(Wrap(body)) == Wrap(body)
    ensures Test(PowerShellPrefix, Trim(Wrap(body)))
  {
    var w := Wrap(body);
    WrapLayout(body);
    assert w[0] == WrapperOpening[0] == 'p';
    TrimOfTrimmed(w);
    OpeningIsPowerShell(w);
  }

  /** Text that starts with the wrapper opening satisfies `/^powershell\s+-command/i`. */
  lemma OpeningIsPowerShell(w: string)
    requires |w| >= |WrapperOpening| && w[..|WrapperOpening|] == WrapperOpening
    ensures Test(PowerShellPrefix, w)
  {
    var toks := PowerShellPrefix.tokens;
    assert forall k :: 0 <= k < |WrapperOpening| ==> w[k] == WrapperOpening[k];
    assert Step(toks[0], w, 0) == Some((10, []));
    assert RunEnd(w, 11, Spaces) == 11;
    assert Step(toks[1], w, 10) == Some((11, []));
    assert Step(toks[2], w, 11) == Some((19, []));
    assert toks[1..][1..] == [toks[2]] && [toks[2]][1..] == [];
    var none: seq<string> := []; assert none + none == none;
    assert MatchTokens([toks[2]], w, 11, []) == MatchTokens([], w, 19, []);
    assert MatchTokens(toks[1..], w, 10, []) == MatchTokens([toks[2]], w, 11, []);
  }

  /** The wrapper opening, word by word. */
  lemma OpeningSpelledOut()
    ensures WrapperOpening == "powershell" + " " + "-Command" + " " + "\""
  {
  }

  /** `/^powershell\s+-Command\s+["']?/` matches the whole wrapper opening. */
  lemma OpeningIsStripped(rest: string)
    ensures MatchTokens(WrapperPrefix.tokens, WrapperOpening + rest, 0, []) == Some((|WrapperOpening|, []))
  {
    OpeningSpelledOut();
    OpeningWordsMatch(rest);
  }

  /** The tokens of the wrapper prefix, one at a time, over the opening's words. */
  lemma OpeningWordsMatch(rest: string)
    ensures MatchTokens([Lit("powershell"), Ws1, Lit("-Command"), Ws1, OptChar(Quotes)],
                        ("powershell" + " " + "-Command" + " " + "\"") + rest, 0, []) == Some((21, []))
  {
    var e := "\"" + rest;
    var d := " " + e;
    var c := "-Command" + d;
    var b := " " + c;
    var w := "powershell" + b;
    assert ("powershell" + " " + "-Command" + " " + "\"") + rest == w;
    assert w[0..] == w;
    assert w[10..] == b && w[11..] == c && w[19..] == d && w[20..] == e;
    LitStep("powershell", b, w, 0);
    OneSpaceStep(c, w, 10);
    LitStep("-Command", d, w, 11);
    OneSpaceStep(e, w, 19);
    assert w[20] == '"';
    OptCharStep(Quotes, w, 20);
    MatchTokensStep([Lit("powershell"), Ws1, Lit("-Command"), Ws1, OptChar(Quotes)], w, 0, 10);
    MatchTokensStep([Ws1, Lit("-Command"), Ws1, OptChar(Quotes)], w, 10, 11);
    MatchTokensStep([Lit("-Command"), Ws1, OptChar(Quotes)], w, 11, 19);
    MatchTokensStep([Ws1, OptChar(Quotes)], w, 19, 20);
    MatchTokensStep([OptChar(Quotes)], w, 20, 21);
  }

  /** `windowsToUnix` takes the wrapper off what `unixToWindows` puts on. */
  lemma {:induction false} StripWrapperUndoesWrap(body: string)
    ensures StripWrapper(Wrap(body)) == body
  {
    var w := Wrap(body);
    WrapLayout(body);
    assert w[..19] == "powershell -Command";
    assert w == WrapperOpening + (body + "\"");
    OpeningIsStripped(body + "\"");
    var stripped := Replace(WrapperPrefix, "", w);
    assert stripped == w[21..] == body + "\"";
  }

  /** What `unixToWindows` produces is turned back into Unix form starting from the very
      text it wrapped: the wrapper round-trips. */
  lemma {:induction false} WindowsToUnixOfWrapped(body: string)
    ensures WindowsToUnixSpec(Wrap(body)) ==
              PathUtils.ToUnixPath(DriveToUnix(ApplyAll(WindowsToUnixConversions, body)))
  {
    StripWrapperUndoesWrap(body);
  }

  /** Converting to Windows twice is converting once: a converted command is wrapped, and
      a wrapped command is returned as it is. */
  lemma {:induction false} ConvertToWindowsIdempotent(command: string)
    ensures ConvertSpec(ConvertSpec(command, Some(Windows)), Some(Windows)) == ConvertSpec(command, Some(Windows))
  {
    var once := ConvertSpec(command, Some(Windows));
    if Test(PowerShellPrefix, Trim(command)) {
    } else if DetectSpec(command) == Windows {
    } else {
      WrappedIsRecognised(EscapePs(WindowsBody(command)));
    }
  }

  /** Without a target type, or when the command already is of the target type, the
      command comes back unchanged; and a command that starts with no PowerShell
      indicator is left unchanged when Unix is asked for. */
  lemma ConvertIdentityCases(command: string, target: Option<CommandType>)
    ensures target.None? ==> ConvertSpec(command, target) == command
    ensures target.Some? && DetectSpec(command) == target.value ==> ConvertSpec(command, target) == command
    ensures !MatchesAny(WindowsIndicators, command) ==> ConvertSpec(command, Some(Unix)) == command
  {
  }

  /** A command converted for Unix holds no backslash. */
  lemma ConvertToUnixHasNoBackslash(command: string)
    requires DetectSpec(command) == Windows
    ensures '\\' !in ConvertSpec(command, Some(Unix))
  {
    PathUtils.ToUnixPathProperties(DriveToUnix(ApplyAll(WindowsToUnixConversions, StripWrapper(command))));
  }
}
