/** The path helpers of src/utils/pathUtils.ts: separator conversion, drive-letter
    insertion for Windows servers, quoting for command lines, and format detection.
    Every one is a pure function of its arguments. */
module PathUtils {
  import opened Text

  /** `toPlatformPath`: every `/` and every `\` becomes the platform separator `sep`
      (`path.sep` in the source, a parameter here); all other characters stay. */
  function ToPlatformPath(s: string, sep: char): (r: string)
    ensures |r| == |s|
    ensures forall i :: 0 <= i < |s| ==> r[i] == (if s[i] == '/' || s[i] == '\\' then sep else s[i])
  {
    if |s| == 0 then ""
    else [if s[0] == '/' || s[0] == '\\' then sep else s[0]] + ToPlatformPath(s[1..], sep)
  }

  /** `toUnixPath`: backslashes become forward slashes. */
  function ToUnixPath(s: string): (r: string)
    ensures |r| == |s|
    ensures forall i :: 0 <= i < |s| ==> r[i] == (if s[i] == '\\' then '/' else s[i])
  {
    if |s| == 0 then "" else [if s[0] == '\\' then '/' else s[0]] + ToUnixPath(s[1..])
  }

  /** `toWindowsPath`: forward slashes become backslashes. */
  function ToWindowsPath(s: string): (r: string)
    ensures |r| == |s|
    ensures forall i :: 0 <= i < |s| ==> r[i] == (if s[i] == '/' then '\\' else s[i])
  {
    if |s| == 0 then "" else [if s[0] == '/' then '\\' else s[0]] + ToWindowsPath(s[1..])
  }

  /** A Unix path holds no backslash, and converting it again changes nothing. */
  lemma ToUnixPathProperties(s: string)
    ensures '\\' !in ToUnixPath(s)
    ensures ToUnixPath(ToUnixPath(s)) == ToUnixPath(s)
  {
    var r := ToUnixPath(s);
    assert forall i :: 0 <= i < |r| ==> r[i] != '\\';
  }

  /** A Windows path holds no forward slash. */
  lemma ToWindowsPathHasNoSlash(s: string)
    ensures '/' !in ToWindowsPath(s)
  {
    var r := ToWindowsPath(s);
    assert forall i :: 0 <= i < |r| ==> r[i] != '/';
  }

  /** `toPlatformPath` agrees with the two fixed conversions on the two separators. */
  lemma {:induction false} PlatformPathMatchesFixedConversions(s: string)
    ensures ToPlatformPath(s, '/') == ToUnixPath(ToWindowsPath(s))
    ensures ToPlatformPath(s, '\\') == ToWindowsPath(ToUnixPath(s))
  {
    var a, b := ToPlatformPath(s, '/'), ToUnixPath(ToWindowsPath(s));
    assert |a| == |b| && forall i :: 0 <= i < |s| ==> a[i] == b[i];
    var c, d := ToPlatformPath(s, '\\'), ToWindowsPath(ToUnixPath(s));
    assert |c| == |d| && forall i :: 0 <= i < |s| ==> c[i] == d[i];
  }

  /** `normalizeRemotePath(input, isServer)`; the source's default for `isServer` is
      `"windows"`. */
  function NormalizeRemotePath(s: string, isServer: string): (r: string)
    ensures isServer != "windows" ==> r == ToUnixPath(s)
    ensures isServer == "windows" ==> '/' !in r
  {
    var normalized := ToUnixPath(s);
    if isServer == "windows" then
      var withDrive := if ':' !in normalized then "C:" + normalized else normalized;
      ToWindowsPathHasNoSlash(withDrive);
      ToWindowsPath(withDrive)
    else normalized
  }

  /** On a Windows server a path without a drive gets drive `C:`, and every separator
      in the result is a backslash. */
  lemma {:induction false} NormalizeWindowsAddsDrive(s: string)
    requires ':' !in s
    ensures NormalizeRemotePath(s, "windows") == "C:" + ToWindowsPath(ToUnixPath(s))
    ensures StartsWith(NormalizeRemotePath(s, "windows"), "C:")
  {
    var u := ToUnixPath(s);
    assert ':' !in u by {
      forall i | 0 <= i < |u| ensures u[i] != ':' {
        assert s[i] != ':';
      }
    }
    ConcatWindowsPath("C:", u);
  }

  /** A path that already names a drive keeps it. */
  lemma {:induction false} NormalizeWindowsKeepsDrive(s: string)
    requires ':' in s
    ensures NormalizeRemotePath(s, "windows") == ToWindowsPath(ToUnixPath(s))
  {
    var u := ToUnixPath(s);
    var k :| 0 <= k < |s| && s[k] == ':';
    assert u[k] == ':';
  }

  lemma {:induction false} ConcatWindowsPath(a: string, b: string)
    requires '/' !in a
    ensures ToWindowsPath(a + b) == a + ToWindowsPath(b)
  {
    var l, r := ToWindowsPath(a + b), a + ToWindowsPath(b);
    assert |l| == |r|;
    forall i | 0 <= i < |l| ensures l[i] == r[i] {
      if i < |a| { assert (a + b)[i] == a[i]; } else { assert (a + b)[i] == b[i - |a|]; }
    }
  }

  /** The replacement text `escapePath` puts in place of one character. */
  function EscapeChar(c: char, forPowerShell: bool): string {
    if c == '\'' then "''" else if forPowerShell && c == '$' then "`$" else [c]
  }

  /** `escapePath(input, forPowerShell)`: every `'` is doubled, and for PowerShell
      (the source's default) every `$` is preceded by a backtick. */
  function EscapePath(s: string, forPowerShell: bool): (r: string)
    ensures |r| == |s| + Count(s, '\'') + (if forPowerShell then Count(s, '$') else 0)
  {
    if |s| == 0 then "" else EscapeChar(s[0], forPowerShell) + EscapePath(s[1..], forPowerShell)
  }

  /** Reads an escaped path back: the inverse of `escapePath`. */
  function UnescapePath(s: string, forPowerShell: bool): string
    decreases |s|
  {
    if |s| == 0 then ""
    else if |s| >= 2 && s[0] == '\'' && s[1] == '\'' then "'" + UnescapePath(s[2..], forPowerShell)
    else if forPowerShell && |s| >= 2 && s[0] == '`' && s[1] == '$' then "$" + UnescapePath(s[2..], forPowerShell)
    else [s[0]] + UnescapePath(s[1..], forPowerShell)
  }

  lemma {:induction false} EscapedStart(s: string, forPowerShell: bool)
    ensures |EscapePath(s, forPowerShell)| > 0 ==> EscapePath(s, forPowerShell)[0] != '$' || !forPowerShell
    ensures |EscapePath(s, forPowerShell)| > 0 ==> (EscapePath(s, forPowerShell)[0] == '\'' ==>
              |EscapePath(s, forPowerShell)| >= 2 && EscapePath(s, forPowerShell)[1] == '\'')
  {
  }

  /** Escaping loses nothing: the original path can be read back. */
  lemma {:induction false} EscapePathRoundTrip(s: string, forPowerShell: bool)
    ensures UnescapePath(EscapePath(s, forPowerShell), forPowerShell) == s
  {
    if |s| > 0 {
      var c, rest := s[0], EscapePath(s[1..], forPowerShell);
      EscapePathRoundTrip(s[1..], forPowerShell);
      EscapedStart(s[1..], forPowerShell);
      var e := EscapeChar(c, forPowerShell) + rest;
      assert EscapePath(s, forPowerShell) == e;
      if c == '\'' {
        assert e[2..] == rest;
      } else if forPowerShell && c == '$' {
        assert e[2..] == rest;
      } else {
        assert e[1..] == rest;
        if |rest| > 0 && forPowerShell {
          assert rest[0] != '$';
        }
      }
      assert s == [c] + s[1..];
    }
  }

  datatype PathFormat = WindowsFormat | UnixFormat | UnknownFormat

  /** `detectPathFormat`: a backslash anywhere means Windows, even beside forward slashes. */
  function DetectPathFormat(s: string): (f: PathFormat)
    ensures f == WindowsFormat <==> '\\' in s
    ensures f == UnixFormat <==> '\\' !in s && '/' in s
    ensures f == UnknownFormat <==> '\\' !in s && '/' !in s
  {
    ContainsCharIsMembership(s, '\\');
    ContainsCharIsMembership(s, '/');
    if Contains(s, "\\") then WindowsFormat
    else if Contains(s, "/") then UnixFormat
    else UnknownFormat
  }

  /** A converted path is recognised as what it was converted to. */
  lemma ConvertedFormats(s: string)
    ensures '/' in s ==> DetectPathFormat(ToUnixPath(s)) == UnixFormat
    ensures '\\' in s ==> DetectPathFormat(ToUnixPath(s)) == UnixFormat
    ensures ('/' in s || '\\' in s) ==> DetectPathFormat(ToWindowsPath(s)) == WindowsFormat
  {
    ToUnixPathProperties(s);
    var u, w := ToUnixPath(s), ToWindowsPath(s);
    if '/' in s {
      var k :| 0 <= k < |s| && s[k] == '/';
      assert u[k] == '/' && w[k] == '\\';
    }
    if '\\' in s {
      var k :| 0 <= k < |s| && s[k] == '\\';
      assert u[k] == '/' && w[k] == '\\';
    }
  }
}
