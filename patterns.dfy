/** The regular expressions of src/utils/intelligent-command-converter.ts, written as
    sequences of tokens, and the `test` and non-global `replace` operations on them.

    Every pattern in those tables has the shape "literal, then items each of which either
    ends where the next one must start with a character it cannot consume, or is followed
    only by items that may match the empty string". For such patterns JavaScript's
    backtracking matcher finds the same match, with the same groups, as a matcher that
    lets every item take as much as it can and never goes back; `MatchTokens` is that
    matcher. An unanchored pattern is tried at each start position from the left. */
module Patterns {
  import opened Wrappers
  import opened Text

  datatype CharClass =
    | Spaces              // \s
    | NonSpaces           // \S
    | NonQuotes           // [^'"]
    | Quotes              // ['"]
    | OneOf(chars: string)

  predicate InClass(c: char, cls: CharClass) {
    match cls
    case Spaces => IsSpace(c)
    case NonSpaces => !IsSpace(c)
    case NonQuotes => c != '\'' && c != '"'
    case Quotes => c == '\'' || c == '"'
    case OneOf(chars) => c in chars
  }

  datatype Token =
    | Lit(text: string)                                  // literal text
    | LitFold(text: string)                              // literal under the `i` flag (text in lower case)
    | WordEnd                                            // \b after a word character
    | Run(cls: CharClass, atLeastOne: bool, capture: bool) // cls* or cls+, optionally a group
    | OptChar(cls: CharClass)                            // cls? (not a group)
    | OneChar(cls: CharClass)                            // one character of cls
    | OptFlag(letters: string)                           // (-[letters]*)? as a group

  datatype Regex = Regex(anchored: bool, tokens: seq<Token>)

  datatype Match = Match(start: nat, end: nat, groups: seq<string>)

  /** ASCII lower-casing; the only folding JavaScript's `i` flag applies to the letters
      of the patterns here. */
  function Lower(c: char): char {
    if 'A' <= c <= 'Z' then (c as int + 32) as char else c
  }

  /** The end of the longest run of `cls` characters starting at `i`. */
  function RunEnd(s: string, i: nat, cls: CharClass): (j: nat)
    requires i <= |s|
    ensures i <= j <= |s|
    ensures forall k :: i <= k < j ==> InClass(s[k], cls)
    ensures j < |s| ==> !InClass(s[j], cls)
    decreases |s| - i
  {
    if i < |s| && InClass(s[i], cls) then RunEnd(s, i + 1, cls) else i
  }

  /** One token at position `i`: where it ends and what it captures. */
  function Step(t: Token, s: string, i: nat): (r: Option<(nat, seq<string>)>)
    requires i <= |s|
    ensures r.Some? ==> i <= r.value.0 <= |s|
  {
    match t
    case Lit(text) =>
      if StartsWith(s[i..], text) then Some((i + |text|, [])) else None
    case LitFold(text) =>
      if |text| <= |s| - i && forall k :: 0 <= k < |text| ==> Lower(s[i + k]) == text[k]
      then Some((i + |text|, [])) else None
    case WordEnd =>
      if i == |s| || !IsWordChar(s[i]) then Some((i, [])) else None
    case Run(cls, atLeastOne, capture) =>
      var j := RunEnd(s, i, cls);
      if atLeastOne && j == i then None
      else Some((j, if capture then [s[i..j]] else []))
    case OptChar(cls) =>
      if i < |s| && InClass(s[i], cls) then Some((i + 1, [])) else Some((i, []))
    case OneChar(cls) =>
      if i < |s| && InClass(s[i], cls) then Some((i + 1, [])) else None
    case OptFlag(letters) =>
      if i < |s| && s[i] == '-' then
        var j := RunEnd(s, i + 1, OneOf(letters));
        Some((j, [s[i..j]]))
      else Some((i, [""]))   // an unmatched group is substituted as the empty string
  }

  /** The tokens in order from position `i`, each taking as much as it can. */
  function MatchTokens(p: seq<Token>, s: string, i: nat, groups: seq<string>): (r: Option<(nat, seq<string>)>)
    requires i <= |s|
    ensures r.Some? ==> i <= r.value.0 <= |s|
    decreases |p|
  {
    if |p| == 0 then Some((i, groups))
    else match Step(p[0], s, i)
      case None => None
      case Some((j, cap)) => MatchTokens(p[1..], s, j, groups + cap)
  }

  /** A token that consumes the text from `i` to `j` without capturing passes the rest of
      the pattern on from `j`. */
  lemma MatchTokensStep(p: seq<Token>, s: string, i: nat, j: nat)
    requires i <= |s| && |p| > 0
    requires Step(p[0], s, i) == Some((j, []))
    ensures MatchTokens(p, s, i, []) == MatchTokens(p[1..], s, j, [])
  {
    var none: seq<string> := [];
    assert none + none == none;
  }

  /** A literal matches where the text continues with it. */
  lemma LitStep(text: string, more: string, s: string, i: nat)
    requires i <= |s| && s[i..] == text + more
    ensures Step(Lit(text), s, i) == Some((i + |text|, []))
  {
    assert s[i..][..|text|] == text;
  }

  /** `\s+` over one blank followed by a non-blank. */
  lemma OneSpaceStep(more: string, s: string, i: nat)
    requires i <= |s| && s[i..] == " " + more && |more| > 0 && !IsSpace(more[0])
    ensures Step(Run(Spaces, true, false), s, i) == Some((i + 1, []))
  {
    assert s[i] == ' ' && s[i + 1] == more[0];
    assert RunEnd(s, i + 1, Spaces) == i + 1;
  }

  /** An optional character that is there is consumed. */
  lemma OptCharStep(cls: CharClass, s: string, i: nat)
    requires i < |s| && InClass(s[i], cls)
    ensures Step(OptChar(cls), s, i) == Some((i + 1, []))
  {
  }

  /** The leftmost match starting at or after `i`: the pattern matches at the start it
      reports, with the reported end and groups, and at no earlier position from `i`; when
      there is none, the pattern matches nowhere from `i` on. */
  function SearchFrom(p: seq<Token>, s: string, i: nat): (r: Option<Match>)
    requires i <= |s|
    ensures r.Some? ==> i <= r.value.start <= r.value.end <= |s|
    ensures r.Some? ==> MatchTokens(p, s, r.value.start, []) == Some((r.value.end, r.value.groups))
    ensures r.Some? ==> forall k :: i <= k < r.value.start ==> MatchTokens(p, s, k, []).None?
    ensures r.None? ==> forall k :: i <= k <= |s| ==> MatchTokens(p, s, k, []).None?
    decreases |s| - i
  {
    match MatchTokens(p, s, i, [])
    case Some((j, groups)) => Some(Match(i, j, groups))
    case None => if i < |s| then SearchFrom(p, s, i + 1) else None
  }

  /** `regex.exec(s)` for a non-global regex: the leftmost match (for an anchored pattern
      the one at the start), or none when the pattern matches nowhere it may. */
  function Exec(re: Regex, s: string): (r: Option<Match>)
    ensures r.Some? ==> r.value.start <= r.value.end <= |s|
    ensures r.Some? && re.anchored ==> r.value.start == 0
    ensures r.Some? ==> MatchTokens(re.tokens, s, r.value.start, []) == Some((r.value.end, r.value.groups))
    ensures r.Some? ==> forall k :: 0 <= k < r.value.start ==> MatchTokens(re.tokens, s, k, []).None?
    ensures r.None? && re.anchored ==> MatchTokens(re.tokens, s, 0, []).None?
    ensures r.None? && !re.anchored ==> forall k :: 0 <= k <= |s| ==> MatchTokens(re.tokens, s, k, []).None?
  {
    if re.anchored then
      match MatchTokens(re.tokens, s, 0, [])
      case Some((j, groups)) => Some(Match(0, j, groups))
      case None => None
    else SearchFrom(re.tokens, s, 0)
  }

  /** `regex.test(s)` */
  predicate Test(re: Regex, s: string) {
    Exec(re, s).Some?
  }

  /** The replacement text with `$1` ... `$9` replaced by the groups (the only special
      forms the replacement strings here use). */
  function Expand(template: string, groups: seq<string>): string
    decreases |template|
  {
    if |template| == 0 then ""
    else if template[0] == '$' && |template| >= 2 && '1' <= template[1] <= '9'
            && (template[1] as int - '0' as int) <= |groups|
    then groups[template[1] as int - '0' as int - 1] + Expand(template[2..], groups)
    else [template[0]] + Expand(template[1..], groups)
  }

  /** `s.replace(regex, template)` for a non-global regex: only the first match is
      replaced; without a match the string is returned as it is. */
  function Replace(re: Regex, template: string, s: string): (r: string)
    ensures !Test(re, s) ==> r == s
  {
    match Exec(re, s)
    case None => s
    case Some(m) => s[..m.start] + Expand(template, m.groups) + s[m.end..]
  }

  /** A replacement whose text holds no `$` puts exactly that text in place of the match. */
  lemma {:induction false} ExpandPlain(template: string, groups: seq<string>)
    requires '$' !in template
    ensures Expand(template, groups) == template
  {
    if |template| > 0 {
      ExpandPlain(template[1..], groups);
      assert template == [template[0]] + template[1..];
    }
  }
}
