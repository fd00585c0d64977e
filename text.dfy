/** String helpers with the meaning JavaScript gives them: `startsWith`, `endsWith`,
    `includes`, `trim`, `split` on one character, `join`, and the `\s` class of regular
    expressions. */
module Text {

  /** The characters JavaScript's `\s` and `String.prototype.trim` treat as white space:
      the ECMAScript WhiteSpace and LineTerminator productions. */
  predicate IsSpace(c: char) {
    c == ' ' || c == '\t' || c == '\n' || c == '\r' || c == '\U{000B}' || c == '\U{000C}'
    || c == '\U{00A0}' || c == '\U{FEFF}' || c == '\U{1680}' || ('\U{2000}' <= c <= '\U{200A}')
    || c == '\U{2028}' || c == '\U{2029}' || c == '\U{202F}' || c == '\U{205F}' || c == '\U{3000}'
  }

  /** `[a-zA-Z]` */
  predicate IsAsciiLetter(c: char) {
    ('a' <= c <= 'z') || ('A' <= c <= 'Z')
  }

  /** `\w`, the word characters that decide where `\b` stands. */
  predicate IsWordChar(c: char) {
    IsAsciiLetter(c) || ('0' <= c <= '9') || c == '_'
  }

  predicate StartsWith(s: string, prefix: string) {
    |prefix| <= |s| && s[..|prefix|] == prefix
  }

  /** `s.includes(w)` */
  predicate Contains(s: string, w: string)
    decreases |s|
  {
    StartsWith(s, w) || (|s| > 0 && Contains(s[1..], w))
  }

  lemma {:induction false} ContainsCharIsMembership(s: string, c: char)
    ensures Contains(s, [c]) <==> c in s
  {
    if |s| > 0 {
      ContainsCharIsMembership(s[1..], c);
      assert s == [s[0]] + s[1..];
    }
  }

  lemma {:induction false} ContainsItself(w: string)
    ensures Contains(w, w)
  {
    assert w[..|w|] == w;
  }

  /** Number of occurrences of `c` in `s`. */
  function Count(s: string, c: char): (n: nat)
    ensures n <= |s|
    ensures n == 0 <==> c !in s
  {
    if |s| == 0 then 0 else (if s[0] == c then 1 else 0) + Count(s[1..], c)
  }

  lemma {:induction false} CountAppend(a: string, b: string, c: char)
    ensures Count(a + b, c) == Count(a, c) + Count(b, c)
  {
    if |a| > 0 {
      assert (a + b)[1..] == a[1..] + b;
      CountAppend(a[1..], b, c);
    } else {
      assert a + b == b;
    }
  }

  function TrimStart(s: string): string
    decreases |s|
  {
    if |s| > 0 && IsSpace(s[0]) then TrimStart(s[1..]) else s
  }

  function TrimEnd(s: string): string
    decreases |s|
  {
    if |s| > 0 && IsSpace(s[|s| - 1]) then TrimEnd(s[..|s| - 1]) else s
  }

  /** `s.trim()`: the longest infix of `s` that neither starts nor ends with white space. */
  function Trim(s: string): (r: string)
  {
    TrimEnd(TrimStart(s))
  }

  lemma TrimEndKeepsStart(s: string)
    ensures |TrimEnd(s)| > 0 ==> TrimEnd(s)[0] == s[0]
  {
  }

  /** What `trim` removes is white space only, and what it keeps neither begins nor ends
      with white space. */
  lemma {:induction false} TrimIsInfix(s: string)
    ensures exists i, j ::
              && 0 <= i <= j <= |s| && Trim(s) == s[i..j]
              && (forall k :: 0 <= k < i ==> IsSpace(s[k]))
              && (forall k :: j <= k < |s| ==> IsSpace(s[k]))
    ensures |Trim(s)| > 0 ==> !IsSpace(Trim(s)[0]) && !IsSpace(Trim(s)[|Trim(s)| - 1])
  {
    var i := TrimStartLength(s);
    var t := s[i..];
    var j := TrimEndLength(t);
    assert Trim(s) == s[i..i + j];
    TrimEndKeepsStart(t);
  }

  lemma {:induction false} TrimStartLength(s: string) returns (i: nat)
    ensures i <= |s| && TrimStart(s) == s[i..]
    ensures forall k :: 0 <= k < i ==> IsSpace(s[k])
    ensures i < |s| ==> !IsSpace(s[i])
    decreases |s|
  {
    if |s| > 0 && IsSpace(s[0]) {
      var i' := TrimStartLength(s[1..]);
      i := i' + 1;
      assert s[1..][i'..] == s[i..];
    } else {
      i := 0;
    }
  }

  lemma {:induction false} TrimEndLength(s: string) returns (j: nat)
    ensures j <= |s| && TrimEnd(s) == s[..j]
    ensures forall k :: j <= k < |s| ==> IsSpace(s[k])
    ensures j > 0 ==> !IsSpace(s[j - 1])
    decreases |s|
  {
    if |s| > 0 && IsSpace(s[|s| - 1]) {
      j := TrimEndLength(s[..|s| - 1]);
      assert s[..|s| - 1][..j] == s[..j];
    } else {
      j := |s|;
    }
  }

  /** A string that neither starts nor ends with white space is its own trim. */
  lemma TrimOfTrimmed(s: string)
    requires |s| > 0 ==> !IsSpace(s[0]) && !IsSpace(s[|s| - 1])
    ensures Trim(s) == s
  {
  }

  /** `s.split(c)` for a one-character separator: the pieces between the occurrences of
      `c`, at least one piece. */
  function Split(s: string, c: char): (parts: seq<string>)
    ensures |parts| == Count(s, c) + 1
    ensures forall i :: 0 <= i < |parts| ==> c !in parts[i]
    decreases |s|
  {
    if |s| == 0 then [""]
    else if s[0] == c then [""] + Split(s[1..], c)
    else
      var rest := Split(s[1..], c);
      [[s[0]] + rest[0]] + rest[1..]
  }

  /** `parts.join(sep)` */
  function Join(parts: seq<string>, sep: string): string
    decreases |parts|
  {
    if |parts| == 0 then ""
    else if |parts| == 1 then parts[0]
    else parts[0] + sep + Join(parts[1..], sep)
  }

  /** Splitting on `c` and joining with `c` gives back the string. */
  lemma {:induction false} JoinSplit(s: string, c: char)
    ensures Join(Split(s, c), [c]) == s
    decreases |s|
  {
    if |s| == 0 {
    } else if s[0] == c {
      JoinSplit(s[1..], c);
      var rest := Split(s[1..], c);
      assert Split(s, c) == [""] + rest;
      assert s == [c] + s[1..];
    } else {
      JoinSplit(s[1..], c);
      var rest := Split(s[1..], c);
      var parts := Split(s, c);
      assert parts == [[s[0]] + rest[0]] + rest[1..];
      if |rest| == 1 {
        assert Join(parts, [c]) == [s[0]] + rest[0];
      } else {
        assert parts[1..] == rest[1..];
        assert Join(rest, [c]) == rest[0] + [c] + Join(rest[1..], [c]);
      }
      assert s == [s[0]] + s[1..];
    }
  }

  /** The part of `s` before the first occurrence of the non-empty `w`
      (all of `s` when `w` does not occur): `s.split(w)[0]`. */
  function PrefixBefore(s: string, w: string): (r: string)
    requires |w| > 0
    ensures |r| <= |s| && s[..|r|] == r
    ensures Contains(s, w) ==> StartsWith(s[|r|..], w)
    ensures !Contains(s, w) ==> r == s
    decreases |s|
  {
    if StartsWith(s, w) then ""
    else if |s| == 0 then ""
    else [s[0]] + PrefixBefore(s[1..], w)
  }
}
