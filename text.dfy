/**
 * The string operations the import parser relies on, with JavaScript's meaning:
 * the line terminators that `^` and `$` of a multiline regex recognise, the
 * white space of `\s` and `String.prototype.trim`, `toUpperCase` and the
 * `replace(/^\n+|\n+$/g, '')` clean-up applied to the headers block.
 */
module Text {

  /** The four line terminators of ECMAScript (LF, CR, LINE SEPARATOR, PARAGRAPH SEPARATOR). */
  predicate IsLineTerminator(c: char) {
    c == '\n' || c == '\r' || c == '\U{2028}' || c == '\U{2029}'
  }

  /** White space as `\s` and `trim` see it: ECMAScript WhiteSpace plus LineTerminator. */
  predicate IsSpace(c: char) {
    || IsLineTerminator(c)
    || c == '\t' || c == '\U{000B}' || c == '\U{000C}' || c == ' '
    || c == '\U{00A0}' || c == '\U{1680}' || ('\U{2000}' <= c <= '\U{200A}')
    || c == '\U{202F}' || c == '\U{205F}' || c == '\U{3000}' || c == '\U{FEFF}'
  }

  /** A string with no line terminator: what `.` in a regex can match in one go. */
  predicate SingleLine(s: string) {
    forall i :: 0 <= i < |s| ==> !IsLineTerminator(s[i])
  }

  /** True when `s` is empty or neither starts nor ends with white space. */
  predicate Trimmed(s: string) {
    s == [] || (!IsSpace(s[0]) && !IsSpace(s[|s| - 1]))
  }

  /** Drops the leading white space. */
  function TrimStart(s: string): string
  {
    if s != [] && IsSpace(s[0]) then TrimStart(s[1..]) else s
  }

  /** Drops the trailing white space. */
  function TrimEnd(s: string): string
  {
    if s != [] && IsSpace(s[|s| - 1]) then TrimEnd(s[..|s| - 1]) else s
  }

  /** `String.prototype.trim`. */
  function Trim(s: string): string
  {
    TrimEnd(TrimStart(s))
  }

  /** `TrimStart` keeps a suffix: everything it drops is white space, and what it keeps does not start with any. */
  lemma {:induction false} TrimStartSuffix(s: string)
    ensures var r := TrimStart(s);
      && |r| <= |s| && r == s[|s| - |r|..]
      && (forall i :: 0 <= i < |s| - |r| ==> IsSpace(s[i]))
      && (r == [] || !IsSpace(r[0]))
  {
    if s != [] && IsSpace(s[0]) {
      TrimStartSuffix(s[1..]);
      var r := TrimStart(s);
      assert s[1..][|s| - 1 - |r|..] == s[|s| - |r|..];
    }
  }

  /** `TrimEnd` keeps a prefix: everything it drops is white space, and what it keeps does not end with any. */
  lemma {:induction false} TrimEndPrefix(s: string)
    ensures var r := TrimEnd(s);
      && |r| <= |s| && r == s[..|r|]
      && (forall i :: |r| <= i < |s| ==> IsSpace(s[i]))
      && (r == [] || !IsSpace(r[|r| - 1]))
  {
    if s != [] && IsSpace(s[|s| - 1]) {
      TrimEndPrefix(s[..|s| - 1]);
      var r := TrimEnd(s);
      assert s[..|s| - 1][..|r|] == s[..|r|];
    }
  }

  /** `trim` leaves no white space at either end and never lengthens a string. */
  lemma TrimTrims(s: string)
    ensures Trimmed(Trim(s)) && |Trim(s)| <= |s|
  {
    var t := TrimStart(s);
    TrimStartSuffix(s);
    TrimEndPrefix(t);
    var r := TrimEnd(t);
    if r != [] {
      assert r[0] == t[0];
    }
  }

  /** A trimmed string is its own trim, and only a trimmed string is. */
  lemma TrimFixedPoint(s: string)
    ensures Trim(s) == s <==> Trimmed(s)
  {
    TrimTrims(s);
    if Trimmed(s) && s != [] {
      assert TrimStart(s) == s;
      assert TrimEnd(s) == s;
    }
  }

  /** Trimming twice is trimming once. */
  lemma TrimIdempotent(s: string)
    ensures Trim(Trim(s)) == Trim(s)
  {
    TrimTrims(s);
    TrimFixedPoint(Trim(s));
  }

  /** A trailing white-space character does not survive `trim`. */
  lemma {:induction false} TrimDropsTrailingSpace(s: string, c: char)
    requires Trimmed(s) && IsSpace(c)
    ensures Trim(s + [c]) == s
  {
    if s == [] {
      assert TrimStart([c]) == TrimStart([]);
    } else {
      assert TrimStart(s + [c]) == s + [c];
      assert (s + [c])[..|s + [c]| - 1] == s;
      TrimFixedPoint(s);
    }
  }

  /** The capital letters, in alphabetical order. */
  const Capitals: string := "ABCDEFGHIJKLMNOPQRSTUVWXYZ"

  /** `toUpperCase` on the ASCII letters; every other character is kept. */
  function UpperChar(c: char): (u: char)
    ensures IsSpace(u) == IsSpace(c) && IsLineTerminator(u) == IsLineTerminator(c)
    ensures !('a' <= u <= 'z')
    ensures !('a' <= c <= 'z') ==> u == c
    ensures 'a' <= c <= 'z' ==> u == Capitals[c as int - 'a' as int]
  {
    if 'a' <= c <= 'z' then (c as int - 32) as char else c
  }

  /** `toUpperCase`, character by character. */
  function ToUpper(s: string): (r: string)
    ensures |r| == |s|
    ensures forall i :: 0 <= i < |s| ==> r[i] == UpperChar(s[i])
  {
    seq(|s|, i requires 0 <= i < |s| => UpperChar(s[i]))
  }

  /** `replace(/^\n+|\n+$/g, '')`: the leading and the trailing runs of LF go. */
  function StripNewlines(s: string): string
  {
    DropTrailingNewlines(DropLeadingNewlines(s))
  }

  /** `^\n+`: the run of LF at the start goes. */
  function DropLeadingNewlines(s: string): string
  {
    if s != [] && s[0] == '\n' then DropLeadingNewlines(s[1..]) else s
  }

  /** `\n+$`: the run of LF at the end goes. */
  function DropTrailingNewlines(s: string): string
  {
    if s != [] && s[|s| - 1] == '\n' then DropTrailingNewlines(s[..|s| - 1]) else s
  }

  /** `DropLeadingNewlines` keeps a suffix, drops only LF, and leaves no LF in front. */
  lemma {:induction false} DropLeadingNewlinesSuffix(s: string)
    ensures var r := DropLeadingNewlines(s);
      && |r| <= |s| && r == s[|s| - |r|..]
      && (forall i :: 0 <= i < |s| - |r| ==> s[i] == '\n')
      && (r == [] || r[0] != '\n')
  {
    if s != [] && s[0] == '\n' {
      DropLeadingNewlinesSuffix(s[1..]);
      var r := DropLeadingNewlines(s);
      assert s[1..][|s| - 1 - |r|..] == s[|s| - |r|..];
    }
  }

  /** `DropTrailingNewlines` keeps a prefix, drops only LF, and leaves no LF at the end. */
  lemma {:induction false} DropTrailingNewlinesPrefix(s: string)
    ensures var r := DropTrailingNewlines(s);
      && |r| <= |s| && r == s[..|r|]
      && (forall i :: |r| <= i < |s| ==> s[i] == '\n')
      && (r == [] || r[|r| - 1] != '\n')
  {
    if s != [] && s[|s| - 1] == '\n' {
      DropTrailingNewlinesPrefix(s[..|s| - 1]);
      var r := DropTrailingNewlines(s);
      assert s[..|s| - 1][..|r|] == s[..|r|];
    }
  }

  /** The clean-up leaves a piece of the string that neither starts nor ends with LF. */
  lemma StripNewlinesStrips(s: string)
    ensures var r := StripNewlines(s);
      && |r| <= |s| && (r == [] || (r[0] != '\n' && r[|r| - 1] != '\n'))
  {
    var t := DropLeadingNewlines(s);
    DropLeadingNewlinesSuffix(s);
    DropTrailingNewlinesPrefix(t);
    var r := DropTrailingNewlines(t);
    if r != [] {
      assert r[0] == t[0];
    }
  }

  /** After `trim` the newline clean-up has nothing left to remove. */
  lemma StripNewlinesAfterTrim(s: string)
    ensures StripNewlines(Trim(s)) == Trim(s)
  {
    var t := Trim(s);
    TrimTrims(s);
    if t != [] {
      assert DropLeadingNewlines(t) == t;
      assert DropTrailingNewlines(t) == t;
    }
  }
}
