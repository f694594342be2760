/** String operations the compiler borrows from JavaScript: substring tests,
    `Array.prototype.join`, `String.prototype.trim` and a global literal
    `replace(…, '')`. */
module Strings {

  /** `p` occurs in `s` at position `i`. */
  predicate StartsWithAt(s: string, i: nat, p: string) {
    i + |p| <= |s| && s[i..i + |p|] == p
  }

  /** How a pattern with the `i` flag compares characters: ASCII letters
      without regard to case. The patterns searched this way are ASCII, and
      a non-ASCII character never matches an ASCII one under that flag, so
      no other folding matters. */
  function FoldCase(c: char): char
  {
    if 'A' <= c <= 'Z' then (c as int + 32) as char else c
  }

  /** `p` occurs in `s` at position `i`, ignoring the case of ASCII letters. */
  predicate StartsWithAtIgnoringCase(s: string, i: nat, p: string) {
    i + |p| <= |s| && forall j :: 0 <= j < |p| ==> FoldCase(s[i + j]) == FoldCase(p[j])
  }

  /** `p` occurs somewhere in `s[from..]`, ignoring case. */
  predicate OccursFrom(s: string, p: string, from: nat) {
    exists i: nat :: from <= i <= |s| && StartsWithAtIgnoringCase(s, i, p)
  }

  /** `p` occurs somewhere in `s`, ignoring case. */
  predicate Occurs(s: string, p: string) {
    OccursFrom(s, p, 0)
  }

  /** `parts.join(sep)`. */
  function Join(parts: seq<string>, sep: string): string
  {
    if |parts| == 0 then ""
    else if |parts| == 1 then parts[0]
    else parts[0] + sep + Join(parts[1..], sep)
  }

  /** The characters JavaScript's `trim` removes: WhiteSpace (tab, vertical
      tab, form feed, space, no-break space, the byte order mark and the Zs
      category) and LineTerminator (line feed, carriage return, line and
      paragraph separators), section 22.1.3.32 of ECMA-262. */
  predicate IsWhitespace(c: char) {
    c == '\t' || c == '\n' || c == '\U{000B}' || c == '\U{000C}' || c == '\r' || c == ' '
    || c == '\U{00A0}' || c == '\U{1680}' || ('\U{2000}' <= c <= '\U{200A}')
    || c == '\U{2028}' || c == '\U{2029}' || c == '\U{202F}' || c == '\U{205F}'
    || c == '\U{3000}' || c == '\U{FEFF}'
  }

  /** Every character of `s` is whitespace: `s.trim()` is falsy. */
  predicate IsBlank(s: string) {
    forall i :: 0 <= i < |s| ==> IsWhitespace(s[i])
  }

  function TrimStart(s: string): string
  {
    if s != [] && IsWhitespace(s[0]) then TrimStart(s[1..]) else s
  }

  function TrimEnd(s: string): string
  {
    if s != [] && IsWhitespace(s[|s| - 1]) then TrimEnd(s[..|s| - 1]) else s
  }

  /** `s.trim()`. */
  function Trim(s: string): string
  {
    TrimEnd(TrimStart(s))
  }

  /** `s.trim()` is the empty string exactly when `s` is blank. */
  lemma TrimEmptyIffBlank(s: string)
    ensures Trim(s) == [] <==> IsBlank(s)
  {
    TrimStartKeepsBlank(s);
    TrimEndEmptyIffBlank(TrimStart(s));
  }

  /** A string that neither starts nor ends with white space is its own trim. */
  lemma TrimUntouched(s: string)
    requires s != [] && !IsWhitespace(s[0]) && !IsWhitespace(s[|s| - 1])
    ensures Trim(s) == s
  {
  }

  lemma {:induction false} TrimStartKeepsBlank(s: string)
    ensures IsBlank(TrimStart(s)) <==> IsBlank(s)
  {
    if s != [] && IsWhitespace(s[0]) {
      TrimStartKeepsBlank(s[1..]);
      assert IsBlank(s[1..]) ==> IsBlank(s) by {
        if IsBlank(s[1..]) {
          forall i | 0 <= i < |s| ensures IsWhitespace(s[i]) {
            if i > 0 { assert s[i] == s[1..][i - 1]; }
          }
        }
      }
    }
  }

  lemma {:induction false} TrimEndEmptyIffBlank(s: string)
    ensures TrimEnd(s) == [] <==> IsBlank(s)
  {
    if s != [] && IsWhitespace(s[|s| - 1]) {
      var s' := s[..|s| - 1];
      TrimEndEmptyIffBlank(s');
      assert IsBlank(s') ==> IsBlank(s) by {
        if IsBlank(s') {
          forall i | 0 <= i < |s| ensures IsWhitespace(s[i]) {
            if i < |s| - 1 { assert s[i] == s'[i]; }
          }
        }
      }
    }
  }

  /** `s.substring(from).replace(/p/gi, '')` for a literal pattern `p`: a
      left-to-right scan that deletes each non-overlapping occurrence, in any
      letter case, and does not look again at what the deletion brings
      together. */
  function DeleteFrom(s: string, p: string, from: nat): string
    requires |p| > 0 && from <= |s|
    decreases |s| - from
  {
    if from + |p| > |s| then s[from..]
    else if StartsWithAtIgnoringCase(s, from, p) then DeleteFrom(s, p, from + |p|)
    else [s[from]] + DeleteFrom(s, p, from + 1)
  }

  /** `s.replace(/p/gim, '')`. */
  function DeleteAll(s: string, p: string): string
    requires |p| > 0
  {
    DeleteFrom(s, p, 0)
  }

  /** With no occurrence nothing changes; with one the text gets shorter. */
  lemma {:induction false} DeleteFromIdentity(s: string, p: string, from: nat)
    requires |p| > 0 && from <= |s|
    ensures OccursFrom(s, p, from) ==> |DeleteFrom(s, p, from)| < |s| - from
    ensures !OccursFrom(s, p, from) ==> DeleteFrom(s, p, from) == s[from..]
    decreases |s| - from
  {
    if from + |p| > |s| {
      assert !OccursFrom(s, p, from);
    } else if StartsWithAtIgnoringCase(s, from, p) {
      DeleteFromIdentity(s, p, from + |p|);
      assert OccursFrom(s, p, from);
    } else {
      DeleteFromIdentity(s, p, from + 1);
      OccursFromStep(s, p, from);
      assert s[from..] == [s[from]] + s[from + 1..];
    }
  }

  /** A position that does not start `p` changes nothing about whether `p`
      occurs from there on. */
  lemma OccursFromStep(s: string, p: string, from: nat)
    requires !StartsWithAtIgnoringCase(s, from, p)
    ensures OccursFrom(s, p, from) <==> OccursFrom(s, p, from + 1)
  {
    if OccursFrom(s, p, from) {
      var i: nat :| from <= i <= |s| && StartsWithAtIgnoringCase(s, i, p);
      assert i != from;
    }
    if OccursFrom(s, p, from + 1) {
      var i: nat :| from + 1 <= i <= |s| && StartsWithAtIgnoringCase(s, i, p);
      assert from <= i;
    }
  }

  /** `s.replace(/p/gim, '')` is the identity on strings without `p` and shortens every other. */
  lemma DeleteAllIdentity(s: string, p: string)
    requires |p| > 0
    ensures Occurs(s, p) ==> |DeleteAll(s, p)| < |s|
    ensures !Occurs(s, p) ==> DeleteAll(s, p) == s
  {
    DeleteFromIdentity(s, p, 0);
  }

  /** A text without the pattern's first character, when that is no letter,
      does not contain the pattern in any case. */
  lemma NoFirstCharNoOccur(s: string, p: string)
    requires |p| > 0 && p[0] !in s && !('A' <= p[0] <= 'Z') && !('a' <= p[0] <= 'z')
    ensures !Occurs(s, p)
  {
  }
}
