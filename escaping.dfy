/** `stringify`: prepares text for a single-quoted JavaScript string literal
    in the generated body. */
module Escaping {
  import opened Wrappers

  /** What one character becomes: `'` is preceded by a backslash and a line
      feed becomes the two characters `\n`. The source runs two global
      replacements one after the other; the first only adds backslashes and
      quotes, so the second meets exactly the original line feeds and the two
      passes act character by character. */
  function EscapeChar(c: char): string
  {
    if c == '\'' then "\\'" else if c == '\n' then "\\n" else [c]
  }

  /** `stringify(value)`. */
  function Stringify(s: string): (r: string)
    ensures '\n' !in r
    ensures |r| >= |s|
  {
    if s == [] then [] else EscapeChar(s[0]) + Stringify(s[1..])
  }

  /** Text needing no escape comes out unchanged. */
  lemma {:induction false} StringifyIdentity(s: string)
    requires '\'' !in s && '\n' !in s
    ensures Stringify(s) == s
  {
    if s != [] {
      var t := s[1..];
      assert s[0] in s;
      forall i | 0 <= i < |t| ensures t[i] != '\'' && t[i] != '\n' {
        assert t[i] == s[i + 1] && s[i + 1] in s;
      }
      StringifyIdentity(t);
      assert EscapeChar(s[0]) == [s[0]];
      assert s == [s[0]] + t;
    }
  }

  /** A quote in the output is always escaped: every `'` follows a backslash. */
  lemma {:induction false} StringifyQuotesEscaped(s: string, i: nat)
    requires i < |Stringify(s)| && Stringify(s)[i] == '\''
    ensures i > 0 && Stringify(s)[i - 1] == '\\'
  {
    var e := EscapeChar(s[0]);
    assert Stringify(s) == e + Stringify(s[1..]);
    if i >= |e| {
      StringifyQuotesEscaped(s[1..], i - |e|);
      assert Stringify(s)[i - 1] == Stringify(s[1..])[i - |e| - 1] || i - |e| == 0;
    }
  }

  /** What a JavaScript engine makes of the escape `\c` in a string literal:
      `\n` is a line feed, `\r` a carriage return, `\t` a tab; `\'` and
      `\\` stand for the quote and the backslash. The other escapes of
      ECMAScript (`\b`, `\x..`, `\u....`, line continuations, ...) are not
      modelled and read as the character itself. */
  function EscapedChar(c: char): char
  {
    if c == 'n' then '\n' else if c == 'r' then '\r' else if c == 't' then '\t' else c
  }

  /** A character read in front of a reading that succeeded. */
  function Prefix(c: char, r: Option<(string, string)>): Option<(string, string)>
  {
    if r.Some? then Some(([c] + r.value.0, r.value.1)) else None
  }

  /** How a JavaScript engine reads a single-quoted string literal whose
      opening quote is already consumed: up to the closing quote it yields the
      text the literal stands for, together with what follows that quote. A
      backslash starts an escape; a raw line feed or carriage return is a
      syntax error (a string literal cannot span lines), and so is a literal
      that never closes. Since ECMAScript 2019 the separators U+2028 and U+2029
      are allowed in string literals. */
  function ReadQuoted(t: string): (r: Option<(string, string)>)
    ensures r.Some? ==> |r.value.1| < |t|
  {
    if t == [] then None
    else if t[0] == '\'' then Some(([], t[1..]))
    else if t[0] == '\\' then
      if |t| < 2 then None else Prefix(EscapedChar(t[1]), ReadQuoted(t[2..]))
    else if t[0] == '\n' || t[0] == '\r' then None
    else Prefix(t[0], ReadQuoted(t[1..]))
  }

  /** What the literal `'t'` stands for, if it is one literal and reads. */
  function Unescape(t: string): (r: Option<string>)
  {
    match ReadQuoted(t + "'")
    case Some((v, rest)) => if rest == [] then Some(v) else None
    case None => None
  }

  /** Reading the escape of one character that is not a backslash, in front
      of more text: a carriage return breaks the literal, any other character
      reads back as itself. */
  lemma ReadEscapeChar(c: char, rest: string)
    requires c != '\\'
    ensures ReadQuoted(EscapeChar(c) + rest)
         == if c == '\r' then None else Prefix(c, ReadQuoted(rest))
  {
    if c == '\'' {
      assert ("\\'" + rest)[2..] == rest;
    } else if c == '\n' {
      assert ("\\n" + rest)[2..] == rest;
    } else {
      assert ([c] + rest)[1..] == rest;
    }
  }

  /** Reading a literal the compiler wrote gives back the original text and
      stops right after its closing quote, as long as that text holds neither
      a backslash (`stringify` does not escape it) nor a carriage return
      (`stringify` leaves it raw). */
  lemma {:induction false} ReadQuotedStringify(s: string, rest: string)
    requires '\\' !in s && '\r' !in s
    ensures ReadQuoted(Stringify(s) + "'" + rest) == Some((s, rest))
  {
    if s == [] {
      assert Stringify(s) + "'" + rest == "'" + rest;
      assert ("'" + rest)[1..] == rest;
    } else {
      assert forall c :: c in s[1..] ==> c in s;
      assert s[0] in s;
      ReadQuotedStringify(s[1..], rest);
      StringifyFront(s, rest);
      ReadEscapeChar(s[0], Stringify(s[1..]) + "'" + rest);
      assert s == [s[0]] + s[1..];
    }
  }

  /** The literal of a non-empty text, followed by more, starts with the escape
      of its first character. */
  lemma StringifyFront(s: string, rest: string)
    requires s != []
    ensures Stringify(s) + "'" + rest == EscapeChar(s[0]) + (Stringify(s[1..]) + "'" + rest)
  {
  }

  /** A carriage return reaches the literal raw: for backslash-free text with
      one, the literal the compiler writes does not read at all. */
  lemma {:induction false} ReadQuotedCarriageReturn(s: string, rest: string)
    requires '\\' !in s && '\r' in s
    ensures ReadQuoted(Stringify(s) + "'" + rest) == None
  {
    assert s[0] in s;
    ReadEscapeChar(s[0], Stringify(s[1..]) + "'" + rest);
    StringifyFront(s, rest);
    if s[0] != '\r' {
      assert '\r' in s[1..] by {
        var i :| 0 <= i < |s| && s[i] == '\r';
        assert s[1..][i - 1] == '\r';
      }
      assert forall c :: c in s[1..] ==> c in s;
      ReadQuotedCarriageReturn(s[1..], rest);
    }
  }

  /** The literal the compiler writes reads back as the original text as long
      as that text holds neither a backslash nor a carriage return. */
  lemma StringifyRoundTrip(s: string)
    requires '\\' !in s && '\r' !in s
    ensures Unescape(Stringify(s)) == Some(s)
  {
    ReadQuotedStringify(s, []);
    assert Stringify(s) + "'" + [] == Stringify(s) + "'";
  }

  /** For backslash-free text with a carriage return the generated body is
      not valid JavaScript: the literal does not read. */
  lemma StringifyCarriageReturnBreaks(s: string)
    requires '\\' !in s && '\r' in s
    ensures Unescape(Stringify(s)) == None
  {
    ReadQuotedCarriageReturn(s, []);
    assert Stringify(s) + "'" + [] == Stringify(s) + "'";
  }

  /** Without that restriction the round trip fails: a line feed and the two
      characters backslash-n give the same literal. */
  lemma StringifyConflatesBackslash()
    ensures Stringify("\n") == Stringify("\\n") == "\\n"
    ensures "\n" != "\\n"
  {
    assert Stringify("\\n") == EscapeChar('\\') + Stringify("n");
    assert Stringify("n") == "n" + Stringify("");
  }
}
