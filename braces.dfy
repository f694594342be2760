/** Curly-brace depth of generated JavaScript: how many blocks a statement
    leaves open. The directives' statements open and close blocks across
    several lines, and their nesting is read off this count. */
module Braces {

  /** The curly-brace depth a piece of JavaScript opens: `{` counts one,
      `}` minus one. */
  function Depth(s: string): int
  {
    if s == [] then 0
    else (if s[0] == '{' then 1 else if s[0] == '}' then -1 else 0) + Depth(s[1..])
  }

  predicate Braceless(s: string) {
    '{' !in s && '}' !in s
  }

  lemma BracelessAppend(a: string, b: string)
    requires Braceless(a) && Braceless(b)
    ensures Braceless(a + b)
  {
  }

  lemma {:induction false} DepthAppend(a: string, b: string)
    ensures Depth(a + b) == Depth(a) + Depth(b)
  {
    if a == [] {
      assert a + b == b;
    } else {
      assert (a + b)[0] == a[0];
      assert (a + b)[1..] == a[1..] + b;
      DepthAppend(a[1..], b);
    }
  }

  lemma {:induction false} DepthBraceless(s: string)
    requires Braceless(s)
    ensures Depth(s) == 0
  {
    if s != [] {
      assert s[0] in s;
      assert forall c :: c in s[1..] ==> c in s;
      DepthBraceless(s[1..]);
    }
  }

  /** A brace-free text and one character in front of the rest: only that
      character changes the depth. */
  lemma BraceStep(p: string, b: char, rest: string)
    requires Braceless(p)
    ensures Depth(p + [b] + rest) == (if b == '{' then 1 else if b == '}' then -1 else 0) + Depth(rest)
  {
    DepthBraceless(p);
    DepthAppend(p, [b] + rest);
    assert p + [b] + rest == p + ([b] + rest);
    assert ([b] + rest)[1..] == rest;
  }

  /** A brace-free text, one brace, a brace-free text. */
  lemma OneBrace(p: string, b: char, q: string)
    requires Braceless(p) && Braceless(q) && (b == '{' || b == '}')
    ensures Depth(p + [b] + q) == if b == '{' then 1 else -1
  {
    DepthBraceless(p);
    DepthBraceless(q);
    DepthAppend(p, [b]);
    DepthAppend(p + [b], q);
    assert Depth([b]) == (if b == '{' then 1 else -1) + Depth([]);
  }

  /** A brace-free text, `}`, a brace-free text, `{`, a brace-free text. */
  lemma CloseThenOpen(p: string, q: string, r: string)
    requires Braceless(p) && Braceless(q) && Braceless(r)
    ensures Depth(p + "}" + q + "{" + r) == 0
  {
    OneBrace(p, '}', q);
    DepthBraceless(r);
    DepthAppend(p + "}" + q, "{");
    DepthAppend(p + "}" + q + "{", r);
    assert Depth("{") == 1 + Depth([]);
  }
}
