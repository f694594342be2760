/** `createSafeJsBlock` of src/idomizer.ts: the try/catch guard put around
    each interpolated expression when exceptions are skipped. */
module Guard {
  import opened Braces

  /** `createSafeJsBlock`: an expression whose exceptions yield `''`. The
      template `(function () { try { return ${value} } catch(e) { return '' } })()`
      is written as its pieces so that the braces can be counted. */
  function SafeJsBlock(value: string): string
  {
    "(function () " + "{" + " try " + "{" + " return " + value
    + " " + "}" + " catch(e) " + "{" + " return '' " + "}" + " " + "}" + ")()"
  }

  /** The guarded expression is self-contained: for a brace-free expression
      it closes every block it opens. */
  lemma SafeJsBlockBalanced(v: string)
    requires Braceless(v)
    ensures Depth(SafeJsBlock(v)) == 0
  {
    GuardTextsBraceless();
    var p := "(function () ";
    DepthBraceless(p);
    p := OpenBrace(p);
    p := PlainText(p, " try ");
    p := OpenBrace(p);
    p := PlainText(p, " return ");
    p := PlainText(p, v);
    p := PlainText(p, " ");
    p := CloseBrace(p);
    p := PlainText(p, " catch(e) ");
    p := OpenBrace(p);
    p := PlainText(p, " return '' ");
    p := CloseBrace(p);
    p := PlainText(p, " ");
    p := CloseBrace(p);
    p := PlainText(p, ")()");
  }

  /** The literal text between the guard's braces. */
  lemma GuardTextsBraceless()
    ensures Braceless("(function () ") && Braceless(" try ") && Braceless(" return ")
    ensures Braceless(" ") && Braceless(" catch(e) ") && Braceless(" return '' ") && Braceless(")()")
  {
  }

  lemma PlainText(p: string, t: string) returns (q: string)
    requires Braceless(t)
    ensures q == p + t && Depth(q) == Depth(p)
  {
    DepthBraceless(t);
    DepthAppend(p, t);
    q := p + t;
  }

  lemma OpenBrace(p: string) returns (q: string)
    ensures q == p + "{" && Depth(q) == Depth(p) + 1
  {
    assert Depth("{") == 1 + Depth([]);
    DepthAppend(p, "{");
    q := p + "{";
  }

  lemma CloseBrace(p: string) returns (q: string)
    ensures q == p + "}" && Depth(q) == Depth(p) - 1
  {
    assert Depth("}") == -1 + Depth([]);
    DepthAppend(p, "}");
    q := p + "}";
  }
}
