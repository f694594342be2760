/** The escaping shield: before the template reaches the markup tokenizer,
    every delimited span is wrapped in a CDATA section so that the tokenizer
    passes it through untouched; attribute values are unwrapped again when they
    are classified. */
module Shield {
  import opened Strings
  import opened Scanner

  const CdataOpen := "<![CDATA["
  const CdataClose := "]]>"

  /** The pieces written back with every span enveloped (`'<![CDATA[$&]]>'`). */
  function Wrapped(ps: seq<Piece>): string
  {
    if ps == [] then ""
    else
      (match ps[0] case Gap(t) => t case Span(f, _) => CdataOpen + f + CdataClose)
      + Wrapped(ps[1..])
  }

  function SpanCount(ps: seq<Piece>): nat
  {
    if ps == [] then 0 else (if ps[0].Span? then 1 else 0) + SpanCount(ps[1..])
  }

  /** `value.replace(pattern, '<![CDATA[$&]]>')` for one delimiter pattern. */
  function WrapSpans(s: string, d: Delims): string
  {
    Wrapped(Split(s, d, 0))
  }

  /** `wrapExpressions` of src/idomizer.ts: interpolations first, then
      expressions, the second pass running over the output of the first. */
  function WrapExpressions(s: string): string
  {
    WrapSpans(WrapSpans(s, Interpolation), Expression)
  }

  /** `wrapExpressions` of src/idomizer.js: the single `evaluation` pattern. */
  function WrapEvaluations(s: string): string
  {
    WrapSpans(s, Interpolation)
  }

  /** `unwrapExpressions` (both variants): delete every `<![CDATA[`, then every `]]>`. */
  function UnwrapExpressions(s: string): string
  {
    DeleteAll(DeleteAll(s, CdataOpen), CdataClose)
  }

  /** Each envelope adds its twelve marker characters and nothing else. */
  lemma {:induction false} WrappedLength(ps: seq<Piece>)
    ensures |Wrapped(ps)| == |Text(ps)| + 12 * SpanCount(ps)
  {
    if ps != [] {
      WrappedLength(ps[1..]);
    }
  }

  lemma {:induction false} WrappedNoSpan(ps: seq<Piece>)
    requires SpanCount(ps) == 0
    ensures Wrapped(ps) == Text(ps)
  {
    if ps != [] {
      WrappedNoSpan(ps[1..]);
    }
  }

  /** Wrapping changes a string exactly when the pattern matches in it. */
  lemma WrapSpansIdentity(s: string, d: Delims)
    ensures !Found(s, d) <==> WrapSpans(s, d) == s
  {
    var ps := Split(s, d, 0);
    SplitRestores(s, d, 0);
    assert s[0..] == s;
    WrappedLength(ps);
    if !Found(s, d) {
      SplitNoMatch(s, d);
      WrappedNoSpan(ps);
    } else {
      var m := MatchFrom(s, d, 0).value;
      SplitStep(s, d, 0, m);
      SpanCountAppend(GapIf(s[0..m.start]) + [Span(s[m.start..m.end], s[m.start + |d.open|..m.groupEnd])], Split(s, d, m.end));
      SpanCountAppend(GapIf(s[0..m.start]), [Span(s[m.start..m.end], s[m.start + |d.open|..m.groupEnd])]);
    }
  }

  lemma {:induction false} SpanCountAppend(a: seq<Piece>, b: seq<Piece>)
    ensures SpanCount(a + b) == SpanCount(a) + SpanCount(b)
  {
    if a == [] {
      assert a + b == b;
    } else {
      assert (a + b)[1..] == a[1..] + b;
      assert (a + b)[0] == a[0];
      SpanCountAppend(a[1..], b);
    }
  }

  /** Unwrapping changes a string exactly when it holds a CDATA marker. */
  lemma UnwrapIdentity(s: string)
    ensures !Occurs(s, CdataOpen) && !Occurs(s, CdataClose) <==> UnwrapExpressions(s) == s
  {
    DeleteAllIdentity(s, CdataOpen);
    var t := DeleteAll(s, CdataOpen);
    DeleteAllIdentity(t, CdataClose);
  }

  /** Shielding then unshielding literal text (no span of either pattern, no
      CDATA marker) gives the text back, in the current variant. */
  lemma ShieldRoundTripLiteral(s: string)
    requires !Found(s, Interpolation) && !Found(s, Expression)
    requires !Occurs(s, CdataOpen) && !Occurs(s, CdataClose)
    ensures WrapExpressions(s) == s
    ensures UnwrapExpressions(WrapExpressions(s)) == s
  {
    WrapSpansIdentity(s, Interpolation);
    WrapSpansIdentity(s, Expression);
    UnwrapIdentity(s);
  }

  /** The same round trip in the older variant. */
  lemma ShieldRoundTripLiteralLegacy(s: string)
    requires !Found(s, Interpolation)
    requires !Occurs(s, CdataOpen) && !Occurs(s, CdataClose)
    ensures WrapEvaluations(s) == s
    ensures UnwrapExpressions(WrapEvaluations(s)) == s
  {
    WrapSpansIdentity(s, Interpolation);
    UnwrapIdentity(s);
  }

  /** A text without `<` and `]` holds no CDATA marker and is left as it is. */
  lemma UnwrapMarkerFree(s: string)
    requires '<' !in s && ']' !in s
    ensures UnwrapExpressions(s) == s
  {
    NoFirstCharNoOccur(s, CdataOpen);
    NoFirstCharNoOccur(s, CdataClose);
    UnwrapIdentity(s);
  }

  /** Markers are removed in any letter case (the `i` flag of the source's
      pattern): a lower-case opening marker goes too. */
  lemma UnwrapAnyCase()
    ensures UnwrapExpressions("<![cdata[") == ""
  {
    var s := "<![cdata[";
    assert StartsWithAtIgnoringCase(s, 0, CdataOpen);
    assert DeleteAll(s, CdataOpen) == DeleteFrom(s, CdataOpen, 9) == "";
  }

  /** A position holding a character other than the pattern's first, when
      that is no letter, does not start the pattern in any case. */
  lemma NotStartingAt(s: string, i: nat, p: string)
    requires i < |s| && |p| > 0 && s[i] != p[0] && !('A' <= p[0] <= 'Z') && !('a' <= p[0] <= 'z')
    ensures !StartsWithAtIgnoringCase(s, i, p)
  {
    assert FoldCase(s[i + 0]) != FoldCase(p[0]);
  }

  /** A pattern that starts with a non-letter whose first character is
      missing from `s[a..]` does not occur from `a` on. */
  lemma NoStartFrom(s: string, p: string, a: nat)
    requires |p| > 0 && !('A' <= p[0] <= 'Z') && !('a' <= p[0] <= 'z')
    requires a <= |s| && p[0] !in s[a..]
    ensures !OccursFrom(s, p, a)
  {
    forall i: nat | a <= i <= |s| ensures !StartsWithAtIgnoringCase(s, i, p) {
      if i < |s| {
        assert s[i] == s[a..][i - a];
        NotStartingAt(s, i, p);
      }
    }
  }

  /** Before the first copy of the pattern's first character (a non-letter),
      deleting copies the text. */
  lemma {:induction false} DeleteFromCopies(t: string, p: string, from: nat, k: nat)
    requires |p| > 0 && !('A' <= p[0] <= 'Z') && !('a' <= p[0] <= 'z')
    requires from <= k && k + |p| <= |t| && p[0] !in t[from..k]
    ensures DeleteFrom(t, p, from) == t[from..k] + DeleteFrom(t, p, k)
    decreases k - from
  {
    if from < k {
      var m, n := t[from..k], t[from + 1..k];
      assert m == [t[from]] + n;
      assert t[from] in m && p[0] !in n;
      NotStartingAt(t, from, p);
      var d := DeleteFrom(t, p, k);
      assert DeleteFrom(t, p, from) == [t[from]] + DeleteFrom(t, p, from + 1);
      DeleteFromCopies(t, p, from + 1, k);
      assert [t[from]] + (n + d) == m + d;
    }
  }

  /** Unwrapping one envelope amid marker-free text gives the text without
      the envelope: a value the shield wrapped reaches `parseAttributes` as
      written. */
  lemma UnwrapEnvelope(pre: string, v: string, post: string)
    requires '<' !in pre && ']' !in pre && '<' !in v && ']' !in v && '<' !in post && ']' !in post
    ensures UnwrapExpressions(pre + CdataOpen + v + CdataClose + post) == pre + v + post
  {
    var s := pre + CdataOpen + v + CdataClose + post;
    var rest := v + CdataClose + post;
    assert s == pre + CdataOpen + rest;
    RestChars(v, post);
    DeleteOne(s, CdataOpen, pre, rest);
    var t := pre + rest;
    assert t == (pre + v) + CdataClose + post;
    DeleteOne(t, CdataClose, pre + v, post);
    assert (pre + v) + post == pre + v + post;
  }

  /** Deleting a marker that starts with a non-letter from a text holding it
      once, with its first character nowhere else, removes just that copy. */
  lemma DeleteOne(s: string, p: string, pre: string, rest: string)
    requires |p| > 0 && !('A' <= p[0] <= 'Z') && !('a' <= p[0] <= 'z')
    requires s == pre + p + rest && p[0] !in pre && p[0] !in rest
    ensures DeleteAll(s, p) == pre + rest
  {
    assert s[0..|pre|] == pre;
    DeleteFromCopies(s, p, 0, |pre|);
    DeleteTail(s, p, pre, rest);
  }

  /** From the marker on, deleting drops the marker and copies the rest. */
  lemma DeleteTail(s: string, p: string, pre: string, rest: string)
    requires |p| > 0 && !('A' <= p[0] <= 'Z') && !('a' <= p[0] <= 'z')
    requires s == pre + p + rest && p[0] !in rest
    ensures DeleteFrom(s, p, |pre|) == rest
  {
    var a := |pre| + |p|;
    assert s[|pre|..a] == p;
    assert StartsWithAtIgnoringCase(s, |pre|, p);
    assert s[a..] == rest;
    NoStartFrom(s, p, a);
    DeleteFromIdentity(s, p, a);
  }

  lemma RestChars(v: string, post: string)
    requires '<' !in v && '<' !in post
    ensures '<' !in v + CdataClose + post
  {
    var r := v + CdataClose + post;
    forall j | 0 <= j < |r| ensures r[j] != '<' {
      if j < |v| { assert r[j] == v[j]; }
      else if j >= |v| + 3 { assert r[j] == post[j - |v| - 3]; }
    }
  }
}
