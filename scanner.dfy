/** The delimiter scanner behind `evaluate`, `wrapExpressions` and every
    `search` of a delimiter pattern.

    The compiler's patterns are `/{{([\s\S]+?)}}/gm` (interpolation, and the
    older variant's `evaluation`) and `/\[\[([\s\S]+?)]]/gm` (expression). Such
    a pattern matches at the leftmost position where the open delimiter
    starts AND some close delimiter starts at least one character after it; the
    lazy group then stops at the earliest such close. A global `exec` loop
    resumes after the previous match, so the scan is a stateless left-to-right
    walk: `MatchFrom` is one `exec`, `Split` the whole walk. */
module Scanner {
  import opened Wrappers
  import opened Strings

  datatype Delims = Delims(open: string, close: string)

  /** `{{…}}`: `interpolation` in src/idomizer.ts, `evaluation` in src/idomizer.js. */
  const Interpolation := Delims("{{", "}}")

  /** `[[…]]`: `expression` in src/idomizer.ts. */
  const Expression := Delims("[[", "]]")

  /** The earliest start of `c` at or after position `k`. */
  function CloseFrom(s: string, c: string, k: nat): (r: Option<nat>)
    ensures r.Some? ==> k <= r.value && r.value + |c| <= |s|
    decreases |s| - k
  {
    if k + |c| > |s| then None
    else if StartsWithAt(s, k, c) then Some(k)
    else CloseFrom(s, c, k + 1)
  }

  /** The earliest occurrence at or after `k` is what `CloseFrom` finds. */
  lemma CloseFromIs(s: string, c: string, k: nat, r: nat)
    requires k <= r && StartsWithAt(s, r, c)
    requires forall j: nat :: k <= j < r ==> !StartsWithAt(s, j, c)
    ensures CloseFrom(s, c, k) == Some(r)
  {
    CloseFromSpec(s, c, k);
  }

  /** `CloseFrom` finds the earliest occurrence, and finds none only when there
      is none. */
  lemma {:induction false} CloseFromSpec(s: string, c: string, k: nat)
    ensures var r := CloseFrom(s, c, k);
      && (r.Some? ==> StartsWithAt(s, r.value, c))
      && (r.Some? ==> forall j: nat :: k <= j < r.value ==> !StartsWithAt(s, j, c))
      && (r.None? <==> forall j: nat :: k <= j ==> !StartsWithAt(s, j, c))
    decreases |s| - k
  {
    if k + |c| <= |s| && !StartsWithAt(s, k, c) {
      CloseFromSpec(s, c, k + 1);
      forall j: nat | k <= j && (CloseFrom(s, c, k).None? || j < CloseFrom(s, c, k).value)
        ensures !StartsWithAt(s, j, c)
      {
        if j > k { }
      }
    }
  }

  /** A match of `d` can start at `i`: the open delimiter is there and a close
      delimiter starts after at least one further character. */
  predicate MatchesAt(s: string, d: Delims, i: nat) {
    StartsWithAt(s, i, d.open) && CloseFrom(s, d.close, i + |d.open| + 1).Some?
  }

  /** One match: the open delimiter at `start`, the group up to `groupEnd`,
      the close delimiter up to `end`. */
  datatype Match = Match(start: nat, groupEnd: nat, end: nat)

  /** `m` is a match of `d` in `s` whose group stops at the earliest close. */
  predicate IsMatch(s: string, d: Delims, m: Match) {
    && StartsWithAt(s, m.start, d.open)
    && m.start + |d.open| + 1 <= m.groupEnd
    && StartsWithAt(s, m.groupEnd, d.close)
    && m.end == m.groupEnd + |d.close|
    && (forall j: nat :: m.start + |d.open| + 1 <= j < m.groupEnd ==> !StartsWithAt(s, j, d.close))
  }

  /** One `regex.exec(s)` with `lastIndex == from`: the leftmost match at or
      after `from`, or none. */
  function MatchFrom(s: string, d: Delims, from: nat): (r: Option<Match>)
    ensures r.Some? ==> && from <= r.value.start
                        && r.value.start + |d.open| + 1 <= r.value.groupEnd
                        && r.value.end == r.value.groupEnd + |d.close| <= |s|
    decreases |s| - from
  {
    if from >= |s| then None
    else if MatchesAt(s, d, from) then
      var j := CloseFrom(s, d.close, from + |d.open| + 1).value;
      Some(Match(from, j, j + |d.close|))
    else
      MatchFrom(s, d, from + 1)
  }

  /** `MatchFrom` is the leftmost match at or after `from`, with the earliest
      close, and there is none only when no position can start a match. */
  lemma {:induction false} MatchFromSpec(s: string, d: Delims, from: nat)
    ensures var r := MatchFrom(s, d, from);
      && (r.Some? ==> IsMatch(s, d, r.value))
      && (r.Some? ==> forall i: nat :: from <= i < r.value.start ==> !MatchesAt(s, d, i))
      && (r.None? <==> forall i: nat :: from <= i ==> !MatchesAt(s, d, i))
    decreases |s| - from
  {
    if from >= |s| {
      forall i: nat | from <= i ensures !MatchesAt(s, d, i) {
        assert CloseFrom(s, d.close, i + |d.open| + 1).None?;
      }
    } else if MatchesAt(s, d, from) {
      MatchAtFrom(s, d, from);
    } else {
      MatchFromSpec(s, d, from + 1);
      NotAtFrom(s, d, from);
    }
  }

  /** A match found where the walk starts is a match with the earliest close. */
  lemma MatchAtFrom(s: string, d: Delims, from: nat)
    requires from < |s| && MatchesAt(s, d, from)
    ensures MatchFrom(s, d, from).Some? && IsMatch(s, d, MatchFrom(s, d, from).value)
  {
    var k := from + |d.open| + 1;
    var r := CloseFrom(s, d.close, k);
    CloseFromSpec(s, d.close, k);
    var m := Match(from, r.value, r.value + |d.close|);
    assert MatchFrom(s, d, from) == Some(m);
    assert StartsWithAt(s, m.groupEnd, d.close);
    assert forall j: nat :: k <= j < r.value ==> !StartsWithAt(s, j, d.close);
  }

  /** The positions before a failed start that the rest of the walk skips. */
  lemma NotAtFrom(s: string, d: Delims, from: nat)
    requires from < |s| && !MatchesAt(s, d, from)
    requires var r := MatchFrom(s, d, from + 1);
      (r.Some? ==> forall i: nat :: from + 1 <= i < r.value.start ==> !MatchesAt(s, d, i))
      && (r.None? ==> forall i: nat :: from + 1 <= i ==> !MatchesAt(s, d, i))
    ensures var r := MatchFrom(s, d, from);
      (r.Some? ==> forall i: nat :: from <= i < r.value.start ==> !MatchesAt(s, d, i))
      && (r.None? ==> forall i: nat :: from <= i ==> !MatchesAt(s, d, i))
  {
    assert MatchFrom(s, d, from) == MatchFrom(s, d, from + 1);
  }

  /** `s.search(pattern) > -1`. */
  predicate Found(s: string, d: Delims) {
    MatchFrom(s, d, 0).Some?
  }

  /** A literal gap between matches, or a matched span with its group. */
  datatype Piece = Gap(text: string) | Span(full: string, group: string)

  predicate WellFormed(p: Piece, d: Delims) {
    match p
    case Gap(t) => t != []
    case Span(full, group) => |group| >= 1 && full == d.open + group + d.close
  }

  function GapIf(t: string): (r: seq<Piece>)
  {
    if t == [] then [] else [Gap(t)]
  }

  /** The text a sequence of pieces was cut from. */
  function Text(ps: seq<Piece>): string
  {
    if ps == [] then "" else PieceText(ps[0]) + Text(ps[1..])
  }

  function PieceText(p: Piece): string
  {
    match p
    case Gap(t) => t
    case Span(f, _) => f
  }

  /** The walk of the `exec` loop from `from`: the non-empty gap before each
      match, the match, and the non-empty gap after the last one. */
  function Split(s: string, d: Delims, from: nat): (r: seq<Piece>)
    requires from <= |s|
    decreases |s| - from
  {
    match MatchFrom(s, d, from)
    case None => GapIf(s[from..])
    case Some(m) =>
      GapIf(s[from..m.start]) + [Span(s[m.start..m.end], s[m.start + |d.open|..m.groupEnd])] + Split(s, d, m.end)
  }

  lemma {:induction false} TextAppend(a: seq<Piece>, b: seq<Piece>)
    ensures Text(a + b) == Text(a) + Text(b)
  {
    if a == [] {
      assert a + b == b;
    } else {
      assert (a + b)[1..] == a[1..] + b;
      assert (a + b)[0] == a[0];
      TextAppend(a[1..], b);
      calc {
        Text(a + b);
        PieceText(a[0]) + Text(a[1..] + b);
        PieceText(a[0]) + (Text(a[1..]) + Text(b));
        (PieceText(a[0]) + Text(a[1..])) + Text(b);
      }
    }
  }

  /** One step of the walk: the gap before the match, the match, the rest. */
  lemma SplitStep(s: string, d: Delims, from: nat, m: Match)
    requires from <= |s| && MatchFrom(s, d, from) == Some(m)
    ensures m.end <= |s|
    ensures Split(s, d, from)
         == GapIf(s[from..m.start]) + [Span(s[m.start..m.end], s[m.start + |d.open|..m.groupEnd])] + Split(s, d, m.end)
  {
  }

  /** The three slices of a match are its open delimiter, group and close delimiter. */
  lemma MatchSlices(s: string, d: Delims, m: Match)
    requires IsMatch(s, d, m) && m.end <= |s|
    ensures s[m.start..m.end] == d.open + s[m.start + |d.open|..m.groupEnd] + d.close
  {
    var g := m.start + |d.open|;
    assert s[m.start..m.end] == s[m.start..g] + s[g..m.groupEnd] + s[m.groupEnd..m.end];
  }

  /** Every piece of the walk is a non-empty gap or a delimited span with a
      group of at least one character. */
  lemma {:induction false} SplitWellFormed(s: string, d: Delims, from: nat)
    requires from <= |s|
    ensures forall p <- Split(s, d, from) :: WellFormed(p, d)
    decreases |s| - from
  {
    var r := MatchFrom(s, d, from);
    if r.Some? {
      var m := r.value;
      MatchFromSpec(s, d, from);
      MatchSlices(s, d, m);
      SplitStep(s, d, from, m);
      SplitWellFormed(s, d, m.end);
      var head := GapIf(s[from..m.start]) + [Span(s[m.start..m.end], s[m.start + |d.open|..m.groupEnd])];
      assert forall p <- head :: WellFormed(p, d);
      AllAppend(head, Split(s, d, m.end), d);
    }
  }

  lemma AllAppend(a: seq<Piece>, b: seq<Piece>, d: Delims)
    requires forall p <- a :: WellFormed(p, d)
    requires forall p <- b :: WellFormed(p, d)
    ensures forall p <- a + b :: WellFormed(p, d)
  {
  }

  /** The pieces put back together give the scanned text: no character is
      lost, duplicated or moved. */
  lemma {:induction false} SplitRestores(s: string, d: Delims, from: nat)
    requires from <= |s|
    ensures Text(Split(s, d, from)) == s[from..]
    decreases |s| - from
  {
    var r := MatchFrom(s, d, from);
    if r.None? {
      TextGapIf(s[from..]);
    } else {
      var m := r.value;
      SplitStep(s, d, from, m);
      var gap := GapIf(s[from..m.start]);
      var span := [Span(s[m.start..m.end], s[m.start + |d.open|..m.groupEnd])];
      var rest := Split(s, d, m.end);
      SplitRestores(s, d, m.end);
      TextAppend(gap + span, rest);
      TextAppend(gap, span);
      TextGapIf(s[from..m.start]);
      assert Text(span) == s[m.start..m.end] by {
        assert span[1..] == [];
        assert Text(span) == s[m.start..m.end] + Text([]);
      }
      SliceJoin(s, from, m.start, m.end);
    }
  }

  lemma SliceJoin(s: string, i: nat, j: nat, k: nat)
    requires i <= j <= k <= |s|
    ensures s[i..] == s[i..j] + s[j..k] + s[k..]
  {
  }

  lemma TextGapIf(t: string)
    ensures Text(GapIf(t)) == t
  {
    if t != [] { assert Text([Gap(t)]) == t + Text([]); }
  }

  lemma SplitNoMatch(s: string, d: Delims)
    requires !Found(s, d)
    ensures Split(s, d, 0) == GapIf(s)
  {
    assert s[0..] == s;
  }

  /** An evaluator record: the join operator between fragments, the optional
      rendering of a literal gap, the rendering of a group. */
  datatype Evaluator = Evaluator(appender: string, toText: Option<string -> string>, inject: string -> string)

  /** A span survives rendering unless blank groups are dropped and its group is
      blank (`if (group.trim())`). */
  predicate Kept(p: Piece, skipBlank: bool) {
    p.Gap? || !skipBlank || Trim(p.group) != []
  }

  function KeptPieces(ps: seq<Piece>, skipBlank: bool): (r: seq<Piece>)
  {
    if ps == [] then []
    else (if Kept(ps[0], skipBlank) then [ps[0]] else []) + KeptPieces(ps[1..], skipBlank)
  }

  /** What a kept piece renders to, when it can be rendered. */
  function Fragment(p: Piece, ev: Evaluator): string
    requires p.Gap? ==> ev.toText.Some?
  {
    match p
    case Gap(t) => ev.toText.value(t)
    case Span(_, g) => ev.inject(g)
  }

  function Prepend(js: seq<string>, r: Result<seq<string>, TypeError>): Result<seq<string>, TypeError>
  {
    match r
    case Success(t) => Success(js + t)
    case Failure(e) => Failure(e)
  }

  /** What one piece pushes: a gap its `toText` (a TypeError without one), a
      kept span its `inject`, a dropped span nothing. */
  function RenderPiece(p: Piece, ev: Evaluator, skipBlank: bool): Result<seq<string>, TypeError>
  {
    match p
    case Gap(t) => if ev.toText.Some? then Success([ev.toText.value(t)]) else Failure(ToTextNotAFunction)
    case Span(_, g) => if Kept(p, skipBlank) then Success([ev.inject(g)]) else Success([])
  }

  /** The fragments `js.push` collects, or the TypeError that stops the loop. */
  function Render(ps: seq<Piece>, ev: Evaluator, skipBlank: bool): Result<seq<string>, TypeError>
  {
    if ps == [] then Success([])
    else
      match RenderPiece(ps[0], ev, skipBlank)
      case Failure(e) => Failure(e)
      case Success(h) => Prepend(h, Render(ps[1..], ev, skipBlank))
  }

  predicate HasGap(ps: seq<Piece>) {
    exists i :: 0 <= i < |ps| && ps[i].Gap?
  }

  /** Rendering fails exactly when there is a gap and no `toText`; otherwise the
      fragments are the kept pieces, each rendered, in their order. */
  lemma {:induction false} RenderInOrder(ps: seq<Piece>, ev: Evaluator, skipBlank: bool)
    ensures Render(ps, ev, skipBlank).Failure? <==> ev.toText.None? && HasGap(ps)
    ensures Render(ps, ev, skipBlank).Failure? ==> Render(ps, ev, skipBlank).error == ToTextNotAFunction
    ensures Render(ps, ev, skipBlank).Success? ==>
      var frags, kept := Render(ps, ev, skipBlank).value, KeptPieces(ps, skipBlank);
      |frags| == |kept|
      && forall i :: 0 <= i < |frags| ==> (kept[i].Gap? ==> ev.toText.Some?) && frags[i] == Fragment(kept[i], ev)
  {
    if ps != [] {
      RenderInOrder(ps[1..], ev, skipBlank);
      HasGapCons(ps);
      if Render(ps, ev, skipBlank).Success? {
        RenderCons(ps, ev, skipBlank);
        var h, rest := RenderPiece(ps[0], ev, skipBlank).value, Render(ps[1..], ev, skipBlank).value;
        var hk, kt := if Kept(ps[0], skipBlank) then [ps[0]] else [], KeptPieces(ps[1..], skipBlank);
        RenderPieceFragment(ps[0], ev, skipBlank);
        var frags, kept := h + rest, hk + kt;
        assert Render(ps, ev, skipBlank).value == frags;
        assert KeptPieces(ps, skipBlank) == kept;
        forall i | 0 <= i < |frags|
          ensures (kept[i].Gap? ==> ev.toText.Some?) && frags[i] == Fragment(kept[i], ev)
        {
          if i >= |h| {
            assert frags[i] == rest[i - |h|] && kept[i] == kt[i - |h|];
          }
        }
      }
    }
  }

  /** A sequence has a gap when its head is one or its tail has one. */
  lemma HasGapCons(ps: seq<Piece>)
    requires ps != []
    ensures HasGap(ps) <==> ps[0].Gap? || HasGap(ps[1..])
  {
    if HasGap(ps[1..]) {
      var i :| 0 <= i < |ps[1..]| && ps[1..][i].Gap?;
      assert ps[i + 1].Gap?;
    }
    if HasGap(ps) && !ps[0].Gap? {
      var i :| 0 <= i < |ps| && ps[i].Gap?;
      assert ps[1..][i - 1].Gap?;
    }
  }

  /** A piece that renders pushes its fragment when it is kept, nothing otherwise. */
  lemma RenderPieceFragment(p: Piece, ev: Evaluator, skipBlank: bool)
    requires RenderPiece(p, ev, skipBlank).Success?
    ensures p.Gap? ==> ev.toText.Some?
    ensures RenderPiece(p, ev, skipBlank).value == if Kept(p, skipBlank) then [Fragment(p, ev)] else []
  {
  }

  /** A rendering that succeeds is the head's fragments followed by the tail's. */
  lemma RenderCons(ps: seq<Piece>, ev: Evaluator, skipBlank: bool)
    requires ps != [] && Render(ps, ev, skipBlank).Success?
    ensures RenderPiece(ps[0], ev, skipBlank).Success? && Render(ps[1..], ev, skipBlank).Success?
    ensures Render(ps, ev, skipBlank).value
         == RenderPiece(ps[0], ev, skipBlank).value + Render(ps[1..], ev, skipBlank).value
  {
  }

  /** `evaluate`: render the walk's pieces and join them with the appender. */
  function Evaluate(value: string, ev: Evaluator, d: Delims, skipBlank: bool): (r: Result<string, TypeError>)
    ensures ev.toText.Some? ==> r.Success?
  {
    RenderInOrder(Split(value, d, 0), ev, skipBlank);
    match Render(Split(value, d, 0), ev, skipBlank)
    case Success(frags) => Success(Join(frags, ev.appender))
    case Failure(e) => Failure(e)
  }

  /** With no match, `evaluate` is `toText` of the whole value, or `""` for the
      empty value; an evaluator without `toText` fails on a non-empty one. */
  lemma EvaluateNoMatch(value: string, ev: Evaluator, d: Delims, skipBlank: bool)
    requires !Found(value, d)
    ensures value == [] ==> Evaluate(value, ev, d, skipBlank) == Success("")
    ensures value != [] && ev.toText.Some? ==>
      Evaluate(value, ev, d, skipBlank) == Success(ev.toText.value(value))
    ensures value != [] && ev.toText.None? ==>
      Evaluate(value, ev, d, skipBlank) == Failure(ToTextNotAFunction)
  {
    SplitNoMatch(value, d);
    RenderGapIf(value, ev, skipBlank);
  }

  /** A gap renders to its `toText`; no gap renders to nothing. */
  lemma RenderGapIf(t: string, ev: Evaluator, skipBlank: bool)
    ensures t == [] ==> Render(GapIf(t), ev, skipBlank) == Success([])
    ensures t != [] && ev.toText.Some? ==> Render(GapIf(t), ev, skipBlank) == Success([ev.toText.value(t)])
    ensures t != [] && ev.toText.None? ==> Render(GapIf(t), ev, skipBlank) == Failure(ToTextNotAFunction)
  {
    if t != [] {
      assert [Gap(t)][1..] == [];
      if ev.toText.Some? { assert [ev.toText.value(t)] + [] == [ev.toText.value(t)]; }
    }
  }

  function Then(a: Result<seq<string>, TypeError>, b: Result<seq<string>, TypeError>): Result<seq<string>, TypeError>
  {
    match a
    case Success(x) => Prepend(x, b)
    case Failure(e) => Failure(e)
  }

  lemma {:induction false} RenderAppend(a: seq<Piece>, b: seq<Piece>, ev: Evaluator, skipBlank: bool)
    ensures Render(a + b, ev, skipBlank) == Then(Render(a, ev, skipBlank), Render(b, ev, skipBlank))
  {
    if a == [] {
      assert a + b == b;
      match Render(b, ev, skipBlank)
      case Success(t) => assert [] + t == t;
      case Failure(_) =>
    } else {
      assert (a + b)[1..] == a[1..] + b;
      assert (a + b)[0] == a[0];
      RenderAppend(a[1..], b, ev, skipBlank);
      match RenderPiece(a[0], ev, skipBlank) {
        case Failure(_) =>
        case Success(h) =>
          match Render(a[1..], ev, skipBlank) {
            case Failure(_) =>
            case Success(x) =>
              match Render(b, ev, skipBlank) {
                case Failure(_) =>
                case Success(y) => assert h + (x + y) == (h + x) + y;
              }
          }
      }
    }
  }

  lemma PrependPrepend(a: seq<string>, b: seq<string>, r: Result<seq<string>, TypeError>)
    ensures Prepend(a, Prepend(b, r)) == Prepend(a + b, r)
  {
    match r
    case Success(t) => assert a + (b + t) == (a + b) + t;
    case Failure(_) =>
  }

  /** One turn of the `exec` loop: a TypeError at a gap without `toText`,
      otherwise the gap's text fragment and the kept group's fragment come
      first. */
  lemma RenderStep(s: string, ev: Evaluator, d: Delims, skipBlank: bool, from: nat, m: Match)
    requires from <= |s| && MatchFrom(s, d, from) == Some(m)
    ensures m.end <= |s|
    ensures s[from..m.start] != [] && ev.toText.None? ==>
      Render(Split(s, d, from), ev, skipBlank) == Failure(ToTextNotAFunction)
    ensures s[from..m.start] == [] || ev.toText.Some? ==>
      var before, group := s[from..m.start], s[m.start + |d.open|..m.groupEnd];
      Render(Split(s, d, from), ev, skipBlank)
      == Prepend((if before == [] then [] else [ev.toText.value(before)])
                 + (if !skipBlank || Trim(group) != [] then [ev.inject(group)] else []),
                 Render(Split(s, d, m.end), ev, skipBlank))
  {
    var before, group := s[from..m.start], s[m.start + |d.open|..m.groupEnd];
    var span := [Span(s[m.start..m.end], group)];
    var rest := Split(s, d, m.end);
    SplitStep(s, d, from, m);
    RenderAppend(GapIf(before) + span, rest, ev, skipBlank);
    RenderAppend(GapIf(before), span, ev, skipBlank);
    RenderGapIf(before, ev, skipBlank);
    assert span[1..] == [];
    var k := if !skipBlank || Trim(group) != [] then [ev.inject(group)] else [];
    assert Render(span, ev, skipBlank) == Success(k) by { assert k + [] == k; }
    if before == [] || ev.toText.Some? {
      var f := if before == [] then [] else [ev.toText.value(before)];
      PrependPrepend(f, k, Render(rest, ev, skipBlank));
    }
  }

  /** `evaluate` as written: the `exec` loop that pushes into `js` and moves
      `lastIndex` past each match. */
  method RunEvaluate(value: string, ev: Evaluator, d: Delims, skipBlank: bool) returns (r: Result<string, TypeError>)
    ensures r == Evaluate(value, ev, d, skipBlank)
  {
    var js: seq<string> := [];
    var lastIndex: nat := 0;
    var result := MatchFrom(value, d, lastIndex);
    match Render(Split(value, d, 0), ev, skipBlank) {
      case Success(t) => assert [] + t == t;
      case Failure(_) =>
    }
    while result.Some?
      invariant lastIndex <= |value|
      invariant result == MatchFrom(value, d, lastIndex)
      invariant Render(Split(value, d, 0), ev, skipBlank) == Prepend(js, Render(Split(value, d, lastIndex), ev, skipBlank))
      decreases |value| - lastIndex
    {
      var m := result.value;
      RenderStep(value, ev, d, skipBlank, lastIndex, m);
      var before := value[lastIndex..m.start];
      var group := value[m.start + |d.open|..m.groupEnd];
      if before != [] && ev.toText.None? {
        assert Render(Split(value, d, 0), ev, skipBlank) == Failure(ToTextNotAFunction);
        return Failure(ToTextNotAFunction);
      }
      var pushed := (if before == [] then [] else [ev.toText.value(before)])
                    + (if !skipBlank || Trim(group) != [] then [ev.inject(group)] else []);
      PrependPrepend(js, pushed, Render(Split(value, d, m.end), ev, skipBlank));
      js := js + pushed;
      lastIndex := m.end;
      result := MatchFrom(value, d, lastIndex);
    }
    var after := value[lastIndex..];
    assert Split(value, d, lastIndex) == GapIf(after);
    RenderGapIf(after, ev, skipBlank);
    if after != [] {
      if ev.toText.None? {
        return Failure(ToTextNotAFunction);
      }
      js := js + [ev.toText.value(after)];
    } else {
      assert js + [] == js;
    }
    return Success(Join(js, ev.appender));
  }

  /** A text without the open delimiter's first character has no match and is
      one gap. */
  lemma NoOpenNotFound(s: string, d: Delims)
    requires |d.open| > 0 && d.open[0] !in s
    ensures !Found(s, d) && Split(s, d, 0) == GapIf(s)
  {
    MatchFromSpec(s, d, 0);
    forall i: nat ensures !MatchesAt(s, d, i) {
      if i < |s| {
        assert s[i] != d.open[0];
      }
    }
    SplitNoMatch(s, d);
  }

  /** In a text that is exactly one delimited group, with no character of
      the group able to start a close delimiter, the earliest close is the last. */
  lemma SingleSpanClose(s: string, d: Delims, g: string)
    requires s == d.open + g + d.close && |g| >= 1 && |d.close| >= 1 && d.close[0] !in g
    ensures CloseFrom(s, d.close, |d.open| + 1) == Some(|d.open| + |g|)
  {
    var k := |d.open| + |g|;
    assert s[k..k + |d.close|] == d.close;
    assert StartsWithAt(s, k, d.close);
    forall j: nat | |d.open| + 1 <= j < k
      ensures !StartsWithAt(s, j, d.close)
    {
      assert s[j] == g[j - |d.open|];
    }
    CloseFromIs(s, d.close, |d.open| + 1, k);
  }

  /** `exec` at a position where a match starts returns that match. */
  lemma MatchHere(s: string, d: Delims, from: nat)
    requires from < |s| && MatchesAt(s, d, from)
    ensures MatchFrom(s, d, from)
         == Some(Match(from, CloseFrom(s, d.close, from + |d.open| + 1).value,
                       CloseFrom(s, d.close, from + |d.open| + 1).value + |d.close|))
  {
  }

  /** Such a text is one span. */
  lemma SingleSpan(s: string, d: Delims, g: string)
    requires s == d.open + g + d.close && |g| >= 1 && |d.close| >= 1 && d.close[0] !in g
    ensures Found(s, d)
    ensures Split(s, d, 0) == [Span(s, g)]
  {
    var k := |d.open| + |g|;
    SingleSpanClose(s, d, g);
    assert s[..|d.open|] == d.open;
    assert MatchesAt(s, d, 0);
    var m := Match(0, k, k + |d.close|);
    MatchHere(s, d, 0);
    SplitStep(s, d, 0, m);
    assert Split(s, d, |s|) == [];
    assert s[0..0] == [] && s[0..|s|] == s && s[|d.open|..k] == g;
  }

  /** Such a text evaluates to its group's rendering, or to nothing when the
      group is blank and blank groups are dropped. */
  lemma EvaluateSingleSpan(s: string, ev: Evaluator, d: Delims, skipBlank: bool, g: string)
    requires s == d.open + g + d.close && |g| >= 1 && |d.close| >= 1 && d.close[0] !in g
    ensures Evaluate(s, ev, d, skipBlank) == Success(if !skipBlank || Trim(g) != [] then ev.inject(g) else "")
  {
    SingleSpan(s, d, g);
    var ps := [Span(s, g)];
    var h := if !skipBlank || Trim(g) != [] then [ev.inject(g)] else [];
    assert ps[1..] == [];
    assert RenderPiece(ps[0], ev, skipBlank) == Success(h);
    assert Render(ps, ev, skipBlank) == Prepend(h, Success([]));
    assert h + [] == h;
    assert Join(h, ev.appender) == if !skipBlank || Trim(g) != [] then ev.inject(g) else "";
  }

  /** `exec` passes over positions where no match can start. */
  lemma {:induction false} MatchSkip(s: string, d: Delims, from: nat, upto: nat)
    requires from <= upto <= |s|
    requires forall i: nat :: from <= i < upto ==> !MatchesAt(s, d, i)
    ensures MatchFrom(s, d, from) == MatchFrom(s, d, upto)
    decreases upto - from
  {
    if from < upto {
      MatchSkip(s, d, from + 1, upto);
    }
  }

  /** A text that is a literal part, one delimited group and another literal
      part, where neither literal part holds the open delimiter's first
      character and the group holds no character that could start the close
      delimiter, is walked as exactly those three pieces. */
  lemma SpanBetween(s: string, d: Delims, pre: string, g: string, post: string)
    requires s == pre + d.open + g + d.close + post
    requires |d.open| >= 1 && |d.close| >= 1 && |g| >= 1
    requires d.open[0] !in pre && d.open[0] !in post && d.close[0] !in g
    ensures Split(s, d, 0) == GapIf(pre) + [Span(d.open + g + d.close, g)] + GapIf(post)
  {
    var k := |pre| + |d.open| + |g|;
    var e := k + |d.close|;
    var m := Match(|pre|, k, e);
    SpanBetweenMatch(s, d, pre, g, post);
    SplitStep(s, d, 0, m);
    SpanBetweenRest(s, d, pre, g, post);
    SpanSlices(s, d, pre, g, post);
  }

  /** Where the parts of such a text lie. */
  lemma SpanSlices(s: string, d: Delims, pre: string, g: string, post: string)
    requires s == pre + d.open + g + d.close + post
    ensures var k := |pre| + |d.open| + |g|;
      && s[0..|pre|] == pre
      && s[|pre|..k + |d.close|] == d.open + g + d.close
      && s[|pre| + |d.open|..k] == g
  {
    var k := |pre| + |d.open| + |g|;
    assert s[0..|pre|] == pre;
    assert s[|pre|..k + |d.close|] == d.open + g + d.close;
    assert s[|pre| + |d.open|..k] == g;
  }

  /** The first `exec` finds the group, with its close at the end of the group. */
  lemma SpanBetweenMatch(s: string, d: Delims, pre: string, g: string, post: string)
    requires s == pre + d.open + g + d.close + post
    requires |d.open| >= 1 && |d.close| >= 1 && |g| >= 1
    requires d.open[0] !in pre && d.close[0] !in g
    ensures MatchFrom(s, d, 0) == Some(Match(|pre|, |pre| + |d.open| + |g|, |pre| + |d.open| + |g| + |d.close|))
  {
    SpanClose(s, d, pre, g, post);
    SpanOpen(s, d, pre, g, post);
    PreNoMatch(s, d, pre);
    FirstMatchAt(s, d, |pre|, |pre| + |d.open| + |g|);
  }

  lemma SpanOpen(s: string, d: Delims, pre: string, g: string, post: string)
    requires s == pre + d.open + g + d.close + post && |d.open| >= 1
    ensures |pre| < |s| && StartsWithAt(s, |pre|, d.open) && s[..|pre|] == pre
  {
    assert s[|pre|..|pre| + |d.open|] == d.open;
    assert s[..|pre|] == pre;
  }

  /** The first `exec` returns the match at `p` when none can start before it. */
  lemma FirstMatchAt(s: string, d: Delims, p: nat, k: nat)
    requires p < |s| && StartsWithAt(s, p, d.open) && CloseFrom(s, d.close, p + |d.open| + 1) == Some(k)
    requires forall i: nat :: 0 <= i < p ==> !MatchesAt(s, d, i)
    ensures MatchFrom(s, d, 0) == Some(Match(p, k, k + |d.close|))
  {
    MatchSkip(s, d, 0, p);
    MatchHere(s, d, p);
  }

  /** No match starts inside a prefix that lacks the open delimiter's first character. */
  lemma PreNoMatch(s: string, d: Delims, pre: string)
    requires |d.open| >= 1 && |pre| <= |s| && s[..|pre|] == pre && d.open[0] !in pre
    ensures forall i: nat :: 0 <= i < |pre| ==> !MatchesAt(s, d, i)
  {
    forall i: nat | 0 <= i < |pre| ensures !MatchesAt(s, d, i) {
      assert s[i] == pre[i];
    }
  }

  lemma SpanClose(s: string, d: Delims, pre: string, g: string, post: string)
    requires s == pre + d.open + g + d.close + post
    requires |d.open| >= 1 && |d.close| >= 1 && |g| >= 1
    requires d.close[0] !in g
    ensures CloseFrom(s, d.close, |pre| + |d.open| + 1) == Some(|pre| + |d.open| + |g|)
  {
    var a := |pre| + |d.open|;
    var k := a + |g|;
    assert s[k..k + |d.close|] == d.close;
    assert StartsWithAt(s, k, d.close);
    forall j: nat | a + 1 <= j < k
      ensures !StartsWithAt(s, j, d.close)
    {
      assert s[a..k] == g;
      assert s[j] == g[j - a];
    }
    CloseFromIs(s, d.close, a + 1, k);
  }

  /** After the group the walk finds no further match: the rest is one gap. */
  lemma SpanBetweenRest(s: string, d: Delims, pre: string, g: string, post: string)
    requires s == pre + d.open + g + d.close + post
    requires |d.open| >= 1
    requires d.open[0] !in post
    ensures Split(s, d, |pre| + |d.open| + |g| + |d.close|) == GapIf(post)
  {
    var e := |pre| + |d.open| + |g| + |d.close|;
    assert s[e..] == post;
    forall i: nat | e <= i < |s| ensures !MatchesAt(s, d, i) {
      assert s[i] == post[i - e];
    }
    MatchSkip(s, d, e, |s|);
  }

  /** Every kept piece passes the blank-group filter: with `skipBlank`, no
      blank group survives. */
  lemma {:induction false} KeptAreKept(ps: seq<Piece>, skipBlank: bool)
    ensures forall p <- KeptPieces(ps, skipBlank) :: Kept(p, skipBlank)
  {
    if ps != [] {
      KeptAreKept(ps[1..], skipBlank);
    }
  }
}
