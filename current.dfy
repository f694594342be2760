/** The compiler of src/idomizer.ts: its evaluators, `append`, the three
    tokenizer callbacks as an emitter object that grows `fnBody`, the driver
    that feeds it the tokenizer's events, and the generated function's text. */
module Idomizer {
  import opened Wrappers
  import opened Strings
  import opened Scanner
  import opened Escaping
  import opened Shield
  import opened Options
  import opened Attributes
  import opened Tags
  import opened Elements
  import opened Guard

  /** `attributeEvaluator`: literal text becomes a quoted string, a group its
      trimmed expression (guarded when exceptions are skipped), joined by `+`. */
  function AttributeEvaluator(cfg: Config): (ev: Evaluator)
    ensures ev.toText.Some? && ev.appender == " + "
  {
    Evaluator(" + ", Some((v: string) => "'" + Stringify(v) + "'"),
              (v: string) => if cfg.skipExceptions then SafeJsBlock(Trim(v)) else "(" + Trim(v) + ")")
  }

  /** `inlineInterpolationEvaluator`: a group becomes a `_text` call; it has
      no `toText`. */
  function InlineInterpolationEvaluator(cfg: Config): (ev: Evaluator)
    ensures ev.toText.None?
  {
    Evaluator(" ", None,
              (v: string) => if cfg.skipExceptions then "_text(" + SafeJsBlock(Trim(v)) + ");" else "_text(" + Trim(v) + ");")
  }

  /** `inlineExpressionEvaluator`: a group is copied as it is; it has no `toText`. */
  const InlineExpressionEvaluator := Evaluator(" ", None, (v: string) => v)

  /** `append`: an empty line is not appended; with `pretty` each line is
      preceded by a line feed. */
  function Append(body: string, line: string, cfg: Config): (r: string)
  {
    if line != [] then body + (if cfg.pretty then "\n" else "") + line else body
  }

  /** `append` never rewrites what is already there, and adds exactly the line
      (after the optional line feed) or nothing. */
  lemma AppendExtends(body: string, line: string, cfg: Config)
    ensures |body| <= |Append(body, line, cfg)| && Append(body, line, cfg)[..|body|] == body
    ensures line == [] <==> Append(body, line, cfg) == body
    ensures line != [] && !cfg.pretty ==> Append(body, line, cfg)[|body|..] == line
    ensures line != [] && cfg.pretty ==> Append(body, line, cfg)[|body|..] == "\n" + line
  {
    if line != [] {
      assert |Append(body, line, cfg)| > |body|;
    }
  }

  /** `tpl-text`: `inlineInterpolationEvaluator.inject(statics.value ||
      varArgs.value)`, which throws when there is no value to trim. */
  function TextTagLine(a: OpenArgs): (r: Result<string, TypeError>)
  {
    var v := Attr(a, "value");
    if v.None? then Failure(UndefinedHasNoTrim) else Success(InlineInterpolationEvaluator(a.cfg).inject(v.value))
  }

  /** The `onopentag` of a built-in directive. */
  function BuiltinOpenLine(t: BuiltinTag, a: OpenArgs): (r: Result<string, TypeError>)
  {
    match t
    case Logger => Success(LoggerLine(a))
    case Each => Success(EachOpenLine(a))
    case If => Success(IfOpenLine(a))
    case ElseIf => Success(ElseIfLine(a))
    case Else => Success(ElseLine)
    case TextTag => TextTagLine(a)
    case Call => Success(CallLine(a))
  }

  /** The attributes as the `onopentag` callback classifies them. */
  function ParsedOf(attrs: Attrs, cfg: Config): Parsed
  {
    Classify(attrs, cfg, AttributeEvaluator(cfg), true)
  }

  /** The lines the `onopentag` callback appends, or the TypeError it throws:
      `parseAttributes` runs first, and its skip check fails on an attribute
      named `hasOwnProperty`. */
  function OpenTagLines(name: string, attrs: Attrs, cfg: Config, tags: Registry): (r: Result<seq<string>, TypeError>)
  {
    if ShadowsHasOwnProperty(attrs) then Failure(HasOwnPropertyNotAFunction)
    else
    var p := ParsedOf(attrs, cfg);
    var a := OpenArgs(name, attrs, p.key, p.statics, p.varArgs, cfg);
    match HandlerFor(tags, name)
    case Some(Builtin(t)) =>
      (match BuiltinOpenLine(t, a)
       case Success(line) => Success([line])
       case Failure(e) => Failure(e))
    case Some(Custom(onOpen, _)) => if onOpen.Some? then Success([Defaulted(onOpen.value(a))]) else Success([])
    case None => Success(ElementOpenLines(name, attrs, p, cfg))
  }

  /** What a text node becomes: an expression text is evaluated with the
      expression evaluator, else an interpolation text with the interpolation
      evaluator, else it is one `_text` call of the escaped literal. */
  function TextLine(text: string, cfg: Config): (r: Result<string, TypeError>)
  {
    if Found(text, Expression) then Evaluate(text, InlineExpressionEvaluator, Expression, true)
    else if Found(text, Interpolation) then Evaluate(text, InlineInterpolationEvaluator(cfg), Interpolation, true)
    else Success("_text('" + Stringify(text) + "');")
  }

  /** The lines one tokenizer event appends, or the TypeError it throws. */
  function EventLines(e: Event, cfg: Config, tags: Registry): (r: Result<seq<string>, TypeError>)
  {
    match e
    case OpenTag(name, attrs) => OpenTagLines(name, attrs, cfg, tags)
    case CloseTag(name) => Success(CloseTagLines(name, cfg, tags))
    case TextEvent(text) =>
      (match TextLine(text, cfg)
       case Success(line) => Success([line])
       case Failure(err) => Failure(err))
  }

  /** `append` of each line in turn. */
  function AppendAll(body: string, lines: seq<string>, cfg: Config): (r: string)
    decreases |lines|
  {
    if lines == [] then body else AppendAll(Append(body, lines[0], cfg), lines[1..], cfg)
  }

  /** `fnBody` after the events, starting from `body`, or the first TypeError. */
  function EmitFrom(body: string, events: seq<Event>, cfg: Config, tags: Registry): (r: Result<string, TypeError>)
    decreases |events|
  {
    if events == [] then Success(body)
    else
      match EventLines(events[0], cfg, tags)
      case Failure(e) => Failure(e)
      case Success(lines) => EmitFrom(AppendAll(body, lines, cfg), events[1..], cfg, tags)
  }

  /** The tokenizer callbacks of `compile`, sharing the body they grow. */
  class Emitter {
    const cfg: Config
    const tags: Registry
    var fnBody: string

    constructor(cfg: Config, tags: Registry)
      ensures this.cfg == cfg && this.tags == tags && fnBody == ""
    {
      this.cfg := cfg;
      this.tags := tags;
      fnBody := "";
    }

    /** `fnBody = append(fnBody, line, options)` */
    method Push(line: string)
      modifies this
      ensures fnBody == Append(old(fnBody), line, cfg)
    {
      if line != [] {
        fnBody := fnBody + (if cfg.pretty then "\n" else "") + line;
      }
    }

    /** `onopentag(name, attrs)`; on a TypeError the body is left as it was. */
    method OnOpenTag(name: string, attrs: Attrs) returns (err: Option<TypeError>)
      modifies this
      ensures OpenTagLines(name, attrs, cfg, tags).Success? ==>
        err.None? && fnBody == AppendAll(old(fnBody), OpenTagLines(name, attrs, cfg, tags).value, cfg)
      ensures OpenTagLines(name, attrs, cfg, tags).Failure? ==>
        err == Some(OpenTagLines(name, attrs, cfg, tags).error) && fnBody == old(fnBody)
    {
      if ShadowsHasOwnProperty(attrs) {
        return Some(HasOwnPropertyNotAFunction);
      }
      var p := ParseAttributes(attrs, cfg, AttributeEvaluator(cfg), true);
      var a := OpenArgs(name, attrs, p.key, p.statics, p.varArgs, cfg);
      var handler := HandlerFor(tags, name);
      if handler.Some? {
        match handler.value {
          case Builtin(t) =>
            var line := BuiltinOpenLine(t, a);
            if line.Failure? {
              return Some(line.error);
            }
            assert OpenTagLines(name, attrs, cfg, tags) == Success([line.value]);
            Push(line.value);
            assert fnBody == AppendAll(old(fnBody), [line.value], cfg);
          case Custom(onOpen, _) =>
            if onOpen.Some? {
              assert OpenTagLines(name, attrs, cfg, tags) == Success([Defaulted(onOpen.value(a))]);
              Push(Defaulted(onOpen.value(a)));
              assert fnBody == AppendAll(old(fnBody), [Defaulted(onOpen.value(a))], cfg);
            } else {
              assert OpenTagLines(name, attrs, cfg, tags) == Success([]);
            }
        }
      } else {
        var line := ElementLine(name, p, cfg);
        ghost var lines := ElementOpenLines(name, attrs, p, cfg);
        assert OpenTagLines(name, attrs, cfg, tags) == Success(lines);
        ghost var b0 := fnBody;
        Push(line);
        ghost var b1 := fnBody;
        if p.skip || CheckCustomElement(name, attrs, cfg) {
          Push(SkipLine);
          assert lines == [line, SkipLine] && lines[1..] == [SkipLine];
          assert AppendAll(b1, [SkipLine], cfg) == fnBody;
          assert AppendAll(b0, lines, cfg) == AppendAll(b1, [SkipLine], cfg);
        } else {
          assert lines == [line];
        }
      }
      return None;
    }

    /** `onclosetag(name)` */
    method OnCloseTag(name: string)
      modifies this
      ensures fnBody == AppendAll(old(fnBody), CloseTagLines(name, cfg, tags), cfg)
    {
      var handler := HandlerFor(tags, name);
      if handler.Some? {
        match handler.value {
          case Builtin(t) =>
            var line := BuiltinCloseLine(t);
            if line.Some? {
              Push(line.value);
            }
          case Custom(_, onClose) =>
            if onClose.Some? {
              Push(Defaulted(onClose.value(name, cfg)));
            }
        }
      } else if !IsSelfClosing(name, cfg) {
        Push(ElementCloseLine(name));
      }
    }

    /** `ontext(text)`; on a TypeError the body is left as it was. */
    method OnText(text: string) returns (err: Option<TypeError>)
      modifies this
      ensures TextLine(text, cfg).Success? ==> err.None? && fnBody == Append(old(fnBody), TextLine(text, cfg).value, cfg)
      ensures TextLine(text, cfg).Failure? ==> err == Some(TextLine(text, cfg).error) && fnBody == old(fnBody)
    {
      var line: Result<string, TypeError>;
      if Found(text, Expression) {
        line := RunEvaluate(text, InlineExpressionEvaluator, Expression, true);
      } else if Found(text, Interpolation) {
        line := RunEvaluate(text, InlineInterpolationEvaluator(cfg), Interpolation, true);
      } else {
        line := Success("_text('" + Stringify(text) + "');");
      }
      if line.Failure? {
        return Some(line.error);
      }
      Push(line.value);
      return None;
    }

    /** The callback the tokenizer calls for one event. */
    method OnEvent(e: Event) returns (err: Option<TypeError>)
      modifies this
      ensures EventLines(e, cfg, tags).Success? ==>
        err.None? && fnBody == AppendAll(old(fnBody), EventLines(e, cfg, tags).value, cfg)
      ensures EventLines(e, cfg, tags).Failure? ==>
        err == Some(EventLines(e, cfg, tags).error) && fnBody == old(fnBody)
    {
      match e {
        case OpenTag(name, attrs) =>
          err := OnOpenTag(name, attrs);
        case CloseTag(name) =>
          OnCloseTag(name);
          err := None;
        case TextEvent(text) =>
          err := OnText(text);
          if err.None? {
            assert fnBody == AppendAll(old(fnBody), [TextLine(text, cfg).value], cfg);
          }
      }
    }
  }

  /** The tokenizer run over the shielded template: each event goes to the
      emitter in order, and the first TypeError ends the compilation. */
  method EmitBody(events: seq<Event>, cfg: Config, tags: Registry) returns (r: Result<string, TypeError>)
    ensures r == EmitFrom("", events, cfg, tags)
  {
    var emitter := new Emitter(cfg, tags);
    for i := 0 to |events|
      invariant emitter.cfg == cfg && emitter.tags == tags
      invariant EmitFrom("", events, cfg, tags) == EmitFrom(emitter.fnBody, events[i..], cfg, tags)
    {
      assert events[i..][1..] == events[i + 1..];
      var err := emitter.OnEvent(events[i]);
      if err.Some? {
        return Failure(err.value);
      }
    }
    return Success(emitter.fnBody);
  }

  /** `fnWrapper`: binds the IncrementalDOM functions, then returns the render
      function that names the helpers and the data (an empty name falls back
      to the default) and runs the body. */
  function FunctionSource(cfg: Config, body: string): (r: string)
  {
    "\n        var _elementOpen = _i.elementOpen,\n            _elementClose = _i.elementClose,\n            _elementVoid = _i.elementVoid,\n            _text = _i.text,\n            _skip = _i.skip;\n        return function (_data_) "
    + "{"
    + "\n            var " + (if cfg.varHelpersName != [] then cfg.varHelpersName else "helpers") + " = _h,\n                "
    + (if cfg.varDataName != [] then cfg.varDataName else "data") + " = _data_;\n            "
    + body
    + "\n        "
    + "}"
    + ";\n    "
  }

  /** `compile(html, options)` up to `new Function`: the options and tag
      registries are merged, the template is shielded and tokenized, and the
      body is wrapped. The markup tokenizer is a parameter. */
  method Compile(html: string, options: Overrides, callerTags: Registry, tokenize: string -> seq<Event>)
    returns (r: Result<string, TypeError>)
    ensures var body := EmitFrom("", tokenize(WrapExpressions(html)), Resolve(options), MergeTags(callerTags));
      r == match body
           case Success(b) => Success(FunctionSource(Resolve(options), b))
           case Failure(e) => Failure(e)
  {
    var cfg := Resolve(options);
    var tags := MergeTags(callerTags);
    var events := tokenize(WrapExpressions(html));
    var body := EmitBody(events, cfg, tags);
    if body.Failure? {
      return Failure(body.error);
    }
    return Success(FunctionSource(cfg, body.value));
  }

  /** `fnBody` is only ever extended: the lines are appended after what was there. */
  lemma {:induction false} AppendAllExtends(body: string, lines: seq<string>, cfg: Config)
    ensures |body| <= |AppendAll(body, lines, cfg)| && AppendAll(body, lines, cfg)[..|body|] == body
    decreases |lines|
  {
    if lines != [] {
      var b1 := Append(body, lines[0], cfg);
      AppendExtends(body, lines[0], cfg);
      AppendAllExtends(b1, lines[1..], cfg);
      assert AppendAll(body, lines, cfg)[..|b1|][..|body|] == AppendAll(body, lines, cfg)[..|body|];
    }
  }

  /** Compiling never rewrites the body written for earlier events. */
  lemma {:induction false} EmitExtends(body: string, events: seq<Event>, cfg: Config, tags: Registry)
    ensures EmitFrom(body, events, cfg, tags).Success? ==>
      |body| <= |EmitFrom(body, events, cfg, tags).value|
      && EmitFrom(body, events, cfg, tags).value[..|body|] == body
    decreases |events|
  {
    if events != [] {
      match EventLines(events[0], cfg, tags)
      case Failure(_) =>
      case Success(lines) =>
        var b1 := AppendAll(body, lines, cfg);
        AppendAllExtends(body, lines, cfg);
        EmitExtends(b1, events[1..], cfg, tags);
        if EmitFrom(b1, events[1..], cfg, tags).Success? {
          var v := EmitFrom(b1, events[1..], cfg, tags).value;
          assert v[..|b1|][..|body|] == v[..|body|];
        }
    }
  }

  /** Event streams compose: compiling `a + b` is compiling `a`, then `b` from
      the body `a` left. */
  lemma {:induction false} EmitConcat(body: string, a: seq<Event>, b: seq<Event>, cfg: Config, tags: Registry)
    ensures EmitFrom(body, a + b, cfg, tags)
         == match EmitFrom(body, a, cfg, tags)
            case Success(mid) => EmitFrom(mid, b, cfg, tags)
            case Failure(e) => Failure(e)
    decreases |a|
  {
    if a == [] {
      assert a + b == b;
    } else {
      assert (a + b)[0] == a[0];
      assert (a + b)[1..] == a[1..] + b;
      match EventLines(a[0], cfg, tags)
      case Failure(_) =>
      case Success(lines) => EmitConcat(AppendAll(body, lines, cfg), a[1..], b, cfg, tags);
    }
  }

  /** Compilation fails exactly when some event throws, and then with the
      error of the first event that does. */
  lemma {:induction false} EmitFailsAtFirstError(body: string, events: seq<Event>, cfg: Config, tags: Registry)
    ensures EmitFrom(body, events, cfg, tags).Failure? <==>
      exists i :: 0 <= i < |events| && EventLines(events[i], cfg, tags).Failure?
    ensures EmitFrom(body, events, cfg, tags).Failure? ==>
      exists i :: 0 <= i < |events| && EventLines(events[i], cfg, tags).Failure?
        && (forall j :: 0 <= j < i ==> EventLines(events[j], cfg, tags).Success?)
        && EmitFrom(body, events, cfg, tags).error == EventLines(events[i], cfg, tags).error
    decreases |events|
  {
    if events != [] && EventLines(events[0], cfg, tags).Success? {
      var rest := events[1..];
      EmitFailsAtFirstError(AppendAll(body, EventLines(events[0], cfg, tags).value, cfg), rest, cfg, tags);
      FailureShift(events, cfg, tags);
      if EmitFrom(body, events, cfg, tags).Failure? {
        var i :| 0 <= i < |rest| && EventLines(rest[i], cfg, tags).Failure?
          && (forall j :: 0 <= j < i ==> EventLines(rest[j], cfg, tags).Success?)
          && EmitFrom(body, events, cfg, tags).error == EventLines(rest[i], cfg, tags).error;
        FirstFailureShift(events, cfg, tags, i);
      }
    }
  }

  /** Past a first event that succeeds, some event fails exactly when some
      later one does. */
  lemma FailureShift(events: seq<Event>, cfg: Config, tags: Registry)
    requires events != [] && EventLines(events[0], cfg, tags).Success?
    ensures (exists i :: 0 <= i < |events| && EventLines(events[i], cfg, tags).Failure?)
        <==> (exists i :: 0 <= i < |events[1..]| && EventLines(events[1..][i], cfg, tags).Failure?)
  {
    var rest := events[1..];
    if exists i :: 0 <= i < |events| && EventLines(events[i], cfg, tags).Failure? {
      var i :| 0 <= i < |events| && EventLines(events[i], cfg, tags).Failure?;
      assert EventLines(rest[i - 1], cfg, tags).Failure?;
    }
    if exists i :: 0 <= i < |rest| && EventLines(rest[i], cfg, tags).Failure? {
      var i :| 0 <= i < |rest| && EventLines(rest[i], cfg, tags).Failure?;
      assert events[i + 1] == rest[i];
    }
  }

  /** The first failing event of the tail is the first of the whole sequence. */
  lemma FirstFailureShift(events: seq<Event>, cfg: Config, tags: Registry, i: nat)
    requires events != [] && EventLines(events[0], cfg, tags).Success?
    requires i < |events| - 1 && EventLines(events[1..][i], cfg, tags).Failure?
    requires forall j :: 0 <= j < i ==> EventLines(events[1..][j], cfg, tags).Success?
    ensures events[i + 1] == events[1..][i] && EventLines(events[i + 1], cfg, tags).Failure?
    ensures forall j :: 0 <= j < i + 1 ==> EventLines(events[j], cfg, tags).Success?
  {
    forall j | 0 < j < i + 1 ensures EventLines(events[j], cfg, tags).Success? {
      assert events[j] == events[1..][j - 1];
    }
  }

  /** When a text node throws: when its inline evaluator (which has no
      `toText`) meets literal text around a delimited span. */
  lemma TextLineFails(text: string, cfg: Config)
    ensures TextLine(text, cfg).Failure? <==>
      (Found(text, Expression) && HasGap(Split(text, Expression, 0)))
      || (!Found(text, Expression) && Found(text, Interpolation) && HasGap(Split(text, Interpolation, 0)))
    ensures TextLine(text, cfg).Failure? ==> TextLine(text, cfg).error == ToTextNotAFunction
  {
    if Found(text, Expression) {
      RenderInOrder(Split(text, Expression, 0), InlineExpressionEvaluator, true);
    } else if Found(text, Interpolation) {
      RenderInOrder(Split(text, Interpolation, 0), InlineInterpolationEvaluator(cfg), true);
    }
  }

  /** A text node with neither kind of span becomes one `_text` call whose
      string literal reads back as the text when the text has neither a
      backslash nor a carriage return; a raw carriage return breaks it. */
  lemma LiteralText(text: string, cfg: Config)
    requires !Found(text, Expression) && !Found(text, Interpolation)
    ensures TextLine(text, cfg) == Success("_text('" + Stringify(text) + "');")
    ensures '\\' !in text && '\r' !in text ==> Unescape(Stringify(text)) == Some(text)
    ensures '\\' !in text && '\r' in text ==> Unescape(Stringify(text)) == None
  {
    if '\\' !in text {
      if '\r' in text {
        StringifyCarriageReturnBreaks(text);
      } else {
        StringifyRoundTrip(text);
      }
    }
  }

  /** A text node made of spans only: each kept group in order, joined by spaces. */
  lemma SpansOnlyText(text: string, cfg: Config)
    requires Found(text, Expression) && !HasGap(Split(text, Expression, 0))
    ensures TextLine(text, cfg).Success?
    ensures var kept := KeptPieces(Split(text, Expression, 0), true);
      exists frags: seq<string> ::
        && TextLine(text, cfg).value == Join(frags, " ")
        && |frags| == |kept|
        && forall i :: 0 <= i < |frags| ==> kept[i].Span? && frags[i] == kept[i].group
  {
    var ps := Split(text, Expression, 0);
    RenderInOrder(ps, InlineExpressionEvaluator, true);
    KeptSpans(ps, true);
    var frags := Render(ps, InlineExpressionEvaluator, true).value;
    assert TextLine(text, cfg).value == Join(frags, " ");
  }

  /** Without gaps, the kept pieces are spans too. */
  lemma {:induction false} KeptSpans(ps: seq<Piece>, skipBlank: bool)
    requires !HasGap(ps)
    ensures forall i :: 0 <= i < |KeptPieces(ps, skipBlank)| ==> KeptPieces(ps, skipBlank)[i].Span?
  {
    if ps != [] {
      assert ps[0].Span?;
      assert !HasGap(ps[1..]);
      KeptSpans(ps[1..], skipBlank);
    }
  }

  /** An attribute value becomes its kept pieces in order, joined by ` + `:
      each literal gap a quoted string, each non-blank group its trimmed
      expression, parenthesised or, when exceptions are skipped, guarded;
      blank groups are dropped. */
  lemma InterpolatedAttribute(value: string, cfg: Config)
    ensures var kept := KeptPieces(Split(value, Interpolation, 0), true);
      exists frags: seq<string> ::
        && Evaluate(value, AttributeEvaluator(cfg), Interpolation, true) == Success(Join(frags, " + "))
        && |frags| == |kept|
        && forall i :: 0 <= i < |kept| ==>
             frags[i] == AttributeFragment(kept[i], cfg)
    ensures forall p <- KeptPieces(Split(value, Interpolation, 0), true) :: p.Span? ==> Trim(p.group) != []
  {
    var ev, kept := AttributeEvaluator(cfg), KeptPieces(Split(value, Interpolation, 0), true);
    EvaluateKept(value, ev);
    KeptAreKept(Split(value, Interpolation, 0), true);
    var frags :| && Evaluate(value, ev, Interpolation, true) == Success(Join(frags, ev.appender))
                 && |frags| == |kept|
                 && forall i :: 0 <= i < |kept| ==> frags[i] == Fragment(kept[i], ev);
    forall i | 0 <= i < |kept|
      ensures frags[i] == AttributeFragment(kept[i], cfg)
    {
      AttributeFragmentOf(kept[i], cfg);
    }
  }

  /** What the `.ts` attribute evaluator makes of one kept piece. */
  function AttributeFragment(p: Piece, cfg: Config): string {
    match p
    case Gap(t) => "'" + Stringify(t) + "'"
    case Span(_, g) => if cfg.skipExceptions then SafeJsBlock(Trim(g)) else "(" + Trim(g) + ")"
  }

  lemma AttributeFragmentOf(p: Piece, cfg: Config)
    ensures Fragment(p, AttributeEvaluator(cfg)) == AttributeFragment(p, cfg)
  {
  }

  lemma EvaluateKept(value: string, ev: Evaluator)
    requires ev.toText.Some?
    ensures var kept := KeptPieces(Split(value, Interpolation, 0), true);
      exists frags: seq<string> ::
        && Evaluate(value, ev, Interpolation, true) == Success(Join(frags, ev.appender))
        && |frags| == |kept|
        && forall i :: 0 <= i < |kept| ==> frags[i] == Fragment(kept[i], ev)
  {
    var ps := Split(value, Interpolation, 0);
    RenderInOrder(ps, ev, true);
    var frags := Render(ps, ev, true).value;
    assert Evaluate(value, ev, Interpolation, true) == Success(Join(frags, ev.appender));
  }

  /** `tpl-text` (not overridden by the caller) throws when it has no value to
      trim: without a `value` attribute, and also when that attribute is static
      and empty, since `statics.value || varArgs.value` is then `undefined`. */
  lemma TextTagValue(attrs: Attrs, cfg: Config, caller: Registry)
    requires UniqueNames(attrs) && "tpl-text" !in caller
    ensures !ShadowsHasOwnProperty(attrs) && Lookup(attrs, "value").None? ==>
      OpenTagLines("tpl-text", attrs, cfg, MergeTags(caller)) == Failure(UndefinedHasNoTrim)
    ensures !ShadowsHasOwnProperty(attrs) && Lookup(attrs, "value").Some? &&
            cfg.attributeKey != "value" && cfg.attributeSkip != "value" ==>
      var value := UnwrapExpressions(Lookup(attrs, "value").value);
      (OpenTagLines("tpl-text", attrs, cfg, MergeTags(caller)).Success?
       <==> Found(value, Interpolation) || cfg.ignoreStaticAttributes || value != [])
  {
    TextTagOpens(attrs, cfg, caller);
    ClassifyContents(attrs, cfg, AttributeEvaluator(cfg), true, "value");
  }

  /** `tpl-text` succeeds exactly when `statics.value || varArgs.value` is defined. */
  lemma TextTagOpens(attrs: Attrs, cfg: Config, caller: Registry)
    requires "tpl-text" !in caller
    ensures var p := ParsedOf(attrs, cfg);
      OpenTagLines("tpl-text", attrs, cfg, MergeTags(caller)).Success?
      <==> !ShadowsHasOwnProperty(attrs) && Or(Lookup(p.statics, "value"), Lookup(p.varArgs, "value")).Some?
    ensures !ShadowsHasOwnProperty(attrs) && OpenTagLines("tpl-text", attrs, cfg, MergeTags(caller)).Failure? ==>
      OpenTagLines("tpl-text", attrs, cfg, MergeTags(caller)).error == UndefinedHasNoTrim
  {
    HandlerAfterMerge(caller, "tpl-text");
  }

  /** The caller's handler for a name replaces the built-in one: its
      `onopentag` result is the line (nothing without one), and a falsy
      entry turns the directive into a plain element. */
  lemma CallerTagWins(name: string, attrs: Attrs, cfg: Config, caller: Registry)
    requires name in caller
    ensures !ShadowsHasOwnProperty(attrs) ==>
      var p := ParsedOf(attrs, cfg);
      var a := OpenArgs(name, attrs, p.key, p.statics, p.varArgs, cfg);
      match caller[name]
      case None => OpenTagLines(name, attrs, cfg, MergeTags(caller)) == Success(ElementOpenLines(name, attrs, p, cfg))
      case Some(Custom(onOpen, _)) =>
        OpenTagLines(name, attrs, cfg, MergeTags(caller))
        == Success(if onOpen.Some? then [Defaulted(onOpen.value(a))] else [])
      case Some(Builtin(t)) => true
  {
    HandlerAfterMerge(caller, name);
  }

  /** An attribute named `hasOwnProperty` makes every open tag throw, whatever
      the tag and its handler: the skip check runs before anything else. Only
      then; without one, the open tag fails only where its handler does. */
  lemma HasOwnPropertyThrows(name: string, attrs: Attrs, cfg: Config, tags: Registry)
    ensures ShadowsHasOwnProperty(attrs) <==>
      OpenTagLines(name, attrs, cfg, tags) == Failure(HasOwnPropertyNotAFunction)
    ensures !ShadowsHasOwnProperty(attrs) && OpenTagLines(name, attrs, cfg, tags).Failure? ==>
      HandlerFor(tags, name).Some? && HandlerFor(tags, name).value.Builtin?
  {
  }

  /** `<p hasOwnProperty="x">` does not compile. */
  lemma HasOwnPropertyParagraph(tags: Registry)
    ensures OpenTagLines("p", [("hasOwnProperty", "x")], DefaultConfig, tags) == Failure(HasOwnPropertyNotAFunction)
  {
    assert ShadowsHasOwnProperty([("hasOwnProperty", "x")]);
  }
}
