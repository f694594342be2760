/** The earlier compiler of src/idomizer.js. It shares the tags, the attribute
    classification and the element statements with src/idomizer.ts, and differs
    in five places: a single `{{…}}` pattern, evaluators that always have a
    `toText`, no blank-group filter, an `append` that also appends empty lines,
    and a `tpl-text` that interpolates its value instead of trimming it. None
    of its steps can throw. */
module IdomizerLegacy {
  import opened Wrappers
  import opened Strings
  import opened Scanner
  import opened Escaping
  import opened Shield
  import opened Options
  import opened Attributes
  import opened Tags
  import opened Elements

  /** `attributeEvaluator`: literal text becomes a quoted string, a group is
      parenthesised as it is, joined by `+`. */
  const AttributeEvaluator := Evaluator(" + ", Some((v: string) => "'" + Stringify(v) + "'"), (v: string) => "(" + v + ")")

  /** `inlineEvaluator`: literal text becomes a `t` call, a group is copied as
      it is, joined by a space. */
  const InlineEvaluator := Evaluator(" ", Some((v: string) => "t('" + Stringify(v) + "');"), (v: string) => v)

  /** `append`: the line is appended even when empty; with `pretty` it is
      preceded by a line feed. */
  function Append(body: string, line: string, cfg: Config): (r: string)
  {
    body + (if cfg.pretty then "\n" else "") + line
  }

  /** The separator `append` puts before every line. */
  function Lead(cfg: Config): string
  {
    if cfg.pretty then "\n" else ""
  }

  /** `tpl-text`: `_text(${statics.value || varArgs.value})`. */
  function TextTagLine(a: OpenArgs): (r: string)
  {
    "_text(" + Interpolate(Attr(a, "value")) + ");"
  }

  /** The `onopentag` of a built-in directive. */
  function BuiltinOpenLine(t: BuiltinTag, a: OpenArgs): (r: string)
  {
    match t
    case Logger => LoggerLine(a)
    case Each => EachOpenLine(a)
    case If => IfOpenLine(a)
    case ElseIf => ElseIfLine(a)
    case Else => ElseLine
    case TextTag => TextTagLine(a)
    case Call => CallLine(a)
  }

  /** The attributes as the `onopentag` callback classifies them: every group
      is kept, blank or not. */
  function ParsedOf(attrs: Attrs, cfg: Config): Parsed
  {
    Classify(attrs, cfg, AttributeEvaluator, false)
  }

  /** The lines the `onopentag` callback appends. */
  function OpenTagLines(name: string, attrs: Attrs, cfg: Config, tags: Registry): (r: seq<string>)
  {
    var p := ParsedOf(attrs, cfg);
    var a := OpenArgs(name, attrs, p.key, p.statics, p.varArgs, cfg);
    match HandlerFor(tags, name)
    case Some(Builtin(t)) => [BuiltinOpenLine(t, a)]
    case Some(Custom(onOpen, _)) => if onOpen.Some? then [Defaulted(onOpen.value(a))] else []
    case None => ElementOpenLines(name, attrs, p, cfg)
  }

  /** What a text node becomes: an interpolation text is evaluated with the
      inline evaluator, any other is one `_text` call of the escaped literal. */
  function TextLine(text: string): (r: string)
  {
    if Found(text, Interpolation) then Evaluate(text, InlineEvaluator, Interpolation, false).value
    else "_text('" + Stringify(text) + "');"
  }

  /** The lines one tokenizer event appends. */
  function EventLines(e: Event, cfg: Config, tags: Registry): (r: seq<string>)
  {
    match e
    case OpenTag(name, attrs) => OpenTagLines(name, attrs, cfg, tags)
    case CloseTag(name) => CloseTagLines(name, cfg, tags)
    case TextEvent(text) => [TextLine(text)]
  }

  /** `append` of each line in turn. */
  function AppendAll(body: string, lines: seq<string>, cfg: Config): (r: string)
    decreases |lines|
  {
    if lines == [] then body else AppendAll(Append(body, lines[0], cfg), lines[1..], cfg)
  }

  /** `fnBody` after the events, starting from `body`. */
  function EmitFrom(body: string, events: seq<Event>, cfg: Config, tags: Registry): (r: string)
    decreases |events|
  {
    if events == [] then body
    else EmitFrom(AppendAll(body, EventLines(events[0], cfg, tags), cfg), events[1..], cfg, tags)
  }

  /** All the lines of an event stream, in order. */
  function AllLines(events: seq<Event>, cfg: Config, tags: Registry): (r: seq<string>)
    decreases |events|
  {
    if events == [] then [] else EventLines(events[0], cfg, tags) + AllLines(events[1..], cfg, tags)
  }

  /** The tokenizer callbacks of `compile`, sharing the body they grow. */
  class Emitter {
    const cfg: Config
    const tags: Registry
    var fnBody: string

    constructor(cfg: Config, tags: Registry)
      ensures this.cfg == cfg && this.tags == tags && fnBody == ""
    {
      this.cfg := cfg;
      this.tags := tags;
      fnBody := "";
    }

    /** `fnBody = append(fnBody, line, options)` */
    method Push(line: string)
      modifies this
      ensures fnBody == Append(old(fnBody), line, cfg)
    {
      fnBody := fnBody + (if cfg.pretty then "\n" else "") + line;
    }

    /** `onopentag(name, attrs)` */
    method OnOpenTag(name: string, attrs: Attrs)
      modifies this
      ensures fnBody == AppendAll(old(fnBody), OpenTagLines(name, attrs, cfg, tags), cfg)
    {
      var p := ParseAttributes(attrs, cfg, AttributeEvaluator, false);
      var a := OpenArgs(name, attrs, p.key, p.statics, p.varArgs, cfg);
      var handler := HandlerFor(tags, name);
      if handler.Some? {
        match handler.value {
          case Builtin(t) =>
            Push(BuiltinOpenLine(t, a));
            assert fnBody == AppendAll(old(fnBody), [BuiltinOpenLine(t, a)], cfg);
          case Custom(onOpen, _) =>
            if onOpen.Some? {
              Push(Defaulted(onOpen.value(a)));
              assert fnBody == AppendAll(old(fnBody), [Defaulted(onOpen.value(a))], cfg);
            }
        }
      } else {
        var line := ElementLine(name, p, cfg);
        ghost var lines := ElementOpenLines(name, attrs, p, cfg);
        ghost var b0 := fnBody;
        Push(line);
        ghost var b1 := fnBody;
        if p.skip || CheckCustomElement(name, attrs, cfg) {
          Push(SkipLine);
          assert lines == [line, SkipLine] && lines[1..] == [SkipLine];
          assert AppendAll(b1, [SkipLine], cfg) == fnBody;
          assert AppendAll(b0, lines, cfg) == AppendAll(b1, [SkipLine], cfg);
        } else {
          assert lines == [line];
        }
      }
    }

    /** `onclosetag(name)` */
    method OnCloseTag(name: string)
      modifies this
      ensures fnBody == AppendAll(old(fnBody), CloseTagLines(name, cfg, tags), cfg)
    {
      var handler := HandlerFor(tags, name);
      if handler.Some? {
        match handler.value {
          case Builtin(t) =>
            var line := BuiltinCloseLine(t);
            if line.Some? {
              Push(line.value);
            }
          case Custom(_, onClose) =>
            if onClose.Some? {
              Push(Defaulted(onClose.value(name, cfg)));
            }
        }
      } else if !IsSelfClosing(name, cfg) {
        Push(ElementCloseLine(name));
      }
    }

    /** `ontext(text)` */
    method OnText(text: string)
      modifies this
      ensures fnBody == Append(old(fnBody), TextLine(text), cfg)
    {
      var line: string;
      if Found(text, Interpolation) {
        var r := RunEvaluate(text, InlineEvaluator, Interpolation, false);
        line := r.value;
      } else {
        line := "_text('" + Stringify(text) + "');";
      }
      Push(line);
    }

    /** The callback the tokenizer calls for one event. */
    method OnEvent(e: Event)
      modifies this
      ensures fnBody == AppendAll(old(fnBody), EventLines(e, cfg, tags), cfg)
    {
      match e {
        case OpenTag(name, attrs) =>
          OnOpenTag(name, attrs);
        case CloseTag(name) =>
          OnCloseTag(name);
        case TextEvent(text) =>
          OnText(text);
          assert fnBody == AppendAll(old(fnBody), [TextLine(text)], cfg);
      }
    }
  }

  /** The tokenizer run over the shielded template, each event going to the
      emitter in order. */
  method EmitBody(events: seq<Event>, cfg: Config, tags: Registry) returns (r: string)
    ensures r == EmitFrom("", events, cfg, tags)
  {
    var emitter := new Emitter(cfg, tags);
    for i := 0 to |events|
      invariant emitter.cfg == cfg && emitter.tags == tags
      invariant EmitFrom("", events, cfg, tags) == EmitFrom(emitter.fnBody, events[i..], cfg, tags)
    {
      assert events[i..][1..] == events[i + 1..];
      emitter.OnEvent(events[i]);
    }
    return emitter.fnBody;
  }

  /** `fnWrapper`: binds the IncrementalDOM functions, then returns the render
      function that names the helpers and the data (an empty name falls back
      to the default, an absent argument to an empty object) and runs the body. */
  function FunctionSource(cfg: Config, body: string): (r: string)
  {
    "\n        var _elementOpen = _i.elementOpen,\n            _elementClose = _i.elementClose,\n            _elementVoid = _i.elementVoid,\n            _text = _i.text,\n            _skip = _i.skip;\n        return function (_data_) "
    + "{"
    + "\n            var " + (if cfg.varHelpersName != [] then cfg.varHelpersName else "helpers") + " = _h || "
    + "{}"
    + ",\n                "
    + (if cfg.varDataName != [] then cfg.varDataName else "data") + " = _data_ || "
    + "{}"
    + ";\n            "
    + body
    + "\n        "
    + "}"
    + ";\n    "
  }

  /** `compile(html, options)` up to `new Function`: the options and tag
      registries are merged, the template is shielded and tokenized, and the
      body is wrapped. The markup tokenizer is a parameter. */
  method Compile(html: string, options: Overrides, callerTags: Registry, tokenize: string -> seq<Event>)
    returns (r: string)
    ensures r == FunctionSource(Resolve(options),
                                EmitFrom("", tokenize(WrapEvaluations(html)), Resolve(options), MergeTags(callerTags)))
  {
    var cfg := Resolve(options);
    var tags := MergeTags(callerTags);
    var events := tokenize(WrapEvaluations(html));
    var body := EmitBody(events, cfg, tags);
    return FunctionSource(cfg, body);
  }

  /** The body is the lines in order, each preceded by the separator (a line
      feed when `pretty`), empty lines included. */
  lemma {:induction false} AppendAllLayout(body: string, lines: seq<string>, cfg: Config)
    ensures lines != [] ==> AppendAll(body, lines, cfg) == body + Lead(cfg) + Join(lines, Lead(cfg))
    decreases |lines|
  {
    if |lines| >= 2 {
      var b1 := Append(body, lines[0], cfg);
      AppendAllLayout(b1, lines[1..], cfg);
      assert lines[1..] != [];
      assert Join(lines, Lead(cfg)) == lines[0] + Lead(cfg) + Join(lines[1..], Lead(cfg));
    } else if |lines| == 1 {
      assert lines[1..] == [];
    }
  }

  /** Appending two line sequences is appending their concatenation. */
  lemma {:induction false} AppendAllConcat(body: string, a: seq<string>, b: seq<string>, cfg: Config)
    ensures AppendAll(body, a + b, cfg) == AppendAll(AppendAll(body, a, cfg), b, cfg)
    decreases |a|
  {
    if a == [] {
      assert a + b == b;
    } else {
      assert (a + b)[0] == a[0] && (a + b)[1..] == a[1..] + b;
      AppendAllConcat(Append(body, a[0], cfg), a[1..], b, cfg);
    }
  }

  /** The emitted body is the append of all the events' lines: an event's
      output never depends on the body written before it. */
  lemma {:induction false} EmitIsAppendAll(body: string, events: seq<Event>, cfg: Config, tags: Registry)
    ensures EmitFrom(body, events, cfg, tags) == AppendAll(body, AllLines(events, cfg, tags), cfg)
    decreases |events|
  {
    if events != [] {
      var lines := EventLines(events[0], cfg, tags);
      EmitIsAppendAll(AppendAll(body, lines, cfg), events[1..], cfg, tags);
      AppendAllConcat(body, lines, AllLines(events[1..], cfg, tags), cfg);
    }
  }

  /** Event streams compose: compiling `a + b` is compiling `a`, then `b` from
      the body `a` left. */
  lemma {:induction false} EmitConcat(body: string, a: seq<Event>, b: seq<Event>, cfg: Config, tags: Registry)
    ensures EmitFrom(body, a + b, cfg, tags) == EmitFrom(EmitFrom(body, a, cfg, tags), b, cfg, tags)
    decreases |a|
  {
    if a == [] {
      assert a + b == b;
    } else {
      assert (a + b)[0] == a[0];
      assert (a + b)[1..] == a[1..] + b;
      EmitConcat(AppendAll(body, EventLines(a[0], cfg, tags), cfg), a[1..], b, cfg, tags);
    }
  }

  /** Without a blank-group filter every piece is kept. */
  lemma {:induction false} KeepAll(ps: seq<Piece>)
    ensures KeptPieces(ps, false) == ps
  {
    if ps != [] {
      KeepAll(ps[1..]);
    }
  }

  /** `evaluate` with either legacy evaluator renders every piece of the walk
      in order, blank groups included, and joins them with the appender. */
  lemma EvaluateAll(value: string, ev: Evaluator)
    requires ev.toText.Some?
    ensures var ps := Split(value, Interpolation, 0);
      exists frags: seq<string> ::
        && Evaluate(value, ev, Interpolation, false) == Success(Join(frags, ev.appender))
        && |frags| == |ps|
        && forall i :: 0 <= i < |ps| ==> frags[i] == Fragment(ps[i], ev)
  {
    var ps := Split(value, Interpolation, 0);
    RenderInOrder(ps, ev, false);
    KeepAll(ps);
    var frags := Render(ps, ev, false).value;
    assert Evaluate(value, ev, Interpolation, false) == Success(Join(frags, ev.appender));
  }

  /** A text node with an interpolation becomes its pieces in order: each
      literal gap a `t` call, each group as it is, blank or not. */
  lemma InterpolatedText(text: string)
    requires Found(text, Interpolation)
    ensures var ps := Split(text, Interpolation, 0);
      exists frags: seq<string> ::
        && TextLine(text) == Join(frags, " ")
        && |frags| == |ps|
        && forall i :: 0 <= i < |ps| ==>
             frags[i] == match ps[i]
                         case Gap(t) => "t('" + Stringify(t) + "');"
                         case Span(_, g) => g
  {
    EvaluateAll(text, InlineEvaluator);
  }

  /** A text node without an interpolation becomes one `_text` call whose
      string literal reads back as the text when the text has neither a
      backslash nor a carriage return; a raw carriage return breaks it. */
  lemma LiteralText(text: string)
    requires !Found(text, Interpolation)
    ensures TextLine(text) == "_text('" + Stringify(text) + "');"
    ensures '\\' !in text && '\r' !in text ==> Unescape(Stringify(text)) == Some(text)
    ensures '\\' !in text && '\r' in text ==> Unescape(Stringify(text)) == None
  {
    if '\\' !in text {
      if '\r' in text {
        StringifyCarriageReturnBreaks(text);
      } else {
        StringifyRoundTrip(text);
      }
    }
  }

  /** An attribute value with an interpolation becomes its pieces in order,
      each literal gap quoted and each group parenthesised, joined by `+`. */
  lemma InterpolatedAttribute(value: string)
    ensures var ps := Split(value, Interpolation, 0);
      exists frags: seq<string> ::
        && Evaluate(value, AttributeEvaluator, Interpolation, false) == Success(Join(frags, " + "))
        && |frags| == |ps|
        && forall i :: 0 <= i < |ps| ==>
             frags[i] == match ps[i]
                         case Gap(t) => "'" + Stringify(t) + "'"
                         case Span(_, g) => "(" + g + ")"
  {
    EvaluateAll(value, AttributeEvaluator);
  }

  /** `tpl-text` (not overridden by the caller) never throws: without a
      `value` it writes `_text(undefined);`, with a non-empty static value it
      writes that value as a JavaScript expression. */
  lemma TextTagValue(attrs: Attrs, cfg: Config, caller: Registry)
    requires UniqueNames(attrs) && "tpl-text" !in caller
    ensures Lookup(attrs, "value").None? ==>
      OpenTagLines("tpl-text", attrs, cfg, MergeTags(caller)) == ["_text(undefined);"]
    ensures Lookup(attrs, "value").Some? && cfg.attributeKey != "value" && cfg.attributeSkip != "value" ==>
      var value := UnwrapExpressions(Lookup(attrs, "value").value);
      !Found(value, Interpolation) && !cfg.ignoreStaticAttributes && value != [] ==>
        OpenTagLines("tpl-text", attrs, cfg, MergeTags(caller)) == ["_text(" + value + ");"]
  {
    HandlerAfterMerge(caller, "tpl-text");
    ClassifyContents(attrs, cfg, AttributeEvaluator, false, "value");
    UndefinedText();
  }

  lemma UndefinedText()
    ensures "_text(" + "undefined" + ");" == "_text(undefined);"
  {
    assert "_text(" + "undefined" == "_text(undefined";
  }
}
