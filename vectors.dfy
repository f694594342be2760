/** Two concrete templates from the compiler's own test suite, worked through
    the model of src/idomizer.ts: `<input type="text" value="{{data.value}}">`
    compiled with `skipExceptions` switched off, and
    `<h1 class="foo {{data.h1Class}} bar" id="anId">` compiled with static
    attributes ignored and `skipExceptions` switched off. The attribute values
    start as the tokenizer receives them, with each `{{…}}` span inside the
    CDATA envelope the shield put around it. */
module Vectors {
  import opened Wrappers
  import opened Strings
  import opened Scanner
  import opened Escaping
  import opened Options
  import opened Attributes
  import opened Tags
  import opened Elements
  import opened Idomizer
  import opened Shield

  /** The defaults with `skipExceptions` switched off. */
  const Unguarded := DefaultConfig.(skipExceptions := false)

  const InputAttrs: Attrs := [("type", "text"), ("value", "<![CDATA[{{data.value}}]]>")]

  /** An attribute is classified by its unwrapped value. */
  lemma Unshield(name: string, raw: string, v: string, cfg: Config, ev: Evaluator)
    requires ev.toText.Some? && UnwrapExpressions(raw) == v && UnwrapExpressions(v) == v
    ensures Place(name, raw, cfg, ev, true) == Place(name, v, cfg, ev, true)
  {
  }

  /** The group `data.value` holds no delimiter, no shield marker and no
      white space at its ends. */
  lemma DataValueGroup()
    ensures "{{" + "data.value" + "}}" == "{{data.value}}"
    ensures '}' !in "data.value" && '<' !in "data.value" && ']' !in "data.value"
    ensures Trim("data.value") == "data.value"
  {
    TrimUntouched("data.value");
  }

  /** Unguarded, it becomes `(data.value)`. */
  lemma InjectDataValue()
    ensures AttributeEvaluator(Unguarded).inject("data.value") == "(data.value)"
  {
    DataValueGroup();
  }

  /** The shielded `value` unwraps to `{{data.value}}`. */
  lemma UnwrapDataValue(raw: string, v: string)
    requires raw == "<![CDATA[{{data.value}}]]>" && v == "{{data.value}}"
    ensures UnwrapExpressions(raw) == v && UnwrapExpressions(v) == v
  {
    assert CdataOpen + v == "<![CDATA[{{data.value}}";
    assert raw == "" + CdataOpen + v + CdataClose + "";
    UnwrapEnvelope("", v, "");
    assert "" + v + "" == v;
    UnwrapMarkerFree(v);
  }

  /** `value="{{data.value}}"`, shielded, is dynamic. */
  lemma PlaceValue(name: string, raw: string, ev: Evaluator)
    requires name == "value" && raw == "<![CDATA[{{data.value}}]]>" && ev == AttributeEvaluator(Unguarded)
    ensures Place(name, raw, Unguarded, ev, true) == Dynamic("(data.value)")
  {
    UnwrapDataValue(raw, "{{data.value}}");
    Unshield(name, raw, "{{data.value}}", Unguarded, ev);
    DataValueGroup();
    PlaceSingleInterpolation(name, "data.value", Unguarded, ev, true);
    InjectDataValue();
  }

  /** `type="text"` is neither the skip attribute nor shielded nor interpolated. */
  lemma PlaceType(name: string, raw: string, ev: Evaluator)
    requires name == "type" && raw == "text" && ev == AttributeEvaluator(Unguarded)
    ensures Place(name, raw, Unguarded, ev, true) == Static("text")
  {
    assert name != Unguarded.attributeSkip && !Unguarded.ignoreStaticAttributes;
    assert '{' !in raw && '<' !in raw && ']' !in raw;
    PlaceLiteral(name, raw, Unguarded, ev, true);
  }

  /** The statics and varArgs the loop collects. */
  lemma InputStatics(attrs: Attrs, ev: Evaluator)
    requires attrs == InputAttrs && ev == AttributeEvaluator(Unguarded)
    ensures StaticsOf(attrs, Unguarded, ev, true) == [("type", "text")]
  {
    PlaceType(attrs[0].0, attrs[0].1, ev);
    PlaceValue(attrs[1].0, attrs[1].1, ev);
    assert attrs[..1] == [attrs[0]] && attrs[..1][..0] == [];
  }

  lemma InputDynamics(attrs: Attrs, ev: Evaluator)
    requires attrs == InputAttrs && ev == AttributeEvaluator(Unguarded)
    ensures DynamicsOf(attrs, Unguarded, ev, true) == [("value", "(data.value)")]
  {
    PlaceType(attrs[0].0, attrs[0].1, ev);
    PlaceValue(attrs[1].0, attrs[1].1, ev);
    assert attrs[..1] == [attrs[0]] && attrs[..1][..0] == [];
  }

  /** Neither the skip attribute, nor `is`, nor the key is among them. */
  lemma InputLookups()
    ensures Lookup(InputAttrs, "tpl-skip").None? && Lookup(InputAttrs, "is").None?
    ensures !ShadowsHasOwnProperty(InputAttrs)
    ensures Lookup([("type", "text")], "tpl-key").None?
    ensures Lookup([("value", "(data.value)")], "tpl-key").None?
  {
  }

  lemma InputRemovals()
    ensures Remove([("type", "text")], "tpl-key") == [("type", "text")]
    ensures Remove([("value", "(data.value)")], "tpl-key") == [("value", "(data.value)")]
  {
    assert [("type", "text")][..0] == [];
    assert [("value", "(data.value)")][..0] == [];
  }

  /** `parseAttributes` on the input's attributes: `type` is static, `value`
      is the parenthesised expression, there is no key and no skip. */
  lemma ParseInputAttributes()
    ensures ParsedOf(InputAttrs, Unguarded) == Parsed([("type", "text")], [("value", "(data.value)")], None, false)
  {
    InputStatics(InputAttrs, AttributeEvaluator(Unguarded));
    InputDynamics(InputAttrs, AttributeEvaluator(Unguarded));
    InputLookups();
    InputRemovals();
  }

  lemma TypePair()
    ensures StaticPair(("type", "text")) == "'type', 'text'"
  {
    StringifyIdentity("text");
  }

  lemma TypeStatics()
    ensures StaticsToJs([("type", "text")]) == "['type', 'text']"
  {
    TypePair();
    assert StaticPairs([("type", "text")]) == ["'type', 'text'"];
  }

  lemma ValueVarArgs()
    ensures VarArgsToJs([("value", "(data.value)")]) == "'value', (data.value)"
  {
    assert DynamicPair(("value", "(data.value)")) == "'value', (data.value)";
    assert DynamicPairs([("value", "(data.value)")]) == ["'value', (data.value)"];
  }

  /** The argument list's text, built up a step at a time: each step is a
      separate proof so that the solver sees only one concatenation. */
  lemma ArgsPrefix()
    ensures "('" + "input" + "', " + "null" + ", " == "('input', null, "
  {
    assert "('" + "input" == "('input";
    assert "('input" + "', " == "('input', ";
    assert "('input', " + "null" == "('input', null";
  }

  lemma ArgsMiddle()
    ensures "('input', null, " + "['type', 'text']" + ", " == "('input', null, ['type', 'text'], "
  {
    assert "('input', null, " + "['type', 'text']" == "('input', null, ['type', 'text']";
  }

  lemma ArgsSuffix()
    ensures "('input', null, ['type', 'text'], " + "'value', (data.value)" + ");"
         == "('input', null, ['type', 'text'], 'value', (data.value));"
  {
    assert "('input', null, ['type', 'text'], " + "'value', (data.value)"
        == "('input', null, ['type', 'text'], 'value', (data.value)";
  }

  /** The argument list written for those attributes. */
  lemma InputArguments()
    ensures ElementArgs("input", Parsed([("type", "text")], [("value", "(data.value)")], None, false))
         == "('input', null, ['type', 'text'], 'value', (data.value));"
  {
    TypeStatics();
    ValueVarArgs();
    ArgsPrefix();
    ArgsMiddle();
    ArgsSuffix();
  }

  /** `input` is neither a built-in tag nor a name JavaScript objects inherit. */
  lemma InputIsPlain()
    ensures HandlerFor(MergeTags(map[]), "input").None?
  {
    assert MergeTags(map[]) == Builtins;
  }

  lemma InputHasNoDash()
    ensures '-' !in "input"
  {
  }

  lemma InputIsVoid()
    ensures FunctionName("input", Unguarded) == "_elementVoid"
  {
  }

  /** The whole `onopentag` output for the input: one `elementVoid` call, no
      `skip` (test/idomizer.spec.js, the first case). */
  lemma InputWithDynamicValue(name: string, attrs: Attrs, cfg: Config, tags: Registry)
    requires name == "input" && attrs == InputAttrs && cfg == Unguarded && tags == MergeTags(map[])
    ensures OpenTagLines(name, attrs, cfg, tags)
         == Success(["_elementVoid" + "('input', null, ['type', 'text'], 'value', (data.value));"])
  {
    ParseInputAttributes();
    InputArguments();
    InputIsPlain();
    InputIsVoid();
    InputLookups();
    var p := ParsedOf(attrs, cfg);
    assert p == Parsed([("type", "text")], [("value", "(data.value)")], None, false);
    assert OpenTagLines(name, attrs, cfg, tags) == Success(ElementOpenLines(name, attrs, p, cfg));
    assert '-' !in name by { InputHasNoDash(); }
    assert !SkipsChildren(name, attrs, p, cfg);
    assert ElementOpenLines(name, attrs, p, cfg) == [ElementLine(name, p, cfg)];
  }

  /** The defaults with every attribute treated as dynamic and `skipExceptions`
      switched off. */
  const AllDynamic := DefaultConfig.(ignoreStaticAttributes := true, skipExceptions := false)

  const HeadingAttrs: Attrs := [("class", "foo <![CDATA[{{data.h1Class}}]]> bar"), ("id", "anId")]

  /** The class value the shield hands on: its span inside an envelope. */
  lemma ClassEnvelope()
    ensures "foo " + CdataOpen + "{{data.h1Class}}" + CdataClose + " bar" == "foo <![CDATA[{{data.h1Class}}]]> bar"
  {
    assert "foo " + CdataOpen == "foo <![CDATA[";
    assert "foo <![CDATA[" + "{{data.h1Class}}" == "foo <![CDATA[{{data.h1Class}}";
    assert "foo <![CDATA[{{data.h1Class}}" + CdataClose == "foo <![CDATA[{{data.h1Class}}]]>";
  }

  /** The shielded class value unwraps to the value as written. */
  lemma UnwrapClass(raw: string, v: string)
    requires raw == "foo <![CDATA[{{data.h1Class}}]]> bar" && v == "foo {{data.h1Class}} bar"
    ensures UnwrapExpressions(raw) == v && UnwrapExpressions(v) == v
  {
    var pre, span, post := "foo ", "{{data.h1Class}}", " bar";
    ClassEnvelope();
    assert raw == pre + CdataOpen + span + CdataClose + post;
    UnwrapEnvelope(pre, span, post);
    assert v == pre + span + post;
    UnwrapMarkerFree(v);
  }

  const ClassJs := "'foo ' + (data.h1Class) + ' bar'"

  /** `foo {{data.h1Class}} bar` is a gap, one group and a gap. */
  lemma ClassPieces()
    ensures Split("foo {{data.h1Class}} bar", Interpolation, 0)
         == [Gap("foo "), Span("{{data.h1Class}}", "data.h1Class"), Gap(" bar")]
  {
    var s, pre, g, post := "foo {{data.h1Class}} bar", "foo ", "data.h1Class", " bar";
    assert pre + Interpolation.open == "foo {{";
    assert "foo {{" + g == "foo {{data.h1Class";
    assert "foo {{data.h1Class" + Interpolation.close == "foo {{data.h1Class}}";
    assert "foo {{data.h1Class}}" + post == s;
    assert Interpolation.open + g + Interpolation.close == "{{data.h1Class}}";
    SpanBetween(s, Interpolation, pre, g, post);
  }

  /** A gap without quote or newline is quoted as it is. */
  lemma QuoteGap(ev: Evaluator, t: string)
    requires ev == AttributeEvaluator(AllDynamic) && '\'' !in t && '\n' !in t
    ensures ev.toText.value(t) == "'" + t + "'"
  {
    StringifyIdentity(t);
  }

  /** A group without white space at its ends is parenthesised as it is. */
  lemma InjectGroup(ev: Evaluator, g: string)
    requires ev == AttributeEvaluator(AllDynamic)
    requires g != [] && !IsWhitespace(g[0]) && !IsWhitespace(g[|g| - 1])
    ensures ev.inject(g) == "(" + g + ")"
  {
    TrimUntouched(g);
  }

  /** Each piece of the class value, rendered. */
  lemma ClassFragments(ev: Evaluator)
    requires ev == AttributeEvaluator(AllDynamic)
    ensures ev.toText.value("foo ") == "'foo '"
    ensures ev.toText.value(" bar") == "' bar'"
    ensures ev.inject("data.h1Class") == "(data.h1Class)"
  {
    QuoteGap(ev, "foo ");
    assert "'" + "foo " == "'foo ";
    QuoteGap(ev, " bar");
    assert "'" + " bar" == "' bar";
    InjectGroup(ev, "data.h1Class");
    assert "(" + "data.h1Class" == "(data.h1Class";
  }

  /** Rendering a piece in front of others that render. */
  lemma RenderFront(p: Piece, rest: seq<Piece>, ev: Evaluator)
    requires RenderPiece(p, ev, true).Success? && Render(rest, ev, true).Success?
    ensures Render([p] + rest, ev, true) == Success(RenderPiece(p, ev, true).value + Render(rest, ev, true).value)
  {
    assert ([p] + rest)[0] == p && ([p] + rest)[1..] == rest;
  }

  lemma ClassRender(ev: Evaluator, ps: seq<Piece>)
    requires ev == AttributeEvaluator(AllDynamic)
    requires ps == [Gap("foo "), Span("{{data.h1Class}}", "data.h1Class"), Gap(" bar")]
    ensures Render(ps, ev, true) == Success(["'foo '", "(data.h1Class)", "' bar'"])
  {
    ClassFragments(ev);
    assert Trim("data.h1Class") != [];
    var a, b, c := ps[0], ps[1], ps[2];
    assert RenderPiece(a, ev, true) == Success(["'foo '"]);
    assert RenderPiece(b, ev, true) == Success(["(data.h1Class)"]);
    assert RenderPiece(c, ev, true) == Success(["' bar'"]);
    assert Render([], ev, true) == Success([]);
    RenderFront(c, [], ev);
    assert [c] + [] == [c] && ["' bar'"] + [] == ["' bar'"];
    assert Render([c], ev, true) == Success(["' bar'"]);
    RenderFront(b, [c], ev);
    assert [b] + [c] == [b, c] && ["(data.h1Class)"] + ["' bar'"] == ["(data.h1Class)", "' bar'"];
    assert Render([b, c], ev, true) == Success(["(data.h1Class)", "' bar'"]);
    RenderFront(a, [b, c], ev);
    assert [a] + [b, c] == ps;
    assert ["'foo '"] + ["(data.h1Class)", "' bar'"] == ["'foo '", "(data.h1Class)", "' bar'"];
  }

  lemma ClassJoin()
    ensures Join(["'foo '", "(data.h1Class)", "' bar'"], " + ") == ClassJs
  {
    var parts := ["'foo '", "(data.h1Class)", "' bar'"];
    assert Join(parts[2..], " + ") == "' bar'";
    assert Join(parts[1..], " + ") == "(data.h1Class) + ' bar'";
  }

  /** The class value becomes the concatenation the test expects. */
  lemma ClassValue(ev: Evaluator)
    requires ev == AttributeEvaluator(AllDynamic)
    ensures Evaluate("foo {{data.h1Class}} bar", ev, Interpolation, true) == Success(ClassJs)
  {
    ClassPieces();
    ClassRender(ev, Split("foo {{data.h1Class}} bar", Interpolation, 0));
    ClassJoin();
  }

  /** `anId` has no group, so it is its quoted self. */
  lemma IdValue(ev: Evaluator)
    requires ev == AttributeEvaluator(AllDynamic)
    ensures Evaluate("anId", ev, Interpolation, true) == Success("'anId'")
  {
    NoOpenNotFound("anId", Interpolation);
    assert !Found("anId", Interpolation);
    EvaluateNoMatch("anId", ev, Interpolation, true);
    assert ev.toText.Some?;
    assert Evaluate("anId", ev, Interpolation, true) == Success(ev.toText.value("anId"));
    QuoteGap(ev, "anId");
    assert "'" + "anId" == "'anId";
    assert "'" + "anId" + "'" == "'anId'";
  }

  /** The shielded class value is placed as the value as written. */
  lemma PlaceClass(ev: Evaluator)
    requires ev == AttributeEvaluator(AllDynamic)
    ensures Place("class", "foo <![CDATA[{{data.h1Class}}]]> bar", AllDynamic, ev, true) == Dynamic(ClassJs)
  {
    var v := "foo {{data.h1Class}} bar";
    UnwrapClass("foo <![CDATA[{{data.h1Class}}]]> bar", v);
    Unshield("class", "foo <![CDATA[{{data.h1Class}}]]> bar", v, AllDynamic, ev);
    ClassValue(ev);
    assert Place("class", v, AllDynamic, ev, true) == Dynamic(ClassJs);
  }

  /** With static attributes ignored, both attributes are dynamic. */
  lemma PlaceHeading(ev: Evaluator)
    requires ev == AttributeEvaluator(AllDynamic)
    ensures Place("class", "foo <![CDATA[{{data.h1Class}}]]> bar", AllDynamic, ev, true) == Dynamic(ClassJs)
    ensures Place("id", "anId", AllDynamic, ev, true) == Dynamic("'anId'")
  {
    PlaceClass(ev);
    UnwrapMarkerFree("anId");
    IdValue(ev);
  }

  lemma HeadingStatics(attrs: Attrs, ev: Evaluator)
    requires attrs == HeadingAttrs && ev == AttributeEvaluator(AllDynamic)
    ensures StaticsOf(attrs, AllDynamic, ev, true) == []
    ensures DynamicsOf(attrs, AllDynamic, ev, true) == [("class", ClassJs), ("id", "'anId'")]
  {
    PlaceHeading(ev);
    assert attrs[..1] == [attrs[0]] && attrs[..1][..0] == [];
  }

  /** Neither the skip attribute nor `is` is among the heading's attributes,
      and no key among its varArgs. */
  lemma HeadingLookups(va: Attrs)
    requires va == [("class", ClassJs), ("id", "'anId'")]
    ensures Lookup(HeadingAttrs, "tpl-skip").None? && Lookup(HeadingAttrs, "is").None?
    ensures Lookup([], "tpl-key").None? && Lookup(va, "tpl-key").None?
    ensures Remove([], "tpl-key") == [] && Remove(va, "tpl-key") == va
  {
    assert va[..1] == [va[0]] && va[..1][..0] == [];
    assert HeadingAttrs[1..] == [("id", "anId")] && HeadingAttrs[1..][1..] == [];
    assert HeadingAttrs[0].0 != "tpl-skip" && HeadingAttrs[0].0 != "is";
    assert va[1..] == [va[1]] && va[1..][1..] == [];
  }

  /** `parseAttributes` on the heading: no statics, both attributes as
      varArgs, no key and no skip. */
  lemma ParseHeadingAttributes()
    ensures ParsedOf(HeadingAttrs, AllDynamic) == Parsed([], [("class", ClassJs), ("id", "'anId'")], None, false)
  {
    HeadingStatics(HeadingAttrs, AttributeEvaluator(AllDynamic));
    HeadingLookups([("class", ClassJs), ("id", "'anId'")]);
  }

  /** The varArgs written for the heading, the text test/idomizer.spec.js
      matches against. */
  lemma HeadingVarArgs(va: Attrs)
    requires va == [("class", ClassJs), ("id", "'anId'")]
    ensures VarArgsToJs(va) == "'class', 'foo ' + (data.h1Class) + ' bar', 'id', 'anId'"
  {
    HeadingPairs(va);
    JoinTwo("'class', " + ClassJs, "'id', 'anId'", ", ");
    HeadingPairsText();
  }

  lemma HeadingPairs(va: Attrs)
    requires va == [("class", ClassJs), ("id", "'anId'")]
    ensures DynamicPairs(va) == ["'class', " + ClassJs, "'id', 'anId'"]
  {
    assert DynamicPair(va[0]) == "'class', " + ClassJs;
    assert DynamicPair(va[1]) == "'id', 'anId'";
  }

  lemma JoinTwo(x: string, y: string, sep: string)
    ensures Join([x, y], sep) == x + sep + y
  {
    assert [x, y][1..] == [y];
  }

  lemma HeadingPairsText()
    ensures "'class', " + ClassJs + ", " + "'id', 'anId'"
         == "'class', 'foo ' + (data.h1Class) + ' bar', 'id', 'anId'"
  {
    assert "'class', " + ClassJs == "'class', 'foo ' + (data.h1Class) + ' bar'";
    assert "'class', 'foo ' + (data.h1Class) + ' bar'" + ", " == "'class', 'foo ' + (data.h1Class) + ' bar', ";
  }

  /** The heading's compiled attributes (test/idomizer.spec.js, "should ignore
      static attributes"). */
  lemma HeadingIgnoresStatics()
    ensures VarArgsToJs(ParsedOf(HeadingAttrs, AllDynamic).varArgs)
         == "'class', 'foo ' + (data.h1Class) + ' bar', 'id', 'anId'"
    ensures ParsedOf(HeadingAttrs, AllDynamic).statics == []
  {
    ParseHeadingAttributes();
    HeadingVarArgs([("class", ClassJs), ("id", "'anId'")]);
  }
}
