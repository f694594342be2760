/** The tag registry: the built-in directives, the caller's own tag handlers,
    the merge that lets the caller's entries win, and the tokenizer events the
    emitter reacts to. */
module Tags {
  import opened Wrappers
  import opened Strings
  import opened Options
  import opened Attributes
  import opened Braces

  /** What a tag handler's `onopentag` receives (`options` without its tag
      registry). */
  datatype OpenArgs = OpenArgs(name: string, attrs: Attrs, key: Option<string>,
                               statics: Attrs, varArgs: Attrs, cfg: Config)

  /** A caller's `onopentag`; `None` is a handler that returns `undefined`. */
  type OpenFn = OpenArgs -> Option<string>

  /** A caller's `onclosetag(name, options)`. */
  type CloseFn = (string, Config) -> Option<string>

  datatype BuiltinTag = Logger | Each | If | ElseIf | Else | TextTag | Call

  /** A truthy registry entry: a built-in, or a caller's object whose
      `onopentag`/`onclosetag` are functions (`Some`) or anything else (`None`). */
  datatype Handler =
    | Builtin(tag: BuiltinTag)
    | Custom(onOpen: Option<OpenFn>, onClose: Option<CloseFn>)

  /** A registry: an entry per own property; `None` is a falsy value. */
  type Registry = map<string, Option<Handler>>

  /** `DEFAULT_TAGS_HANDLERS` (src/idomizer.ts), `BUILT_IN_TAGS` (src/idomizer.js). */
  const Builtins: Registry := map[
    "tpl-logger" := Some(Builtin(Logger)),
    "tpl-each" := Some(Builtin(Each)),
    "tpl-if" := Some(Builtin(If)),
    "tpl-else-if" := Some(Builtin(ElseIf)),
    "tpl-else" := Some(Builtin(Else)),
    "tpl-text" := Some(Builtin(TextTag)),
    "tpl-call" := Some(Builtin(Call))]

  /** The properties every plain object inherits from `Object.prototype`. A tag
      of one of these names finds a truthy registry entry without `onopentag`
      or `onclosetag` functions. */
  const InheritedNames: set<string> := {
    "constructor", "hasOwnProperty", "isPrototypeOf", "propertyIsEnumerable",
    "toLocaleString", "toString", "valueOf", "__proto__",
    "__defineGetter__", "__defineSetter__", "__lookupGetter__", "__lookupSetter__"}

  /** `assign({}, BUILT_IN, options.tags)`: the caller's entries replace the
      built-in ones of the same name. */
  function MergeTags(caller: Registry): (r: Registry)
  {
    Builtins + caller
  }

  /** `options.tags[name]` when truthy. */
  function HandlerFor(tags: Registry, name: string): (r: Option<Handler>)
  {
    if name in tags then tags[name]
    else if name in InheritedNames then Some(Custom(None, None))
    else None
  }

  /** Which handler a tag name resolves to after the merge: the caller's entry
      when there is one (a falsy one meaning a plain element), else the
      built-in of that name, else an inherited property, else a plain element. */
  lemma HandlerAfterMerge(caller: Registry, name: string)
    ensures name in caller ==> HandlerFor(MergeTags(caller), name) == caller[name]
    ensures name !in caller && name in Builtins ==> HandlerFor(MergeTags(caller), name) == Builtins[name]
    ensures name !in caller && name !in Builtins && name !in InheritedNames ==>
      HandlerFor(MergeTags(caller), name).None?
    ensures name !in caller && name !in Builtins && name in InheritedNames ==>
      HandlerFor(MergeTags(caller), name) == Some(Custom(None, None))
  {
  }

  /** With no caller tags the seven directive names resolve to their
      built-ins, and a name that is none of them and is inherited by no
      object is a plain element. */
  lemma BuiltinNames(name: string)
    ensures HandlerFor(MergeTags(map[]), "tpl-logger") == Some(Builtin(Logger))
    ensures HandlerFor(MergeTags(map[]), "tpl-each") == Some(Builtin(Each))
    ensures HandlerFor(MergeTags(map[]), "tpl-if") == Some(Builtin(If))
    ensures HandlerFor(MergeTags(map[]), "tpl-else-if") == Some(Builtin(ElseIf))
    ensures HandlerFor(MergeTags(map[]), "tpl-else") == Some(Builtin(Else))
    ensures HandlerFor(MergeTags(map[]), "tpl-text") == Some(Builtin(TextTag))
    ensures HandlerFor(MergeTags(map[]), "tpl-call") == Some(Builtin(Call))
    ensures name !in Builtins && name !in InheritedNames ==> HandlerFor(MergeTags(map[]), name).None?
  {
    assert Builtins + map[] == Builtins;
  }

  /** `statics.x || varArgs.x`: the static value wins when truthy. */
  function Attr(a: OpenArgs, n: string): Option<string>
  {
    Or(Lookup(a.statics, n), Lookup(a.varArgs, n))
  }

  /** `tpl-logger` */
  function LoggerLine(a: OpenArgs): string
  {
    "console." + OrDefault(Attr(a, "level"), "log") + "(" + OrDefault(Attr(a, "content"), "") + ");"
  }

  /** `tpl-each`, opening */
  function EachOpenLine(a: OpenArgs): string
  {
    "(" + OrDefault(Attr(a, "items"), "items") + " || []).forEach(function ("
    + OrDefault(Attr(a, "item"), "item") + ", " + OrDefault(Attr(a, "index"), "index") + ") {"
  }

  const EachCloseLine := "});"

  /** `tpl-if`, opening */
  function IfOpenLine(a: OpenArgs): string
  {
    "if (" + OrDefault(Attr(a, "expression"), "false") + ") {"
  }

  const IfCloseLine := "}"

  /** `tpl-else-if` */
  function ElseIfLine(a: OpenArgs): string
  {
    " } else if (" + OrDefault(Attr(a, "expression"), "false") + ") { "
  }

  const ElseLine := " } else { "

  /** `tpl-call` */
  function CallLine(a: OpenArgs): string
  {
    a.cfg.varHelpersName + "." + Interpolate(Attr(a, "name")) + "(" + a.cfg.varDataName + ");"
  }

  /** `onclosetag` of a built-in: only `tpl-each` and `tpl-if` have one. */
  function BuiltinCloseLine(t: BuiltinTag): (r: Option<string>)
  {
    match t
    case Each => Some(EachCloseLine)
    case If => Some(IfCloseLine)
    case _ => None
  }

  /** The value `statics.n || varArgs.n || d` a directive uses. */
  function Picked(a: OpenArgs, n: string, d: string): string
  {
    if Truthy(Lookup(a.statics, n)) then Lookup(a.statics, n).value
    else if Truthy(Lookup(a.varArgs, n)) then Lookup(a.varArgs, n).value
    else d
  }

  /** `tpl-logger` logs at the truthy static `level`, even when an evaluated
      one is present, else at the truthy evaluated `level`, else at `log`;
      its argument is picked from `content` the same way, defaulting to
      nothing. */
  lemma LoggerPrecedence(a: OpenArgs)
    ensures LoggerLine(a) == "console." + Picked(a, "level", "log") + "(" + Picked(a, "content", "") + ");"
    ensures Truthy(Lookup(a.statics, "level")) ==>
      LoggerLine(a)[..8 + |Lookup(a.statics, "level").value| + 1]
        == "console." + Lookup(a.statics, "level").value + "("
    ensures !Truthy(Lookup(a.statics, "level")) && Truthy(Lookup(a.varArgs, "level")) ==>
      LoggerLine(a)[..8 + |Lookup(a.varArgs, "level").value| + 1]
        == "console." + Lookup(a.varArgs, "level").value + "("
  {
  }

  /** The lines of the directives given no attributes: the logger logs
      nothing at level `log`, a condition is `false`, a call names `undefined`. */
  lemma DirectiveDefaults(name: string, cfg: Config)
    ensures var a := OpenArgs(name, [], None, [], [], cfg);
      && LoggerLine(a) == "console.log();"
      && IfOpenLine(a) == "if (false) {"
      && ElseIfLine(a) == " } else if (false) { "
      && CallLine(a) == cfg.varHelpersName + ".undefined(" + cfg.varDataName + ");"
  {
    var a := OpenArgs(name, [], None, [], [], cfg);
    NoAttr(a, "level");
    NoAttr(a, "content");
    NoAttr(a, "expression");
    NoAttr(a, "name");
    assert "console." + "log" + "(" + "" + ");" == "console.log();";
    assert "if (" + "false" + ") {" == "if (false) {";
    assert " } else if (" + "false" + ") { " == " } else if (false) { ";
  }

  /** An attribute-free tag has no attribute of any name. */
  lemma NoAttr(a: OpenArgs, n: string)
    requires a.statics == [] && a.varArgs == []
    ensures Attr(a, n).None?
  {
  }

  /** The `tpl-each` line given no attributes iterates `items` as `item` and `index`. */
  lemma EachDefaults(name: string, cfg: Config)
    ensures EachOpenLine(OpenArgs(name, [], None, [], [], cfg)) == "(items || []).forEach(function (item, index) {"
  {
    var a := OpenArgs(name, [], None, [], [], cfg);
    NoAttr(a, "items");
    NoAttr(a, "item");
    NoAttr(a, "index");
    assert EachOpenLine(a) == "(" + "items" + " || []).forEach(function (" + "item" + ", " + "index" + ") {";
    EachDefaultsText();
  }

  lemma EachDefaultsText()
    ensures "(" + "items" + " || []).forEach(function (" + "item" + ", " + "index" + ") {"
         == "(items || []).forEach(function (item, index) {"
  {
    EachDefaultsHead();
    assert "(items || []).forEach(function (" + "item" == "(items || []).forEach(function (item";
    assert "(items || []).forEach(function (item" + ", " == "(items || []).forEach(function (item, ";
    assert "(items || []).forEach(function (item, " + "index" == "(items || []).forEach(function (item, index";
  }

  lemma EachDefaultsHead()
    ensures "(" + "items" + " || []).forEach(function (" == "(items || []).forEach(function ("
  {
    assert "(" + "items" == "(items";
  }

  /** The `tpl-each` lines for brace-free item, items and index names. */
  lemma EachBlock(items: string, item: string, index: string)
    requires Braceless(items) && Braceless(item) && Braceless(index)
    ensures Depth("(" + items + " || []).forEach(function (" + item + ", " + index + ") {") == 1
    ensures Depth(EachCloseLine) == -1
  {
    var m := " || []).forEach(function (";
    EachPartsBraceless(m);
    var p1 := "(" + items;
    BracelessAppend("(", items);
    var p2 := p1 + m;
    BracelessAppend(p1, m);
    var p3 := p2 + item;
    BracelessAppend(p2, item);
    var p4 := p3 + ", ";
    BracelessAppend(p3, ", ");
    var p5 := p4 + index;
    BracelessAppend(p4, index);
    var p := p5 + ") ";
    BracelessAppend(p5, ") ");
    OneBrace(p, '{', "");
    assert p + "{" + "" == "(" + items + " || []).forEach(function (" + item + ", " + index + ") {";
    EachCloseDepth();
  }

  lemma EachPartsBraceless(m: string)
    requires m == " || []).forEach(function ("
    ensures Braceless("(") && Braceless(m) && Braceless(", ") && Braceless(") ")
  {
  }

  lemma EachCloseDepth()
    ensures Depth(EachCloseLine) == -1
  {
    assert Braceless(");");
    OneBrace("", '}', ");");
    assert "" + "}" + ");" == EachCloseLine;
  }

  /** The `tpl-if` lines for a brace-free expression. */
  lemma IfBlock(e: string)
    requires Braceless(e)
    ensures Depth("if (" + e + ") {") == 1 && Depth(IfCloseLine) == -1
  {
    assert Braceless("if (") && Braceless(") ");
    BracelessAppend("if (", e);
    BracelessAppend("if (" + e, ") ");
    OneBrace("if (" + e + ") ", '{', "");
    assert "if (" + e + ") " + "{" + "" == "if (" + e + ") {";
    OneBrace("", '}', "");
    assert "" + "}" + "" == IfCloseLine;
  }

  /** The `tpl-else-if` line for a brace-free expression closes a block and opens one. */
  lemma ElseIfBlock(e: string)
    requires Braceless(e)
    ensures Depth(" } else if (" + e + ") { ") == 0
  {
    assert Braceless(" else if (");
    OneBrace(" ", '}', " else if (");
    assert " " + "}" + " else if (" == " } else if (";
    OneBrace(") ", '{', " ");
    assert ") " + "{" + " " == ") { ";
    DepthBraceless(e);
    DepthAppend(" } else if (", e);
    DepthAppend(" } else if (" + e, ") { ");
  }

  /** The `tpl-else` line closes a block and opens one. */
  lemma ElseOnlyBlock()
    ensures Depth(ElseLine) == 0
  {
    assert Braceless(" else ");
    CloseThenOpen(" ", " else ", " ");
    assert " " + "}" + " else " + "{" + " " == ElseLine;
  }

  /** The block structure of the directives: with brace-free attribute values,
      `tpl-each` and `tpl-if` open exactly one block that their closing tag
      closes, and `tpl-else-if`/`tpl-else` close one and open the next. */
  lemma DirectiveBlocks(a: OpenArgs)
    requires Braceless(OrDefault(Attr(a, "items"), "items"))
    requires Braceless(OrDefault(Attr(a, "item"), "item"))
    requires Braceless(OrDefault(Attr(a, "index"), "index"))
    requires Braceless(OrDefault(Attr(a, "expression"), "false"))
    ensures Depth(EachOpenLine(a)) == 1 && Depth(EachCloseLine) == -1
    ensures Depth(IfOpenLine(a)) == 1 && Depth(IfCloseLine) == -1
    ensures Depth(ElseIfLine(a)) == 0 && Depth(ElseLine) == 0
  {
    EachBlock(OrDefault(Attr(a, "items"), "items"), OrDefault(Attr(a, "item"), "item"),
              OrDefault(Attr(a, "index"), "index"));
    IfBlock(OrDefault(Attr(a, "expression"), "false"));
    ElseIfBlock(OrDefault(Attr(a, "expression"), "false"));
    ElseOnlyBlock();
  }

  /** One callback of the markup tokenizer. */
  datatype Event =
    | OpenTag(name: string, attrs: Attrs)
    | CloseTag(name: string)
    | TextEvent(text: string)
}
