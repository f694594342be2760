/** The statements both variants write for plain elements and for closing
    tags: `isSelfClosing`, `getFunctionName`, the `elementOpen`/`elementVoid`
    call, the `skip` call and `elementClose`. */
module Elements {
  import opened Wrappers
  import opened Options
  import opened Attributes
  import opened Tags

  /** `isSelfClosing`: the name is listed as a void element. */
  predicate IsSelfClosing(name: string, cfg: Config) {
    name in cfg.selfClosingElements
  }

  /** `getFunctionName` */
  function FunctionName(name: string, cfg: Config): (r: string)
  {
    if IsSelfClosing(name, cfg) then "_elementVoid" else "_elementOpen"
  }

  /** The `elementOpen`/`elementVoid` call of a plain element: its name, its
      key (or `null` when the key is falsy), its statics and its varArgs. */
  function ElementLine(name: string, p: Parsed, cfg: Config): string
  {
    FunctionName(name, cfg) + ElementArgs(name, p)
  }

  /** The argument list of that call, with the closing `;`. */
  function ElementArgs(name: string, p: Parsed): string
  {
    "('" + name + "', " + (if Truthy(p.key) then p.key.value else "null") + ", "
    + StaticsToJs(p.statics) + ", " + VarArgsToJs(p.varArgs) + ");"
  }

  const SkipLine := "_skip();"

  /** A plain element's children are skipped when its attributes ask for it
      or when it is a custom element. */
  predicate SkipsChildren(name: string, attrs: Attrs, p: Parsed, cfg: Config) {
    p.skip || CheckCustomElement(name, attrs, cfg)
  }

  /** The lines the `onopentag` callback writes for a plain element. */
  function ElementOpenLines(name: string, attrs: Attrs, p: Parsed, cfg: Config): (r: seq<string>)
  {
    [ElementLine(name, p, cfg)] + (if SkipsChildren(name, attrs, p, cfg) then [SkipLine] else [])
  }

  /** `_elementClose('name');` */
  function ElementCloseLine(name: string): string
  {
    "_elementClose('" + name + "');"
  }

  /** The JavaScript default parameter `line = ''`: a handler that returns
      `undefined` appends the empty line. */
  function Defaulted(line: Option<string>): string
  {
    if line.Some? then line.value else ""
  }

  /** The lines the `onclosetag` callback writes: the handler's closing line
      when the tag has a handler with an `onclosetag` function, nothing for
      any other handler, `elementClose` for a plain element that is not void. */
  function CloseTagLines(name: string, cfg: Config, tags: Registry): (r: seq<string>)
  {
    match HandlerFor(tags, name)
    case Some(Builtin(t)) => if BuiltinCloseLine(t).Some? then [BuiltinCloseLine(t).value] else []
    case Some(Custom(_, onClose)) => if onClose.Some? then [Defaulted(onClose.value(name, cfg))] else []
    case None => if IsSelfClosing(name, cfg) then [] else [ElementCloseLine(name)]
  }

  /** Void and non-void plain elements: a void element is opened with
      `elementVoid` and never closed, any other with `elementOpen` and closed
      by `elementClose` with its own name. */
  lemma PlainElementPairing(name: string, attrs: Attrs, p: Parsed, cfg: Config, tags: Registry)
    requires HandlerFor(tags, name).None?
    ensures IsSelfClosing(name, cfg) ==>
      ElementOpenLines(name, attrs, p, cfg)[0] == "_elementVoid" + ElementArgs(name, p)
      && CloseTagLines(name, cfg, tags) == []
    ensures !IsSelfClosing(name, cfg) ==>
      ElementOpenLines(name, attrs, p, cfg)[0] == "_elementOpen" + ElementArgs(name, p)
      && CloseTagLines(name, cfg, tags) == ["_elementClose('" + name + "');"]
  {
  }

  /** `elementOpen` is followed by `skip` exactly when the element asks for its
      children to be skipped: a present, non-deactivated skip attribute always
      does, a deactivated one never does. */
  lemma SkipRule(name: string, attrs: Attrs, p: Parsed, cfg: Config)
    requires p.skip == (CheckSkipAttribute(attrs, cfg) || CheckIsAttribute(attrs, cfg))
    ensures |ElementOpenLines(name, attrs, p, cfg)| == 2 <==> SkipsChildren(name, attrs, p, cfg)
    ensures CheckSkipAttribute(attrs, cfg) ==> ElementOpenLines(name, attrs, p, cfg)[1..] == [SkipLine]
    ensures Lookup(attrs, cfg.attributeSkip) == Some(Deactivated) ==> ElementOpenLines(name, attrs, p, cfg)[1..] == []
    ensures !cfg.skipCustomElements && Lookup(attrs, cfg.attributeSkip).None? ==>
      ElementOpenLines(name, attrs, p, cfg)[1..] == []
  {
  }
}
