/** The compiler's options record, without the tag registry (see module Tags)
    and without the delimiter patterns, which keep their default values. */
module Options {
  import opened Wrappers

  datatype Config = Config(
    pretty: bool,                  // a line feed before each appended statement
    ignoreStaticAttributes: bool,  // every attribute goes through evaluation
    attributeKey: string,          // the attribute naming the element's key
    attributeSkip: string,         // the attribute asking to skip the children
    skipExceptions: bool,          // guard each interpolation with try/catch (src/idomizer.ts only)
    skipCustomElements: bool,      // skip children of `x-y` elements and of elements with `is`
    varDataName: string,           // the data variable of the generated function
    varHelpersName: string,        // the helpers variable of the generated function
    selfClosingElements: seq<string>)

  const DefaultSelfClosingElements: seq<string> :=
    ["area", "base", "br", "col", "embed", "hr", "img", "input", "keygen", "link",
     "meta", "param", "source", "track", "wbr"]

  /** `DEFAULT_OPTIONS` of src/idomizer.ts; `OPTIONS` of src/idomizer.js has the
      same values and no `skipExceptions`, which that variant never reads. */
  const DefaultConfig := Config(false, false, "tpl-key", "tpl-skip", true, true, "data", "helpers",
                                DefaultSelfClosingElements)

  /** The options a caller passes: `None` for a property left out. */
  datatype Overrides = Overrides(
    pretty: Option<bool>,
    ignoreStaticAttributes: Option<bool>,
    attributeKey: Option<string>,
    attributeSkip: Option<string>,
    skipExceptions: Option<bool>,
    skipCustomElements: Option<bool>,
    varDataName: Option<string>,
    varHelpersName: Option<string>,
    selfClosingElements: Option<seq<string>>)

  const NoOverrides := Overrides(None, None, None, None, None, None, None, None, None)

  function Pick<T>(o: Option<T>, d: T): T
  {
    if o.Some? then o.value else d
  }

  /** `assign({}, DEFAULT_OPTIONS, options)`: each property the caller sets wins
      over the default. */
  function Resolve(o: Overrides): (c: Config)
  {
    Config(Pick(o.pretty, DefaultConfig.pretty),
           Pick(o.ignoreStaticAttributes, DefaultConfig.ignoreStaticAttributes),
           Pick(o.attributeKey, DefaultConfig.attributeKey),
           Pick(o.attributeSkip, DefaultConfig.attributeSkip),
           Pick(o.skipExceptions, DefaultConfig.skipExceptions),
           Pick(o.skipCustomElements, DefaultConfig.skipCustomElements),
           Pick(o.varDataName, DefaultConfig.varDataName),
           Pick(o.varHelpersName, DefaultConfig.varHelpersName),
           Pick(o.selfClosingElements, DefaultConfig.selfClosingElements))
  }

  /** Leaving every option out gives the defaults; setting any one option
      replaces that property, whatever the other overrides are, and changes no
      other property. */
  lemma ResolveCallerWins(o: Overrides, b: bool, t: string, names: seq<string>)
    ensures Resolve(NoOverrides) == DefaultConfig
    ensures Resolve(o.(pretty := Some(b))) == Resolve(o).(pretty := b)
    ensures Resolve(o.(ignoreStaticAttributes := Some(b))) == Resolve(o).(ignoreStaticAttributes := b)
    ensures Resolve(o.(attributeKey := Some(t))) == Resolve(o).(attributeKey := t)
    ensures Resolve(o.(attributeSkip := Some(t))) == Resolve(o).(attributeSkip := t)
    ensures Resolve(o.(skipExceptions := Some(b))) == Resolve(o).(skipExceptions := b)
    ensures Resolve(o.(skipCustomElements := Some(b))) == Resolve(o).(skipCustomElements := b)
    ensures Resolve(o.(varDataName := Some(t))) == Resolve(o).(varDataName := t)
    ensures Resolve(o.(varHelpersName := Some(t))) == Resolve(o).(varHelpersName := t)
    ensures Resolve(o.(selfClosingElements := Some(names))) == Resolve(o).(selfClosingElements := names)
  {
  }
}
