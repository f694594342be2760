/** `parseAttributes` and the serialisers that turn its two attribute maps into
    the arguments of `elementOpen`/`elementVoid`.

    A JavaScript object with string keys is modelled as a sequence of
    (name, value) pairs in `Object.keys` order. Both maps `parseAttributes`
    builds receive their keys in the order it visits the attributes, so their
    `Object.keys` order is the order of these sequences. */
module Attributes {
  import opened Wrappers
  import opened Strings
  import opened Scanner
  import opened Shield
  import opened Escaping
  import opened Options

  type Attrs = seq<(string, string)>

  /** No name occurs twice, as in a JavaScript object. */
  predicate UniqueNames(a: Attrs) {
    forall i, j :: 0 <= i < j < |a| ==> a[i].0 != a[j].0
  }

  /** `a[k]` (`undefined` is `None`). */
  function Lookup(a: Attrs, k: string): (r: Option<string>)
  {
    if a == [] then None
    else if a[0].0 == k then Some(a[0].1)
    else Lookup(a[1..], k)
  }

  /** `delete a[k]`. */
  function Remove(a: Attrs, k: string): (r: Attrs)
  {
    if a == [] then []
    else Remove(a[..|a| - 1], k) + (if a[|a| - 1].0 == k then [] else [a[|a| - 1]])
  }

  const Deactivated := "deactivated"

  /** `attrs` is a plain object holding the attributes under their own names,
      so an attribute named `hasOwnProperty` hides the inherited method that
      `checkSkipAttribute` calls: the call throws. */
  predicate ShadowsHasOwnProperty(attrs: Attrs) {
    Lookup(attrs, "hasOwnProperty").Some?
  }

  /** `checkSkipAttribute`: the skip attribute is present and not deactivated. */
  predicate CheckSkipAttribute(attrs: Attrs, cfg: Config) {
    Lookup(attrs, cfg.attributeSkip).Some? && Lookup(attrs, cfg.attributeSkip).value != Deactivated
  }

  /** `checkIsAttribute`: custom elements are skipped, there is an `is`
      attribute, and the skip attribute is not deactivated. */
  predicate CheckIsAttribute(attrs: Attrs, cfg: Config) {
    cfg.skipCustomElements && Lookup(attrs, "is").Some? && Lookup(attrs, cfg.attributeSkip) != Some(Deactivated)
  }

  /** `checkCustomElement`: custom elements are skipped, the skip attribute is
      not deactivated, and the element name holds a dash. */
  predicate CheckCustomElement(name: string, attrs: Attrs, cfg: Config) {
    cfg.skipCustomElements && Lookup(attrs, cfg.attributeSkip) != Some(Deactivated) && '-' in name
  }

  /** Where one attribute ends up. */
  datatype Placement = Dropped | Static(value: string) | Dynamic(js: string)

  /** The body of the `forEach`: the skip attribute is filtered out; any other
      value is unshielded, then evaluated when it holds an interpolation (or
      when static attributes are ignored) and kept literally otherwise. */
  function Place(name: string, raw: string, cfg: Config, ev: Evaluator, skipBlank: bool): (r: Placement)
    requires ev.toText.Some?
  {
    if name == cfg.attributeSkip then Dropped
    else
      var value := UnwrapExpressions(raw);
      if Found(value, Interpolation) || cfg.ignoreStaticAttributes
      then Dynamic(Evaluate(value, ev, Interpolation, skipBlank).value)
      else Static(value)
  }

  /** The `statics` map the loop builds, before the key is deleted. */
  function StaticsOf(attrs: Attrs, cfg: Config, ev: Evaluator, skipBlank: bool): Attrs
    requires ev.toText.Some?
  {
    if attrs == [] then []
    else
      var (n, v) := attrs[|attrs| - 1];
      var p := Place(n, v, cfg, ev, skipBlank);
      StaticsOf(attrs[..|attrs| - 1], cfg, ev, skipBlank) + (if p.Static? then [(n, p.value)] else [])
  }

  /** The `varArgs` map the loop builds, before the key is deleted. */
  function DynamicsOf(attrs: Attrs, cfg: Config, ev: Evaluator, skipBlank: bool): Attrs
    requires ev.toText.Some?
  {
    if attrs == [] then []
    else
      var (n, v) := attrs[|attrs| - 1];
      var p := Place(n, v, cfg, ev, skipBlank);
      DynamicsOf(attrs[..|attrs| - 1], cfg, ev, skipBlank) + (if p.Dynamic? then [(n, p.js)] else [])
  }

  /** What `parseAttributes` returns. */
  datatype Parsed = Parsed(statics: Attrs, varArgs: Attrs, key: Option<string>, skip: bool)

  /** `parseAttributes(attrs, options)`: the key is taken from `statics`, or
      from `varArgs` when the static one is falsy, and then deleted from both. */
  function Classify(attrs: Attrs, cfg: Config, ev: Evaluator, skipBlank: bool): (r: Parsed)
    requires ev.toText.Some?
  {
    var st, va := StaticsOf(attrs, cfg, ev, skipBlank), DynamicsOf(attrs, cfg, ev, skipBlank);
    var k := cfg.attributeKey;
    Parsed(Remove(st, k), Remove(va, k), Or(Lookup(st, k), Lookup(va, k)),
           CheckSkipAttribute(attrs, cfg) || CheckIsAttribute(attrs, cfg))
  }

  /** `parseAttributes` as written: one pass over the attributes that fills
      the two maps, then the key extraction. */
  method ParseAttributes(attrs: Attrs, cfg: Config, ev: Evaluator, skipBlank: bool) returns (r: Parsed)
    requires ev.toText.Some?
    ensures r == Classify(attrs, cfg, ev, skipBlank)
  {
    var skip := CheckSkipAttribute(attrs, cfg) || CheckIsAttribute(attrs, cfg);
    var statics: Attrs := [];
    var varArgs: Attrs := [];
    for i := 0 to |attrs|
      invariant statics == StaticsOf(attrs[..i], cfg, ev, skipBlank)
      invariant varArgs == DynamicsOf(attrs[..i], cfg, ev, skipBlank)
    {
      assert attrs[..i + 1][..i] == attrs[..i];
      var (name, raw) := attrs[i];
      if name != cfg.attributeSkip {
        var value := UnwrapExpressions(raw);
        if Found(value, Interpolation) || cfg.ignoreStaticAttributes {
          var js := RunEvaluate(value, ev, Interpolation, skipBlank);
          varArgs := varArgs + [(name, js.value)];
        } else {
          statics := statics + [(name, value)];
        }
      }
    }
    assert attrs[..|attrs|] == attrs;
    var key := Or(Lookup(statics, cfg.attributeKey), Lookup(varArgs, cfg.attributeKey));
    r := Parsed(Remove(statics, cfg.attributeKey), Remove(varArgs, cfg.attributeKey), key, skip);
  }

  lemma {:induction false} LookupSnoc(a: Attrs, x: (string, string), k: string)
    ensures Lookup(a + [x], k) == if Lookup(a, k).Some? then Lookup(a, k) else if x.0 == k then Some(x.1) else None
  {
    if a == [] {
      assert [x][1..] == [];
    } else {
      assert (a + [x])[1..] == a[1..] + [x];
      LookupSnoc(a[1..], x, k);
    }
  }

  lemma {:induction false} LookupRemove(a: Attrs, k: string, n: string)
    ensures Lookup(Remove(a, k), n) == if n == k then None else Lookup(a, n)
  {
    if a != [] {
      var a', x := a[..|a| - 1], a[|a| - 1];
      assert a == a' + [x];
      LookupRemove(a', k, n);
      LookupSnoc(a', x, n);
      if x.0 == k {
        assert Remove(a, k) == Remove(a', k) + [] == Remove(a', k);
      } else {
        LookupSnoc(Remove(a', k), x, n);
      }
    }
  }

  /** A name that `Lookup` finds is one of the names. */
  lemma {:induction false} LookupFound(a: Attrs, k: string)
    requires Lookup(a, k).Some?
    ensures exists i :: 0 <= i < |a| && a[i] == (k, Lookup(a, k).value)
  {
    if a[0].0 != k {
      LookupFound(a[1..], k);
      var i :| 0 <= i < |a[1..]| && a[1..][i] == (k, Lookup(a[1..], k).value);
      assert a[i + 1] == a[1..][i];
    }
  }

  /** Where an attribute went: with unique names, each map holds a name exactly
      when the attribute of that name was classified into it, with the value
      it was classified to. */
  lemma {:induction false} PlacementLookup(attrs: Attrs, cfg: Config, ev: Evaluator, skipBlank: bool, n: string)
    requires ev.toText.Some? && UniqueNames(attrs)
    ensures Lookup(StaticsOf(attrs, cfg, ev, skipBlank), n)
         == match Lookup(attrs, n)
            case None => None
            case Some(v) => var p := Place(n, v, cfg, ev, skipBlank); if p.Static? then Some(p.value) else None
    ensures Lookup(DynamicsOf(attrs, cfg, ev, skipBlank), n)
         == match Lookup(attrs, n)
            case None => None
            case Some(v) => var p := Place(n, v, cfg, ev, skipBlank); if p.Dynamic? then Some(p.js) else None
  {
    if attrs != [] {
      var a, x := attrs[..|attrs| - 1], attrs[|attrs| - 1];
      assert attrs == a + [x];
      assert UniqueNames(a);
      PlacementLookup(a, cfg, ev, skipBlank, n);
      LookupSnoc(a, x, n);
      var p := Place(x.0, x.1, cfg, ev, skipBlank);
      var sa, da := StaticsOf(a, cfg, ev, skipBlank), DynamicsOf(a, cfg, ev, skipBlank);
      if Lookup(a, n).Some? {
        LookupFound(a, n);
        assert x.0 != n;
      }
      if p.Static? { LookupSnoc(sa, (x.0, p.value), n); } else { assert sa + [] == sa; }
      if p.Dynamic? { LookupSnoc(da, (x.0, p.js), n); } else { assert da + [] == da; }
    }
  }

  /** What `parseAttributes` promises about each attribute, once the key is
      deleted: the skip attribute and the key attribute appear in neither
      map; every other attribute appears in exactly the map it was classified
      into, with its unshielded value or its evaluated JavaScript; no other
      name appears. */
  lemma ClassifyContents(attrs: Attrs, cfg: Config, ev: Evaluator, skipBlank: bool, n: string)
    requires ev.toText.Some? && UniqueNames(attrs)
    ensures var r := Classify(attrs, cfg, ev, skipBlank);
      (n == cfg.attributeKey || n == cfg.attributeSkip || Lookup(attrs, n).None?) ==>
        Lookup(r.statics, n).None? && Lookup(r.varArgs, n).None?
    ensures var r := Classify(attrs, cfg, ev, skipBlank);
      n != cfg.attributeKey && n != cfg.attributeSkip && Lookup(attrs, n).Some? ==>
        var value := UnwrapExpressions(Lookup(attrs, n).value);
        if Found(value, Interpolation) || cfg.ignoreStaticAttributes
        then Lookup(r.statics, n).None?
             && Lookup(r.varArgs, n) == Some(Evaluate(value, ev, Interpolation, skipBlank).value)
        else Lookup(r.statics, n) == Some(value) && Lookup(r.varArgs, n).None?
  {
    PlacementLookup(attrs, cfg, ev, skipBlank, n);
    LookupRemove(StaticsOf(attrs, cfg, ev, skipBlank), cfg.attributeKey, n);
    LookupRemove(DynamicsOf(attrs, cfg, ev, skipBlank), cfg.attributeKey, n);
  }

  /** The key is the key attribute's value as classified: its evaluated
      JavaScript when dynamic, its unshielded text when static and non-empty,
      and absent otherwise (also when the key and skip attributes coincide). */
  lemma ClassifyKey(attrs: Attrs, cfg: Config, ev: Evaluator, skipBlank: bool)
    requires ev.toText.Some? && UniqueNames(attrs)
    ensures var r, k := Classify(attrs, cfg, ev, skipBlank), cfg.attributeKey;
      r.key == match Lookup(attrs, k)
               case None => None
               case Some(v) =>
                 match Place(k, v, cfg, ev, skipBlank)
                 case Dropped => None
                 case Static(u) => if u != [] then Some(u) else None
                 case Dynamic(js) => Some(js)
  {
    PlacementLookup(attrs, cfg, ev, skipBlank, cfg.attributeKey);
  }

  /** The skip flag is independent of the classification: a present,
      non-deactivated skip attribute always sets it, a deactivated one never;
      without a skip attribute, an `is` attribute sets it exactly when custom
      elements are skipped. */
  lemma ClassifySkip(attrs: Attrs, cfg: Config, ev: Evaluator, skipBlank: bool)
    requires ev.toText.Some?
    ensures CheckSkipAttribute(attrs, cfg) ==> Classify(attrs, cfg, ev, skipBlank).skip
    ensures Lookup(attrs, cfg.attributeSkip) == Some(Deactivated) ==> !Classify(attrs, cfg, ev, skipBlank).skip
    ensures Lookup(attrs, cfg.attributeSkip).None? && cfg.skipCustomElements && Lookup(attrs, "is").Some? ==>
      Classify(attrs, cfg, ev, skipBlank).skip
    ensures Lookup(attrs, cfg.attributeSkip).None? && (!cfg.skipCustomElements || Lookup(attrs, "is").None?) ==>
      !Classify(attrs, cfg, ev, skipBlank).skip
  {
  }

  /** An attribute whose whole value is one interpolation group `{{g}}` is
      dynamic, and its JavaScript is the evaluator's rendering of `g` alone. */
  lemma PlaceSingleInterpolation(name: string, g: string, cfg: Config, ev: Evaluator, skipBlank: bool)
    requires ev.toText.Some?
    requires name != cfg.attributeSkip
    requires |g| >= 1 && '}' !in g && '<' !in g && ']' !in g
    ensures Place(name, "{{" + g + "}}", cfg, ev, skipBlank)
         == Dynamic(if !skipBlank || Trim(g) != [] then ev.inject(g) else "")
  {
    var raw := "{{" + g + "}}";
    assert raw == Interpolation.open + g + Interpolation.close;
    assert '<' !in raw && ']' !in raw by {
      forall i | 0 <= i < |raw| ensures raw[i] != '<' && raw[i] != ']' {
        if 2 <= i < |raw| - 2 { assert raw[i] == g[i - 2]; }
      }
    }
    UnwrapMarkerFree(raw);
    SingleSpan(raw, Interpolation, g);
    EvaluateSingleSpan(raw, ev, Interpolation, skipBlank, g);
  }

  /** An attribute value with no `{` and no shield markers is static and kept
      as it is (unless static attributes are ignored). */
  lemma PlaceLiteral(name: string, v: string, cfg: Config, ev: Evaluator, skipBlank: bool)
    requires ev.toText.Some?
    requires name != cfg.attributeSkip && !cfg.ignoreStaticAttributes
    requires '{' !in v && '<' !in v && ']' !in v
    ensures Place(name, v, cfg, ev, skipBlank) == Static(v)
  {
    UnwrapMarkerFree(v);
    NoOpenNotFound(v, Interpolation);
  }

  /** One `'name', 'value'` pair of `staticsToJs`. */
  function StaticPair(e: (string, string)): string
  {
    "'" + e.0 + "', '" + Stringify(e.1) + "'"
  }

  /** One `'name', js` pair of `varArgsToJs`. */
  function DynamicPair(e: (string, string)): string
  {
    "'" + e.0 + "', " + e.1
  }

  function StaticPairs(a: Attrs): seq<string>
  {
    seq(|a|, i requires 0 <= i < |a| => StaticPair(a[i]))
  }

  function DynamicPairs(a: Attrs): seq<string>
  {
    seq(|a|, i requires 0 <= i < |a| => DynamicPair(a[i]))
  }

  /** `staticsToJs`: a JavaScript array literal of name/value pairs, or `null`. */
  function StaticsToJs(statics: Attrs): (r: string)
  {
    if statics == [] then "null" else "[" + Join(StaticPairs(statics), ", ") + "]"
  }

  /** `varArgsToJs`: the name/value pairs as further arguments, or `null`. */
  function VarArgsToJs(varArgs: Attrs): (r: string)
  {
    if varArgs == [] then "null" else Join(DynamicPairs(varArgs), ", ")
  }

  /** A join of parts starts with the first part. */
  lemma JoinStartsWithFirst(parts: seq<string>, sep: string)
    requires |parts| > 0
    ensures |Join(parts, sep)| >= |parts[0]| && Join(parts, sep)[..|parts[0]|] == parts[0]
  {
  }

  /** A join extended by one part. */
  lemma {:induction false} JoinSnoc(parts: seq<string>, x: string, sep: string)
    requires |parts| > 0
    ensures Join(parts + [x], sep) == Join(parts, sep) + sep + x
  {
    if |parts| == 1 {
      assert (parts + [x])[1..] == [x];
    } else {
      assert (parts + [x])[1..] == parts[1..] + [x];
      JoinSnoc(parts[1..], x, sep);
    }
  }

  /** `null` stands for exactly the empty map, in both serialisers, and a
      non-empty map is written as its first pair followed by the rest. */
  lemma SerialiseNullIffEmpty(a: Attrs)
    ensures StaticsToJs(a) == "null" <==> a == []
    ensures VarArgsToJs(a) == "null" <==> a == []
    ensures a != [] ==> StaticsToJs(a)[..|StaticPair(a[0])| + 1] == "[" + StaticPair(a[0])
    ensures a != [] ==> VarArgsToJs(a)[..|DynamicPair(a[0])|] == DynamicPair(a[0])
  {
    if a != [] {
      JoinStartsWithFirst(StaticPairs(a), ", ");
      JoinStartsWithFirst(DynamicPairs(a), ", ");
      assert VarArgsToJs(a)[0] == '\'';
      var j := Join(StaticPairs(a), ", ");
      assert StaticsToJs(a)[..|StaticPair(a[0])| + 1] == "[" + j[..|StaticPair(a[0])|];
    }
  }

  /** One more attribute adds one more pair at the end, in both serialisers. */
  lemma SerialiseSnoc(a: Attrs, e: (string, string))
    requires a != []
    ensures StaticsToJs(a + [e]) == "[" + Join(StaticPairs(a), ", ") + ", " + StaticPair(e) + "]"
    ensures VarArgsToJs(a + [e]) == VarArgsToJs(a) + ", " + DynamicPair(e)
  {
    PairsSnoc(a, e);
    JoinSnoc(StaticPairs(a), StaticPair(e), ", ");
    JoinSnoc(DynamicPairs(a), DynamicPair(e), ", ");
  }

  lemma PairsSnoc(a: Attrs, e: (string, string))
    ensures StaticPairs(a + [e]) == StaticPairs(a) + [StaticPair(e)]
    ensures DynamicPairs(a + [e]) == DynamicPairs(a) + [DynamicPair(e)]
  {
    var b := a + [e];
    assert b[|a|] == e;
    forall i | 0 <= i < |a| ensures b[i] == a[i] { }
  }

  /** A name `staticsToJs` can write between quotes as it is: no quote,
      backslash or line break. */
  predicate PlainName(n: string) {
    '\'' !in n && '\\' !in n && '\n' !in n && '\r' !in n
  }

  /** A value whose escaped literal reads back (see module Escaping). */
  predicate ReadableValue(v: string) {
    '\\' !in v && '\r' !in v
  }

  /** Reads one `'name', 'value'` pair off the front of `t`, with what follows it. */
  function ReadStaticPair(t: string): (r: Option<((string, string), string)>)
    ensures r.Some? ==> |r.value.1| < |t|
  {
    if t == [] || t[0] != '\'' then None
    else match ReadQuoted(t[1..])
      case None => None
      case Some((name, r1)) =>
        if |r1| < 3 || r1[..3] != ", '" then None
        else match ReadQuoted(r1[3..])
          case None => None
          case Some((value, r2)) => Some(((name, value), r2))
  }

  /** Reads `pair, pair, ..., pair]`. */
  function ReadStaticPairs(t: string): (r: Option<Attrs>)
    decreases |t|
  {
    match ReadStaticPair(t)
    case None => None
    case Some((e, rest)) =>
      if rest == "]" then Some([e])
      else if |rest| >= 2 && rest[..2] == ", " then
        match ReadStaticPairs(rest[2..])
        case None => None
        case Some(es) => Some([e] + es)
      else None
  }

  /** An independent reader of what `staticsToJs` writes: `null`, or an
      array literal of quoted name/value pairs. */
  function ReadStatics(t: string): (r: Option<Attrs>)
  {
    if t == "null" then Some([])
    else if t != [] && t[0] == '[' then ReadStaticPairs(t[1..])
    else None
  }

  lemma ReadStaticPairStep(t: string, x: string, n: string, r1: string, y: string, v: string, r2: string)
    requires t == "'" + x && ReadQuoted(x) == Some((n, r1))
    requires r1 == ", '" + y && ReadQuoted(y) == Some((v, r2))
    ensures ReadStaticPair(t) == Some(((n, v), r2))
  {
    assert t[1..] == x;
    assert r1[..3] == ", '" && r1[3..] == y;
  }

  lemma ReadStaticPairBack(e: (string, string), rest: string)
    requires PlainName(e.0) && ReadableValue(e.1)
    ensures ReadStaticPair(StaticPair(e) + rest) == Some((e, rest))
  {
    var y := Stringify(e.1) + "'" + rest;
    var r1 := ", '" + y;
    var x := Stringify(e.0) + "'" + r1;
    StringifyIdentity(e.0);
    ReadQuotedStringify(e.0, r1);
    ReadQuotedStringify(e.1, rest);
    StaticPairSplit(e, rest);
    ReadStaticPairStep(StaticPair(e) + rest, x, e.0, r1, y, e.1, rest);
  }

  lemma StaticPairSplit(e: (string, string), rest: string)
    requires Stringify(e.0) == e.0
    ensures StaticPair(e) + rest == "'" + (Stringify(e.0) + "'" + (", '" + (Stringify(e.1) + "'" + rest)))
  {
    assert "', '" == "'" + ", '";
  }

  lemma {:induction false} ReadStaticPairsBack(a: Attrs)
    requires a != []
    requires forall i :: 0 <= i < |a| ==> PlainName(a[i].0) && ReadableValue(a[i].1)
    ensures ReadStaticPairs(Join(StaticPairs(a), ", ") + "]") == Some(a)
  {
    var ps := StaticPairs(a);
    if |a| == 1 {
      ReadStaticPairBack(a[0], "]");
      assert Join(ps, ", ") + "]" == StaticPair(a[0]) + "]";
      assert a == [a[0]];
    } else {
      var tail := Join(StaticPairs(a[1..]), ", ") + "]";
      StaticPairsFront(a);
      ReadStaticPairBack(a[0], ", " + tail);
      ReadStaticPairsBack(a[1..]);
      ReadStaticPairsStep(StaticPair(a[0]) + (", " + tail), a[0], tail, a[1..]);
      assert a == [a[0]] + a[1..];
    }
  }

  /** The list of two or more pairs is its first pair, a comma and the rest. */
  lemma StaticPairsFront(a: Attrs)
    requires |a| >= 2
    ensures Join(StaticPairs(a), ", ") + "]" == StaticPair(a[0]) + (", " + (Join(StaticPairs(a[1..]), ", ") + "]"))
  {
    var ps := StaticPairs(a);
    assert ps[1..] == StaticPairs(a[1..]);
  }

  /** One pair read off the front, then the rest after the comma. */
  lemma ReadStaticPairsStep(t: string, e: (string, string), tail: string, es: Attrs)
    requires ReadStaticPair(t) == Some((e, ", " + tail)) && ReadStaticPairs(tail) == Some(es)
    ensures ReadStaticPairs(t) == Some([e] + es)
  {
    assert (", " + tail)[2..] == tail;
    assert (", " + tail)[..2] == ", ";
  }

  /** Reading back what `staticsToJs` writes gives the same pairs in the same
      order, for names that need no quoting and values whose literal reads. */
  lemma StaticsReadBack(a: Attrs)
    requires forall i :: 0 <= i < |a| ==> PlainName(a[i].0) && ReadableValue(a[i].1)
    ensures ReadStatics(StaticsToJs(a)) == Some(a)
  {
    if a != [] {
      var t := StaticsToJs(a);
      assert t[0] == '[' && t[1..] == Join(StaticPairs(a), ", ") + "]";
      assert t != "null";
      ReadStaticPairsBack(a);
    }
  }
}
