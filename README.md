# idomizer template compiler, modelled in Dafny

idomizer compiles an HTML template into the source text of a JavaScript
function that replays the template as IncrementalDOM calls
(`elementOpen`, `elementVoid`, `elementClose`, `text`, `skip`). The compiler
does not build a tree. It reacts to the events of a markup tokenizer
(open tag, close tag, text) and appends one statement per event to a single
growing string, `fnBody`. That string is then wrapped in a fixed preamble and
handed to `new Function`.

The repository has two versions of the compiler. This project models both:

- `src/idomizer.ts` (module `Idomizer`) is the current one. It has two
  delimiter patterns: `{{…}}` interpolates a value and `[[…]]` injects raw
  code. It can guard every interpolation with a try/catch (`skipExceptions`),
  and its `append` drops empty lines.
- `src/idomizer.js` (module `IdomizerLegacy`) is the older one. It has a
  single `{{…}}` pattern (`evaluation`). Its evaluators always have a
  `toText`, it keeps blank groups, and its `append` always adds a line.

Shared parts live in their own modules:

| module | file | what it holds |
|---|---|---|
| `Wrappers` | wrappers.dfy | `Option`, `Result`, the two TypeErrors the compiler can throw, JavaScript `||` on possibly-undefined strings |
| `Strings` | strings.dfy | occurrence tests, `join`, `trim`, and a global literal `replace(…, '')` with the `i` flag |
| `Scanner` | scanner.dfy | the delimiter patterns as a hand-written scanner, the `exec` walk, and `evaluate` as a function plus the loop as a method |
| `Escaping` | escaping.dfy | `stringify` |
| `Shield` | shield.dfy | `wrapExpressions` / `unwrapExpressions` (the CDATA shield) |
| `Options` | options.dfy | the options record, its defaults and the caller-over-default merge |
| `Attributes` | attributes.dfy | `check*`, `parseAttributes` (a function, and the loop as a method), `staticsToJs`, `varArgsToJs` |
| `Braces` | braces.dfy | curly-brace depth of generated code, used to state block nesting |
| `Guard` | guard.dfy | `createSafeJsBlock` |
| `Tags` | tags.dfy | the built-in directives, the tag registry and its merge, and tokenizer events |
| `Elements` | elements.dfy | `isSelfClosing`, `getFunctionName`, the element open/close/skip statements |
| `Idomizer` | current.dfy | the `.ts` evaluators, `append`, the `Emitter` class with `OnOpenTag`/`OnCloseTag`/`OnText`, the driver loop, `compile` |
| `IdomizerLegacy` | legacy.dfy | the same for the `.js` variant |
| `Vectors` | vectors.dfy | the input-with-dynamic-value case of `test/idomizer.spec.js`, worked through the model |

Modelling choices:

- **Delimiter patterns.** `/{{([\s\S]+?)}}/gm` and `/\[\[([\s\S]+?)]]/gm` are
  modelled as a scanner. A match starts at the leftmost position where the
  open delimiter stands and some close delimiter starts at least one
  character later. The group then stops at the earliest such close.
- **The `exec` loop.** The loop with its `lastIndex` is a stateless
  left-to-right walk (`Scanner.Split`). Each step resumes at the end of the
  previous match.
- **Evaluators.** An evaluator is the source's record: `appender`, an optional
  `toText` and `inject`. The `.ts` inline evaluators have no `toText`. When
  one of them meets a literal gap, `evaluate` fails with
  `ToTextNotAFunction`, the TypeError JavaScript would throw. Likewise,
  `tpl-text` without a value calls `undefined.trim()`, which fails with
  `UndefinedHasNoTrim`. In the running system the tokenizer delivers each
  CDATA-shielded span as a text event of its own, so these literal gaps do
  not arise in practice.
- **Attribute maps.** A map is a sequence of (name, value) pairs in
  `Object.keys` order. `statics` and `varArgs` receive their keys in the
  order `parseAttributes` visits them, so they keep that order.
- **The emitter.** `fnBody` is a field of class `Emitter`. Its three callbacks
  are methods proved against the functions `OpenTagLines`, `CloseTagLines`
  and `TextLine`. The driver `EmitBody` feeds the emitter a `seq<Event>`, and
  its result is the function `EmitFrom`.
- **The tag registry.** The registry maps each name to a built-in or to a
  caller handler (`Tags.Handler`). `MergeTags` lets the caller's entries
  replace the built-ins by name. Names every JavaScript object inherits
  (`toString`, `constructor`, …) resolve to a truthy entry that has no
  handler functions, as `options.tags[name]` does in the source.

Behaviours of the source worth noting:

- With zero matches, `evaluate` returns `""` for the empty string, not the
  literal rendering of it. An evaluator without `toText` throws instead.
- The key is `statics[k] || varArgs[k]`. An empty static key therefore falls
  through to `varArgs` and ends up `undefined`.
- The `.ts` wrapper passes `_data_` and `_h` through unchanged. The `.js`
  wrapper substitutes `{}` when they are falsy.
- `test/idomizer.spec.js` imports `src/idomizer.js`, but it uses `[[…]]` and
  `skipExceptions`, which exist only in `src/idomizer.ts`. Its string-level
  assertion is therefore reproduced against the `.ts` model (`Vectors`).
- Both skip checks call `attrs.hasOwnProperty(…)` on the tokenizer's plain
  attribute object. An attribute named `hasOwnProperty`, as in
  `<p hasOwnProperty="x">`, hides that method with a string, and the `.ts`
  compiler throws a TypeError before it looks at the tag.

`stringify` escapes `'` and line feeds but not backslashes. A template text
containing the two characters `\n` therefore reads back as a line feed
(`Escaping.StringifyConflatesBackslash`). It does not escape carriage returns
either, and a raw carriage return ends a JavaScript string literal with a
syntax error: for backslash-free text with a carriage return, the literal the
compiler writes does not read at all (`Escaping.StringifyCarriageReturnBreaks`).
The round trip is proved for text with neither a backslash nor a carriage
return.

## Model

| member | source | states |
|---|---|---|
| `Scanner.CloseFromSpec` | src/idomizer.ts:77-78 | the close delimiter found is the earliest one at or after the position, and none is found only when none occurs |
| `Scanner.MatchFromSpec` | src/idomizer.ts:77-78 | one `exec`: the match returned is the leftmost one at or after `lastIndex`, with a group of at least one character ending at the earliest close; there is no match only when no position can start one |
| `Scanner.SplitRestores` | src/idomizer.ts:153-169 | the gaps and spans of the walk, put back together, are exactly the scanned text |
| `Scanner.SplitWellFormed` | src/idomizer.ts:153-169 | every literal gap of the walk is non-empty and every span is open delimiter + non-empty group + close delimiter |
| `Scanner.RenderInOrder` | src/idomizer.ts:149-171 | the pushed fragments are the kept pieces in left-to-right order, each gap through `toText` and each kept group through `inject`; rendering fails exactly when a gap meets an evaluator without `toText` |
| `Scanner.Evaluate` | src/idomizer.ts:149-171 | an evaluator that has `toText` never makes `evaluate` throw |
| `Scanner.RunEvaluate` | src/idomizer.ts:149-171 | the `exec` loop with `lastIndex` returns what `Evaluate` specifies: the fragments joined by `appender`, or the TypeError |
| `Scanner.RenderStep` | src/idomizer.ts:153-165 | one turn of the loop throws at a non-empty gap when there is no `toText`; otherwise it pushes the gap's text when the gap is non-empty, then the group unless it is blank, and resumes after the match |
| `Scanner.EvaluateNoMatch` | src/idomizer.ts:166-170 | with no match the result is `toText(value)`, or `""` for the empty value, or the TypeError when there is no `toText` |
| `Scanner.EvaluateSingleSpan` | src/idomizer.ts:161-163 | a value that is one delimited group renders to that group's `inject`, or to nothing when the group is blank |
| `Scanner.NoOpenNotFound` | src/idomizer.ts:294 | a text without the open delimiter's first character has no match and is one literal gap |
| `Strings.TrimEmptyIffBlank` | src/idomizer.ts:161 | `group.trim()` is empty exactly when every character of the group is JavaScript white space |
| `Strings.DeleteAllIdentity` | src/idomizer.ts:178 | a global delete leaves a text without the pattern unchanged and shortens every other |
| `Escaping.Stringify` | src/idomizer.ts:89-91 | the escaped text contains no raw line feed and is never shorter than the input |
| `Escaping.StringifyIdentity` | src/idomizer.ts:89-91 | a text with neither `'` nor a line feed is left unchanged |
| `Escaping.StringifyQuotesEscaped` | src/idomizer.ts:90 | every `'` in the output is preceded by a backslash |
| `Escaping.ReadQuotedStringify` | src/idomizer.ts:89-91 | a JavaScript reader of single-quoted literals, run on the escaped text and a closing quote, gives back the original text and stops right after that quote, for text with neither a backslash nor a carriage return |
| `Escaping.ReadQuotedCarriageReturn` | src/idomizer.ts:89-91 | for backslash-free text holding a carriage return, that reader fails on the escaped text |
| `Escaping.StringifyRoundTrip` | src/idomizer.ts:89-91 | read back as a JavaScript string literal, the escaped text is the original, for text with neither a backslash nor a carriage return |
| `Escaping.StringifyCarriageReturnBreaks` | src/idomizer.ts:89-91 | for backslash-free text with a carriage return, the escaped text is not a readable literal |
| `Escaping.StringifyConflatesBackslash` | src/idomizer.ts:89-91 | a line feed and the two characters backslash-n escape to the same literal |
| `Shield.WrapSpansIdentity` | src/idomizer.ts:173-175 | wrapping changes a string exactly when the pattern matches in it |
| `Shield.WrappedLength` | src/idomizer.ts:174 | wrapping adds the twelve envelope characters per span and nothing else |
| `Shield.UnwrapIdentity` | src/idomizer.ts:177-179 | unwrapping changes a string exactly when it holds a CDATA marker, in any letter case |
| `Shield.UnwrapMarkerFree` | src/idomizer.ts:177-179 | a text without `<` and `]` is never changed by unwrapping |
| `Shield.UnwrapEnvelope` | src/idomizer.ts:177-179 | one CDATA envelope amid text without `<` and `]` is removed and nothing else changes: a value the shield wrapped reaches the attribute parser as written |
| `Shield.UnwrapAnyCase` | src/idomizer.ts:178 | the `i` flag: a lower-case `<![cdata[` is removed as well |
| `Shield.ShieldRoundTripLiteral` | src/idomizer.ts:323-324 | on literal text (no span of either pattern, no CDATA marker) wrapping is the identity and unwrap after wrap gives the text back |
| `Shield.ShieldRoundTripLiteralLegacy` | src/idomizer.js:213-219 | the same round trip with the single `evaluation` pattern |
| `Options.ResolveCallerWins` | src/idomizer.ts:243 | with no overrides the options are the defaults; setting any one of the nine options to a value makes that option the caller's value and changes no other |
| `Attributes.ParseAttributes` | src/idomizer.ts:189-210 | the `forEach` that fills `statics` and `varArgs`, then the key extraction and `delete`, computes `Classify` |
| `Attributes.PlacementLookup` | src/idomizer.ts:194-203 | with unique names, each map holds a name exactly when that attribute was classified into it, with its classified value |
| `Attributes.ClassifyContents` | src/idomizer.ts:189-210 | the skip and key attributes are in neither map; every other attribute is in exactly one, `varArgs` (as evaluated code) iff its unwrapped value matches `{{…}}` or `ignoreStaticAttributes` holds, else `statics` (unwrapped); no other name appears |
| `Attributes.ClassifyKey` | src/idomizer.ts:205-207 | the key is the key attribute as classified: its code when dynamic, its text when static and non-empty, absent otherwise |
| `Attributes.ClassifySkip` | src/idomizer.ts:181-190 | a present skip attribute not equal to `deactivated` sets `skip`; a deactivated one never does; without a skip attribute an `is` attribute under `skipCustomElements` does, and nothing else does |
| `Attributes.PlaceSingleInterpolation` | src/idomizer.ts:197-199 | a value that is one `{{g}}` is dynamic and becomes the evaluator's rendering of `g` |
| `Attributes.PlaceLiteral` | src/idomizer.ts:197-201 | a value without `{` or shield markers is static and kept as it is |
| `Attributes.SerialiseNullIffEmpty` | src/idomizer.ts:212-220 | both serialisers write `null` exactly for the empty map; otherwise `staticsToJs` starts `['k', 'v'` and `varArgsToJs` starts `'k', code` with the first pair |
| `Attributes.SerialiseSnoc` | src/idomizer.js:255-268 | one more attribute adds one more pair after `, ` at the end, in key order |
| `Guard.SafeJsBlockBalanced` | src/idomizer.ts:108-110 | the try/catch guard around a brace-free expression closes every block it opens |
| `Tags.HandlerAfterMerge` | src/idomizer.ts:243-245 | after the merge a name resolves to the caller's entry when there is one, else to the built-in, else to an inherited object property, else to a plain element |
| `Tags.BuiltinNames` | src/idomizer.ts:19-69 | without caller tags each of the seven directive names (`tpl-logger`, `tpl-each`, `tpl-if`, `tpl-else-if`, `tpl-else`, `tpl-text`, `tpl-call`) resolves to its own built-in, and any other ordinary name to a plain element |
| `Tags.LoggerPrecedence` | src/idomizer.ts:20-26 | `tpl-logger` writes `console.<level>(<content>);` with each of `level` and `content` taken from the truthy static value, else the truthy evaluated one, else `log` and nothing; a truthy static `level` wins over an evaluated one |
| `Tags.DirectiveDefaults` | src/idomizer.js:56-107 | with no attributes the logger logs nothing at level `log`, `tpl-if`/`tpl-else-if` test `false`, and `tpl-call` writes `<helpers>.undefined(<data>);` with the configured variable names |
| `Tags.EachDefaults` | src/idomizer.js:65-75 | with no attributes `tpl-each` opens `(items \|\| []).forEach(function (item, index) {` |
| `Tags.DirectiveBlocks` | src/idomizer.js:65-95 | with brace-free attribute values `tpl-each` and `tpl-if` open one block that their close statement closes, and `tpl-else-if`/`tpl-else` close one block and open the next |
| `Elements.PlainElementPairing` | src/idomizer.ts:259-291 | a void element is opened with `_elementVoid` and gets no close statement; any other plain element is opened with `_elementOpen` and closed with `_elementClose('name');` |
| `Elements.SkipRule` | src/idomizer.ts:266-272 | `_skip();` follows the open statement exactly when `skip` holds or the custom-element rule applies; a present, non-deactivated skip attribute always adds it and a deactivated one never does |
| `Idomizer.AttributeEvaluator` | src/idomizer.ts:133-137 | the attribute evaluator has a `toText` and joins with ` + `, so evaluating an attribute value never throws |
| `Idomizer.InterpolatedAttribute` | src/idomizer.ts:133-171 | an attribute value becomes its kept pieces in order joined by ` + `: each gap as `'<escaped>'`, each group trimmed and parenthesised, or guarded when `skipExceptions` holds; every kept group is non-blank, so blank groups are dropped |
| `Idomizer.InlineInterpolationEvaluator` | src/idomizer.ts:139-142 | the inline interpolation evaluator has no `toText` |
| `Attributes.StaticsReadBack` | src/idomizer.ts:217-220 | reading back what `staticsToJs` writes, with a reader of `null` and of array literals of quoted pairs, gives the same pairs in the same order, for names that need no quoting and values with neither a backslash nor a carriage return |
| `Idomizer.AppendExtends` | src/idomizer.ts:101-106 | `append` keeps the body as a prefix, leaves it unchanged exactly when the line is empty, and otherwise adds the line after a line feed iff `pretty` |
| `Idomizer.AppendAllExtends` | src/idomizer.ts:101-106 | appending several lines only ever extends the body |
| `Idomizer.Emitter.Push` | src/idomizer.ts:286-290 | `fnBody = append(fnBody, line, options)` |
| `Idomizer.Emitter.OnOpenTag` | src/idomizer.ts:248-274 | the open-tag callback appends the directive's line, or the element's open call followed by `_skip();` when it skips, or leaves the body as it was and reports the TypeError (an attribute named `hasOwnProperty` included) |
| `Idomizer.Emitter.OnCloseTag` | src/idomizer.ts:275-292 | the close-tag callback appends the directive's close line if it has one, nothing for void elements, else `_elementClose` |
| `Idomizer.Emitter.OnText` | src/idomizer.ts:293-313 | the text callback appends the expression rendering, else the interpolation rendering, else `_text('<escaped>');`, or reports the TypeError and leaves the body |
| `Idomizer.Emitter.OnEvent` | src/idomizer.ts:247-313 | each tokenizer event appends exactly the lines `EventLines` gives for it |
| `Idomizer.EmitBody` | src/idomizer.ts:246-324 | feeding the events in order to one emitter yields `EmitFrom` of the events: the body, or the first TypeError |
| `Idomizer.Compile` | src/idomizer.ts:242-337 | `compile` merges options and tags, shields the template, tokenizes it, emits the body and wraps it, or fails with the emitter's TypeError |
| `Idomizer.EmitExtends` | src/idomizer.ts:246-313 | the body written for earlier events is never rewritten: it stays a prefix |
| `Idomizer.EmitConcat` | src/idomizer.ts:246-313 | compiling events `a + b` is compiling `a`, then `b` from the body `a` left |
| `Idomizer.EmitFailsAtFirstError` | src/idomizer.ts:246-313 | compilation fails exactly when some event's lines fail, and then with the error of the first such event |
| `Idomizer.TextLineFails` | src/idomizer.ts:139-147 | a text event throws exactly when its chosen inline evaluator, which has no `toText`, meets a literal gap |
| `Idomizer.LiteralText` | src/idomizer.ts:306-311 | a text with neither pattern becomes one `_text('…');` call; for backslash-free text its literal reads back as the text without a carriage return and does not read with one |
| `Idomizer.SpansOnlyText` | src/idomizer.ts:294-299 | a text made only of `[[…]]` spans becomes its non-blank groups, as written, in order, joined by spaces |
| `Idomizer.TextTagValue` | src/idomizer.ts:58-62 | when no attribute is named `hasOwnProperty`, built-in `tpl-text` throws without a `value`, and with one succeeds exactly when the value is dynamic or a non-empty static |
| `Idomizer.TextTagOpens` | src/idomizer.ts:58-62 | built-in `tpl-text` succeeds exactly when no attribute is named `hasOwnProperty` and `statics.value \|\| varArgs.value` is defined, and, with no such attribute, otherwise fails with `UndefinedHasNoTrim` |
| `Idomizer.CallerTagWins` | src/idomizer.ts:243-257 | when no attribute is named `hasOwnProperty`, a caller's entry replaces the built-in: its `onopentag` result is the line (none without one), and a falsy entry makes the tag a plain element |
| `Idomizer.HasOwnPropertyThrows` | src/idomizer.ts:181-190 | an open tag fails with `HasOwnPropertyNotAFunction` exactly when one of its attributes is named `hasOwnProperty`, whatever the tag and the registry; otherwise only a built-in handler can make it fail |
| `Idomizer.HasOwnPropertyParagraph` | src/idomizer.ts:249 | `<p hasOwnProperty="x">` fails with that TypeError under the default options |
| `IdomizerLegacy.AppendAllLayout` | src/idomizer.js:151-153 | the body is the lines in order, each preceded by the separator (a line feed iff `pretty`), empty lines included |
| `IdomizerLegacy.AppendAllConcat` | src/idomizer.js:151-153 | appending two line sequences is appending their concatenation |
| `IdomizerLegacy.Emitter.Push` | src/idomizer.js:318 | `fnBody = append(fnBody, line, options)`, which always appends |
| `IdomizerLegacy.Emitter.OnOpenTag` | src/idomizer.js:296-310 | the open-tag callback appends the directive's line, or the element's open call followed by `_skip();` when it skips |
| `IdomizerLegacy.Emitter.OnCloseTag` | src/idomizer.js:311-320 | the close-tag callback appends the directive's close line if it has one, nothing for void elements, else `_elementClose` |
| `IdomizerLegacy.Emitter.OnText` | src/idomizer.js:321-327 | the text callback appends the `evaluation` rendering, else `_text('<escaped>');` |
| `IdomizerLegacy.Emitter.OnEvent` | src/idomizer.js:295-328 | each tokenizer event appends exactly the lines `EventLines` gives for it |
| `IdomizerLegacy.EmitBody` | src/idomizer.js:294-338 | feeding the events in order to one emitter yields `EmitFrom` of the events |
| `IdomizerLegacy.Compile` | src/idomizer.js:290-353 | `compile` merges options and tags, shields the template, tokenizes it, emits the body and wraps it |
| `IdomizerLegacy.EmitIsAppendAll` | src/idomizer.js:294-327 | the body is the append of all events' lines in event order: no event's output depends on the body before it |
| `IdomizerLegacy.EmitConcat` | src/idomizer.js:294-327 | compiling events `a + b` is compiling `a`, then `b` from the body `a` left |
| `IdomizerLegacy.EvaluateAll` | src/idomizer.js:191-211 | `evaluate` renders every piece of the walk in order, blank groups included, and joins them with the appender |
| `IdomizerLegacy.InterpolatedText` | src/idomizer.js:178-182 | an interpolated text node becomes its gaps as `t('…');` calls and its groups as written, in order, joined by spaces |
| `IdomizerLegacy.InterpolatedAttribute` | src/idomizer.js:168-172 | an attribute value becomes its gaps quoted and its groups parenthesised, in order, joined by ` + ` |
| `IdomizerLegacy.LiteralText` | src/idomizer.js:324-326 | a text without `{{…}}` becomes one `_text('…');` call; for backslash-free text its literal reads back as the text without a carriage return and does not read with one |
| `IdomizerLegacy.TextTagValue` | src/idomizer.js:96-100 | built-in `tpl-text` never throws: without a value it writes `_text(undefined);`, with a non-empty static value `_text(value);` |
| `Vectors.ParseInputAttributes` | test/idomizer.spec.js:28 | `type="text" value="{{data.value}}"`, with the value shielded as `<![CDATA[{{data.value}}]]>` as the tokenizer hands it on, classifies to statics `type: text`, varArgs `value: (data.value)`, no key, no skip |
| `Vectors.InputWithDynamicValue` | test/idomizer.spec.js:28-29 | the open tag of that input emits `_elementVoid('input', null, ['type', 'text'], 'value', (data.value));` and no `_skip();` |
| `Vectors.ClassPieces` | test/idomizer.spec.js:181 | `foo {{data.h1Class}} bar` is walked as the gap `foo `, the group `data.h1Class` and the gap ` bar` |
| `Vectors.ClassValue` | test/idomizer.spec.js:181-184 | with `skipExceptions` off, that class value becomes `'foo ' + (data.h1Class) + ' bar'` |
| `Vectors.ParseHeadingAttributes` | test/idomizer.spec.js:180-183 | with `ignoreStaticAttributes`, `class="foo {{data.h1Class}} bar" id="anId"`, the class shielded as `foo <![CDATA[{{data.h1Class}}]]> bar`, classifies to no statics and both attributes as varArgs, `id` as `'anId'`, no key, no skip |
| `Vectors.HeadingIgnoresStatics` | test/idomizer.spec.js:180-184 | the heading has no statics and its varArgs are written as `'class', 'foo ' + (data.h1Class) + ' bar', 'id', 'anId'`, the text the test matches |

## Left out

- The htmlparser2 tokenizer, with its entity decoding and CDATA recognition, is an external library. `Compile` takes it as a parameter, `tokenize: string -> seq<Event>`.
- `new Function(...)` and everything the generated code does at render time are out of reach. This covers IncrementalDOM, `forEach`, the try/catch of the guard and `console.*` for `tpl-logger`. `FunctionSource` is only the wrapper text around the body.
- Caller-supplied `interpolation`, `expression` and `evaluation` patterns are not modelled. Only the default delimiter pairs are.
- `Options.Resolve`: the model treats a property the caller sets explicitly to `undefined` as left out. `assign` would copy the `undefined`.
- Handlers receive the options without the `tags` registry. A caller handler that reads `options.tags` is not modelled.
- Caller handlers return a string or `undefined`. Other return values (numbers, objects) are not modelled.
- JavaScript puts integer-like keys first in `Object.keys`. The model assumes the attribute sequence is already in `Object.keys` order.
- `assign` treats the key `__proto__` specially. This is not modelled: `__proto__` is just one of the inherited names.
- `src/Options.ts` holds interfaces only. The build-tool plugins in `src/plugins/` are pass-throughs to `compile`.
- The DOM assertions of `test/idomizer.spec.js` are left out because they need a browser.
- Strings are sequences of Unicode scalar values, while JavaScript strings are UTF-16 code units. A lone surrogate cannot be represented, and lengths and indices differ for characters outside the Basic Multilingual Plane.
- Of the escapes a JavaScript reader knows, only `\n`, `\r`, `\t`, `\'` and `\\` are modelled. `\b`, `\x..`, `\u....` and line continuations read as the character itself, which affects only text with a backslash, for which no round trip is claimed.
- `IdomizerLegacy.OpenTagLines`: an attribute named `hasOwnProperty`, as in `<p hasOwnProperty="x">`, hides the method `checkSkipAttribute` calls at src/idomizer.js:222, so the `.js` compiler throws a TypeError. The legacy model has no error path for open tags and compiles such an attribute as an ordinary one. The `.ts` model fails instead (`Idomizer.HasOwnPropertyThrows`).
- The `.ts` shield is not undone for spans nested across the two patterns. For example, wrapping `[[ {{x}} ]]` and then unwrapping it gives `[[ {{x}}]]> ]]`, because the `]]>` of the inner wrap ends the outer span early. The round trip is proved only for literal text (`Shield.ShieldRoundTripLiteral`).
- `Escaping.StringifyRoundTrip`: promised only for text with neither a backslash nor a carriage return, because neither is escaped by `stringify`; with a carriage return the literal does not read at all (`Escaping.StringifyCarriageReturnBreaks`).
