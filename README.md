# multichange: rule compilation, batch application, import and the rule-list panel

multichange is an editor extension that applies an ordered list of find/replace
rules ("changes") to the active document or to every open document. A change has
a matcher, a resolver (the replacement template) and three switches: case
sensitivity, whole words, regular-expression mode. This project models the two
pieces of logic the extension has:

- **the host side** (`src/providers/multichangeProvider.ts`): `getReplacers`,
  which turns each change into a pattern string and a flag string (literal
  matchers are escaped, whole-word patterns are wrapped in `\b`), the loops of
  `_handleTransform`, which fold the replacers over each document's full text, and
  `import`, which checks that the active editor holds a JSON array and replaces
  every falsy field of each element with its default, keeping truthy values as
  they are;
- **the panel** (`media/main.js`, class `WebView`): the rule list and the
  multi-editor switch, changed in place by the panel's buttons and by the
  `import` message, and written to the host's state store after every change.

Modules, one concept each:

| file | module | contents |
|---|---|---|
| wrappers.dfy | Wrappers | Option, Result |
| js_values.dfy | JsValues | JavaScript values, truthiness, `\|\|` and `!` |
| records.dfy | Records | the panel's change record, whose properties can be missing or hold any value |
| escaping.dfy | Escaping | the literal-mode escaper as a per-character map, and its inverse |
| replacers.dfy | Replacers | the host's typed `Change`, flags, patterns, `getReplacers` |
| transform.dfy | Transform | the abstract regular-expression engine, the fold, `_handleTransform` |
| import_rules.dfy | ImportRules | `import`, the `save` export, and the save/import round trip |
| panel.dfy | Panel | the host state store `VsCodeApi` and the `WebView` class |

The regular-expression engine is a parameter, `Transform.Engine`. It has two
functions. `compiles(pattern, flags)` says whether `new RegExp` accepts the pattern.
`replace(pattern, flags, template, text)` stands for ECMAScript
`String.prototype.replace` (section 22.1.3 of ECMA-262). The escaper does not go
through the engine. It is modelled directly as the map its `'\\$&'` replacement
performs: one backslash goes before each character of the class `[#-.]|[[-^]|[?|{}]`.
That class is U+0023 to U+002E, U+005B to U+005E, and `? | { }`, so it does escape
`* + ( ) \ $`.

Two facts about the source that the model makes explicit:

- A rule whose regular expression is invalid is not skipped. `new RegExp` throws
  inside the replacer (src/providers/multichangeProvider.ts:138), nothing in
  `_handleTransform` catches it, and the transformation stops
  (`Transform.FoldFailsOnFirstInvalid`). Whether a pattern
  is valid does not depend on the text. So in multi-editor mode the throw comes on
  the first document, and no document is written (`Transform.TransformDocuments`).
- The literal escape set covers every regular-expression metacharacter,
  including `* + ( ) \ $` (`Escaping.SpecialCharactersExactly`).

## Model

| member | source | states |
|---|---|---|
| Escaping.SpecialCharactersExactly | src/providers/multichangeProvider.ts:136 | the escaped class is exactly the 20 characters `# $ % & ' ( ) * + , - . [ \ ] ^ ? \| { }` |
| Escaping.Escape | src/providers/multichangeProvider.ts:136 | the escaped matcher is longer than the matcher by exactly its number of special characters |
| Escaping.EscapeAppend | src/providers/multichangeProvider.ts:136 | escaping works character by character: escaping a concatenation concatenates the escapes |
| Escaping.EscapeAt | src/providers/multichangeProvider.ts:136 | the character at index i appears escaped on its own (a backslash before it if special, unchanged otherwise) at offset i plus the number of special characters before it, with the rest in order around it |
| Escaping.EscapePlain | src/providers/multichangeProvider.ts:136 | a matcher without special characters is left unchanged |
| Escaping.UnescapeEscape | src/providers/multichangeProvider.ts:136 | deleting the inserted backslashes recovers the matcher |
| Escaping.EscapeWellEscaped | src/providers/multichangeProvider.ts:136 | in the escaped matcher every special character has its own backslash before it, and every backslash starts such a pair |
| Escaping.EscapeUnescape | src/providers/multichangeProvider.ts:136 | every well-escaped string is the escape of its unescaped form, so escaping is a bijection onto well-escaped strings |
| Escaping.EscapeNeverStartsWithBoundary | src/providers/multichangeProvider.ts:136 | no escaped matcher begins with `\b` |
| Replacers.Flags | src/providers/multichangeProvider.ts:133 | the flags always contain g and m, and contain i exactly when the rule is not case-sensitive |
| Replacers.CorePattern | src/providers/multichangeProvider.ts:134-136 | in regex mode the core pattern is the matcher verbatim; in literal mode it is well escaped, reads back as the matcher, and is longer by the number of special characters |
| Replacers.PatternWraps | src/providers/multichangeProvider.ts:137 | with whole-words the pattern is the core between two `\b` and otherwise the bare core; for a literal rule the pattern starts with `\b` exactly when whole-words is set |
| Replacers.GetReplacers | src/providers/multichangeProvider.ts:131-139 | one replacer per change, same order, each with that change's pattern and flags and the resolver unchanged as template |
| Records.ChangeRecord.Set | media/main.js:305 | assigning a property of a record changes that property and no other |
| Records.ToJsonReadBack | src/providers/multichangeProvider.ts:98 | reading a property of a serialised record gives the property's value, undefined when it was missing |
| Transform.FoldEmpty | src/providers/multichangeProvider.ts:121-124 | an empty rule list leaves the text unchanged |
| Transform.FoldAppend | src/providers/multichangeProvider.ts:108-110 | folding two rule lists one after the other is folding the second over the result of the first |
| Transform.FoldIsReduce | src/providers/multichangeProvider.ts:108-110 | the loop equals the left fold `replacers.reduce((t, fn) => fn(t), text)` over the full text, for every list and text |
| Transform.FoldFailsOnFirstInvalid | src/providers/multichangeProvider.ts:138 | the fold throws exactly when some pattern is invalid, with the error of the first invalid one in list order, whatever the text |
| Transform.RunReplacers | src/providers/multichangeProvider.ts:121-124 | the loop `text = replacer(text)` computes the fold, a thrown error ending it |
| Transform.TransformDocuments | src/providers/multichangeProvider.ts:102-113 | in multi-editor mode each document is written with the fold of its own text under the same replacers; on a throw none has been written |
| Transform.HandleTransform | src/providers/multichangeProvider.ts:101-127 | multi-editor mode rewrites every document or throws before writing any; single mode warns when there is no active editor and otherwise rewrites the active text with its fold or throws |
| ImportRules.Normalise | src/providers/multichangeProvider.ts:73-79 | each falsy property becomes `''` or `false`, each truthy one is kept as it is; a null element throws |
| ImportRules.NormaliseAll | src/providers/multichangeProvider.ts:73-79 | an array of n elements yields n records in the same order, each the normalised element, unless an element is null |
| ImportRules.HandleImport | src/providers/multichangeProvider.ts:60-82 | no view: nothing happens; no editor or a non-array: the matching warning and no import message; an array without null elements: an import message with one normalised record per element, in order; otherwise it throws and posts nothing |
| ImportRules.Export | src/providers/multichangeProvider.ts:97-99 | saving writes one JSON object per rule, in order |
| ImportRules.NormaliseToJson | src/providers/multichangeProvider.ts:73-79 | importing a saved record gives the record with defaults in place of falsy properties, which is never undefined; a record that is already normal comes back unchanged |
| ImportRules.NormaliseIdempotent | src/providers/multichangeProvider.ts:73-79 | importing, saving and importing again gives the same records as importing once |
| ImportRules.ExportImportRoundTrip | src/providers/multichangeProvider.ts:66-80 | saving a rule list and importing it posts each rule with defaults filled in, same order; a list of normal records comes back unchanged |
| ImportRules.TypedRoundTrip | src/providers/multichangeProvider.ts:15-21 | a rule list of the declared `Change` type survives save and import unchanged |
| Panel.Swapped | media/main.js:327-334 | the two entries are exchanged, every other entry and the length stay the same |
| Panel.Removed | media/main.js:340-345 | the entry at the position is gone, the others keep their order, the length drops by one |
| Panel.SwappedTwice | media/main.js:327-334 | reordering the same two entries twice restores the list; reorder is symmetric and a permutation |
| Panel.RemovedMultiset | media/main.js:342 | removal takes out exactly the removed record |
| Panel.WebView.constructor | media/main.js:40-48 | `init` restores the saved state, or `{[], false}` when nothing is saved, then saves it |
| Panel.WebView.UpdateChangeList | media/main.js:240-242 | after an update the saved state equals the current `{changes, multiEditor}` |
| Panel.WebView.AddChange | media/main.js:50-53 | one empty record is appended, the existing ones remain unchanged |
| Panel.WebView.HandleMultiEditorToggle | media/main.js:85-88 | `multiEditor` is negated and the list is untouched |
| Panel.WebView.HandleChange | media/main.js:298-308 | only the given property of change i is set to the input's value |
| Panel.WebView.HandleClick | media/main.js:314-320 | only the given flag of change i is negated, a missing flag reading as false |
| Panel.WebView.Reorder | media/main.js:327-334 | the list becomes the swapped list |
| Panel.WebView.MoveUp | media/main.js:208 | entry i moves to i - 1 when i > 0, otherwise nothing changes |
| Panel.WebView.MoveDown | media/main.js:229 | entry i moves to i + 1 when it is not last, otherwise nothing changes |
| Panel.WebView.Remove | media/main.js:340-345 | the list becomes the list without the entry at the position |
| Panel.WebView.ReceiveImport | media/main.js:67-70 | the `import` message replaces the list wholesale and keeps the switch |
| Panel.Reopen | media/main.js:45-48 | a panel reopened on the same store starts in the state the last one saved |
| Panel.MoveUpThenDown | media/main.js:208-229 | moving an entry up and then down again restores the panel's state |

Every panel method also keeps `Valid()`: the saved state equals the current state.

## Left out

- The regular-expression engine itself (`new RegExp`, `String.prototype.replace`): it is the `Transform.Engine` parameter, with no semantics of its own. Matching, whole-word and case behaviour are therefore not proved.
- JSON.parse: import starts from the parsed value. Text that does not parse throws from JSON.parse; that path is not modelled.
- JSON numbers are reals: NaN, negative zero and floating-point rounding are not modelled.
- ImportRules.Export: models JSON.stringify followed by JSON.parse as the identity, except that a property holding undefined is dropped.
- The host-side treatment of records whose fields are missing or not strings is not modelled. `getReplacers` is modelled on the declared `Change` type. A record from the panel can lack a matcher: `undefined.replace` throws in literal mode. A missing resolver is replaced as the text "undefined".
- Message passing between panel and host is not modelled: `postMessage`, the `get_changes_for_*` and `send_changes_for_*` messages, `transform()`, `save()`, `handleTransform`. Nor is their asynchrony. One detail of it: the `get_changes_for_transforming` answer carries the bare list, while `_handleTransform` reads `value.changes` and `value.multiEditor`.
- `WorkspaceEdit`, `applyEdit`, `editor.edit`, `getWholeText`, `getRangeOfEntireDocument`, `openInUntitled`: host I/O. A transform's written texts are returned in order instead.
- Rendering: `createHTMLElement`, the element tree of `updateChangeList`, `updateMultiEditorButton`, and the listener registration in `init` are UI only.
- src/ui/getWebViewContent.ts is not part of this model: it is a static HTML template. Nor is src/extension.ts: it only registers commands.
- Strings are sequences of Unicode scalar values, not UTF-16 code units. Every escaped character is ASCII, so escaping is unaffected.
- Serialisation by `setState` is modelled as storing the value.
