# routegen in Dafny

routegen is a small JavaScript library for named URL templates. A call to
the factory returns a registry that holds an optional base URL and an
insertion-ordered `Map` from route keys to templates such as
`/users/{id}/posts/{post}`. The registry offers these operations:

- `set(k, v)` registers one template.
- `prefix({ name, path }, newRoutes)` registers several templates under
  the key prefix `name_` and the path prefix `path`.
- `all()` lists the routes as `{ key, value }` pairs, in insertion order.
- `generate(k, params)` looks up a template, puts the base URL in front
  (`_get`), and fills in the placeholders (`_replaceURLParams`).
- `lock()` returns a view of the same registry that offers only
  `generate` and `all`.

The placeholders are found by a global search for the regular expression
`{\s*[\w.]+\s*}` (`_getUrlParams`). Each identifier found is then replaced
with one call to `String.prototype.replace`. That call searches for the
text `{id}` and replaces only its first remaining occurrence.

The project has five modules:

- `Wrappers` (wrappers.dfy) defines `Option`.
- `Placeholders` (placeholders.dfy) models the regular-expression search.
  It is a scanner that, at each position, either recognises a token and
  resumes after it, or moves on by one character.
- `Substitution` (substitution.dfy) models `indexOf`, the `$` patterns
  of the replacement string and first-occurrence `replace`. It also has
  the substitution loop, as a method proved against a function.
- `OrderedMap` (ordered_map.dfy) models the insertion-ordered `Map` as a
  value.
- `RouteGen` (registry.dfy) has the registry as a class whose fields
  `set` and `prefix` update, and the locked view as a class that holds a
  reference to that same registry.

`Scenarios` (scenarios.dfy) derives concrete cases from the general
lemmas. Some come from the repository's test suite: the rows citing
`test/index.test.js` lines 88-91, 112, 118, 150, 156, 170, 33-80 and 197.
The others are edge cases of the model itself, and their rows cite the
source lines they exercise.

`src/index.js` and its compiled copy `dist/index.js` contain the same
logic at different line numbers. Each row below cites one of the two
copies, and the row applies equally to the matching lines of the other.

## Model

| member | source | states |
|---|---|---|
| Placeholders.SkipSpace | src/index.js:10 | The `\s*` part of the pattern: the scan stops at the first index that is not ECMAScript whitespace, and everything it passed over is whitespace. |
| Placeholders.SkipIdent | src/index.js:10 | The `[\w.]+` part of the pattern: the scan stops at the first character that is not a letter, digit, `_` or `.`, and everything it passed over is one. |
| Placeholders.MatchToken | src/index.js:10 | A match that starts at the first character reports an identifier of one or more `[\w.]` characters, and spans at least two characters more than that identifier and no more than the input. |
| Placeholders.MatchTokenComplete | src/index.js:10 | Any `{`, optional whitespace, identifier, optional whitespace, `}` is matched in full, whatever follows it, and reports exactly that identifier. |
| Placeholders.MatchTokenSound | src/index.js:10 | Every match is such a token: the matched text is `{`, whitespace, the reported identifier, whitespace, `}`. |
| Placeholders.Extract | src/index.js:9-18 | `_getUrlParams`: every identifier returned is non-empty and made of `[\w.]` characters, and each token takes at least three characters of the URL. A URL without tokens yields `[]` and not `null`. |
| Placeholders.ExtractSkipsChar | src/index.js:10 | A character other than `{` starts no match, and the global search resumes at the next character. |
| Placeholders.ExtractSkipsText | src/index.js:10 | Literal text without `{` contributes no identifier. |
| Placeholders.ExtractToken | dist/index.js:16-20 | A token contributes its identifier with the surrounding whitespace removed (the inner `[\w.]+` match), and the search resumes right after its `}`. |
| Placeholders.ExtractTemplate | src/index.js:9-18 | The round trip: for a template built from brace-free text and tokens written in any permitted form, extraction returns exactly the tokens' identifiers, in order, with duplicates kept. |
| Placeholders.ExtractEmptyIff | src/index.js:13-17 | `_getUrlParams` returns `[]` if and only if no position of the URL starts a match. |
| Placeholders.NoBraceNoTokens | src/index.js:17 | A URL without `{` yields no identifiers. |
| Substitution.IndexOf | src/index.js:35 | The search inside `replace`: the result is an occurrence at or after the start, and no earlier occurrence exists. None means the text does not occur there at all. |
| Substitution.ExpandReplacement | src/index.js:35 | The replacement string of `replace`, where `$$`, `$&`, `` $` `` and `$'` are expanded. A replacement without `$` is inserted as it is. |
| Substitution.ReplaceFirst | src/index.js:35 | `replace` with a string pattern leaves the string unchanged when the pattern does not occur. Otherwise a `$`-free replacement takes the place of the leftmost occurrence, whatever text comes before it, and the text on both sides is kept. |
| Substitution.ReplaceFirstLeftmost | dist/index.js:32 | After brace-free text, the first occurrence of a `{`-led search text is the one replaced. A `$`-free value takes its place, and everything after it is kept. |
| Substitution.Substitute | src/index.js:27-40 | `_replaceURLParams`: the loop over the extracted identifiers computes exactly `Substituted`, that is, one first-occurrence replacement per identifier, in order, and only when there are both identifiers and parameters. |
| Substitution.SubstitutedUnchanged | src/index.js:32 | A URL in which `_getUrlParams` finds no placeholder, or a call with an empty parameter object, is returned unchanged. This includes URLs with a `{` that starts no token, such as `/a/{}` or `/a/{b c}`. |
| Substitution.ReplaceInOrderTemplate | src/index.js:34-36 | On a template of brace-free text and `{id}` tokens, the in-order replacements fill the tokens left to right with the parameter texts. This holds when the text used for each token contains neither `{` nor `$`. |
| Substitution.SubstituteTemplate | src/index.js:27-40 | Each `{id}` token of the template is replaced by its parameter's text. A repeated identifier is filled at every occurrence, and a missing parameter becomes `undefined`. With no parameters the template comes back unchanged. This holds for a template of brace-free text and `{id}` tokens, when the text used for each token contains neither `{` nor `$`. Values of parameters that no token names are unrestricted. |
| Substitution.SpacedNeedleAbsent | dist/index.js:32 | The search text `{id}` occurs nowhere in a template whose only token is `id` written with inner whitespace. |
| Substitution.SpacedTokenUntouched | src/index.js:28-36 | In a URL whose only token is written with whitespace, such as `{ id }`, `_getUrlParams` reports the token, but `replace` never finds `{id}`, so the URL is returned unchanged. |
| OrderedMap.Empty | src/index.js:4 | A new `Map` is empty and well formed. |
| OrderedMap.Put | src/index.js:59-61 | `Map.prototype.set` keeps the table well formed. Afterwards the key maps to the new value, and every other key keeps its value or its absence. |
| OrderedMap.PutOrder | dist/index.js:48-50 | Insertion order: overwriting a key keeps the order, and a new key is appended last with its value. Every earlier entry keeps its position. |
| OrderedMap.PutAll | src/index.js:75-77 | Consecutive `set` calls keep the table well formed. |
| OrderedMap.PutAllKeys | src/index.js:75-77 | After consecutive `set` calls, the keys are the old keys together with the inserted ones. |
| OrderedMap.PutAllLastWins | src/index.js:75-77 | The last write to a key decides its value. |
| OrderedMap.PutAllUntouched | src/index.js:75-77 | A key that no write names keeps its value, or stays absent. |
| OrderedMap.Entries | src/index.js:88-90 | `forEach` visits one entry per listed key, in insertion order, and each entry carries that key's stored value. |
| OrderedMap.DistinctCount | dist/index.js:67-69 | A sequence without repetitions has as many distinct elements as it has elements. |
| OrderedMap.EntriesCount | src/index.js:85-93 | `all()` has exactly one entry per stored key, and every stored key appears in it. |
| OrderedMap.DistinctKeysCount | test/index.test.js:88-91 | After any sequence of `set` calls on a new registry, `all()` lists as many routes as there were distinct keys. |
| RouteGen.PrefixRegisters | src/index.js:71-78 | Each short key `k` of `prefix` is registered as `name_k`, or as plain `k` when the name is empty, with the template `path + t`. This holds unless a later pair reuses the short key. |
| RouteGen.PrefixUntouched | dist/index.js:52-62 | `prefix` leaves every key it does not write unchanged. |
| RouteGen.UnknownRoute | src/index.js:42 | An unregistered key generates the base URL followed by the text `undefined`, for any parameters, when the base URL has no `{`. |
| RouteGen.Registry.constructor | src/index.js:3-7 | The factory: an empty, well-formed registry with the configured base URL. |
| RouteGen.Registry.Get | dist/index.js:39-41 | `_get`: the base URL followed by the stored template, or by `undefined` when the key is unknown. |
| RouteGen.Registry.Generate | src/index.js:51 | `generate`: substitution applied to `_get(k)`, for any key and any object of parameters. |
| RouteGen.Registry.Set | dist/index.js:48-50 | `set` is `Map.prototype.set` on the registry's table, and it keeps the table well formed. |
| RouteGen.Registry.Prefix | dist/index.js:52-62 | `prefix`: the loop leaves the table as consecutive `set` calls of `(name_k, path + t)` would, in the order of `newRoutes`. |
| RouteGen.Registry.All | src/index.js:85-93 | `all`: the loop builds exactly the entries in insertion order, one per stored key. |
| RouteGen.Registry.Lock | src/index.js:100-103 | `lock` returns a new view of this very registry. |
| RouteGen.LockedRegistry.Generate | dist/index.js:74-79 | The view's `generate` gives what the registry's own `generate` gives. |
| RouteGen.LockedRegistry.All | src/index.js:102 | The view's `all` lists the registry's current entries, including routes set after `lock()`. |
| Scenarios.ExtractOneToken | test/index.test.js:150 | `_getUrlParams('/foo/{id}')` is `['id']`. |
| Scenarios.ExtractTwoTokens | test/index.test.js:156 | `_getUrlParams('/foo/{id}/{foo}')` is `['id', 'foo']`. |
| Scenarios.ExtractStrayBrace | src/index.js:10 | In `{{id}`, the first `{` starts no match, and the search finds `id` one character later. |
| Scenarios.ExtractSpacedToken | src/index.js:14 | `{ id }` is reported as `id`. |
| Scenarios.SubstituteOneParam | test/index.test.js:112 | `generate` of `/bar/{id}` with `{ id: 1 }` is `/bar/1`. |
| Scenarios.SubstituteNamedParams | test/index.test.js:118 | `generate` of `/bar/{id}/{name}/foo` with `{ id: 134, name: 'drew' }` is `/bar/134/drew/foo`. |
| Scenarios.SubstituteTwoParams | test/index.test.js:170 | `_replaceURLParams('/foo/{id}/{foo}', { id: 1, foo: 'bar' })` is `/foo/1/bar`. |
| Scenarios.SubstituteRepeated | src/index.js:34-36 | `/a/{id}/{id}` with `id = 7` becomes `/a/7/7`: the identifier is listed twice, so both occurrences are filled. |
| Scenarios.SubstituteMissing | src/index.js:35 | A parameter missing from a non-empty parameter object is filled in as `undefined`. |
| Scenarios.SubstituteSpaced | src/index.js:35 | `/a/{ id }` with `id = 1` is returned unchanged. |
| Scenarios.SubstituteSpacedThenPlain | src/index.js:34-36 | In `/a/{ id }/{id}` with `id = 1`, `id` is extracted twice. The first `replace` fills the plain token, the second finds nothing, and the result is `/a/{ id }/1`: the spaced token stays as written. |
| Scenarios.SubstituteValueHoldsToken | src/index.js:34-36 | `/a/{x}/{y}` with `x = '{y}'` and `y = 'Y'` gives `/a/Y/{y}`. The first `replace` inserts `{y}` before the template's own `{y}`, and the second `replace` fills the inserted one. |
| Scenarios.AllCountsRoutes | test/index.test.js:88-91 | After setting `foo` and `bar`, `all()` has two entries. |
| Scenarios.PrefixCases | test/index.test.js:33-80 | `prefix({ path: '/auth/foo', name: 'auth' }, { foo: '/bar' })` registers `auth_foo` as `/auth/foo/bar`. Without a name, the key stays `foo`. |
| Scenarios.SubstituteLockedCase | test/index.test.js:197 | The interpolated route of the locked view: `/foo/bar/{id}` with `id = 123` is `/foo/bar/123`. |

## Left out

- Query strings: some tests expect unused parameters to be appended as a query string (`test/index.test.js:121-143`). Neither `src/index.js` nor `dist/index.js` does this, so the model follows the code: such parameters are ignored.
- `dist/index.test.js` calls `routes.get`, which the registry does not define. It is not modelled.
- Value coercion: parameters and templates are strings. The model does not cover JavaScript's coercion of numbers and other values in template literals and `replace`, or the lookup of inherited properties such as `constructor`.
- `Object.keys` ordering: `newRoutes` is a sequence of pairs in the order `Object.keys` would list them. Integer-like keys, which JavaScript lists first, are not reordered.
- Falsy `name` and `path`: `prefix` treats an absent or empty name or path as `''`. The model takes both as strings, so only the empty string stands for "absent".
- A `null` parameter object: the `{}` default of `generate` applies only to `undefined`. So `generate(k, null)` on a template with a placeholder throws a `TypeError` from `Object.keys(null)` (src/index.js:32). The model's parameters are always a map, so it has no such error path.
- Configuration merging with `Object.assign`: the base URL is passed as a plain string, with `''` as the default.
- Lock's object shape: `lock()` returns an object without `set` and `prefix`. The model expresses that view as a class that has no such methods. The absence of the properties is not a stated property.
- Strings are sequences of Unicode scalar values, not UTF-16 code units. This matters only for `\s` outside the Basic Multilingual Plane, where there are no whitespace characters, so the pattern behaves the same.
- Scenarios.LockedViewGenerates and Scenarios.LockedViewSeesLaterRoutes are client methods that exercise the contracts above. They state no postcondition of their own.
- OrderedMap.PutAll: its own contract states only that the table stays well formed. Its contents are described by the lemmas PutAllKeys, PutAllLastWins and PutAllUntouched.
- Substitution.SpacedTokenUntouched: proved only for a URL whose only token is the spaced one. The general case is not stated as a lemma. It would say: when the parameter object is non-empty and the texts used for the tokens contain neither `{` nor `$`, every spaced token stays as written and every plain `{id}` is filled. That holds because each identifier gets at least as many first-occurrence replacements as it has plain tokens. Without those conditions it fails. With an empty parameter object nothing is replaced. A value that holds another token's search text is itself filled by the later replacement, so `/a/{x}/{y}` with `x = '{y}'` and `y = 'Y'` gives `/a/Y/{y}` (Scenarios.SubstituteValueHoldsToken). Scenarios.SubstituteSpacedThenPlain proves one instance of the mixed case.
- Substitution.ExpandReplacement: its contract states only the `$`-free case. The expansion of the `$` patterns is modelled in its body but not stated separately.
