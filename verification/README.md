# Import maps for the ES module loader, in Dafny

This project models Node's experimental import-map component,
`lib/internal/modules/esm/import_map.js`. The component has two parts:

- **Construction** (`new ImportMap(raw, baseURL)` and `processImportMap`). It
  validates a decoded import-map document against a fixed list of error messages.
  It copies the top-level `imports` entries. It then visits the `scopes` keys in
  descending string order (`Object.keys(...).sort().reverse()`). Each scope key is
  resolved against the base URL, and each scope gets its own specifier map.
- **Resolution** (`ImportMap.resolve`). The first scope, in stored order, applies
  when the parent URL's path starts with the scope's path and the scope has a
  truthy entry for the specifier. Its target replaces the specifier. The top-level
  map is then consulted, keyed by the path when the specifier is by now a URL.
  Every string target that is used is replaced in place by the URL it resolves to,
  a memoisation. An unmapped specifier comes back as it was.

The model is functional:

- `ImportMaps.Build` returns a `Result`.
- `Resolution.Resolve` returns its answer together with the updated map.
- The mutable `SafeMap`s are insertion-ordered sequences of key/value pairs
  (`OrderedMaps`), with `Set` overwriting in place or appending, as `Map.prototype.set` does.
- The decoded document is a `JsValue` (`JsValues`). The validator's operators are
  written out on it: `typeof` (with `typeof null === "object"`), truthiness,
  `Array.isArray`, `Object.entries` (array elements keyed `"0"`, `"1"`, …) and
  property access.
- The URL constructor is a parameter, `parse: Parser`. A `Url` is only its `href`
  and `pathname`. `isURL` is the `Resolved` tag of a `Target`.

The `scopes` map is keyed by URL objects, so every visited scope is stored as a new
entry. `ImportMap.scopes` is therefore a plain sequence of `Scope`s. The host's own
`TypeError`s are the `TypeError` case of `BuildError`:

- a `null` or `undefined` document;
- `Object.entries(null)` when `imports` is `null`;
- `Object.keys(null)` when `scopes` is `null`;
- `endsWith` called on a non-string scope value.

The central result about resolution is `ResolveProperties.ResolveAgreesWithReference`,
which says the memoisation cannot be observed. Each target has a meaning: `None`
when falsy, otherwise the URL it stands for. `Resolve` answers what a memo-free
reference resolver (`ResolveProperties.Reference`) answers on the map's meanings,
and the map it hands back has the same meanings.

## Model

| member | source | states |
|---|---|---|
| ImportMaps.Build | lib/internal/modules/esm/import_map.js:51-58 | a `null`/`undefined` document fails with `TypeError`; an `imports` that is not `typeof "object"` or is an array fails with the `imports` message before `scopes` is looked at; then the same for `scopes`; on success the map keeps the base URL it was given and every specifier map has unique keys |
| ImportMaps.BuildFrom | lib/internal/modules/esm/import_map.js:11-18 | the constructed map holds the base URL it was given, which the `baseURL` getter returns; success implies `imports` and `scopes` were objects, and every specifier map has unique keys; a `null` `imports` raises `TypeError` once `scopes` passes the shape test, and a `null` `scopes` raises it once every top-level entry was copied |
| ImportMaps.Normalize | lib/internal/modules/esm/import_map.js:61-73 | copying entries with `set` into a map with unique keys leaves a map with unique keys |
| ImportMaps.NormalizeSucceedsIff | lib/internal/modules/esm/import_map.js:61-73 | the copy of the entries succeeds exactly when every entry passes its check |
| ImportMaps.NormalizeFirstError | lib/internal/modules/esm/import_map.js:61-70 | a failed copy reports the error of the first entry, in enumeration order, that fails its check |
| ImportMaps.NormalizeAppends | lib/internal/modules/esm/import_map.js:72 | for entries with unique keys not already present, a successful copy appends them in order with their values unresolved |
| ImportMaps.NormalizeScope | lib/internal/modules/esm/import_map.js:81-97 | an empty scope key fails with the scope-keys message; a key with a value that is neither object nor array fails with the message naming the scope and its `typeof`; a stored sub-map has unique keys |
| ImportMaps.ImportEntryError | lib/internal/modules/esm/import_map.js:62-70 | a top-level entry passes exactly when its key is non-empty, its value a non-empty string, and a key ending in `/` has a value ending in `/`; otherwise the empty key gets the key message, then an empty or non-string value the value message, then a key ending in `/` with a value that does not the trailing-slash message |
| ImportMaps.ScopeEntryError | lib/internal/modules/esm/import_map.js:93-95 | a scope entry passes exactly when its key does not end in `/` or its value is a string ending in `/`; a non-string value under such a key raises `TypeError`, a string value the trailing-slash message |
| ImportMaps.ScopeAt | lib/internal/modules/esm/import_map.js:80-86 | the scope value read from the document is normalised; its sub-map has unique keys (what it reads is stated by `BuildProperties.ScopeAtReadsValue`) |
| ImportMaps.NormalizeScopes | lib/internal/modules/esm/import_map.js:79-100 | every stored scope's specifier map has unique keys |
| ImportMaps.NormalizeScopesContents | lib/internal/modules/esm/import_map.js:79-100 | the scope pass succeeds exactly when every scope in the visiting order does; then the i-th stored scope is the i-th key resolved against the base URL, with that key's normalised map |
| ImportMaps.NormalizeScopesFirstError | lib/internal/modules/esm/import_map.js:79-97 | a failed scope pass reports the error of the first failing scope in visiting order |
| ImportMaps.ScopeOrder | lib/internal/modules/esm/import_map.js:78 | the visiting order is descending and a permutation of the document's scope keys |
| BuildProperties.ScopesValidInOrder | lib/internal/modules/esm/import_map.js:78-79 | every scope passes in enumeration order exactly when every scope passes in visiting order |
| BuildProperties.BuildSucceedsIff | lib/internal/modules/esm/import_map.js:51-103 | a document is accepted exactly when it is an object, `imports` and `scopes` are objects, every top-level entry passes its three checks and every scope passes its checks |
| BuildProperties.ImportsCheckedFirst | lib/internal/modules/esm/import_map.js:53-55 | an `imports` that is missing, an array or not an object (but not `null`) fails with the `imports` message whatever `scopes` holds |
| BuildProperties.BuildReportsFirstBadImport | lib/internal/modules/esm/import_map.js:61-70 | with a well-shaped document, the error is that of the first failing top-level entry: empty key, then empty or non-string value, then the trailing-slash rule |
| BuildProperties.BuildCopiesImports | lib/internal/modules/esm/import_map.js:72 | on success `imports` is the document's entries in enumeration order, each value an unresolved non-empty string |
| BuildProperties.ValidImportsCopy | lib/internal/modules/esm/import_map.js:61-73 | valid entries with unique keys are copied unchanged, in order |
| BuildProperties.ValidImportTargets | lib/internal/modules/esm/import_map.js:65-67 | the values of entries that pass the checks are non-empty strings |
| BuildProperties.BuildOrdersScopes | lib/internal/modules/esm/import_map.js:78-100 | on success there is one scope per scope key, none dropped or repeated, in descending key order; each is the key resolved against the base URL with that key's normalised map |
| BuildProperties.BuildReportsFirstBadScope | lib/internal/modules/esm/import_map.js:79-97 | with valid imports, the error is that of the first failing scope in descending key order |
| BuildProperties.EmptyScopeKeyRejected | lib/internal/modules/esm/import_map.js:81-83 | a document with an empty scope key is rejected |
| BuildProperties.NullScopeRejected | lib/internal/modules/esm/import_map.js:84-86 | a `null` scope value fails with the message for a non-object scope, naming "object" as its `typeof` |
| BuildProperties.ScopeEntriesOnlyTrailingSlash | lib/internal/modules/esm/import_map.js:92-97 | a scope object is accepted exactly when every key ending in `/` has a string value ending in `/`; empty keys and other values pass |
| BuildProperties.ScopeReportsFirstBadEntry | lib/internal/modules/esm/import_map.js:92-95 | a scope that fails its entries reports the first entry whose key ends in `/` while its value is not a string ending in `/`: `TypeError` for a non-string value, the trailing-slash message for a string |
| BuildProperties.ObjectScopeCopied | lib/internal/modules/esm/import_map.js:91-96 | an accepted object scope is stored as its own entries, in enumeration order, each value unresolved |
| BuildProperties.ScopeAtReadsValue | lib/internal/modules/esm/import_map.js:80 | the value normalised for a scope key is the one the document stores under that key |
| BuildProperties.NullMembersRaiseTypeError | lib/internal/modules/esm/import_map.js:53-78 | a `null` `imports` (which passes the shape test) raises `TypeError` when enumerated; a `null` `scopes` raises it after valid imports were copied |
| BuildProperties.ArrayScopeAccepted | lib/internal/modules/esm/import_map.js:84-97 | an array passes as a scope value, its elements stored under their decimal indices |
| BuildProperties.IndexKeyInjective | lib/internal/modules/esm/import_map.js:92 | distinct array indices give distinct `Object.entries` keys |
| JsValues.TypeTestsAgree | lib/internal/modules/esm/import_map.js:53-66 | the `typeof` comparisons used by the checks agree with the `typeof` operator |
| JsValues.IndexKey | lib/internal/modules/esm/import_map.js:92 | an array index key is a non-empty string of decimal digits |
| OrderedMaps.Get | lib/internal/modules/esm/import_map.js:23 | `get` finds a value exactly when the key is present, and on a map with unique keys it is the value stored with that key |
| OrderedMaps.Set | lib/internal/modules/esm/import_map.js:72 | after `set`, `get` of the key gives the new value and every other key reads as before; an existing key keeps its position, a new one is appended; unique keys stay unique |
| OrderedMaps.SetExisting | lib/internal/modules/esm/import_map.js:27 | setting a key to the value it already holds leaves the map as it was |
| OrderedMaps.SetMapValues | lib/internal/modules/esm/import_map.js:27 | overwriting a value by one with the same image leaves the mapped map unchanged |
| StringOrder.SortDescending | lib/internal/modules/esm/import_map.js:78 | `sort().reverse()` gives a descending permutation of its input |
| StringOrder.DescendingUnique | lib/internal/modules/esm/import_map.js:78 | there is only one descending arrangement of a collection of strings, so the scope order does not depend on the sorting algorithm |
| StringOrder.BelowTotal | lib/internal/modules/esm/import_map.js:78 | the string order is total |
| StringOrder.BelowTransitive | lib/internal/modules/esm/import_map.js:78 | the string order is transitive |
| StringOrder.BelowAntisymmetric | lib/internal/modules/esm/import_map.js:78 | the string order is antisymmetric |
| Resolution.Resolve | lib/internal/modules/esm/import_map.js:20-48 | the map keeps its base URL and the sizes of its maps; an unmapped answer is the specifier itself and leaves the map as it was; its full behaviour is stated by `ResolveProperties.ResolveAgreesWithReference`, `UnmappedIff` and `ResolveTwice` |
| Resolution.ScopePhase | lib/internal/modules/esm/import_map.js:22-32 | keeps the number of scopes; what it returns and memoises is stated by `ResolveProperties.ScopePhaseAgrees` and `ScopePhaseMemoises` |
| Resolution.LookupKey | lib/internal/modules/esm/import_map.js:34-37 | the key of the top-level lookup; that it is the path of a scope-mapped URL is stated by `ResolveProperties.ImportsPhaseMemoises` |
| Resolution.ResolveFromBase | lib/internal/modules/esm/import_map.js:20 | the parent defaults to the base URL; the `Examples` resolutions from the base URL state its behaviour |
| Resolution.FirstScope | lib/internal/modules/esm/import_map.js:22-24 | the scope chosen applies (path prefix and truthy entry) and no earlier scope does; none is chosen exactly when no scope applies |
| ResolveProperties.ScopeTargetAgrees | lib/internal/modules/esm/import_map.js:22-31 | the reference scope phase finds the URL of the first applicable scope's target |
| ResolveProperties.MemoKeepsMeaning | lib/internal/modules/esm/import_map.js:26-27 | replacing a truthy target by the URL it resolves to keeps what the map means |
| ResolveProperties.ScopePhaseAgrees | lib/internal/modules/esm/import_map.js:22-32 | the scope phase gives the reference scope phase's answer and keeps the scopes' meaning |
| ResolveProperties.ResolveAgreesWithReference | lib/internal/modules/esm/import_map.js:20-48 | `resolve` answers what the memo-free reference answers on the map's meaning, and the updated map has the same meaning and base URL |
| ResolveProperties.MemoisationUnobservable | lib/internal/modules/esm/import_map.js:25-28 | after one call, any later query for any specifier and parent gets the answer it would have got from the original map |
| ResolveProperties.ScopePhaseMemoises | lib/internal/modules/esm/import_map.js:22-31 | the scope phase changes only the entry it used, in the first applicable scope, which then holds its target resolved against the base URL; no other scope or key changes |
| ResolveProperties.ImportsPhaseMemoises | lib/internal/modules/esm/import_map.js:34-45 | the top-level lookup uses the path when the specifier is by now a URL; a truthy hit is returned resolved against the base URL and memoised under that key; no other key changes |
| ResolveProperties.FirstApplicableScopeWins | lib/internal/modules/esm/import_map.js:22-45 | the first applicable scope decides the scope phase; its target is resolved against the base URL, not the scope, and the top-level map is then consulted with that URL's path |
| ResolveProperties.UnmappedIff | lib/internal/modules/esm/import_map.js:47 | the specifier comes back unchanged exactly when no scope applies and the top-level map has no truthy entry for it; the map is then untouched |
| ResolveProperties.ScopePhaseStable | lib/internal/modules/esm/import_map.js:22-31 | repeating the scope phase on the scopes it left gives the same answer and changes nothing |
| ResolveProperties.ResolveTwice | lib/internal/modules/esm/import_map.js:20-48 | resolving the same specifier and parent again gives the same result and leaves the map unchanged |
| Examples.SimpleBuilds | test/es-module/test-importmap.mjs:31-43 | the `simple` document builds to one unresolved import and one scope keyed by its resolved URL |
| Examples.SimpleImports | test/es-module/test-importmap.mjs:33-35 | the `simple` document's `imports` copy to one unresolved entry |
| Examples.SimpleScopes | test/es-module/test-importmap.mjs:36-42 | the `simple` document's one scope is stored under its resolved key with its entry unresolved |
| Examples.SimpleScopeOrder | test/es-module/test-importmap.mjs:36-42 | a single scope key is its own visiting order |
| Examples.SimpleScopeAt | test/es-module/test-importmap.mjs:38-40 | the scope entry `bar` passes the trailing-slash rule and is stored as it is |
| Examples.SimpleResolvesFoo | test/es-module/test-importmap.mjs:68-71 | `resolve('foo')` gives the top-level target resolved against the base URL |
| Examples.SimpleResolvesBarInScope | test/es-module/test-importmap.mjs:72-75 | from a parent inside the scope, `resolve('bar')` gives the scope's target resolved against the base URL |
| Examples.SimpleLeavesBarOutsideScope | test/es-module/test-importmap.mjs:76 | from a parent outside the scope, `bar` is returned unchanged |
| Examples.EmptyLeavesSpecifier | test/es-module/test-importmap.mjs:60-64 | the empty document builds to an empty map, which returns `test` unchanged |
| Examples.InvalidDocumentsRejected | test/es-module/test-importmap.mjs:45-58 | a missing `imports`, a missing `scopes` and an array `imports` fail with the expected messages |
| Examples.TrailingSlashRule | lib/internal/modules/esm/import_map.js:68-70 | `"a/": "b"` is rejected with the trailing-slash message, and `"a/": "b/"` is accepted |
| Examples.NestedScopesOrdered | lib/internal/modules/esm/import_map.js:76-79 | of the scope keys `/a/` and `/a/b/`, the longer is visited first |
| Examples.NestedBuilds | lib/internal/modules/esm/import_map.js:76-99 | a document whose scopes `/a/` and `/a/b/` both map `x` builds with `/a/b/` stored first and `/a/` second, each entry unresolved |
| Examples.NestedResolvesInner | lib/internal/modules/esm/import_map.js:22-32 | in that map, from a parent inside `/a/b/`, `x` resolves to `/a/b/`'s target against the base URL |
| Examples.NestedScopesConsulted | lib/internal/modules/esm/import_map.js:22-32 | for the built map itself: two scopes, `/a/b/` first and `/a/` second, and a parent inside `/a/b/` gets `x` from the more specific scope `/a/b/`, although `/a/` maps `x` too |

## Left out

- URL parsing, serialisation and `data:` URLs. `new URL(input, base)` is the `Parser` parameter, a total function. A URL that fails to parse and throws is therefore not modelled, and neither is the `data:` URL test.
- The string conversion that `new URL` applies to a non-string input belongs to the parameter as well.
- The `Invalid import map: ` prefix and the `ERR_INVALID_IMPORT_MAP` code are added by the error class in `internal/errors`, which is not part of this model. `InvalidImportMap` carries the message the component passes.
- Sort order: JavaScript's default `sort` compares UTF-16 code units, while the model compares Dafny characters (code points). The two differ only for characters outside the Basic Multilingual Plane.
- Numbers in a document are integers. Floating point cannot change any check, because truthiness of a number only asks whether it is zero.
- Property enumeration order: an object's own properties are given in enumeration order. The engine's rule that integer-like keys come first is not modelled. A decoded document has no duplicate keys, but the model does not require that: `Get` takes the first occurrence.
- Objects are only those a JSON decoder produces: no prototypes, getters or symbol keys.
- BuildProperties.BuildCopiesImports: assumes the document's `imports` keys are unique, as a decoded JSON object's own properties are. With repeated keys `set` would overwrite in place, and the contract says nothing about that case.
- The fixture JSON files of the tests are not part of this model. The `Examples` documents are written to match the import and scope contents the tests assert. `Examples.SimpleBuilds` keys its scope by the URL the source computes (`new URL(scope, baseURL)`, line 89 of `import_map.js`). The expected key that line 37 of the test builds, `new URL(importMap.baseURL, pathToFileURL('node_modules/foo'))`, has an absolute first argument and so is the base URL itself. The arguments look swapped, and the example does not follow that line. The `unordered-scopes` test needs the layout of its fixture and URL paths, so it is covered only by the general `ResolveProperties.FirstApplicableScopeWins`.
- The subprocess, command-line flag, file-writing, HTTP-server and JSON-import tests, and `benchmark/http/frameworks.js`: these are process and network I/O with no import-map logic of their own.
- ResolveProperties.MemoisationUnobservable: holds only for callers that do not mutate the URLs they are given. In the source the memoised entry is the very URL object returned to the caller (lines 26-29 and 41-44), and `#baseURL` is the caller's own object (line 12). A caller that mutates either changes later answers. The model's `Url`s are immutable values, so this aliasing is not modelled.
- ResolveProperties.ResolveTwice: holds under the same condition, for the same reason.
- Resolution.ScopePhase: `isURL` is modelled as the `Resolved` tag. In Node it tests an object's shape (a truthy `href` and `protocol`). A scope-entry value the checks let through, such as the object `{"href": "h", "protocol": "p:"}`, would be taken for a URL: returned as it is, without `new URL` and without memoisation. The model resolves and memoises it like any other value.
- Resolution.Resolve: the same `isURL` simplification applies to the specifier after the scope phase and to top-level targets. Top-level values are checked to be strings, so only a scope-entry object can be affected.
- Concurrency: the tests run concurrently, but each map is used by one caller at a time, and `resolve` is sequential.
