/** The import map and its construction: validation of the decoded document and
    normalisation into an ordered `imports` map and an ordered list of scopes
    (lib/internal/modules/esm/import_map.js, `processImportMap` and the constructor). */
module ImportMaps {
  import opened Wrappers
  import opened OrderedMaps
  import opened JsValues
  import opened Urls
  import opened StringOrder

  /** What a specifier maps to: the value found in the document, until resolution
      replaces it by the URL it denotes. */
  datatype Target = Unresolved(raw: JsValue) | Resolved(url: Url)

  /** A specifier -> target map, in insertion order. */
  type SpecifierMap = Entries<Target>

  /** A scope: the URL of its prefix and its own specifier map. */
  datatype Scope = Scope(prefix: Url, mapping: SpecifierMap)

  /** The constructed import map. `scopes` is a list rather than a keyed map: the
      source keys it by freshly built URL objects, so two scope keys that parse to
      the same URL still give two entries. */
  datatype ImportMap = ImportMap(baseURL: Url, imports: SpecifierMap, scopes: seq<Scope>)

  /** `ERR_INVALID_IMPORT_MAP` with its reason, or a `TypeError` the host raises
      when the validator touches `null` or calls `endsWith` on a non-string. */
  datatype BuildError = InvalidImportMap(reason: string) | TypeError

  const ImportsRequired := "top level key \"imports\" is required and must be a plain object"
  const ScopesRequired := "top level key \"scopes\" is required and must be a plain object"
  const KeysNonEmpty := "module specifier keys must be non-empty strings"
  const ValuesNonEmpty := "module specifier values must be non-empty strings"
  const TrailingSlash := "module specifier values for keys ending with / must also end with /"
  const ScopeKeysNonEmpty := "import map scopes keys must be non-empty strings"

  /** The reason given for a scope whose value is not an object. */
  function ScopeValueMessage(scope: string, kind: string): string {
    "scope values must be plain objects (" + scope + " is " + kind + ")"
  }

  /** Maps and scope lists whose keys are unique, as `SafeMap.set` keeps them. */
  predicate WellFormed(m: ImportMap) {
    && UniqueKeys(m.imports)
    && forall i :: 0 <= i < |m.scopes| ==> UniqueKeys(m.scopes[i].mapping)
  }

  function AsTarget(v: JsValue): Target {
    Unresolved(v)
  }

  /** The checks on one top-level `imports` entry, in the order they are made. */
  function ImportEntryError(key: string, value: JsValue): (r: Option<BuildError>)
    ensures r.None? <==>
      key != "" && value.Str? && value.s != "" && (EndsWithSlash(key) ==> EndsWithSlash(value.s))
    ensures r == Some(InvalidImportMap(KeysNonEmpty)) <==> key == ""
    ensures key != "" && !(value.Str? && value.s != "") ==> r == Some(InvalidImportMap(ValuesNonEmpty))
    ensures key != "" && value.Str? && value.s != "" && EndsWithSlash(key) && !EndsWithSlash(value.s) ==>
      r == Some(InvalidImportMap(TrailingSlash))
    ensures r.Some? ==> r.value.InvalidImportMap?
  {
    if key == "" then Some(InvalidImportMap(KeysNonEmpty))
    else if !Truthy(value) || !IsStringType(value) then Some(InvalidImportMap(ValuesNonEmpty))
    else if EndsWithSlash(key) && !EndsWithSlash(value.s) then Some(InvalidImportMap(TrailingSlash))
    else None
  }

  /** The only check on an entry inside a scope: the trailing-slash rule. Calling
      `endsWith` on a value that is not a string raises a `TypeError`. */
  function ScopeEntryError(key: string, value: JsValue): (r: Option<BuildError>)
    ensures r.None? <==> (EndsWithSlash(key) ==> value.Str? && EndsWithSlash(value.s))
    ensures r == Some(TypeError) <==> EndsWithSlash(key) && !value.Str?
    ensures r.Some? && r != Some(TypeError) ==> r == Some(InvalidImportMap(TrailingSlash))
  {
    if !EndsWithSlash(key) then None
    else if !value.Str? then Some(TypeError)
    else if !EndsWithSlash(value.s) then Some(InvalidImportMap(TrailingSlash))
    else None
  }

  /** Copy `entries` into `acc` with `set`, checking each entry with `check` first;
      the first entry that fails aborts the copy. */
  function Normalize(entries: Entries<JsValue>, acc: SpecifierMap,
                     check: (string, JsValue) -> Option<BuildError>): (r: Result<SpecifierMap, BuildError>)
    ensures r.Success? && UniqueKeys(acc) ==> UniqueKeys(r.value)
    decreases |entries|
  {
    if |entries| == 0 then Success(acc)
    else match check(entries[0].0, entries[0].1)
      case Some(e) => Failure(e)
      case None => Normalize(entries[1..], Set(acc, entries[0].0, AsTarget(entries[0].1)), check)
  }

  /** The copy succeeds exactly when every entry passes its check. */
  lemma {:induction false} NormalizeSucceedsIff(entries: Entries<JsValue>, acc: SpecifierMap,
                                                check: (string, JsValue) -> Option<BuildError>)
    ensures Normalize(entries, acc, check).Success?
      <==> forall i :: 0 <= i < |entries| ==> check(entries[i].0, entries[i].1).None?
    decreases |entries|
  {
    if |entries| > 0 && check(entries[0].0, entries[0].1).None? {
      var tail := entries[1..];
      NormalizeSucceedsIff(tail, Set(acc, entries[0].0, AsTarget(entries[0].1)), check);
      assert forall i :: 0 < i < |entries| ==> entries[i] == tail[i - 1];
    }
  }

  /** A failed copy reports the error of the first entry that fails its check. */
  lemma {:induction false} NormalizeFirstError(entries: Entries<JsValue>, acc: SpecifierMap,
                                               check: (string, JsValue) -> Option<BuildError>, i: nat)
    requires i < |entries| && check(entries[i].0, entries[i].1).Some?
    requires forall j :: 0 <= j < i ==> check(entries[j].0, entries[j].1).None?
    ensures Normalize(entries, acc, check) == Failure(check(entries[i].0, entries[i].1).value)
    decreases |entries|
  {
    if i > 0 {
      var tail := entries[1..];
      assert forall j :: 0 <= j < i - 1 ==> tail[j] == entries[j + 1];
      NormalizeFirstError(tail, Set(acc, entries[0].0, AsTarget(entries[0].1)), check, i - 1);
    }
  }

  /** On keys that are unique and new to `acc`, a successful copy appends the
      entries in their order, each value kept as the unresolved document value. */
  lemma {:induction false} NormalizeAppends(entries: Entries<JsValue>, acc: SpecifierMap,
                                            check: (string, JsValue) -> Option<BuildError>)
    requires UniqueKeys(entries)
    requires forall i, j :: 0 <= i < |acc| && 0 <= j < |entries| ==> acc[i].0 != entries[j].0
    requires Normalize(entries, acc, check).Success?
    ensures Normalize(entries, acc, check).value == acc + MapValues(entries, AsTarget)
    decreases |entries|
  {
    if |entries| > 0 {
      var k := entries[0].0;
      var t := AsTarget(entries[0].1);
      var acc' := acc + [(k, t)];
      var tail := entries[1..];
      NormalizeStep(entries, acc, check);
      DisjointStep(entries, acc);
      NormalizeAppends(tail, acc', check);
      var rest := MapValues(tail, AsTarget);
      var whole := MapValues(entries, AsTarget);
      assert whole == [(k, t)] + rest;
      AppendAssociative(acc, [(k, t)], rest);
    }
  }

  /** A first entry that passes its check and has a new key is appended. */
  lemma NormalizeStep(entries: Entries<JsValue>, acc: SpecifierMap,
                      check: (string, JsValue) -> Option<BuildError>)
    requires |entries| > 0
    requires forall i :: 0 <= i < |acc| ==> acc[i].0 != entries[0].0
    requires check(entries[0].0, entries[0].1).None?
    ensures Normalize(entries, acc, check)
      == Normalize(entries[1..], acc + [(entries[0].0, AsTarget(entries[0].1))], check)
  {
    assert !HasKey(acc, entries[0].0);
  }

  lemma DisjointStep(entries: Entries<JsValue>, acc: SpecifierMap)
    requires |entries| > 0
    requires UniqueKeys(entries)
    requires forall i, j :: 0 <= i < |acc| && 0 <= j < |entries| ==> acc[i].0 != entries[j].0
    ensures UniqueKeys(entries[1..])
    ensures forall i :: 0 <= i < |acc| ==> acc[i].0 != entries[0].0
    ensures var acc' := acc + [(entries[0].0, AsTarget(entries[0].1))];
      forall i, j :: 0 <= i < |acc'| && 0 <= j < |entries| - 1 ==> acc'[i].0 != entries[1..][j].0
  {
    var tail := entries[1..];
    var acc' := acc + [(entries[0].0, AsTarget(entries[0].1))];
    forall i, j | 0 <= i < |acc'| && 0 <= j < |tail| ensures acc'[i].0 != tail[j].0 {
      assert tail[j] == entries[j + 1];
      if i < |acc| { assert acc'[i] == acc[i]; }
    }
  }

  /** One scope: its key must be non-empty, its value a truthy object (arrays pass),
      and its entries pass the trailing-slash rule. */
  function NormalizeScope(key: string, value: JsValue): (r: Result<SpecifierMap, BuildError>)
    ensures r.Success? ==> UniqueKeys(r.value)
    ensures key == "" ==> r == Failure(InvalidImportMap(ScopeKeysNonEmpty))
    ensures key != "" && !(value.Obj? || value.Arr?) ==>
      r == Failure(InvalidImportMap(ScopeValueMessage(key, TypeOf(value))))
  {
    if key == "" then Failure(InvalidImportMap(ScopeKeysNonEmpty))
    else if !Truthy(value) || !IsObjectType(value) then
      Failure(InvalidImportMap(ScopeValueMessage(key, TypeOf(value))))
    else
      Normalize(OwnEntries(value), [], ScopeEntryError)
  }

  /** The scope stored under `key` in the document's `scopes` object, normalised. */
  function ScopeAt(key: string, scopes: JsValue): (r: Result<SpecifierMap, BuildError>)
    requires scopes.Obj?
    ensures r.Success? ==> UniqueKeys(r.value)
  {
    NormalizeScope(key, Property(scopes, key))
  }

  /** The scopes, visited in the given order: each is normalised and its key is
      resolved against the base URL; the first scope that fails aborts. */
  function NormalizeScopes(order: seq<string>, scopes: JsValue, base: Url, parse: Parser): (r: Result<seq<Scope>, BuildError>)
    requires scopes.Obj?
    ensures r.Success? ==> forall i :: 0 <= i < |r.value| ==> UniqueKeys(r.value[i].mapping)
  {
    if |order| == 0 then Success([])
    else
      var head := ScopeAt(order[0], scopes);
      if head.Failure? then Failure(head.error)
      else
        var rest := NormalizeScopes(order[1..], scopes, base, parse);
        if rest.Failure? then Failure(rest.error)
        else Success([Scope(parse(Str(order[0]), base), head.value)] + rest.value)
  }

  /** The scopes pass succeeds exactly when every scope does, and then holds one
      scope per key, in the given order, its prefix the key resolved against the base. */
  lemma {:induction false} NormalizeScopesContents(order: seq<string>, scopes: JsValue, base: Url, parse: Parser)
    requires scopes.Obj?
    ensures var r := NormalizeScopes(order, scopes, base, parse);
      r.Success? <==> forall i :: 0 <= i < |order| ==> ScopeAt(order[i], scopes).Success?
    ensures var r := NormalizeScopes(order, scopes, base, parse);
      r.Success? ==> |r.value| == |order| && forall i :: 0 <= i < |order| ==>
        r.value[i] == Scope(parse(Str(order[i]), base), ScopeAt(order[i], scopes).value)
  {
    if |order| > 0 {
      var tail := order[1..];
      NormalizeScopesContents(tail, scopes, base, parse);
      assert forall i :: 0 < i < |order| ==> order[i] == tail[i - 1];
    }
  }

  /** A failed scopes pass reports the error of the first failing scope. */
  lemma {:induction false} NormalizeScopesFirstError(order: seq<string>, scopes: JsValue, base: Url, parse: Parser, i: nat)
    requires scopes.Obj?
    requires i < |order| && ScopeAt(order[i], scopes).Failure?
    requires forall j :: 0 <= j < i ==> ScopeAt(order[j], scopes).Success?
    ensures NormalizeScopes(order, scopes, base, parse) == Failure(ScopeAt(order[i], scopes).error)
  {
    var e := ScopeAt(order[i], scopes).error;
    if i > 0 {
      var tail := order[1..];
      assert forall j :: 0 <= j < i - 1 ==> tail[j] == order[j + 1];
      assert tail[i - 1] == order[i];
      NormalizeScopesFirstError(tail, scopes, base, parse, i - 1);
      assert ScopeAt(order[0], scopes).Success?;
      assert NormalizeScopes(tail, scopes, base, parse) == Failure(e);
    } else {
      assert ScopeAt(order[0], scopes) == Failure(e);
    }
  }

  /** The scopes in the order construction visits them: `Object.keys(scopes).sort().reverse()`. */
  function ScopeOrder(scopes: JsValue): (order: seq<string>)
    requires scopes.Obj?
    ensures Descending(order)
    ensures multiset(order) == multiset(Keys(scopes.props))
  {
    SortDescending(Keys(scopes.props))
  }

  /** `new ImportMap(raw, baseURL)`: validate the decoded document `raw` and build
      the map, or fail with the first violated rule. */
  function Build(raw: JsValue, base: Url, parse: Parser): (r: Result<ImportMap, BuildError>)
    ensures r.Success? ==> r.value.baseURL == base && WellFormed(r.value)
    ensures raw.Null? || raw.Undefined? ==> r == Failure(TypeError)
    ensures !raw.Null? && !raw.Undefined? && !IsObjectNotArray(Property(raw, "imports")) ==>
      r == Failure(InvalidImportMap(ImportsRequired))
    ensures (!raw.Null? && !raw.Undefined? && IsObjectNotArray(Property(raw, "imports"))
      && !IsObjectNotArray(Property(raw, "scopes"))) ==> r == Failure(InvalidImportMap(ScopesRequired))
  {
    if raw.Null? || raw.Undefined? then Failure(TypeError)
    else BuildFrom(Property(raw, "imports"), Property(raw, "scopes"), base, parse)
  }

  /** Construction once `raw.imports` and `raw.scopes` have been read: the shape
      tests, the imports pass, then the scopes pass. */
  function BuildFrom(imports: JsValue, scopes: JsValue, base: Url, parse: Parser): (r: Result<ImportMap, BuildError>)
    ensures r.Success? ==> r.value.baseURL == base && WellFormed(r.value)
    ensures r.Success? ==> imports.Obj? && scopes.Obj?
    ensures IsObjectNotArray(scopes) && imports.Null? ==> r == Failure(TypeError)
    ensures imports.Obj? && scopes.Null? && Normalize(imports.props, [], ImportEntryError).Success? ==>
      r == Failure(TypeError)
  {
    if !IsObjectNotArray(imports) then Failure(InvalidImportMap(ImportsRequired))
    else if !IsObjectNotArray(scopes) then Failure(InvalidImportMap(ScopesRequired))
    else if imports.Null? then Failure(TypeError)
    else match Normalize(imports.props, [], ImportEntryError)
      case Failure(e) => Failure(e)
      case Success(importMap) =>
        if scopes.Null? then Failure(TypeError)
        else match NormalizeScopes(ScopeOrder(scopes), scopes, base, parse)
          case Failure(e) => Failure(e)
          case Success(scopeList) => Success(ImportMap(base, importMap, scopeList))
  }
}
