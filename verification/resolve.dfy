/** Resolution of a specifier through a constructed import map
    (lib/internal/modules/esm/import_map.js, `ImportMap.resolve`): the scope phase,
    the top-level phase, and the memoisation of string targets into URLs. The map is
    threaded through: `Resolve` returns the result together with the updated map. */
module Resolution {
  import opened Wrappers
  import opened OrderedMaps
  import opened JsValues
  import opened Urls
  import opened ImportMaps

  /** What `resolve` returns: a URL, or the specifier itself when nothing mapped it. */
  datatype Resolution = Mapped(url: Url) | Unmapped(specifier: string)

  /** The truthiness test on a looked-up target; a URL object is always truthy. */
  predicate IsTruthy(t: Target) {
    t.Resolved? || Truthy(t.raw)
  }

  /** The URL a target stands for: the memoised URL, or the target resolved
      against the map's base URL (never against the scope). */
  function AsUrl(t: Target, base: Url, parse: Parser): Url {
    match t
    case Resolved(u) => u
    case Unresolved(v) => parse(v, base)
  }

  /** A scope applies to a request when the parent's path starts with the scope's
      path and the scope has a truthy entry for the specifier. */
  predicate Applies(scope: Scope, specifier: string, parent: Url) {
    && StartsWith(parent.pathname, scope.prefix.pathname)
    && Get(scope.mapping, specifier).Some?
    && IsTruthy(Get(scope.mapping, specifier).value)
  }

  /** The position of the first scope, in stored order, that applies. */
  function FirstScope(scopes: seq<Scope>, specifier: string, parent: Url): (r: Option<nat>)
    ensures r.Some? ==> r.value < |scopes| && Applies(scopes[r.value], specifier, parent)
    ensures r.Some? ==> forall j :: 0 <= j < r.value ==> !Applies(scopes[j], specifier, parent)
    ensures r.None? <==> forall j :: 0 <= j < |scopes| ==> !Applies(scopes[j], specifier, parent)
  {
    if |scopes| == 0 then None
    else if Applies(scopes[0], specifier, parent) then Some(0)
    else match FirstScope(scopes[1..], specifier, parent)
      case None =>
        assert forall j :: 1 <= j < |scopes| ==> scopes[j] == scopes[1..][j - 1];
        None
      case Some(i) =>
        assert forall j :: 1 <= j < |scopes| ==> scopes[j] == scopes[1..][j - 1];
        Some(i + 1)
  }

  /** The scope phase: the specifier as it stands afterwards, and the scopes with
      the used entry memoised. */
  function ScopePhase(m: ImportMap, specifier: string, parent: Url, parse: Parser): (r: (Resolution, seq<Scope>))
    ensures |r.1| == |m.scopes|
  {
    match FirstScope(m.scopes, specifier, parent)
    case None => (Unmapped(specifier), m.scopes)
    case Some(i) =>
      var scope := m.scopes[i];
      var t := Get(scope.mapping, specifier).value;
      if t.Resolved? then (Mapped(t.url), m.scopes)
      else
        var u := parse(t.raw, m.baseURL);
        (Mapped(u), m.scopes[i := scope.(mapping := Set(scope.mapping, specifier, Resolved(u)))])
  }

  /** The key the top-level phase looks up: the path of a URL, else the string. */
  function LookupKey(r: Resolution): string {
    match r
    case Mapped(u) => u.pathname
    case Unmapped(s) => s
  }

  /** `importMap.resolve(specifier, parentURL)`. */
  function Resolve(m: ImportMap, specifier: string, parent: Url, parse: Parser): (r: (Resolution, ImportMap))
    ensures r.1.baseURL == m.baseURL
    ensures |r.1.imports| == |m.imports| && |r.1.scopes| == |m.scopes|
    ensures r.0.Unmapped? ==> r.0.specifier == specifier && r.1 == m
  {
    var (current, scopes) := ScopePhase(m, specifier, parent, parse);
    var key := LookupKey(current);
    var hit := Get(m.imports, key);
    if hit.Some? && IsTruthy(hit.value) then
      var t := hit.value;
      if t.Resolved? then (Mapped(t.url), m.(scopes := scopes))
      else
        var u := parse(t.raw, m.baseURL);
        (Mapped(u), m.(scopes := scopes, imports := Set(m.imports, key, Resolved(u))))
    else (current, m.(scopes := scopes))
  }

  /** `importMap.resolve(specifier)`: the parent defaults to the base URL. */
  function ResolveFromBase(m: ImportMap, specifier: string, parse: Parser): (Resolution, ImportMap)
  {
    Resolve(m, specifier, m.baseURL, parse)
  }
}
