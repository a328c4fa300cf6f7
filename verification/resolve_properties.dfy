/** What resolution promises. The central fact is that memoisation is invisible:
    `Resolve` always returns what a memo-free reference lookup over the map's
    meaning returns, and it never changes that meaning. */
module ResolveProperties {
  import opened Wrappers
  import opened OrderedMaps
  import opened JsValues
  import opened Urls
  import opened ImportMaps
  import opened Resolution

  /** What a target means to resolution: nothing when it is falsy, otherwise the
      URL it stands for. A string and the URL memoised for it mean the same. */
  function Meaning(t: Target, base: Url, parse: Parser): Option<Url> {
    if IsTruthy(t) then Some(AsUrl(t, base, parse)) else None
  }

  datatype DenotedScope = DenotedScope(prefix: Url, mapping: Entries<Option<Url>>)

  /** An import map with every target replaced by its meaning. */
  datatype Denotation = Denotation(imports: Entries<Option<Url>>, scopes: seq<DenotedScope>)

  function DenoteMap(es: SpecifierMap, base: Url, parse: Parser): Entries<Option<Url>> {
    MapValues(es, t => Meaning(t, base, parse))
  }

  function DenoteScopes(scopes: seq<Scope>, base: Url, parse: Parser): (d: seq<DenotedScope>)
    ensures |d| == |scopes|
    ensures forall i :: 0 <= i < |scopes| ==>
      d[i] == DenotedScope(scopes[i].prefix, DenoteMap(scopes[i].mapping, base, parse))
  {
    if |scopes| == 0 then []
    else
      [DenotedScope(scopes[0].prefix, DenoteMap(scopes[0].mapping, base, parse))]
      + DenoteScopes(scopes[1..], base, parse)
  }

  function Denote(m: ImportMap, parse: Parser): Denotation {
    Denotation(DenoteMap(m.imports, m.baseURL, parse), DenoteScopes(m.scopes, m.baseURL, parse))
  }

  /** The meaning stored under `k`, `None` when absent or falsy. */
  function Lookup(es: Entries<Option<Url>>, k: string): Option<Url> {
    Get(es, k).GetOr(None)
  }

  /** Reference scope phase: walk the scopes in order and take the first whose
      path is a prefix of the parent's and which maps the specifier to a URL. */
  function ScopeTarget(scopes: seq<DenotedScope>, specifier: string, parent: Url): Option<Url> {
    if |scopes| == 0 then None
    else if StartsWith(parent.pathname, scopes[0].prefix.pathname) && Lookup(scopes[0].mapping, specifier).Some?
    then Lookup(scopes[0].mapping, specifier)
    else ScopeTarget(scopes[1..], specifier, parent)
  }

  /** Reference resolution, with no memoisation. */
  function Reference(d: Denotation, specifier: string, parent: Url): Resolution {
    var current := match ScopeTarget(d.scopes, specifier, parent)
      case Some(u) => Mapped(u)
      case None => Unmapped(specifier);
    match Lookup(d.imports, LookupKey(current))
    case Some(u) => Mapped(u)
    case None => current
  }

  lemma LookupDenoteMap(es: SpecifierMap, base: Url, parse: Parser, k: string)
    ensures Lookup(DenoteMap(es, base, parse), k)
      == if Get(es, k).Some? && IsTruthy(Get(es, k).value) then Some(AsUrl(Get(es, k).value, base, parse)) else None
  {
    GetMapValues(es, t => Meaning(t, base, parse), k);
  }

  /** The reference scope phase finds what `FirstScope` finds. */
  lemma {:induction false} ScopeTargetAgrees(scopes: seq<Scope>, specifier: string, parent: Url, base: Url, parse: Parser)
    ensures ScopeTarget(DenoteScopes(scopes, base, parse), specifier, parent)
      == match FirstScope(scopes, specifier, parent)
         case None => None
         case Some(i) => Some(AsUrl(Get(scopes[i].mapping, specifier).value, base, parse))
  {
    if |scopes| > 0 {
      var d := DenoteScopes(scopes, base, parse);
      LookupDenoteMap(scopes[0].mapping, base, parse, specifier);
      if !Applies(scopes[0], specifier, parent) {
        assert d[1..] == DenoteScopes(scopes[1..], base, parse);
        ScopeTargetAgrees(scopes[1..], specifier, parent, base, parse);
      }
    }
  }

  /** Memoising an entry with the URL it stands for keeps a map's meaning. */
  lemma MemoKeepsMeaning(es: SpecifierMap, k: string, base: Url, parse: Parser)
    requires Get(es, k).Some? && IsTruthy(Get(es, k).value)
    ensures DenoteMap(Set(es, k, Resolved(AsUrl(Get(es, k).value, base, parse))), base, parse)
      == DenoteMap(es, base, parse)
  {
    SetMapValues(es, t => Meaning(t, base, parse), k, Resolved(AsUrl(Get(es, k).value, base, parse)));
  }

  lemma DenoteScopesUpdate(scopes: seq<Scope>, i: nat, s: Scope, base: Url, parse: Parser)
    requires i < |scopes|
    requires s.prefix == scopes[i].prefix
    requires DenoteMap(s.mapping, base, parse) == DenoteMap(scopes[i].mapping, base, parse)
    ensures DenoteScopes(scopes[i := s], base, parse) == DenoteScopes(scopes, base, parse)
  {
    var a := DenoteScopes(scopes[i := s], base, parse);
    var b := DenoteScopes(scopes, base, parse);
    assert forall j :: 0 <= j < |a| ==> a[j] == b[j];
  }

  /** The scope phase returns what the reference scope phase finds, and keeps the
      meaning of the scopes. */
  lemma ScopePhaseAgrees(m: ImportMap, specifier: string, parent: Url, parse: Parser)
    ensures var (current, scopes) := ScopePhase(m, specifier, parent, parse);
      && current == (match ScopeTarget(DenoteScopes(m.scopes, m.baseURL, parse), specifier, parent)
                     case Some(u) => Mapped(u)
                     case None => Unmapped(specifier))
      && DenoteScopes(scopes, m.baseURL, parse) == DenoteScopes(m.scopes, m.baseURL, parse)
  {
    ScopeTargetAgrees(m.scopes, specifier, parent, m.baseURL, parse);
    match FirstScope(m.scopes, specifier, parent)
    case None =>
    case Some(i) =>
      var scope := m.scopes[i];
      var t := Get(scope.mapping, specifier).value;
      if !t.Resolved? {
        MemoKeepsMeaning(scope.mapping, specifier, m.baseURL, parse);
        var u := parse(t.raw, m.baseURL);
        DenoteScopesUpdate(m.scopes, i, scope.(mapping := Set(scope.mapping, specifier, Resolved(u))), m.baseURL, parse);
      }
  }

  /** Memoisation is invisible: `Resolve` answers what the memo-free reference
      answers on the map's meaning, and the map it hands back has the same meaning
      and the same base URL. */
  lemma ResolveAgreesWithReference(m: ImportMap, specifier: string, parent: Url, parse: Parser)
    ensures Resolve(m, specifier, parent, parse).0 == Reference(Denote(m, parse), specifier, parent)
    ensures Denote(Resolve(m, specifier, parent, parse).1, parse) == Denote(m, parse)
    ensures Resolve(m, specifier, parent, parse).1.baseURL == m.baseURL
  {
    ScopePhaseAgrees(m, specifier, parent, parse);
    var (current, scopes) := ScopePhase(m, specifier, parent, parse);
    var key := LookupKey(current);
    LookupDenoteMap(m.imports, m.baseURL, parse, key);
    var hit := Get(m.imports, key);
    if hit.Some? && IsTruthy(hit.value) && !hit.value.Resolved? {
      MemoKeepsMeaning(m.imports, key, m.baseURL, parse);
    }
  }

  /** Resolving never changes what any later resolution returns: after one call,
      every query, for any specifier and parent, gets the answer it would have got
      from the map as it was. */
  lemma MemoisationUnobservable(m: ImportMap, specifier: string, parent: Url, parse: Parser,
                                other: string, otherParent: Url)
    ensures var m' := Resolve(m, specifier, parent, parse).1;
      Resolve(m', other, otherParent, parse).0 == Resolve(m, other, otherParent, parse).0
  {
    var m' := Resolve(m, specifier, parent, parse).1;
    ResolveAgreesWithReference(m, specifier, parent, parse);
    ResolveAgreesWithReference(m', other, otherParent, parse);
    ResolveAgreesWithReference(m, other, otherParent, parse);
  }

  /** The scope phase memoises exactly the entry it used: that entry of the first
      applicable scope now holds the URL the specifier resolved to, against the base
      URL; every other entry of that scope, and every other scope, is unchanged. */
  lemma ScopePhaseMemoises(m: ImportMap, specifier: string, parent: Url, parse: Parser)
    ensures var scopes := Resolve(m, specifier, parent, parse).1.scopes;
      && |scopes| == |m.scopes|
      && match FirstScope(m.scopes, specifier, parent)
         case None => scopes == m.scopes
         case Some(i) =>
           && (forall j :: 0 <= j < |m.scopes| && j != i ==> scopes[j] == m.scopes[j])
           && scopes[i].prefix == m.scopes[i].prefix
           && Get(scopes[i].mapping, specifier)
              == Some(Resolved(AsUrl(Get(m.scopes[i].mapping, specifier).value, m.baseURL, parse)))
           && (forall k :: k != specifier ==> Get(scopes[i].mapping, k) == Get(m.scopes[i].mapping, k))
  {
    var scopes := Resolve(m, specifier, parent, parse).1.scopes;
    assert scopes == ScopePhase(m, specifier, parent, parse).1;
    match FirstScope(m.scopes, specifier, parent)
    case None =>
    case Some(i) =>
      var mapping := m.scopes[i].mapping;
      var t := Get(mapping, specifier).value;
      if t.Resolved? {
        assert scopes == m.scopes;
      } else {
        var u := AsUrl(t, m.baseURL, parse);
        assert scopes == m.scopes[i := m.scopes[i].(mapping := Set(mapping, specifier, Resolved(u)))];
      }
  }

  /** The top-level phase looks up the path of the URL the scope phase produced, or
      the specifier itself when no scope applied; a truthy entry there is memoised as
      the URL it resolves to against the base URL and returned, and no other
      top-level entry changes. Without such an entry, `imports` is left as it was. */
  lemma ImportsPhaseMemoises(m: ImportMap, specifier: string, parent: Url, parse: Parser)
    ensures var (r, m') := Resolve(m, specifier, parent, parse);
      var key := match FirstScope(m.scopes, specifier, parent)
        case None => specifier
        case Some(i) => AsUrl(Get(m.scopes[i].mapping, specifier).value, m.baseURL, parse).pathname;
      var hit := Get(m.imports, key);
      if hit.Some? && IsTruthy(hit.value) then
        && r == Mapped(AsUrl(hit.value, m.baseURL, parse))
        && Get(m'.imports, key) == Some(Resolved(AsUrl(hit.value, m.baseURL, parse)))
        && (forall k :: k != key ==> Get(m'.imports, k) == Get(m.imports, k))
        && |m'.imports| == |m.imports|
      else m'.imports == m.imports
  {
    var hit0 := Get(m.imports, LookupKey(ScopePhase(m, specifier, parent, parse).0));
    if hit0.Some? && hit0.value.Resolved? {
      SetExisting(m.imports, LookupKey(ScopePhase(m, specifier, parent, parse).0), hit0.value);
    }
  }

  /** The first applicable scope in stored order decides the scope phase; no later
      scope is consulted. Its target is resolved against the base URL, and the
      top-level map is then consulted with that URL's path. */
  lemma FirstApplicableScopeWins(m: ImportMap, specifier: string, parent: Url, parse: Parser, i: nat)
    requires i < |m.scopes| && Applies(m.scopes[i], specifier, parent)
    requires forall j :: 0 <= j < i ==> !Applies(m.scopes[j], specifier, parent)
    ensures var u := AsUrl(Get(m.scopes[i].mapping, specifier).value, m.baseURL, parse);
      var hit := Get(m.imports, u.pathname);
      Resolve(m, specifier, parent, parse).0 ==
        if hit.Some? && IsTruthy(hit.value) then Mapped(AsUrl(hit.value, m.baseURL, parse)) else Mapped(u)
  {
    assert FirstScope(m.scopes, specifier, parent) == Some(i);
  }

  /** A specifier comes back unchanged exactly when no scope applies and the
      top-level map has no truthy entry for it; the map is then left as it was. */
  lemma UnmappedIff(m: ImportMap, specifier: string, parent: Url, parse: Parser)
    ensures Resolve(m, specifier, parent, parse).0 == Unmapped(specifier) <==>
      && (forall j :: 0 <= j < |m.scopes| ==> !Applies(m.scopes[j], specifier, parent))
      && !(Get(m.imports, specifier).Some? && IsTruthy(Get(m.imports, specifier).value))
    ensures Resolve(m, specifier, parent, parse).0 == Unmapped(specifier) ==>
      Resolve(m, specifier, parent, parse).1 == m
  {
  }

  /** Running the scope phase again on the scopes it left behind gives the same
      answer and changes nothing. */
  lemma {:induction false} ScopePhaseStable(m: ImportMap, m': ImportMap, specifier: string, parent: Url, parse: Parser)
    requires m'.baseURL == m.baseURL
    requires m'.scopes == ScopePhase(m, specifier, parent, parse).1
    ensures ScopePhase(m', specifier, parent, parse) == (ScopePhase(m, specifier, parent, parse).0, m'.scopes)
  {
    ScopePhaseMemoises(m, specifier, parent, parse);
    assert Resolve(m, specifier, parent, parse).1.scopes == m'.scopes;
    var f := FirstScope(m.scopes, specifier, parent);
    var f' := FirstScope(m'.scopes, specifier, parent);
    if f.Some? {
      var i := f.value;
      assert Applies(m'.scopes[i], specifier, parent);
      assert forall j :: 0 <= j < i ==> m'.scopes[j] == m.scopes[j];
      assert f' == Some(i);
      var scope' := m'.scopes[i];
      SetExisting(scope'.mapping, specifier, Get(scope'.mapping, specifier).value);
    } else {
      assert m'.scopes == m.scopes;
    }
  }

  /** A second identical request returns the same answer and changes nothing more:
      after the first call, the entries it used are already URLs. */
  lemma ResolveTwice(m: ImportMap, specifier: string, parent: Url, parse: Parser)
    ensures var (r, m') := Resolve(m, specifier, parent, parse);
      Resolve(m', specifier, parent, parse) == (r, m')
  {
    var (r, m') := Resolve(m, specifier, parent, parse);
    assert m'.scopes == ScopePhase(m, specifier, parent, parse).1;
    ScopePhaseStable(m, m', specifier, parent, parse);
    ImportsPhaseMemoises(m, specifier, parent, parse);
    var current := ScopePhase(m, specifier, parent, parse).0;
    var key := LookupKey(current);
    var hit := Get(m.imports, key);
    if hit.Some? && IsTruthy(hit.value) {
      var u := AsUrl(hit.value, m.baseURL, parse);
      assert r == Mapped(u) && Get(m'.imports, key) == Some(Resolved(u));
      SetExisting(m'.imports, key, Resolved(u));
      assert Resolve(m', specifier, parent, parse) == (Mapped(u), m'.(scopes := m'.scopes));
    } else {
      assert r == current && m' == m.(scopes := m'.scopes);
      assert Resolve(m', specifier, parent, parse) == (current, m'.(scopes := m'.scopes));
    }
  }
}
