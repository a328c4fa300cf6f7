/** Worked cases after the import-map tests (test/es-module/test-importmap.mjs).
    The fixture files themselves are not part of this model: each document below is
    one that fits what its test asserts. The URL parser stays a parameter; where an
    outcome depends on a URL path, the fact it needs is stated as a precondition. */
module Examples {
  import opened Wrappers
  import opened JsValues
  import opened Urls
  import opened ImportMaps
  import opened Resolution

  function Document(imports: JsValue, scopes: JsValue): JsValue {
    Obj([("imports", imports), ("scopes", scopes)])
  }

  /** The `scopes` of the `simple` document. */
  const SimpleScopesObject := Obj([("./node_modules/foo", Obj([("bar", Str("./baz.mjs"))]))])

  /** A document with the contents the `simple` test expects. */
  const Simple := Document(Obj([("foo", Str("./node_modules/foo/index.mjs"))]), SimpleScopesObject)

  /** A document with no entries, as in the `empty` test. */
  const Empty := Document(Obj([]), Obj([]))

  function SimpleMap(base: Url, parse: Parser): ImportMap {
    ImportMap(base,
      [("foo", Unresolved(Str("./node_modules/foo/index.mjs")))],
      [Scope(parse(Str("./node_modules/foo"), base), [("bar", Unresolved(Str("./baz.mjs")))])])
  }

  /** The `simple` document builds to one import and one scope, values unresolved. */
  lemma SimpleBuilds(base: Url, parse: Parser)
    ensures Build(Simple, base, parse) == Success(SimpleMap(base, parse))
  {
    var imports := Obj([("foo", Str("./node_modules/foo/index.mjs"))]);
    var scopes := SimpleScopesObject;
    assert Property(Simple, "imports") == imports;
    assert Property(Simple, "scopes") == scopes;
    SimpleImports(base, parse);
    SimpleScopes(base, parse);
    assert Build(Simple, base, parse) == BuildFrom(imports, scopes, base, parse);
  }

  /** Its one top-level entry passes and is copied. */
  lemma SimpleImports(base: Url, parse: Parser)
    ensures Normalize([("foo", Str("./node_modules/foo/index.mjs"))], [], ImportEntryError)
      == Success(SimpleMap(base, parse).imports)
  {
    var entries := [("foo", Str("./node_modules/foo/index.mjs"))];
    assert ImportEntryError("foo", Str("./node_modules/foo/index.mjs")) == None;
    assert OrderedMaps.Set([], "foo", AsTarget(Str("./node_modules/foo/index.mjs"))) == SimpleMap(base, parse).imports;
    assert entries[1..] == [];
  }

  /** Its one scope passes and is stored under the resolved key. */
  lemma SimpleScopes(base: Url, parse: Parser)
    ensures NormalizeScopes(ScopeOrder(SimpleScopesObject), SimpleScopesObject, base, parse)
      == Success(SimpleMap(base, parse).scopes)
  {
    var scopes := SimpleScopesObject;
    var order: seq<string> := ["./node_modules/foo"];
    SimpleScopeOrder();
    SimpleScopeAt();
    assert order[1..] == [];
    assert NormalizeScopes(order[1..], scopes, base, parse) == Success([]);
    assert SimpleMap(base, parse).scopes == [Scope(parse(Str(order[0]), base), ScopeAt(order[0], scopes).value)] + [];
  }

  /** A single key is its own order. */
  lemma SimpleScopeOrder()
    ensures ScopeOrder(SimpleScopesObject) == ["./node_modules/foo"]
  {
    StringOrder.DescendingUnique(ScopeOrder(SimpleScopesObject), ["./node_modules/foo"]);
  }

  /** The scope's entry `bar` has no trailing slash, so it passes as it is. */
  lemma SimpleScopeAt()
    ensures ScopeAt("./node_modules/foo", SimpleScopesObject) == Success([("bar", Unresolved(Str("./baz.mjs")))])
  {
    var inner := Obj([("bar", Str("./baz.mjs"))]);
    assert Property(SimpleScopesObject, "./node_modules/foo") == inner;
    assert ScopeEntryError("bar", Str("./baz.mjs")) == None;
    assert inner.props[1..] == [];
    assert OrderedMaps.Set([], "bar", AsTarget(Str("./baz.mjs"))) == [("bar", Unresolved(Str("./baz.mjs")))];
    assert Normalize(inner.props, [], ScopeEntryError) == Success([("bar", Unresolved(Str("./baz.mjs")))]);
  }

  /** `resolve('foo')` gives the top-level target resolved against the base URL. */
  lemma SimpleResolvesFoo(base: Url, parse: Parser)
    ensures ResolveFromBase(SimpleMap(base, parse), "foo", parse).0
      == Mapped(parse(Str("./node_modules/foo/index.mjs"), base))
  {
  }

  /** `resolve('bar', parent)` from inside the scope gives the scope's target,
      resolved against the base URL. */
  lemma SimpleResolvesBarInScope(base: Url, parse: Parser, parent: Url)
    requires StartsWith(parent.pathname, parse(Str("./node_modules/foo"), base).pathname)
    requires parse(Str("./baz.mjs"), base).pathname != "foo"
    ensures Resolve(SimpleMap(base, parse), "bar", parent, parse).0 == Mapped(parse(Str("./baz.mjs"), base))
  {
  }

  /** `resolve('bar')` from the base URL, outside the scope, is unmapped. */
  lemma SimpleLeavesBarOutsideScope(base: Url, parse: Parser)
    requires !StartsWith(base.pathname, parse(Str("./node_modules/foo"), base).pathname)
    ensures ResolveFromBase(SimpleMap(base, parse), "bar", parse).0 == Unmapped("bar")
  {
  }

  /** The `empty` document builds to an empty map, which leaves `test` unmapped. */
  lemma EmptyLeavesSpecifier(base: Url, parse: Parser)
    ensures Build(Empty, base, parse) == Success(ImportMap(base, [], []))
    ensures ResolveFromBase(ImportMap(base, [], []), "test", parse) == (Unmapped("test"), ImportMap(base, [], []))
  {
    assert Property(Empty, "imports") == Obj([]);
    assert Property(Empty, "scopes") == Obj([]);
    assert ScopeOrder(Obj([])) == [];
  }

  /** A document without `imports`, one without `scopes`, and one whose `imports`
      is an array are rejected with the messages the `invalid`, `missing-scopes`
      and `array-imports` tests expect. */
  lemma InvalidDocumentsRejected(base: Url, parse: Parser)
    ensures Build(Obj([("scopes", Obj([]))]), base, parse) == Failure(InvalidImportMap(ImportsRequired))
    ensures Build(Obj([("imports", Obj([]))]), base, parse) == Failure(InvalidImportMap(ScopesRequired))
    ensures Build(Document(Arr([]), Obj([])), base, parse) == Failure(InvalidImportMap(ImportsRequired))
  {
  }

  /** A key ending in `/` needs a value ending in `/`. */
  lemma TrailingSlashRule(base: Url, parse: Parser)
    ensures Build(Document(Obj([("a/", Str("b"))]), Obj([])), base, parse) == Failure(InvalidImportMap(TrailingSlash))
    ensures Build(Document(Obj([("a/", Str("b/"))]), Obj([])), base, parse).Success?
  {
    var bad := Document(Obj([("a/", Str("b"))]), Obj([]));
    assert Property(bad, "imports") == Obj([("a/", Str("b"))]);
    assert Property(bad, "scopes") == Obj([]);
    assert ImportEntryError("a/", Str("b")) == Some(InvalidImportMap(TrailingSlash));
    var good := Document(Obj([("a/", Str("b/"))]), Obj([]));
    assert Property(good, "imports") == Obj([("a/", Str("b/"))]);
    assert Property(good, "scopes") == Obj([]);
    assert ImportEntryError("a/", Str("b/")) == None;
    assert ScopeOrder(Obj([])) == [];
  }

  /** Two nested scopes that both map `x`: `/a/` to `a` and `/a/b/` to `b`. */
  function NestedScopesObject(a: string, b: string): JsValue {
    Obj([("/a/", Obj([("x", Str(a))])), ("/a/b/", Obj([("x", Str(b))]))])
  }

  function Nested(a: string, b: string): JsValue {
    Document(Obj([]), NestedScopesObject(a, b))
  }

  function NestedMap(base: Url, parse: Parser, a: string, b: string): ImportMap {
    ImportMap(base, [],
      [Scope(parse(Str("/a/b/"), base), [("x", Unresolved(Str(b)))]),
       Scope(parse(Str("/a/"), base), [("x", Unresolved(Str(a)))])])
  }

  /** Of the scope keys `/a/` and `/a/b/`, the longer one is visited first. */
  lemma NestedScopesOrdered(a: string, b: string)
    ensures ScopeOrder(NestedScopesObject(a, b)) == ["/a/b/", "/a/"]
  {
    var scopes := NestedScopesObject(a, b);
    var expected: seq<string> := ["/a/b/", "/a/"];
    assert OrderedMaps.Keys(scopes.props) == ["/a/", "/a/b/"];
    assert multiset(OrderedMaps.Keys(scopes.props)) == multiset(expected);
    assert StringOrder.Below("/a/", "/a/b/") by {
      assert "/a/"[1..] == "a/" && "/a/b/"[1..] == "a/b/";
      assert "a/"[1..] == "/" && "a/b/"[1..] == "/b/";
      assert "/"[1..] == "" && "/b/"[1..] == "b/";
    }
    assert StringOrder.Descending(expected);
    StringOrder.DescendingUnique(ScopeOrder(scopes), expected);
  }

  /** A scope whose one entry `x` has no trailing slash stores it as it is. */
  lemma SingleEntryScope(key: string, v: JsValue)
    requires key != ""
    ensures NormalizeScope(key, Obj([("x", v)])) == Success([("x", Unresolved(v))])
  {
    var props := [("x", v)];
    assert OwnEntries(Obj(props)) == props;
    assert ScopeEntryError("x", v) == None;
    assert props[1..] == [];
    assert OrderedMaps.Set([], "x", AsTarget(v)) == [("x", Unresolved(v))];
    assert Normalize(props, [], ScopeEntryError) == Success([("x", Unresolved(v))]);
  }

  /** Both scopes store `x` as it is. */
  lemma NestedScopesAt(a: string, b: string)
    ensures ScopeAt("/a/b/", NestedScopesObject(a, b)) == Success([("x", Unresolved(Str(b)))])
    ensures ScopeAt("/a/", NestedScopesObject(a, b)) == Success([("x", Unresolved(Str(a)))])
  {
    var scopes := NestedScopesObject(a, b);
    assert OrderedMaps.IndexOf(scopes.props, "/a/b/") == Some(1);
    assert OrderedMaps.IndexOf(scopes.props, "/a/") == Some(0);
    SingleEntryScope("/a/b/", Str(b));
    SingleEntryScope("/a/", Str(a));
  }

  /** Visited longer key first, both scopes are stored in that order. */
  lemma NestedScopesInOrder(base: Url, parse: Parser, a: string, b: string)
    ensures NormalizeScopes(["/a/b/", "/a/"], NestedScopesObject(a, b), base, parse)
      == Success(NestedMap(base, parse, a, b).scopes)
  {
    var scopes := NestedScopesObject(a, b);
    var order: seq<string> := ["/a/b/", "/a/"];
    var expected := NestedMap(base, parse, a, b).scopes;
    NestedScopesAt(a, b);
    NormalizeScopesContents(order, scopes, base, parse);
    var r := NormalizeScopes(order, scopes, base, parse);
    assert r.Success?;
    assert r.value[0] == expected[0];
    assert r.value[1] == expected[1];
    assert |r.value| == |expected|;
    assert r.value == expected;
  }

  /** The scopes pass visits `/a/b/` first and stores it first. */
  lemma NestedScopes(base: Url, parse: Parser, a: string, b: string)
    ensures NormalizeScopes(ScopeOrder(NestedScopesObject(a, b)), NestedScopesObject(a, b), base, parse)
      == Success(NestedMap(base, parse, a, b).scopes)
  {
    NestedScopesOrdered(a, b);
    NestedScopesInOrder(base, parse, a, b);
  }

  /** Both scopes are stored, the longer key first. */
  lemma NestedBuilds(base: Url, parse: Parser, a: string, b: string)
    ensures Build(Nested(a, b), base, parse) == Success(NestedMap(base, parse, a, b))
  {
    var scopes := NestedScopesObject(a, b);
    var doc := Nested(a, b);
    assert OrderedMaps.IndexOf(doc.props, "imports") == Some(0);
    assert OrderedMaps.IndexOf(doc.props, "scopes") == Some(1);
    assert Property(doc, "imports") == Obj([]);
    assert Property(doc, "scopes") == scopes;
    NestedScopes(base, parse, a, b);
    assert Build(Nested(a, b), base, parse) == BuildFrom(Obj([]), scopes, base, parse);
  }

  /** From a parent inside `/a/b/`, the first stored scope applies and gives `b`. */
  lemma NestedResolvesInner(base: Url, parse: Parser, parent: Url, a: string, b: string)
    requires b != ""
    requires StartsWith(parent.pathname, parse(Str("/a/b/"), base).pathname)
    ensures Resolve(NestedMap(base, parse, a, b), "x", parent, parse).0 == Mapped(parse(Str(b), base))
  {
    var m := NestedMap(base, parse, a, b);
    assert OrderedMaps.Get(m.scopes[0].mapping, "x") == Some(Unresolved(Str(b)));
    assert Applies(m.scopes[0], "x", parent);
    assert FirstScope(m.scopes, "x", parent) == Some(0);
    assert ScopePhase(m, "x", parent, parse).0 == Mapped(parse(Str(b), base));
  }

  /** Both scopes map `x`, but a parent inside `/a/b/` takes it from the more
      specific scope `/a/b/`, which the built map holds first. */
  lemma NestedScopesConsulted(base: Url, parse: Parser, parent: Url, a: string, b: string, m: ImportMap)
    requires b != ""
    requires Build(Nested(a, b), base, parse) == Success(m)
    requires StartsWith(parent.pathname, parse(Str("/a/b/"), base).pathname)
    ensures |m.scopes| == 2
    ensures m.scopes[0] == Scope(parse(Str("/a/b/"), base), [("x", Unresolved(Str(b)))])
    ensures m.scopes[1] == Scope(parse(Str("/a/"), base), [("x", Unresolved(Str(a)))])
    ensures Resolve(m, "x", parent, parse).0 == Mapped(parse(Str(b), base))
  {
    NestedBuilds(base, parse, a, b);
    NestedResolvesInner(base, parse, parent, a, b);
  }
}
