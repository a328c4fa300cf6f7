/** What construction promises: which documents it accepts, what it reports for the
    ones it rejects, and what the accepted ones become. */
module BuildProperties {
  import opened Wrappers
  import opened OrderedMaps
  import opened JsValues
  import opened Urls
  import opened StringOrder
  import opened ImportMaps

  /** Every top-level entry passes the key, value and trailing-slash checks. */
  predicate ImportsValid(imports: JsValue)
    requires imports.Obj?
  {
    forall i :: 0 <= i < |imports.props| ==> ImportEntryError(imports.props[i].0, imports.props[i].1).None?
  }

  /** Every scope of the document passes its checks. */
  predicate ScopesValid(scopes: JsValue)
    requires scopes.Obj?
  {
    forall i :: 0 <= i < |scopes.props| ==> ScopeAt(scopes.props[i].0, scopes).Success?
  }

  /** Every scope passes exactly when every scope in visiting order passes. */
  lemma ScopesValidInOrder(scopes: JsValue)
    requires scopes.Obj?
    ensures ScopesValid(scopes) <==>
      forall i :: 0 <= i < |ScopeOrder(scopes)| ==> ScopeAt(ScopeOrder(scopes)[i], scopes).Success?
  {
    var keys := Keys(scopes.props);
    var order := ScopeOrder(scopes);
    SameElements(order, keys);
    if ScopesValid(scopes) {
      forall i | 0 <= i < |order| ensures ScopeAt(order[i], scopes).Success? {
        var j :| 0 <= j < |keys| && keys[j] == order[i];
        assert ScopeAt(scopes.props[j].0, scopes).Success?;
      }
    } else {
      var j :| 0 <= j < |scopes.props| && !ScopeAt(scopes.props[j].0, scopes).Success?;
      var i :| 0 <= i < |order| && order[i] == keys[j];
    }
  }

  /** A document is accepted exactly when it is an object whose `imports` and
      `scopes` are objects, every top-level entry is valid and every scope is valid;
      the order in which scopes are visited does not affect acceptance. */
  lemma BuildSucceedsIff(raw: JsValue, base: Url, parse: Parser)
    ensures Build(raw, base, parse).Success? <==>
      && raw.Obj?
      && Property(raw, "imports").Obj? && Property(raw, "scopes").Obj?
      && ImportsValid(Property(raw, "imports"))
      && ScopesValid(Property(raw, "scopes"))
  {
    if !raw.Null? && !raw.Undefined? {
      var imports, scopes := Property(raw, "imports"), Property(raw, "scopes");
      assert Build(raw, base, parse) == BuildFrom(imports, scopes, base, parse);
      if imports.Obj? && scopes.Obj? {
        NormalizeSucceedsIff(imports.props, [], ImportEntryError);
        NormalizeScopesContents(ScopeOrder(scopes), scopes, base, parse);
        ScopesValidInOrder(scopes);
      }
    }
  }

  /** A document whose `imports` is missing, not an object or an array is rejected
      with the `imports` message, whatever its `scopes` holds. */
  lemma ImportsCheckedFirst(raw: JsValue, base: Url, parse: Parser)
    requires raw.Obj?
    requires !Property(raw, "imports").Null? && !Property(raw, "imports").Obj?
    ensures Build(raw, base, parse) == Failure(InvalidImportMap(ImportsRequired))
  {
  }

  /** With a well-shaped document, the error reported is that of the first
      top-level entry that fails its checks, before any scope is looked at. */
  lemma BuildReportsFirstBadImport(raw: JsValue, base: Url, parse: Parser, i: nat)
    requires raw.Obj? && Property(raw, "imports").Obj?
    requires IsObjectNotArray(Property(raw, "scopes"))
    requires var es := Property(raw, "imports").props;
      && i < |es| && ImportEntryError(es[i].0, es[i].1).Some?
      && forall j :: 0 <= j < i ==> ImportEntryError(es[j].0, es[j].1).None?
    ensures var es := Property(raw, "imports").props;
      Build(raw, base, parse) == Failure(ImportEntryError(es[i].0, es[i].1).value)
  {
    var imports, scopes := Property(raw, "imports"), Property(raw, "scopes");
    assert Build(raw, base, parse) == BuildFrom(imports, scopes, base, parse);
    NormalizeFirstError(imports.props, [], ImportEntryError, i);
  }

  /** On success `imports` holds the document's top-level entries in enumeration
      order, each value still the unresolved, non-empty string of the document. */
  lemma BuildCopiesImports(raw: JsValue, base: Url, parse: Parser)
    requires Build(raw, base, parse).Success?
    requires UniqueKeys(Property(raw, "imports").props)
    ensures var m := Build(raw, base, parse).value;
      && m.imports == MapValues(Property(raw, "imports").props, AsTarget)
      && forall i :: 0 <= i < |m.imports| ==>
        m.imports[i].1.Unresolved? && m.imports[i].1.raw.Str? && m.imports[i].1.raw.s != ""
  {
    BuildImportsNormalized(raw, base, parse);
    var es := Property(raw, "imports").props;
    NormalizeSucceedsIff(es, [], ImportEntryError);
    ValidImportsCopy(es);
    ValidImportTargets(es);
  }

  /** Valid entries with unique keys are copied as they are. */
  lemma {:induction false} ValidImportsCopy(es: Entries<JsValue>)
    requires UniqueKeys(es)
    requires forall i :: 0 <= i < |es| ==> ImportEntryError(es[i].0, es[i].1).None?
    ensures Normalize(es, [], ImportEntryError) == Success(MapValues(es, AsTarget))
  {
    var empty: SpecifierMap := [];
    NormalizeSucceedsIff(es, empty, ImportEntryError);
    var r := Normalize(es, empty, ImportEntryError);
    assert r.Success?;
    NormalizeAppends(es, empty, ImportEntryError);
    assert r.value == empty + MapValues(es, AsTarget);
    assert empty + MapValues(es, AsTarget) == MapValues(es, AsTarget);
  }

  /** The values of valid entries are non-empty strings. */
  lemma ValidImportTargets(es: Entries<JsValue>)
    requires forall i :: 0 <= i < |es| ==> ImportEntryError(es[i].0, es[i].1).None?
    ensures var ts := MapValues(es, AsTarget);
      forall i :: 0 <= i < |ts| ==> ts[i].1.Unresolved? && ts[i].1.raw.Str? && ts[i].1.raw.s != ""
  {
    var ts := MapValues(es, AsTarget);
    forall i | 0 <= i < |ts| ensures ts[i].1.Unresolved? && ts[i].1.raw.Str? && ts[i].1.raw.s != "" {
      assert ImportEntryError(es[i].0, es[i].1).None?;
    }
  }

  /** On success `imports` is what copying the document's top-level entries gave. */
  lemma BuildImportsNormalized(raw: JsValue, base: Url, parse: Parser)
    requires Build(raw, base, parse).Success?
    ensures Property(raw, "imports").Obj?
    ensures Normalize(Property(raw, "imports").props, [], ImportEntryError)
      == Success(Build(raw, base, parse).value.imports)
  {
    var imports, scopes := Property(raw, "imports"), Property(raw, "scopes");
    assert Build(raw, base, parse) == BuildFrom(imports, scopes, base, parse);
  }

  /** On success there is one scope per key of the document's `scopes`, none dropped
      and none repeated, stored in descending order of the keys: for any descending
      arrangement of the keys, the i-th stored scope is the i-th key resolved against
      the base URL together with that key's normalised specifier map. */
  lemma BuildOrdersScopes(raw: JsValue, base: Url, parse: Parser, order: seq<string>)
    requires Build(raw, base, parse).Success?
    requires Descending(order)
    requires multiset(order) == multiset(Keys(Property(raw, "scopes").props))
    ensures var m := Build(raw, base, parse).value;
      var scopes := Property(raw, "scopes");
      && |m.scopes| == |order| == |scopes.props|
      && forall i :: 0 <= i < |order| ==>
        && ScopeAt(order[i], scopes).Success?
        && m.scopes[i] == Scope(parse(Str(order[i]), base), ScopeAt(order[i], scopes).value)
  {
    var imports, scopes := Property(raw, "imports"), Property(raw, "scopes");
    assert Build(raw, base, parse) == BuildFrom(imports, scopes, base, parse);
    var keys := Keys(scopes.props);
    DescendingUnique(order, ScopeOrder(scopes));
    assert |order| == |keys| by {
      assert |multiset(order)| == |multiset(keys)|;
    }
    NormalizeScopesContents(order, scopes, base, parse);
  }

  /** With valid imports, the error reported for the scopes is that of the first
      failing scope in descending key order. */
  lemma BuildReportsFirstBadScope(raw: JsValue, base: Url, parse: Parser, i: nat)
    requires raw.Obj? && Property(raw, "imports").Obj? && Property(raw, "scopes").Obj?
    requires ImportsValid(Property(raw, "imports"))
    requires var order := ScopeOrder(Property(raw, "scopes"));
      && i < |order| && ScopeAt(order[i], Property(raw, "scopes")).Failure?
      && forall j :: 0 <= j < i ==> ScopeAt(order[j], Property(raw, "scopes")).Success?
    ensures Build(raw, base, parse)
      == Failure(ScopeAt(ScopeOrder(Property(raw, "scopes"))[i], Property(raw, "scopes")).error)
  {
    var imports, scopes := Property(raw, "imports"), Property(raw, "scopes");
    assert Build(raw, base, parse) == BuildFrom(imports, scopes, base, parse);
    NormalizeSucceedsIff(imports.props, [], ImportEntryError);
    NormalizeScopesFirstError(ScopeOrder(scopes), scopes, base, parse, i);
  }

  /** A document with an empty scope key is rejected. */
  lemma EmptyScopeKeyRejected(raw: JsValue, base: Url, parse: Parser)
    requires raw.Obj? && Property(raw, "scopes").Obj?
    requires HasKey(Property(raw, "scopes").props, "")
    ensures Build(raw, base, parse).Failure?
  {
    BuildSucceedsIff(raw, base, parse);
    var props := Property(raw, "scopes").props;
    var i :| 0 <= i < |props| && props[i].0 == "";
    assert ScopeAt(props[i].0, Property(raw, "scopes")).Failure?;
  }

  /** A `null` scope value is rejected with the message for a non-object scope,
      naming `typeof null`, which is "object". */
  lemma NullScopeRejected(key: string)
    requires key != ""
    ensures NormalizeScope(key, Null) == Failure(InvalidImportMap(ScopeValueMessage(key, "object")))
  {
  }

  /** Entries inside a scope are held only to the trailing-slash rule: a scope
      object is accepted exactly when each key ending in `/` has a string value
      ending in `/`. Empty keys and empty or non-string values are let through. */
  lemma ScopeEntriesOnlyTrailingSlash(key: string, props: Entries<JsValue>)
    requires key != ""
    ensures NormalizeScope(key, Obj(props)).Success? <==>
      forall i :: 0 <= i < |props| && EndsWithSlash(props[i].0) ==>
        props[i].1.Str? && EndsWithSlash(props[i].1.s)
  {
    assert OwnEntries(Obj(props)) == props;
    NormalizeSucceedsIff(props, [], ScopeEntryError);
  }

  /** A scope that fails its entries reports the first entry, in enumeration order,
      whose key ends in `/` while its value is not a string ending in `/`: a
      `TypeError` when the value is not a string (`endsWith` is missing), the
      trailing-slash message otherwise. */
  lemma ScopeReportsFirstBadEntry(key: string, props: Entries<JsValue>, i: nat)
    requires key != ""
    requires i < |props| && EndsWithSlash(props[i].0)
    requires !(props[i].1.Str? && EndsWithSlash(props[i].1.s))
    requires forall j :: 0 <= j < i ==>
      EndsWithSlash(props[j].0) ==> props[j].1.Str? && EndsWithSlash(props[j].1.s)
    ensures NormalizeScope(key, Obj(props))
      == Failure(if props[i].1.Str? then InvalidImportMap(TrailingSlash) else TypeError)
  {
    assert OwnEntries(Obj(props)) == props;
    NormalizeFirstError(props, [], ScopeEntryError, i);
  }

  /** An object scope with unique keys is stored as its own entries, in
      enumeration order, each value kept as it is, unresolved. */
  lemma ObjectScopeCopied(key: string, props: Entries<JsValue>)
    requires key != "" && UniqueKeys(props)
    requires NormalizeScope(key, Obj(props)).Success?
    ensures NormalizeScope(key, Obj(props)).value == MapValues(props, AsTarget)
  {
    var empty: SpecifierMap := [];
    assert OwnEntries(Obj(props)) == props;
    assert NormalizeScope(key, Obj(props)) == Normalize(props, empty, ScopeEntryError);
    NormalizeAppends(props, empty, ScopeEntryError);
    assert empty + MapValues(props, AsTarget) == MapValues(props, AsTarget);
  }

  /** The value normalised for a scope key is the one the document stores under it. */
  lemma ScopeAtReadsValue(key: string, scopes: JsValue, i: nat)
    requires scopes.Obj? && UniqueKeys(scopes.props)
    requires i < |scopes.props| && scopes.props[i].0 == key
    ensures ScopeAt(key, scopes) == NormalizeScope(key, scopes.props[i].1)
  {
  }

  /** A `null` member that passes the shape test fails when it is enumerated:
      a `null` `imports` at once, a `null` `scopes` once every top-level entry
      has been copied. */
  lemma NullMembersRaiseTypeError(raw: JsValue, base: Url, parse: Parser)
    requires raw.Obj?
    ensures Property(raw, "imports").Null? && IsObjectNotArray(Property(raw, "scopes")) ==>
      Build(raw, base, parse) == Failure(TypeError)
    ensures (Property(raw, "imports").Obj? && ImportsValid(Property(raw, "imports"))
      && Property(raw, "scopes").Null?) ==> Build(raw, base, parse) == Failure(TypeError)
  {
    var imports, scopes := Property(raw, "imports"), Property(raw, "scopes");
    assert Build(raw, base, parse) == BuildFrom(imports, scopes, base, parse);
    if imports.Obj? {
      NormalizeSucceedsIff(imports.props, [], ImportEntryError);
    }
  }

  /** An array is accepted as a scope value: its index keys never end in `/`, so
      every element is stored under its index. */
  lemma ArrayScopeAccepted(key: string, items: seq<JsValue>)
    requires key != ""
    ensures NormalizeScope(key, Arr(items)).Success?
    ensures |NormalizeScope(key, Arr(items)).value| == |items|
    ensures forall i :: 0 <= i < |items| ==>
      NormalizeScope(key, Arr(items)).value[i] == (IndexKey(i), Unresolved(items[i]))
  {
    var es := OwnEntries(Arr(items));
    assert |es| == |items|;
    forall i | 0 <= i < |es| ensures es[i] == (IndexKey(i), items[i]) && ScopeEntryError(es[i].0, es[i].1).None? {
      var k := IndexKey(i);
      assert k[|k| - 1] != '/';
    }
    assert UniqueKeys(es) by {
      forall i, j | 0 <= i < j < |es| ensures es[i].0 != es[j].0 {
        IndexKeyInjective(i, j);
      }
    }
    NormalizeSucceedsIff(es, [], ScopeEntryError);
    NormalizeAppends(es, [], ScopeEntryError);
    assert [] + MapValues(es, AsTarget) == MapValues(es, AsTarget);
  }

  /** Distinct indices have distinct keys. */
  lemma {:induction false} IndexKeyInjective(a: nat, b: nat)
    requires a != b
    ensures IndexKey(a) != IndexKey(b)
  {
    var ka, kb := IndexKey(a), IndexKey(b);
    if a % 10 != b % 10 {
      assert ka[|ka| - 1] != kb[|kb| - 1];
    } else if a < 10 || b < 10 {
      assert |ka| != |kb|;
    } else {
      IndexKeyInjective(a / 10, b / 10);
      assert ka[..|ka| - 1] == IndexKey(a / 10);
      assert kb[..|kb| - 1] == IndexKey(b / 10);
    }
  }
}
