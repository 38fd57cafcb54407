/** Importing a module: its sections and entities under new names, and the merge into the importing scenario. */
module ModuleComposition {
  import opened Wrappers
  import opened Namespacing

  // --------------------------------------------------------------- dictionaries

  /** A dictionary by its entries; of several entries with one key the last one counts. */
  function FromPairs<T>(pairs: seq<(string, T)>): map<string, T> {
    if pairs == [] then map[]
    else FromPairs(pairs[..|pairs| - 1])[pairs[|pairs| - 1].0 := pairs[|pairs| - 1].1]
  }

  function KeysOf<T>(pairs: seq<(string, T)>): set<string> {
    set i | 0 <= i < |pairs| :: pairs[i].0
  }

  lemma {:induction false} FromPairsKeys<T>(pairs: seq<(string, T)>)
    ensures FromPairs(pairs).Keys == KeysOf(pairs)
  {
    if pairs != [] {
      var front, last := pairs[..|pairs| - 1], pairs[|pairs| - 1];
      FromPairsKeys(front);
      assert forall i :: 0 <= i < |front| ==> pairs[i] == front[i];
      assert KeysOf(pairs) == KeysOf(front) + {last.0};
    }
  }

  lemma {:induction false} FromPairsAppend<T>(a: seq<(string, T)>, b: seq<(string, T)>)
    ensures FromPairs(a + b) == FromPairs(a) + FromPairs(b)
  {
    if b == [] {
      assert a + b == a;
    } else {
      FromPairsAppend(a, b[..|b| - 1]);
      assert (a + b)[..|a + b| - 1] == a + b[..|b| - 1];
    }
  }

  function RenameKeys<T>(pairs: seq<(string, T)>, names: Names, namespace: string): seq<(string, T)> {
    seq(|pairs|, i requires 0 <= i < |pairs| => (KeyName(pairs[i].0, names, namespace), pairs[i].1))
  }

  function KeyName(key: string, names: Names, namespace: string): string {
    if key in names then names[key] else Prefix(namespace, key)
  }

  lemma {:induction false} RenamedLookupOf<T>(pairs: seq<(string, T)>, names: Names, namespace: string, k: string)
    requires Injective(names) && KeysOf(pairs) <= names.Keys && k in FromPairs(pairs)
    ensures k in names && names[k] in FromPairs(RenameKeys(pairs, names, namespace))
    ensures FromPairs(RenameKeys(pairs, names, namespace))[names[k]] == FromPairs(pairs)[k]
  {
    FromPairsKeys(pairs);
    var front, last := pairs[..|pairs| - 1], pairs[|pairs| - 1];
    var renamed := RenameKeys(pairs, names, namespace);
    assert renamed[..|renamed| - 1] == RenameKeys(front, names, namespace);
    assert last.0 in KeysOf(pairs);
    if k != last.0 {
      assert forall i :: 0 <= i < |front| ==> pairs[i] == front[i];
      assert KeysOf(front) <= KeysOf(pairs);
      RenamedLookupOf(front, names, namespace, k);
    }
  }

  /** Under an injective renaming every entry is found under its new name, and nothing else is. */
  lemma RenamedLookup<T>(pairs: seq<(string, T)>, names: Names, namespace: string)
    requires Injective(names) && KeysOf(pairs) <= names.Keys
    ensures var renamed := FromPairs(RenameKeys(pairs, names, namespace));
            && (forall k :: k in FromPairs(pairs) ==>
                k in names && names[k] in renamed && renamed[names[k]] == FromPairs(pairs)[k])
            && (forall n :: n in renamed ==> exists k :: k in FromPairs(pairs) && k in names && names[k] == n)
  {
    var renamed := RenameKeys(pairs, names, namespace);
    FromPairsKeys(pairs);
    FromPairsKeys(renamed);
    forall k | k in FromPairs(pairs)
      ensures k in names && names[k] in FromPairs(renamed) && FromPairs(renamed)[names[k]] == FromPairs(pairs)[k]
    {
      RenamedLookupOf(pairs, names, namespace, k);
    }
    forall n | n in FromPairs(renamed) ensures exists k :: k in FromPairs(pairs) && k in names && names[k] == n {
      var i :| 0 <= i < |renamed| && renamed[i].0 == n;
      assert pairs[i].0 in KeysOf(pairs);
    }
  }

  // ------------------------------------------------------------------- entities

  datatype Entity = Entity(item: Item, children: seq<(string, Entity)>)

  /** All entities of a hierarchy under their dotted names, parents before children. */
  function Flatten(entities: seq<(string, Entity)>, prefix: string): seq<(string, Entity)>
    decreases entities
  {
    if entities == [] then []
    else
      var last := entities[|entities| - 1];
      Flatten(entities[..|entities| - 1], prefix) + FlattenOne(last, prefix)
  }

  function FlattenOne(one: (string, Entity), prefix: string): seq<(string, Entity)>
    decreases one
  {
    var full := Prefix(prefix, one.0);
    [(full, one.1)] + Flatten(one.1.children, full)
  }

  /** One entity of a level: itself, and then what is nested in it. */
  method FlattenEntity(one: (string, Entity), prefix: string) returns (result: map<string, Entity>)
    ensures result == FromPairs(FlattenOne(one, prefix))
    decreases one
  {
    var fullName := Prefix(prefix, one.0);
    FromPairsAppend([(fullName, one.1)], Flatten(one.1.children, fullName));
    assert FromPairs([(fullName, one.1)]) == map[fullName := one.1];
    result := map[fullName := one.1];
    if one.1.children != [] {
      var nested := FlattenEntities(one.1.children, fullName);
      result := result + nested;
    }
  }

  /** The recursion as it runs, filling one dictionary for each level. */
  method FlattenEntities(entities: seq<(string, Entity)>, prefix: string) returns (result: map<string, Entity>)
    ensures result == FromPairs(Flatten(entities, prefix))
    decreases entities
  {
    result := map[];
    for k := 0 to |entities|
      invariant result == FromPairs(Flatten(entities[..k], prefix))
    {
      assert entities[..k + 1][..k] == entities[..k] && entities[..k + 1][k] == entities[k];
      FromPairsAppend(Flatten(entities[..k], prefix), FlattenOne(entities[k], prefix));
      var one := FlattenEntity(entities[k], prefix);
      result := result + one;
    }
    assert entities[..|entities|] == entities;
  }

  /** The entities with their root names replaced; nested names stay as they are. */
  function RenameRoots(
    entities: seq<(string, Entity)>, namespace: string, exported: set<string>): seq<(string, Entity)> {
    seq(|entities|, i requires 0 <= i < |entities| => (NewName(namespace, exported, entities[i].0), entities[i].1))
  }

  /** The same entities in the same order, each under a name that continues the one or the other prefix alike. */
  predicate Parallel(a: seq<(string, Entity)>, p: string, b: seq<(string, Entity)>, q: string) {
    && |a| == |b|
    && forall i :: 0 <= i < |a| ==>
         && a[i].1 == b[i].1 && p <= a[i].0 && q <= b[i].0 && a[i].0[|p|..] == b[i].0[|q|..]
  }

  lemma ParallelAppend(
    a: seq<(string, Entity)>, a': seq<(string, Entity)>, p: string, b: seq<(string, Entity)>,
    b': seq<(string, Entity)>, q: string)
    requires Parallel(a, p, b, q) && Parallel(a', p, b', q)
    ensures Parallel(a + a', p, b + b', q)
  {
  }

  lemma ParallelWeaken(a: seq<(string, Entity)>, p: string, b: seq<(string, Entity)>, q: string, rest: string)
    requires Parallel(a, p + rest, b, q + rest)
    ensures Parallel(a, p, b, q)
  {
  }

  /** Below a non-empty prefix the nested names do not depend on it. */
  lemma {:induction false} FlattenParallel(entities: seq<(string, Entity)>, p: string, q: string)
    requires p != "" && q != ""
    ensures Parallel(Flatten(entities, p), p, Flatten(entities, q), q)
    decreases entities, 1
  {
    if entities != [] {
      var front, last := entities[..|entities| - 1], entities[|entities| - 1];
      FlattenParallel(front, p, q);
      FlattenOneParallel(last, p, q);
      ParallelAppend(Flatten(front, p), FlattenOne(last, p), p, Flatten(front, q), FlattenOne(last, q), q);
    }
  }

  lemma {:induction false} FlattenOneParallel(one: (string, Entity), p: string, q: string)
    requires p != "" && q != ""
    ensures Parallel(FlattenOne(one, p), p, FlattenOne(one, q), q)
    decreases one, 0
  {
    var rest := "." + one.0;
    assert p + "." + one.0 == p + rest && q + "." + one.0 == q + rest;
    FlattenParallel(one.1.children, p + rest, q + rest);
    ParallelWeaken(Flatten(one.1.children, p + rest), p, Flatten(one.1.children, q + rest), q, rest);
    ParallelAppend([(p + rest, one.1)], Flatten(one.1.children, p + rest), p, [(q + rest, one.1)],
        Flatten(one.1.children, q + rest), q);
  }

  // ------------------------------------------------- flattening and renaming

  function RenameNames<T>(pairs: seq<(string, T)>, namespace: string, exported: set<string>): seq<(string, T)> {
    seq(|pairs|, i requires 0 <= i < |pairs| => (NewName(namespace, exported, pairs[i].0), pairs[i].1))
  }

  lemma PrefixContinues(namespace: string, x: string, rest: string)
    ensures Prefix(namespace, x) + rest == Prefix(namespace, x + rest)
  {
  }

  /** A nested name continues its root's new name exactly when both are exported or both are not. */
  lemma NameFollowsRootIff(namespace: string, exported: set<string>, root: string, rest: string)
    ensures NewName(namespace, exported, root) + rest == NewName(namespace, exported, root + rest)
            <==> (root in exported <==> root + rest in exported)
  {
    PrefixContinues(namespace, root, rest);
    PrefixContinues(namespace, PRIVATE + root, rest);
    PrefixCancels(namespace, root + rest, PRIVATE + (root + rest));
    assert PRIVATE + root + rest == PRIVATE + (root + rest);
  }

  /** Every entity nested in the root is exported exactly when the root is. */
  predicate FollowsRoot(one: (string, Entity), exported: set<string>) {
    forall j :: 0 <= j < |FlattenOne(one, "")| ==> (FlattenOne(one, "")[j].0 in exported <==> one.0 in exported)
  }

  lemma NewNameNonempty(namespace: string, exported: set<string>, name: string)
    requires name != ""
    ensures NewName(namespace, exported, name) != ""
  {
  }

  lemma FlattenOneCommutesIff(one: (string, Entity), namespace: string, exported: set<string>)
    requires one.0 != ""
    ensures |FlattenOne((NewName(namespace, exported, one.0), one.1), "")| == |FlattenOne(one, "")|
    ensures var after := FlattenOne((NewName(namespace, exported, one.0), one.1), "");
            after == RenameNames(FlattenOne(one, ""), namespace, exported) <==> FollowsRoot(one, exported)
  {
    hide NewName, RenameNames, Parallel;
    var root := NewName(namespace, exported, one.0);
    NewNameNonempty(namespace, exported, one.0);
    var before, after := FlattenOne(one, ""), FlattenOne((root, one.1), "");
    FlattenParallel(one.1.children, one.0, root);
    ParallelAppend([(one.0, one.1)], Flatten(one.1.children, one.0), one.0, [(root, one.1)],
        Flatten(one.1.children, root), root);
    ParallelCommutesIff(before, one.0, after, namespace, exported);
  }

  lemma ParallelCommutesIff(
    before: seq<(string, Entity)>, key: string, after: seq<(string, Entity)>, namespace: string, exported: set<string>)
    requires Parallel(before, key, after, NewName(namespace, exported, key))
    ensures after == RenameNames(before, namespace, exported)
            <==> forall j :: 0 <= j < |before| ==> (before[j].0 in exported <==> key in exported)
  {
    hide NewName;
    var root := NewName(namespace, exported, key);
    forall j | 0 <= j < |before|
      ensures after[j] == (NewName(namespace, exported, before[j].0), before[j].1) <==>
          (before[j].0 in exported <==> key in exported)
    {
      var rest := before[j].0[|key|..];
      assert before[j].0 == key + rest && after[j].0 == root + rest;
      NameFollowsRootIff(namespace, exported, key, rest);
    }
    var renamed := RenameNames(before, namespace, exported);
    assert after == renamed <==> forall j :: 0 <= j < |before| ==> after[j] == renamed[j];
  }

  lemma {:induction false} FlattenSameLength(entities: seq<(string, Entity)>, namespace: string, exported: set<string>)
    requires forall i :: 0 <= i < |entities| ==> entities[i].0 != ""
    ensures |Flatten(RenameRoots(entities, namespace, exported), "")| == |Flatten(entities, "")|
  {
    if entities != [] {
      var front, last := entities[..|entities| - 1], entities[|entities| - 1];
      var renamed := RenameRoots(entities, namespace, exported);
      assert renamed[..|renamed| - 1] == RenameRoots(front, namespace, exported);
      FlattenSameLength(front, namespace, exported);
      FlattenOneCommutesIff(last, namespace, exported);
    }
  }

  lemma SplitEquality<T>(a: seq<T>, b: seq<T>, c: seq<T>, d: seq<T>)
    requires |a| == |c|
    ensures a + b == c + d <==> a == c && b == d
  {
    if a + b == c + d {
      assert a == (a + b)[..|a|] && c == (c + d)[..|a|];
      assert b == (a + b)[|a|..] && d == (c + d)[|a|..];
    }
  }

  /** Flattening the renamed hierarchy gives the renamed flat names exactly when nested entities follow their roots. */
  lemma {:induction false} FlattenCommutesIff(entities: seq<(string, Entity)>, namespace: string, exported: set<string>)
    requires forall i :: 0 <= i < |entities| ==> entities[i].0 != ""
    ensures var after := Flatten(RenameRoots(entities, namespace, exported), "");
            after == RenameNames(Flatten(entities, ""), namespace, exported)
            <==> forall i :: 0 <= i < |entities| ==> FollowsRoot(entities[i], exported)
  {
    hide NewName, FollowsRoot, FlattenOne, RenameNames;
    if entities != [] {
      var front, last := entities[..|entities| - 1], entities[|entities| - 1];
      var renamed := RenameRoots(entities, namespace, exported);
      assert renamed[..|renamed| - 1] == RenameRoots(front, namespace, exported);
      FlattenCommutesIff(front, namespace, exported);
      FlattenSameLength(front, namespace, exported);
      FlattenOneCommutesIff(last, namespace, exported);
      var a, b := Flatten(RenameRoots(front, namespace, exported), ""), FlattenOne(renamed[|renamed| - 1], "");
      var c, d := RenameNames(Flatten(front, ""), namespace, exported),
      RenameNames(FlattenOne(last, ""), namespace, exported);
      RenameNamesAppend(Flatten(front, ""), FlattenOne(last, ""), namespace, exported);
      SplitEquality(a, b, c, d);
      assert forall i :: 0 <= i < |front| ==> entities[i] == front[i];
    } else {
      RenameNamesEmpty(namespace, exported);
    }
  }

  lemma RenameNamesAppend<T>(a: seq<(string, T)>, b: seq<(string, T)>, namespace: string, exported: set<string>)
    ensures RenameNames(a + b, namespace, exported) ==
        RenameNames(a, namespace, exported) + RenameNames(b, namespace, exported)
    ensures |RenameNames(a, namespace, exported)| == |a|
  {
    hide NewName;
  }

  lemma RenameNamesEmpty(namespace: string, exported: set<string>)
    ensures RenameNames<Entity>([], namespace, exported) == []
  {
  }

  // -------------------------------------------------------------- whole modules

  /** The sections other than entities, each with its keys in order, and the entity hierarchy. */
  datatype Module = Module(sections: map<Section, seq<(string, Item)>>, entities: seq<(string, Entity)>)

  function SectionOf(m: Module, section: Section): seq<(string, Item)> {
    if section in m.sections then m.sections[section] else []
  }

  function NamesIn(m: Module, section: Section): set<string> {
    if section.Entities? then KeysOf(Flatten(m.entities, "")) else KeysOf(SectionOf(m, section))
  }

  function ExportedIn(exports: map<Section, set<string>>, section: Section): set<string> {
    if section in exports then exports[section] else {}
  }

  function SymbolIndex(m: Module, namespace: string, exports: map<Section, set<string>>): Symbols {
    map section | section in m.sections.Keys + {Entities} ::
      SectionNames(namespace, NamesIn(m, section), ExportedIn(exports, section))
  }

  function RewriteEntity(e: Entity, symbols: Symbols): Entity {
    Entity(RewriteItem(e.item, symbols), RewriteEntities(e.children, symbols))
  }

  function RewriteEntities(entities: seq<(string, Entity)>, symbols: Symbols): seq<(string, Entity)>
    decreases entities
  {
    if entities == [] then []
    else RewriteEntities(entities[..|entities| - 1], symbols) + [RewriteOne(entities[|entities| - 1], symbols)]
  }

  function RewriteOne(one: (string, Entity), symbols: Symbols): (string, Entity)
    decreases one
  {
    (one.0, Entity(RewriteItem(one.1.item, symbols), RewriteEntities(one.1.children, symbols)))
  }

  function RewriteItems(pairs: seq<(string, Item)>, symbols: Symbols): seq<(string, Item)> {
    seq(|pairs|, i requires 0 <= i < |pairs| => (pairs[i].0, RewriteItem(pairs[i].1, symbols)))
  }

  /** A section of the module as it arrives in the importing scenario. */
  function NamespacedSection(m: Module, section: Section, namespace: string, symbols: Symbols): map<string, Item> {
    FromPairs(RenameKeys(RewriteItems(SectionOf(m, section), symbols), MapOf(symbols, section), namespace))
  }

  function NamespacedEntities(
    m: Module, namespace: string, exports: map<Section, set<string>>, symbols: Symbols): map<string, Entity> {
    FromPairs(Flatten(RenameRoots(RewriteEntities(m.entities, symbols), namespace, ExportedIn(exports, Entities)), ""))
  }

  /** A name that the rewriter takes for a reference. */
  predicate Ordinary(name: string) {
    name != "" && !IsVariableRef(name)
  }

  lemma {:induction false} RewrittenLookup(pairs: seq<(string, Item)>, symbols: Symbols)
    ensures FromPairs(RewriteItems(pairs, symbols)).Keys == FromPairs(pairs).Keys
    ensures forall k :: k in FromPairs(pairs) ==>
        FromPairs(RewriteItems(pairs, symbols))[k] == RewriteItem(FromPairs(pairs)[k], symbols)
  {
    if pairs != [] {
      hide RewriteItem;
      var rewritten := RewriteItems(pairs, symbols);
      assert rewritten[..|rewritten| - 1] == RewriteItems(pairs[..|pairs| - 1], symbols);
      RewrittenLookup(pairs[..|pairs| - 1], symbols);
    }
  }

  lemma IndexIsNonempty(m: Module, namespace: string, exports: map<Section, set<string>>)
    requires forall section: Section :: "" !in NamesIn(m, section)
    ensures Nonempty(SymbolIndex(m, namespace, exports))
  {
  }

  /**
    A reference to an element of a section is renamed by the rewriter, and under its new name the section holds
    the renamed image of that element; as long as the section's renaming is injective and the name is no placeholder.
   */
  lemma ReferencesSurvive(m: Module, namespace: string, exports: map<Section, set<string>>, item: Item, r: Ref)
    requires r.Ref? && r in References(item) && !r.section.Entities?
    requires r.name in NamesIn(m, r.section) && Ordinary(r.name)
    requires forall section: Section :: "" !in NamesIn(m, section)
    requires Injective(MapOf(SymbolIndex(m, namespace, exports), r.section))
    ensures var symbols := SymbolIndex(m, namespace, exports);
            var there, renamed := FromPairs(SectionOf(m, r.section)), RewriteRef(r, symbols);
            && renamed in References(RewriteItem(item, symbols))
            && r.name in there && renamed.name in NamespacedSection(m, r.section, namespace, symbols)
            && NamespacedSection(m, r.section, namespace, symbols)[renamed.name] == RewriteItem(there[r.name], symbols)
  {
    hide RewriteItem, References, Nonempty, Injective;
    var symbols := SymbolIndex(m, namespace, exports);
    IndexIsNonempty(m, namespace, exports);
    RewritingRenamesReferences(item, symbols);
    var i :| 0 <= i < |References(item)| && References(item)[i] == r;
    assert RewriteRefs(References(item), symbols)[i] == RewriteRef(r, symbols);
    var pairs := SectionOf(m, r.section);
    FromPairsKeys(pairs);
    RewrittenLookup(pairs, symbols);
    var rewritten := RewriteItems(pairs, symbols);
    FromPairsKeys(rewritten);
    KnownSection(m, r);
    RenamedLookup(rewritten, MapOf(symbols, r.section), namespace);
  }

  lemma KnownSection(m: Module, r: Ref)
    requires r.Ref? && !r.section.Entities? && r.name in NamesIn(m, r.section)
    ensures r.section in m.sections
  {
  }

  /** A module that exports everything has injective renamings and nested entities that follow their roots. */
  lemma ExportingAllIsSafe(m: Module, namespace: string, exports: map<Section, set<string>>, section: Section)
    requires forall s: Section :: NamesIn(m, s) <= ExportedIn(exports, s)
    ensures Injective(MapOf(SymbolIndex(m, namespace, exports), section))
    ensures forall i :: 0 <= i < |m.entities| ==> FollowsRoot(m.entities[i], ExportedIn(exports, Entities))
  {
    hide NewName;
    SectionNamesInjectiveIff(namespace, NamesIn(m, section), ExportedIn(exports, section));
    forall i | 0 <= i < |m.entities| ensures FollowsRoot(m.entities[i], ExportedIn(exports, Entities)) {
      FlattenContains(m.entities, i);
      assert FlattenOne(m.entities[i], "")[0].0 == m.entities[i].0;
    }
  }

  lemma {:induction false} FlattenContains(entities: seq<(string, Entity)>, i: nat)
    requires i < |entities|
    ensures forall j :: 0 <= j < |FlattenOne(entities[i], "")| ==>
        FlattenOne(entities[i], "")[j].0 in KeysOf(Flatten(entities, ""))
  {
    var front, last := entities[..|entities| - 1], entities[|entities| - 1];
    var a, b := Flatten(front, ""), FlattenOne(last, "");
    assert forall k :: 0 <= k < |a| ==> (a + b)[k] == a[k];
    if i < |front| {
      FlattenContains(front, i);
      assert KeysOf(a) <= KeysOf(a + b);
    } else {
      forall j | 0 <= j < |b| ensures b[j].0 in KeysOf(a + b) {
        assert (a + b)[|a| + j] == b[j];
      }
    }
  }

  // ------------------------------------------------------ references to entities

  lemma {:induction false} RewriteEntitiesAt(entities: seq<(string, Entity)>, symbols: Symbols)
    ensures |RewriteEntities(entities, symbols)| == |entities|
    ensures forall i :: 0 <= i < |entities| ==>
        RewriteEntities(entities, symbols)[i] == (entities[i].0, RewriteEntity(entities[i].1, symbols))
  {
    if entities != [] {
      RewriteEntitiesAt(entities[..|entities| - 1], symbols);
    }
  }

  function RewritePairs(pairs: seq<(string, Entity)>, symbols: Symbols): seq<(string, Entity)> {
    seq(|pairs|, i requires 0 <= i < |pairs| => (pairs[i].0, RewriteEntity(pairs[i].1, symbols)))
  }

  /** Rewriting leaves the flat names alone and rewrites each entity. */
  lemma {:induction false} FlattenRewritten(entities: seq<(string, Entity)>, prefix: string, symbols: Symbols)
    ensures Flatten(RewriteEntities(entities, symbols), prefix) == RewritePairs(Flatten(entities, prefix), symbols)
    decreases entities, 1
  {
    if entities != [] {
      var front, last := entities[..|entities| - 1], entities[|entities| - 1];
      FlattenRewritten(front, prefix, symbols);
      FlattenOneRewritten(last, prefix, symbols);
      var rewritten := RewriteEntities(entities, symbols);
      assert rewritten[..|rewritten| - 1] == RewriteEntities(front, symbols);
    }
  }

  lemma {:induction false} FlattenOneRewritten(one: (string, Entity), prefix: string, symbols: Symbols)
    ensures FlattenOne((one.0, RewriteEntity(one.1, symbols)), prefix) == RewritePairs(FlattenOne(one, prefix), symbols)
    decreases one, 0
  {
    FlattenRewritten(one.1.children, Prefix(prefix, one.0), symbols);
  }

  lemma {:induction false} RenamedNamesLookup(
    pairs: seq<(string, Entity)>, namespace: string, exported: set<string>, k: string)
    requires Injective(SectionNames(namespace, KeysOf(pairs), exported)) && k in FromPairs(pairs)
    ensures NewName(namespace, exported, k) in FromPairs(RenameNames(pairs, namespace, exported))
    ensures FromPairs(RenameNames(pairs, namespace, exported))[NewName(namespace, exported, k)] == FromPairs(pairs)[k]
  {
    hide NewName;
    var names := SectionNames(namespace, KeysOf(pairs), exported);
    FromPairsKeys(pairs);
    forall i | 0 <= i < |pairs|
        ensures KeyName(pairs[i].0, names, namespace) == NewName(namespace, exported, pairs[i].0) {
      assert pairs[i].0 in KeysOf(pairs);
    }
    assert RenameKeys(pairs, names, namespace) == RenameNames(pairs, namespace, exported);
    RenamedLookup(pairs, names, namespace);
  }

  lemma {:induction false} RewrittenEntityLookup(pairs: seq<(string, Entity)>, symbols: Symbols)
    ensures FromPairs(RewritePairs(pairs, symbols)).Keys == FromPairs(pairs).Keys
    ensures forall k :: k in FromPairs(pairs) ==>
        FromPairs(RewritePairs(pairs, symbols))[k] == RewriteEntity(FromPairs(pairs)[k], symbols)
  {
    if pairs != [] {
      hide RewriteEntity;
      var rewritten := RewritePairs(pairs, symbols);
      assert rewritten[..|rewritten| - 1] == RewritePairs(pairs[..|pairs| - 1], symbols);
      RewrittenEntityLookup(pairs[..|pairs| - 1], symbols);
    }
  }

  /** The same for references to entities, nested ones included, as long as nested entities follow their roots. */
  lemma EntityReferencesSurvive(m: Module, namespace: string, exports: map<Section, set<string>>, name: string)
    requires name in NamesIn(m, Entities) && Ordinary(name)
    requires forall i :: 0 <= i < |m.entities| ==>
        m.entities[i].0 != "" && FollowsRoot(m.entities[i], ExportedIn(exports, Entities))
    requires Injective(MapOf(SymbolIndex(m, namespace, exports), Entities))
    ensures var symbols := SymbolIndex(m, namespace, exports);
            var there, arrived := FromPairs(Flatten(m.entities, "")),
            NamespacedEntities(m, namespace, exports, symbols);
            var renamed := MaybeRename(name, MapOf(symbols, Entities));
            name in there && renamed in arrived && arrived[renamed] == RewriteEntity(there[name], symbols)
  {
    hide FollowsRoot, Injective, NewName, IsVariableRef, RewriteEntity, RewritePairs, RenameNames;
    var symbols, exported := SymbolIndex(m, namespace, exports), ExportedIn(exports, Entities);
    var rewritten := RewriteEntities(m.entities, symbols);
    RewriteEntitiesAt(m.entities, symbols);
    FlattenRewritten(m.entities, "", symbols);
    FlattenCommutesIff(m.entities, namespace, exported);
    var flat := Flatten(m.entities, "");
    assert RenameRoots(rewritten, namespace, exported) ==
        RewriteEntities(RenameRoots(m.entities, namespace, exported), symbols) by {
      RewriteEntitiesAt(RenameRoots(m.entities, namespace, exported), symbols);
    }
    FlattenRewritten(RenameRoots(m.entities, namespace, exported), "", symbols);
    RewriteAndRename(flat, namespace, exported, symbols);
    FromPairsKeys(flat);
    RewrittenEntityLookup(flat, symbols);
    SameKeys(flat, symbols);
    RenamedNamesLookup(RewritePairs(flat, symbols), namespace, exported, name);
  }

  lemma RewriteAndRename(pairs: seq<(string, Entity)>, namespace: string, exported: set<string>, symbols: Symbols)
    ensures RewritePairs(RenameNames(pairs, namespace, exported), symbols) ==
        RenameNames(RewritePairs(pairs, symbols), namespace, exported)
  {
    hide NewName, RewriteEntity;
  }

  lemma SameKeys(pairs: seq<(string, Entity)>, symbols: Symbols)
    ensures KeysOf(RewritePairs(pairs, symbols)) == KeysOf(pairs)
  {
    var rewritten := RewritePairs(pairs, symbols);
    assert |rewritten| == |pairs| && forall i :: 0 <= i < |pairs| ==> rewritten[i].0 == pairs[i].0;
  }

  // --------------------------------------------------------- references to steps

  /** A rewritten step reference is to the same step of the renamed workflow. */
  lemma StepReferencesSurvive(text: string, workflows: Names)
    requires SplitAtLastDot(text).Some? && !IsVariableRef(text) && SplitAtLastDot(text).value.0 in workflows
    ensures SplitAtLastDot(RewriteStepRef(text, workflows)) ==
        Some((workflows[SplitAtLastDot(text).value.0], SplitAtLastDot(text).value.1))
  {
    StepHasNoDot(text);
    SplitJoined(workflows[SplitAtLastDot(text).value.0], SplitAtLastDot(text).value.1);
  }

  lemma {:induction false} StepHasNoDot(text: string)
    requires SplitAtLastDot(text).Some?
    ensures '.' !in SplitAtLastDot(text).value.1
  {
    if text[|text| - 1] != '.' {
      StepHasNoDot(text[..|text| - 1]);
    }
  }

  lemma {:induction false} SplitJoined(workflow: string, step: string)
    requires '.' !in step
    ensures SplitAtLastDot(workflow + "." + step) == Some((workflow, step))
  {
    var text := workflow + "." + step;
    if step == "" {
      assert text[..|text| - 1] == workflow;
    } else {
      SplitJoined(workflow, step[..|step| - 1]);
      assert text[..|text| - 1] == workflow + "." + step[..|step| - 1];
      assert step == step[..|step| - 1] + [step[|step| - 1]];
    }
  }

  // ---------------------------------------------------------------------- merging

  /** The merge of one section after the other; any common key is an error. */
  method MergeSections(
    root: map<Section, map<string, Item>>, incoming: map<Section, map<string, Item>>, order: seq<Section>)
    returns (merged: Outcome<map<Section, map<string, Item>>>)
    requires NoDuplicates(order) && (forall section :: section in order)
        && (forall section: Section :: section in root && section in incoming)
    ensures merged.Raised? <==> exists section: Section :: !(root[section].Keys !! incoming[section].Keys)
    ensures merged.Returned? ==> forall section: Section ::
      && section in merged.value && merged.value[section].Keys == root[section].Keys + incoming[section].Keys
      && (forall k :: k in root[section] ==> merged.value[section][k] == root[section][k])
      && (forall k :: k in incoming[section] ==> merged.value[section][k] == incoming[section][k])
  {
    var result := root;
    for i := 0 to |order|
      invariant result.Keys == root.Keys
      invariant forall j :: 0 <= j < i ==> root[order[j]].Keys !! incoming[order[j]].Keys
      invariant forall section: Section ::
          result[section] == if section in order[..i] then root[section] + incoming[section] else root[section]
    {
      var section := order[i];
      var collisions := result[section].Keys * incoming[section].Keys;
      assert section !in order[..i];
      if collisions != {} {
        return Raised;
      }
      forall k | k in root[section] ensures k !in incoming[section] {
        assert k !in collisions;
      }
      result := result[section := result[section] + incoming[section]];
    }
    assert order[..|order|] == order;
    return Returned(result);
  }
}
