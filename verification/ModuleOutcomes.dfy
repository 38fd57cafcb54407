/** What importing a module does to names, references and entities, read off the texts themselves. */
module ModuleOutcomes {
  import opened Namespacing
  import opened ModuleComposition

  // --------------------------------------------------------------------- names

  /** The name in the importing scenario: behind the namespace, and behind a mark if it is not exported. */
  function NameUnder(namespace: string, exported: bool, name: string): string {
    (if namespace == "" then "" else namespace + ".") + (if exported then name else "__private." + name)
  }

  lemma NewNameReads(namespace: string, exported: set<string>, name: string)
    ensures NewName(namespace, exported, name) == NameUnder(namespace, name in exported, name)
  {
  }

  /**
    A dollar sign, and in braces an identifier: a letter or underscore, then letters, underscores, digits or dashes.
   */
  ghost predicate IsPlaceholder(text: string) {
    exists x: string ::
      && text == "${" + x + "}" && x != "" && IsLetter(x[0])
      && forall i :: 0 < i < |x| ==> IsLetter(x[i]) || '0' <= x[i] <= '9' || x[i] == '-'
  }

  lemma PlaceholderIff(text: string)
    ensures IsVariableRef(text) <==> IsPlaceholder(text)
  {
    if IsVariableRef(text) {
      var x := text[2..|text| - 1];
      assert text == "${" + x + "}";
    }
    if x :| text == "${" + x + "}" && x != "" && IsLetter(x[0])
            && forall i :: 0 < i < |x| ==> IsLetter(x[i]) || '0' <= x[i] <= '9' || x[i] == '-' {
      forall i | 3 <= i < |text| - 1 ensures IsLetter(text[i]) || '0' <= text[i] <= '9' || text[i] == '-' {
        assert text[i] == x[i - 2];
      }
    }
  }

  /** Placeholders and names that the module does not define stay; every other name gets its new one. */
  lemma RenamingTells(name: string, names: Names)
    ensures MaybeRename(name, names) ==
      if name != "" && name in names && !IsPlaceholder(name) then names[name] else name
  {
    PlaceholderIff(name);
  }

  /** A reference to a step is split at its last dot: the workflow gets its new name, and the step keeps its own. */
  lemma StepRenamingTells(workflow: string, step: string, workflows: Names)
    requires '.' !in step
    ensures RewriteStepRef(workflow + "." + step, workflows) ==
      if workflow in workflows && !IsPlaceholder(workflow + "." + step) then workflows[workflow] + "." + step
      else workflow + "." + step
  {
    SplitJoined(workflow, step);
    PlaceholderIff(workflow + "." + step);
  }

  // ---------------------------------------------------------------- references

  /** A reference to an element of one section, by one of the names; an empty name refers to nothing. */
  predicate OneOf(r: Ref, section: Section, names: seq<string>) {
    r.Ref? && r.section == section && r.name in names
  }

  predicate TheOne(r: Ref, section: Section, name: string) {
    r.Ref? && r.section == section && r.name == name && name != ""
  }

  predicate StepMentions(s: WorkflowStep, r: Ref) {
    || TheOne(r, Objectives, s.objective) || TheOne(r, Workflows, s.workflow) || TheOne(r, Workflows, s.compensateWith)
    || OneOf(r, Conditions, s.conditions) || OneOf(r, Metrics, s.metrics) || OneOf(r, Evaluations, s.evaluations)
    || OneOf(r, Tlos, s.tlos) || OneOf(r, Goals, s.goals) || OneOf(r, Objectives, s.objectives)
  }

  /** What an element mentions: which of its fields name elements of which section. */
  predicate Mentions(item: Item, r: Ref) {
    match item
    case NodeItem(features, conditions, injects, vulnerabilities, entities) =>
      || OneOf(r, Features, features) || OneOf(r, Conditions, conditions) || OneOf(r, Injects, injects)
      || OneOf(r, Vulnerabilities, vulnerabilities) || OneOf(r, Entities, entities)
    case FeatureItem(dependencies, vulnerabilities) =>
      OneOf(r, Features, dependencies) || OneOf(r, Vulnerabilities, vulnerabilities)
    case MetricItem(condition) => TheOne(r, Conditions, condition)
    case EvaluationItem(metrics) => OneOf(r, Metrics, metrics)
    case TloItem(evaluation) => TheOne(r, Evaluations, evaluation)
    case GoalItem(tlos) => OneOf(r, Tlos, tlos)
    case EntityItem(vulnerabilities, tlos, events) =>
      OneOf(r, Vulnerabilities, vulnerabilities) || OneOf(r, Tlos, tlos) || OneOf(r, Events, events)
    case InjectItem(fromEntity, toEntities, tlos) =>
      TheOne(r, Entities, fromEntity) || OneOf(r, Entities, toEntities) || OneOf(r, Tlos, tlos)
    case EventItem(conditions, injects) => OneOf(r, Conditions, conditions) || OneOf(r, Injects, injects)
    case ScriptItem(events) => OneOf(r, Events, events)
    case StoryItem(scripts) => OneOf(r, Scripts, scripts)
    case ContentItem(target) => TheOne(r, Nodes, target)
    case AccountItem(node) => TheOne(r, Nodes, node)
    case AgentItem(entity, startingAccounts, hosts, subnets, accounts, allowedSubnets) =>
      || TheOne(r, Entities, entity) || OneOf(r, Accounts, startingAccounts) || OneOf(r, Nodes, hosts)
      || OneOf(r, Infrastructure, subnets) || OneOf(r, Accounts, accounts) || OneOf(r, Infrastructure, allowedSubnets)
    case ObjectiveItem(agent, entity, dependsOn, conditions, metrics, evaluations, tlos, goals, stories, scripts,
        events, workflows, windowSteps) =>
      || TheOne(r, Agents, agent) || TheOne(r, Entities, entity) || OneOf(r, Objectives, dependsOn)
      || OneOf(r, Conditions, conditions) || OneOf(r, Metrics, metrics) || OneOf(r, Evaluations, evaluations)
      || OneOf(r, Tlos, tlos) || OneOf(r, Goals, goals) || OneOf(r, Stories, stories) || OneOf(r, Scripts, scripts)
      || OneOf(r, Events, events) || OneOf(r, Workflows, workflows) || (r.StepRef? && r.text in windowSteps)
    case WorkflowItem(steps) => exists i :: 0 <= i < |steps| && StepMentions(steps[i], r)
    case PlainItem(_) => false
  }

  lemma InTo(section: Section, names: seq<string>, r: Ref)
    ensures r in To(section, names) <==> OneOf(r, section, names)
  {
    if OneOf(r, section, names) {
      var i :| 0 <= i < |names| && names[i] == r.name;
      assert To(section, names)[i] == r;
    }
  }

  lemma InToOne(section: Section, name: string, r: Ref)
    ensures r in ToOne(section, name) <==> TheOne(r, section, name)
  {
  }

  lemma InToSteps(texts: seq<string>, r: Ref)
    ensures r in ToSteps(texts) <==> r.StepRef? && r.text in texts
  {
    if r.StepRef? && r.text in texts {
      var i :| 0 <= i < |texts| && texts[i] == r.text;
      assert ToSteps(texts)[i] == r;
    }
  }

  lemma {:induction false} InFlat(parts: seq<seq<Ref>>, r: Ref)
    ensures r in Flat(parts) <==> exists i :: 0 <= i < |parts| && r in parts[i]
  {
    if parts != [] {
      InFlat(parts[1..], r);
      if i :| 0 <= i < |parts| && r in parts[i] {
        assert i > 0 ==> parts[1..][i - 1] == parts[i];
      }
      assert forall i :: 0 <= i < |parts| - 1 ==> parts[1..][i] == parts[i + 1];
    }
  }

  lemma {:induction false} FlatAppends(a: seq<seq<Ref>>, b: seq<seq<Ref>>)
    ensures Flat(a + b) == Flat(a) + Flat(b)
  {
    if a == [] {
      assert a + b == b;
    } else {
      FlatAppends(a[1..], b);
      assert (a + b)[1..] == a[1..] + b && (a + b)[0] == a[0];
      assert Flat(a + b) == a[0] + Flat(a[1..] + b);
      assert Flat(a) == a[0] + Flat(a[1..]);
    }
  }

  lemma InStep(s: WorkflowStep, r: Ref)
    ensures r in Flat(StepParts(s)) <==> StepMentions(s, r)
  {
    hide To, ToOne, OneOf, TheOne, Flat;
    var parts := StepParts(s);
    InFlat(parts, r);
    assert (exists i :: 0 <= i < |parts| && r in parts[i]) <==>
      r in parts[0] || r in parts[1] || r in parts[2] || r in parts[3] || r in parts[4] || r in parts[5]
      || r in parts[6] || r in parts[7] || r in parts[8];
    InToOne(Objectives, s.objective, r);
    InToOne(Workflows, s.workflow, r);
    InToOne(Workflows, s.compensateWith, r);
    InTo(Conditions, s.conditions, r);
    InTo(Metrics, s.metrics, r);
    InTo(Evaluations, s.evaluations, r);
    InTo(Tlos, s.tlos, r);
    InTo(Goals, s.goals, r);
    InTo(Objectives, s.objectives, r);
  }

  lemma {:induction false} InSteps(steps: seq<WorkflowStep>, r: Ref)
    ensures r in Flat(StepsParts(steps)) <==> exists i :: 0 <= i < |steps| && StepMentions(steps[i], r)
  {
    hide StepParts, StepMentions, Flat;
    if steps == [] {
      InFlat([], r);
    } else {
      InSteps(steps[1..], r);
      InStep(steps[0], r);
      FlatAppends(StepParts(steps[0]), StepsParts(steps[1..]));
      if i :| 0 <= i < |steps| && StepMentions(steps[i], r) {
        assert i > 0 ==> steps[1..][i - 1] == steps[i];
      }
      assert forall i :: 0 <= i < |steps| - 1 ==> steps[1..][i] == steps[i + 1];
    }
  }

  lemma InObjective(item: Item, r: Ref)
    requires item.ObjectiveItem?
    ensures r in References(item) <==> Mentions(item, r)
  {
    hide To, ToOne, ToSteps, OneOf, TheOne, Flat;
    var parts := Parts(item);
    InFlat(parts, r);
    assert (exists i :: 0 <= i < |parts| && r in parts[i]) <==>
      r in parts[0] || r in parts[1] || r in parts[2] || r in parts[3] || r in parts[4] || r in parts[5]
      || r in parts[6] || r in parts[7] || r in parts[8] || r in parts[9] || r in parts[10] || r in parts[11]
      || r in parts[12];
    InToOne(Agents, item.agent, r);
    InToOne(Entities, item.entity, r);
    InTo(Objectives, item.dependsOn, r);
    InTo(Conditions, item.conditions, r);
    InTo(Metrics, item.metrics, r);
    InTo(Evaluations, item.evaluations, r);
    InTo(Tlos, item.tlos, r);
    InTo(Goals, item.goals, r);
    InTo(Stories, item.stories, r);
    InTo(Scripts, item.scripts, r);
    InTo(Events, item.events, r);
    InTo(Workflows, item.workflows, r);
    InToSteps(item.windowSteps, r);
  }

  lemma InOther(item: Item, r: Ref)
    requires !item.ObjectiveItem? && !item.WorkflowItem?
    ensures r in References(item) <==> Mentions(item, r)
  {
    hide To, ToOne, OneOf, TheOne, Flat;
    var parts := Parts(item);
    InFlat(parts, r);
    assert (exists i :: 0 <= i < |parts| && r in parts[i]) <==>
      || (|parts| > 0 && r in parts[0]) || (|parts| > 1 && r in parts[1]) || (|parts| > 2 && r in parts[2])
      || (|parts| > 3 && r in parts[3]) || (|parts| > 4 && r in parts[4]) || (|parts| > 5 && r in parts[5]);
    match item
    case NodeItem(features, conditions, injects, vulnerabilities, entities) =>
      InTo(Features, features, r);
      InTo(Conditions, conditions, r);
      InTo(Injects, injects, r);
      InTo(Vulnerabilities, vulnerabilities, r);
      InTo(Entities, entities, r);
    case FeatureItem(dependencies, vulnerabilities) =>
      InTo(Features, dependencies, r);
      InTo(Vulnerabilities, vulnerabilities, r);
    case MetricItem(condition) => InToOne(Conditions, condition, r);
    case EvaluationItem(metrics) => InTo(Metrics, metrics, r);
    case TloItem(evaluation) => InToOne(Evaluations, evaluation, r);
    case GoalItem(tlos) => InTo(Tlos, tlos, r);
    case EntityItem(vulnerabilities, tlos, events) =>
      InTo(Vulnerabilities, vulnerabilities, r);
      InTo(Tlos, tlos, r);
      InTo(Events, events, r);
    case InjectItem(fromEntity, toEntities, tlos) =>
      InToOne(Entities, fromEntity, r);
      InTo(Entities, toEntities, r);
      InTo(Tlos, tlos, r);
    case EventItem(conditions, injects) =>
      InTo(Conditions, conditions, r);
      InTo(Injects, injects, r);
    case ScriptItem(events) => InTo(Events, events, r);
    case StoryItem(scripts) => InTo(Scripts, scripts, r);
    case ContentItem(target) => InToOne(Nodes, target, r);
    case AccountItem(node) => InToOne(Nodes, node, r);
    case AgentItem(entity, startingAccounts, hosts, subnets, accounts, allowedSubnets) =>
      InToOne(Entities, entity, r);
      InTo(Accounts, startingAccounts, r);
      InTo(Nodes, hosts, r);
      InTo(Infrastructure, subnets, r);
      InTo(Accounts, accounts, r);
      InTo(Infrastructure, allowedSubnets, r);
    case PlainItem(_) =>
  }

  /** The references of an element are exactly what its fields mention. */
  lemma ReferencesTell(item: Item, r: Ref)
    ensures r in References(item) <==> Mentions(item, r)
  {
    if item.ObjectiveItem? {
      InObjective(item, r);
    } else if item.WorkflowItem? {
      InSteps(item.steps, r);
    } else {
      InOther(item, r);
    }
  }

  // ------------------------------------------------------------------ entities

  /** The entity that one gets to by the keys of the path, level by level. */
  ghost predicate IsAt(entities: seq<(string, Entity)>, path: seq<string>, e: Entity)
    decreases |path|
  {
    && path != []
    && exists i :: 0 <= i < |entities| && entities[i].0 == path[0]
                   && (if |path| == 1 then e == entities[i].1 else IsAt(entities[i].1.children, path[1..], e))
  }

  /** The keys of a path behind a prefix, with dots between them. */
  function Dotted(prefix: string, path: seq<string>): string
    decreases |path|
  {
    if path == [] then prefix
    else Dotted(if prefix == "" then path[0] else prefix + "." + path[0], path[1..])
  }

  /** The flat names are exactly the dotted paths through the hierarchy, each with the entity at its end. */
  lemma {:induction false} FlatNamesTell(entities: seq<(string, Entity)>, prefix: string, name: string, e: Entity)
    ensures (name, e) in Flatten(entities, prefix) <==>
      exists path :: IsAt(entities, path, e) && name == Dotted(prefix, path)
    decreases entities, 1
  {
    if entities == [] {
      assert forall path :: !IsAt(entities, path, e);
    } else {
      var front, last := entities[..|entities| - 1], entities[|entities| - 1];
      FlatNamesTell(front, prefix, name, e);
      OneNameTells(last, prefix, name, e);
      forall path ensures IsAt(entities, path, e) <==> IsAt(front, path, e) || IsAt([last], path, e) {
        SplitAt(entities, path, e);
      }
    }
  }

  lemma SplitAt(entities: seq<(string, Entity)>, path: seq<string>, e: Entity)
    requires entities != []
    ensures var front, last := entities[..|entities| - 1], entities[|entities| - 1];
            IsAt(entities, path, e) <==> IsAt(front, path, e) || IsAt([last], path, e)
  {
    var front, last := entities[..|entities| - 1], entities[|entities| - 1];
    assert entities == front + [last];
    assert forall i :: 0 <= i < |front| ==> front[i] == entities[i];
    assert [last][0] == entities[|front|];
  }

  lemma {:induction false} OneNameTells(one: (string, Entity), prefix: string, name: string, e: Entity)
    ensures (name, e) in FlattenOne(one, prefix) <==>
      exists path :: IsAt([one], path, e) && name == Dotted(prefix, path)
    decreases one, 0
  {
    var full := Prefix(prefix, one.0);
    FlatNamesTell(one.1.children, full, name, e);
    if (name, e) == (full, one.1) {
      assert [one][0] == one && [one.0][1..] == [];
      assert IsAt([one], [one.0], e) && Dotted(prefix, [one.0]) == full;
    }
    if path :| IsAt(one.1.children, path, e) && name == Dotted(full, path) {
      var longer := [one.0] + path;
      assert longer[1..] == path && [one][0] == one;
      assert IsAt([one], longer, e) && Dotted(prefix, longer) == name;
    }
    if path :| IsAt([one], path, e) && name == Dotted(prefix, path) {
      assert path[0] == one.0;
      if |path| > 1 {
        assert IsAt(one.1.children, path[1..], e);
      } else {
        assert path[1..] == [] && Dotted(prefix, path) == full;
      }
    }
  }

  // ------------------------------------------------------------------ sections

  /** A dictionary filled from pairs holds under each key the value of the last pair with that key. */
  lemma {:induction false} LastPairCounts<T>(pairs: seq<(string, T)>, i: nat)
    requires i < |pairs| && forall j :: i < j < |pairs| ==> pairs[j].0 != pairs[i].0
    ensures pairs[i].0 in FromPairs(pairs) && FromPairs(pairs)[pairs[i].0] == pairs[i].1
  {
    var front := pairs[..|pairs| - 1];
    if i < |front| {
      LastPairCounts(front, i);
    }
  }

  lemma OldName(pairs: seq<(string, Item)>, names: Names, namespace: string, name: string) returns (k: string)
    requires Injective(names) && KeysOf(pairs) <= names.Keys
    requires name in FromPairs(RenameKeys(pairs, names, namespace))
    ensures k in FromPairs(pairs) && k in names && names[k] == name
  {
    hide RenameKeys, FromPairs, Injective;
    RenamedLookup(pairs, names, namespace);
    k :| k in FromPairs(pairs) && k in names && names[k] == name;
  }

  /**
    An imported section: if no exported name reads like the mark of one that is not, each element is there under its
    name behind the namespace, marked if it is not exported, with its references renamed; and nothing else is there.
   */
  lemma SectionArrives(
    m: Module, namespace: string, exports: map<Section, set<string>>, section: Section, name: string)
    requires section in m.sections && !section.Entities?
    requires forall a, b | a in ExportedIn(exports, section) && b !in ExportedIn(exports, section)
                           && a in NamesIn(m, section) && b in NamesIn(m, section) :: a != "__private." + b
    ensures var symbols, exported := SymbolIndex(m, namespace, exports), ExportedIn(exports, section);
            var arrived, there := NamespacedSection(m, section, namespace, symbols), FromPairs(m.sections[section]);
            && (name in there ==>
                  && NameUnder(namespace, name in exported, name) in arrived
                  && arrived[NameUnder(namespace, name in exported, name)] == RewriteItem(there[name], symbols))
            && (name in arrived ==> exists k :: k in there && name == NameUnder(namespace, k in exported, k))
  {
    hide RewriteItem, NewName, Injective, NameUnder, RenameKeys, RewriteItems, FromPairs;
    var symbols, exported := SymbolIndex(m, namespace, exports), ExportedIn(exports, section);
    var names := SectionNames(namespace, NamesIn(m, section), exported);
    assert MapOf(symbols, section) == names;
    SectionNamesInjectiveIff(namespace, NamesIn(m, section), exported);
    forall k | k in names ensures names[k] == NameUnder(namespace, k in exported, k) {
      NewNameReads(namespace, exported, k);
    }
    PairsArrive(m.sections[section], names, namespace, exported, symbols, name);
  }

  lemma PairsArrive(
    pairs: seq<(string, Item)>, names: Names, namespace: string, exported: set<string>, symbols: Symbols, name: string)
    requires Injective(names) && KeysOf(pairs) <= names.Keys
    requires forall k :: k in names ==> names[k] == NameUnder(namespace, k in exported, k)
    ensures var arrived, there := FromPairs(RenameKeys(RewriteItems(pairs, symbols), names, namespace)),
    FromPairs(pairs);
            && (name in there ==>
                  && NameUnder(namespace, name in exported, name) in arrived
                  && arrived[NameUnder(namespace, name in exported, name)] == RewriteItem(there[name], symbols))
            && (name in arrived ==> exists k :: k in there && name == NameUnder(namespace, k in exported, k))
  {
    hide RewriteItem, Injective, NameUnder, RenameKeys, FromPairs;
    var rewritten := RewriteItems(pairs, symbols);
    FromPairsKeys(pairs);
    FromPairsKeys(rewritten);
    RewrittenLookup(pairs, symbols);
    if name in FromPairs(pairs) {
      RenamedLookupOf(rewritten, names, namespace, name);
    }
    if name in FromPairs(RenameKeys(rewritten, names, namespace)) {
      var k := OldName(rewritten, names, namespace, name);
      assert k in FromPairs(pairs);
    }
  }
}
