/** The ordering dependencies that the compiler constructs: where they lead, and where cycles can live. */
module CompilerOrdering {
  import opened Wrappers
  import opened RuntimeModels

  // -------------------------------------------------------------------- scenario

  datatype NodeDecl = NodeDecl(
    isSwitch: bool, features: seq<string>, conditions: seq<string>, injects: seq<string>,
    dependencies: seq<string>, links: seq<string>)

  datatype ObjectiveDecl = ObjectiveDecl(
    conditions: seq<string>, metrics: seq<string>, evaluations: seq<string>, tlos: seq<string>, goals: seq<string>,
    dependsOn: seq<string>)

  /** The parts of a scenario that order resources; the nodes come in the order of their declaration. */
  datatype Scenario = Scenario(
    nodeOrder: seq<string>,
    nodes: map<string, NodeDecl>,
    features: map<string, seq<string>>,
    conditions: set<string>,
    injects: set<string>,
    content: map<string, string>,
    accounts: map<string, string>,
    events: map<string, seq<string>>,
    scripts: map<string, seq<string>>,
    stories: map<string, seq<string>>,
    workflows: set<string>,
    metrics: map<string, string>,
    evaluations: map<string, seq<string>>,
    tlos: map<string, string>,
    goals: map<string, seq<string>>,
    objectives: map<string, ObjectiveDecl>)
  {
    ghost predicate Valid() {
      NoDuplicates(nodeOrder) && forall n :: n in nodeOrder <==> n in nodes
    }
  }

  // ------------------------------------------------------------------- addresses

  datatype Address = Address(kind: ResourceType, name: string)

  function DomainWord(kind: ResourceType): string {
    if kind.Network? || kind.Node? || kind.FeatureBinding? || kind.ContentPlacement? || kind.AccountPlacement?
    then "provision"
    else if kind.InjectBinding? || kind.Inject? || kind.Event? || kind.Script? || kind.Story? || kind.Workflow?
    then "orchestration"
    else "evaluation"
  }

  function KindWord(kind: ResourceType): string {
    match kind
    case Network => "network"
    case Node => "node"
    case FeatureBinding => "feature"
    case ContentPlacement => "content"
    case AccountPlacement => "account"
    case InjectBinding => "inject-binding"
    case Inject => "inject"
    case Event => "event"
    case Script => "script"
    case Story => "story"
    case Workflow => "workflow"
    case ConditionBinding => "condition"
    case Metric => "metric"
    case EvaluationResource => "evaluation"
    case Tlo => "tlo"
    case Goal => "goal"
    case Objective => "objective"
  }

  /** Empty parts are left out of an address. */
  function Join(first: string, second: string): string {
    if first == "" then second else if second == "" then first else first + "." + second
  }

  function AddressText(a: Address): string {
    DomainWord(a.kind) + "." + Join(KindWord(a.kind), a.name)
  }

  lemma FirstDotDecides(a: string, x: string, b: string, y: string)
    requires a + "." + x == b + "." + y && '.' !in a && '.' !in b
    ensures a == b && x == y
  {
    var text := a + "." + x;
    assert text == b + "." + y;
    assert text[|a|] == '.' && text[|b|] == '.';
    assert forall k :: 0 <= k < |a| ==> text[k] == a[k];
    assert forall k :: 0 <= k < |b| ==> text[k] == b[k];
    assert |a| == |b|;
    assert a == text[..|a|] && x == text[|a| + 1..];
  }

  lemma WordsHaveNoDots(kind: ResourceType)
    ensures '.' !in DomainWord(kind) && '.' !in KindWord(kind) && KindWord(kind) != ""
  {
  }

  lemma KindWordsDiffer(a: ResourceType, b: ResourceType)
    requires KindWord(a) == KindWord(b)
    ensures a == b
  {
  }

  lemma JoinHasDot(a: string, x: string)
    requires '.' !in a && a != ""
    ensures '.' in Join(a, x) <==> x != ""
  {
  }

  lemma JoinDecides(a: string, x: string, b: string, y: string)
    requires Join(a, x) == Join(b, y) && '.' !in a && '.' !in b && a != "" && b != ""
    ensures a == b && x == y
  {
    JoinHasDot(a, x);
    JoinHasDot(b, y);
    if x != "" {
      FirstDotDecides(a, x, b, y);
    }
  }

  /** The text of an address determines its kind and the rest of the name. */
  lemma AddressTextsDiffer(a: Address, b: Address)
    requires AddressText(a) == AddressText(b)
    ensures a == b
  {
    hide DomainWord, KindWord, Join;
    WordsHaveNoDots(a.kind);
    WordsHaveNoDots(b.kind);
    FirstDotDecides(DomainWord(a.kind), Join(KindWord(a.kind), a.name), DomainWord(b.kind),
        Join(KindWord(b.kind), b.name));
    JoinDecides(KindWord(a.kind), a.name, KindWord(b.kind), b.name);
    KindWordsDiffer(a.kind, b.kind);
  }

  // -------------------------------------------------------------------- bindings

  /** The dictionary of bindings under construction: joined name, node, and template. */
  type Bindings = map<string, (string, string)>

  datatype BindingKind = Feature | Condition | InjectKind

  function Wanted(decl: NodeDecl, kind: BindingKind): seq<string> {
    match kind
    case Feature => decl.features
    case Condition => decl.conditions
    case InjectKind => decl.injects
  }

  function Declared(sc: Scenario, kind: BindingKind): set<string> {
    match kind
    case Feature => sc.features.Keys
    case Condition => sc.conditions
    case InjectKind => sc.injects
  }

  /** A node's bindings are entered one after the other; an equal joined name replaces an earlier entry. */
  function BindNode(bindings: Bindings, node: string, wanted: seq<string>, declared: set<string>): Bindings {
    if wanted == [] then bindings
    else
      var before, name := BindNode(bindings, node, wanted[..|wanted| - 1], declared), wanted[|wanted| - 1];
      if name in declared then before[Join(node, name) := (node, name)] else before
  }

  function BindNodes(sc: Scenario, kind: BindingKind, order: seq<string>): Bindings {
    if order == [] then map[]
    else
      var before, node := BindNodes(sc, kind, order[..|order| - 1]), order[|order| - 1];
      if node in sc.nodes && !sc.nodes[node].isSwitch
      then BindNode(before, node, Wanted(sc.nodes[node], kind), Declared(sc, kind))
      else before
  }

  function AllBindings(sc: Scenario, kind: BindingKind): Bindings {
    BindNodes(sc, kind, sc.nodeOrder)
  }

  predicate AllDeclared(decl: NodeDecl, kind: BindingKind, declared: set<string>) {
    decl.isSwitch || forall f :: f in Wanted(decl, kind) ==> f in declared
  }

  /** Every binding that a node wants has a declared template. */
  predicate EverythingDeclared(sc: Scenario, kind: BindingKind) {
    forall n :: n in sc.nodes ==> AllDeclared(sc.nodes[n], kind, Declared(sc, kind))
  }

  method CompileBindings(sc: Scenario, kind: BindingKind) returns (bindings: Bindings, unbound: seq<(string, string)>)
    requires sc.Valid()
    ensures bindings == AllBindings(sc, kind)
    ensures unbound == [] <==> EverythingDeclared(sc, kind)
  {
    hide AllDeclared, BindNode, NoDuplicates, Wanted, Declared;
    bindings, unbound := map[], [];
    for k := 0 to |sc.nodeOrder|
      invariant bindings == BindNodes(sc, kind, sc.nodeOrder[..k])
      invariant unbound == [] <==> forall i :: 0 <= i < k ==>
        sc.nodeOrder[i] in sc.nodes && AllDeclared(sc.nodes[sc.nodeOrder[i]], kind, Declared(sc, kind))
    {
      var node := sc.nodeOrder[k];
      assert node in sc.nodeOrder;
      assert sc.nodeOrder[..k + 1][..k] == sc.nodeOrder[..k];
      var more;
      bindings, more := CompileNodeBindings(bindings, node, sc.nodes[node], kind, Declared(sc, kind));
      unbound := unbound + more;
    }
    assert sc.nodeOrder[..|sc.nodeOrder|] == sc.nodeOrder;
    forall n | n in sc.nodes ensures exists i :: 0 <= i < |sc.nodeOrder| && sc.nodeOrder[i] == n {
      assert n in sc.nodeOrder;
    }
  }

  /** Switches have no bindings. */
  method CompileNodeBindings(before: Bindings, node: string, decl: NodeDecl, kind: BindingKind, declared: set<string>)
    returns (bindings: Bindings, unbound: seq<(string, string)>)
    ensures bindings == if decl.isSwitch then before else BindNode(before, node, Wanted(decl, kind), declared)
    ensures unbound == [] <==> AllDeclared(decl, kind, declared)
  {
    bindings, unbound := before, [];
    if decl.isSwitch {
      return;
    }
    var wanted := Wanted(decl, kind);
    for k := 0 to |wanted|
      invariant bindings == BindNode(before, node, wanted[..k], declared)
      invariant unbound == [] <==> forall i :: 0 <= i < k ==> wanted[i] in declared
    {
      assert wanted[..k + 1][..k] == wanted[..k];
      if wanted[k] !in declared {
        unbound := unbound + [(node, wanted[k])];
        continue;
      }
      bindings := bindings[Join(node, wanted[k]) := (node, wanted[k])];
    }
    assert wanted[..|wanted|] == wanted;
  }

  /** The node at the given place of the order enters a binding of that joined name. */
  predicate Enters(sc: Scenario, kind: BindingKind, i: nat, name: string, template: string)
    requires i < |sc.nodeOrder|
  {
    var node := sc.nodeOrder[i];
    && node in sc.nodes && !sc.nodes[node].isSwitch && template in Wanted(sc.nodes[node], kind)
    && template in Declared(sc, kind)
    && name == Join(node, template)
  }

  lemma {:induction false} BoundByNode(
    bindings: Bindings, node: string, wanted: seq<string>, declared: set<string>, name: string)
    ensures var after := BindNode(bindings, node, wanted, declared);
            if exists f :: f in wanted && f in declared && name == Join(node, f)
            then name in after && after[name].0 == node && after[name].1 in wanted && after[name].1 in declared
                && name == Join(node, after[name].1)
            else (name in after <==> name in bindings) && (name in bindings ==> after[name] == bindings[name])
  {
    if wanted != [] {
      var front, last := wanted[..|wanted| - 1], wanted[|wanted| - 1];
      assert wanted == front + [last];
      BoundByNode(bindings, node, front, declared, name);
    }
  }

  /** The owner stands at the place, enters the name, and no later node does. */
  ghost predicate LastEnters(sc: Scenario, kind: BindingKind, i: nat, k: nat, name: string, owner: (string, string)) {
    && i < k <= |sc.nodeOrder| && sc.nodeOrder[i] == owner.0 && Enters(sc, kind, i, name, owner.1)
    && forall j, f :: i < j < k ==> !Enters(sc, kind, j, name, f)
  }

  /** What the bindings say of a name after some nodes: who entered it last owns it. */
  ghost predicate Owned(sc: Scenario, kind: BindingKind, k: nat, name: string, bindings: Bindings)
    requires k <= |sc.nodeOrder|
  {
    && (name in bindings <==> exists i, f :: 0 <= i < k && Enters(sc, kind, i, name, f))
    && (name in bindings ==> exists i :: 0 <= i < k && LastEnters(sc, kind, i, k, name, bindings[name]))
  }

  lemma OwnedEntered(sc: Scenario, kind: BindingKind, j: nat, name: string, f: string, after: Bindings)
    requires j < |sc.nodeOrder| && Enters(sc, kind, j, name, f)
    requires name in after && Enters(sc, kind, j, name, after[name].1) && after[name].0 == sc.nodeOrder[j]
    ensures Owned(sc, kind, j + 1, name, after)
  {
    assert LastEnters(sc, kind, j, j + 1, name, after[name]);
  }

  lemma OwnedPassed(sc: Scenario, kind: BindingKind, j: nat, name: string, before: Bindings, after: Bindings)
    requires j < |sc.nodeOrder| && Owned(sc, kind, j, name, before)
    requires forall f :: !Enters(sc, kind, j, name, f)
    requires (name in after <==> name in before) && (name in before ==> after[name] == before[name])
    ensures Owned(sc, kind, j + 1, name, after)
  {
    if name in before {
      var i :| 0 <= i < j && LastEnters(sc, kind, i, j, name, before[name]);
      assert LastEnters(sc, kind, i, j + 1, name, before[name]);
    }
  }

  lemma {:induction false} OwnerIsLast(sc: Scenario, kind: BindingKind, k: nat, name: string)
    requires k <= |sc.nodeOrder|
    ensures Owned(sc, kind, k, name, BindNodes(sc, kind, sc.nodeOrder[..k]))
    decreases k
  {
    if k > 0 {
      hide Owned;
      var j := k - 1;
      var order := sc.nodeOrder[..k];
      assert order[..j] == sc.nodeOrder[..j] && order[j] == sc.nodeOrder[j];
      OwnerIsLast(sc, kind, j, name);
      var node, before, after := sc.nodeOrder[j], BindNodes(sc, kind, sc.nodeOrder[..j]), BindNodes(sc, kind, order);
      if node in sc.nodes && !sc.nodes[node].isSwitch {
        BoundByNode(before, node, Wanted(sc.nodes[node], kind), Declared(sc, kind), name);
        assert forall f :: f in Wanted(sc.nodes[node], kind) && f in Declared(sc, kind) && name == Join(node, f) ==>
            Enters(sc, kind, j, name, f);
      }
      if f :| Enters(sc, kind, j, name, f) {
        OwnedEntered(sc, kind, j, name, f, after);
      } else {
        OwnedPassed(sc, kind, j, name, before, after);
      }
    } else {
      assert sc.nodeOrder[..0] == [];
    }
  }

  lemma OwnerOf(sc: Scenario, kind: BindingKind, name: string)
    ensures Owned(sc, kind, |sc.nodeOrder|, name, AllBindings(sc, kind))
  {
    assert sc.nodeOrder[..|sc.nodeOrder|] == sc.nodeOrder;
    OwnerIsLast(sc, kind, |sc.nodeOrder|, name);
  }

  // ----------------------------------------------------------------- dependencies

  function NodeAddress(sc: Scenario, name: string): Address
    requires name in sc.nodes
  {
    Address(if sc.nodes[name].isSwitch then Network else Node, name)
  }

  function Addresses(kind: ResourceType, names: seq<string>, known: set<string>): set<Address> {
    set n | n in names && n in known :: Address(kind, n)
  }

  /** The one binding of a template, if there is exactly one. */
  function TheBinding(bindings: Bindings, template: string): set<string> {
    var matches := set name | name in bindings.Keys && bindings[name].1 == template;
    if |matches| == 1 then matches else {}
  }

  function BindingAddresses(kind: ResourceType, bindings: Bindings, templates: seq<string>): set<Address> {
    set t, name | t in templates && name in TheBinding(bindings, t) :: Address(kind, name)
  }

  function FeatureDependencies(sc: Scenario, owner: (string, string)): set<Address> {
    var (node, feature) := owner;
    if node in sc.nodes && feature in sc.features then
      {Address(Node, node)} + (set d | d in sc.features[feature] && d in sc.nodes[node].features ::
          Address(FeatureBinding, Join(node, d)))
    else {}
  }

  /** What a collected resource is ordered after; nothing for an address under which nothing is collected. */
  function OrderingDependencies(sc: Scenario, a: Address): set<Address> {
    match a.kind
    case Network => NodeDependencies(sc, a)
    case Node => NodeDependencies(sc, a)
    case FeatureBinding =>
      var bindings := AllBindings(sc, Feature);
      if a.name in bindings then FeatureDependencies(sc, bindings[a.name]) else {}
    case ContentPlacement => PlacementDependencies(sc, sc.content, a.name)
    case AccountPlacement => PlacementDependencies(sc, sc.accounts, a.name)
    case InjectBinding =>
      var bindings := AllBindings(sc, InjectKind);
      if a.name in bindings then {Address(Inject, bindings[a.name].1)} else {}
    case Inject => {}
    case Event =>
      if a.name !in sc.events then {}
      else
        var wanted, bindings := sc.events[a.name], AllBindings(sc, InjectKind);
        Addresses(Inject, wanted, sc.injects)
            + (set name | name in bindings.Keys && bindings[name].1 in wanted :: Address(InjectBinding, name))
    case Script => if a.name in sc.scripts then Addresses(Event, sc.scripts[a.name], sc.events.Keys) else {}
    case Story => if a.name in sc.stories then Addresses(Script, sc.stories[a.name], sc.scripts.Keys) else {}
    case Workflow => {}
    case ConditionBinding => {}
    case Metric =>
      if a.name in sc.metrics && sc.metrics[a.name] != ""
      then BindingAddresses(ConditionBinding, AllBindings(sc, Condition), [sc.metrics[a.name]]) else {}
    case EvaluationResource =>
      if a.name in sc.evaluations then Addresses(Metric, sc.evaluations[a.name], sc.metrics.Keys) else {}
    case Tlo => if a.name in sc.tlos then Addresses(EvaluationResource, [sc.tlos[a.name]], sc.evaluations.Keys) else {}
    case Goal => if a.name in sc.goals then Addresses(Tlo, sc.goals[a.name], sc.tlos.Keys) else {}
    case Objective => if a.name in sc.objectives then ObjectiveDependencies(sc, sc.objectives[a.name]) else {}
  }

  function NodeDependencies(sc: Scenario, a: Address): set<Address> {
    if a.name in sc.nodes && a == NodeAddress(sc, a.name) then
      (set d | d in sc.nodes[a.name].dependencies && d in sc.nodes :: NodeAddress(sc, d))
      + (set d | d in sc.nodes[a.name].links && d in sc.nodes && sc.nodes[d].isSwitch :: NodeAddress(sc, d))
    else {}
  }

  function PlacementDependencies(sc: Scenario, targets: map<string, string>, name: string): set<Address> {
    if name in targets && targets[name] in sc.nodes && !sc.nodes[targets[name]].isSwitch
    then {NodeAddress(sc, targets[name])} else {}
  }

  function ObjectiveDependencies(sc: Scenario, o: ObjectiveDecl): set<Address> {
    BindingAddresses(ConditionBinding, AllBindings(sc, Condition), o.conditions)
    + Addresses(Metric, o.metrics, sc.metrics.Keys) + Addresses(EvaluationResource, o.evaluations, sc.evaluations.Keys)
    + Addresses(Tlo, o.tlos, sc.tlos.Keys) + Addresses(Goal, o.goals, sc.goals.Keys)
    + Addresses(Objective, o.dependsOn, sc.objectives.Keys)
  }

  // ------------------------------------------------------ edges from references

  /** The node or network of that name. */
  predicate IsHost(sc: Scenario, b: Address, name: string) {
    b.name == name && name in sc.nodes && b.kind == if sc.nodes[name].isSwitch then Network else Node
  }

  /** The binding is the only one of the template. */
  predicate IsOnlyBinding(bindings: Bindings, name: string, template: string) {
    && name in bindings && bindings[name].1 == template
    && forall other :: other in bindings && bindings[other].1 == template ==> other == name
  }

  /** What refers to what in a scenario, kind by kind: the element under the one address names that under the other. */
  ghost predicate Refers(sc: Scenario, a: Address, b: Address) {
    match a.kind
    case Network => HostRefers(sc, a, b)
    case Node => HostRefers(sc, a, b)
    case FeatureBinding =>
      var bindings := AllBindings(sc, Feature);
      && a.name in bindings && bindings[a.name].0 in sc.nodes && bindings[a.name].1 in sc.features
      && (b == Address(Node, bindings[a.name].0)
          || exists d :: d in sc.features[bindings[a.name].1] && d in sc.nodes[bindings[a.name].0].features
                         && b == Address(FeatureBinding, Join(bindings[a.name].0, d)))
    case ContentPlacement => a.name in sc.content && b.kind.Node? && IsHost(sc, b, sc.content[a.name])
    case AccountPlacement => a.name in sc.accounts && b.kind.Node? && IsHost(sc, b, sc.accounts[a.name])
    case InjectBinding =>
      var bindings := AllBindings(sc, InjectKind);
      a.name in bindings && b == Address(Inject, bindings[a.name].1)
    case Event =>
      var bindings := AllBindings(sc, InjectKind);
      && a.name in sc.events
      && ((b.kind.Inject? && b.name in sc.events[a.name] && b.name in sc.injects)
          || (b.kind.InjectBinding? && b.name in bindings && bindings[b.name].1 in sc.events[a.name]))
    case Script => a.name in sc.scripts && b.kind.Event? && b.name in sc.scripts[a.name] && b.name in sc.events
    case Story => a.name in sc.stories && b.kind.Script? && b.name in sc.stories[a.name] && b.name in sc.scripts
    case Metric =>
      && a.name in sc.metrics && sc.metrics[a.name] != "" && b.kind.ConditionBinding?
      && IsOnlyBinding(AllBindings(sc, Condition), b.name, sc.metrics[a.name])
    case EvaluationResource =>
      a.name in sc.evaluations && b.kind.Metric? && b.name in sc.evaluations[a.name] && b.name in sc.metrics
    case Tlo =>
      a.name in sc.tlos && b.kind.EvaluationResource? && b.name == sc.tlos[a.name] && b.name in sc.evaluations
    case Goal => a.name in sc.goals && b.kind.Tlo? && b.name in sc.goals[a.name] && b.name in sc.tlos
    case Objective => a.name in sc.objectives && ObjectiveRefers(sc, sc.objectives[a.name], b)
    case _ => false
  }

  ghost predicate HostRefers(sc: Scenario, a: Address, b: Address) {
    && IsHost(sc, a, a.name) && IsHost(sc, b, b.name)
    && (b.name in sc.nodes[a.name].dependencies || (b.name in sc.nodes[a.name].links && b.kind.Network?))
  }

  ghost predicate ObjectiveRefers(sc: Scenario, o: ObjectiveDecl, b: Address) {
    match b.kind
    case ConditionBinding =>
      exists c :: c in o.conditions && IsOnlyBinding(AllBindings(sc, Condition), b.name, c)
    case Metric => b.name in o.metrics && b.name in sc.metrics
    case EvaluationResource => b.name in o.evaluations && b.name in sc.evaluations
    case Tlo => b.name in o.tlos && b.name in sc.tlos
    case Goal => b.name in o.goals && b.name in sc.goals
    case Objective => b.name in o.dependsOn && b.name in sc.objectives
    case _ => false
  }

  lemma TheBindingIsOnly(bindings: Bindings, name: string, template: string)
    ensures name in TheBinding(bindings, template) <==> IsOnlyBinding(bindings, name, template)
  {
    var matches := set n | n in bindings.Keys && bindings[n].1 == template;
    if |matches| == 1 && name in matches {
      forall other | other in bindings && bindings[other].1 == template ensures other == name {
        assert other in matches;
        OneElement(matches, name, other);
      }
    }
    if IsOnlyBinding(bindings, name, template) {
      assert matches == {name};
    }
  }

  lemma OneElement(s: set<string>, a: string, b: string)
    requires |s| == 1 && a in s && b in s
    ensures a == b
  {
    var rest := s - {a};
    assert |rest| == 0 && rest == {};
    assert b !in rest;
  }

  lemma BindingAddressesAreOnly(bindings: Bindings, templates: seq<string>, b: Address)
    ensures b in BindingAddresses(ConditionBinding, bindings, templates) <==>
      b.kind.ConditionBinding? && exists t :: t in templates && IsOnlyBinding(bindings, b.name, t)
  {
    forall t | t in templates
      ensures b.name in TheBinding(bindings, t) <==> IsOnlyBinding(bindings, b.name, t)
    {
      TheBindingIsOnly(bindings, b.name, t);
    }
  }

  lemma ObjectiveEdges(sc: Scenario, o: ObjectiveDecl, b: Address)
    ensures b in ObjectiveDependencies(sc, o) <==> ObjectiveRefers(sc, o, b)
  {
    hide AllBindings, BindingAddresses, IsOnlyBinding;
    BindingAddressesAreOnly(AllBindings(sc, Condition), o.conditions, b);
  }

  lemma HostEdges(sc: Scenario, a: Address, b: Address)
    requires a.kind.Network? || a.kind.Node?
    ensures b in NodeDependencies(sc, a) <==> HostRefers(sc, a, b)
  {
  }

  lemma PlacementEdges(sc: Scenario, targets: map<string, string>, name: string, b: Address)
    ensures b in PlacementDependencies(sc, targets, name) <==>
      name in targets && b.kind.Node? && IsHost(sc, b, targets[name])
  {
  }

  lemma FeatureEdges(sc: Scenario, owner: (string, string), b: Address)
    ensures b in FeatureDependencies(sc, owner) <==>
      && owner.0 in sc.nodes && owner.1 in sc.features
      && (b == Address(Node, owner.0)
          || exists d :: d in sc.features[owner.1] && d in sc.nodes[owner.0].features
                         && b == Address(FeatureBinding, Join(owner.0, d)))
  {
    hide Join;
  }

  lemma NamedEdges(kind: ResourceType, names: seq<string>, known: set<string>, b: Address)
    ensures b in Addresses(kind, names, known) <==> b.kind == kind && b.name in names && b.name in known
  {
  }

  lemma EventEdges(sc: Scenario, a: Address, b: Address)
    requires a.kind.Event?
    ensures b in OrderingDependencies(sc, a) <==> Refers(sc, a, b)
  {
    hide AllBindings, Addresses;
    if a.name in sc.events {
      NamedEdges(Inject, sc.events[a.name], sc.injects, b);
    }
  }

  /** The edges of the kinds that refer by name only. */
  lemma PlainEdges(sc: Scenario, a: Address, b: Address)
    requires a.kind.Script? || a.kind.Story? || a.kind.EvaluationResource? || a.kind.Tlo? || a.kind.Goal?
    ensures b in OrderingDependencies(sc, a) <==> Refers(sc, a, b)
  {
    hide AllBindings, Addresses;
    match a.kind
    case Script =>
      if a.name in sc.scripts { NamedEdges(Event, sc.scripts[a.name], sc.events.Keys, b); }
    case Story =>
      if a.name in sc.stories { NamedEdges(Script, sc.stories[a.name], sc.scripts.Keys, b); }
    case EvaluationResource =>
      if a.name in sc.evaluations { NamedEdges(Metric, sc.evaluations[a.name], sc.metrics.Keys, b); }
    case Tlo =>
      if a.name in sc.tlos { NamedEdges(EvaluationResource, [sc.tlos[a.name]], sc.evaluations.Keys, b); }
    case Goal =>
      if a.name in sc.goals { NamedEdges(Tlo, sc.goals[a.name], sc.tlos.Keys, b); }
  }

  /** The ordering dependencies are exactly the references of the scenario: every reference gives its edge. */
  lemma EdgesAreReferences(sc: Scenario, a: Address, b: Address)
    ensures b in OrderingDependencies(sc, a) <==> Refers(sc, a, b)
  {
    hide AllBindings, BindingAddresses, IsOnlyBinding, ObjectiveDependencies, ObjectiveRefers, Join, NodeDependencies,
    HostRefers, PlacementDependencies, FeatureDependencies, Addresses, IsHost;
    var bindings := AllBindings(sc, Feature);
    match a.kind
    case Network => HostEdges(sc, a, b);
    case Node => HostEdges(sc, a, b);
    case FeatureBinding =>
      if a.name in bindings {
        FeatureEdges(sc, bindings[a.name], b);
      }
    case ContentPlacement => PlacementEdges(sc, sc.content, a.name, b);
    case AccountPlacement => PlacementEdges(sc, sc.accounts, a.name, b);
    case Event => EventEdges(sc, a, b);
    case Metric =>
      if a.name in sc.metrics {
        BindingAddressesAreOnly(AllBindings(sc, Condition), [sc.metrics[a.name]], b);
      }
    case Objective =>
      if a.name in sc.objectives {
        ObjectiveEdges(sc, sc.objectives[a.name], b);
      }
    case _ =>
      if a.kind.Script? || a.kind.Story? || a.kind.EvaluationResource? || a.kind.Tlo? || a.kind.Goal? {
        PlainEdges(sc, a, b);
      }
  }

  /** The node is no switch, lists the template, which is declared, and the name joins the two. */
  predicate BindsTemplate(sc: Scenario, kind: BindingKind, name: string, node: string, template: string) {
    && node in sc.nodes && !sc.nodes[node].isSwitch
    && name == (if node == "" then template else if template == "" then node else node + "." + template)
    && match kind
       case Feature => template in sc.nodes[node].features && template in sc.features
       case Condition => template in sc.nodes[node].conditions && template in sc.conditions
       case InjectKind => template in sc.nodes[node].injects && template in sc.injects
  }

  /** A name is bound exactly if it joins a node with a declared template that the node lists, and to such a pair. */
  lemma BindingsTell(sc: Scenario, kind: BindingKind, name: string)
    requires sc.Valid()
    ensures var bindings := AllBindings(sc, kind);
            && (name in bindings <==> exists node, template :: BindsTemplate(sc, kind, name, node, template))
            && (name in bindings ==> BindsTemplate(sc, kind, name, bindings[name].0, bindings[name].1))
  {
    hide AllBindings;
    OwnerOf(sc, kind, name);
    if name in AllBindings(sc, kind) {
      OwnersAreReal(sc, kind, name);
      assert BindsTemplate(sc, kind, name, AllBindings(sc, kind)[name].0, AllBindings(sc, kind)[name].1);
    }
    forall node, template | BindsTemplate(sc, kind, name, node, template) ensures name in AllBindings(sc, kind) {
      assert node in sc.nodeOrder;
      var i :| 0 <= i < |sc.nodeOrder| && sc.nodeOrder[i] == node;
      assert Enters(sc, kind, i, name, template);
    }
  }

  // -------------------------------------------------------------------- collected

  predicate Collected(sc: Scenario, a: Address) {
    match a.kind
    case Network => a.name in sc.nodes && sc.nodes[a.name].isSwitch
    case Node => a.name in sc.nodes && !sc.nodes[a.name].isSwitch
    case FeatureBinding => a.name in AllBindings(sc, Feature)
    case ContentPlacement => PlacementDependencies(sc, sc.content, a.name) != {}
    case AccountPlacement => PlacementDependencies(sc, sc.accounts, a.name) != {}
    case InjectBinding => a.name in AllBindings(sc, InjectKind)
    case Inject => a.name in sc.injects
    case Event => a.name in sc.events
    case Script => a.name in sc.scripts
    case Story => a.name in sc.stories
    case Workflow => a.name in sc.workflows
    case ConditionBinding => a.name in AllBindings(sc, Condition)
    case Metric => a.name in sc.metrics
    case EvaluationResource => a.name in sc.evaluations
    case Tlo => a.name in sc.tlos
    case Goal => a.name in sc.goals
    case Objective => a.name in sc.objectives
  }

  // --------------------------------------------------------------------- closure

  /** A bound feature whose own dependency is wanted on the node but not declared. */
  predicate Dangling(sc: Scenario, name: string, d: string) {
    var bindings := AllBindings(sc, Feature);
    && name in bindings && bindings[name].0 in sc.nodes && bindings[name].1 in sc.features
    && d in sc.features[bindings[name].1] && d in sc.nodes[bindings[name].0].features
    && Join(bindings[name].0, d) !in bindings
  }

  lemma OwnersAreReal(sc: Scenario, kind: BindingKind, name: string)
    requires sc.Valid() && name in AllBindings(sc, kind)
    ensures var (node, template) := AllBindings(sc, kind)[name];
            node in sc.nodes && !sc.nodes[node].isSwitch && template in Wanted(sc.nodes[node], kind)
                && template in Declared(sc, kind)
            && name == Join(node, template)
  {
    OwnerOf(sc, kind, name);
  }

  /** A feature binding is left dangling only where a wanted feature is undeclared, which the compiler reports. */
  lemma DanglingIsUndeclared(sc: Scenario, name: string, d: string)
    requires sc.Valid() && Dangling(sc, name, d)
    ensures d !in sc.features
  {
    OwnersAreReal(sc, Feature, name);
    var node := AllBindings(sc, Feature)[name].0;
    if d in sc.features {
      assert node in sc.nodeOrder;
      var i :| 0 <= i < |sc.nodeOrder| && sc.nodeOrder[i] == node;
      assert Enters(sc, Feature, i, Join(node, d), d);
      OwnerOf(sc, Feature, Join(node, d));
    }
  }

  lemma FeatureDependencyCollected(sc: Scenario, name: string, b: Address)
    requires sc.Valid() && name in AllBindings(sc, Feature)
        && b in FeatureDependencies(sc, AllBindings(sc, Feature)[name])
    ensures Collected(sc, b) || exists d :: Dangling(sc, name, d)
  {
    hide AllBindings;
    OwnersAreReal(sc, Feature, name);
    if !Collected(sc, b) {
      var (node, feature) := AllBindings(sc, Feature)[name];
      var d :| d in sc.features[feature] && d in sc.nodes[node].features && b == Address(FeatureBinding, Join(node, d));
      assert Dangling(sc, name, d);
    }
  }

  lemma ObjectiveDependencyCollected(sc: Scenario, o: ObjectiveDecl, b: Address)
    requires b in ObjectiveDependencies(sc, o)
    ensures Collected(sc, b) && DomainWord(b.kind) == DomainWord(Objective)
    ensures Rank(b.kind) < Rank(Objective) || b.kind.Objective?
  {
    hide AllBindings, Join, KindWord;
  }

  lemma DependencyCollected(sc: Scenario, a: Address, b: Address)
    requires sc.Valid() && b in OrderingDependencies(sc, a)
    ensures Collected(sc, b) || (a.kind.FeatureBinding? && exists d :: Dangling(sc, a.name, d))
  {
    hide AllBindings, FeatureDependencies, ObjectiveDependencies, Dangling, Join;
    if a.kind.FeatureBinding? {
      FeatureDependencyCollected(sc, a.name, b);
    } else if a.kind.InjectBinding? {
      OwnersAreReal(sc, InjectKind, a.name);
    } else if a.kind.Objective? {
      ObjectiveDependencyCollected(sc, sc.objectives[a.name], b);
    }
  }

  /** Every ordering dependency is the address of a collected resource, exactly when no feature binding dangles. */
  lemma DependenciesCollectedIff(sc: Scenario)
    requires sc.Valid()
    ensures (forall a, b :: b in OrderingDependencies(sc, a) ==> Collected(sc, b)) <==>
        (forall name, d :: !Dangling(sc, name, d))
  {
    forall a, b | b in OrderingDependencies(sc, a) && !Collected(sc, b)
        ensures exists name, d :: Dangling(sc, name, d) {
      DependencyCollected(sc, a, b);
    }
    forall name, d | Dangling(sc, name, d)
        ensures exists a, b :: b in OrderingDependencies(sc, a) && !Collected(sc, b) {
      var a, b := Address(FeatureBinding, name), Address(FeatureBinding, Join(AllBindings(sc, Feature)[name].0, d));
      assert b in OrderingDependencies(sc, a) && !Collected(sc, b);
    }
  }

  // ---------------------------------------------------------------------- cycles

  function Rank(kind: ResourceType): nat {
    match kind
    case Network => 0
    case Node => 0
    case FeatureBinding => 1
    case ContentPlacement => 2
    case AccountPlacement => 2
    case Inject => 0
    case InjectBinding => 1
    case Event => 2
    case Script => 3
    case Story => 4
    case Workflow => 5
    case ConditionBinding => 0
    case Metric => 1
    case EvaluationResource => 2
    case Tlo => 3
    case Goal => 4
    case Objective => 5
  }

  datatype Class = Hosts | FeatureBindings | Objectives | Unordered

  /** Kinds that can depend on their own kind. */
  function ClassOf(kind: ResourceType): Class {
    if kind.Network? || kind.Node? then Hosts
    else if kind.FeatureBinding? then FeatureBindings
    else if kind.Objective? then Objectives
    else Unordered
  }

  /** The place of the node that owns a feature binding; behind all others for one that dangles. */
  function OwnerPlace(sc: Scenario, name: string): nat {
    var bindings := AllBindings(sc, Feature);
    if name in bindings then PlaceOf(sc.nodeOrder, bindings[name].0) else |sc.nodeOrder|
  }

  function PlaceOf(order: seq<string>, node: string): (i: nat)
    ensures i <= |order| && (node in order ==> i < |order| && order[i] == node)
  {
    if order == [] then 0 else if order[0] == node then 0 else PlaceOf(order[1..], node) + 1
  }

  /**
    The one binding depends on a feature that its node wants but that is undeclared, and the other bears the joined
    name all the same.
   */
  predicate Borrows(sc: Scenario, x: string, y: string) {
    var bindings := AllBindings(sc, Feature);
    && x in bindings && y in bindings && bindings[x].1 in sc.features && bindings[x].0 in sc.nodes
    && exists d :: d in sc.features[bindings[x].1]
                   && BorrowedAs(sc, bindings[x].0, d, y)
  }

  predicate BorrowedAs(sc: Scenario, node: string, d: string, y: string) {
    node in sc.nodes && d in sc.nodes[node].features && d !in sc.features && y == Join(node, d)
  }

  lemma JoinInjective(node: string, d: string, e: string)
    requires Join(node, d) == Join(node, e)
    ensures d == e
  {
    if node != "" && d != "" && e != "" {
      assert d == (node + "." + d)[|node| + 1..];
      assert e == (node + "." + e)[|node| + 1..];
    }
  }

  /** The borrowed binding belongs to another node than the one that borrows. */
  lemma LenderIsAnotherNode(sc: Scenario, x: string, y: string)
    requires sc.Valid() && Borrows(sc, x, y)
    ensures AllBindings(sc, Feature)[x].0 != AllBindings(sc, Feature)[y].0
  {
    hide AllBindings, Join, Scenario.Valid;
    var node := AllBindings(sc, Feature)[x].0;
    var (owner, template) := AllBindings(sc, Feature)[y];
    var d :| d in sc.features[AllBindings(sc, Feature)[x].1] && BorrowedAs(sc, node, d, y);
    OwnersAreReal(sc, Feature, y);
    if node == owner {
      JoinInjective(node, d, template);
    }
  }

  lemma DependedOwnerIsLater(sc: Scenario, a: string, d: string)
    requires sc.Valid() && a in AllBindings(sc, Feature)
    requires var (node, feature) := AllBindings(sc, Feature)[a];
             node in sc.nodes && d in sc.nodes[node].features && feature in sc.features && d in sc.features[feature]
    requires !Borrows(sc, a, Join(AllBindings(sc, Feature)[a].0, d))
    ensures OwnerPlace(sc, a) <= OwnerPlace(sc, Join(AllBindings(sc, Feature)[a].0, d))
  {
    hide AllBindings, Join;
    var node := AllBindings(sc, Feature)[a].0;
    var name := Join(node, d);
    OwnersAreReal(sc, Feature, a);
    assert node in sc.nodeOrder;
    var i := PlaceOf(sc.nodeOrder, node);
    if name in AllBindings(sc, Feature) {
      assert d in sc.features by {
        assert !BorrowedAs(sc, node, d, name);
      }
      OwnerOf(sc, Feature, name);
      var owner := AllBindings(sc, Feature)[name];
      var k :| 0 <= k < |sc.nodeOrder| && LastEnters(sc, Feature, k, |sc.nodeOrder|, name, owner);
      assert Enters(sc, Feature, i, name, d);
      assert PlaceOf(sc.nodeOrder, owner.0) == k;
    }
  }

  /** Along a dependency the rank falls, or the class stays the same. */
  predicate Descends(a: ResourceType, b: ResourceType) {
    && DomainWord(a) == DomainWord(b)
    && (Rank(b) < Rank(a) || (ClassOf(a) == ClassOf(b) && !ClassOf(a).Unordered? && Rank(a) == Rank(b)))
  }

  lemma DescendsTransitive(a: ResourceType, b: ResourceType, c: ResourceType)
    requires Descends(a, b) && Descends(b, c)
    ensures Descends(a, c)
  {
  }

  lemma DependenciesDescend(sc: Scenario, a: Address, b: Address)
    requires b in OrderingDependencies(sc, a)
    ensures Descends(a.kind, b.kind)
  {
    hide AllBindings, KindWord, Join, ObjectiveDependencies;
    if a.kind.Objective? {
      ObjectiveDependencyCollected(sc, sc.objectives[a.name], b);
    }
  }

  /** From a feature binding to one that it does not borrow the owning node does not come earlier in the scenario. */
  lemma OwnersDescend(sc: Scenario, a: Address, b: Address)
    requires sc.Valid() && b in OrderingDependencies(sc, a) && a.kind.FeatureBinding? && b.kind.FeatureBinding?
    requires !Borrows(sc, a.name, b.name)
    ensures OwnerPlace(sc, a.name) <= OwnerPlace(sc, b.name)
  {
    hide AllBindings, OwnerPlace, KindWord, Join, Borrows;
    OwnersAreReal(sc, Feature, a.name);
    var (node, feature) := AllBindings(sc, Feature)[a.name];
    var d :| d in sc.features[feature] && d in sc.nodes[node].features && b == Address(FeatureBinding, Join(node, d));
    DependedOwnerIsLater(sc, a.name, d);
  }

  /** One gets from one address to the other along so many ordering dependencies. */
  ghost predicate Walks(sc: Scenario, a: Address, b: Address, k: nat)
    decreases k
  {
    if k == 0 then a == b else exists d :: d in OrderingDependencies(sc, a) && Walks(sc, d, b, k - 1)
  }

  lemma {:induction false} WalksDescend(sc: Scenario, a: Address, b: Address, k: nat)
    requires Walks(sc, a, b, k)
    ensures a == b || Descends(a.kind, b.kind)
    ensures k > 0 ==> Descends(a.kind, b.kind)
    decreases k
  {
    hide OrderingDependencies, Descends, Walks;
    if k == 0 {
      NoStep(sc, a, b);
    } else {
      var d := FirstStep(sc, a, b, k);
      DependenciesDescend(sc, a, d);
      WalksDescend(sc, d, b, k - 1);
      if d != b {
        DescendsTransitive(a.kind, d.kind, b.kind);
      }
    }
  }

  lemma FirstStep(sc: Scenario, a: Address, b: Address, k: nat) returns (d: Address)
    requires k > 0 && Walks(sc, a, b, k)
    ensures d in OrderingDependencies(sc, a) && Walks(sc, d, b, k - 1) && (k == 1 ==> d == b)
  {
    d :| d in OrderingDependencies(sc, a) && Walks(sc, d, b, k - 1);
  }

  lemma BetweenFeatures(a: ResourceType, d: ResourceType, b: ResourceType)
    requires a.FeatureBinding? && b.FeatureBinding? && Descends(a, d) && (d == b || Descends(d, b))
    ensures d.FeatureBinding?
  {
  }

  lemma NoStep(sc: Scenario, a: Address, b: Address)
    requires Walks(sc, a, b, 0)
    ensures a == b
  {
  }

  lemma {:induction false} WalksCompose(sc: Scenario, a: Address, b: Address, c: Address, k: nat, l: nat)
    requires Walks(sc, a, b, k) && Walks(sc, b, c, l)
    ensures Walks(sc, a, c, k + l)
    decreases k
  {
    hide OrderingDependencies;
    if k > 0 {
      var d := FirstStep(sc, a, b, k);
      WalksCompose(sc, d, b, c, k - 1, l);
    }
  }

  ghost predicate WalksBack(sc: Scenario, y: string, x: string) {
    exists k: nat :: Walks(sc, Address(FeatureBinding, y), Address(FeatureBinding, x), k)
  }

  /** No binding leads back to one that borrows it. */
  ghost predicate NoBorrowingCycle(sc: Scenario) {
    forall x, y :: Borrows(sc, x, y) ==> !WalksBack(sc, y, x)
  }

  lemma StepOnCycleIsNotBorrowed(sc: Scenario, a: Address, d: Address, k: nat)
    requires NoBorrowingCycle(sc) && a.kind.FeatureBinding? && d.kind.FeatureBinding? && Walks(sc, d, a, k)
    ensures !Borrows(sc, a.name, d.name)
  {
    hide Walks, Borrows;
    assert WalksBack(sc, d.name, a.name);
  }

  /** On a cycle that borrows nothing, owners only come later and later. */
  lemma {:induction false} WalkedOwnersDescend(sc: Scenario, a: Address, b: Address, k: nat, l: nat)
    requires sc.Valid() && NoBorrowingCycle(sc) && a.kind.FeatureBinding? && b.kind.FeatureBinding?
    requires Walks(sc, a, b, k) && Walks(sc, b, a, l)
    ensures OwnerPlace(sc, a.name) <= OwnerPlace(sc, b.name)
    decreases k
  {
    hide OrderingDependencies, OwnerPlace, NoBorrowingCycle, Descends, Walks, Borrows, Scenario.Valid;
    if k == 0 {
      NoStep(sc, a, b);
    } else {
      var d := FirstStep(sc, a, b, k);
      DependenciesDescend(sc, a, d);
      WalksDescend(sc, d, b, k - 1);
      BetweenFeatures(a.kind, d.kind, b.kind);
      WalksCompose(sc, d, b, a, k - 1, l);
      StepOnCycleIsNotBorrowed(sc, a, d, k - 1 + l);
      OwnersDescend(sc, a, d);
      OneStep(sc, a, d);
      WalksCompose(sc, b, a, d, l, 1);
      WalkedOwnersDescend(sc, d, b, k - 1, l + 1);
    }
  }

  lemma OneStep(sc: Scenario, a: Address, d: Address)
    requires d in OrderingDependencies(sc, a)
    ensures Walks(sc, a, d, 1)
  {
    hide OrderingDependencies;
    assert Walks(sc, d, d, 0);
  }

  /** Two addresses, the same or not, that lie on one ordering cycle. */
  ghost predicate OnOneCycle(sc: Scenario, a: Address, b: Address) {
    exists k: nat, l: nat :: k > 0 && Walks(sc, a, b, k) && Walks(sc, b, a, l)
  }

  /**
    For every scenario, whatever lies on one ordering cycle is all nodes and networks, or all feature bindings, or
    all objectives. In particular there is no orchestration cycle.
   */
  lemma WhereCyclesLive(sc: Scenario, a: Address, b: Address)
    requires OnOneCycle(sc, a, b)
    ensures ClassOf(a.kind) == ClassOf(b.kind) && !ClassOf(a.kind).Unordered?
  {
    hide DomainWord;
    var k: nat, l: nat :| k > 0 && Walks(sc, a, b, k) && Walks(sc, b, a, l);
    WalksDescend(sc, a, b, k);
    WalksDescend(sc, b, a, l);
  }

  /** The two bindings are there and belong to one node. */
  predicate SameNode(sc: Scenario, a: string, b: string) {
    var bindings := AllBindings(sc, Feature);
    a in bindings && b in bindings && bindings[a].0 == bindings[b].0
  }

  /** Feature bindings on one cycle always belong to one node. */
  ghost predicate FeatureCyclesOnOneNode(sc: Scenario) {
    forall a, b :: OnOneCycle(sc, Address(FeatureBinding, a), Address(FeatureBinding, b)) ==> SameNode(sc, a, b)
  }

  lemma UnborrowedCycleStays(sc: Scenario, a: Address, b: Address)
    requires sc.Valid() && NoBorrowingCycle(sc) && OnOneCycle(sc, a, b) && a.kind.FeatureBinding?
        && b.kind.FeatureBinding?
    ensures SameNode(sc, a.name, b.name)
  {
    hide OwnerPlace, AllBindings, NoBorrowingCycle, Scenario.Valid;
    var k: nat, l: nat :| k > 0 && Walks(sc, a, b, k) && Walks(sc, b, a, l);
    WalkedOwnersDescend(sc, a, b, k, l);
    WalkedOwnersDescend(sc, b, a, l, k);
    HasDependencies(sc, a, b, k);
    if l > 0 {
      HasDependencies(sc, b, a, l);
    }
    SamePlaceSameNode(sc, a.name, b.name);
  }

  lemma BorrowedIsDependency(sc: Scenario, x: string, y: string)
    requires Borrows(sc, x, y)
    ensures Address(FeatureBinding, y) in OrderingDependencies(sc, Address(FeatureBinding, x))
  {
    hide AllBindings, Join;
  }

  lemma BorrowingCycleJoinsNodes(sc: Scenario, x: string, y: string)
    requires sc.Valid() && Borrows(sc, x, y) && WalksBack(sc, y, x)
    ensures OnOneCycle(sc, Address(FeatureBinding, x), Address(FeatureBinding, y)) && !SameNode(sc, x, y)
  {
    hide Borrows, AllBindings, OrderingDependencies, Walks, Scenario.Valid;
    BorrowedIsDependency(sc, x, y);
    OneStep(sc, Address(FeatureBinding, x), Address(FeatureBinding, y));
    LenderIsAnotherNode(sc, x, y);
  }

  /**
    Feature bindings on one cycle always belong to one node exactly when no binding leads back to one that borrows it.
   */
  lemma FeatureCyclesStayOnOneNodeIff(sc: Scenario)
    requires sc.Valid()
    ensures FeatureCyclesOnOneNode(sc) <==> NoBorrowingCycle(sc)
  {
    hide Borrows, WalksBack, OnOneCycle, SameNode, Scenario.Valid;
    if NoBorrowingCycle(sc) {
      forall a, b | OnOneCycle(sc, Address(FeatureBinding, a), Address(FeatureBinding, b)) ensures SameNode(sc, a, b) {
        UnborrowedCycleStays(sc, Address(FeatureBinding, a), Address(FeatureBinding, b));
      }
    } else {
      var x, y :| Borrows(sc, x, y) && WalksBack(sc, y, x);
      BorrowingCycleJoinsNodes(sc, x, y);
    }
  }

  /** No node wants an undeclared feature under a name that a binding bears. */
  predicate NoBorrowedNames(sc: Scenario) {
    forall n, d | n in sc.nodes && !sc.nodes[n].isSwitch && d in sc.nodes[n].features ::
      d in sc.features || Join(n, d) !in AllBindings(sc, Feature)
  }

  /** So they do where nothing is borrowed at all. */
  lemma FeatureCyclesStayOnOneNode(sc: Scenario)
    requires sc.Valid() && NoBorrowedNames(sc)
    ensures FeatureCyclesOnOneNode(sc)
  {
    hide AllBindings, Join, FeatureCyclesOnOneNode, WalksBack;
    forall x, y | Borrows(sc, x, y) ensures false {
      OwnersAreReal(sc, Feature, x);
    }
    FeatureCyclesStayOnOneNodeIff(sc);
  }

  lemma HasDependencies(sc: Scenario, a: Address, b: Address, k: nat)
    requires k > 0 && Walks(sc, a, b, k) && a.kind.FeatureBinding?
    ensures a.name in AllBindings(sc, Feature)
  {
  }

  lemma SamePlaceSameNode(sc: Scenario, a: string, b: string)
    requires sc.Valid() && a in AllBindings(sc, Feature) && b in AllBindings(sc, Feature)
    requires OwnerPlace(sc, a) == OwnerPlace(sc, b)
    ensures AllBindings(sc, Feature)[a].0 == AllBindings(sc, Feature)[b].0
  {
    OwnersAreReal(sc, Feature, a);
    OwnersAreReal(sc, Feature, b);
    assert AllBindings(sc, Feature)[a].0 in sc.nodeOrder && AllBindings(sc, Feature)[b].0 in sc.nodeOrder;
  }

  lemma DeclaredHere(sc: Scenario, n: string, d: string)
    requires EverythingDeclared(sc, Feature) && n in sc.nodes && !sc.nodes[n].isSwitch && d in sc.nodes[n].features
    ensures d in sc.features
  {
  }

  /**
    Where every wanted feature is declared, and so the compiler reports none as unbound, nothing dangles and no name
    is borrowed.
   */
  lemma DeclaredBorrowsNothing(sc: Scenario)
    requires sc.Valid() && EverythingDeclared(sc, Feature)
    ensures NoBorrowedNames(sc) && forall name, d :: !Dangling(sc, name, d)
  {
    forall name, d | Dangling(sc, name, d) ensures false {
      OwnersAreReal(sc, Feature, name);
      DeclaredHere(sc, AllBindings(sc, Feature)[name].0, d);
      DanglingIsUndeclared(sc, name, d);
    }
    forall n, d | n in sc.nodes && !sc.nodes[n].isSwitch && d in sc.nodes[n].features ensures d in sc.features {
      DeclaredHere(sc, n, d);
    }
  }

  // ---------------------------------------------- a cycle across nodes, with dots

  const HOST := NodeDecl(false, ["b.w", "b.c"], [], [], [], [])
  const GUEST := NodeDecl(false, ["c", "w"], [], [], [], [])

  /**
    Two nodes whose names share a prefix; each wants one undeclared feature under a name that the other's binding
    bears.
   */
  function Borrowing(): Scenario {
    Scenario(["a", "a.b"], map["a" := HOST, "a.b" := GUEST], map["b.w" := ["b.c"], "c" := ["w"]],
             {}, {}, map[], map[], map[], map[], map[], {}, map[], map[], map[], map[], map[])
  }

  lemma BorrowingBindings()
    ensures AllBindings(Borrowing(), Feature) == map["a.b.w" := ("a", "b.w"), "a.b.c" := ("a.b", "c")]
  {
    var sc := Borrowing();
    var declared := Declared(sc, Feature);
    assert ["a", "a.b"][..1] == ["a"] && ["a"][..0] == [];
    assert ["b.w", "b.c"][..1] == ["b.w"] && ["b.w"][..0] == [];
    assert ["c", "w"][..1] == ["c"] && ["c"][..0] == [];
    assert "b.c" !in declared && "w" !in declared && "b.w" in declared && "c" in declared;
    var first: Bindings := map["a.b.w" := ("a", "b.w")];
    assert Join("a", "b.w") == "a.b.w" && Join("a.b", "c") == "a.b.c";
    assert BindNode(map[], "a", ["b.w"], declared) == first;
    assert BindNode(map[], "a", ["b.w", "b.c"], declared) == first;
    assert BindNodes(sc, Feature, ["a"]) == first;
    assert BindNode(first, "a.b", ["c"], declared) == first["a.b.c" := ("a.b", "c")];
    assert BindNode(first, "a.b", ["c", "w"], declared) == first["a.b.c" := ("a.b", "c")];
  }

  /** Without the condition feature bindings of different nodes can lie on one cycle. */
  lemma BorrowedNamesJoinNodes()
    ensures var sc := Borrowing();
            var a, b := Address(FeatureBinding, "a.b.w"), Address(FeatureBinding, "a.b.c");
            && sc.Valid() && OnOneCycle(sc, a, b)
            && AllBindings(sc, Feature)[a.name].0 != AllBindings(sc, Feature)[b.name].0
  {
    var sc := Borrowing();
    var a, b := Address(FeatureBinding, "a.b.w"), Address(FeatureBinding, "a.b.c");
    BorrowingBindings();
    assert sc.nodeOrder[0] == "a" && sc.nodeOrder[1] == "a.b";
    assert Join("a", "b.c") == "a.b.c" && Join("a.b", "w") == "a.b.w";
    assert "b.c" in sc.features["b.w"] && HOST.features[1] == "b.c";
    assert "w" in sc.features["c"] && GUEST.features[1] == "w";
    assert b in OrderingDependencies(sc, a) && a in OrderingDependencies(sc, b);
    assert Walks(sc, b, b, 0) && Walks(sc, a, a, 0);
    assert Walks(sc, a, b, 1) && Walks(sc, b, a, 1);
  }
}
