/**
  Mounting an imported module under a namespace: names are prefixed, and references keep pointing at the same things.
 */
module Namespacing {
  import opened Wrappers

  datatype Section =
    | Nodes | Infrastructure | Features | Conditions | Vulnerabilities | Metrics | Evaluations | Tlos | Goals | Entities
    | Injects | Events | Scripts | Stories | Content | Accounts | Relationships | Agents | Objectives | Workflows

  /** What a workflow step refers to; an empty text refers to nothing. */
  datatype WorkflowStep = WorkflowStep(
    objective: string, workflow: string, compensateWith: string,
    conditions: seq<string>, metrics: seq<string>, evaluations: seq<string>, tlos: seq<string>, goals: seq<string>,
    objectives: seq<string>)

  /** The elements of a module by what they refer to. Single references may be empty. */
  datatype Item =
    | NodeItem(features: seq<string>, conditions: seq<string>, injects: seq<string>, vulnerabilities: seq<string>,
        entities: seq<string>)
    | FeatureItem(dependencies: seq<string>, vulnerabilities: seq<string>)
    | MetricItem(condition: string)
    | EvaluationItem(metrics: seq<string>)
    | TloItem(evaluation: string)
    | GoalItem(tlos: seq<string>)
    | EntityItem(vulnerabilities: seq<string>, tlos: seq<string>, events: seq<string>)
    | InjectItem(fromEntity: string, toEntities: seq<string>, tlos: seq<string>)
    | EventItem(conditions: seq<string>, injects: seq<string>)
    | ScriptItem(events: seq<string>)
    | StoryItem(scripts: seq<string>)
    | ContentItem(target: string)
    | AccountItem(node: string)
    | AgentItem(entity: string, startingAccounts: seq<string>, hosts: seq<string>, subnets: seq<string>,
        accounts: seq<string>, allowedSubnets: seq<string>)
    | ObjectiveItem(agent: string, entity: string, dependsOn: seq<string>,
                    conditions: seq<string>, metrics: seq<string>, evaluations: seq<string>, tlos: seq<string>,
                    goals: seq<string>,
                    stories: seq<string>, scripts: seq<string>, events: seq<string>, workflows: seq<string>,
                    windowSteps: seq<string>)
    | WorkflowItem(steps: seq<WorkflowStep>)
    | PlainItem(body: string)

  /** A reference is to an element of a section, or to a step of a workflow. */
  datatype Ref = Ref(section: Section, name: string) | StepRef(text: string)

  type Names = map<string, string>
  type Symbols = map<Section, Names>

  // ------------------------------------------------------------------- renaming

  const PRIVATE := "__private."

  function Prefix(namespace: string, name: string): string {
    if namespace == "" then name else namespace + "." + name
  }

  function NewName(namespace: string, exported: set<string>, name: string): string {
    if name in exported then Prefix(namespace, name) else Prefix(namespace, PRIVATE + name)
  }

  predicate IsLetter(c: char) {
    'A' <= c <= 'Z' || 'a' <= c <= 'z' || c == '_'
  }

  /** A placeholder for a variable, which is no reference to an element. */
  predicate IsVariableRef(name: string) {
    && |name| > 3 && name[0] == '$' && name[1] == '{' && name[|name| - 1] == '}' && IsLetter(name[2])
    && forall i :: 3 <= i < |name| - 1 ==> IsLetter(name[i]) || '0' <= name[i] <= '9' || name[i] == '-'
  }

  function MaybeRename(name: string, names: Names): string {
    if name == "" || IsVariableRef(name) then name
    else if name in names then names[name] else name
  }

  function RenameAll(xs: seq<string>, names: Names): seq<string> {
    seq(|xs|, i requires 0 <= i < |xs| => MaybeRename(xs[i], names))
  }

  function MapOf(symbols: Symbols, section: Section): Names {
    if section in symbols then symbols[section] else map[]
  }

  predicate Injective(names: Names) {
    forall a, b :: a in names && b in names && names[a] == names[b] ==> a == b
  }

  function SectionNames(namespace: string, names: set<string>, exported: set<string>): (r: Names)
    ensures r.Keys == names
    ensures forall n :: n in names ==> r[n] == NewName(namespace, exported, n)
  {
    map n | n in names :: NewName(namespace, exported, n)
  }

  /** Two names collide exactly when an exported one reads like the private form of another. */
  lemma NewNamesCollideIff(namespace: string, exported: set<string>, a: string, b: string)
    ensures NewName(namespace, exported, a) == NewName(namespace, exported, b)
            <==> || a == b
                 || (a in exported && b !in exported && a == PRIVATE + b)
                 || (b in exported && a !in exported && b == PRIVATE + a)
  {
    PrefixCancels(namespace, a, b);
    PrefixCancels(namespace, a, PRIVATE + b);
    PrefixCancels(namespace, PRIVATE + a, b);
    PrefixCancels(namespace, PRIVATE + a, PRIVATE + b);
    assert PRIVATE + a == PRIVATE + b ==> (PRIVATE + a)[|PRIVATE|..] == (PRIVATE + b)[|PRIVATE|..];
  }

  lemma PrefixCancels(namespace: string, x: string, y: string)
    ensures Prefix(namespace, x) == Prefix(namespace, y) <==> x == y
  {
    if Prefix(namespace, x) == Prefix(namespace, y) && namespace != "" {
      assert x == (namespace + "." + x)[|namespace| + 1..];
      assert y == (namespace + "." + y)[|namespace| + 1..];
    }
  }

  /** A section's renaming loses no name exactly when no exported name is the private form of an unexported one. */
  lemma SectionNamesInjectiveIff(namespace: string, names: set<string>, exported: set<string>)
    ensures Injective(SectionNames(namespace, names, exported))
            <==> forall a, b | a in names && b in names && a in exported && b !in exported :: a != PRIVATE + b
  {
    hide NewName;
    var r := SectionNames(namespace, names, exported);
    forall a, b | a in names && b in names
      ensures r[a] == r[b] <==>
          a == b || (a in exported && b !in exported && a == PRIVATE + b)
              || (b in exported && a !in exported && b == PRIVATE + a)
    {
      NewNamesCollideIff(namespace, exported, a, b);
    }
  }

  // ------------------------------------------------------------------ rewriting

  /** The last dot separates a workflow from its step. */
  function SplitAtLastDot(text: string): Option<(string, string)> {
    if text == "" then None
    else if text[|text| - 1] == '.' then Some((text[..|text| - 1], ""))
    else
      var front := SplitAtLastDot(text[..|text| - 1]);
      if front.None? then None else Some((front.value.0, front.value.1 + [text[|text| - 1]]))
  }

  function RewriteStepRef(text: string, workflows: Names): string {
    var split := SplitAtLastDot(text);
    if split.None? || IsVariableRef(text) || split.value.0 !in workflows then text
    else workflows[split.value.0] + "." + split.value.1
  }

  function RewriteStepRefs(texts: seq<string>, workflows: Names): seq<string> {
    seq(|texts|, i requires 0 <= i < |texts| => RewriteStepRef(texts[i], workflows))
  }

  function RewriteStep(s: WorkflowStep, symbols: Symbols): WorkflowStep {
    WorkflowStep(
      MaybeRename(s.objective, MapOf(symbols, Objectives)), MaybeRename(s.workflow, MapOf(symbols, Workflows)),
      MaybeRename(s.compensateWith, MapOf(symbols, Workflows)),
      RenameAll(s.conditions, MapOf(symbols, Conditions)), RenameAll(s.metrics, MapOf(symbols, Metrics)),
      RenameAll(s.evaluations, MapOf(symbols, Evaluations)), RenameAll(s.tlos, MapOf(symbols, Tlos)),
      RenameAll(s.goals, MapOf(symbols, Goals)), RenameAll(s.objectives, MapOf(symbols, Objectives)))
  }

  function RewriteSteps(steps: seq<WorkflowStep>, symbols: Symbols): seq<WorkflowStep> {
    seq(|steps|, i requires 0 <= i < |steps| => RewriteStep(steps[i], symbols))
  }

  /** Field by field, each through the map of the section it refers to. */
  function RewriteItem(item: Item, symbols: Symbols): Item {
    match item
    case NodeItem(features, conditions, injects, vulnerabilities, entities) =>
      NodeItem(RenameAll(features, MapOf(symbols, Features)), RenameAll(conditions, MapOf(symbols, Conditions)),
               RenameAll(injects, MapOf(symbols, Injects)), RenameAll(vulnerabilities, MapOf(symbols, Vulnerabilities)),
               RenameAll(entities, MapOf(symbols, Entities)))
    case FeatureItem(dependencies, vulnerabilities) =>
      FeatureItem(RenameAll(dependencies, MapOf(symbols, Features)),
          RenameAll(vulnerabilities, MapOf(symbols, Vulnerabilities)))
    case MetricItem(condition) => MetricItem(MaybeRename(condition, MapOf(symbols, Conditions)))
    case EvaluationItem(metrics) => EvaluationItem(RenameAll(metrics, MapOf(symbols, Metrics)))
    case TloItem(evaluation) => TloItem(MaybeRename(evaluation, MapOf(symbols, Evaluations)))
    case GoalItem(tlos) => GoalItem(RenameAll(tlos, MapOf(symbols, Tlos)))
    case EntityItem(vulnerabilities, tlos, events) =>
      EntityItem(RenameAll(vulnerabilities, MapOf(symbols, Vulnerabilities)), RenameAll(tlos, MapOf(symbols, Tlos)),
                 RenameAll(events, MapOf(symbols, Events)))
    case InjectItem(fromEntity, toEntities, tlos) =>
      InjectItem(MaybeRename(fromEntity, MapOf(symbols, Entities)), RenameAll(toEntities, MapOf(symbols, Entities)),
                 RenameAll(tlos, MapOf(symbols, Tlos)))
    case EventItem(conditions, injects) =>
      EventItem(RenameAll(conditions, MapOf(symbols, Conditions)), RenameAll(injects, MapOf(symbols, Injects)))
    case ScriptItem(events) => ScriptItem(RenameAll(events, MapOf(symbols, Events)))
    case StoryItem(scripts) => StoryItem(RenameAll(scripts, MapOf(symbols, Scripts)))
    case ContentItem(target) => ContentItem(MaybeRename(target, MapOf(symbols, Nodes)))
    case AccountItem(node) => AccountItem(MaybeRename(node, MapOf(symbols, Nodes)))
    case AgentItem(entity, startingAccounts, hosts, subnets, accounts, allowedSubnets) =>
      AgentItem(MaybeRename(entity, MapOf(symbols, Entities)), RenameAll(startingAccounts, MapOf(symbols, Accounts)),
                RenameAll(hosts, MapOf(symbols, Nodes)), RenameAll(subnets, MapOf(symbols, Infrastructure)),
                RenameAll(accounts, MapOf(symbols, Accounts)),
                RenameAll(allowedSubnets, MapOf(symbols, Infrastructure)))
    case ObjectiveItem(agent, entity, dependsOn, conditions, metrics, evaluations, tlos, goals, stories, scripts,
        events, workflows, windowSteps) =>
      ObjectiveItem(
        MaybeRename(agent, MapOf(symbols, Agents)), MaybeRename(entity, MapOf(symbols, Entities)),
        RenameAll(dependsOn, MapOf(symbols, Objectives)),
        RenameAll(conditions, MapOf(symbols, Conditions)), RenameAll(metrics, MapOf(symbols, Metrics)),
        RenameAll(evaluations, MapOf(symbols, Evaluations)), RenameAll(tlos, MapOf(symbols, Tlos)),
        RenameAll(goals, MapOf(symbols, Goals)),
        RenameAll(stories, MapOf(symbols, Stories)), RenameAll(scripts, MapOf(symbols, Scripts)),
        RenameAll(events, MapOf(symbols, Events)),
        RenameAll(workflows, MapOf(symbols, Workflows)),
        RewriteStepRefs(windowSteps, MapOf(symbols, Workflows)))
    case WorkflowItem(steps) => WorkflowItem(RewriteSteps(steps, symbols))
    case PlainItem(_) => item
  }

  // ----------------------------------------------------------------- references

  function To(section: Section, xs: seq<string>): seq<Ref> {
    seq(|xs|, i requires 0 <= i < |xs| => Ref(section, xs[i]))
  }

  function ToOne(section: Section, x: string): seq<Ref> {
    if x == "" then [] else [Ref(section, x)]
  }

  function ToSteps(texts: seq<string>): seq<Ref> {
    seq(|texts|, i requires 0 <= i < |texts| => StepRef(texts[i]))
  }

  function StepParts(s: WorkflowStep): seq<seq<Ref>> {
    [ToOne(Objectives, s.objective), ToOne(Workflows, s.workflow), ToOne(Workflows, s.compensateWith),
     To(Conditions, s.conditions), To(Metrics, s.metrics), To(Evaluations, s.evaluations),
     To(Tlos, s.tlos), To(Goals, s.goals), To(Objectives, s.objectives)]
  }

  function StepsParts(steps: seq<WorkflowStep>): seq<seq<Ref>> {
    if steps == [] then [] else StepParts(steps[0]) + StepsParts(steps[1..])
  }

  /** What an element refers to, field by field, as the language defines it. */
  function Parts(item: Item): seq<seq<Ref>> {
    match item
    case NodeItem(features, conditions, injects, vulnerabilities, entities) =>
      [To(Features, features), To(Conditions, conditions), To(Injects, injects), To(Vulnerabilities, vulnerabilities),
          To(Entities, entities)]
    case FeatureItem(dependencies, vulnerabilities) => [To(Features, dependencies),
        To(Vulnerabilities, vulnerabilities)]
    case MetricItem(condition) => [ToOne(Conditions, condition)]
    case EvaluationItem(metrics) => [To(Metrics, metrics)]
    case TloItem(evaluation) => [ToOne(Evaluations, evaluation)]
    case GoalItem(tlos) => [To(Tlos, tlos)]
    case EntityItem(vulnerabilities, tlos, events) => [To(Vulnerabilities, vulnerabilities), To(Tlos, tlos),
        To(Events, events)]
    case InjectItem(fromEntity, toEntities, tlos) => [ToOne(Entities, fromEntity), To(Entities, toEntities),
        To(Tlos, tlos)]
    case EventItem(conditions, injects) => [To(Conditions, conditions), To(Injects, injects)]
    case ScriptItem(events) => [To(Events, events)]
    case StoryItem(scripts) => [To(Scripts, scripts)]
    case ContentItem(target) => [ToOne(Nodes, target)]
    case AccountItem(node) => [ToOne(Nodes, node)]
    case AgentItem(entity, startingAccounts, hosts, subnets, accounts, allowedSubnets) =>
      [ToOne(Entities, entity), To(Accounts, startingAccounts), To(Nodes, hosts), To(Infrastructure, subnets),
       To(Accounts, accounts), To(Infrastructure, allowedSubnets)]
    case ObjectiveItem(agent, entity, dependsOn, conditions, metrics, evaluations, tlos, goals, stories, scripts,
        events, workflows, windowSteps) =>
      [ToOne(Agents, agent), ToOne(Entities, entity), To(Objectives, dependsOn),
       To(Conditions, conditions), To(Metrics, metrics), To(Evaluations, evaluations), To(Tlos, tlos), To(Goals, goals),
       To(Stories, stories), To(Scripts, scripts), To(Events, events), To(Workflows, workflows), ToSteps(windowSteps)]
    case WorkflowItem(steps) => StepsParts(steps)
    case PlainItem(_) => []
  }

  function Flat(parts: seq<seq<Ref>>): seq<Ref> {
    if parts == [] then [] else parts[0] + Flat(parts[1..])
  }

  function References(item: Item): seq<Ref> {
    Flat(Parts(item))
  }

  function RewriteRef(r: Ref, symbols: Symbols): Ref {
    match r
    case Ref(section, name) => Ref(section, MaybeRename(name, MapOf(symbols, section)))
    case StepRef(text) => StepRef(RewriteStepRef(text, MapOf(symbols, Workflows)))
  }

  function RewriteRefs(refs: seq<Ref>, symbols: Symbols): seq<Ref> {
    seq(|refs|, i requires 0 <= i < |refs| => RewriteRef(refs[i], symbols))
  }

  /** New names are never empty. */
  predicate Nonempty(symbols: Symbols) {
    forall section, n | section in symbols && n in symbols[section] :: symbols[section][n] != ""
  }

  function RewriteParts(parts: seq<seq<Ref>>, symbols: Symbols): seq<seq<Ref>> {
    seq(|parts|, i requires 0 <= i < |parts| => RewriteRefs(parts[i], symbols))
  }

  lemma {:induction false} RewriteFlat(parts: seq<seq<Ref>>, symbols: Symbols)
    ensures Flat(RewriteParts(parts, symbols)) == RewriteRefs(Flat(parts), symbols)
  {
    if parts != [] {
      RewriteFlat(parts[1..], symbols);
      assert RewriteParts(parts, symbols)[1..] == RewriteParts(parts[1..], symbols);
    }
  }

  lemma RewriteTo(section: Section, xs: seq<string>, symbols: Symbols)
    ensures To(section, RenameAll(xs, MapOf(symbols, section))) == RewriteRefs(To(section, xs), symbols)
  {
  }

  lemma RewriteToOne(section: Section, x: string, symbols: Symbols)
    requires Nonempty(symbols)
    ensures ToOne(section, MaybeRename(x, MapOf(symbols, section))) == RewriteRefs(ToOne(section, x), symbols)
  {
  }

  lemma RewriteToSteps(texts: seq<string>, symbols: Symbols)
    ensures ToSteps(RewriteStepRefs(texts, MapOf(symbols, Workflows))) == RewriteRefs(ToSteps(texts), symbols)
  {
  }

  lemma RewriteStepParts(s: WorkflowStep, symbols: Symbols)
    requires Nonempty(symbols)
    ensures StepParts(RewriteStep(s, symbols)) == RewriteParts(StepParts(s), symbols)
  {
    hide To, ToOne, RenameAll, MaybeRename, MapOf, RewriteRefs, Nonempty;
    RewriteToOne(Objectives, s.objective, symbols);
    RewriteToOne(Workflows, s.workflow, symbols);
    RewriteToOne(Workflows, s.compensateWith, symbols);
    RewriteTo(Conditions, s.conditions, symbols);
    RewriteTo(Metrics, s.metrics, symbols);
    RewriteTo(Evaluations, s.evaluations, symbols);
    RewriteTo(Tlos, s.tlos, symbols);
    RewriteTo(Goals, s.goals, symbols);
    RewriteTo(Objectives, s.objectives, symbols);
  }

  lemma {:induction false} RewriteStepsParts(steps: seq<WorkflowStep>, symbols: Symbols)
    requires Nonempty(symbols)
    ensures StepsParts(RewriteSteps(steps, symbols)) == RewriteParts(StepsParts(steps), symbols)
  {
    hide StepParts, RewriteStep, RewriteRefs, Nonempty;
    if steps != [] {
      RewriteStepParts(steps[0], symbols);
      RewriteStepsParts(steps[1..], symbols);
      assert RewriteSteps(steps, symbols)[1..] == RewriteSteps(steps[1..], symbols);
    }
  }

  lemma RewriteObjectiveParts(item: Item, symbols: Symbols)
    requires item.ObjectiveItem? && Nonempty(symbols)
    ensures Parts(RewriteItem(item, symbols)) == RewriteParts(Parts(item), symbols)
  {
    hide To, ToOne, ToSteps, RenameAll, RewriteStepRefs, MaybeRename, MapOf, RewriteRefs, Nonempty;
    RewriteToOne(Agents, item.agent, symbols);
    RewriteToOne(Entities, item.entity, symbols);
    RewriteTo(Objectives, item.dependsOn, symbols);
    RewriteTo(Conditions, item.conditions, symbols);
    RewriteTo(Metrics, item.metrics, symbols);
    RewriteTo(Evaluations, item.evaluations, symbols);
    RewriteTo(Tlos, item.tlos, symbols);
    RewriteTo(Goals, item.goals, symbols);
    RewriteTo(Stories, item.stories, symbols);
    RewriteTo(Scripts, item.scripts, symbols);
    RewriteTo(Events, item.events, symbols);
    RewriteTo(Workflows, item.workflows, symbols);
    RewriteToSteps(item.windowSteps, symbols);
  }

  lemma RewriteOtherParts(item: Item, symbols: Symbols)
    requires !item.ObjectiveItem? && !item.WorkflowItem? && Nonempty(symbols)
    ensures Parts(RewriteItem(item, symbols)) == RewriteParts(Parts(item), symbols)
  {
    hide To, ToOne, RenameAll, MaybeRename, MapOf, RewriteRefs, Nonempty;
    match item
    case NodeItem(features, conditions, injects, vulnerabilities, entities) =>
      RewriteTo(Features, features, symbols);
      RewriteTo(Conditions, conditions, symbols);
      RewriteTo(Injects, injects, symbols);
      RewriteTo(Vulnerabilities, vulnerabilities, symbols);
      RewriteTo(Entities, entities, symbols);
    case FeatureItem(dependencies, vulnerabilities) =>
      RewriteTo(Features, dependencies, symbols);
      RewriteTo(Vulnerabilities, vulnerabilities, symbols);
    case MetricItem(condition) => RewriteToOne(Conditions, condition, symbols);
    case EvaluationItem(metrics) => RewriteTo(Metrics, metrics, symbols);
    case TloItem(evaluation) => RewriteToOne(Evaluations, evaluation, symbols);
    case GoalItem(tlos) => RewriteTo(Tlos, tlos, symbols);
    case EntityItem(vulnerabilities, tlos, events) =>
      RewriteTo(Vulnerabilities, vulnerabilities, symbols);
      RewriteTo(Tlos, tlos, symbols);
      RewriteTo(Events, events, symbols);
    case InjectItem(fromEntity, toEntities, tlos) =>
      RewriteToOne(Entities, fromEntity, symbols);
      RewriteTo(Entities, toEntities, symbols);
      RewriteTo(Tlos, tlos, symbols);
    case EventItem(conditions, injects) =>
      RewriteTo(Conditions, conditions, symbols);
      RewriteTo(Injects, injects, symbols);
    case ScriptItem(events) => RewriteTo(Events, events, symbols);
    case StoryItem(scripts) => RewriteTo(Scripts, scripts, symbols);
    case ContentItem(target) => RewriteToOne(Nodes, target, symbols);
    case AccountItem(node) => RewriteToOne(Nodes, node, symbols);
    case AgentItem(entity, startingAccounts, hosts, subnets, accounts, allowedSubnets) =>
      RewriteToOne(Entities, entity, symbols);
      RewriteTo(Accounts, startingAccounts, symbols);
      RewriteTo(Nodes, hosts, symbols);
      RewriteTo(Infrastructure, subnets, symbols);
      RewriteTo(Accounts, accounts, symbols);
      RewriteTo(Infrastructure, allowedSubnets, symbols);
    case PlainItem(_) =>
  }

  /** Rewriting an element renames each of its references, and those alone, in the section that the reference is to. */
  lemma RewritingRenamesReferences(item: Item, symbols: Symbols)
    requires Nonempty(symbols)
    ensures References(RewriteItem(item, symbols)) == RewriteRefs(References(item), symbols)
  {
    hide Parts, RewriteItem;
    RewriteFlat(Parts(item), symbols);
    assert Parts(RewriteItem(item, symbols)) == RewriteParts(Parts(item), symbols) by {
      if item.ObjectiveItem? {
        RewriteObjectiveParts(item, symbols);
      } else if item.WorkflowItem? {
        RewriteWorkflowParts(item, symbols);
      } else {
        RewriteOtherParts(item, symbols);
      }
    }
  }

  lemma RewriteWorkflowParts(item: Item, symbols: Symbols)
    requires item.WorkflowItem? && Nonempty(symbols)
    ensures Parts(RewriteItem(item, symbols)) == RewriteParts(Parts(item), symbols)
  {
    RewriteStepsParts(item.steps, symbols);
  }
}
