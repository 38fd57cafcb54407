/** The static bound on the number of nodes that a scenario may deploy, over all values its variables may take. */
module NodeCount {
  import opened Wrappers

  const MINIMUM_NODE_COUNT := 1

  /** A declared allowed value as the parser of counts sees it. */
  datatype AllowedValue = Number(n: int) | Placeholder(name: string) | Missing | Malformed

  /** A count as it stands in the compiled resource. */
  datatype Count = Literal(n: int) | Reference(variable: string) | Unreadable

  /** A network or node; instantiation replaces references by values but keeps the variable's name aside. */
  datatype Node = Node(address: string, count: Count, captured: Option<string>)

  datatype CountIssue = DomainInvalid | ReferenceUnbound | ValidationDeferred

  /** The variables that are declared, each with its allowed values, possibly none. */
  type Variables = map<string, seq<AllowedValue>>

  // ------------------------------------------------------------- one variable

  /** A finite domain: every allowed value is a count. */
  predicate ValidDomain(allowed: seq<AllowedValue>) {
    allowed != [] && forall i :: 0 <= i < |allowed| ==> allowed[i].Number? && allowed[i].n >= MINIMUM_NODE_COUNT
  }

  predicate Allows(allowed: seq<AllowedValue>, n: int) {
    Number(n) in allowed
  }

  predicate IsLargest(allowed: seq<AllowedValue>, n: int) {
    Allows(allowed, n) && forall i :: 0 <= i < |allowed| ==> allowed[i].Number? && allowed[i].n <= n
  }

  /** Values before the given one parse, and are counts. */
  predicate ValidUpTo(allowed: seq<AllowedValue>, k: nat)
    requires k <= |allowed|
  {
    forall i :: 0 <= i < k ==> allowed[i].Number? && allowed[i].n >= MINIMUM_NODE_COUNT
  }

  /** The first value that is no count decides: a placeholder defers, anything else is an error. */
  method ValidateAllowedValues(allowed: seq<AllowedValue>) returns (bound: Option<int>, issue: Option<CountIssue>)
    ensures bound.Some? <==> ValidDomain(allowed)
    ensures bound.Some? ==> IsLargest(allowed, bound.value) && issue.None?
    ensures bound.None? ==> (issue.None? <==>
              allowed == [] || exists k :: 0 <= k < |allowed| && ValidUpTo(allowed, k) && allowed[k].Placeholder?)
    ensures issue.Some? ==> issue.value.DomainInvalid?
  {
    if allowed == [] {
      return None, None;
    }
    var largest: Option<int> := None;
    for k := 0 to |allowed|
      invariant ValidUpTo(allowed, k)
      invariant largest.None? <==> k == 0
      invariant largest.Some? ==> IsLargest(allowed[..k], largest.value)
    {
      var raw := allowed[k];
      if raw.Malformed? || (raw.Number? && raw.n < MINIMUM_NODE_COUNT) {
        return None, Some(DomainInvalid);
      }
      if raw.Placeholder? {
        return None, None;
      }
      if raw.Missing? {
        return None, Some(DomainInvalid);
      }
      assert allowed[..k + 1] == allowed[..k] + [raw];
      largest := if largest.None? || largest.value < raw.n then Some(raw.n) else largest;
    }
    assert allowed[..|allowed|] == allowed;
    return largest, None;
  }

  // ----------------------------------------------------------------- one node

  /**
    Where a node's count comes from: a variable with allowed values comes before the value it was instantiated with.
   */
  datatype Origin = Fixed(n: int) | Variable(name: string) | Unknown

  function OriginOf(variables: Variables, node: Node): Origin {
    if node.captured.Some? && node.captured.value in variables
        && variables[node.captured.value] != [] then Variable(node.captured.value)
    else
      match node.count
      case Literal(n) => Fixed(n)
      case Reference(name) => Variable(name)
      case Unreadable => Unknown
  }

  predicate HasBound(variables: Variables, node: Node) {
    match OriginOf(variables, node)
    case Fixed(_) => true
    case Variable(name) => name in variables && ValidDomain(variables[name])
    case Unknown => false
  }

  /** The values that an instantiation may give to the variables with a finite domain. */
  predicate Within(variables: Variables, assignment: map<string, int>) {
    forall name :: name in variables && ValidDomain(variables[name]) ==>
        name in assignment && Allows(variables[name], assignment[name])
  }

  /** The node's count under an assignment; a node whose count has no bound counts for nothing. */
  function CountUnder(variables: Variables, assignment: map<string, int>, node: Node): int {
    if !HasBound(variables, node) then 0
    else
      match OriginOf(variables, node)
      case Fixed(n) => n
      case Variable(name) => if name in assignment then assignment[name] else 0
      case Unknown => 0
  }

  function TotalUnder(variables: Variables, assignment: map<string, int>, nodes: seq<Node>): int {
    if nodes == [] then 0
    else TotalUnder(variables, assignment, nodes[..|nodes| - 1]) + CountUnder(variables, assignment, nodes[|nodes| - 1])
  }

  /** The bound is the count under some choice of the variable, and no choice gives more. */
  predicate Tight(variables: Variables, node: Node, bound: int) {
    HasBound(variables, node) &&
    match OriginOf(variables, node)
    case Fixed(n) => bound == n
    case Variable(name) => name in variables && IsLargest(variables[name], bound)
    case Unknown => false
  }

  method CountUpperBound(variables: Variables, node: Node) returns (bound: Option<int>, issue: Option<CountIssue>)
    ensures var variable :=
              if node.captured.Some? && node.captured.value in variables && variables[node.captured.value] != []
              then node.captured
              else if node.count.Reference? then Some(node.count.variable) else None;
            && (variable.None? ==> issue.None? && bound == if node.count.Literal? then Some(node.count.n) else None)
            && (variable.Some? && variable.value !in variables ==> bound.None? && issue == Some(ReferenceUnbound))
            && (variable.Some? && variable.value in variables ==>
                  var allowed := variables[variable.value];
                  && (bound.Some? <==>
                        allowed != [] && forall value :: value in allowed ==> value.Number? && 1 <= value.n)
                  && (bound.Some? ==>
                        Number(bound.value) in allowed && forall n :: Number(n) in allowed ==> n <= bound.value)
                  && (bound.None? ==> issue == Some(DomainInvalid) || issue == Some(ValidationDeferred))
                  && (issue == Some(ValidationDeferred) <==>
                        allowed == [] || exists k :: 0 <= k < |allowed| && ValidUpTo(allowed, k)
                                                     && allowed[k].Placeholder?))
    ensures bound.Some? <==> HasBound(variables, node)
    ensures bound.Some? ==> Tight(variables, node, bound.value) && issue.None?
    ensures issue.None? <==> HasBound(variables, node) || OriginOf(variables, node).Unknown?
    ensures issue == Some(ReferenceUnbound) <==>
        OriginOf(variables, node).Variable? && OriginOf(variables, node).name !in variables
  {
    var name: Option<string> := None;
    if node.captured.Some? && node.captured.value in variables && variables[node.captured.value] != [] {
      name := node.captured;
    }
    if name.None? {
      match node.count
      case Literal(n) => return Some(n), None;
      case Reference(variable) => name := Some(variable);
      case Unreadable => return None, None;
    }
    if name.value !in variables {
      return None, Some(ReferenceUnbound);
    }
    bound, issue := ValidateAllowedValues(variables[name.value]);
    if issue.Some? || bound.Some? {
      return;
    }
    return None, Some(ValidationDeferred);
  }

  // ---------------------------------------------------------------- the total

  /** The largest value of each finite domain. */
  ghost function Extreme(variables: Variables): (assignment: map<string, int>)
    ensures assignment.Keys == set name | name in variables.Keys && ValidDomain(variables[name])
    ensures forall name :: name in assignment ==> IsLargest(variables[name], assignment[name])
  {
    map name | name in variables && ValidDomain(variables[name]) :: Largest(variables[name])
  }

  ghost function Largest(allowed: seq<AllowedValue>): (n: int)
    requires ValidDomain(allowed)
    ensures IsLargest(allowed, n)
  {
    LargestExists(allowed);
    var n :| IsLargest(allowed, n);
    n
  }

  lemma {:induction false} LargestExists(allowed: seq<AllowedValue>)
    requires ValidDomain(allowed)
    ensures exists n :: IsLargest(allowed, n)
  {
    var front, last := allowed[..|allowed| - 1], allowed[|allowed| - 1];
    if front == [] {
      assert IsLargest(allowed, last.n);
    } else {
      LargestExists(front);
      var n :| IsLargest(front, n);
      assert allowed == front + [last];
      assert IsLargest(allowed, if n < last.n then last.n else n);
    }
  }

  lemma ExtremeIsWithin(variables: Variables)
    ensures Within(variables, Extreme(variables))
  {
  }

  lemma {:induction false} ExtremeIsExtreme(variables: Variables, assignment: map<string, int>, nodes: seq<Node>)
    requires Within(variables, assignment)
    ensures TotalUnder(variables, assignment, nodes) <= TotalUnder(variables, Extreme(variables), nodes)
  {
    if nodes != [] {
      ExtremeIsExtreme(variables, assignment, nodes[..|nodes| - 1]);
      ExtremeAt(variables, assignment, nodes[|nodes| - 1]);
    }
  }

  lemma ExtremeAt(variables: Variables, assignment: map<string, int>, node: Node)
    requires Within(variables, assignment)
    ensures CountUnder(variables, assignment, node) <= CountUnder(variables, Extreme(variables), node)
  {
  }

  lemma TightIsExtreme(variables: Variables, node: Node, bound: int)
    requires Tight(variables, node, bound)
    ensures CountUnder(variables, Extreme(variables), node) == bound
  {
  }

  /**
    The bound is exact: it is exceeded exactly when the variables can be chosen so that the total is, shared ones
    alike.
   */
  lemma BoundIsExact(variables: Variables, nodes: seq<Node>, maximum: int)
    ensures TotalUnder(variables, Extreme(variables), nodes) > maximum
            <==> exists assignment ::
                   Within(variables, assignment) && TotalUnder(variables, assignment, nodes) > maximum
  {
    ExtremeIsWithin(variables);
    forall assignment | Within(variables, assignment)
        ensures TotalUnder(variables, assignment, nodes) <= TotalUnder(variables, Extreme(variables), nodes) {
      ExtremeIsExtreme(variables, assignment, nodes);
    }
  }

  /** The count refers to a variable whose allowed values give no bound. */
  predicate LacksBound(variables: Variables, node: Node) {
    !HasBound(variables, node) && !OriginOf(variables, node).Unknown?
  }

  ghost predicate IsReported(issues: seq<(string, CountIssue)>, address: string) {
    exists issue :: (address, issue) in issues
  }

  predicate LacksBoundAt(variables: Variables, nodes: seq<Node>, address: string) {
    exists node :: node in nodes && node.address == address && LacksBound(variables, node)
  }

  /** Exactly the addresses of nodes that lack a bound are reported. */
  ghost predicate ReportsLacking(variables: Variables, nodes: seq<Node>, issues: seq<(string, CountIssue)>) {
    forall address :: IsReported(issues, address) <==> LacksBoundAt(variables, nodes, address)
  }

  lemma ReportsOneMore(
    variables: Variables, nodes: seq<Node>, issues: seq<(string, CountIssue)>, node: Node, issue: Option<CountIssue>)
    requires ReportsLacking(variables, nodes, issues) && (issue.Some? <==> LacksBound(variables, node))
    ensures ReportsLacking(variables, nodes + [node],
              if issue.Some? then issues + [(node.address, issue.value)] else issues)
  {
    hide LacksBound;
    var more := if issue.Some? then issues + [(node.address, issue.value)] else issues;
    forall address ensures IsReported(more, address) <==> LacksBoundAt(variables, nodes + [node], address) {
      if i :| (address, i) in more {
        if (address, i) in issues {
          assert IsReported(issues, address);
          var n :| n in nodes && n.address == address && LacksBound(variables, n);
          assert n in nodes + [node];
        } else {
          assert node in nodes + [node];
        }
      }
      if n :| n in nodes + [node] && n.address == address && LacksBound(variables, n) {
        if n in nodes {
          assert LacksBoundAt(variables, nodes, address);
          var i :| (address, i) in issues;
          assert (address, i) in more;
        } else {
          assert (address, issue.value) in more;
        }
      }
    }
  }

  /**
    The sum over all networks and nodes. It reports the maximum as exceeded exactly when some choice of the
    variables makes the nodes with a bound exceed it.
   */
  method ExceedsMaximum(variables: Variables, nodes: seq<Node>, maximum: Option<int>)
    returns (exceeded: bool, issues: seq<(string, CountIssue)>)
    ensures maximum.None? ==> !exceeded && issues == []
    ensures maximum.Some? ==>
      (exceeded <==> exists assignment ::
                       Within(variables, assignment) && TotalUnder(variables, assignment, nodes) > maximum.value)
    ensures maximum.Some? ==>
        (issues == [] <==> forall node :: node in nodes ==>
            HasBound(variables, node) || OriginOf(variables, node).Unknown?)
    ensures maximum.Some? ==> ReportsLacking(variables, nodes, issues)
  {
    var total := 0;
    issues := [];
    if maximum.None? {
      return false, [];
    }
    for k := 0 to |nodes|
      invariant total == TotalUnder(variables, Extreme(variables), nodes[..k])
      invariant issues == [] <==> forall i :: 0 <= i < k ==>
          HasBound(variables, nodes[i]) || OriginOf(variables, nodes[i]).Unknown?
      invariant ReportsLacking(variables, nodes[..k], issues)
    {
      assert nodes[..k + 1][..k] == nodes[..k];
      var bound, issue := CountUpperBound(variables, nodes[k]);
      ghost var before := issues;
      if issue.Some? {
        issues := issues + [(nodes[k].address, issue.value)];
      }
      ReportsOneMore(variables, nodes[..k], before, nodes[k], issue);
      assert nodes[..k + 1] == nodes[..k] + [nodes[k]];
      if bound.Some? {
        TightIsExtreme(variables, nodes[k], bound.value);
        total := total + bound.value;
      }
    }
    assert nodes[..|nodes|] == nodes;
    BoundIsExact(variables, nodes, maximum.value);
    exceeded := total > maximum.value;
  }
}
