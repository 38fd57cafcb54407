/** Ordering and refresh over dependency graphs: a topological order, and the closure of a change. */
module DependencyGraph {
  import opened Wrappers

  /** What each node depends on. */
  type Graph = map<string, seq<string>>

  predicate Closed(g: Graph) {
    forall n, d | n in g && d in g[n] :: d in g
  }

  function OnlyKnown(dependencies: seq<string>, known: set<string>): (r: seq<string>)
    ensures forall d :: d in r <==> d in dependencies && d in known
  {
    if dependencies == [] then []
    else
      var last, front := dependencies[|dependencies| - 1], OnlyKnown(dependencies[..|dependencies| - 1], known);
      assert dependencies == dependencies[..|dependencies| - 1] + [last];
      if last in known then front + [last] else front
  }

  /** Dependencies on unknown nodes are dropped. */
  function Normalized(g: Graph): (r: Graph)
    ensures Closed(r) && r.Keys == g.Keys
    ensures forall n, d | n in g :: d in r[n] <==> d in g[n] && d in g
  {
    map n | n in g :: OnlyKnown(g[n], g.Keys)
  }

  // ---------------------------------------------------------------------- paths

  predicate Edge(g: Graph, n: string, d: string) {
    n in g && d in g[n]
  }

  /** One gets from the one node to the other along so many dependencies. */
  ghost predicate Steps(g: Graph, from: string, to: string, k: nat)
    decreases k
  {
    if k == 0 then from == to && from in g
    else exists d :: Edge(g, from, d) && Steps(g, d, to, k - 1)
  }

  ghost predicate Reaches(g: Graph, from: string, to: string) {
    exists k: nat :: Steps(g, from, to, k)
  }

  ghost predicate OnCycle(g: Graph, n: string) {
    exists k: nat :: k > 0 && Steps(g, n, n, k)
  }

  ghost predicate Acyclic(g: Graph) {
    forall n :: !OnCycle(g, n)
  }

  /** The node lies on a cycle or depends, perhaps through others, on a node that does. */
  ghost predicate LeadsIntoCycle(g: Graph, n: string) {
    exists m :: Reaches(g, n, m) && OnCycle(g, m)
  }

  /** Every dependency ranks below the node that has it. */
  ghost predicate Ranks(g: Graph, rank: map<string, nat>) {
    rank.Keys == g.Keys && forall n, d | n in g && d in g[n] :: d in rank ==> rank[d] < rank[n]
  }

  lemma {:induction false} StepsDescend(g: Graph, rank: map<string, nat>, from: string, to: string, k: nat)
    requires Closed(g) && Ranks(g, rank) && Steps(g, from, to, k)
    ensures from in rank && to in rank && rank[to] + k <= rank[from]
    decreases k
  {
    if k > 0 {
      var d :| Edge(g, from, d) && Steps(g, d, to, k - 1);
      StepsDescend(g, rank, d, to, k - 1);
    }
  }

  ghost function Reachable(g: Graph, n: string): set<string> {
    set m | m in g.Keys && Reaches(g, n, m)
  }

  lemma ReachableShrinks(g: Graph, n: string, d: string)
    requires Closed(g) && Acyclic(g) && Edge(g, n, d)
    ensures |Reachable(g, d)| < |Reachable(g, n)|
  {
    forall m | m in Reachable(g, d) ensures m in Reachable(g, n) {
      var k: nat :| Steps(g, d, m, k);
      assert Steps(g, n, m, k + 1);
    }
    assert Steps(g, n, n, 0);
    if n in Reachable(g, d) {
      var k: nat :| Steps(g, d, n, k);
      assert Steps(g, n, n, k + 1);
      assert OnCycle(g, n);
    }
    ProperSubsetSmaller(Reachable(g, d), Reachable(g, n));
  }

  lemma ProperSubsetSmaller(a: set<string>, b: set<string>)
    requires a < b
    ensures |a| < |b|
  {
    assert b == a + (b - a) && |b| == |a| + |b - a|;
  }

  /** A graph has no cycle exactly when its nodes can be ranked. */
  lemma AcyclicIffRanked(g: Graph)
    requires Closed(g)
    ensures Acyclic(g) <==> exists rank :: Ranks(g, rank)
  {
    if Acyclic(g) {
      var rank: map<string, nat> := map n | n in g :: |Reachable(g, n)|;
      forall n, d | n in g && d in g[n] ensures rank[d] < rank[n] {
        ReachableShrinks(g, n, d);
      }
      assert Ranks(g, rank);
    }
    if rank :| Ranks(g, rank) {
      forall n ensures !OnCycle(g, n) {
        if OnCycle(g, n) {
          var k: nat :| k > 0 && Steps(g, n, n, k);
          StepsDescend(g, rank, n, n, k);
        }
      }
    }
  }

  predicate DependsWithin(g: Graph, s: set<string>, n: string) {
    n in g && exists d :: d in g[n] && d in s
  }

  lemma {:induction false} Pigeonhole(xs: seq<string>, s: set<string>) returns (i: nat, j: nat)
    requires forall k :: 0 <= k < |xs| ==> xs[k] in s
    requires |xs| > |s|
    ensures i < j < |xs| && xs[i] == xs[j]
    decreases |xs|
  {
    var front, last := xs[..|xs| - 1], xs[|xs| - 1];
    if last in front {
      i :| 0 <= i < |front| && front[i] == last;
      j := |xs| - 1;
    } else {
      assert forall k :: 0 <= k < |front| ==> front[k] == xs[k] && front[k] in front;
      i, j := Pigeonhole(front, s - {last});
    }
  }

  /** Where every node of a set depends on a node of the set, one can walk as long as one likes. */
  lemma {:induction false} Walk(g: Graph, s: set<string>, start: string, length: nat) returns (p: seq<string>)
    requires forall n :: n in s ==> DependsWithin(g, s, n)
    requires start in s
    ensures |p| == length + 1 && p[0] == start && forall i :: 0 <= i < |p| ==> p[i] in s
    ensures forall i, j :: 0 <= i <= j < |p| ==> Steps(g, p[i], p[j], j - i)
    decreases length
  {
    assert DependsWithin(g, s, start);
    if length == 0 {
      p := [start];
    } else {
      var d :| d in g[start] && d in s;
      var q := Walk(g, s, d, length - 1);
      p := [start] + q;
      forall i, j | 0 <= i <= j < |p| ensures Steps(g, p[i], p[j], j - i) {
        if i > 0 {
          assert Steps(g, q[i - 1], q[j - 1], j - i);
        } else if j > 0 {
          assert Edge(g, start, d) && Steps(g, q[0], q[j - 1], j - 1);
        }
      }
    }
  }

  lemma NeverEndingMeansCycle(g: Graph, s: set<string>, start: string)
    requires forall n :: n in s ==> DependsWithin(g, s, n)
    requires start in s
    ensures LeadsIntoCycle(g, start)
  {
    var p := Walk(g, s, start, |s|);
    var i, j := Pigeonhole(p, s);
    assert Steps(g, p[0], p[i], i) && Steps(g, p[i], p[j], j - i);
    assert OnCycle(g, p[i]) && Reaches(g, start, p[i]);
  }

  // ---------------------------------------------------------- topological order

  /** How many of the dependencies are not done yet, counting repetitions. */
  function Pending(dependencies: seq<string>, done: set<string>): nat {
    if dependencies == [] then 0
    else
      Pending(dependencies[..|dependencies| - 1], done) + (if dependencies[|dependencies| - 1] in done then 0 else 1)
  }

  lemma {:induction false} PendingZeroIff(dependencies: seq<string>, done: set<string>)
    ensures Pending(dependencies, done) == 0 <==> forall d :: d in dependencies ==> d in done
  {
    if dependencies != [] {
      PendingZeroIff(dependencies[..|dependencies| - 1], done);
      assert dependencies == dependencies[..|dependencies| - 1] + [dependencies[|dependencies| - 1]];
    }
  }

  lemma {:induction false} PendingOneMore(dependencies: seq<string>, done: set<string>, c: string)
    requires c !in done
    ensures Pending(dependencies, done) == Pending(dependencies, done + {c}) + multiset(dependencies)[c]
  {
    if dependencies != [] {
      var front, last := dependencies[..|dependencies| - 1], dependencies[|dependencies| - 1];
      PendingOneMore(front, done, c);
      assert dependencies == front + [last];
    }
  }

  predicate Settled(g: Graph, order: seq<string>, i: nat)
    requires i < |order|
  {
    order[i] in g && forall d :: d in g[order[i]] ==> d in order[..i]
  }

  /** A full order whose first part lists every node after its dependencies; the rest wait for one another. */
  ghost predicate TopologicalWithRest(g: Graph, order: seq<string>, settled: nat) {
    && NoDuplicates(order) && (forall n :: n in order <==> n in g) && settled <= |order|
    && (forall i :: 0 <= i < settled ==> Settled(g, order, i))
    && (forall i :: settled <= i < |order| ==> DependsWithin(g, Elements(order[settled..]), order[i]))
  }

  function Elements(xs: seq<string>): set<string> {
    set x | x in xs
  }

  function Occurs(xs: seq<string>, x: string): nat {
    multiset(xs)[x]
  }

  /** The reversed edges: for each node who depends on it, as often as it does. */
  predicate Reversed(g: Graph, dependents: map<string, seq<string>>) {
    && dependents.Keys == g.Keys
    && (forall d, n | d in g && n in g :: Occurs(dependents[d], n) == Occurs(g[n], d))
    && (forall d, n | d in g && n in dependents[d] :: n in g)
  }

  /** Enters one node with the dependencies it has. */
  method AddDependent(g: Graph, node: string, dependents: map<string, seq<string>>)
    returns (next: map<string, seq<string>>, degree: nat)
    requires Closed(g) && node in g && dependents.Keys == g.Keys
    ensures next.Keys == g.Keys && degree == |g[node]|
    ensures forall d, n | d in g ::
        Occurs(next[d], n) == Occurs(dependents[d], n) + (if n == node then Occurs(g[node], d) else 0)
    ensures forall d, n | d in g && n in next[d] :: n == node || n in dependents[d]
  {
    next, degree := dependents, 0;
    assert forall d :: Occurs(g[node][..0], d) == 0;
    for k := 0 to |g[node]|
      invariant next.Keys == g.Keys && degree == k
      invariant forall d, n | d in g ::
        Occurs(next[d], n) == Occurs(dependents[d], n) + (if n == node then Occurs(g[node][..k], d) else 0)
      invariant forall d, n | d in g && n in next[d] :: n == node || n in dependents[d]
    {
      var dependency := g[node][k];
      assert g[node][..k + 1] == g[node][..k] + [dependency];
      next := next[dependency := next[dependency] + [node]];
      degree := degree + 1;
    }
    assert g[node][..|g[node]|] == g[node];
  }

  /** The edges of the nodes that are no longer to do have been reversed. */
  predicate Entered(g: Graph, dependents: map<string, seq<string>>, todo: set<string>) {
    && dependents.Keys == g.Keys
    && (forall d, n | d in g && n in g :: Occurs(dependents[d], n) == if n in todo then 0 else Occurs(g[n], d))
    && (forall d, n | d in g && n in dependents[d] :: n in g)
  }

  lemma EnterOne(
    g: Graph, before: map<string, seq<string>>, after: map<string, seq<string>>, todo: set<string>, node: string)
    requires Entered(g, before, todo) && node in todo && node in g && after.Keys == g.Keys
    requires forall d, n | d in g ::
        Occurs(after[d], n) == Occurs(before[d], n) + (if n == node then Occurs(g[node], d) else 0)
    requires forall d, n | d in g && n in after[d] :: n == node || n in before[d]
    ensures Entered(g, after, todo - {node})
  {
    hide Occurs;
  }

  method ReverseEdges(g: Graph) returns (dependents: map<string, seq<string>>, indegree: map<string, nat>)
    requires Closed(g)
    ensures Reversed(g, dependents)
    ensures indegree.Keys == g.Keys && forall n :: n in g ==> indegree[n] == |g[n]|
  {
    hide Closed, Entered;
    dependents := map n | n in g :: [];
    indegree := map n | n in g :: 0;
    var todo := g.Keys;
    NothingEntered(g, dependents);
    while todo != {}
      invariant todo <= g.Keys && dependents.Keys == g.Keys && indegree.Keys == g.Keys
      invariant forall n :: n in g && n !in todo ==> indegree[n] == |g[n]|
      invariant Entered(g, dependents, todo)
    {
      var node :| node in todo;
      var next, degree := AddDependent(g, node, dependents);
      EnterOne(g, dependents, next, todo, node);
      dependents := next;
      indegree := indegree[node := degree];
      todo := todo - {node};
    }
    AllEntered(g, dependents);
  }

  lemma NothingEntered(g: Graph, dependents: map<string, seq<string>>)
    requires dependents.Keys == g.Keys && forall n :: n in g ==> dependents[n] == []
    ensures Entered(g, dependents, g.Keys)
  {
  }

  lemma AllEntered(g: Graph, dependents: map<string, seq<string>>)
    requires Entered(g, dependents, {})
    ensures Reversed(g, dependents)
  {
  }

  // The loop keeps a queue of nodes whose dependencies are all listed.

  predicate CountsPending(g: Graph, order: seq<string>, indegree: map<string, nat>, waiting: seq<string>) {
    indegree.Keys == g.Keys && forall n | n in g :: indegree[n] == Pending(g[n], Elements(order)) + Occurs(waiting, n)
  }

  /** Exactly the unlisted nodes without pending dependencies are in the queue. */
  ghost predicate Queued(g: Graph, order: seq<string>, queue: seq<string>, indegree: map<string, nat>) {
    && NoDuplicates(order + queue) && indegree.Keys == g.Keys
    && (forall n :: n in order || n in queue ==> n in g)
    && (forall n :: n in g && n !in order ==> (n in queue <==> indegree[n] == 0))
  }

  predicate AllSettled(g: Graph, order: seq<string>) {
    forall i :: 0 <= i < |order| ==> Settled(g, order, i)
  }

  ghost predicate QueueState(g: Graph, order: seq<string>, queue: seq<string>, indegree: map<string, nat>) {
    Queued(g, order, queue, indegree) && CountsPending(g, order, indegree, []) && AllSettled(g, order)
  }

  /** The state while the dependents of the current node are being released. */
  ghost predicate Releasing(
    g: Graph, order: seq<string>, queue: seq<string>, indegree: map<string, nat>, waiting: seq<string>)
  {
    && Queued(g, order, queue, indegree) && CountsPending(g, order, indegree, waiting)
    && (forall n :: n in order || n in queue ==> n !in waiting)
  }

  lemma NewlyQueued(order: seq<string>, queue: seq<string>, n: string)
    requires NoDuplicates(order + queue) && n !in order && n !in queue
    ensures NoDuplicates(order + (queue + [n]))
  {
    assert order + (queue + [n]) == (order + queue) + [n];
  }

  /** One dependent is released; it joins the queue when it was the last it waited for. */
  function QueueAfter(queue: seq<string>, dependent: string, left: int): seq<string> {
    if left == 0 then queue + [dependent] else queue
  }

  lemma ReleaseOne(
    g: Graph, order: seq<string>, queue: seq<string>, indegree: map<string, nat>, dependent: string, rest: seq<string>)
    requires Releasing(g, order, queue, indegree, [dependent] + rest) && dependent in g
    ensures indegree[dependent] > 0
    ensures var left := indegree[dependent] - 1;
            Releasing(g, order, QueueAfter(queue, dependent, left), indegree[dependent := left], rest)
  {
    hide NoDuplicates;
    var waiting := [dependent] + rest;
    assert dependent in waiting;
    assert forall n :: Occurs(waiting, n) == Occurs(rest, n) + (if n == dependent then 1 else 0);
    assert forall n :: n !in waiting ==> n !in rest;
    if indegree[dependent] == 1 {
      assert Occurs(rest, dependent) == 0;
      NewlyQueued(order, queue, dependent);
    }
  }

  method Release(g: Graph, order: seq<string>, waiting: seq<string>, queue: seq<string>, indegree: map<string, nat>)
    returns (queue': seq<string>, indegree': map<string, nat>)
    requires Releasing(g, order, queue, indegree, waiting) && indegree.Keys == g.Keys
    requires forall n :: n in waiting ==> n in g
    ensures Releasing(g, order, queue', indegree', [])
  {
    hide Releasing;
    queue', indegree' := queue, indegree;
    assert waiting[0..] == waiting;
    for k := 0 to |waiting|
      invariant Releasing(g, order, queue', indegree', waiting[k..]) && indegree'.Keys == g.Keys
    {
      var dependent := waiting[k];
      assert waiting[k..] == [dependent] + waiting[k + 1..];
      ReleaseOne(g, order, queue', indegree', dependent, waiting[k + 1..]);
      var left := indegree'[dependent] - 1;
      indegree' := indegree'[dependent := left];
      queue' := QueueAfter(queue', dependent, left);
    }
    assert waiting[|waiting|..] == [];
  }

  /** Listed and waiting nodes have all their dependencies among the listed ones. */
  lemma PendingDone(g: Graph, order: seq<string>, queue: seq<string>, indegree: map<string, nat>, n: string)
    requires QueueState(g, order, queue, indegree) && (n in order || n in queue)
    ensures n in g && forall d :: d in g[n] ==> d in order
  {
    hide NoDuplicates;
    if n in order {
      var i :| 0 <= i < |order| && order[i] == n;
      assert Settled(g, order, i);
      assert forall d :: d in order[..i] ==> d in order;
    } else {
      PendingZeroIff(g[n], Elements(order));
    }
  }

  lemma HeadIsNew(order: seq<string>, queue: seq<string>)
    requires NoDuplicates(order + queue) && queue != []
    ensures queue[0] !in order && NoDuplicates((order + [queue[0]]) + queue[1..])
  {
    var all := order + queue;
    assert (order + [queue[0]]) + queue[1..] == all;
    assert forall i :: 0 <= i < |order| ==> all[i] == order[i];
    assert all[|order|] == queue[0];
  }

  /** Once the node is listed, it still counts as pending for its dependents until they are released. */
  lemma StartCounts(
    g: Graph, order: seq<string>, current: string, indegree: map<string, nat>, dependents: map<string, seq<string>>)
    requires CountsPending(g, order, indegree, []) && Reversed(g, dependents) && current in g && current !in order
    ensures CountsPending(g, order + [current], indegree, dependents[current])
  {
    assert Elements(order + [current]) == Elements(order) + {current};
    forall n | n in g
      ensures indegree[n] == Pending(g[n], Elements(order + [current])) + Occurs(dependents[current], n)
    {
      PendingOneMore(g[n], Elements(order), current);
    }
  }

  lemma NoneWaitsYet(
    g: Graph, order: seq<string>, queue: seq<string>, indegree: map<string, nat>, dependents: map<string, seq<string>>,
    current: string, n: string)
    requires QueueState(g, order, queue, indegree) && Reversed(g, dependents) && current in g && current !in order
    requires n in order || n in queue
    ensures n in g && n !in dependents[current]
  {
    hide AllSettled, CountsPending, NoDuplicates;
    PendingDone(g, order, queue, indegree, n);
    assert Occurs(g[n], current) == 0;
    assert Occurs(dependents[current], n) == 0;
  }

  /** Taking the head of the queue opens the release of its dependents. */
  lemma StartRelease(
    g: Graph, order: seq<string>, queue: seq<string>, indegree: map<string, nat>, dependents: map<string, seq<string>>)
    requires QueueState(g, order, queue, indegree) && queue != [] && Reversed(g, dependents)
    ensures queue[0] in g && Releasing(g, order + [queue[0]], queue[1..], indegree, dependents[queue[0]])
    ensures forall d :: d in g[queue[0]] ==> d in order
  {
    hide NoDuplicates, AllSettled, CountsPending, Reversed;
    var current := queue[0];
    HeadIsNew(order, queue);
    PendingDone(g, order, queue, indegree, current);
    assert queue == [current] + queue[1..];
    DependentsKnown(g, dependents, current);
    StartCounts(g, order, current, indegree, dependents);
    forall n | n in order || n in queue ensures n !in dependents[current] {
      NoneWaitsYet(g, order, queue, indegree, dependents, current, n);
    }
  }

  lemma DependentsKnown(g: Graph, dependents: map<string, seq<string>>, n: string)
    requires Reversed(g, dependents) && n in g
    ensures n in dependents
  {
  }

  lemma EndRelease(g: Graph, order: seq<string>, current: string, queue: seq<string>, indegree: map<string, nat>)
    requires current in g && Releasing(g, order + [current], queue, indegree, []) && AllSettled(g, order)
    requires forall d :: d in g[current] ==> d in order
    ensures QueueState(g, order + [current], queue, indegree)
  {
    hide NoDuplicates, Queued, CountsPending;
    var all := order + [current];
    forall i | 0 <= i < |all| ensures Settled(g, all, i) {
      assert all[..i] == order[..i];
      if i < |order| {
        assert Settled(g, order, i);
      } else {
        assert order[..i] == order;
      }
    }
  }

  /** Nothing waits any more: every unlisted node depends on an unlisted node. */
  lemma RestWaits(g: Graph, order: seq<string>, indegree: map<string, nat>, rest: set<string>, n: string)
    requires Closed(g) && QueueState(g, order, [], indegree) && n in g && n !in order
    requires forall m :: m in rest <==> m in g && m !in order
    ensures DependsWithin(g, rest, n)
  {
    hide NoDuplicates, AllSettled;
    PendingZeroIff(g[n], Elements(order));
    var d :| d in g[n] && d !in Elements(order);
    assert d in rest;
  }

  method Listed(s: set<string>) returns (xs: seq<string>)
    ensures NoDuplicates(xs) && forall x :: x in xs <==> x in s
  {
    xs := [];
    var todo := s;
    while todo != {}
      invariant todo <= s && NoDuplicates(xs) && forall x :: x in xs <==> x in s && x !in todo
    {
      var x :| x in todo;
      xs := xs + [x];
      todo := todo - {x};
    }
  }

  lemma Starts(g: Graph, queue: seq<string>, indegree: map<string, nat>)
    requires indegree.Keys == g.Keys && forall n :: n in g ==> indegree[n] == |g[n]|
    requires NoDuplicates(queue) && forall n :: n in queue <==> n in g && indegree[n] == 0
    ensures QueueState(g, [], queue, indegree)
  {
    assert [] + queue == queue;
    forall n | n in g ensures indegree[n] == Pending(g[n], Elements([])) + Occurs([], n) {
      AllPending(g[n]);
      assert Elements([]) == {};
    }
  }

  /**
    Kahn's algorithm. The order lists every node once; it lists each node after its dependencies if and only if
    the graph has no cycle, and what is left over on other graphs comes last.
   */
  method TopologicalOrder(g: Graph) returns (order: seq<string>)
    requires Closed(g)
    ensures NoDuplicates(order) && forall n :: n in order <==> n in g
    ensures exists settled: nat :: TopologicalWithRest(g, order, settled)
    ensures Acyclic(g) <==> AllSettled(g, order)
  {
    hide NoDuplicates, QueueState, Releasing, Reversed, Closed, TopologicalWithRest, Acyclic, AllSettled;
    var dependents, indegree := ReverseEdges(g);
    order := [];
    var queue := Listed(set n | n in g.Keys && indegree[n] == 0);
    Starts(g, queue, indegree);
    while queue != []
      invariant QueueState(g, order, queue, indegree)
      decreases |g.Keys| - |order|
    {
      StartRelease(g, order, queue, indegree, dependents);
      SettledSoFar(g, order, queue, indegree, dependents);
      var current := queue[0];
      queue := queue[1..];
      queue, indegree := Release(g, order + [current], dependents[current], queue, indegree);
      EndRelease(g, order, current, queue, indegree);
      order := order + [current];
      Bounded(g, order, queue, indegree);
    }
    ghost var settled := |order|;
    var rest := Listed(set n | n in g.Keys && n !in order);
    forall n | n in rest ensures DependsWithin(g, Elements(rest), n) {
      RestWaits(g, order, indegree, Elements(rest), n);
    }
    RestAppended(g, order, rest, indegree);
    order := order + rest;
    TopologicalIffAcyclic(g, order, settled);
    ListsAll(g, order, settled);
  }

  lemma ListsAll(g: Graph, order: seq<string>, settled: nat)
    requires TopologicalWithRest(g, order, settled)
    ensures NoDuplicates(order) && forall n :: n in order <==> n in g
  {
  }

  lemma SettledSoFar(
    g: Graph, order: seq<string>, queue: seq<string>, indegree: map<string, nat>, dependents: map<string, seq<string>>)
    requires QueueState(g, order, queue, indegree) && queue != [] && Reversed(g, dependents)
    ensures AllSettled(g, order) && queue[0] in g && dependents.Keys == g.Keys == indegree.Keys
    ensures forall n :: n in dependents[queue[0]] ==> n in g
  {
  }

  lemma {:induction false} AllPending(dependencies: seq<string>)
    ensures Pending(dependencies, {}) == |dependencies|
  {
    if dependencies != [] {
      AllPending(dependencies[..|dependencies| - 1]);
    }
  }

  lemma {:induction false} DistinctLength(xs: seq<string>, s: set<string>)
    requires NoDuplicates(xs) && forall x :: x in xs ==> x in s
    ensures |xs| <= |s|
    decreases |xs|
  {
    if xs != [] {
      var front, last := xs[..|xs| - 1], xs[|xs| - 1];
      assert xs == front + [last];
      DistinctLength(front, s - {last});
    }
  }

  lemma Bounded(g: Graph, order: seq<string>, queue: seq<string>, indegree: map<string, nat>)
    requires QueueState(g, order, queue, indegree)
    ensures |order| <= |g.Keys|
  {
    assert forall i :: 0 <= i < |order| ==> (order + queue)[i] == order[i];
    DistinctLength(order, g.Keys);
  }

  lemma RestAppended(g: Graph, order: seq<string>, rest: seq<string>, indegree: map<string, nat>)
    requires QueueState(g, order, [], indegree) && NoDuplicates(rest)
    requires forall n :: n in rest <==> n in g && n !in order
    requires forall n :: n in rest ==> DependsWithin(g, Elements(rest), n)
    ensures TopologicalWithRest(g, order + rest, |order|)
  {
    hide CountsPending, DependsWithin, Elements;
    var all, k := order + rest, |order|;
    assert all[k..] == rest;
    assert order + [] == order;
    forall i | 0 <= i < k ensures Settled(g, all, i) {
      assert Settled(g, order, i);
      assert all[..i] == order[..i];
    }
    assert forall i :: k <= i < |all| ==> all[i] in rest;
    forall i, j | 0 <= i < j < |all| ensures all[i] != all[j] {
      if i < k <= j {
        assert all[i] in order;
      }
    }
  }

  // ------------------------------------------------------- what the order means

  /** Walking along dependencies from a settled node one stays settled and moves strictly forward in the order. */
  lemma {:induction false} StepsStaySettled(g: Graph, order: seq<string>, settled: nat, i: nat, m: string, k: nat)
    returns (j: nat)
    requires TopologicalWithRest(g, order, settled) && i < settled && Steps(g, order[i], m, k)
    ensures j <= i && order[j] == m && (k > 0 ==> j < i)
    decreases k
  {
    hide NoDuplicates, DependsWithin;
    if k == 0 {
      j := i;
    } else {
      var d :| Edge(g, order[i], d) && Steps(g, d, m, k - 1);
      assert Settled(g, order, i);
      var next :| 0 <= next < i && order[next] == d;
      j := StepsStaySettled(g, order, settled, next, m, k - 1);
    }
  }

  lemma SettledAvoidsCycles(g: Graph, order: seq<string>, settled: nat, i: nat)
    requires TopologicalWithRest(g, order, settled) && i < settled
    ensures !LeadsIntoCycle(g, order[i])
  {
    hide DependsWithin;
    if LeadsIntoCycle(g, order[i]) {
      var m :| Reaches(g, order[i], m) && OnCycle(g, m);
      var k: nat :| Steps(g, order[i], m, k);
      var a := StepsStaySettled(g, order, settled, i, m, k);
      var c: nat :| c > 0 && Steps(g, m, m, c);
      var b := StepsStaySettled(g, order, settled, a, m, c);
      assert false;
    }
  }

  /** A node is left over exactly when it leads into a cycle. */
  lemma LeftOverIffLeadsIntoCycle(g: Graph, order: seq<string>, settled: nat, i: nat)
    requires TopologicalWithRest(g, order, settled) && i < |order|
    ensures i >= settled <==> LeadsIntoCycle(g, order[i])
  {
    hide NoDuplicates, Settled;
    if i >= settled {
      var s := Elements(order[settled..]);
      assert order[i] == order[settled..][i - settled];
      forall n | n in s ensures DependsWithin(g, s, n) {
        var j :| 0 <= j < |order[settled..]| && order[settled..][j] == n;
        assert DependsWithin(g, s, order[settled + j]);
      }
      NeverEndingMeansCycle(g, s, order[i]);
    } else {
      SettledAvoidsCycles(g, order, settled, i);
    }
  }

  /** The order lists every node after all its dependencies exactly when the graph has no cycle. */
  lemma TopologicalIffAcyclic(g: Graph, order: seq<string>, settled: nat)
    requires TopologicalWithRest(g, order, settled)
    ensures Acyclic(g) <==> settled == |order|
    ensures Acyclic(g) <==> AllSettled(g, order)
  {
    hide NoDuplicates, LeadsIntoCycle;
    if settled < |order| {
      CycleExists(g, order, settled);
      NotSettled(g, order, settled);
    } else if n :| OnCycle(g, n) {
      NodesOnCyclesAreKnown(g, n);
      var i :| 0 <= i < |order| && order[i] == n;
      assert Steps(g, n, n, 0) && Reaches(g, n, n);
      assert LeadsIntoCycle(g, n) by { CycleLeadsIntoItself(g, n); }
      SettledAvoidsCycles(g, order, settled, i);
    }
  }

  lemma CycleLeadsIntoItself(g: Graph, n: string)
    requires OnCycle(g, n) && Reaches(g, n, n)
    ensures LeadsIntoCycle(g, n)
  {
  }

  lemma NodesOnCyclesAreKnown(g: Graph, n: string)
    requires OnCycle(g, n)
    ensures n in g
  {
  }

  lemma CycleExists(g: Graph, order: seq<string>, settled: nat)
    requires TopologicalWithRest(g, order, settled) && settled < |order|
    ensures !Acyclic(g)
  {
    LeftOverIffLeadsIntoCycle(g, order, settled, settled);
    var m :| Reaches(g, order[settled], m) && OnCycle(g, m);
  }

  lemma NotSettled(g: Graph, order: seq<string>, settled: nat)
    requires TopologicalWithRest(g, order, settled) && settled < |order|
    ensures !Settled(g, order, settled)
  {
  }

  /** The order of deletion: dependents before what they depend on. */
  function DeleteOrder(order: seq<string>): seq<string> {
    seq(|order|, i requires 0 <= i < |order| => order[|order| - 1 - i])
  }

  lemma DeleteOrderReverses(g: Graph, order: seq<string>)
    requires AllSettled(g, order) && forall n :: n in order <==> n in g
    ensures forall i, d | 0 <= i < |order| && Edge(g, DeleteOrder(order)[i], d) :: d in DeleteOrder(order)[i + 1..]
    ensures forall n :: n in DeleteOrder(order) <==> n in g
  {
    var reversed, n := DeleteOrder(order), |order|;
    forall i, d | 0 <= i < n && Edge(g, reversed[i], d) ensures d in reversed[i + 1..] {
      assert Settled(g, order, n - 1 - i);
      var k :| 0 <= k < n - 1 - i && order[k] == d;
      assert reversed[n - 1 - k] == d && n - 1 - k >= i + 1;
      assert reversed[i + 1..][n - 1 - k - (i + 1)] == d;
    }
    forall x ensures x in reversed <==> x in order {
      if x in order {
        var k :| 0 <= k < n && order[k] == x;
        assert reversed[n - 1 - k] == x;
      }
    }
  }
}
