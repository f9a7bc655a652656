/** The depth-first search for cycles between feature modules. */
module FeatureCycles {
  import Sorting

  // The features each feature depends on, in the order in which the dependencies were found.
  type Edges = map<string, seq<string>>

  function Deps(edges: Edges, feature: string): seq<string> {
    if feature in edges then edges[feature] else []
  }

  predicate Edge(edges: Edges, a: string, b: string) {
    b in Deps(edges, a)
  }

  ghost predicate IsPath(edges: Edges, p: seq<string>) {
    forall i | 0 <= i < |p| - 1 :: Edge(edges, p[i], p[i + 1])
  }

  /** A closed walk along the edges. */
  ghost predicate IsCycle(edges: Edges, c: seq<string>) {
    |c| >= 2 && c[0] == c[|c| - 1] && IsPath(edges, c)
  }

  /** A cycle that passes no feature twice. */
  ghost predicate IsSimpleCycle(edges: Edges, c: seq<string>) {
    IsCycle(edges, c) && Sorting.Distinct(c[..|c| - 1])
  }

  ghost predicate HasCycle(edges: Edges) {
    exists c :: IsCycle(edges, c)
  }

  /** One of the lists ends with the edge from `a` to `b`. */
  ghost predicate Closes(cycles: seq<seq<string>>, a: string, b: string) {
    exists c :: c in cycles && |c| >= 2 && c[|c| - 2] == a && c[|c| - 1] == b
  }

  /** The walk passes the last edge of one of the lists. */
  ghost predicate PassesClosing(cycles: seq<seq<string>>, c: seq<string>) {
    exists i | 0 <= i < |c| - 1 :: Closes(cycles, c[i], c[i + 1])
  }

  // ---- An order of finishing refutes all other cycles ----

  /** Everything a listed feature depends on is listed before it, unless a reported list ends with that edge. */
  ghost predicate Topological(edges: Edges, order: seq<string>, cycles: seq<seq<string>>) {
    forall i, b | 0 <= i < |order| && Edge(edges, order[i], b) :: b in order[..i] || Closes(cycles, order[i], b)
  }

  /** A walk from a listed feature only meets features listed before it. */
  lemma {:induction false} WalkDescends(edges: Edges, order: seq<string>, cycles: seq<seq<string>>, c: seq<string>,
                                        k: nat, i: nat)
    requires Topological(edges, order, cycles) && IsPath(edges, c) && !PassesClosing(cycles, c)
    requires 0 < k < |c| && i < |order| && order[i] == c[0]
    ensures c[k] in order[..i]
  {
    hide Closes;
    assert !Closes(cycles, c[k - 1], c[k - 1 + 1]);
    if k > 1 {
      WalkDescends(edges, order, cycles, c, k - 1, i);
      var j :| 0 <= j < i && order[j] == c[k - 1];
      assert Edge(edges, order[j], c[k]);
      assert order[..i][..j] == order[..j];
    } else {
      assert Edge(edges, order[i], c[1]);
    }
  }

  lemma NoCycleInOrder(edges: Edges, order: seq<string>, cycles: seq<seq<string>>, c: seq<string>)
    requires Topological(edges, order, cycles) && Sorting.Distinct(order)
    requires forall feature | feature in edges :: feature in order
    ensures IsCycle(edges, c) ==> PassesClosing(cycles, c)
  {
    if IsCycle(edges, c) && !PassesClosing(cycles, c) {
      assert Edge(edges, c[0], c[1]);
      var i :| 0 <= i < |order| && order[i] == c[0];
      WalkDescends(edges, order, cycles, c, |c| - 1, i);
      assert false;
    }
  }

  // ---- Without the closing edges ----

  ghost function Others(cycles: seq<seq<string>>, feature: string, deps: seq<string>): (rest: seq<string>)
    ensures forall b :: b in rest <==> b in deps && !Closes(cycles, feature, b)
  {
    if deps == [] then [] else
    var rest := Others(cycles, feature, deps[1..]);
    assert deps == [deps[0]] + deps[1..];
    if Closes(cycles, feature, deps[0]) then rest else [deps[0]] + rest
  }

  /** The edge map without the last edge of any of the lists. */
  ghost function Without(edges: Edges, cycles: seq<seq<string>>): Edges {
    map feature | feature in edges :: Others(cycles, feature, edges[feature])
  }

  lemma AcyclicWithout(edges: Edges, cycles: seq<seq<string>>)
    requires forall c | IsCycle(edges, c) :: PassesClosing(cycles, c)
    ensures !HasCycle(Without(edges, cycles))
  {
    hide Closes;
    forall c ensures !IsCycle(Without(edges, cycles), c) {
      if IsCycle(Without(edges, cycles), c) {
        WithoutIsFewer(edges, cycles, c);
      }
    }
  }

  lemma WithoutIsFewer(edges: Edges, cycles: seq<seq<string>>, c: seq<string>)
    requires IsPath(Without(edges, cycles), c)
    ensures IsPath(edges, c) && !PassesClosing(cycles, c)
  {
    hide Closes;
    forall i | 0 <= i < |c| - 1 ensures Edge(edges, c[i], c[i + 1]) && !Closes(cycles, c[i], c[i + 1]) {
      assert Edge(Without(edges, cycles), c[i], c[i + 1]);
    }
  }

  // ---- The search ----

  /** Strings in the order of their code units. */
  predicate InCodeUnitOrder(a: string, b: string) {
    a == [] || (b != [] && (a[0] < b[0] || (a[0] == b[0] && InCodeUnitOrder(a[1..], b[1..]))))
  }

  /** The first code unit in which two strings differ decides; a prefix comes first. */
  lemma {:induction false} FirstDifferenceDecides(a: string, b: string, k: nat)
    requires k <= |a| && k <= |b| && a[..k] == b[..k]
    ensures k == |a| ==> InCodeUnitOrder(a, b)
    ensures k < |a| && k == |b| ==> !InCodeUnitOrder(a, b)
    ensures k < |a| && k < |b| && a[k] < b[k] ==> InCodeUnitOrder(a, b)
    ensures k < |a| && k < |b| && a[k] > b[k] ==> !InCodeUnitOrder(a, b)
  {
    if k > 0 {
      assert a[0] == a[..k][0] && b[0] == b[..k][0];
      assert a[1..][..k - 1] == a[..k][1..] && b[1..][..k - 1] == b[..k][1..];
      FirstDifferenceDecides(a[1..], b[1..], k - 1);
    }
  }

  lemma {:induction false} CodeUnitOrderIsTotal(a: string, b: string)
    ensures InCodeUnitOrder(a, b) || InCodeUnitOrder(b, a)
  {
    if a != [] && b != [] && a[0] == b[0] { CodeUnitOrderIsTotal(a[1..], b[1..]); }
  }

  lemma {:induction false} CodeUnitOrderIsTransitive(a: string, b: string, c: string)
    requires InCodeUnitOrder(a, b) && InCodeUnitOrder(b, c)
    ensures InCodeUnitOrder(a, c)
  {
    if a != [] && b != [] && c != [] && a[0] == b[0] == c[0] { CodeUnitOrderIsTransitive(a[1..], b[1..], c[1..]); }
  }

  function Features(edges: Edges): set<string> {
    edges.Keys + set a, b | a in edges && b in edges[a] :: b
  }

  function IndexOf(s: seq<string>, x: string): (i: nat)
    requires x in s
    ensures i < |s| && s[i] == x && x !in s[..i]
  {
    if s[0] == x then 0 else 1 + IndexOf(s[1..], x)
  }

  /** The stack closes a cycle when its top depends on something on it. */
  lemma StackClosesCycle(edges: Edges, stack: seq<string>, feature: string)
    requires IsPath(edges, stack) && Sorting.Distinct(stack) && feature in stack
             && Edge(edges, stack[|stack| - 1], feature)
    ensures IsSimpleCycle(edges, stack[IndexOf(stack, feature)..] + [feature])
  {
    hide IndexOf;
    var start := IndexOf(stack, feature);
    SuffixIsPath(edges, stack, start, feature);
    hide IsPath;
    assert (stack[start..] + [feature])[..|stack| - start] == stack[start..];
  }

  lemma SuffixIsPath(edges: Edges, stack: seq<string>, start: nat, feature: string)
    requires IsPath(edges, stack) && start < |stack| && Edge(edges, stack[|stack| - 1], feature)
    ensures IsPath(edges, stack[start..] + [feature])
  {
    hide Edge;
    var c := stack[start..] + [feature];
    forall i | 0 <= i < |c| - 1 ensures Edge(edges, c[i], c[i + 1]) {
      if i < |c| - 2 { assert Edge(edges, stack[start + i], stack[start + i + 1]); }
    }
  }

  lemma OrderGrows(edges: Edges, order: seq<string>, cycles: seq<seq<string>>, feature: string)
    requires Topological(edges, order, cycles) && Sorting.Distinct(order) && feature !in order
    requires forall b | b in Deps(edges, feature) :: b in order || Closes(cycles, feature, b)
    ensures Topological(edges, order + [feature], cycles) && Sorting.Distinct(order + [feature])
  {
    hide Closes;
    var more := order + [feature];
    forall i, b | 0 <= i < |more| && Edge(edges, more[i], b) ensures b in more[..i] || Closes(cycles, more[i], b) {
      if i < |order| { assert more[..i] == order[..i]; } else { assert more[..i] == order; }
    }
  }

  /** Reporting more keeps every closing edge. */
  lemma ReportsGrow(edges: Edges, order: seq<string>, cycles: seq<seq<string>>, more: seq<seq<string>>)
    requires cycles <= more
    ensures forall a, b | Closes(cycles, a, b) :: Closes(more, a, b)
    ensures Topological(edges, order, cycles) ==> Topological(edges, order, more)
  {
    forall a, b | Closes(cycles, a, b) ensures Closes(more, a, b) {
      var c :| c in cycles && |c| >= 2 && c[|c| - 2] == a && c[|c| - 1] == b;
      assert c in more;
    }
    hide Closes;
  }

  class Search {
    const edges: Edges
    var visited: set<string>
    var active: set<string>
    var stack: seq<string>
    var cycles: seq<seq<string>>
    ghost var finished: seq<string>

    constructor (edges: Edges)
      ensures this.edges == edges && Valid() && stack == [] && cycles == [] && finished == []
    {
      this.edges := edges;
      visited, active, stack, cycles, finished := {}, {}, [], [], [];
    }

    /** The stack is a path of distinct features under search, and the finished features are in topological order but
        for the edges that close a reported cycle. */
    ghost predicate Valid()
      reads this
    {
      && visited <= Features(edges)
      && active == Sorting.Elements(stack)
      && Sorting.Distinct(stack) && IsPath(edges, stack)
      && (forall c | c in cycles :: IsSimpleCycle(edges, c))
      && (forall f :: f in visited <==> f in stack || f in finished)
      && (forall f | f in finished :: f !in stack)
      && Sorting.Distinct(finished)
      && Topological(edges, finished, cycles)
    }

    /** The feature is searched, or the edge that led to it closes a reported cycle. */
    ghost predicate Done(feature: string)
      reads this
    {
      feature in finished || (stack != [] && Closes(cycles, stack[|stack| - 1], feature))
    }

    method Visit(feature: string)
      requires Valid() && feature in Features(edges)
      requires stack != [] ==> Edge(edges, stack[|stack| - 1], feature)
      modifies this
      ensures Valid() && stack == old(stack) && old(visited) <= visited && old(cycles) <= cycles
      ensures Done(feature)
      ensures forall f | f in old(finished) :: f in finished
      decreases |Features(edges) - visited|
    {
      hide Features, IsPath, IsSimpleCycle, Topological, Closes, Sorting.Distinct;
      if feature in active {
        Report(feature);
        return;
      }
      if feature in visited { return; }
      ghost var before := stack;
      Push(feature);
      var dependencies := Deps(edges, feature);
      var i := 0;
      while i < |dependencies|
        invariant 0 <= i <= |dependencies|
        invariant Valid() && stack == before + [feature]
        invariant old(visited) + {feature} <= visited && old(cycles) <= cycles
        invariant forall f | f in old(finished) :: f in finished
        invariant forall b | b in dependencies[..i] :: b in finished || Closes(cycles, feature, b)
      {
        DependencyIsFeature(edges, feature, dependencies[i]);
        Smaller(Features(edges), old(visited), visited, feature);
        ghost var reported := cycles;
        Visit(dependencies[i]);
        ReportsGrow(edges, finished, reported, cycles);
        i := i + 1;
      }
      Pop(feature);
    }

    method VisitAll(roots: seq<string>)
      requires Valid() && stack == [] && forall f | f in roots :: f in Features(edges)
      modifies this
      ensures Valid() && stack == []
      ensures forall f | f in roots :: f in finished
    {
      hide Features, IsPath, IsSimpleCycle, Topological, Closes, Sorting.Distinct;
      var i := 0;
      while i < |roots|
        invariant 0 <= i <= |roots|
        invariant Valid() && stack == []
        invariant forall f | f in roots[..i] :: f in finished
      {
        assert roots[i] in roots;
        Visit(roots[i]);
        i := i + 1;
      }
      assert roots[..|roots|] == roots;
    }

    method Report(feature: string)
      requires Valid() && feature in active && Edge(edges, stack[|stack| - 1], feature)
      modifies this
      ensures Valid() && stack == old(stack) && visited == old(visited) && finished == old(finished)
      ensures |cycles| == |old(cycles)| + 1 && old(cycles) <= cycles
      ensures Closes(cycles, stack[|stack| - 1], feature)
    {
      hide Features, Edge, IsPath, IsSimpleCycle, Topological, Sorting.Distinct, IndexOf;
      var start := IndexOf(stack, feature);
      StackClosesCycle(edges, stack, feature);
      ghost var closed := stack[start..] + [feature];
      assert closed[|closed| - 2] == stack[|stack| - 1] && closed[|closed| - 1] == feature;
      ReportsGrow(edges, finished, cycles, cycles + [closed]);
      cycles := cycles + [stack[start..] + [feature]];
      assert closed in cycles;
    }

    method Push(feature: string)
      requires Valid() && feature in Features(edges) && feature !in visited
      requires stack != [] ==> Edge(edges, stack[|stack| - 1], feature)
      modifies this
      ensures Valid() && stack == old(stack) + [feature] && visited == old(visited) + {feature}
      ensures cycles == old(cycles) && finished == old(finished)
    {
      visited := visited + {feature};
      active := active + {feature};
      stack := stack + [feature];
    }

    method Pop(feature: string)
      requires Valid() && stack != [] && stack[|stack| - 1] == feature
      requires forall b | b in Deps(edges, feature) :: b in finished || Closes(cycles, feature, b)
      modifies this
      ensures Valid() && stack == old(stack)[..|old(stack)| - 1] && visited == old(visited) && cycles == old(cycles)
      ensures finished == old(finished) + [feature]
    {
      stack := stack[..|stack| - 1];
      active := active - {feature};
      OrderGrows(edges, finished, cycles, feature);
      finished := finished + [feature];
      assert forall f | f in old(stack) :: f == feature || f in stack;
    }
  }

  lemma DependencyIsFeature(edges: Edges, a: string, b: string)
    requires b in Deps(edges, a)
    ensures b in Features(edges)
  {
  }

  lemma Smaller(all: set<string>, before: set<string>, now: set<string>, feature: string)
    requires before + {feature} <= now && feature in all && feature !in before
    ensures |all - now| < |all - before|
  {
    Sorting.SubsetSize(all - now, all - before, feature);
  }

  /** Every list returned is a cycle of the edge map that passes no feature twice, and every cycle there is passes the
      last edge of one of them: without those edges no cycle is left, and nothing is returned exactly when there is
      none at all. `keys` is the insertion order of the map. */
  method FindFeatureCycles(edges: Edges, keys: seq<string>) returns (cycles: seq<seq<string>>)
    requires Sorting.Elements(keys) == edges.Keys
    ensures forall c | c in cycles :: IsSimpleCycle(edges, c)
    ensures forall c | IsCycle(edges, c) :: PassesClosing(cycles, c)
    ensures !HasCycle(Without(edges, cycles))
    ensures cycles == [] <==> !HasCycle(edges)
  {
    hide Features, Edge, IsPath, IsSimpleCycle, IsCycle, HasCycle, Topological, Closes, PassesClosing, Without,
         Sorting.Distinct, Sorting.Elements;
    CodeUnitOrder();
    var roots := Sorting.Sort(keys, InCodeUnitOrder);
    KeysAreRoots(edges, keys, roots);
    var search := new Search(edges);
    search.VisitAll(roots);
    cycles := search.cycles;
    OrderRefutes(edges, search.finished, cycles);
    AcyclicWithout(edges, cycles);
    if cycles == [] { NothingPasses(edges); } else { ReportProves(edges, cycles); }
  }

  lemma CodeUnitOrder()
    ensures Sorting.TotalPreorder(InCodeUnitOrder)
  {
    forall a, b, c
      ensures InCodeUnitOrder(a, b) || InCodeUnitOrder(b, a)
      ensures InCodeUnitOrder(a, b) && InCodeUnitOrder(b, c) ==> InCodeUnitOrder(a, c)
    {
      CodeUnitOrderIsTotal(a, b);
      if InCodeUnitOrder(a, b) && InCodeUnitOrder(b, c) { CodeUnitOrderIsTransitive(a, b, c); }
    }
  }

  lemma KeysAreRoots(edges: Edges, keys: seq<string>, roots: seq<string>)
    requires Sorting.Elements(keys) == edges.Keys && multiset(roots) == multiset(keys)
    ensures forall f :: f in roots <==> f in edges
    ensures forall f | f in roots :: f in Features(edges)
  {
    Sorting.SameElements(keys, roots);
    forall f ensures f in roots <==> f in edges { assert f in keys <==> f in Sorting.Elements(keys); }
  }

  lemma OrderRefutes(edges: Edges, order: seq<string>, cycles: seq<seq<string>>)
    requires Topological(edges, order, cycles) && Sorting.Distinct(order)
    requires forall feature | feature in edges :: feature in order
    ensures forall c | IsCycle(edges, c) :: PassesClosing(cycles, c)
  {
    hide Topological, IsCycle, PassesClosing;
    forall c | IsCycle(edges, c) ensures PassesClosing(cycles, c) { NoCycleInOrder(edges, order, cycles, c); }
  }

  lemma NothingPasses(edges: Edges)
    requires forall c | IsCycle(edges, c) :: PassesClosing([], c)
    ensures !HasCycle(edges)
  {
    hide IsCycle;
  }

  lemma ReportProves(edges: Edges, cycles: seq<seq<string>>)
    requires cycles != [] && forall c | c in cycles :: IsSimpleCycle(edges, c)
    ensures HasCycle(edges)
  {
    assert cycles[0] in cycles;
    assert IsCycle(edges, cycles[0]);
  }
}
