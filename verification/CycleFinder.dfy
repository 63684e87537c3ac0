/** The circular-dependency checker of scripts/check-circular-dependencies.js.

    `findCycles` walks a dependency graph depth first, with a `visited` set, an
    `active` set, a `stack` and a list of `cycles` that its inner `visit` updates
    while it recurses.  The result is a list of closed walks.  Two facts tie that
    list to the graph: every reported list really is a simple directed cycle, and
    every directed cycle of the graph runs through the closing edge of some
    reported list.  The second one needs a finish order: `rank` numbers the files
    in the order in which `visit` leaves them, and every edge out of a finished
    file either was reported or leads to a file that finished earlier. */
module CycleFinder {

  /** A normalised source path. */
  datatype File = File(path: string)

  /** An insertion-ordered JavaScript `Map` from a file to its dependency list. */
  datatype Graph = Graph(keys: seq<File>, deps: map<File, seq<File>>) {
    ghost predicate Valid() {
      && (forall f :: f in keys <==> f in deps)
      && (forall i, j :: 0 <= i < j < |keys| ==> keys[i] != keys[j])
    }

    /** `graph.get(file) || []` */
    function Get(f: File): seq<File> {
      if f in deps then deps[f] else []
    }

    predicate Edge(u: File, v: File) {
      v in Get(u)
    }
  }

  /** A walk along edges that comes back to where it began. */
  ghost predicate ClosedWalk(g: Graph, w: seq<File>) {
    && |w| >= 2
    && w[0] == w[|w| - 1]
    && forall i :: 0 <= i < |w| - 1 ==> g.Edge(w[i], w[i + 1])
  }

  predicate Distinct(s: seq<File>) {
    forall i, j :: 0 <= i < j < |s| ==> s[i] != s[j]
  }

  ghost predicate SimpleCycle(g: Graph, c: seq<File>) {
    ClosedWalk(g, c) && Distinct(c[..|c| - 1])
  }

  /** `(u, v)` is the last edge of one of the reported lists. */
  ghost predicate Closing(cycles: seq<seq<File>>, u: File, v: File) {
    exists k :: 0 <= k < |cycles| && Closes(cycles[k], u, v)
  }

  ghost predicate Closes(c: seq<File>, u: File, v: File) {
    |c| >= 2 && c[|c| - 2] == u && c[|c| - 1] == v
  }

  /** Some edge of `w` is the closing edge of a reported list. */
  ghost predicate PassesClosingEdge(cycles: seq<seq<File>>, w: seq<File>) {
    exists i :: 0 <= i < |w| - 1 && Closing(cycles, w[i], w[i + 1])
  }

  ghost function Targets(g: Graph): set<File> {
    set f, i | f in g.deps && 0 <= i < |g.deps[f]| :: g.deps[f][i]
  }

  /** Everything `visit` can ever be called with. */
  ghost function Universe(g: Graph): set<File> {
    g.deps.Keys + Targets(g)
  }

  lemma EdgeStaysInUniverse(g: Graph, u: File, i: nat)
    requires i < |g.Get(u)|
    ensures g.Get(u)[i] in Universe(g)
  {
    assert g.Get(u) == g.deps[u];
  }

  /** `stack.indexOf(file)` */
  function IndexOf(s: seq<File>, f: File): (i: nat)
    requires f in s
    ensures i < |s| && s[i] == f && f !in s[..i]
  {
    if s[0] == f then 0 else 1 + IndexOf(s[1..], f)
  }

  /** What the closure of `visit` holds at one moment, with the finish order. */
  ghost predicate StackInv(g: Graph, active: set<File>, stack: seq<File>) {
    && (forall f :: f in active <==> f in stack)
    && Distinct(stack)
    && (forall i :: 0 <= i < |stack| - 1 ==> g.Edge(stack[i], stack[i + 1]))
  }

  /** What is known of an edge out of a finished file. */
  ghost predicate Settled(cycles: seq<seq<File>>, rank: map<File, nat>, u: File, v: File)
    requires u in rank
  {
    Closing(cycles, u, v) || (v in rank && rank[v] < rank[u])
  }

  ghost predicate AllSettled(g: Graph, cycles: seq<seq<File>>, rank: map<File, nat>) {
    forall u, v :: u in rank && g.Edge(u, v) ==> Settled(cycles, rank, u, v)
  }

  ghost predicate Bounded(rank: map<File, nat>) {
    forall f :: f in rank ==> rank[f] < |rank|
  }

  ghost predicate AllSimple(g: Graph, cycles: seq<seq<File>>) {
    forall c :: c in cycles ==> SimpleCycle(g, c)
  }

  /** `b` keeps everything `a` says. */
  ghost predicate Extends(a: map<File, nat>, b: map<File, nat>) {
    forall f :: f in a ==> f in b && b[f] == a[f]
  }

  /** The loop over `graph.get(file)` has dealt with the first `n` dependencies. */
  ghost predicate Handled(cycles: seq<seq<File>>, rank: map<File, nat>, file: File, deps: seq<File>, n: nat)
    requires n <= |deps|
  {
    forall j :: 0 <= j < n ==> Closing(cycles, file, deps[j]) || deps[j] in rank
  }

  /** What holds between any two steps of the search. */
  ghost predicate Inv(
    g: Graph, visited: set<File>, active: set<File>, stack: seq<File>,
    cycles: seq<seq<File>>, rank: map<File, nat>)
  {
    && active <= visited <= Universe(g)
    && StackInv(g, active, stack)
    && rank.Keys == visited - active
    && Bounded(rank)
    && AllSettled(g, cycles, rank)
    && AllSimple(g, cycles)
  }

  lemma PushKeepsStack(g: Graph, active: set<File>, stack: seq<File>, file: File)
    requires StackInv(g, active, stack) && file !in active
    requires stack == [] || g.Edge(stack[|stack| - 1], file)
    ensures StackInv(g, active + {file}, stack + [file])
  {
  }

  lemma PopKeepsStack(g: Graph, active: set<File>, stack: seq<File>, file: File)
    requires StackInv(g, active + {file}, stack + [file]) && file !in active
    ensures StackInv(g, active, stack)
  {
    var s := stack + [file];
    assert s[|stack|] == file;
    assert file !in stack by {
      forall i | 0 <= i < |stack| ensures stack[i] != file {
        assert s[i] == stack[i];
      }
    }
    forall f ensures f in active <==> f in stack {
      assert f in s <==> f in stack || f == file;
    }
    forall i, j | 0 <= i < j < |stack| ensures stack[i] != stack[j] {
      assert s[i] == stack[i] && s[j] == stack[j];
    }
    forall i | 0 <= i < |stack| - 1 ensures g.Edge(stack[i], stack[i + 1]) {
      assert s[i] == stack[i] && s[i + 1] == stack[i + 1];
    }
  }

  /** The slice of the stack from `file` on, closed by the edge back to it. */
  lemma SliceIsSimpleCycle(g: Graph, active: set<File>, stack: seq<File>, file: File, start: nat)
    requires StackInv(g, active, stack)
    requires start < |stack| && stack[start] == file
    requires g.Edge(stack[|stack| - 1], file)
    ensures SimpleCycle(g, stack[start..] + [file])
    ensures Closes(stack[start..] + [file], stack[|stack| - 1], file)
  {
    var c := stack[start..] + [file];
    assert c[..|c| - 1] == stack[start..];
    forall i | 0 <= i < |c| - 1 ensures g.Edge(c[i], c[i + 1]) {
      if i < |c| - 2 {
        assert g.Edge(stack[start + i], stack[start + i + 1]);
      }
    }
  }

  lemma ReportKeepsSettled(g: Graph, cycles: seq<seq<File>>, rank: map<File, nat>, c: seq<File>)
    requires AllSettled(g, cycles, rank)
    ensures AllSettled(g, cycles + [c], rank)
  {
    forall u, v | u in rank && g.Edge(u, v)
      ensures Settled(cycles + [c], rank, u, v)
    {
      assert Settled(cycles, rank, u, v);
      if Closing(cycles, u, v) {
        ClosingGrows(cycles, cycles + [c], u, v);
      }
    }
  }

  lemma FinishKeepsSettled(g: Graph, cycles: seq<seq<File>>, rank: map<File, nat>, file: File)
    requires AllSettled(g, cycles, rank) && Bounded(rank)
    requires file !in rank
    requires Handled(cycles, rank, file, g.Get(file), |g.Get(file)|)
    ensures AllSettled(g, cycles, rank[file := |rank|]) && Bounded(rank[file := |rank|])
  {
    var after := rank[file := |rank|];
    assert after.Keys == rank.Keys + {file};
    assert |after| == |rank| + 1;
    forall u, v | u in after && g.Edge(u, v)
      ensures Settled(cycles, after, u, v)
    {
      if u != file {
        assert Settled(cycles, rank, u, v);
      } else {
        var j :| 0 <= j < |g.Get(file)| && g.Get(file)[j] == v;
        assert Closing(cycles, file, g.Get(file)[j]) || g.Get(file)[j] in rank;
      }
    }
  }

  lemma NothingHandled(cycles: seq<seq<File>>, rank: map<File, nat>, file: File, deps: seq<File>)
    ensures Handled(cycles, rank, file, deps, 0)
  {
  }

  lemma HandledGrows(
    cycles: seq<seq<File>>, rank: map<File, nat>,
    cycles': seq<seq<File>>, rank': map<File, nat>,
    file: File, deps: seq<File>, n: nat)
    requires n < |deps|
    requires Handled(cycles, rank, file, deps, n)
    requires cycles <= cycles' && Extends(rank, rank')
    requires Closing(cycles', file, deps[n]) || deps[n] in rank'
    ensures Handled(cycles', rank', file, deps, n + 1)
  {
    forall j | 0 <= j < n
      ensures Closing(cycles', file, deps[j]) || deps[j] in rank'
    {
      if Closing(cycles, file, deps[j]) {
        ClosingGrows(cycles, cycles', file, deps[j]);
      } else {
        assert deps[j] in rank;
      }
    }
  }

  lemma LeaveKeepsInv(
    g: Graph, visited: set<File>, active: set<File>, stack: seq<File>,
    cycles: seq<seq<File>>, rank: map<File, nat>, file: File)
    requires Inv(g, visited, active, stack, cycles, rank)
    requires |stack| > 0 && stack[|stack| - 1] == file
    requires Handled(cycles, rank, file, g.Get(file), |g.Get(file)|)
    ensures Inv(g, visited, active - {file}, stack[..|stack| - 1], cycles, rank[file := |rank|])
  {
    hide StackInv, AllSettled, AllSimple, Bounded, Universe, Handled;
    var stack', active' := stack[..|stack| - 1], active - {file};
    TopIsActive(g, active, stack);
    FinishKeepsSettled(g, cycles, rank, file);
    assert stack == stack' + [file];
    RemoveOne(visited, active, file);
    PopKeepsStack(g, active', stack', file);
    MoreKeys(rank, file, |rank|);
  }

  lemma RemoveOne<T>(visited: set<T>, active: set<T>, x: T)
    requires x in active && active <= visited
    ensures active == (active - {x}) + {x} && x !in active - {x}
    ensures visited - (active - {x}) == (visited - active) + {x}
    ensures active - {x} <= visited && x !in visited - active
  {
  }

  lemma MoreKeys(rank: map<File, nat>, file: File, n: nat)
    ensures rank[file := n].Keys == rank.Keys + {file}
  {
  }

  lemma Membership(
    g: Graph, visited: set<File>, active: set<File>, stack: seq<File>,
    cycles: seq<seq<File>>, rank: map<File, nat>, file: File)
    requires Inv(g, visited, active, stack, cycles, rank)
    ensures file in rank <==> file in visited && file !in active
    ensures file in active ==> file in visited && stack != []
    ensures stack != [] ==> stack[|stack| - 1] in active
  {
  }

  lemma StackTop(g: Graph, active: set<File>, stack: seq<File>, file: File)
    requires StackInv(g, active, stack) && file in active
    ensures stack != [] && file in stack
  {
  }

  lemma TopIsActive(g: Graph, active: set<File>, stack: seq<File>)
    requires StackInv(g, active, stack) && stack != []
    ensures stack[|stack| - 1] in active
  {
  }

  lemma ExtendsSelf(rank: map<File, nat>)
    ensures Extends(rank, rank)
  {
  }

  lemma ExtendsFurther(a: map<File, nat>, b: map<File, nat>, file: File, n: nat)
    requires Extends(a, b) && file !in b
    ensures Extends(a, b[file := n])
  {
  }

  class Search {
    const graph: Graph
    var visited: set<File>
    var active: set<File>
    var stack: seq<File>
    var cycles: seq<seq<File>>
    ghost var rank: map<File, nat>

    ghost predicate Valid()
      reads this
    {
      Inv(graph, visited, active, stack, cycles, rank)
    }

    constructor (g: Graph)
      ensures Valid() && graph == g
      ensures visited == {} && active == {} && stack == [] && cycles == []
    {
      graph := g;
      visited, active, stack, cycles := {}, {}, [], [];
      rank := map[];
    }

    /** The inner closure `visit(file)`. */
    method Visit(file: File)
      requires Valid()
      requires file in Universe(graph)
      requires stack == [] || graph.Edge(stack[|stack| - 1], file)
      modifies this
      ensures Valid()
      ensures stack == old(stack) && active == old(active)
      ensures old(visited) + {file} <= visited
      ensures old(cycles) <= cycles && Extends(old(rank), rank)
      ensures file !in old(active) ==> file in rank
      ensures file in old(active) ==> Closing(cycles, stack[|stack| - 1], file)
      decreases |Universe(graph) - visited|, 2
    {
      hide Inv, Universe, Extends, Closing, Handled;
      Membership(graph, visited, active, stack, cycles, rank, file);
      ExtendsSelf(rank);
      if file in active {
        ReportCycle(file);
      } else if file !in visited {
        Enter(file);
        ghost var entered := rank;
        VisitDependencies(file);
        ghost var explored := rank;
        Membership(graph, visited, active, stack, cycles, rank, file);
        Leave(file);
        ExtendsFurther(entered, explored, file, |explored|);
        assert stack == old(stack);
        assert active == old(active);
      }
    }

    /** `cycles.push([...stack.slice(start), file])` */
    method ReportCycle(file: File)
      requires Valid()
      requires file in active
      requires graph.Edge(stack[|stack| - 1], file)
      modifies this`cycles
      ensures Valid()
      ensures old(cycles) <= cycles
      ensures Closing(cycles, stack[|stack| - 1], file)
    {
      hide StackInv, AllSettled, Bounded, Universe, SimpleCycle, Closes;
      StackTop(graph, active, stack, file);
      var start := IndexOf(stack, file);
      var cycle := stack[start..] + [file];
      SliceIsSimpleCycle(graph, active, stack, file, start);
      ReportKeepsSettled(graph, cycles, rank, cycle);
      cycles := cycles + [cycle];
      assert Closes(cycles[|cycles| - 1], stack[|stack| - 1], file);
    }

    /** `visited.add(file); active.add(file); stack.push(file)` */
    method Enter(file: File)
      requires Valid()
      requires file in Universe(graph) && file !in visited
      requires stack == [] || graph.Edge(stack[|stack| - 1], file)
      modifies this`visited, this`active, this`stack
      ensures Valid()
      ensures visited == old(visited) + {file} && active == old(active) + {file}
      ensures stack == old(stack) + [file]
      ensures |Universe(graph) - visited| < |Universe(graph) - old(visited)|
    {
      hide StackInv, AllSettled, AllSimple, Bounded, Universe;
      PushKeepsStack(graph, active, stack, file);
      assert Universe(graph) - (visited + {file}) == (Universe(graph) - visited) - {file};
      visited := visited + {file};
      active := active + {file};
      stack := stack + [file];
      assert visited - active == old(visited) - old(active);
    }

    /** `for (const dependency of graph.get(file) || []) visit(dependency)` */
    method VisitDependencies(file: File)
      requires Valid()
      requires |stack| > 0 && stack[|stack| - 1] == file
      modifies this
      ensures Valid()
      ensures stack == old(stack) && active == old(active)
      ensures old(visited) <= visited
      ensures old(cycles) <= cycles && Extends(old(rank), rank)
      ensures Handled(cycles, rank, file, graph.Get(file), |graph.Get(file)|)
      decreases |Universe(graph) - visited|, 3
    {
      hide StackInv, AllSettled, AllSimple, Bounded, Universe, Handled, Closing;
      var deps := graph.Get(file);
      NothingHandled(cycles, rank, file, deps);
      for i := 0 to |deps|
        invariant Valid()
        invariant stack == old(stack) && active == old(active)
        invariant old(visited) <= visited
        invariant old(cycles) <= cycles && Extends(old(rank), rank)
        invariant Handled(cycles, rank, file, deps, i)
      {
        EdgeStaysInUniverse(graph, file, i);
        SubsetSize(Universe(graph) - visited, Universe(graph) - old(visited));
        ghost var cycles0, rank0 := cycles, rank;
        Visit(deps[i]);
        HandledGrows(cycles0, rank0, cycles, rank, file, deps, i);
      }
    }

    /** `stack.pop(); active.delete(file)`: the file is finished. */
    method Leave(file: File)
      requires Valid()
      requires |stack| > 0 && stack[|stack| - 1] == file
      requires Handled(cycles, rank, file, graph.Get(file), |graph.Get(file)|)
      modifies this`stack, this`active, this`rank
      ensures Valid()
      ensures stack == old(stack)[..|old(stack)| - 1] && active == old(active) - {file}
      ensures rank == old(rank)[file := |old(rank)|]
    {
      hide Inv, Handled;
      LeaveKeepsInv(graph, visited, active, stack, cycles, rank, file);
      stack := stack[..|stack| - 1];
      active := active - {file};
      rank := rank[file := |rank|];
    }
  }

  lemma SubsetSize<T>(a: set<T>, b: set<T>)
    requires a <= b
    ensures |a| <= |b|
  {
    assert b == a + (b - a);
  }

  lemma ClosingGrows(a: seq<seq<File>>, b: seq<seq<File>>, u: File, v: File)
    requires a <= b && Closing(a, u, v)
    ensures Closing(b, u, v)
  {
    var k :| 0 <= k < |a| && Closes(a[k], u, v);
    assert Closes(b[k], u, v);
  }

  /** Along a walk that avoids every closing edge the finish order only goes down. */
  lemma {:induction false} RankFalls(g: Graph, cycles: seq<seq<File>>, rank: map<File, nat>, w: seq<File>)
    requires |w| >= 2
    requires forall i :: 0 <= i < |w| - 1 ==> g.Edge(w[i], w[i + 1])
    requires w[0] in rank
    requires AllSettled(g, cycles, rank)
    requires !PassesClosingEdge(cycles, w)
    ensures w[|w| - 1] in rank && rank[w[|w| - 1]] < rank[w[0]]
  {
    assert g.Edge(w[0], w[1]);
    assert !Closing(cycles, w[0], w[1]) && Settled(cycles, rank, w[0], w[1]);
    if |w| > 2 {
      var rest := w[1..];
      forall i | 0 <= i < |rest| - 1
        ensures g.Edge(rest[i], rest[i + 1]) && !Closing(cycles, rest[i], rest[i + 1])
      {
        assert rest[i] == w[i + 1] && rest[i + 1] == w[i + 2];
        assert g.Edge(w[i + 1], w[i + 1 + 1]);
        assert !Closing(cycles, w[i + 1], w[i + 1 + 1]);
      }
      RankFalls(g, cycles, rank, rest);
    }
  }

  /** Once every key has finished, the reports meet all closed walks. */
  lemma FinishedSearchIsComplete(g: Graph, cycles: seq<seq<File>>, rank: map<File, nat>)
    requires AllSettled(g, cycles, rank) && AllSimple(g, cycles)
    requires g.deps.Keys <= rank.Keys
    ensures forall w :: ClosedWalk(g, w) ==> PassesClosingEdge(cycles, w)
    ensures cycles == [] <==> !exists w :: ClosedWalk(g, w)
  {
    forall w | ClosedWalk(g, w)
      ensures PassesClosingEdge(cycles, w)
    {
      if !PassesClosingEdge(cycles, w) {
        assert g.Edge(w[0], w[1]);
        RankFalls(g, cycles, rank, w);
        assert false;
      }
    }
    if cycles != [] {
      assert cycles[0] in cycles;
      assert ClosedWalk(g, cycles[0]);
    } else {
      forall w ensures !ClosedWalk(g, w) {
        assert !PassesClosingEdge(cycles, w);
      }
    }
  }

  lemma KeysCovered(g: Graph, visited: set<File>)
    requires g.Valid()
    requires forall j :: 0 <= j < |g.keys| ==> g.keys[j] in visited
    ensures g.deps.Keys <= visited
  {
    forall f | f in g.deps ensures f in visited {
      assert f in g.keys;
    }
  }

  lemma KeyInUniverse(g: Graph, i: nat)
    requires g.Valid() && i < |g.keys|
    ensures g.keys[i] in Universe(g)
  {
    assert g.keys[i] in g.keys;
  }

  lemma SearchDone(g: Graph, visited: set<File>, cycles: seq<seq<File>>, rank: map<File, nat>)
    requires Inv(g, visited, {}, [], cycles, rank) && g.deps.Keys <= visited
    ensures AllSimple(g, cycles)
    ensures forall w :: ClosedWalk(g, w) ==> PassesClosingEdge(cycles, w)
    ensures cycles == [] <==> !exists w :: ClosedWalk(g, w)
  {
    FinishedSearchIsComplete(g, cycles, rank);
  }

  /** `findCycles(graph)` */
  method FindCycles(g: Graph) returns (cycles: seq<seq<File>>)
    requires g.Valid()
    // every reported list is a simple directed cycle of the graph
    ensures forall c :: c in cycles ==> SimpleCycle(g, c)
    // deleting the reported closing edges leaves an acyclic graph
    ensures forall w :: ClosedWalk(g, w) ==> PassesClosingEdge(cycles, w)
    // nothing is reported exactly when there is nothing to report
    ensures cycles == [] <==> !exists w :: ClosedWalk(g, w)
  {
    hide Inv, Universe, Extends, Closing, AllSettled, ClosedWalk, PassesClosingEdge;
    var search := new Search(g);
    for i := 0 to |g.keys|
      invariant search.Valid() && search.graph == g
      invariant search.stack == [] && search.active == {}
      invariant forall j :: 0 <= j < i ==> g.keys[j] in search.visited
    {
      KeyInUniverse(g, i);
      search.Visit(g.keys[i]);
    }
    cycles := search.cycles;
    KeysCovered(g, search.visited);
    SearchDone(g, search.visited, cycles, search.rank);
  }
}
