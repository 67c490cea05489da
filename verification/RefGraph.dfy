/** `_check_cycles`: an explicit-stack depth-first search over the same-instance ref graph,
    measured against the unfolding of that graph. */
module RefGraph {

  const MAX_COMPOSITION_EXPANSION: nat := 10_000

  /** A target's successors, in order and with repeats. */
  type Graph<P> = map<P, seq<P>>

  // ------------------------------------------------------------ the unfolding

  /** How many schemas `p` unfolds to, cut off at `depth`. A successor that is no target
      counts as one schema. */
  function Unfolding<P>(g: Graph<P>, p: P, depth: nat): nat
    decreases depth, 0
  {
    if depth == 0 then 0 else if p !in g then 1 else 1 + UnfoldAll(g, g[p], depth - 1)
  }

  function UnfoldAll<P>(g: Graph<P>, ps: seq<P>, depth: nat): nat
    decreases depth, 1, |ps|
  {
    if |ps| == 0 then 0 else Unfolding(g, ps[0], depth) + UnfoldAll(g, ps[1..], depth)
  }

  /** However deep it is unfolded, no target exceeds the limit. */
  ghost predicate Bounded<P(!new)>(g: Graph<P>) {
    forall p, depth: nat :: p in g ==> Unfolding(g, p, depth) <= 10_000
  }

  /** Unfolded deep enough, the target exceeds the limit. */
  ghost predicate Exceeds<P>(g: Graph<P>, p: P) {
    p in g && exists depth: nat :: Unfolding(g, p, depth) > 10_000
  }

  /** A closed walk: each target leads to the next, and the last is the first again. */
  ghost predicate IsCycle<P>(g: Graph<P>, path: seq<P>) {
    && |path| >= 2
    && path[0] == path[|path| - 1]
    && forall i :: 0 <= i < |path| - 1 ==> path[i] in g && path[i + 1] in g[path[i]]
  }

  ghost predicate Acyclic<P(!new)>(g: Graph<P>) {
    forall path :: !IsCycle(g, path)
  }

  // ------------------------------------------------------------ recorded counts

  function Count<P>(e: map<P, nat>, p: P): nat {
    if p in e then e[p] else 1
  }

  function Total<P>(e: map<P, nat>, ps: seq<P>): nat {
    if |ps| == 0 then 0 else Count(e, ps[0]) + Total(e, ps[1..])
  }

  /** Every recorded target's successors are recorded, and its count is theirs plus one. */
  ghost predicate Recorded<P(!new)>(g: Graph<P>, e: map<P, nat>) {
    && e.Keys <= g.Keys
    && forall p :: p in e ==> Finished(g, e.Keys, p) && e[p] == 1 + Total(e, g[p])
  }

  ghost predicate Finished<P(!new)>(g: Graph<P>, done: set<P>, p: P)
    requires p in g
  {
    forall i :: 0 <= i < |g[p]| ==> g[p][i] in g ==> g[p][i] in done
  }

  /** The counts of a whole graph: what acceptance leaves behind. */
  ghost predicate IsExpansion<P(!new)>(g: Graph<P>, e: map<P, nat>) {
    Recorded(g, e) && e.Keys == g.Keys
  }

  lemma {:induction false} TotalBounds<P>(e: map<P, nat>, ps: seq<P>, i: nat)
    requires i < |ps|
    ensures Count(e, ps[i]) <= Total(e, ps)
  {
    if i > 0 {
      TotalBounds(e, ps[1..], i - 1);
    }
  }

  /** Recording a target that no one listed waits for changes no total. */
  lemma {:induction false} TotalUnchanged<P>(e: map<P, nat>, p: P, n: nat, ps: seq<P>)
    requires p !in ps
    ensures Total(e[p := n], ps) == Total(e, ps)
  {
    if |ps| > 0 {
      assert ps[0] in ps && forall x :: x in ps[1..] ==> x in ps;
      TotalUnchanged(e, p, n, ps[1..]);
    }
  }

  lemma RecordOne<P(!new)>(g: Graph<P>, e: map<P, nat>, p: P)
    requires Recorded(g, e) && p in g && p !in e && Finished(g, e.Keys, p)
    ensures Recorded(g, e[p := 1 + Total(e, g[p])])
  {
    var n := 1 + Total(e, g[p]);
    forall q | q in e[p := n]
      ensures Finished(g, e[p := n].Keys, q) && e[p := n][q] == 1 + Total(e[p := n], g[q])
    {
      assert p !in g[q];
      TotalUnchanged(e, p, n, g[q]);
    }
  }

  /** A recorded count is the size of the full unfolding. */
  lemma {:induction false} RecordedIsUnfolding<P(!new)>(g: Graph<P>, e: map<P, nat>, p: P, depth: nat)
    requires Recorded(g, e) && (p in g ==> p in e)
    ensures Unfolding(g, p, depth) <= Count(e, p)
    ensures depth >= Count(e, p) ==> Unfolding(g, p, depth) == Count(e, p)
    decreases depth, 0
  {
    if depth > 0 && p in g {
      TotalIsUnfolding(g, e, g[p], depth - 1);
    }
  }

  lemma {:induction false} TotalIsUnfolding<P(!new)>(g: Graph<P>, e: map<P, nat>, ps: seq<P>, depth: nat)
    requires Recorded(g, e)
    requires forall i :: 0 <= i < |ps| ==> ps[i] in g ==> ps[i] in e
    ensures UnfoldAll(g, ps, depth) <= Total(e, ps)
    ensures depth >= Total(e, ps) ==> UnfoldAll(g, ps, depth) == Total(e, ps)
    decreases depth, 1, |ps|
  {
    if |ps| > 0 {
      RecordedIsUnfolding(g, e, ps[0], depth);
      TotalIsUnfolding(g, e, ps[1..], depth);
    }
  }

  lemma {:induction false} UnfoldAllBounds<P>(g: Graph<P>, ps: seq<P>, depth: nat, i: nat)
    requires i < |ps|
    ensures Unfolding(g, ps[i], depth) <= UnfoldAll(g, ps, depth)
    decreases |ps|
  {
    if i > 0 {
      UnfoldAllBounds(g, ps[1..], depth, i - 1);
    }
  }

  /** A target on a cycle unfolds without end. */
  lemma {:induction false} CycleUnfoldsForever<P>(g: Graph<P>, path: seq<P>, at: nat, depth: nat)
    requires IsCycle(g, path) && at < |path|
    ensures Unfolding(g, path[at], depth) >= depth
    decreases depth
  {
    if depth > 0 {
      var here := if at == |path| - 1 then 0 else at;
      var i :| 0 <= i < |g[path[here]]| && g[path[here]][i] == path[here + 1];
      CycleUnfoldsForever(g, path, here + 1, depth - 1);
      UnfoldAllBounds(g, g[path[here]], depth - 1, i);
    }
  }

  lemma CycleIsUnbounded<P(!new)>(g: Graph<P>, path: seq<P>)
    requires IsCycle(g, path)
    ensures !Bounded(g) && !Acyclic(g)
  {
    CycleUnfoldsForever(g, path, 0, MAX_COMPOSITION_EXPANSION + 1);
    assert path[0] in g && Unfolding(g, path[0], MAX_COMPOSITION_EXPANSION + 1) > MAX_COMPOSITION_EXPANSION;
  }

  lemma ExpansionIsBounded<P(!new)>(g: Graph<P>, e: map<P, nat>)
    requires IsExpansion(g, e) && forall p :: p in e ==> e[p] <= MAX_COMPOSITION_EXPANSION
    ensures Bounded(g) && Acyclic(g)
  {
    forall p, depth: nat | p in g
      ensures Unfolding(g, p, depth) <= 10_000
    {
      RecordedIsUnfolding(g, e, p, depth);
    }
    forall path | IsCycle(g, path)
      ensures false
    {
      CycleIsUnbounded(g, path);
    }
  }

  lemma TotalExceeds<P(!new)>(g: Graph<P>, e: map<P, nat>, p: P)
    requires Recorded(g, e) && p in g && Finished(g, e.Keys, p)
    requires 1 + Total(e, g[p]) > MAX_COMPOSITION_EXPANSION
    ensures !Bounded(g) && Exceeds(g, p)
  {
    var depth := 1 + Total(e, g[p]);
    TotalIsUnfolding(g, e, g[p], depth - 1);
    assert Unfolding(g, p, depth) == depth;
  }

  /** There is one way to count: two recorded expansions of a graph are equal. */
  lemma ExpansionUnique<P(!new)>(g: Graph<P>, e: map<P, nat>, e': map<P, nat>)
    requires IsExpansion(g, e) && IsExpansion(g, e')
    ensures e == e'
  {
    forall p | p in g
      ensures e[p] == e'[p]
    {
      RecordedIsUnfolding(g, e, p, e[p] + e'[p]);
      RecordedIsUnfolding(g, e', p, e[p] + e'[p]);
    }
  }

  /** Each step along the graph lowers the count: this is what makes following refs end. */
  lemma ExpansionDecreases<P(!new)>(g: Graph<P>, e: map<P, nat>, p: P, q: P)
    requires IsExpansion(g, e) && p in g && q in g[p] && q in g
    ensures e[q] < e[p]
  {
    var i :| 0 <= i < |g[p]| && g[p][i] == q;
    TotalBounds(e, g[p], i);
  }

  // ------------------------------------------------------------ the search

  datatype Outcome<P> =
    | Accepted(expansion: map<P, nat>)
    | RefCycle(path: seq<P>)
    | TooLarge(target: P)

  /** What the search holds between steps: the trail is a path, and everything a trail
      target has already looked at is done, except the step now being taken. */
  ghost predicate OnTheWay<P(!new)>(g: Graph<P>, done: set<P>, trail: seq<P>, pending: seq<nat>) {
    && |pending| == |trail|
    && (forall i :: 0 <= i < |trail| ==> trail[i] in g && trail[i] !in done && pending[i] <= |g[trail[i]]|)
    && (forall i, j :: 0 <= i < j < |trail| ==> trail[i] != trail[j])
    && (forall i :: 0 <= i < |trail| - 1 ==> trail[i + 1] in g[trail[i]])
    && (forall i, k :: 0 <= i < |trail| && 0 <= k < pending[i] ==>
          g[trail[i]][k] in g ==> g[trail[i]][k] in done || (i + 1 < |trail| && g[trail[i]][k] == trail[i + 1]))
  }

  lemma NothingRecorded<P(!new)>(g: Graph<P>)
    ensures Recorded(g, map[])
  {
  }

  lemma Started<P(!new)>(g: Graph<P>, done: set<P>, start: P)
    requires start in g && start !in done
    ensures OnTheWay(g, done, [start], [0])
  {
  }

  lemma Pushed<P(!new)>(g: Graph<P>, done: set<P>, trail: seq<P>, pending: seq<nat>, next: P)
    requires |trail| > 0 && OnTheWay(g, done, trail, pending)
    requires pending[|trail| - 1] < |g[trail[|trail| - 1]]| && next == g[trail[|trail| - 1]][pending[|trail| - 1]]
    requires next in g && next !in done && next !in trail
    ensures OnTheWay(g, done, trail + [next], pending[|trail| - 1 := pending[|trail| - 1] + 1] + [0])
  {
  }

  lemma Popped<P(!new)>(g: Graph<P>, done: set<P>, trail: seq<P>, pending: seq<nat>)
    requires |trail| > 0 && OnTheWay(g, done, trail, pending)
    requires pending[|trail| - 1] == |g[trail[|trail| - 1]]|
    ensures Finished(g, done, trail[|trail| - 1])
    ensures OnTheWay(g, done + {trail[|trail| - 1]}, trail[..|trail| - 1], pending[..|trail| - 1])
  {
  }

  lemma Advanced<P(!new)>(g: Graph<P>, done: set<P>, trail: seq<P>, pending: seq<nat>)
    requires |trail| > 0 && OnTheWay(g, done, trail, pending)
    requires pending[|trail| - 1] < |g[trail[|trail| - 1]]|
    requires var next := g[trail[|trail| - 1]][pending[|trail| - 1]]; next in done || next !in g
    ensures OnTheWay(g, done, trail, pending[|trail| - 1 := pending[|trail| - 1] + 1])
  {
  }

  lemma ClosesTrail<P(!new)>(g: Graph<P>, done: set<P>, trail: seq<P>, pending: seq<nat>, k: nat)
    requires k < |trail| && OnTheWay(g, done, trail, pending)
    requires pending[|trail| - 1] < |g[trail[|trail| - 1]]|
    requires g[trail[|trail| - 1]][pending[|trail| - 1]] == trail[k]
    ensures IsCycle(g, trail[k..] + [trail[k]])
  {
  }

  lemma OnTop<P(!new)>(g: Graph<P>, done: set<P>, trail: seq<P>, pending: seq<nat>)
    requires |trail| > 0 && OnTheWay(g, done, trail, pending)
    ensures |pending| == |trail|
    ensures var top := |trail| - 1;
            && trail[top] in g && trail[top] !in done && pending[top] <= |g[trail[top]]|
            && trail == trail[..top] + [trail[top]] && trail[top] !in trail[..top]
  {
  }

  function Unseen<P>(g: Graph<P>, trail: seq<P>, pending: seq<nat>): int {
    if |trail| > 0 && |pending| == |trail| && trail[|trail| - 1] in g
    then |g[trail[|trail| - 1]]| - pending[|trail| - 1] else 0
  }

  /** Accepts exactly the acyclic graphs in which nothing unfolds past the limit. */
  method CheckCycles<P(==, !new)>(g: Graph<P>) returns (r: Outcome<P>)
    ensures r.Accepted? <==> Bounded(g)
    ensures r.Accepted? <==> Acyclic(g) && Bounded(g)
    ensures r.Accepted? ==> IsExpansion(g, r.expansion)
    ensures r.RefCycle? ==> IsCycle(g, r.path)
    ensures r.TooLarge? ==> Exceeds(g, r.target)
  {
    hide OnTheWay, Recorded, Finished, Total, Unfolding, Bounded, Acyclic, IsCycle, Exceeds;
    var expansion: map<P, nat> := map[];
    NothingRecorded(g);
    var done: set<P> := {};
    var starts := g.Keys;
    while starts != {}
      invariant done == expansion.Keys <= g.Keys && Recorded(g, expansion)
      invariant forall p :: p in expansion ==> expansion[p] <= MAX_COMPOSITION_EXPANSION
      invariant starts <= g.Keys && g.Keys <= starts + done
    {
      var start :| start in starts;
      starts := starts - {start};
      if start in done { continue; }
      var trail: seq<P> := [start];
      var onTrail := {start};
      var pending: seq<nat> := [0];
      Started(g, done, start);
      while |pending| > 0
        invariant done == expansion.Keys <= g.Keys && Recorded(g, expansion)
        invariant forall p :: p in expansion ==> expansion[p] <= MAX_COMPOSITION_EXPANSION
        invariant OnTheWay(g, done, trail, pending)
        invariant forall p :: p in onTrail <==> p in trail
        invariant start in done || (|trail| > 0 && trail[0] == start)
        invariant g.Keys <= starts + {start} + done
        invariant |trail| == |pending|
        decreases g.Keys - done - onTrail, |trail|, Unseen(g, trail, pending)
      {
        OnTop(g, done, trail, pending);
        var top := |trail| - 1;
        var here := trail[top];
        if pending[top] == |g[here]| {
          Popped(g, done, trail, pending);
          trail, pending := trail[..top], pending[..top];
          var total := 1 + Total(expansion, g[here]);
          if total > MAX_COMPOSITION_EXPANSION {
            TotalExceeds(g, expansion, here);
            return TooLarge(here);
          }
          RecordOne(g, expansion, here);
          expansion := expansion[here := total];
          done := done + {here};
          onTrail := onTrail - {here};
          continue;
        }
        var successor := g[here][pending[top]];
        if successor in onTrail {
          var k :| 0 <= k < |trail| && trail[k] == successor;
          ClosesTrail(g, done, trail, pending, k);
          r := RefCycle(trail[k..] + [successor]);
          CycleIsUnbounded(g, r.path);
          return;
        }
        if successor in done || successor !in g {
          Advanced(g, done, trail, pending);
          pending := pending[top := pending[top] + 1];
          continue;
        }
        Pushed(g, done, trail, pending, successor);
        pending := pending[top := pending[top] + 1] + [0];
        trail := trail + [successor];
        onTrail := onTrail + {successor};
      }
    }
    ExpansionIsBounded(g, expansion);
    return Accepted(expansion);
  }
}
