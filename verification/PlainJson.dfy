/** `_check_plain_json`: an explicit-stack, memoised walk over an object graph that may share
    and even contain itself, measured against the tree the graph unfolds to. */
module PlainJson {
  import opened JsonValues

  const MAX_NODES: nat := 2_000_000
  const MAX_DEPTH: nat := 128

  /** What a parser can put in a scalar position. */
  datatype Scalar = NoneValue | Text | Integer | Boolean | Float(finite: bool) | Foreign

  predicate IsPlain(s: Scalar) {
    match s
    case Float(finite) => finite
    case Foreign => false
    case _ => true
  }

  /** Containers are known by identity, so one can stand in many places. */
  datatype Value = Leaf(scalar: Scalar) | Container(id: nat)

  /** The values directly inside each container. */
  type Heap = map<nat, seq<Value>>

  ghost predicate WellFormed(heap: Heap) {
    forall id, i :: id in heap && 0 <= i < |heap[id]| && heap[id][i].Container? ==> heap[id][i].id in heap
  }

  // ------------------------------------------------------------ the tree a graph unfolds to

  /** A finite value: what the document is once every use of a shared object is a copy. */
  datatype Tree = Tip(scalar: Scalar) | Node(children: seq<Tree>)

  ghost predicate IsUnfolding(heap: Heap, v: Value, t: Tree)
    decreases t
  {
    match (v, t)
    case (Leaf(s), Tip(s')) => s == s'
    case (Container(id), Node(ts)) =>
      id in heap && |ts| == |heap[id]| && forall i :: 0 <= i < |ts| ==> IsUnfolding(heap, heap[id][i], ts[i])
    case _ => false
  }

  /** Every use of a value counts. */
  function Size(t: Tree): nat
    decreases t, 1
  {
    match t
    case Tip(_) => 1
    case Node(ts) => 1 + SizeAll(t, ts)
  }

  function SizeAll(t: Tree, ts: seq<Tree>): nat
    requires forall i :: 0 <= i < |ts| ==> ts[i] < t
    decreases t, 0, |ts|
  {
    if |ts| == 0 then 0
    else SizeAll(t, ts[..|ts| - 1]) + Size(ts[|ts| - 1])
  }

  /** How many levels of containers stand below the top one; -1 for a scalar. */
  function Height(t: Tree): int
    decreases t, 1
  {
    match t
    case Tip(_) => -1
    case Node(ts) => HeightAll(t, ts)
  }

  function HeightAll(t: Tree, ts: seq<Tree>): (r: int)
    requires forall i :: 0 <= i < |ts| ==> ts[i] < t
    ensures r >= 0
    decreases t, 0, |ts|
  {
    if |ts| == 0 then 0
    else Max(HeightAll(t, ts[..|ts| - 1]), Height(ts[|ts| - 1]) + 1)
  }

  function Max(x: int, y: int): int {
    if x < y then y else x
  }

  predicate AllPlain(t: Tree) {
    match t
    case Tip(s) => IsPlain(s)
    case Node(ts) => forall i :: 0 <= i < |ts| ==> AllPlain(ts[i])
  }

  /** What the hub is willing to store. */
  ghost predicate Acceptable(t: Tree) {
    Size(t) <= 2_000_000 && Height(t) <= 128 && AllPlain(t)
  }

  // ------------------------------------------------------------ trees that JSON can hold

  /** A JSON value the tree stands for; an object's keys are of no account here. */
  ghost predicate Represents(t: Tree, v: Json)
    decreases t
  {
    match t
    case Tip(s) => ScalarIs(s, v)
    case Node(ts) => v.Arr? && |v.items| == |ts| && forall i :: 0 <= i < |ts| ==> Represents(ts[i], v.items[i])
  }

  /** A number that is not finite, and anything but these, is no JSON value. */
  predicate ScalarIs(s: Scalar, v: Json) {
    match s
    case NoneValue => v.Null?
    case Text => v.Str?
    case Boolean => v.Bool?
    case Integer => v.Num? && v.n.Floor as real == v.n
    case Float(finite) => finite && v.Num?
    case Foreign => false
  }

  ghost predicate Representable(t: Tree) {
    exists v :: Represents(t, v)
  }

  ghost function ValueOf(t: Tree): (v: Json)
    requires Representable(t)
    ensures Represents(t, v)
  {
    var v :| Represents(t, v);
    v
  }

  /** All scalars are plain exactly when JSON can hold the whole tree. */
  lemma {:induction false} PlainIff(t: Tree)
    ensures AllPlain(t) <==> Representable(t)
    decreases t
  {
    match t
    case Tip(s) => PlainScalarIff(s);
    case Node(ts) =>
      forall i | 0 <= i < |ts|
        ensures AllPlain(ts[i]) <==> Representable(ts[i])
      {
        PlainIff(ts[i]);
      }
      if AllPlain(t) {
        var vs := seq(|ts|, i requires 0 <= i < |ts| => ValueOf(ts[i]));
        assert Represents(t, Arr(vs));
      }
      if Representable(t) {
        var v := ValueOf(t);
        assert forall i :: 0 <= i < |ts| ==> Represents(ts[i], v.items[i]);
      }
  }

  lemma PlainScalarIff(s: Scalar)
    ensures IsPlain(s) <==> Representable(Tip(s))
  {
    var v := match s case NoneValue => Null case Text => Str("") case Boolean => Bool(true) case _ => Num(0.0);
    assert (0.0).Floor as real == 0.0;
    if IsPlain(s) {
      assert Represents(Tip(s), v);
    }
  }

  /** A graph unfolds to at most one tree. */
  lemma {:induction false} UnfoldingUnique(heap: Heap, v: Value, t: Tree, u: Tree)
    requires IsUnfolding(heap, v, t) && IsUnfolding(heap, v, u)
    ensures t == u
    decreases t
  {
    if v.Container? {
      forall i | 0 <= i < |t.children|
        ensures t.children[i] == u.children[i]
      {
        UnfoldingUnique(heap, heap[v.id][i], t.children[i], u.children[i]);
      }
      assert t.children == u.children;
    }
  }

  ghost predicate HasTree(heap: Heap, v: Value) {
    exists t :: IsUnfolding(heap, v, t)
  }

  ghost function TreeOf(heap: Heap, v: Value): (t: Tree)
    requires HasTree(heap, v)
    ensures IsUnfolding(heap, v, t)
  {
    var t :| IsUnfolding(heap, v, t);
    t
  }

  // ------------------------------------------------------------ unfolding and cycles

  /** Each container of the path is directly inside the one before it. */
  ghost predicate IsPath(heap: Heap, path: seq<nat>) {
    && (forall i :: 0 <= i < |path| ==> path[i] in heap)
    && (forall i :: 0 <= i < |path| - 1 ==> Container(path[i + 1]) in heap[path[i]])
  }

  ghost predicate Distinct(path: seq<nat>) {
    forall i, j :: 0 <= i < j < |path| ==> path[i] != path[j]
  }

  ghost function Visited(path: seq<nat>): set<nat> {
    set x | x in path
  }

  /** No container below `root` contains itself. */
  ghost predicate Acyclic(heap: Heap, root: nat) {
    forall path :: IsPath(heap, path) && |path| > 0 && path[0] == root ==> Distinct(path)
  }

  lemma {:induction false} CyclicHasNoTree(heap: Heap, path: seq<nat>, at: nat, t: Tree)
    requires IsPath(heap, path) && |path| >= 2 && path[0] == path[|path| - 1] && at < |path|
    ensures !IsUnfolding(heap, Container(path[at]), t)
    decreases t
  {
    if IsUnfolding(heap, Container(path[at]), t) {
      var here := if at == |path| - 1 then 0 else at;
      assert Container(path[here + 1]) in heap[path[here]];
      var i :| 0 <= i < |heap[path[here]]| && heap[path[here]][i] == Container(path[here + 1]);
      CyclicHasNoTree(heap, path, here + 1, t.children[i]);
    }
  }

  lemma {:induction false} PathHasTrees(heap: Heap, path: seq<nat>, at: nat)
    requires IsPath(heap, path) && at < |path| && HasTree(heap, Container(path[0]))
    ensures HasTree(heap, Container(path[at]))
  {
    if at > 0 {
      PathHasTrees(heap, path, at - 1);
      var t := TreeOf(heap, Container(path[at - 1]));
      var i :| 0 <= i < |heap[path[at - 1]]| && heap[path[at - 1]][i] == Container(path[at]);
      assert IsUnfolding(heap, Container(path[at]), t.children[i]);
    }
  }

  lemma {:induction false} AcyclicHasTree(heap: Heap, root: nat, path: seq<nat>)
    requires WellFormed(heap) && Acyclic(heap, root)
    requires IsPath(heap, path) && |path| > 0 && path[0] == root
    ensures HasTree(heap, Container(path[|path| - 1]))
    decreases heap.Keys - Visited(path)
  {
    var id := path[|path| - 1];
    forall k | 0 <= k < |heap[id]|
      ensures HasTree(heap, heap[id][k])
    {
      match heap[id][k]
      case Leaf(s) => assert IsUnfolding(heap, Leaf(s), Tip(s));
      case Container(c) =>
        var longer := path + [c];
        assert forall i :: 0 <= i < |longer| - 1 ==> longer[i] == path[i];
        assert IsPath(heap, longer) && longer[0] == root && longer[|path|] == c;
        assert Distinct(longer);
        assert forall i :: 0 <= i < |path| ==> longer[i] != longer[|path|];
        assert Visited(longer) == Visited(path) + {c} && c !in path && c in heap;
        AcyclicHasTree(heap, root, longer);
    }
    var ts := seq(|heap[id]|, k requires 0 <= k < |heap[id]| => TreeOf(heap, heap[id][k]));
    assert IsUnfolding(heap, Container(id), Node(ts));
  }

  /** A graph unfolds to a finite tree exactly when nothing in it contains itself. */
  lemma UnfoldsIffAcyclic(heap: Heap, root: nat)
    requires WellFormed(heap) && root in heap
    ensures HasTree(heap, Container(root)) <==> Acyclic(heap, root)
  {
    if HasTree(heap, Container(root)) {
      forall path | IsPath(heap, path) && |path| > 0 && path[0] == root
        ensures Distinct(path)
      {
        forall i, j | 0 <= i < j < |path|
          ensures path[i] != path[j]
        {
          if path[i] == path[j] {
            PathHasTrees(heap, path, i);
            CyclicHasNoTree(heap, path[i..j + 1], 0, TreeOf(heap, Container(path[i])));
          }
        }
      }
    }
    if Acyclic(heap, root) {
      AcyclicHasTree(heap, root, [root]);
    }
  }

  // ------------------------------------------------------------ parts of a tree

  lemma {:induction false} SizeAllBounds(t: Tree, ts: seq<Tree>, i: nat)
    requires (forall j :: 0 <= j < |ts| ==> ts[j] < t) && i < |ts|
    ensures Size(ts[i]) <= SizeAll(t, ts)
    decreases |ts|
  {
    if i < |ts| - 1 {
      SizeAllBounds(t, ts[..|ts| - 1], i);
    }
  }

  lemma {:induction false} HeightAllBounds(t: Tree, ts: seq<Tree>, i: nat)
    requires (forall j :: 0 <= j < |ts| ==> ts[j] < t) && i < |ts|
    ensures Height(ts[i]) + 1 <= HeightAll(t, ts)
    decreases |ts|
  {
    if i < |ts| - 1 {
      HeightAllBounds(t, ts[..|ts| - 1], i);
    }
  }

  lemma PartOf(t: Tree, i: nat)
    requires t.Node? && i < |t.children|
    ensures Size(t.children[i]) <= Size(t) && Height(t.children[i]) + 1 <= Height(t)
    ensures AllPlain(t) ==> AllPlain(t.children[i])
  {
    SizeAllBounds(t, t.children, i);
    HeightAllBounds(t, t.children, i);
  }

  /** If the document unfolds at all, `v` is part of that tree, `depth` levels down. */
  ghost predicate Below(heap: Heap, root: Value, v: Value, depth: nat) {
    HasTree(heap, root) ==>
      && HasTree(heap, v)
      && Size(TreeOf(heap, v)) <= Size(TreeOf(heap, root))
      && depth + Height(TreeOf(heap, v)) <= Height(TreeOf(heap, root))
      && (AllPlain(TreeOf(heap, root)) ==> AllPlain(TreeOf(heap, v)))
  }

  lemma ChildBelow(heap: Heap, root: Value, id: nat, depth: nat, i: nat)
    requires Below(heap, root, Container(id), depth) && id in heap && i < |heap[id]|
    ensures Below(heap, root, heap[id][i], depth + 1)
  {
    if HasTree(heap, root) {
      var t := TreeOf(heap, Container(id));
      var child := heap[id][i];
      assert IsUnfolding(heap, child, t.children[i]);
      UnfoldingUnique(heap, child, t.children[i], TreeOf(heap, child));
      PartOf(t, i);
    }
  }

  // ------------------------------------------------------------ what is recorded

  datatype Measure = Measure(size: nat, height: int)

  ghost predicate Sized(heap: Heap, expanded: map<nat, Measure>) {
    forall id :: id in expanded ==>
      && HasTree(heap, Container(id))
      && Acceptable(TreeOf(heap, Container(id)))
      && expanded[id] == Measure(Size(TreeOf(heap, Container(id))), Height(TreeOf(heap, Container(id))))
  }

  /** A child that needs no more looking at. */
  predicate Ready(expanded: map<nat, Measure>, v: Value) {
    match v
    case Leaf(s) => IsPlain(s)
    case Container(id) => id in expanded
  }

  lemma ReadyHasTree(heap: Heap, expanded: map<nat, Measure>, v: Value)
    requires Sized(heap, expanded) && Ready(expanded, v)
    ensures HasTree(heap, v) && AllPlain(TreeOf(heap, v))
    ensures v.Leaf? ==> Size(TreeOf(heap, v)) == 1 && Height(TreeOf(heap, v)) == -1
    ensures v.Container? ==> expanded[v.id] == Measure(Size(TreeOf(heap, v)), Height(TreeOf(heap, v)))
  {
    if v.Leaf? {
      assert IsUnfolding(heap, v, Tip(v.scalar));
      UnfoldingUnique(heap, v, Tip(v.scalar), TreeOf(heap, v));
    }
  }

  function ChildMeasure(expanded: map<nat, Measure>, v: Value): Measure
    requires Ready(expanded, v)
  {
    match v
    case Leaf(_) => Measure(1, -1)
    case Container(id) => expanded[id]
  }

  function MeasureAll(expanded: map<nat, Measure>, vs: seq<Value>): Measure
    requires forall i :: 0 <= i < |vs| ==> Ready(expanded, vs[i])
  {
    if |vs| == 0 then Measure(1, 0)
    else
      var before := MeasureAll(expanded, vs[..|vs| - 1]);
      var last := ChildMeasure(expanded, vs[|vs| - 1]);
      Measure(before.size + last.size, Max(before.height, last.height + 1))
  }

  ghost function TreesOf(heap: Heap, expanded: map<nat, Measure>, vs: seq<Value>): (ts: seq<Tree>)
    requires Sized(heap, expanded) && forall i :: 0 <= i < |vs| ==> Ready(expanded, vs[i])
    ensures |ts| == |vs|
    ensures forall i :: 0 <= i < |vs| ==> HasTree(heap, vs[i]) && ts[i] == TreeOf(heap, vs[i])
  {
    assert forall i :: 0 <= i < |vs| ==> HasTree(heap, vs[i]) by {
      forall i | 0 <= i < |vs| ensures HasTree(heap, vs[i]) { ReadyHasTree(heap, expanded, vs[i]); }
    }
    seq(|vs|, i requires 0 <= i < |vs| => TreeOf(heap, vs[i]))
  }

  lemma {:induction false} MeasureIsTree(heap: Heap, expanded: map<nat, Measure>, vs: seq<Value>, t: Tree)
    requires Sized(heap, expanded) && forall i :: 0 <= i < |vs| ==> Ready(expanded, vs[i])
    requires forall i :: 0 <= i < |vs| ==> TreesOf(heap, expanded, vs)[i] < t
    ensures MeasureAll(expanded, vs) ==
            Measure(1 + SizeAll(t, TreesOf(heap, expanded, vs)), HeightAll(t, TreesOf(heap, expanded, vs)))
    decreases |vs|
  {
    hide TreeOf, Sized;
    if |vs| > 0 {
      var last := |vs| - 1;
      var ts := TreesOf(heap, expanded, vs);
      assert ts[..last] == TreesOf(heap, expanded, vs[..last]);
      MeasureIsTree(heap, expanded, vs[..last], t);
      ReadyHasTree(heap, expanded, vs[last]);
    }
  }

  /** Once every child is ready, the container unfolds, and the measure taken is its tree's. */
  lemma ContainerHasTree(heap: Heap, expanded: map<nat, Measure>, id: nat)
    requires Sized(heap, expanded) && id in heap && forall i :: 0 <= i < |heap[id]| ==> Ready(expanded, heap[id][i])
    ensures HasTree(heap, Container(id)) && AllPlain(TreeOf(heap, Container(id)))
    ensures MeasureAll(expanded, heap[id]) ==
            Measure(Size(TreeOf(heap, Container(id))), Height(TreeOf(heap, Container(id))))
  {
    hide Sized;
    var ts := TreesOf(heap, expanded, heap[id]);
    var t := Node(ts);
    assert IsUnfolding(heap, Container(id), t);
    UnfoldingUnique(heap, Container(id), t, TreeOf(heap, Container(id)));
    MeasureIsTree(heap, expanded, heap[id], t);
    forall i | 0 <= i < |ts| ensures AllPlain(ts[i]) {
      ReadyHasTree(heap, expanded, heap[id][i]);
    }
  }

  // ------------------------------------------------------------ the walk ends

  /** The steps a value can still cost: bounded by depth alone, so also on a cyclic graph. */
  ghost function Work(heap: Heap, v: Value, depth: nat): nat
    decreases MAX_DEPTH + 2 - depth, 0
  {
    if v.Leaf? || v.id !in heap || depth > MAX_DEPTH then 1
    else 2 + WorkAll(heap, heap[v.id], depth + 1)
  }

  ghost function WorkAll(heap: Heap, vs: seq<Value>, depth: nat): nat
    requires depth <= MAX_DEPTH + 1
    decreases MAX_DEPTH + 2 - depth, 1, |vs|
  {
    if |vs| == 0 then 0 else WorkAll(heap, vs[..|vs| - 1], depth) + Work(heap, vs[|vs| - 1], depth)
  }

  datatype Entry = Entry(value: Value, depth: nat, childrenDone: bool)

  ghost function StackWork(heap: Heap, stack: seq<Entry>): nat {
    if |stack| == 0 then 0
    else StackWork(heap, stack[..|stack| - 1]) +
         (var top := stack[|stack| - 1]; if top.childrenDone then 1 else Work(heap, top.value, top.depth))
  }

  function Fresh(vs: seq<Value>, depth: nat): (r: seq<Entry>)
    ensures |r| == |vs| && forall i :: 0 <= i < |vs| ==> r[i] == Entry(vs[i], depth, false)
  {
    seq(|vs|, i requires 0 <= i < |vs| => Entry(vs[i], depth, false))
  }

  lemma {:induction false} StackWorkFresh(heap: Heap, stack: seq<Entry>, vs: seq<Value>, depth: nat)
    requires depth <= MAX_DEPTH + 1
    ensures StackWork(heap, stack + Fresh(vs, depth)) == StackWork(heap, stack) + WorkAll(heap, vs, depth)
    decreases |vs|
  {
    if |vs| == 0 {
      assert stack + Fresh(vs, depth) == stack;
    } else {
      var all := stack + Fresh(vs, depth);
      assert all[..|all| - 1] == stack + Fresh(vs[..|vs| - 1], depth);
      StackWorkFresh(heap, stack, vs[..|vs| - 1], depth);
    }
  }

  // ------------------------------------------------------------ what the stack keeps

  /** Every entry is part of the document, and what an entry awaiting its children still
      lacks stands above it on the stack. */
  ghost predicate StackOk(heap: Heap, root: Value, expanded: map<nat, Measure>, stack: seq<Entry>) {
    && (forall i :: 0 <= i < |stack| ==>
          && Below(heap, root, stack[i].value, stack[i].depth)
          && (stack[i].value.Container? ==> stack[i].value.id in heap)
          && (stack[i].childrenDone ==> stack[i].value.Container? && stack[i].depth <= MAX_DEPTH))
    && (forall i :: 0 <= i < |stack| && stack[i].childrenDone ==> Awaited(heap, expanded, stack, i))
  }

  ghost predicate Awaited(heap: Heap, expanded: map<nat, Measure>, stack: seq<Entry>, i: nat)
    requires i < |stack| && stack[i].value.Container? && stack[i].value.id in heap
  {
    var vs := heap[stack[i].value.id];
    forall k :: 0 <= k < |vs| ==> Ready(expanded, vs[k]) || OnStack(stack, i + 1, vs[k])
  }

  ghost predicate OnStack(stack: seq<Entry>, from: nat, v: Value) {
    exists j :: from <= j < |stack| && stack[j].value == v
  }

  /** Dropping the top entry is safe once its value is ready. */
  lemma Dropped(heap: Heap, root: Value, expanded: map<nat, Measure>, stack: seq<Entry>)
    requires |stack| > 0 && StackOk(heap, root, expanded, stack) && Ready(expanded, stack[|stack| - 1].value)
    ensures StackOk(heap, root, expanded, stack[..|stack| - 1])
  {
    hide Below, Ready;
    var rest := stack[..|stack| - 1];
    forall i | 0 <= i < |rest| && rest[i].childrenDone
      ensures Awaited(heap, expanded, rest, i)
    {
      var vs := heap[rest[i].value.id];
      forall k | 0 <= k < |vs|
        ensures Ready(expanded, vs[k]) || OnStack(rest, i + 1, vs[k])
      {
        assert Awaited(heap, expanded, stack, i);
        if !Ready(expanded, vs[k]) {
          var j :| i + 1 <= j < |stack| && stack[j].value == vs[k];
          assert rest[j].value == vs[k];
        }
      }
    }
  }

  lemma Recorded(heap: Heap, root: Value, expanded: map<nat, Measure>, stack: seq<Entry>, id: nat, m: Measure)
    requires StackOk(heap, root, expanded, stack) && id !in expanded
    ensures StackOk(heap, root, expanded[id := m], stack)
  {
    hide Below;
    forall i | 0 <= i < |stack| && stack[i].childrenDone
      ensures Awaited(heap, expanded[id := m], stack, i)
    {
      assert Awaited(heap, expanded, stack, i);
    }
  }

  /** Replacing the top entry by its second visit and all its children. */
  lemma Opened(heap: Heap, root: Value, expanded: map<nat, Measure>, stack: seq<Entry>)
    requires WellFormed(heap) && |stack| > 0 && StackOk(heap, root, expanded, stack)
    requires var top := stack[|stack| - 1]; top.value.Container? && top.depth <= MAX_DEPTH
    ensures var top := stack[|stack| - 1];
            StackOk(heap, root, expanded,
                    stack[..|stack| - 1] + [top.(childrenDone := true)] + Fresh(heap[top.value.id], top.depth + 1))
  {
    hide Below, Ready, Awaited;
    var top, rest := stack[|stack| - 1], stack[..|stack| - 1];
    var id := top.value.id;
    var kids := Fresh(heap[id], top.depth + 1);
    var after := rest + [top.(childrenDone := true)] + kids;
    forall k | 0 <= k < |kids|
      ensures Below(heap, root, kids[k].value, kids[k].depth)
    {
      ChildBelow(heap, root, id, top.depth, k);
    }
    assert forall i :: 0 <= i < |rest| ==> after[i] == stack[i];
    assert after[|rest|] == top.(childrenDone := true);
    assert forall i :: |rest| + 1 <= i < |after| ==> after[i] == kids[i - |rest| - 1];
    forall i | 0 <= i < |after| && after[i].childrenDone
      ensures Awaited(heap, expanded, after, i)
    {
      if i < |rest| {
        StillAwaited(heap, expanded, stack, after, i);
      } else {
        JustOpened(heap, expanded, rest, top.(childrenDone := true), kids);
      }
    }
  }

  lemma StillAwaited(heap: Heap, expanded: map<nat, Measure>, stack: seq<Entry>, after: seq<Entry>, i: nat)
    requires i < |stack| <= |after| && forall j :: 0 <= j < |stack| ==> after[j].value == stack[j].value
    requires stack[i].value.Container? && stack[i].value.id in heap && Awaited(heap, expanded, stack, i)
    ensures Awaited(heap, expanded, after, i)
  {
    hide Ready;
    var vs := heap[stack[i].value.id];
    forall k | 0 <= k < |vs|
      ensures Ready(expanded, vs[k]) || OnStack(after, i + 1, vs[k])
    {
      if !Ready(expanded, vs[k]) {
        var j :| i + 1 <= j < |stack| && stack[j].value == vs[k];
        assert after[j].value == vs[k];
      }
    }
  }

  lemma JustOpened(heap: Heap, expanded: map<nat, Measure>, rest: seq<Entry>, top: Entry, kids: seq<Entry>)
    requires top.value.Container? && top.value.id in heap && kids == Fresh(heap[top.value.id], top.depth + 1)
    ensures Awaited(heap, expanded, rest + [top] + kids, |rest|)
  {
    hide Ready;
    var after, vs := rest + [top] + kids, heap[top.value.id];
    forall k | 0 <= k < |vs|
      ensures OnStack(after, |rest| + 1, vs[k])
    {
      assert after[|rest| + 1 + k].value == vs[k];
    }
  }

  // ------------------------------------------------------------ the walk

  datatype Verdict = Accepted(measure: Measure) | NotJson | TooDeep | TooLarge

  /** Accepts a graph exactly when it unfolds to a finite tree that is small, shallow and
      plain enough. On a cyclic graph it ends with a refusal. */
  method CheckPlainJson(heap: Heap, document: nat) returns (r: Verdict)
    requires WellFormed(heap) && document in heap
    ensures r.Accepted? <==> exists t :: IsUnfolding(heap, Container(document), t) && Acceptable(t)
    ensures r.Accepted? ==>
              HasTree(heap, Container(document)) &&
              r.measure == Measure(Size(TreeOf(heap, Container(document))), Height(TreeOf(heap, Container(document))))
  {
    hide Sized, StackOk, Below, Acceptable, IsUnfolding, HasTree, WellFormed;
    ghost var root := Container(document);
    var expanded: map<nat, Measure> := map[];
    var stack := [Entry(Container(document), 0, false)];
    Started(heap, root);
    while |stack| > 0
      invariant Sized(heap, expanded) && StackOk(heap, root, expanded, stack)
      invariant document in expanded || OnStack(stack, 0, root)
      decreases StackWork(heap, stack)
    {
      var top := stack[|stack| - 1];
      ghost var rest := stack[..|stack| - 1];
      Top(heap, root, expanded, stack);
      match top.value {
        case Leaf(s) =>
          if !IsPlain(s) {
            NotAcceptable(heap, root, top, expanded);
            return NotJson;
          }
          Dropped(heap, root, expanded, stack);
          KeepsRoot(stack, root, document in expanded);
          stack := stack[..|stack| - 1];
        case Container(id) =>
          if id in expanded {
            Dropped(heap, root, expanded, stack);
            KeepsRoot(stack, root, document in expanded);
            stack := stack[..|stack| - 1];
          } else if top.depth > MAX_DEPTH {
            NotAcceptable(heap, root, top, expanded);
            return TooDeep;
          } else if !top.childrenDone {
            Opened(heap, root, expanded, stack);
            OpenedWork(heap, stack);
            OpenedKeepsRoot(heap, stack, root);
            stack := stack[..|stack| - 1] + [top.(childrenDone := true)] + Fresh(heap[id], top.depth + 1);
          } else {
            ChildrenReady(heap, root, expanded, stack);
            var m := Total(expanded, heap[id]);
            ContainerHasTree(heap, expanded, id);
            if m.size > MAX_NODES {
              NotAcceptable(heap, root, top, expanded);
              return TooLarge;
            }
            if top.depth + m.height > MAX_DEPTH {
              NotAcceptable(heap, root, top, expanded);
              return TooDeep;
            }
            RecordedSized(heap, expanded, id, m);
            Recorded(heap, root, expanded, stack, id, m);
            expanded := expanded[id := m];
            Dropped(heap, root, expanded, stack);
            KeepsRoot(stack, root, document in expanded);
            stack := stack[..|stack| - 1];
          }
      }
    }
    RootAccepted(heap, expanded, document);
    r := Accepted(expanded[document]);
  }

  /** The loop over a container's children. */
  method Total(expanded: map<nat, Measure>, vs: seq<Value>) returns (m: Measure)
    requires forall i :: 0 <= i < |vs| ==> Ready(expanded, vs[i])
    ensures m == MeasureAll(expanded, vs)
  {
    var size: nat, height := 1, 0;
    for i := 0 to |vs|
      invariant Measure(size, height) == MeasureAll(expanded, vs[..i])
    {
      assert vs[..i + 1][..i] == vs[..i];
      var child := ChildMeasure(expanded, vs[i]);
      size := size + child.size;
      height := Max(height, child.height + 1);
    }
    assert vs[..|vs|] == vs;
    m := Measure(size, height);
  }

  lemma Started(heap: Heap, root: Value)
    requires root.Container? && root.id in heap
    ensures Sized(heap, map[]) && StackOk(heap, root, map[], [Entry(root, 0, false)])
    ensures OnStack([Entry(root, 0, false)], 0, root)
  {
    assert [Entry(root, 0, false)][0].value == root;
  }

  lemma Top(heap: Heap, root: Value, expanded: map<nat, Measure>, stack: seq<Entry>)
    requires |stack| > 0 && StackOk(heap, root, expanded, stack)
    ensures var top := stack[|stack| - 1];
            && Below(heap, root, top.value, top.depth)
            && (top.value.Container? ==> top.value.id in heap)
            && (top.childrenDone ==> top.value.Container? && top.depth <= MAX_DEPTH)
    ensures StackWork(heap, stack[..|stack| - 1]) < StackWork(heap, stack)
  {
  }

  lemma KeepsRoot(stack: seq<Entry>, root: Value, sized: bool)
    requires |stack| > 0 && (sized || OnStack(stack, 0, root))
    ensures sized || stack[|stack| - 1].value == root || OnStack(stack[..|stack| - 1], 0, root)
  {
    if !sized && stack[|stack| - 1].value != root {
      var j :| 0 <= j < |stack| && stack[j].value == root;
      assert stack[..|stack| - 1][j].value == root;
    }
  }

  lemma OpenedKeepsRoot(heap: Heap, stack: seq<Entry>, root: Value)
    requires |stack| > 0 && var top := stack[|stack| - 1]; top.value.Container? && top.value.id in heap
    ensures var top := stack[|stack| - 1];
            OnStack(stack, 0, root) ==>
              OnStack(stack[..|stack| - 1] + [top.(childrenDone := true)] + Fresh(heap[top.value.id], top.depth + 1),
                      0, root)
  {
    if OnStack(stack, 0, root) {
      var top := stack[|stack| - 1];
      var after := stack[..|stack| - 1] + [top.(childrenDone := true)] + Fresh(heap[top.value.id], top.depth + 1);
      var j :| 0 <= j < |stack| && stack[j].value == root;
      assert after[j].value == root;
    }
  }

  lemma OpenedWork(heap: Heap, stack: seq<Entry>)
    requires |stack| > 0
    requires var top := stack[|stack| - 1];
             top.value.Container? && top.value.id in heap && top.depth <= MAX_DEPTH && !top.childrenDone
    ensures var top := stack[|stack| - 1];
            StackWork(heap, stack[..|stack| - 1] + [top.(childrenDone := true)] +
                      Fresh(heap[top.value.id], top.depth + 1))
            < StackWork(heap, stack)
  {
    var top, rest := stack[|stack| - 1], stack[..|stack| - 1];
    var again := rest + [top.(childrenDone := true)];
    assert again[..|again| - 1] == rest;
    StackWorkFresh(heap, again, heap[top.value.id], top.depth + 1);
  }

  lemma ChildrenReady(heap: Heap, root: Value, expanded: map<nat, Measure>, stack: seq<Entry>)
    requires |stack| > 0 && StackOk(heap, root, expanded, stack) && stack[|stack| - 1].childrenDone
    ensures stack[|stack| - 1].value.Container? && stack[|stack| - 1].value.id in heap
    ensures var vs := heap[stack[|stack| - 1].value.id]; forall k :: 0 <= k < |vs| ==> Ready(expanded, vs[k])
  {
    hide Below;
    assert Awaited(heap, expanded, stack, |stack| - 1);
  }

  lemma RecordedSized(heap: Heap, expanded: map<nat, Measure>, id: nat, m: Measure)
    requires Sized(heap, expanded) && HasTree(heap, Container(id)) && AllPlain(TreeOf(heap, Container(id)))
    requires m == Measure(Size(TreeOf(heap, Container(id))), Height(TreeOf(heap, Container(id))))
    requires m.size <= MAX_NODES && m.height <= MAX_DEPTH
    ensures Sized(heap, expanded[id := m])
  {
  }

  lemma RootAccepted(heap: Heap, expanded: map<nat, Measure>, document: nat)
    requires Sized(heap, expanded) && document in expanded
    ensures HasTree(heap, Container(document))
    ensures exists t :: IsUnfolding(heap, Container(document), t) && Acceptable(t)
    ensures expanded[document] ==
            Measure(Size(TreeOf(heap, Container(document))), Height(TreeOf(heap, Container(document))))
  {
    var t := TreeOf(heap, Container(document));
    assert IsUnfolding(heap, Container(document), t) && Acceptable(t);
  }

  /** Each refusal is a defect every unfolding of the document would have. */
  lemma NotAcceptable(heap: Heap, root: Value, entry: Entry, expanded: map<nat, Measure>)
    requires Below(heap, root, entry.value, entry.depth)
    requires || (entry.value.Leaf? && !IsPlain(entry.value.scalar))
             || (entry.value.Container? && entry.depth > MAX_DEPTH)
             || (HasTree(heap, entry.value) &&
                 (Size(TreeOf(heap, entry.value)) > MAX_NODES
                  || entry.depth + Height(TreeOf(heap, entry.value)) > MAX_DEPTH))
    ensures !exists t :: IsUnfolding(heap, root, t) && Acceptable(t)
  {
    forall t | IsUnfolding(heap, root, t)
      ensures !Acceptable(t)
    {
      UnfoldingUnique(heap, root, t, TreeOf(heap, root));
      var part := TreeOf(heap, entry.value);
      assert entry.value.Container? ==> part.Node? && Height(part) >= 0;
      assert entry.value.Leaf? ==> part == Tip(entry.value.scalar);
    }
  }
}
