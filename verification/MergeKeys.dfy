/** YAML merge keys (`<<`): memoised flattening of a node graph that may share nodes and merge
    into itself, measured against the unmemoised meaning of the tree it unfolds to. */
module MergeKeys {
  import opened JsonValues

  const MAX_NODES: nat := 2_000_000

  // ------------------------------------------------------------ nodes

  /** One pair of a mapping node. A `<<` names sources; a key that is not a scalar is bad.
      The value of an own key is left alone, so a number stands for it. */
  datatype Pair = Own(key: string, value: nat) | Merge(sources: seq<Source>) | BadKey

  datatype Source = Mapping(id: nat) | NotMapping

  type Graph = map<nat, seq<Pair>>

  ghost predicate WellFormed(g: Graph) {
    forall id, i :: id in g && 0 <= i < |g[id]| && g[id][i].Merge? ==> Known(g, g[id][i].sources)
  }

  ghost predicate Known(g: Graph, sources: seq<Source>) {
    forall j :: 0 <= j < |sources| && sources[j].Mapping? ==> sources[j].id in g
  }

  // ------------------------------------------------------------ the tree, and what it means

  datatype Tree = Tree(pairs: seq<TreePair>)

  datatype TreePair = TOwn(key: string, value: nat) | TMerge(sources: seq<TreeSource>) | TBad

  datatype TreeSource = TMapping(tree: Tree) | TNotMapping

  ghost predicate IsUnfolding(g: Graph, id: nat, t: Tree)
    decreases t, 0
  {
    id in g && |t.pairs| == |g[id]| && forall i :: 0 <= i < |t.pairs| ==> PairUnfolds(g, g[id][i], t.pairs[i])
  }

  ghost predicate PairUnfolds(g: Graph, p: Pair, t: TreePair)
    decreases t, 0
  {
    match (p, t)
    case (Own(k, v), TOwn(k', v')) => k == k' && v == v'
    case (Merge(ss), TMerge(ts)) =>
      |ss| == |ts| && forall j :: 0 <= j < |ts| ==> SourceUnfolds(g, ss[j], ts[j])
    case (BadKey, TBad) => true
    case _ => false
  }

  ghost predicate SourceUnfolds(g: Graph, s: Source, t: TreeSource)
    decreases t, 0
  {
    match (s, t)
    case (Mapping(id), TMapping(u)) => IsUnfolding(g, id, u)
    case (NotMapping, TNotMapping) => true
    case _ => false
  }

  type Keys = map<string, nat>

  datatype Partial = Partial(merged: Keys, own: Keys)

  /** The mapping a tree stands for, with every merged mapping expanded where it is used;
      `None` when anything in it is refused. */
  function Meaning(t: Tree): Option<Keys>
    decreases t, 0
  {
    match Fold(t.pairs)
    case None => None
    case Some(p) => Some(p.merged + p.own)
  }

  function Fold(ps: seq<TreePair>): Option<Partial>
    decreases ps, 0
  {
    if |ps| == 0 then Some(Partial(map[], map[]))
    else match Fold(ps[..|ps| - 1])
      case None => None
      case Some(p) => AddPair(p, ps[|ps| - 1])
  }

  function AddPair(p: Partial, pair: TreePair): Option<Partial>
    decreases pair, 1
  {
    match pair
    case TOwn(k, v) => if k in p.own then None else Some(p.(own := p.own[k := v]))
    case TMerge(sources) =>
      (match Combined(sources)
       case None => None
       case Some(keys) => Some(p.(merged := p.merged + keys)))
    case TBad => None
  }

  /** Earlier sources win over later ones. */
  function Combined(sources: seq<TreeSource>): Option<Keys>
    decreases sources, 0
  {
    if |sources| == 0 then Some(map[])
    else match (SourceMeaning(sources[0]), Combined(sources[1..]))
      case (Some(first), Some(rest)) => Some(rest + first)
      case _ => None
  }

  function SourceMeaning(source: TreeSource): Option<Keys>
    decreases source, 0
  {
    match source
    case TMapping(t) => Meaning(t)
    case TNotMapping => None
  }

  // ------------------------------------------------------------ the same, key by key

  /** Where a key's value comes from: the mapping's own pair, else the last `<<` that has it,
      and in that one the first source that has it. */
  function Lookup(t: Tree, k: string): Option<nat>
    decreases t, 0
  {
    if OwnValue(t.pairs, k).Some? then OwnValue(t.pairs, k) else MergedValue(t.pairs, k)
  }

  function OwnValue(ps: seq<TreePair>, k: string): Option<nat> {
    if |ps| == 0 then None
    else if ps[|ps| - 1].TOwn? && ps[|ps| - 1].key == k then Some(ps[|ps| - 1].value)
    else OwnValue(ps[..|ps| - 1], k)
  }

  function MergedValue(ps: seq<TreePair>, k: string): Option<nat>
    decreases ps, 0
  {
    if |ps| == 0 then None
    else match ps[|ps| - 1]
      case TMerge(sources) =>
        if FirstValue(sources, k).Some? then FirstValue(sources, k) else MergedValue(ps[..|ps| - 1], k)
      case _ => MergedValue(ps[..|ps| - 1], k)
  }

  function FirstValue(sources: seq<TreeSource>, k: string): Option<nat>
    decreases sources, 0
  {
    if |sources| == 0 then None
    else if SourceLookup(sources[0], k).Some? then SourceLookup(sources[0], k)
    else FirstValue(sources[1..], k)
  }

  function SourceLookup(source: TreeSource, k: string): Option<nat>
    decreases source, 0
  {
    match source
    case TMapping(t) => Lookup(t, k)
    case TNotMapping => None
  }

  function At(m: Keys, k: string): Option<nat> {
    if k in m then Some(m[k]) else None
  }

  /** Flattening gives each key the value the priority rules pick. */
  lemma {:induction false} MeaningIsLookup(t: Tree, k: string)
    requires Meaning(t).Some?
    ensures At(Meaning(t).value, k) == Lookup(t, k)
    decreases t, 0
  {
    FoldIsLookup(t.pairs, k);
  }

  lemma {:induction false} FoldIsLookup(ps: seq<TreePair>, k: string)
    requires Fold(ps).Some?
    ensures At(Fold(ps).value.own, k) == OwnValue(ps, k)
    ensures At(Fold(ps).value.merged, k) == MergedValue(ps, k)
    decreases ps, 0
  {
    if |ps| > 0 {
      var last := ps[|ps| - 1];
      FoldIsLookup(ps[..|ps| - 1], k);
      if last.TMerge? {
        CombinedIsLookup(last.sources, k);
      }
    }
  }

  lemma {:induction false} CombinedIsLookup(sources: seq<TreeSource>, k: string)
    requires Combined(sources).Some?
    ensures At(Combined(sources).value, k) == FirstValue(sources, k)
    decreases sources, 0
  {
    if |sources| > 0 {
      SourceIsLookup(sources[0], k);
      CombinedIsLookup(sources[1..], k);
    }
  }

  lemma {:induction false} SourceIsLookup(source: TreeSource, k: string)
    requires SourceMeaning(source).Some?
    ensures At(SourceMeaning(source).value, k) == SourceLookup(source, k)
    decreases source, 0
  {
    MeaningIsLookup(source.tree, k);
  }

  /** Nothing in the tree is refused: every key is a scalar, no mapping has one twice, and only
      mappings are merged. */
  ghost predicate IsSound(t: Tree)
    decreases t, 0
  {
    && (forall i :: 0 <= i < |t.pairs| ==> PairSound(t.pairs[i]))
    && (forall i, j :: 0 <= i < j < |t.pairs| ==> !SameOwn(t.pairs[i], t.pairs[j]))
  }

  predicate SameOwn(p: TreePair, q: TreePair) {
    p.TOwn? && q.TOwn? && p.key == q.key
  }

  ghost predicate PairSound(p: TreePair)
    decreases p, 0
  {
    match p
    case TOwn(_, _) => true
    case TMerge(sources) => forall j :: 0 <= j < |sources| ==> SourceSound(sources[j])
    case TBad => false
  }

  ghost predicate SourceSound(source: TreeSource)
    decreases source, 0
  {
    match source
    case TMapping(t) => IsSound(t)
    case TNotMapping => false
  }

  lemma {:induction false} OwnKeys(ps: seq<TreePair>, key: string)
    requires Fold(ps).Some?
    ensures key in Fold(ps).value.own <==> exists j :: 0 <= j < |ps| && ps[j].TOwn? && ps[j].key == key
    decreases |ps|
  {
    if |ps| > 0 {
      var init := ps[..|ps| - 1];
      OwnKeys(init, key);
      if j :| 0 <= j < |ps| && ps[j].TOwn? && ps[j].key == key {
        if j < |init| { assert init[j] == ps[j]; }
      }
    }
  }

  /** A tree means a mapping exactly when nothing in it is refused. */
  lemma {:induction false} MeaningIff(t: Tree)
    ensures Meaning(t).Some? <==> IsSound(t)
    decreases t, 0
  {
    FoldIff(t.pairs);
    assert t == Tree(t.pairs);
  }

  lemma {:induction false} FoldIff(ps: seq<TreePair>)
    ensures Fold(ps).Some? <==>
            && (forall i :: 0 <= i < |ps| ==> PairSound(ps[i]))
            && (forall i, j :: 0 <= i < j < |ps| ==> !SameOwn(ps[i], ps[j]))
    decreases ps, 0
  {
    if |ps| > 0 {
      var init, last := ps[..|ps| - 1], ps[|ps| - 1];
      FoldIff(init);
      assert forall i :: 0 <= i < |init| ==> init[i] == ps[i];
      PairIff(last);
      if Fold(init).Some? && last.TOwn? {
        OwnKeys(init, last.key);
      }
    }
  }

  lemma {:induction false} PairIff(p: TreePair)
    ensures p.TBad? ==> !PairSound(p)
    ensures p.TMerge? ==> (Combined(p.sources).Some? <==> PairSound(p))
    decreases p, 0
  {
    if p.TMerge? {
      CombinedIff(p.sources);
    }
  }

  lemma {:induction false} CombinedIff(sources: seq<TreeSource>)
    ensures Combined(sources).Some? <==>
            forall j :: 0 <= j < |sources| ==> SourceSound(sources[j])
    decreases sources, 0
  {
    if |sources| > 0 {
      SourceIff(sources[0]);
      CombinedIff(sources[1..]);
      assert forall j :: 1 <= j < |sources| ==> sources[j] == sources[1..][j - 1];
    }
  }

  lemma {:induction false} SourceIff(source: TreeSource)
    ensures SourceMeaning(source).Some? <==> SourceSound(source)
    decreases source, 0
  {
    match source
    case TMapping(t) => MeaningIff(t);
    case TNotMapping =>
  }

  // ------------------------------------------------------------ one tree per graph

  lemma {:induction false} UnfoldingUnique(g: Graph, id: nat, t: Tree, u: Tree)
    requires IsUnfolding(g, id, t) && IsUnfolding(g, id, u)
    ensures t == u
    decreases t, 0
  {
    forall i | 0 <= i < |t.pairs|
      ensures t.pairs[i] == u.pairs[i]
    {
      PairUnique(g, g[id][i], t.pairs[i], u.pairs[i]);
    }
    assert t.pairs == u.pairs;
  }

  lemma {:induction false} PairUnique(g: Graph, p: Pair, t: TreePair, u: TreePair)
    requires PairUnfolds(g, p, t) && PairUnfolds(g, p, u)
    ensures t == u
    decreases t, 0
  {
    if p.Merge? {
      forall j | 0 <= j < |t.sources|
        ensures t.sources[j] == u.sources[j]
      {
        if p.sources[j].Mapping? {
          UnfoldingUnique(g, p.sources[j].id, t.sources[j].tree, u.sources[j].tree);
        }
      }
      assert t.sources == u.sources;
    }
  }

  // ------------------------------------------------------------ errors carry upwards

  lemma {:induction false} FoldNone(ps: seq<TreePair>, i: nat)
    requires i <= |ps| && Fold(ps[..i]).None?
    ensures Fold(ps).None?
    decreases |ps| - i
  {
    if i == |ps| {
      assert ps[..i] == ps;
    } else {
      assert ps[..i + 1][..i] == ps[..i];
      FoldNone(ps, i + 1);
    }
  }

  lemma {:induction false} CombinedNone(sources: seq<TreeSource>, j: nat)
    requires j < |sources| && (sources[j].TMapping? ==> Meaning(sources[j].tree).None?)
    ensures Combined(sources).None?
    decreases sources
  {
    if j > 0 {
      CombinedNone(sources[1..], j - 1);
    }
  }

  /** The mapping `id` cannot be flattened: it unfolds to no tree that means anything. */
  ghost predicate Broken(g: Graph, id: nat) {
    forall t :: IsUnfolding(g, id, t) ==> Meaning(t).None?
  }

  /** Any tree of `id` would hold, at or below itself, a tree of a mapping still open. */
  ghost predicate RunsInto(g: Graph, open: set<nat>, id: nat) {
    forall t :: IsUnfolding(g, id, t) ==>
      exists x, u :: x in open && IsUnfolding(g, x, u) && (u == t || u < t)
  }

  lemma SourceBroken(g: Graph, id: nat, done: seq<TreePair>, j: nat)
    requires id in g && |done| < |g[id]| && g[id][|done|].Merge? && j < |g[id][|done|].sources|
    requires var s := g[id][|done|].sources[j]; s.Mapping? ==> Broken(g, s.id)
    ensures Broken(g, id)
  {
    forall t | IsUnfolding(g, id, t)
      ensures Meaning(t).None?
    {
      var i := |done|;
      assert PairUnfolds(g, g[id][i], t.pairs[i]);
      assert SourceUnfolds(g, g[id][i].sources[j], t.pairs[i].sources[j]);
      CombinedNone(t.pairs[i].sources, j);
      assert t.pairs[..i + 1][..i] == t.pairs[..i];
      assert Fold(t.pairs[..i + 1]).None?;
      FoldNone(t.pairs, i + 1);
    }
  }

  lemma SourceRunsInto(g: Graph, open: set<nat>, id: nat, i: nat, j: nat)
    requires id in g && i < |g[id]| && g[id][i].Merge? && j < |g[id][i].sources| && g[id][i].sources[j].Mapping?
    requires RunsInto(g, open + {id}, g[id][i].sources[j].id)
    ensures RunsInto(g, open, id)
  {
    forall t | IsUnfolding(g, id, t)
      ensures exists x, u :: x in open && IsUnfolding(g, x, u) && (u == t || u < t)
    {
      assert PairUnfolds(g, g[id][i], t.pairs[i]);
      var source := t.pairs[i].sources[j];
      assert SourceUnfolds(g, g[id][i].sources[j], source);
      assert IsUnfolding(g, g[id][i].sources[j].id, source.tree);
      var x, u :| x in open + {id} && IsUnfolding(g, x, u) && (u == source.tree || u < source.tree);
      assert source.tree < t by {
        assert source == TMapping(source.tree) && t.pairs[i] == TMerge(t.pairs[i].sources) && t == Tree(t.pairs);
      }
      if x == id {
        UnfoldingUnique(g, id, t, u);
      }
    }
  }

  /** The pairs already folded are those of any tree of the mapping. */
  lemma SamePrefix(g: Graph, id: nat, done: seq<TreePair>, t: Tree)
    requires IsUnfolding(g, id, t) && |done| <= |g[id]|
    requires forall i :: 0 <= i < |done| ==> PairUnfolds(g, g[id][i], done[i])
    ensures t.pairs[..|done|] == done
  {
    forall i | 0 <= i < |done|
      ensures t.pairs[i] == done[i]
    {
      PairUnique(g, g[id][i], t.pairs[i], done[i]);
    }
  }

  lemma PairRefused(g: Graph, id: nat, done: seq<TreePair>)
    requires id in g && |done| < |g[id]| && Fold(done).Some?
    requires forall i :: 0 <= i < |done| ==> PairUnfolds(g, g[id][i], done[i])
    requires var p := g[id][|done|]; p.BadKey? || (p.Own? && p.key in Fold(done).value.own)
    ensures Broken(g, id)
  {
    forall t | IsUnfolding(g, id, t)
      ensures Meaning(t).None?
    {
      var i := |done|;
      SamePrefix(g, id, done, t);
      assert PairUnfolds(g, g[id][i], t.pairs[i]);
      assert t.pairs[..i + 1][..i] == t.pairs[..i];
      FoldNone(t.pairs, i + 1);
    }
  }

  // ------------------------------------------------------------ mappings that merge into themselves

  /** `y` is a source of some `<<` of `x`. */
  ghost predicate Merges(g: Graph, x: nat, y: nat) {
    x in g && exists i, j ::
      && 0 <= i < |g[x]| && g[x][i].Merge?
      && 0 <= j < |g[x][i].sources| && g[x][i].sources[j] == Mapping(y)
  }

  ghost predicate IsMergePath(g: Graph, path: seq<nat>) {
    && (forall i :: 0 <= i < |path| ==> path[i] in g)
    && (forall i :: 0 <= i < |path| - 1 ==> Merges(g, path[i], path[i + 1]))
  }

  ghost predicate Distinct(path: seq<nat>) {
    forall i, j :: 0 <= i < j < |path| ==> path[i] != path[j]
  }

  /** Following merges from `id` comes to some mapping twice. */
  ghost predicate SelfMerging(g: Graph, id: nat) {
    exists path :: IsMergePath(g, path) && |path| > 0 && path[0] == id && !Distinct(path)
  }

  ghost predicate HasTree(g: Graph, id: nat) {
    exists t :: IsUnfolding(g, id, t)
  }

  /** Somewhere in `t` is a smaller tree of `y`. */
  ghost predicate HoldsTree(g: Graph, y: nat, t: Tree) {
    exists u :: IsUnfolding(g, y, u) && u < t
  }

  /** A tree of a mapping holds a smaller tree of each of its sources. */
  lemma SourceTree(g: Graph, x: nat, y: nat, t: Tree)
    requires IsUnfolding(g, x, t) && Merges(g, x, y)
    ensures HoldsTree(g, y, t)
  {
    var i, j :| 0 <= i < |g[x]| && g[x][i].Merge? && 0 <= j < |g[x][i].sources| && g[x][i].sources[j] == Mapping(y);
    assert PairUnfolds(g, g[x][i], t.pairs[i]);
    assert SourceUnfolds(g, g[x][i].sources[j], t.pairs[i].sources[j]);
    var u := t.pairs[i].sources[j].tree;
    assert IsUnfolding(g, y, u);
    assert u < t by {
      assert t.pairs[i].sources[j] == TMapping(u) && t.pairs[i] == TMerge(t.pairs[i].sources) && t == Tree(t.pairs);
    }
  }

  lemma {:induction false} CycleHasNoTree(g: Graph, path: seq<nat>, at: nat, t: Tree)
    requires IsMergePath(g, path) && |path| >= 2 && path[0] == path[|path| - 1] && at < |path|
    ensures !IsUnfolding(g, path[at], t)
    decreases t
  {
    hide IsUnfolding, Merges;
    if IsUnfolding(g, path[at], t) {
      var here := if at == |path| - 1 then 0 else at;
      SourceTree(g, path[here], path[here + 1], t);
      var u :| IsUnfolding(g, path[here + 1], u) && u < t;
      CycleHasNoTree(g, path, here + 1, u);
    }
  }

  lemma {:induction false} PathHasTrees(g: Graph, path: seq<nat>, at: nat)
    requires IsMergePath(g, path) && at < |path| && HasTree(g, path[0])
    ensures HasTree(g, path[at])
  {
    hide IsUnfolding, Merges;
    if at > 0 {
      PathHasTrees(g, path, at - 1);
      var t :| IsUnfolding(g, path[at - 1], t);
      assert Merges(g, path[at - 1], path[at - 1 + 1]);
      SourceTree(g, path[at - 1], path[at], t);
    }
  }

  ghost function TreeOf(g: Graph, id: nat): (t: Tree)
    requires HasTree(g, id)
    ensures IsUnfolding(g, id, t)
  {
    var t :| IsUnfolding(g, id, t);
    t
  }

  ghost predicate SourcesHaveTrees(g: Graph, sources: seq<Source>) {
    forall j :: 0 <= j < |sources| && sources[j].Mapping? ==> HasTree(g, sources[j].id)
  }

  ghost predicate Unfoldable(g: Graph, p: Pair) {
    exists t :: PairUnfolds(g, p, t)
  }

  ghost function SourcesTree(g: Graph, source: Source): TreeSource
    requires source.Mapping? ==> HasTree(g, source.id)
  {
    match source
    case Mapping(id) => TMapping(TreeOf(g, id))
    case NotMapping => TNotMapping
  }

  /** A `<<` whose sources all unfold unfolds too. */
  lemma PairHasTree(g: Graph, p: Pair)
    requires p.Merge? ==> SourcesHaveTrees(g, p.sources)
    ensures Unfoldable(g, p)
  {
    match p
    case Own(k, v) => assert PairUnfolds(g, p, TOwn(k, v));
    case BadKey => assert PairUnfolds(g, p, TBad);
    case Merge(sources) =>
      var ts := seq(|sources|, j requires 0 <= j < |sources| => SourcesTree(g, sources[j]));
      assert forall j :: 0 <= j < |sources| ==> SourceUnfolds(g, sources[j], ts[j]);
      assert PairUnfolds(g, p, TMerge(ts));
  }

  ghost function TreeOfPair(g: Graph, p: Pair): (t: TreePair)
    requires Unfoldable(g, p)
    ensures PairUnfolds(g, p, t)
  {
    var t :| PairUnfolds(g, p, t);
    t
  }

  ghost function Visited(path: seq<nat>): set<nat> {
    set x | x in path
  }

  /** One more merge along a path that repeats nothing reaches a mapping not visited yet. */
  lemma LongerPath(g: Graph, id: nat, path: seq<nat>, next: nat)
    requires !SelfMerging(g, id) && IsMergePath(g, path) && |path| > 0 && path[0] == id
    requires next in g && Merges(g, path[|path| - 1], next)
    ensures IsMergePath(g, path + [next]) && next !in path && Visited(path + [next]) == Visited(path) + {next}
  {
    hide Merges;
    var longer := path + [next];
    assert forall i :: 0 <= i < |path| ==> longer[i] == path[i];
    assert IsMergePath(g, longer) && longer[0] == id && longer[|path|] == next;
    assert Distinct(longer);
    assert forall i :: 0 <= i < |path| ==> longer[i] != longer[|path|];
  }

  lemma {:induction false} NoCycleHasTree(g: Graph, id: nat, path: seq<nat>)
    requires WellFormed(g) && !SelfMerging(g, id)
    requires IsMergePath(g, path) && |path| > 0 && path[0] == id
    ensures HasTree(g, path[|path| - 1])
    decreases g.Keys - Visited(path)
  {
    hide IsUnfolding, PairUnfolds, SelfMerging;
    var x := path[|path| - 1];
    forall i, j | 0 <= i < |g[x]| && g[x][i].Merge? && 0 <= j < |g[x][i].sources| && g[x][i].sources[j].Mapping?
      ensures HasTree(g, g[x][i].sources[j].id)
    {
      var y := g[x][i].sources[j].id;
      assert Known(g, g[x][i].sources);
      assert Merges(g, x, y);
      LongerPath(g, id, path, y);
      assert y in g.Keys - Visited(path);
      NoCycleHasTree(g, id, path + [y]);
    }
    forall i | 0 <= i < |g[x]|
      ensures Unfoldable(g, g[x][i])
    {
      PairHasTree(g, g[x][i]);
    }
    PairsMakeTree(g, x);
  }

  lemma PairsMakeTree(g: Graph, id: nat)
    requires id in g && forall i :: 0 <= i < |g[id]| ==> Unfoldable(g, g[id][i])
    ensures HasTree(g, id)
  {
    hide PairUnfolds, Unfoldable;
    var ts := seq(|g[id]|, i requires 0 <= i < |g[id]| => TreeOfPair(g, g[id][i]));
    assert IsUnfolding(g, id, Tree(ts));
  }

  /** A mapping unfolds to a finite tree exactly when it does not merge into itself, directly
      or through what it merges. */
  lemma UnfoldsIffNotSelfMerging(g: Graph, id: nat)
    requires WellFormed(g) && id in g
    ensures HasTree(g, id) <==> !SelfMerging(g, id)
  {
    hide IsUnfolding, WellFormed, Merges;
    if HasTree(g, id) {
      forall path | IsMergePath(g, path) && |path| > 0 && path[0] == id
        ensures Distinct(path)
      {
        forall i, j | 0 <= i < j < |path|
          ensures path[i] != path[j]
        {
          PathHasTrees(g, path, i);
          if path[i] == path[j] {
            CycleHasNoTree(g, path[i..j + 1], 0, TreeOf(g, path[i]));
          }
        }
      }
    }
    if !SelfMerging(g, id) {
      NoCycleHasTree(g, id, [id]);
    }
  }

  lemma NothingCombined()
    ensures Combined([]) == Some(map[])
  {
  }

  /** The trees of the sources from the j-th on, from those after it. */
  lemma SourcePrepended(g: Graph, sources: seq<Source>, j: nat, trees: seq<TreeSource>, keys: Keys, own: Keys)
    requires j < |sources| && |trees| == |sources| - j - 1 && Combined(trees) == Some(keys)
    requires forall k :: j < k < |sources| ==> SourceUnfolds(g, sources[k], trees[k - j - 1])
    requires sources[j].Mapping? && FlattensTo(g, sources[j].id, own)
    ensures var more := [TMapping(FlatTree(g, sources[j].id, own))] + trees;
            && Combined(more) == Some(keys + own)
            && forall k :: j <= k < |sources| ==> SourceUnfolds(g, sources[k], more[k - j])
  {
    hide IsUnfolding, Meaning, FlattensTo, Combined;
    CombineFirst(TMapping(FlatTree(g, sources[j].id, own)), trees);
  }

  // ------------------------------------------------------------ the loader

  /** The mapping flattens to `keys`: some tree of it means exactly that. */
  ghost predicate FlattensTo(g: Graph, id: nat, keys: Keys) {
    exists t :: IsUnfolding(g, id, t) && Meaning(t) == Some(keys)
  }

  ghost function KeyTotal(order: seq<nat>, flattened: map<nat, Keys>): nat
    requires forall i :: 0 <= i < |order| ==> order[i] in flattened
  {
    if |order| == 0 then 0
    else KeyTotal(order[..|order| - 1], flattened) + |flattened[order[|order| - 1]]|
  }

  lemma {:induction false} KeyTotalSame(order: seq<nat>, flattened: map<nat, Keys>, id: nat, keys: Keys)
    requires (forall i :: 0 <= i < |order| ==> order[i] in flattened) && id !in order
    ensures KeyTotal(order, flattened[id := keys]) == KeyTotal(order, flattened)
    decreases |order|
  {
    if |order| > 0 {
      KeyTotalSame(order[..|order| - 1], flattened, id, keys);
    }
  }

  lemma KeyTotalMore(order: seq<nat>, flattened: map<nat, Keys>, id: nat, keys: Keys)
    requires (forall i :: 0 <= i < |order| ==> order[i] in flattened) && id !in order
    ensures (forall i :: 0 <= i < |order + [id]| ==> (order + [id])[i] in flattened[id := keys])
    ensures KeyTotal(order + [id], flattened[id := keys]) == KeyTotal(order, flattened) + |keys|
  {
    KeyTotalSame(order, flattened, id, keys);
    assert (order + [id])[..|order|] == order;
  }

  lemma SourcesKnown(g: Graph, id: nat, i: nat)
    requires WellFormed(g) && id in g && i < |g[id]| && g[id][i].Merge?
    ensures Known(g, g[id][i].sources)
  {
  }

  lemma OpenRunsInto(g: Graph, open: set<nat>, id: nat)
    requires id in open
    ensures RunsInto(g, open, id)
  {
  }

  /** With nothing open, running into an open mapping means there is no tree at all. */
  lemma NothingOpen(g: Graph, id: nat)
    requires RunsInto(g, {}, id)
    ensures forall t :: !IsUnfolding(g, id, t)
  {
  }

  lemma FoldEmpty()
    ensures Fold([]) == Some(Partial(map[], map[]))
  {
  }

  lemma FoldMore(done: seq<TreePair>, pair: TreePair)
    requires Fold(done).Some?
    ensures Fold(done + [pair]) == AddPair(Fold(done).value, pair)
  {
    assert (done + [pair])[..|done|] == done;
  }

  lemma MergeFolded(g: Graph, id: nat, done: seq<TreePair>, trees: seq<TreeSource>, keys: Keys)
    requires id in g && |done| < |g[id]| && g[id][|done|].Merge? && Fold(done).Some?
    requires |trees| == |g[id][|done|].sources| && Combined(trees) == Some(keys)
    requires forall j :: 0 <= j < |trees| ==> SourceUnfolds(g, g[id][|done|].sources[j], trees[j])
    ensures PairUnfolds(g, g[id][|done|], TMerge(trees))
    ensures Fold(done + [TMerge(trees)]) == Some(Partial(Fold(done).value.merged + keys, Fold(done).value.own))
  {
    FoldMore(done, TMerge(trees));
  }

  lemma OwnFolded(g: Graph, id: nat, done: seq<TreePair>)
    requires id in g && |done| < |g[id]| && g[id][|done|].Own? && Fold(done).Some?
    requires g[id][|done|].key !in Fold(done).value.own
    ensures var Own(key, value) := g[id][|done|];
            && PairUnfolds(g, g[id][|done|], TOwn(key, value))
            && Fold(done + [TOwn(key, value)]) ==
               Some(Partial(Fold(done).value.merged, Fold(done).value.own[key := value]))
  {
    FoldMore(done, TOwn(g[id][|done|].key, g[id][|done|].value));
  }

  lemma MergeFails(g: Graph, open: set<nat>, id: nat, done: seq<TreePair>)
    requires id in g && |done| < |g[id]| && g[id][|done|].Merge?
    ensures (exists j: nat :: j < |g[id][|done|].sources| && g[id][|done|].sources[j].Mapping? &&
                              RunsInto(g, open + {id}, g[id][|done|].sources[j].id)) ==> RunsInto(g, open, id)
    ensures (exists j: nat :: j < |g[id][|done|].sources| &&
                              (g[id][|done|].sources[j].Mapping? ==> Broken(g, g[id][|done|].sources[j].id))) ==>
                                Broken(g, id)
  {
    hide RunsInto, Broken;
    var sources := g[id][|done|].sources;
    forall j: nat | j < |sources| && sources[j].Mapping? && RunsInto(g, open + {id}, sources[j].id)
      ensures RunsInto(g, open, id)
    {
      SourceRunsInto(g, open, id, |done|, j);
    }
    forall j: nat | j < |sources| && (sources[j].Mapping? ==> Broken(g, sources[j].id))
      ensures Broken(g, id)
    {
      SourceBroken(g, id, done, j);
    }
  }

  lemma Flattened(g: Graph, id: nat, done: seq<TreePair>)
    requires id in g && |done| == |g[id]| && Fold(done).Some?
    requires forall i :: 0 <= i < |done| ==> PairUnfolds(g, g[id][i], done[i])
    ensures FlattensTo(g, id, Fold(done).value.merged + Fold(done).value.own)
  {
    assert IsUnfolding(g, id, Tree(done));
  }

  ghost function FlatTree(g: Graph, id: nat, keys: Keys): (t: Tree)
    requires FlattensTo(g, id, keys)
    ensures IsUnfolding(g, id, t) && Meaning(t) == Some(keys)
  {
    var t :| IsUnfolding(g, id, t) && Meaning(t) == Some(keys);
    t
  }

  lemma CombineFirst(first: TreeSource, rest: seq<TreeSource>)
    requires first.TMapping? && Meaning(first.tree).Some? && Combined(rest).Some?
    ensures Combined([first] + rest) == Some(Combined(rest).value + Meaning(first.tree).value)
  {
    assert ([first] + rest)[1..] == rest;
  }

  datatype Outcome = Flat(keys: Keys) | SelfMerge | Refused | OverBudget

  class SpecLoader {
    const g: Graph
    var flattened: map<nat, Keys>
    var flattening: set<nat>
    var flattenedKeys: nat
    /** The distinct mappings flattened so far, in order. */
    ghost var order: seq<nat>

    ghost predicate Valid()
      reads this
    {
      && WellFormed(g)
      && flattening <= g.Keys && flattening !! flattened.Keys
      && (forall id :: id in flattened ==> FlattensTo(g, id, flattened[id]))
      && (forall i, j :: 0 <= i < j < |order| ==> order[i] != order[j])
      && (forall id :: id in order <==> id in flattened)
      && flattenedKeys == KeyTotal(order, flattened) <= 2_000_000
    }

    constructor (g: Graph)
      requires WellFormed(g)
      ensures Valid() && this.g == g && flattening == {} && flattened == map[]
    {
      this.g := g;
      flattened, flattening, flattenedKeys, order := map[], {}, 0, [];
    }

    /** The distinct mappings flattened, with one more, hold more keys than allowed. */
    ghost predicate HoldsTooMuch()
      reads this
    {
      && (forall i :: 0 <= i < |order| ==> order[i] in flattened && FlattensTo(g, order[i], flattened[order[i]]))
      && (forall i, j :: 0 <= i < j < |order| ==> order[i] != order[j])
      && exists x, keys :: x !in order && FlattensTo(g, x, keys) && KeyTotal(order, flattened) + |keys| > 2_000_000
    }

    /** Flattens the sources of one `<<`, last to first. */
    method FlatSources(sources: seq<Source>) returns (f: Outcome, ghost trees: seq<TreeSource>)
      requires Valid() && Known(g, sources)
      modifies this
      ensures f.Flat? ==> Valid() && flattening == old(flattening)
      ensures f.Flat? ==>
                && |trees| == |sources|
                && (forall j :: 0 <= j < |sources| ==> SourceUnfolds(g, sources[j], trees[j]))
                && Combined(trees) == Some(f.keys)
      ensures f.SelfMerge? ==>
                exists j: nat :: j < |sources| && sources[j].Mapping? && RunsInto(g, old(flattening), sources[j].id)
      ensures f.Refused? ==> exists j: nat :: j < |sources| && (sources[j].Mapping? ==> Broken(g, sources[j].id))
      ensures f.OverBudget? ==> HoldsTooMuch()
      decreases g.Keys - flattening, 1
    {
      hide IsUnfolding, Meaning, KeyTotal, WellFormed, FlattensTo, Broken, RunsInto, HoldsTooMuch, SourceUnfolds,
        Combined;
      trees := [];
      NothingCombined();
      if exists j :: 0 <= j < |sources| && sources[j].NotMapping? {
        return Refused, trees;
      }
      var keys: Keys := map[];
      var j := |sources|;
      while j > 0
        invariant 0 <= j <= |sources| && Valid() && flattening == old(flattening)
        invariant |trees| == |sources| - j
        invariant forall k :: j <= k < |sources| ==> SourceUnfolds(g, sources[k], trees[k - j])
        invariant Combined(trees) == Some(keys)
      {
        j := j - 1;
        var flat := FlatPairs(sources[j].id);
        if !flat.Flat? {
          return flat, trees;
        }
        SourcePrepended(g, sources, j, trees, keys, flat.keys);
        trees := [TMapping(FlatTree(g, sources[j].id, flat.keys))] + trees;
        keys := keys + flat.keys;
      }
      f := Flat(keys);
    }

    /** Goes through a mapping's pairs once its identity is on the open list. */
    method FoldPairs(id: nat, ghost open: set<nat>) returns (f: Outcome)
      requires Valid() && id in g && flattening == open + {id}
      modifies this
      ensures f.Flat? ==> Valid() && FlattensTo(g, id, f.keys) && flattening == old(flattening)
      ensures f.SelfMerge? ==> RunsInto(g, open, id)
      ensures f.Refused? ==> Broken(g, id)
      ensures f.OverBudget? ==> HoldsTooMuch()
      decreases g.Keys - flattening, 2
    {
      hide IsUnfolding, PairUnfolds, SourceUnfolds, Combined, Meaning, Fold, KeyTotal;
      hide WellFormed, FlattensTo, Broken, RunsInto, HoldsTooMuch;
      var merged: Keys, own: Keys := map[], map[];
      ghost var done: seq<TreePair> := [];
      FoldEmpty();
      for i := 0 to |g[id]|
        invariant Valid() && flattening == old(flattening)
        invariant |done| == i && forall k :: 0 <= k < i ==> PairUnfolds(g, g[id][k], done[k])
        invariant Fold(done) == Some(Partial(merged, own))
      {
        match g[id][i] {
          case Merge(sources) =>
            assert Known(g, sources) by { SourcesKnown(g, id, i); }
            var flat, trees := FlatSources(sources);
            if !flat.Flat? {
              MergeFails(g, open, id, done);
              return flat;
            }
            MergeFolded(g, id, done, trees, flat.keys);
            merged := merged + flat.keys;
            done := done + [TMerge(trees)];
          case Own(key, value) =>
            if key in own {
              PairRefused(g, id, done);
              return Refused;
            }
            OwnFolded(g, id, done);
            own := own[key := value];
            done := done + [TOwn(key, value)];
          case BadKey =>
            PairRefused(g, id, done);
            return Refused;
        }
      }
      Flattened(g, id, done);
      f := Flat(merged + own);
    }

    /** Flattens a mapping once, however often it is used. */
    method FlatPairs(id: nat) returns (r: Outcome)
      requires Valid() && id in g
      modifies this
      ensures r.Flat? ==> Valid() && FlattensTo(g, id, r.keys) && flattening == old(flattening)
      ensures r.SelfMerge? ==> RunsInto(g, old(flattening), id)
      ensures r.Refused? ==> Broken(g, id)
      ensures r.OverBudget? ==> HoldsTooMuch()
      decreases g.Keys - flattening, 0
    {
      hide IsUnfolding, Meaning, KeyTotal, WellFormed, FlattensTo, Broken, RunsInto;
      if id in flattened {
        return Flat(flattened[id]);
      }
      if id in flattening {
        OpenRunsInto(g, flattening, id);
        return SelfMerge;
      }
      flattening := flattening + {id};
      var f := FoldPairs(id, old(flattening));
      if !f.Flat? {
        return f;
      }
      flattening := flattening - {id};
      flattenedKeys := flattenedKeys + |f.keys|;
      if flattenedKeys > MAX_NODES {
        return OverBudget;
      }
      KeyTotalMore(order, flattened, id, f.keys);
      flattened := flattened[id := f.keys];
      order := order + [id];
      r := f;
    }

    /** At the top nothing is open. Whatever a mapping means is what is returned, within the
        key budget. A mapping that merges into itself is never flattened, and is the only kind
        that is refused for that reason; one that holds a refused pair is an error too. */
    method ConstructMapping(id: nat) returns (r: Outcome)
      requires Valid() && id in g && flattening == {}
      modifies this
      ensures r.Flat? ==> Valid() && flattening == {} && FlattensTo(g, id, r.keys)
      ensures r.SelfMerge? || r.Refused? ==> forall keys :: !FlattensTo(g, id, keys)
      ensures forall keys :: FlattensTo(g, id, keys) ==> r == Flat(keys) || (r.OverBudget? && HoldsTooMuch())
      ensures SelfMerging(g, id) ==> !r.Flat?
      ensures r.SelfMerge? ==> SelfMerging(g, id) && forall t :: !IsUnfolding(g, id, t)
    {
      hide KeyTotal, Meaning, IsUnfolding, HoldsTooMuch, SelfMerging, WellFormed;
      UnfoldsIffNotSelfMerging(g, id);
      r := FlatPairs(id);
      if r.SelfMerge? {
        NothingOpen(g, id);
      }
      forall keys | FlattensTo(g, id, keys)
        ensures r == Flat(keys) || (r.OverBudget? && HoldsTooMuch())
      {
        if r.Flat? {
          FlattensToOne(g, id, keys, r.keys);
        }
      }
    }
  }

  lemma FlattensToOne(g: Graph, id: nat, x: Keys, y: Keys)
    requires FlattensTo(g, id, x) && FlattensTo(g, id, y)
    ensures x == y
  {
    UnfoldingUnique(g, id, FlatTree(g, id, x), FlatTree(g, id, y));
  }
}
