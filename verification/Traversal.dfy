/** Explicit-stack walks over a JSON tree, and the recursive gathering they perform. */
module Traversal {
  import opened JsonValues

  /** The values directly inside a container, in order. */
  function Children(v: Json): (r: seq<Json>)
    ensures forall i :: 0 <= i < |r| ==> r[i] < v
  {
    match v
    case Obj(_) =>
      var entries := Entries(v);
      seq(|entries|, i requires 0 <= i < |entries| => entries[i].1)
    case Arr(items) => items
    case _ => []
  }

  /** A choice of subterms that always goes down. */
  ghost predicate Descends(kids: Json -> seq<Json>) {
    forall v, i :: 0 <= i < |kids(v)| ==> kids(v)[i] < v
  }

  /** What `own` finds at `v` and below it. A popped stack visits a node before its
      children, and the last child first. */
  ghost function Gather<T>(kids: Json -> seq<Json>, own: Json -> seq<T>, v: Json): seq<T>
    requires Descends(kids)
    decreases v, 1
  {
    own(v) + GatherFrom(kids, own, v, kids(v))
  }

  ghost function GatherFrom<T>(kids: Json -> seq<Json>, own: Json -> seq<T>, v: Json, xs: seq<Json>): seq<T>
    requires Descends(kids) && forall i :: 0 <= i < |xs| ==> xs[i] < v
    decreases v, 0, |xs|
  {
    if |xs| == 0 then [] else Gather(kids, own, xs[|xs| - 1]) + GatherFrom(kids, own, v, xs[..|xs| - 1])
  }

  /** What a stack still has to find. */
  ghost function GatherStack<T>(kids: Json -> seq<Json>, own: Json -> seq<T>, stack: seq<Json>): seq<T>
    requires Descends(kids)
  {
    if |stack| == 0 then []
    else Gather(kids, own, stack[|stack| - 1]) + GatherStack(kids, own, stack[..|stack| - 1])
  }

  lemma {:induction false} StackOfKids<T>(kids: Json -> seq<Json>, own: Json -> seq<T>, v: Json, xs: seq<Json>)
    requires Descends(kids) && forall i :: 0 <= i < |xs| ==> xs[i] < v
    ensures GatherFrom(kids, own, v, xs) == GatherStack(kids, own, xs)
    decreases |xs|
  {
    if |xs| > 0 {
      StackOfKids(kids, own, v, xs[..|xs| - 1]);
    }
  }

  lemma {:induction false} StackAppend<T>(kids: Json -> seq<Json>, own: Json -> seq<T>, xs: seq<Json>, ys: seq<Json>)
    requires Descends(kids)
    ensures GatherStack(kids, own, xs + ys) == GatherStack(kids, own, ys) + GatherStack(kids, own, xs)
    decreases |ys|
  {
    if |ys| == 0 {
      assert xs + ys == xs;
    } else {
      assert (xs + ys)[..|xs + ys| - 1] == xs + ys[..|ys| - 1];
      StackAppend(kids, own, xs, ys[..|ys| - 1]);
    }
  }

  /** One turn of the loop: pop a value, take what it has, push its children. */
  lemma PopPush<T>(kids: Json -> seq<Json>, own: Json -> seq<T>, stack: seq<Json>)
    requires Descends(kids) && |stack| > 0
    ensures var v, rest := stack[|stack| - 1], stack[..|stack| - 1];
            GatherStack(kids, own, stack) == own(v) + GatherStack(kids, own, rest + kids(v))
  {
    var v, rest := stack[|stack| - 1], stack[..|stack| - 1];
    StackOfKids(kids, own, v, kids(v));
    StackAppend(kids, own, rest, kids(v));
  }

  // ------------------------------------------------------------ the walk ends

  ghost function Size(kids: Json -> seq<Json>, v: Json): nat
    requires Descends(kids)
    decreases v, 1
  {
    1 + SizeFrom(kids, v, kids(v))
  }

  ghost function SizeFrom(kids: Json -> seq<Json>, v: Json, xs: seq<Json>): nat
    requires Descends(kids) && forall i :: 0 <= i < |xs| ==> xs[i] < v
    decreases v, 0, |xs|
  {
    if |xs| == 0 then 0 else Size(kids, xs[|xs| - 1]) + SizeFrom(kids, v, xs[..|xs| - 1])
  }

  ghost function StackSize(kids: Json -> seq<Json>, stack: seq<Json>): nat
    requires Descends(kids)
  {
    if |stack| == 0 then 0 else Size(kids, stack[|stack| - 1]) + StackSize(kids, stack[..|stack| - 1])
  }

  lemma {:induction false} StackSizeAppend(kids: Json -> seq<Json>, v: Json, xs: seq<Json>, ys: seq<Json>)
    requires Descends(kids) && forall i :: 0 <= i < |ys| ==> ys[i] < v
    ensures StackSize(kids, xs + ys) == StackSize(kids, xs) + SizeFrom(kids, v, ys)
    decreases |ys|
  {
    if |ys| == 0 {
      assert xs + ys == xs;
    } else {
      assert (xs + ys)[..|xs + ys| - 1] == xs + ys[..|ys| - 1];
      StackSizeAppend(kids, v, xs, ys[..|ys| - 1]);
    }
  }

  lemma PopPushShrinks(kids: Json -> seq<Json>, stack: seq<Json>)
    requires Descends(kids) && |stack| > 0
    ensures var v, rest := stack[|stack| - 1], stack[..|stack| - 1];
            StackSize(kids, rest + kids(v)) < StackSize(kids, stack)
  {
    var v, rest := stack[|stack| - 1], stack[..|stack| - 1];
    StackSizeAppend(kids, v, rest, kids(v));
  }

  // ------------------------------------------------------------ what is gathered

  lemma {:induction false} GatherChild<T>(kids: Json -> seq<Json>, own: Json -> seq<T>, v: Json, i: nat, x: T)
    requires Descends(kids) && i < |kids(v)| && x in Gather(kids, own, kids(v)[i])
    ensures x in Gather(kids, own, v)
  {
    GatherMember(kids, own, v, kids(v), i, x);
  }

  lemma {:induction false} GatherMember<T>(kids: Json -> seq<Json>, own: Json -> seq<T>, v: Json, xs: seq<Json>,
                                           i: nat, x: T)
    requires Descends(kids) && forall j :: 0 <= j < |xs| ==> xs[j] < v
    requires i < |xs| && x in Gather(kids, own, xs[i])
    ensures x in GatherFrom(kids, own, v, xs)
    decreases |xs|
  {
    if i < |xs| - 1 {
      GatherMember(kids, own, v, xs[..|xs| - 1], i, x);
    }
  }

  lemma {:induction false} GatherSource<T>(kids: Json -> seq<Json>, own: Json -> seq<T>, v: Json, xs: seq<Json>, x: T)
    requires Descends(kids) && forall j :: 0 <= j < |xs| ==> xs[j] < v
    requires x in GatherFrom(kids, own, v, xs)
    ensures exists i :: 0 <= i < |xs| && x in Gather(kids, own, xs[i])
    decreases |xs|
  {
    var last := |xs| - 1;
    if x !in Gather(kids, own, xs[last]) {
      GatherSource(kids, own, v, xs[..last], x);
      var i :| 0 <= i < last && x in Gather(kids, own, xs[..last][i]);
      assert xs[i] == xs[..last][i];
    }
  }
}
