/** `check_refs`: every reference in a document is local, resolves to an object, and ends. */
module RefCheck {
  import opened JsonValues
  import opened Pointers
  import opened Schemas
  import opened Traversal
  import opened RefGraph

  /** Percent-decoding, from the URL library. */
  type Unquote = string -> string

  type Pointer = seq<string>

  // ------------------------------------------------------------ resolving

  /** The value at the key written `text`. */
  function GetText(fields: Fields, text: string): (r: Option<Json>)
    ensures r.Some? ==> exists i :: 0 <= i < |fields| && fields[i].1 == r.value && fields[i].0.Text() == text
  {
    if |fields| == 0 then None
    else if fields[0].0.Text() == text then Some(fields[0].1)
    else
      var r := GetText(fields[1..], text);
      assert forall i :: 0 <= i < |fields| - 1 ==> fields[1..][i] == fields[i + 1];
      r
  }

  predicate IsDigits(part: string) {
    |part| > 0 && forall i :: 0 <= i < |part| ==> '0' <= part[i] <= '9'
  }

  function Number(part: string): nat
    requires forall i :: 0 <= i < |part| ==> '0' <= part[i] <= '9'
  {
    if |part| == 0 then 0
    else 10 * Number(part[..|part| - 1]) + (part[|part| - 1] as int - '0' as int)
  }

  function Step(node: Json, part: string): Option<Json> {
    match node
    case Obj(fields) => GetText(fields, part)
    case Arr(items) => if IsDigits(part) && Number(part) < |items| then Some(items[Number(part)]) else None
    case _ => None
  }

  function Walk(node: Json, parts: Pointer): Option<Json> {
    if |parts| == 0 then Some(node)
    else match Step(node, parts[0])
      case Some(next) => Walk(next, parts[1..])
      case None => None
  }

  predicate IsLocal(ref: string) {
    "#/" <= ref
  }

  /** Where a local ref points; no pointer for any other. */
  function PointerOf(unquote: Unquote, ref: string): Option<Pointer> {
    if IsLocal(ref) then DecodePointer(unquote(ref[1..])) else None
  }

  /** The value a ref names in a document. */
  function Resolve(unquote: Unquote, document: Json, ref: string): Option<Json> {
    match PointerOf(unquote, ref)
    case Some(parts) => Walk(document, parts)
    case None => None
  }

  // ------------------------------------------------------------ the refs of a document

  function OwnRef(v: Json): seq<string> {
    match RefOf(v)
    case Some(ref) => [ref]
    case None => []
  }

  predicate Rebases(v: Json) {
    exists key :: key in {KId, KDynamicRef, KRecursiveRef} && Has(v, key) && Member(v, key).value.Str?
  }

  function OwnRebase(v: Json): seq<bool> {
    if Rebases(v) then [true] else []
  }

  lemma ChildrenDescend()
    ensures Descends(Children) && Descends(SameInstance)
  {
  }

  /** Every ref in a document, wherever it stands, in the order the walk meets them. */
  ghost function Sites(v: Json): seq<string> {
    ChildrenDescend();
    Gather(Children, OwnRef, v)
  }

  /** The refs a schema applies to the very instance it is applied to itself. */
  ghost function SameRefs(s: Json): seq<string> {
    ChildrenDescend();
    Gather(SameInstance, OwnRef, s)
  }

  /** Nothing in the document re-bases refs. */
  ghost predicate NeverRebases(v: Json) {
    ChildrenDescend();
    Gather(Children, OwnRebase, v) == []
  }

  /** `_collect_ref_sites`: no list when some `$id` or dynamic ref would re-base others. */
  method CollectRefSites(document: Json) returns (r: Option<seq<string>>)
    ensures r.Some? <==> NeverRebases(document)
    ensures r.Some? ==> r.value == Sites(document)
  {
    hide Gather, Rebases, RefOf, Children;
    ChildrenDescend();
    var sites: seq<string> := [];
    var stack := [document];
    OnStack(document);
    while |stack| > 0
      invariant sites + GatherStack(Children, OwnRef, stack) == Sites(document)
      invariant GatherStack(Children, OwnRebase, stack) == Gather(Children, OwnRebase, document)
      decreases StackSize(Children, stack)
    {
      PopPush(Children, OwnRef, stack);
      PopPush(Children, OwnRebase, stack);
      PopPushShrinks(Children, stack);
      var v := stack[|stack| - 1];
      stack := stack[..|stack| - 1];
      if Rebases(v) {
        assert OwnRebase(v) == [true];
        return None;
      }
      sites := sites + OwnRef(v);
      stack := stack + Children(v);
    }
    r := Some(sites);
  }

  lemma OnStack(v: Json)
    ensures Descends(Children) && Descends(SameInstance)
    ensures GatherStack(Children, OwnRef, [v]) == Gather(Children, OwnRef, v)
    ensures GatherStack(Children, OwnRebase, [v]) == Gather(Children, OwnRebase, v)
    ensures GatherStack(SameInstance, OwnRef, [v]) == Gather(SameInstance, OwnRef, v)
  {
    ChildrenDescend();
    assert [v][..0] == [];
  }

  /** `_same_instance_refs`, before its refs are read as pointers. */
  method SameInstanceRefs(schema: Json) returns (found: seq<string>)
    ensures found == SameRefs(schema)
  {
    hide Gather, RefOf, SameInstance;
    found := [];
    var stack := [schema];
    OnStack(schema);
    while |stack| > 0
      invariant Descends(SameInstance)
      invariant found + GatherStack(SameInstance, OwnRef, stack) == SameRefs(schema)
      decreases StackSize(SameInstance, stack)
    {
      PopPush(SameInstance, OwnRef, stack);
      PopPushShrinks(SameInstance, stack);
      var node := stack[|stack| - 1];
      stack := stack[..|stack| - 1];
      found := found + OwnRef(node);
      stack := stack + SameInstance(node);
    }
  }

  // ------------------------------------------------------------ the check

  /** Every ref is local and leads to an object. */
  ghost predicate Resolvable(unquote: Unquote, document: Json) {
    forall i :: 0 <= i < |Sites(document)| ==> Leads(unquote, document, Sites(document)[i])
  }

  predicate Leads(unquote: Unquote, document: Json, ref: string) {
    var target := Resolve(unquote, document, ref);
    target.Some? && target.value.Obj?
  }

  function PointerOr(unquote: Unquote, ref: string): Pointer {
    match PointerOf(unquote, ref)
    case Some(p) => p
    case None => []
  }

  function PointersOf(unquote: Unquote, refs: seq<string>): seq<Pointer> {
    seq(|refs|, i requires 0 <= i < |refs| => PointerOr(unquote, refs[i]))
  }

  ghost function TargetsOf(unquote: Unquote, document: Json, refs: seq<string>): map<Pointer, Json>
    requires forall i :: 0 <= i < |refs| ==> Leads(unquote, document, refs[i])
  {
    map p | p in PointersOf(unquote, refs) && Walk(document, p).Some? :: Walk(document, p).value
  }

  /** The same-instance ref graph of a document, over the pointers its refs name. */
  ghost function EdgesOf(unquote: Unquote, document: Json): Graph<Pointer>
    requires Resolvable(unquote, document)
  {
    var targets := TargetsOf(unquote, document, Sites(document));
    map p | p in targets :: PointersOf(unquote, SameRefs(targets[p]))
  }

  datatype Verdict = Refused | Checked(expansion: map<Pointer, nat>)

  /** What passing the check means for a document. */
  ghost predicate IsChecked(unquote: Unquote, document: Json) {
    NeverRebases(document) && Resolvable(unquote, document) && Bounded(EdgesOf(unquote, document))
  }

  /** `check_refs` refuses exactly the documents that re-base refs, hold a ref that is not
      local or names no object, or whose refs go round or unfold too far. */
  method CheckRefs(unquote: Unquote, document: Json) returns (r: Verdict)
    ensures r.Checked? <==> IsChecked(unquote, document)
    ensures r.Checked? ==> IsExpansion(EdgesOf(unquote, document), r.expansion)
  {
    hide Sites, NeverRebases, Bounded, Leads, IsExpansion, TargetsOf;
    var collected := CollectRefSites(document);
    if collected.None? {
      return Refused;
    }
    var targets := ResolveTargets(unquote, document, collected.value);
    if targets.None? {
      return Refused;
    }
    var edges := SameInstanceEdges(unquote, targets.value);
    assert edges == EdgesOf(unquote, document);
    var outcome := CheckCycles(edges);
    if outcome.Accepted? {
      return Checked(outcome.expansion);
    }
    return Refused;
  }

  method ResolveTargets(unquote: Unquote, document: Json, sites: seq<string>) returns (r: Option<map<Pointer, Json>>)
    ensures r.Some? <==> forall i :: 0 <= i < |sites| ==> Leads(unquote, document, sites[i])
    ensures r.Some? ==> r.value == TargetsOf(unquote, document, sites)
  {
    hide Resolve, PointerOr, TargetsOf;
    var targets: map<Pointer, Json> := map[];
    NoTargets(unquote, document);
    for n := 0 to |sites|
      invariant forall i :: 0 <= i < n ==> Leads(unquote, document, sites[i])
      invariant targets == TargetsOf(unquote, document, sites[..n])
    {
      if !Leads(unquote, document, sites[n]) {
        return None;
      }
      var pointer := PointerOr(unquote, sites[n]);
      AddTarget(unquote, document, sites[..n], sites[n]);
      assert sites[..n + 1] == sites[..n] + [sites[n]];
      if pointer !in targets {
        targets := targets[pointer := Resolve(unquote, document, sites[n]).value];
      } else {
        SameTarget(unquote, document, sites[..n], sites[n]);
      }
    }
    assert sites[..|sites|] == sites;
    r := Some(targets);
  }

  lemma NoTargets(unquote: Unquote, document: Json)
    ensures TargetsOf(unquote, document, []) == map[]
  {
  }

  /** Two refs with one pointer lead to one target. */
  lemma SameTarget(unquote: Unquote, document: Json, refs: seq<string>, ref: string)
    requires forall i :: 0 <= i < |refs| ==> Leads(unquote, document, refs[i])
    requires Leads(unquote, document, ref) && PointerOr(unquote, ref) in TargetsOf(unquote, document, refs)
    ensures TargetsOf(unquote, document, refs)[PointerOr(unquote, ref)] == Resolve(unquote, document, ref).value
  {
  }

  method SameInstanceEdges(unquote: Unquote, targets: map<Pointer, Json>) returns (edges: Graph<Pointer>)
    ensures edges == map p | p in targets :: PointersOf(unquote, SameRefs(targets[p]))
  {
    hide SameRefs, PointersOf;
    edges := map[];
    var rest := targets.Keys;
    while rest != {}
      invariant rest <= targets.Keys && edges.Keys == targets.Keys - rest
      invariant forall p :: p in edges ==> edges[p] == PointersOf(unquote, SameRefs(targets[p]))
    {
      var p :| p in rest;
      rest := rest - {p};
      var found := SameInstanceRefs(targets[p]);
      edges := edges[p := PointersOf(unquote, found)];
    }
  }

  lemma AddTarget(unquote: Unquote, document: Json, refs: seq<string>, ref: string)
    requires forall i :: 0 <= i < |refs| ==> Leads(unquote, document, refs[i])
    requires Leads(unquote, document, ref)
    ensures TargetsOf(unquote, document, refs + [ref]) ==
            TargetsOf(unquote, document, refs)[PointerOr(unquote, ref) := Resolve(unquote, document, ref).value]
  {
    var p := PointerOr(unquote, ref);
    assert PointersOf(unquote, refs + [ref]) == PointersOf(unquote, refs) + [p];
    assert Walk(document, p) == Resolve(unquote, document, ref);
  }
}
