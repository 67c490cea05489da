/** A server's record: its choices, when they can be served, and accepting a spec revision. */
module Revisions {
  import opened JsonValues
  import opened Mapping
  import opened Splitting

  /** A spec as loaded. Its hash identifies it; `ops` is every operation it lists. */
  datatype Snapshot = Snapshot(sha: string, ops: seq<Operation>)

  datatype OverrideRef = OverrideRef(key: OperationKey, change: Override)

  /** `settings` stands for credentials, name and description; `tools` is what discovery
      last wrote. */
  datatype Record = Record(
    baseUrl: string, snapshot: Option<Snapshot>, pending: Option<Snapshot>,
    selection: seq<OperationKey>, overrides: seq<OverrideRef>, probe: Option<OperationKey>,
    settings: nat, tools: seq<Tool>)

  /** An operation listed under a key already listed is one the hub does not call: only
      custom methods can repeat a key. */
  ghost predicate WellListed(s: Snapshot) {
    forall i, j :: 0 <= i < j < |s.ops| && s.ops[i].key == s.ops[j].key ==> !s.ops[j].supported
  }

  // ------------------------------------------------------------ choices

  function SelectionSet(r: Record): set<OperationKey> {
    set k | k in r.selection
  }

  /** A dictionary built from the list: the last entry for a key wins. */
  function OverrideMap(refs: seq<OverrideRef>): map<OperationKey, Override> {
    if |refs| == 0 then map[]
    else OverrideMap(refs[..|refs| - 1])[refs[|refs| - 1].key := refs[|refs| - 1].change]
  }

  function OpsOf(r: Record): seq<Operation> {
    if r.snapshot.Some? then r.snapshot.value.ops else []
  }

  /** `openapi_tools`. */
  function RecordTools(r: Record): Built {
    if r.snapshot.None? then Tools([])
    else Outcome(OpsOf(r), OverrideMap(r.overrides), SelectionSet(r))
  }

  /** The entry a dictionary of mapped operations holds for a key: the last one. */
  function LastOf(ops: seq<Operation>, key: OperationKey): Option<Operation> {
    if |ops| == 0 then None
    else if ops[|ops| - 1].key == key then Some(ops[|ops| - 1])
    else LastOf(ops[..|ops| - 1], key)
  }

  predicate Contains(s: string, t: string) {
    t <= s || (|s| > 0 && Contains(s[1..], t))
  }

  predicate IsPlainPath(path: string) {
    && |path| > 0 && path[0] == '/'
    && (forall i :: 0 <= i < |path| ==> path[i] != '?' && path[i] != '#')
    && !Contains(path + "/", "/../") && !Contains(path + "/", "/./")
  }

  /** `health_probe_problem` finds something. */
  predicate ProbeProblem(ops: seq<Operation>, probe: OperationKey) {
    || probe.verb != "GET"
    || !IsPlainPath(probe.path)
    || (match LastOf(ops, probe)
        case None => true
        case Some(op) => !op.supported || op.needsArguments)
  }

  /** Everything `check_choices` objects to. */
  function ChoiceProblems(r: Record): seq<Problem> {
    (if r.baseUrl == "" && (r.selection != [] || r.probe.Some?) then [NoBaseUrl] else []) +
    (match RecordTools(r) case Tools(_) => [] case Failed(problems) => problems) +
    (if r.probe.Some? && ProbeProblem(OpsOf(r), r.probe.value) then [BadProbe] else [])
  }

  predicate Passes(r: Record) {
    ChoiceProblems(r) == []
  }

  method CheckChoices(r: Record) returns (problems: seq<Problem>)
    ensures problems == ChoiceProblems(r)
  {
    hide Outcome, ProbeProblem, OverrideMap;
    problems := [];
    if r.baseUrl == "" && (r.selection != [] || r.probe.Some?) {
      problems := problems + [NoBaseUrl];
    }
    if r.snapshot.Some? {
      var built := BuildTools(OpsOf(r), OverrideMap(r.overrides), SelectionSet(r));
      if built.Failed? {
        problems := problems + built.problems;
      }
    }
    if r.probe.Some? && ProbeProblem(OpsOf(r), r.probe.value) {
      problems := problems + [BadProbe];
    }
  }

  /** What a record that passes promises, without going through the mapping. */
  lemma PassesIff(r: Record)
    ensures Passes(r) <==>
            && (r.baseUrl == "" ==> r.selection == [] && r.probe.None?)
            && Servable(OpsOf(r), OverrideMap(r.overrides), SelectionSet(r))
            && (r.probe.Some? ==> !ProbeProblem(OpsOf(r), r.probe.value))
  {
    hide Outcome, Servable, ProbeProblem;
    BuiltIffServable(OpsOf(r), OverrideMap(r.overrides), SelectionSet(r));
    if r.snapshot.None? {
      NothingToServe(OverrideMap(r.overrides), SelectionSet(r));
    } else {
      FailedHasProblems(OpsOf(r), OverrideMap(r.overrides), SelectionSet(r));
    }
  }

  lemma NothingToServe(overrides: map<OperationKey, Override>, selection: set<OperationKey>)
    ensures Servable([], overrides, selection)
  {
  }

  lemma FailedHasProblems(ops: seq<Operation>, overrides: map<OperationKey, Override>, selection: set<OperationKey>)
    ensures Outcome(ops, overrides, selection).Failed? ==> Outcome(ops, overrides, selection).problems != []
  {
    hide Chosen, Conflicts, OwnProblems, ConflictProblems;
  }

  // ------------------------------------------------------------ accepting a revision

  /** The pending spec still has a tool for this key. */
  predicate StillServable(ops: seq<Operation>, key: OperationKey) {
    match LastOf(ops, key)
    case Some(op) => op.supported
    case None => false
  }

  function KeepKeys(keys: seq<OperationKey>, ops: seq<Operation>, kept: bool): (r: seq<OperationKey>)
    ensures forall k :: k in r <==> k in keys && StillServable(ops, k) == kept
  {
    if |keys| == 0 then []
    else
      assert keys == [keys[0]] + keys[1..];
      (if StillServable(ops, keys[0]) == kept then [keys[0]] else []) + KeepKeys(keys[1..], ops, kept)
  }

  function KeepOverrides(refs: seq<OverrideRef>, ops: seq<Operation>, kept: bool): (r: seq<OverrideRef>)
    ensures forall o :: o in r <==> o in refs && StillServable(ops, o.key) == kept
  {
    if |refs| == 0 then []
    else
      assert refs == [refs[0]] + refs[1..];
      (if StillServable(ops, refs[0].key) == kept then [refs[0]] else []) + KeepOverrides(refs[1..], ops, kept)
  }

  datatype Report = Report(selection: seq<OperationKey>, overrides: seq<OverrideRef>, probe: Option<OperationKey>)

  /** `_carried`: every choice that still has a tool in the pending spec, and what is dropped. */
  function Carried(r: Record): (Record, Report)
    requires r.pending.Some?
  {
    var ops := r.pending.value.ops;
    var dropProbe := r.probe.Some? && ProbeProblem(ops, r.probe.value);
    (r.(snapshot := r.pending, pending := None,
        selection := KeepKeys(r.selection, ops, true),
        overrides := KeepOverrides(r.overrides, ops, true),
        probe := if dropProbe then None else r.probe),
     Report(KeepKeys(r.selection, ops, false), KeepOverrides(r.overrides, ops, false),
            if dropProbe then r.probe else None))
  }

  datatype Acceptance = Accepted(record: Record, report: Report) | NotAccepted(problems: seq<Problem>)

  function AcceptRevision(r: Record): Acceptance
    requires r.pending.Some? && r.snapshot.Some?
  {
    var (candidate, report) := Carried(r);
    if Passes(candidate) then Accepted(candidate, report) else NotAccepted(ChoiceProblems(candidate))
  }

  datatype Diff = Diff(orphans: Report, problems: seq<Problem>)

  /** The parts of `diff_revision` that say what accepting would do. */
  function DiffRevision(r: Record): Diff
    requires r.pending.Some? && r.snapshot.Some?
  {
    Diff(Carried(r).1,
         match AcceptRevision(r)
         case Accepted(_, _) => []
         case NotAccepted(problems) => problems)
  }

  lemma {:induction false} LastOfFound(ops: seq<Operation>, key: OperationKey)
    ensures LastOf(ops, key).None? <==> forall i :: 0 <= i < |ops| ==> ops[i].key != key
    ensures LastOf(ops, key).Some? ==>
              exists i :: 0 <= i < |ops| && ops[i] == LastOf(ops, key).value && ops[i].key == key &&
                (forall j :: i < j < |ops| ==> ops[j].key != key)
    decreases |ops|
  {
    if |ops| > 0 {
      var last := |ops| - 1;
      LastOfFound(ops[..last], key);
      assert forall i :: 0 <= i < last ==> ops[..last][i] == ops[i];
    }
  }

  /** A key that still has a tool names one operation, and that one is supported. */
  lemma StillServableIsSupported(s: Snapshot, op: Operation)
    requires WellListed(s) && op in s.ops && StillServable(s.ops, op.key)
    ensures op.supported
  {
    LastOfFound(s.ops, op.key);
    var i :| 0 <= i < |s.ops| && s.ops[i] == LastOf(s.ops, op.key).value && s.ops[i].key == op.key &&
      (forall j :: i < j < |s.ops| ==> s.ops[j].key != op.key);
    var k :| 0 <= k < |s.ops| && s.ops[k] == op;
  }

  /** The spec offers a tool under this key: the operation it lists last under it is supported. */
  ghost predicate Offers(ops: seq<Operation>, key: OperationKey) {
    exists i :: 0 <= i < |ops| && ops[i].key == key && ops[i].supported &&
      (forall j :: i < j < |ops| ==> ops[j].key != key)
  }

  lemma OffersIff(ops: seq<Operation>, key: OperationKey)
    ensures StillServable(ops, key) <==> Offers(ops, key)
  {
    hide LastOf;
    LastOfFound(ops, key);
    if Offers(ops, key) {
      var i :| 0 <= i < |ops| && ops[i].key == key && ops[i].supported &&
        (forall j :: i < j < |ops| ==> ops[j].key != key);
      var k :| 0 <= k < |ops| && ops[k] == LastOf(ops, key).value && ops[k].key == key &&
        (forall j :: k < j < |ops| ==> ops[j].key != key);
      assert i == k;
    }
  }

  /** The operation a probe names can be called as it is: a GET on a plain path that the spec
      offers and that needs no arguments. */
  ghost predicate Probes(ops: seq<Operation>, probe: OperationKey) {
    && probe.verb == "GET" && IsPlainPath(probe.path)
    && exists i ::
         && 0 <= i < |ops| && ops[i].key == probe && ops[i].supported && !ops[i].needsArguments
         && forall j :: i < j < |ops| ==> ops[j].key != probe
  }

  lemma ProbesIff(ops: seq<Operation>, probe: OperationKey)
    ensures !ProbeProblem(ops, probe) <==> Probes(ops, probe)
  {
    hide LastOf, IsPlainPath;
    LastOfFound(ops, probe);
    if Probes(ops, probe) {
      var i :| 0 <= i < |ops| && ops[i].key == probe && ops[i].supported && !ops[i].needsArguments &&
        forall j :: i < j < |ops| ==> ops[j].key != probe;
      var k :| 0 <= k < |ops| && ops[k] == LastOf(ops, probe).value && ops[k].key == probe &&
        (forall j :: k < j < |ops| ==> ops[j].key != probe);
      assert i == k;
    }
  }

  // ------------------------------------------------------------ plain paths

  lemma {:induction false} ContainsAt(s: string, t: string)
    ensures Contains(s, t) <==> exists i :: 0 <= i <= |s| && t <= s[i..]
    decreases |s|
  {
    assert s[0..] == s;
    if t <= s {
      assert t <= s[0..];
    } else if |s| > 0 {
      ContainsAt(s[1..], t);
      if i :| 0 <= i <= |s[1..]| && t <= s[1..][i..] {
        assert s[1..][i..] == s[i + 1..];
      }
      if i :| 0 <= i <= |s| && t <= s[i..] {
        assert i > 0 && s[1..][i - 1..] == s[i..];
      }
    }
  }

  /** The segment stands between slashes at `i`. */
  predicate SlashedAt(s: string, i: int, segment: string) {
    && 0 <= i && i + |segment| + 1 < |s|
    && s[i] == '/' && s[i + |segment| + 1] == '/' && s[i + 1..i + |segment| + 1] == segment
  }

  lemma SlashedIff(s: string, segment: string)
    ensures Contains(s, "/" + segment + "/") <==> exists i :: SlashedAt(s, i, segment)
  {
    var target := "/" + segment + "/";
    ContainsAt(s, target);
    if i :| 0 <= i <= |s| && target <= s[i..] {
      assert s[i..][..|target|] == target;
      assert s[i + 1..i + |segment| + 1] == s[i..][1..|segment| + 1] == target[1..|segment| + 1] == segment;
      assert SlashedAt(s, i, segment);
    }
    if i :| SlashedAt(s, i, segment) {
      assert s[i..i + |target|] == target;
      assert target <= s[i..];
    }
  }

  /** A segment between slashes is the first one, or between slashes later on. */
  lemma SlashMatch(current: string, tail: string, segment: string)
    requires '/' !in current && '/' !in segment
    ensures var target := "/" + segment + "/";
            Contains("/" + current + "/" + tail, target) <==> current == segment || Contains("/" + tail, target)
  {
    var s, rest := "/" + current + "/" + tail, "/" + tail;
    var n := |current| + 1;
    SlashedIff(s, segment);
    SlashedIff(rest, segment);
    assert s[n..] == rest && s[1..n] == current && s[0] == '/';
    hide Contains;
    if current == segment {
      assert SlashedAt(s, 0, segment);
    }
    if i :| SlashedAt(rest, i, segment) {
      assert s[n..][i + 1..i + |segment| + 1] == s[n + i + 1..n + i + |segment| + 1];
      assert SlashedAt(s, n + i, segment);
    }
    if i :| SlashedAt(s, i, segment) {
      FirstOrLater(s, current, rest, i, segment);
    }
  }

  lemma FirstOrLater(s: string, current: string, rest: string, i: int, segment: string)
    requires '/' !in current && '/' !in segment && |s| == |current| + 1 + |rest| && s[0] == '/'
    requires s[1..|current| + 1] == current && s[|current| + 1..] == rest && |rest| > 0 && rest[0] == '/'
    requires SlashedAt(s, i, segment)
    ensures current == segment || SlashedAt(rest, i - |current| - 1, segment)
  {
    var n, m := |current| + 1, |segment| + 1;
    assert forall k :: 1 <= k < n ==> s[k] == current[k - 1];
    assert s[i + 1..i + m] == segment;
    assert forall k :: i + 1 <= k < i + m ==> s[k] == s[i + 1..i + m][k - i - 1];
    if i >= n {
      assert rest[i - n + 1..i - n + m] == s[i + 1..i + m];
      assert forall k :: 0 <= k < |rest| ==> rest[k] == s[n + k];
    } else {
      assert s[n] == rest[0];
      assert i == 0 && m == n;
    }
  }

  lemma {:induction false} SegmentFound(current: string, s: string, segment: string)
    requires '/' !in current && '/' !in segment
    ensures segment in SplitFrom(current, s, '/') <==> Contains("/" + current + s + "/", "/" + segment + "/")
    decreases |s|
  {
    var target := "/" + segment + "/";
    if |s| == 0 {
      assert "/" + current + s + "/" == "/" + current + "/" + "";
      SlashMatch(current, "", segment);
      ContainsAt("/" + "", target);
    } else if s[0] == '/' {
      var rest := s[1..];
      assert "/" + current + s + "/" == "/" + current + "/" + (rest + "/");
      assert "/" + (rest + "/") == "/" + "" + rest + "/";
      SlashMatch(current, rest + "/", segment);
      SegmentFound("", rest, segment);
    } else {
      assert "/" + current + s + "/" == "/" + (current + [s[0]]) + s[1..] + "/";
      SegmentFound(current + [s[0]], s[1..], segment);
    }
  }

  /** A probe's path is plain exactly when it starts with a slash, brings no query and no
      fragment, and has no segment `.` or `..`. */
  lemma PlainPathIff(path: string)
    ensures IsPlainPath(path) <==>
            "/" <= path && '?' !in path && '#' !in path &&
            "." !in Split(path, '/') && ".." !in Split(path, '/')
  {
    if "/" <= path {
      var rest := path[1..];
      assert path[0] == "/"[0];
      assert Split(path, '/') == [""] + SplitFrom("", rest, '/');
      assert "/" + "" + rest + "/" == path + "/";
      assert "/" + "." + "/" == "/./" && "/" + ".." + "/" == "/../";
      SegmentFound("", rest, ".");
      SegmentFound("", rest, "..");
    }
  }

  /** Problems that an override of a tool's name can fix. */
  predicate AboutNames(p: Problem) {
    p.BadName? || p.Conflict?
  }

  lemma {:induction false} OwnProblemsAboutNames(ms: seq<Mapped>)
    requires forall i :: 0 <= i < |ms| ==> ms[i].tool.Some?
    ensures forall p :: p in OwnProblems(ms) ==> AboutNames(p)
    decreases |ms|
  {
    if |ms| > 0 {
      OwnProblemsAboutNames(ms[..|ms| - 1]);
    }
  }

  lemma {:induction false} ConflictProblemsAboutNames(ms: seq<Mapped>)
    ensures forall p :: p in ConflictProblems(ms) ==> AboutNames(p)
    decreases |ms|
  {
    if |ms| > 0 {
      ConflictProblemsAboutNames(ms[..|ms| - 1]);
    }
  }

  lemma OnlyNamesFail(ops: seq<Operation>, overrides: map<OperationKey, Override>, selection: set<OperationKey>)
    requires forall op :: op in ops && op.key in selection ==> op.supported
    ensures Outcome(ops, overrides, selection).Failed? ==>
              forall p :: p in Outcome(ops, overrides, selection).problems ==> AboutNames(p)
  {
    hide Chosen, Conflicts, OwnProblems, ConflictProblems, WithTools, Picked, ToolName, NameProblem;
    var chosen := Chosen(ops, overrides, selection);
    ChosenMatches(ops, overrides, selection);
    var picked := Picked(ops, selection);
    forall i | 0 <= i < |chosen|
      ensures chosen[i].tool.Some?
    {
      assert picked[i] in picked;
      assert MatchesOp(chosen[i], picked[i], overrides);
    }
    OwnProblemsAboutNames(chosen);
    ConflictProblemsAboutNames(Conflicts(WithTools(chosen)));
  }

  /** `all` is `xs` and `ys` shuffled together, each in its own order. */
  ghost predicate Interleaved<T>(xs: seq<T>, ys: seq<T>, all: seq<T>)
    decreases |all|
  {
    if |all| == 0 then xs == [] && ys == []
    else
      || (|xs| > 0 && xs[0] == all[0] && Interleaved(xs[1..], ys, all[1..]))
      || (|ys| > 0 && ys[0] == all[0] && Interleaved(xs, ys[1..], all[1..]))
  }

  /** Kept and dropped together are the old selection, each in its old order. */
  lemma {:induction false} KeptPlusDropped(keys: seq<OperationKey>, ops: seq<Operation>)
    ensures Interleaved(KeepKeys(keys, ops, true), KeepKeys(keys, ops, false), keys)
  {
    hide StillServable;
    if |keys| > 0 {
      KeptPlusDropped(keys[1..], ops);
      var kept, dropped := KeepKeys(keys[1..], ops, true), KeepKeys(keys[1..], ops, false);
      assert ([keys[0]] + kept)[1..] == kept && ([keys[0]] + dropped)[1..] == dropped;
      assert [] + kept == kept && [] + dropped == dropped;
    }
  }

  /** The same of the overrides. */
  lemma {:induction false} OverridesInterleave(refs: seq<OverrideRef>, ops: seq<Operation>)
    ensures Interleaved(KeepOverrides(refs, ops, true), KeepOverrides(refs, ops, false), refs)
  {
    hide StillServable;
    if |refs| > 0 {
      OverridesInterleave(refs[1..], ops);
      var kept, dropped := KeepOverrides(refs[1..], ops, true), KeepOverrides(refs[1..], ops, false);
      assert ([refs[0]] + kept)[1..] == kept && ([refs[0]] + dropped)[1..] == dropped;
      assert [] + kept == kept && [] + dropped == dropped;
    }
  }

  /** `to` and `report` are what accepting makes of `from`: every choice the pending spec still
      offers a tool for is kept, every other is reported, and nothing else changes but the spec. */
  ghost predicate Carries(from: Record, to: Record, report: Report)
    requires from.pending.Some?
  {
    var ops := from.pending.value.ops;
    && to.snapshot == from.pending && to.pending == None
    && to.baseUrl == from.baseUrl && to.settings == from.settings && to.tools == from.tools
    && (forall k :: k in to.selection <==> k in from.selection && Offers(ops, k))
    && (forall k :: k in report.selection <==> k in from.selection && !Offers(ops, k))
    && Interleaved(to.selection, report.selection, from.selection)
    && (forall o :: o in to.overrides <==> o in from.overrides && Offers(ops, o.key))
    && (forall o :: o in report.overrides <==> o in from.overrides && !Offers(ops, o.key))
    && Interleaved(to.overrides, report.overrides, from.overrides)
    && (if from.probe.Some? && !Probes(ops, from.probe.value)
        then to.probe == None && report.probe == from.probe
        else to.probe == from.probe && report.probe == None)
  }

  lemma CarriedCarries(r: Record)
    requires r.pending.Some?
    ensures Carries(r, Carried(r).0, Carried(r).1)
  {
    hide StillServable, ProbeProblem, Offers, Probes, KeepKeys, KeepOverrides, Interleaved;
    var ops := r.pending.value.ops;
    forall k ensures StillServable(ops, k) <==> Offers(ops, k) {
      OffersIff(ops, k);
    }
    if r.probe.Some? {
      ProbesIff(ops, r.probe.value);
    }
    KeptPlusDropped(r.selection, ops);
    OverridesInterleave(r.overrides, ops);
  }

  /** Accepting keeps exactly the choices that still have a tool, of all three kinds, fails only
      over tool names, and on success leaves a record that passes. */
  lemma AcceptExact(r: Record)
    requires r.pending.Some? && r.snapshot.Some? && WellListed(r.pending.value) && Passes(r)
    ensures var a := AcceptRevision(r);
            && (a.Accepted? ==> Passes(a.record) && Carries(r, a.record, a.report))
            && (a.NotAccepted? ==> a.problems != [] && forall p :: p in a.problems ==> AboutNames(p))
  {
    hide Outcome, Servable, ProbeProblem, StillServable, KeepOverrides, OverrideMap, Carries;
    CarriedCarries(r);
    PassesIff(r);
    var (candidate, report) := Carried(r);
    var s := r.pending.value;
    assert candidate.selection != [] ==> r.selection != [] by {
      if candidate.selection != [] {
        assert candidate.selection[0] in r.selection;
      }
    }
    forall op | op in s.ops && op.key in SelectionSet(candidate)
      ensures op.supported
    {
      StillServableIsSupported(s, op);
    }
    OnlyNamesFail(s.ops, OverrideMap(candidate.overrides), SelectionSet(candidate));
  }

  /** The diff says there is no problem exactly when accepting succeeds, and names the same
      choices as dropped. */
  lemma DiffForetellsAccept(r: Record)
    requires r.pending.Some? && r.snapshot.Some? && WellListed(r.pending.value) && Passes(r)
    ensures DiffRevision(r).problems == [] <==> AcceptRevision(r).Accepted?
    ensures AcceptRevision(r).Accepted? ==> DiffRevision(r).orphans == AcceptRevision(r).report
  {
    AcceptExact(r);
  }
}
