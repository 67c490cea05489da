/** One OpenAPI server's record under every interleaving of locked changes (imports, tool
    choices, settings, accepting and rejecting revisions) with unlocked discovery. */
module Lifecycle {
  import opened JsonValues
  import opened Mapping
  import opened Revisions

  // ------------------------------------------------------------ requests

  /** A field a client left out, or sent (null and empty are sent). */
  datatype Sent<T> = Omitted | Sent(value: T)

  datatype Choices = Choices(selection: Sent<seq<OperationKey>>, overrides: Sent<seq<OverrideRef>>,
                             probe: Sent<Option<OperationKey>>)

  datatype Request =
    | Import(snapshot: Snapshot, baseUrl: string, settings: nat, choices: Choices)
    | PutTools(choices: Choices)
    | PatchSettings(baseUrl: string, settings: nat)
    | Accept(sha: string)
    | Reject(sha: string)

  function Or<T>(sent: Sent<T>, stored: T): T {
    match sent
    case Sent(value) => value
    case Omitted => stored
  }

  function ApplyChoices(r: Record, c: Choices): Record {
    r.(selection := Or(c.selection, r.selection), overrides := Or(c.overrides, r.overrides),
       probe := Or(c.probe, r.probe))
  }

  /** An empty base URL keeps the stored one. */
  function ApplySettings(r: Record, baseUrl: string, settings: nat): Record {
    r.(baseUrl := if baseUrl == "" then r.baseUrl else baseUrl, settings := settings)
  }

  function NewServer(req: Request): Record
    requires req.Import?
  {
    Record(req.baseUrl, Some(req.snapshot), None, Or(req.choices.selection, []), Or(req.choices.overrides, []),
           Or(req.choices.probe, None), req.settings, [])
  }

  /** `_updated_server`: a spec with another hash waits as the pending revision. */
  function UpdatedServer(existing: Record, req: Request): Record
    requires req.Import?
  {
    var r := ApplyChoices(ApplySettings(existing, req.baseUrl, req.settings), req.choices);
    match existing.snapshot
    case None => r.(snapshot := Some(req.snapshot))
    case Some(accepted) =>
      if accepted.sha == req.snapshot.sha then r else r.(pending := Some(req.snapshot))
  }

  function Checked(r: Record): Option<Record> {
    if Passes(r) then Some(r) else None
  }

  predicate Reviewed(existing: Option<Record>, sha: string) {
    existing.Some? && existing.value.pending.Some? && existing.value.pending.value.sha == sha
  }

  /** What a locked section writes, given the record it read; nothing when it refuses. */
  function Decide(existing: Option<Record>, req: Request): Option<Record> {
    match req
    case Import(_, _, _, _) =>
      Checked(if existing.None? then NewServer(req) else UpdatedServer(existing.value, req))
    case PutTools(choices) =>
      if existing.None? then None else Checked(ApplyChoices(existing.value, choices))
    case PatchSettings(baseUrl, settings) =>
      if existing.None? then None else Checked(ApplySettings(existing.value, baseUrl, settings))
    case Accept(sha) =>
      if !Reviewed(existing, sha) || existing.value.snapshot.None? then None
      else (match AcceptRevision(existing.value)
            case Accepted(record, _) => Some(record)
            case NotAccepted(_) => None)
    case Reject(sha) =>
      if Reviewed(existing, sha) then Some(existing.value.(pending := None)) else None
  }

  /** The hash an admin approves by a request: the first import of a server, or an accept. */
  function Approves(existing: Option<Record>, req: Request): set<string> {
    match req
    case Import(snapshot, _, _, _) =>
      if existing.None? || existing.value.snapshot.None? then {snapshot.sha} else {}
    case Accept(sha) => {sha}
    case _ => {}
  }

  // ------------------------------------------------------------ the state machine

  /** Where the section that holds the server's lock stands. */
  datatype Holder = Free | Writing(record: Record, thenDiscover: bool) | Stored | Discovering(copy: Record)

  /** `background` holds the copies that unlocked discoveries have read and not yet written
      back; `approved` is every hash approved so far. */
  datatype State = State(store: Option<Record>, holder: Holder, background: map<nat, Record>, approved: set<string>)

  datatype Action =
    | Lock(req: Request)
    | Register
    | LockedRead
    | LockedWrite
    | BackgroundRead(task: nat)
    | BackgroundWrite(task: nat)
    | Delete

  const INIT := State(None, Free, map[], {})

  /** What `_discover_openapi` writes back for the copy it read. */
  function Discovered(copy: Record): Record {
    copy.(tools := match RecordTools(copy) case Tools(tools) => tools case Failed(_) => [])
  }

  /** An action that is not possible in a state leaves it alone. */
  function Step(s: State, a: Action): State {
    match a
    case Lock(req) =>
      if s.holder != Free then s
      else (match Decide(s.store, req)
            case None => s
            case Some(record) =>
              s.(holder := Writing(record, !req.Reject?), approved := s.approved + Approves(s.store, req)))
    case Register =>
      if !s.holder.Writing? then s
      else s.(store := Some(s.holder.record), holder := if s.holder.thenDiscover then Stored else Free)
    case LockedRead =>
      if s.holder != Stored then s
      else if s.store.None? then s.(holder := Free)
      else s.(holder := Discovering(s.store.value))
    case LockedWrite =>
      if !s.holder.Discovering? then s
      else s.(store := Some(Discovered(s.holder.copy)), holder := Free)
    case BackgroundRead(task) =>
      if s.store.None? then s else s.(background := s.background[task := s.store.value])
    case BackgroundWrite(task) =>
      if task !in s.background then s
      else s.(store := Some(Discovered(s.background[task])), background := s.background - {task})
    case Delete => s.(store := None)
  }

  function Run(s: State, actions: seq<Action>): State {
    if |actions| == 0 then s else Step(Run(s, actions[..|actions| - 1]), actions[|actions| - 1])
  }

  /** Imported specs list their operations as the mapping does. */
  ghost predicate Loadable(a: Action) {
    a.Lock? && a.req.Import? ==> WellListed(a.req.snapshot)
  }

  // ------------------------------------------------------------ what always holds

  /** The record can be served, from a spec that was approved. */
  ghost predicate Good(approved: set<string>, r: Record) {
    && Passes(r)
    && r.snapshot.Some? && r.snapshot.value.sha in approved && WellListed(r.snapshot.value)
    && (r.pending.Some? ==> WellListed(r.pending.value))
  }

  ghost predicate Inv(s: State) {
    && (s.store.Some? ==> Good(s.approved, s.store.value))
    && (s.holder.Writing? ==> Good(s.approved, s.holder.record))
    && (s.holder.Discovering? ==> Good(s.approved, s.holder.copy))
    && (forall task :: task in s.background ==> Good(s.approved, s.background[task]))
  }

  lemma DiscoveredGood(approved: set<string>, r: Record)
    requires Good(approved, r)
    ensures Good(approved, Discovered(r))
  {
    hide RecordTools, ProbeProblem, WellListed;
    assert RecordTools(Discovered(r)) == RecordTools(r) by { SameToolsEither(r); }
  }

  lemma SameToolsEither(r: Record)
    ensures RecordTools(Discovered(r)) == RecordTools(r)
  {
    hide Outcome;
  }

  lemma DecidedGood(approved: set<string>, existing: Option<Record>, req: Request)
    requires existing.Some? ==> Good(approved, existing.value)
    requires req.Import? ==> WellListed(req.snapshot)
    ensures Decide(existing, req).Some? ==> Good(approved + Approves(existing, req), Decide(existing, req).value)
  {
    hide ChoiceProblems, WellListed, AcceptRevision;
    match req
    case Accept(sha) =>
      if Reviewed(existing, sha) && existing.value.snapshot.Some? {
        AcceptExact(existing.value);
      }
    case Reject(sha) =>
      if Reviewed(existing, sha) {
        PendingIgnored(existing.value);
      }
    case _ =>
  }

  /** The choices are checked against the accepted spec alone. */
  lemma PendingIgnored(r: Record)
    ensures Passes(r.(pending := None)) == Passes(r)
  {
    hide Outcome, ProbeProblem;
  }

  lemma {:induction false} StepKeepsInv(s: State, a: Action)
    requires Inv(s) && Loadable(a)
    ensures Inv(Step(s, a)) && s.approved <= Step(s, a).approved
  {
    hide Passes, WellListed, Decide, Approves, Discovered;
    match a
    case Lock(req) =>
      DecidedGood(s.approved, s.store, req);
    case LockedWrite =>
      if s.holder.Discovering? { DiscoveredGood(s.approved, s.holder.copy); }
    case BackgroundWrite(task) =>
      if task in s.background { DiscoveredGood(s.approved, s.background[task]); }
    case _ =>
  }

  /** In every interleaving, every record stored or held can be served from an approved spec. */
  lemma {:induction false} AlwaysServable(actions: seq<Action>)
    requires forall i :: 0 <= i < |actions| ==> Loadable(actions[i])
    ensures Inv(Run(INIT, actions))
    decreases |actions|
  {
    hide Step, Loadable;
    if |actions| > 0 {
      AlwaysServable(actions[..|actions| - 1]);
      StepKeepsInv(Run(INIT, actions[..|actions| - 1]), actions[|actions| - 1]);
    } else {
      EmptyInv();
    }
  }

  lemma EmptyInv()
    ensures Inv(INIT)
  {
  }

  /** A request approved a hash at step `i` of the run. */
  ghost predicate ApprovedAt(actions: seq<Action>, i: nat, sha: string) {
    && i < |actions| && actions[i].Lock?
    && var before := Run(INIT, actions[..i]).store;
       && sha in Approves(before, actions[i].req)
       && Decide(before, actions[i].req).Some?
  }

  /** Nothing else approves a spec: every approved hash was the first import of a server, or
      was named by an admin in an accept that went through. */
  lemma {:induction false} ApprovalHasCause(actions: seq<Action>, sha: string)
    requires sha in Run(INIT, actions).approved
    ensures exists i: nat :: ApprovedAt(actions, i, sha)
    decreases |actions|
  {
    hide Step, ApprovedAt;
    if |actions| > 0 {
      var last := |actions| - 1;
      if sha in Run(INIT, actions[..last]).approved {
        ApprovalHasCause(actions[..last], sha);
        var i: nat :| ApprovedAt(actions[..last], i, sha);
        ApprovedEarlier(actions, last, i, sha);
      } else {
        ApprovedLast(actions, sha);
      }
    }
  }

  lemma ApprovedEarlier(actions: seq<Action>, n: nat, i: nat, sha: string)
    requires n <= |actions| && ApprovedAt(actions[..n], i, sha)
    ensures ApprovedAt(actions, i, sha)
  {
    hide Decide, Approves, Run;
    assert actions[..n][..i] == actions[..i];
  }

  lemma ApprovedLast(actions: seq<Action>, sha: string)
    requires |actions| > 0
    requires sha in Run(INIT, actions).approved && sha !in Run(INIT, actions[..|actions| - 1]).approved
    ensures ApprovedAt(actions, |actions| - 1, sha)
  {
    hide Decide, Approves, Discovered;
  }

  /** A re-import never replaces the accepted spec, and with another hash changes nothing of
      the spec but the pending slot. */
  lemma ReimportLeavesAccepted(existing: Record, req: Request)
    requires req.Import? && existing.snapshot.Some?
    ensures var r := UpdatedServer(existing, req);
            && r.snapshot == existing.snapshot
            && r.pending == (if existing.snapshot.value.sha == req.snapshot.sha then existing.pending
                             else Some(req.snapshot))
            && (req.choices == Choices(Omitted, Omitted, Omitted) ==>
                  r.selection == existing.selection && r.overrides == existing.overrides && r.probe == existing.probe)
  {
  }

  // ------------------------------------------------------------ what a section stores

  /** A choice as it was sent, or else as it was. */
  ghost predicate Taken<T(!new)>(sent: Sent<T>, before: T, after: T) {
    if sent.Sent? then after == sent.value else after == before
  }

  ghost predicate ChoicesTaken(c: Choices, before: Record, after: Record) {
    && Taken(c.selection, before.selection, after.selection)
    && Taken(c.overrides, before.overrides, after.overrides)
    && Taken(c.probe, before.probe, after.probe)
  }

  ghost predicate SettingsTaken(baseUrl: string, settings: nat, before: Record, after: Record) {
    && after.settings == settings
    && (baseUrl != "" ==> after.baseUrl == baseUrl) && (baseUrl == "" ==> after.baseUrl == before.baseUrl)
  }

  ghost predicate SameSpecs(before: Record, after: Record) {
    after.snapshot == before.snapshot && after.pending == before.pending
  }

  /** An imported spec is the accepted one of a server without any; another than the accepted
      one waits, and the accepted one itself changes nothing. */
  ghost predicate SpecTaken(snapshot: Snapshot, before: Record, after: Record) {
    match before.snapshot
    case None => after.snapshot == Some(snapshot) && after.pending == before.pending
    case Some(accepted) =>
      && after.snapshot == Some(accepted)
      && (accepted.sha != snapshot.sha ==> after.pending == Some(snapshot))
      && (accepted.sha == snapshot.sha ==> after.pending == before.pending)
  }

  ghost predicate CarriesOver(before: Record, after: Record) {
    before.pending.Some? && exists report :: Carries(before, after, report)
  }

  /** What a request makes of a server it changes. */
  ghost predicate Becomes(existing: Option<Record>, req: Request, after: Record) {
    match existing
    case None =>
      && req.Import?
      && SettingsTaken(req.baseUrl, req.settings, Record("", None, None, [], [], None, 0, []), after)
      && ChoicesTaken(req.choices, Record("", None, None, [], [], None, 0, []), after)
      && after.snapshot == Some(req.snapshot) && after.pending.None? && after.tools == []
    case Some(before) =>
      (match req
       case Import(snapshot, baseUrl, settings, choices) =>
         && SettingsTaken(baseUrl, settings, before, after) && ChoicesTaken(choices, before, after)
         && SpecTaken(snapshot, before, after) && after.tools == before.tools
       case PutTools(choices) =>
         && ChoicesTaken(choices, before, after) && SettingsTaken("", before.settings, before, after)
         && SameSpecs(before, after) && after.tools == before.tools
       case PatchSettings(baseUrl, settings) =>
         && SettingsTaken(baseUrl, settings, before, after)
         && ChoicesTaken(Choices(Omitted, Omitted, Omitted), before, after)
         && SameSpecs(before, after) && after.tools == before.tools
       case Accept(sha) =>
         && before.pending.Some? && before.pending.value.sha == sha && before.snapshot.Some?
         && CarriesOver(before, after)
       case Reject(sha) =>
         && before.pending.Some? && before.pending.value.sha == sha
         && after == before.(pending := None))
  }

  /** There is such a server and, for a revision, it waits under the hash the admin reviewed. */
  ghost predicate Applies(existing: Option<Record>, req: Request) {
    match req
    case Import(_, _, _, _) => true
    case Accept(sha) =>
      && existing.Some? && existing.value.pending.Some? && existing.value.pending.value.sha == sha
      && existing.value.snapshot.Some?
    case Reject(sha) =>
      existing.Some? && existing.value.pending.Some? && existing.value.pending.value.sha == sha
    case _ => existing.Some?
  }

  /** A locked section stores what the request asks for when that passes the checks, and leaves
      the store alone when it does not or the request does not apply. An accept may be refused
      only for problems the diff shows. */
  lemma SectionExact(s: State, req: Request)
    requires s.holder.Free? && (s.store.Some? ==> Good(s.approved, s.store.value))
    ensures var locked := Step(s, Lock(req));
            var after := Step(locked, Register);
            && (locked.holder.Writing? ==>
                  && Applies(s.store, req) && after.store.Some?
                  && Becomes(s.store, req, after.store.value) && Passes(after.store.value))
            && (!locked.holder.Writing? ==>
                  && after == s
                  && (Applies(s.store, req) ==>
                        && !req.Reject?
                        && (req.Accept? ==> DiffRevision(s.store.value).problems != [])
                        && (!req.Accept? ==> forall r :: Becomes(s.store, req, r) ==> !Passes(r))))
  {
    hide Passes, Carries, AcceptRevision, DiffRevision, WellListed;
    match req
    case Accept(sha) =>
      if Applies(s.store, req) {
        AcceptExact(s.store.value);
        DiffForetellsAccept(s.store.value);
        var a := AcceptRevision(s.store.value);
        assert a.Accepted? ==> Carries(s.store.value, a.record, a.report);
      }
    case Reject(sha) =>
      if s.store.Some? {
        PendingIgnored(s.store.value);
      }
    case _ =>
      forall r | Becomes(s.store, req, r)
        ensures Becoming(s.store, req, r)
      {
        OneBecoming(s.store, req, r);
      }
  }

  /** What a request makes of a server is one record. */
  ghost predicate Becoming(existing: Option<Record>, req: Request, r: Record) {
    Decide(existing, req) == Checked(r)
  }

  lemma OneBecoming(existing: Option<Record>, req: Request, r: Record)
    requires Becomes(existing, req, r) && !req.Accept? && !req.Reject?
    ensures Becoming(existing, req, r)
  {
    hide Passes;
  }

  // ------------------------------------------------------------ only an accept replaces a spec

  /** The spec of the first import that went through, if there was one. */
  ghost function FirstImported(actions: seq<Action>): Option<Snapshot> {
    if |actions| == 0 then None
    else
      var last := |actions| - 1;
      var before := Run(INIT, actions[..last]);
      if FirstImported(actions[..last]).Some? then FirstImported(actions[..last])
      else if ImportsNow(before, actions[last]) then Some(actions[last].req.snapshot)
      else None
  }

  /** Every record stored, being written or held by a discovery has this accepted spec. */
  ghost predicate AllHold(s: State, first: Option<Snapshot>) {
    && (s.store.Some? ==> first.Some? && s.store.value.snapshot == first)
    && (s.holder.Writing? ==> first.Some? && s.holder.record.snapshot == first)
    && (s.holder.Discovering? ==> first.Some? && s.holder.copy.snapshot == first)
    && (forall task :: task in s.background ==> first.Some? && s.background[task].snapshot == first)
    && (first.Some? ==> s.store.Some? || s.holder.Writing?)
  }

  predicate Replaces(a: Action) {
    a == Delete || (a.Lock? && a.req.Accept?)
  }

  /** An import that goes through. */
  ghost predicate ImportsNow(s: State, a: Action) {
    a.Lock? && a.req.Import? && s.holder == Free && Decide(s.store, a.req).Some?
  }

  lemma StepKeepsSpec(s: State, a: Action, first: Option<Snapshot>)
    requires AllHold(s, first) && !Replaces(a)
    ensures AllHold(Step(s, a), if first.None? && ImportsNow(s, a) then Some(a.req.snapshot) else first)
  {
    hide Passes, RecordTools, Approves;
  }

  /** Re-imports, tool choices, settings, rejections and discoveries, in any number and order,
      leave the first imported spec the accepted one everywhere. */
  lemma {:induction false} OnlyAcceptReplaces(actions: seq<Action>)
    requires forall i :: 0 <= i < |actions| ==> !Replaces(actions[i])
    ensures AllHold(Run(INIT, actions), FirstImported(actions))
    decreases |actions|
  {
    hide Step, Decide, AllHold;
    if |actions| == 0 {
      NothingHeld();
    } else {
      var last := |actions| - 1;
      OnlyAcceptReplaces(actions[..last]);
      StepKeepsSpec(Run(INIT, actions[..last]), actions[last], FirstImported(actions[..last]));
    }
  }

  lemma NothingHeld()
    ensures AllHold(INIT, None)
  {
  }

  // ------------------------------------------------------------ where specs come from

  /** Some import of the run brought this spec. */
  ghost predicate Imported(actions: seq<Action>, spec: Snapshot) {
    exists i :: 0 <= i < |actions| && actions[i].Lock? && actions[i].req.Import? && actions[i].req.snapshot == spec
  }

  /** Both specs of a record were imported, and the pending one has another hash. */
  ghost predicate SpecsImported(actions: seq<Action>, r: Record) {
    && (r.snapshot.Some? ==> Imported(actions, r.snapshot.value))
    && (r.pending.Some? ==>
          r.snapshot.Some? && Imported(actions, r.pending.value) && r.pending.value.sha != r.snapshot.value.sha)
  }

  ghost predicate AllImported(actions: seq<Action>, s: State) {
    && (s.store.Some? ==> SpecsImported(actions, s.store.value))
    && (s.holder.Writing? ==> SpecsImported(actions, s.holder.record))
    && (s.holder.Discovering? ==> SpecsImported(actions, s.holder.copy))
    && (forall task :: task in s.background ==> SpecsImported(actions, s.background[task]))
  }

  lemma ImportedMore(actions: seq<Action>, a: Action, r: Record)
    requires SpecsImported(actions, r)
    ensures SpecsImported(actions + [a], r)
  {
    forall spec | Imported(actions, spec)
      ensures Imported(actions + [a], spec)
    {
      var i :| 0 <= i < |actions| && actions[i].Lock? && actions[i].req.Import? && actions[i].req.snapshot == spec;
      assert (actions + [a])[i] == actions[i];
    }
  }

  lemma AllImportedMore(actions: seq<Action>, a: Action, s: State)
    requires AllImported(actions, s)
    ensures AllImported(actions + [a], s)
  {
    hide SpecsImported;
    forall r | SpecsImported(actions, r)
      ensures SpecsImported(actions + [a], r)
    {
      ImportedMore(actions, a, r);
    }
  }

  /** A decision takes its specs from the record it read and the request. */
  lemma DecidedSpecs(actions: seq<Action>, existing: Option<Record>, req: Request)
    requires existing.Some? ==> SpecsImported(actions, existing.value)
    requires req.Import? ==> Imported(actions, req.snapshot)
    ensures Decide(existing, req).Some? ==> SpecsImported(actions, Decide(existing, req).value)
  {
    hide Imported, Passes, KeepKeys, KeepOverrides, ProbeProblem;
  }

  lemma StepImported(actions: seq<Action>, s: State, a: Action)
    requires AllImported(actions, s) && (a.Lock? && a.req.Import? ==> Imported(actions, a.req.snapshot))
    ensures AllImported(actions, Step(s, a))
  {
    hide Imported, Decide, Approves, RecordTools;
    if a.Lock? {
      DecidedSpecs(actions, s.store, a.req);
    }
  }

  /** In every run, every accepted and every pending spec anywhere was brought by an import of
      that run, and no pending spec has the hash of the accepted one beside it. */
  lemma {:induction false} SpecsComeFromImports(actions: seq<Action>)
    ensures AllImported(actions, Run(INIT, actions))
    decreases |actions|
  {
    hide Step, AllImported, Imported;
    if |actions| == 0 {
      NothingImported();
    } else {
      var init, last := actions[..|actions| - 1], actions[|actions| - 1];
      assert actions == init + [last];
      SpecsComeFromImports(init);
      AllImportedMore(init, last, Run(INIT, init));
      LastImported(actions);
      StepImported(actions, Run(INIT, init), last);
    }
  }

  lemma NothingImported()
    ensures AllImported([], INIT)
  {
  }

  lemma LastImported(actions: seq<Action>)
    requires |actions| > 0
    ensures var a := actions[|actions| - 1]; a.Lock? && a.req.Import? ==> Imported(actions, a.req.snapshot)
  {
  }

  /** On a record that passes, discovery lists exactly the selected tools: the branch that
      logs a selection it cannot serve is never taken. */
  lemma DiscoveryListsSelection(r: Record)
    requires Passes(r) && r.snapshot.Some?
    ensures RecordTools(r).Tools?
    ensures Discovered(r).tools == ServedAs(Picked(OpsOf(r), SelectionSet(r)), OverrideMap(r.overrides))
  {
    hide Outcome, ProbeProblem, Servable, Picked;
    PassesIff(r);
    BuiltIffServable(OpsOf(r), OverrideMap(r.overrides), SelectionSet(r));
  }

  // ------------------------------------------------------------ what unlocked discovery can undo

  /** Everything of a record but the tools discovery writes. */
  function ChoicesOf(r: Record): Record {
    r.(tools := [])
  }

  lemma {:induction false} CopyStays(s: State, actions: seq<Action>, task: nat)
    requires task in s.background
    requires forall i :: 0 <= i < |actions| ==> actions[i] !in {BackgroundRead(task), BackgroundWrite(task)}
    ensures var after := Run(s, actions); task in after.background && after.background[task] == s.background[task]
    decreases |actions|
  {
    hide Decide, Approves, Discovered;
    if |actions| > 0 {
      CopyStays(s, actions[..|actions| - 1], task);
    }
  }

  /** Whatever happens between a discovery's read and its write, the write puts back the
      record as it was read. So it undoes a change exactly when the stored record has
      changed in between, and brings a server back exactly when it was deleted. */
  lemma WriteRestoresRead(s: State, actions: seq<Action>, task: nat)
    requires s.store.Some?
    requires forall i :: 0 <= i < |actions| ==> actions[i] !in {BackgroundRead(task), BackgroundWrite(task)}
    ensures var before := Run(Step(s, BackgroundRead(task)), actions);
            var after := Step(before, BackgroundWrite(task));
            && after.store.Some?
            && ChoicesOf(after.store.value) == ChoicesOf(s.store.value)
            && (before.store.Some? ==>
                  (ChoicesOf(after.store.value) == ChoicesOf(before.store.value) <==>
                   ChoicesOf(before.store.value) == ChoicesOf(s.store.value)))
  {
    hide RecordTools;
    CopyStays(Step(s, BackgroundRead(task)), actions, task);
  }

  /** While a locked section is between reading and writing, only its own write ends that. */
  lemma {:induction false} HolderStays(s: State, actions: seq<Action>)
    requires (s.holder.Discovering? && LockedWrite !in actions) || (s.holder.Writing? && Register !in actions)
    ensures Run(s, actions).holder == s.holder
    decreases |actions|
  {
    hide Decide, Approves, Discovered;
    if |actions| > 0 {
      HolderStays(s, actions[..|actions| - 1]);
    }
  }

  /** The discovery that a locked section runs is no different: the lock keeps other locked
      sections out, but neither deletions nor unlocked discoveries. */
  lemma LockedWriteRestoresRead(s: State, actions: seq<Action>)
    requires s.holder == Stored && s.store.Some? && LockedWrite !in actions
    ensures var before := Run(Step(s, LockedRead), actions);
            var after := Step(before, LockedWrite);
            && after.store.Some?
            && ChoicesOf(after.store.value) == ChoicesOf(s.store.value)
            && (before.store.Some? ==>
                  (ChoicesOf(after.store.value) == ChoicesOf(before.store.value) <==>
                   ChoicesOf(before.store.value) == ChoicesOf(s.store.value)))
  {
    hide RecordTools;
    HolderStays(Step(s, LockedRead), actions);
  }

  /** Nor is the section's own write: it stores what was decided on the record as it was when
      the lock was taken. That is what would be decided at the time of the write exactly when
      the two decisions agree, and it brings back a server deleted in between. */
  lemma RegisterStoresDecision(s: State, req: Request, actions: seq<Action>)
    requires s.holder == Free && Decide(s.store, req).Some? && Register !in actions
    ensures var before := Run(Step(s, Lock(req)), actions);
            var after := Step(before, Register);
            && after.store == Decide(s.store, req)
            && (after.store == Decide(before.store, req) <==> Decide(before.store, req) == Decide(s.store, req))
  {
    hide Decide, Approves;
    HolderStays(Step(s, Lock(req)), actions);
  }

  /** What a writer outside the lock can do to the store. */
  predicate WritesUnlocked(a: Action) {
    a == Delete || a.BackgroundWrite?
  }

  /** So the record can have changed by then only through a deletion or an unlocked discovery:
      without either, a locked section reads and writes as one step. */
  lemma {:induction false} LockKeepsOthersOut(s: State, actions: seq<Action>)
    requires (s.holder.Discovering? && LockedWrite !in actions) || (s.holder.Writing? && Register !in actions)
    requires forall i :: 0 <= i < |actions| ==> !WritesUnlocked(actions[i])
    ensures Run(s, actions).store == s.store
    decreases |actions|
  {
    hide Decide, Approves, Discovered;
    if |actions| > 0 {
      var init := actions[..|actions| - 1];
      LockKeepsOthersOut(s, init);
      HolderStays(s, init);
    }
  }

  const FIRST := Snapshot("first", [])
  const SECOND := Snapshot("second", [])
  const NO_CHOICES := Choices(Omitted, Omitted, Omitted)

  lemma NothingChosenPasses(r: Record)
    requires r.selection == [] && r.overrides == [] && r.probe == None && OpsOf(r) == []
    ensures Passes(r) && RecordTools(r) == Tools([])
  {
    hide Outcome, ProbeProblem;
    PassesIff(r);
    BuiltIffServable([], map[], {});
    assert OverrideMap(r.overrides) == map[] && SelectionSet(r) == {};
    assert ServedAs(Picked([], {}), map[]) == [];
  }

  /** A server imported, with a second spec waiting. */
  function Waiting(): (r: Record) {
    Record("", Some(FIRST), Some(SECOND), [], [], None, 0, [])
  }

  /** The run that leads there: one import, then another with a changed spec. */
  const IMPORTS: seq<Action> :=
    [Lock(Import(FIRST, "", 0, NO_CHOICES)), Register, LockedRead, LockedWrite] +
    [Lock(Import(SECOND, "", 0, NO_CHOICES)), Register, LockedRead, LockedWrite]

  /** What follows an accepted `Lock` until the lock is free again. */
  lemma LockedSection(s: State, req: Request, r: Record)
    requires s.holder == Free && Decide(s.store, req) == Some(r) && !req.Reject?
    requires Discovered(r) == r
    ensures Run(s, [Lock(req), Register, LockedRead, LockedWrite]) ==
            State(Some(r), Free, s.background, s.approved + Approves(s.store, req))
  {
    hide Run, Decide, Approves, Discovered;
    RunNothing(s);
    RunMore(s, [], Lock(req));
    RunMore(s, [Lock(req)], Register);
    RunMore(s, [Lock(req), Register], LockedRead);
    RunMore(s, [Lock(req), Register, LockedRead], LockedWrite);
    assert [] + [Lock(req)] == [Lock(req)] && [Lock(req)] + [Register] == [Lock(req), Register];
    assert [Lock(req), Register] + [LockedRead] == [Lock(req), Register, LockedRead];
    assert [Lock(req), Register, LockedRead] + [LockedWrite] == [Lock(req), Register, LockedRead, LockedWrite];
  }

  lemma ImportsReachWaiting()
    ensures Run(INIT, IMPORTS) == State(Some(Waiting()), Free, map[], {"first"})
  {
    hide Run, RecordTools, Passes;
    var first, second := Import(FIRST, "", 0, NO_CHOICES), Import(SECOND, "", 0, NO_CHOICES);
    var one := Waiting().(pending := None);
    NothingChosenPasses(one);
    NothingChosenPasses(Waiting());
    LockedSection(INIT, first, one);
    var s := State(Some(one), Free, map[], {"first"});
    assert {} + Approves(None, first) == {"first"};
    LockedSection(s, second, Waiting());
    assert {"first"} + Approves(Some(one), second) == {"first"};
    RunAppend(INIT, [Lock(first), Register, LockedRead, LockedWrite],
              [Lock(second), Register, LockedRead, LockedWrite]);
  }

  lemma {:induction false} RunAppend(s: State, xs: seq<Action>, ys: seq<Action>)
    ensures Run(s, xs + ys) == Run(Run(s, xs), ys)
    decreases |ys|
  {
    hide Step;
    if |ys| == 0 {
      assert xs + ys == xs;
    } else {
      var last := |ys| - 1;
      assert (xs + ys)[..|xs + ys| - 1] == xs + ys[..last];
      RunAppend(s, xs, ys[..last]);
    }
  }

  lemma AcceptsSecond()
    ensures AcceptRevision(Waiting()) ==
            Accepted(Waiting().(snapshot := Some(SECOND), pending := None), Report([], [], None))
  {
    NothingChosenPasses(Waiting().(snapshot := Some(SECOND), pending := None));
  }

  /** An accepted revision does not always stay accepted: a discovery that read before the
      accept and writes after it leaves the first spec accepted and the second pending. */
  lemma StaleWriteUndoesAccept()
    ensures var run := IMPORTS + [BackgroundRead(1)] + [Lock(Accept("second")), Register, LockedRead, LockedWrite];
            var accepted, after := Run(INIT, run), Run(INIT, run + [BackgroundWrite(1)]);
            && accepted.store.Some? && accepted.store.value.snapshot == Some(SECOND)
            && after.store.Some? && after.store.value.snapshot == Some(FIRST)
            && after.store.value.pending == Some(SECOND)
  {
    hide Run, RecordTools;
    ImportsReachWaiting();
    NothingChosenPasses(Waiting());
    AcceptsSecond();
    var done := Waiting().(snapshot := Some(SECOND), pending := None);
    NothingChosenPasses(done);
    var accept := [Lock(Accept("second")), Register, LockedRead, LockedWrite];
    RunMore(INIT, IMPORTS, BackgroundRead(1));
    var s := Run(INIT, IMPORTS + [BackgroundRead(1)]);
    LockedSection(s, Accept("second"), done);
    RunAppend(INIT, IMPORTS + [BackgroundRead(1)], accept);
    RunMore(INIT, IMPORTS + [BackgroundRead(1)] + accept, BackgroundWrite(1));
  }

  lemma RunNothing(s: State)
    ensures Run(s, []) == s
  {
  }

  lemma RunMore(s: State, actions: seq<Action>, a: Action)
    ensures Run(s, actions + [a]) == Step(Run(s, actions), a)
  {
    assert (actions + [a])[..|actions|] == actions;
  }

  /** A deleted server does not always stay deleted. */
  lemma StaleWriteBringsBackDeleted()
    ensures var run := IMPORTS + [BackgroundRead(1)] + [Delete];
            && Run(INIT, run).store == None
            && Run(INIT, run + [BackgroundWrite(1)]).store.Some?
  {
    hide Run, RecordTools;
    ImportsReachWaiting();
    RunMore(INIT, IMPORTS, BackgroundRead(1));
    RunMore(INIT, IMPORTS + [BackgroundRead(1)], Delete);
    RunMore(INIT, IMPORTS + [BackgroundRead(1)] + [Delete], BackgroundWrite(1));
  }

  /** Nor does it when the discovery runs inside a locked section. */
  lemma LockedDiscoveryBringsBackDeleted()
    ensures var run := [Lock(Import(FIRST, "", 0, NO_CHOICES)), Register, LockedRead] + [Delete];
            && Run(INIT, run).store == None
            && Run(INIT, run + [LockedWrite]).store.Some?
  {
    hide Run, RecordTools, Passes;
    var req := Import(FIRST, "", 0, NO_CHOICES);
    NothingChosenPasses(Waiting().(pending := None));
    RunNothing(INIT);
    RunMore(INIT, [], Lock(req));
    RunMore(INIT, [Lock(req)], Register);
    RunMore(INIT, [Lock(req), Register], LockedRead);
    assert [] + [Lock(req)] == [Lock(req)] && [Lock(req)] + [Register] == [Lock(req), Register];
    assert [Lock(req), Register] + [LockedRead] == [Lock(req), Register, LockedRead];
    RunMore(INIT, [Lock(req), Register, LockedRead], Delete);
    RunMore(INIT, [Lock(req), Register, LockedRead] + [Delete], LockedWrite);
  }

  /** Nor when a locked section has decided before the deletion and writes after it. */
  lemma LateRegisterBringsBackDeleted()
    ensures var run := IMPORTS + [Lock(Reject("second"))] + [Delete];
            && Run(INIT, run).store == None
            && Run(INIT, run + [Register]).store.Some?
  {
    hide Run, RecordTools;
    ImportsReachWaiting();
    RunMore(INIT, IMPORTS, Lock(Reject("second")));
    RunMore(INIT, IMPORTS + [Lock(Reject("second"))], Delete);
    RunMore(INIT, IMPORTS + [Lock(Reject("second"))] + [Delete], Register);
  }
}
