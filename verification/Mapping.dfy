/** Operations to tools: names, conflicts, and when a selection can be served. */
module Mapping {
  import opened JsonValues
  import opened DefNames
  import opened Splitting

  /** `(METHOD, path template)`, the method in capitals. */
  datatype OperationKey = OperationKey(verb: string, path: string)

  datatype Override = Override(name: Option<string>, description: Option<string>)

  /** What a spec makes of one operation before any admin choice: how it describes itself,
      whether it can be a tool, and whether the tool would have required arguments. */
  datatype Operation = Operation(key: OperationKey, operationId: Option<string>, text: string, supported: bool,
                                 needsArguments: bool)

  // ------------------------------------------------------------ tool names

  const MAX_NAME: nat := 128

  predicate IsToolName(name: string) {
    1 <= |name| <= 128 && forall i :: 0 <= i < |name| ==> IsSafe(name[i])
  }

  function Truncate(s: string): string {
    if |s| <= MAX_NAME then s else s[..MAX_NAME]
  }

  function Strip(s: string): (r: string)
    ensures forall i :: 0 <= i < |r| ==> r[i] in s
  {
    StripRight(StripLeft(s, {'_'}), '_')
  }

  function Normalize(raw: string): (r: string)
    ensures r != "" ==> IsToolName(r)
  {
    var name := Truncate(Strip(Sanitize(raw)));
    StripShrinks(name);
    assert forall i :: 0 <= i < |name| ==> IsSafe(name[i]);
    Strip(name)
  }

  lemma {:induction false} StripLeftShrinks(s: string)
    ensures |StripLeft(s, {'_'})| <= |s|
  {
    if |s| > 0 { StripLeftShrinks(s[1..]); }
  }

  lemma {:induction false} StripRightShrinks(s: string)
    ensures |StripRight(s, '_')| <= |s|
  {
    if |s| > 0 { StripRightShrinks(s[..|s| - 1]); }
  }

  lemma StripShrinks(s: string)
    ensures |Strip(s)| <= |s|
  {
    StripLeftShrinks(s);
    StripRightShrinks(StripLeft(s, {'_'}));
  }

  function Lower(c: char): char {
    if 'A' <= c <= 'Z' then (c as int + 32) as char else c
  }

  function LowerCase(s: string): (r: string)
    ensures |r| == |s| && forall i :: 0 <= i < |s| ==> r[i] == Lower(s[i])
  {
    seq(|s|, i requires 0 <= i < |s| => Lower(s[i]))
  }

  function JoinNames(segments: seq<string>): (r: string)
    ensures forall i :: 0 <= i < |r| ==> IsSafe(r[i])
  {
    if |segments| == 0 then ""
    else
      var name := Normalize(segments[0]);
      (if name == "" then "" else "_" + name) + JoinNames(segments[1..])
  }

  function FallbackName(key: OperationKey): string {
    Truncate(LowerCase(key.verb) + JoinNames(Split(key.path, '/')))
  }

  function DerivedName(op: Operation): string {
    var normal := if op.operationId.Some? then Normalize(op.operationId.value) else "";
    if normal != "" then normal else FallbackName(op.key)
  }

  /** Every operation under an ordinary HTTP method gets a name MCP allows. */
  lemma DerivedNameIsValid(op: Operation)
    requires |op.key.verb| > 0 && forall i :: 0 <= i < |op.key.verb| ==> 'A' <= op.key.verb[i] <= 'Z'
    ensures IsToolName(DerivedName(op))
  {
    hide Normalize, JoinNames, Split;
    var verb := LowerCase(op.key.verb);
    var name := verb + JoinNames(Split(op.key.path, '/'));
    assert forall i :: 0 <= i < |verb| ==> IsSafe(verb[i]);
    assert forall i :: 0 <= i < |name| ==> IsSafe(name[i]);
  }

  // ------------------------------------------------------------ which name it is

  lemma SanitizedPlain(name: string)
    requires IsPlainName(name)
    ensures Sanitize(name) == name && Sanitize("{" + name + "}") == "_" + name + "_"
  {
    assert name + "" == name && "}" + "" == "}";
    SafeKept(name, "");
    RunReplaced("}", "");
    SafeKept(name, "}");
    RunReplaced("{", name + "}");
    assert "{" + name + "}" == "{" + (name + "}");
    assert "_" + (name + "_") == "_" + name + "_";
  }

  lemma StrippedBoth(left: string, name: string, right: string)
    requires name != "" && name[0] != '_' && name[|name| - 1] != '_'
    requires (forall i :: 0 <= i < |left| ==> left[i] == '_') && (forall i :: 0 <= i < |right| ==> right[i] == '_')
    ensures Strip(left + name + right) == name
  {
    assert left + name + right == left + (name + right);
    StrippedLeft(left, name + right, {'_'});
    StrippedRight(name, right, '_');
  }

  /** A plain name, in braces or not, normalizes to itself. */
  lemma PlainNormal(name: string)
    requires IsPlainName(name) && |name| <= 128
    ensures Normalize(name) == name && Normalize("{" + name + "}") == name
  {
    hide Strip, Sanitize;
    SanitizedPlain(name);
    StrippedBoth("", name, "");
    StrippedBoth("_", name, "_");
    assert "" + name + "" == name;
  }

  /** An operation id that could be a tool name, and has no underscore at either end, is the name. */
  lemma IdIsName(op: Operation)
    requires op.operationId.Some? && IsPlainName(op.operationId.value) && |op.operationId.value| <= 128
    ensures DerivedName(op) == op.operationId.value
  {
    PlainNormal(op.operationId.value);
  }

  /** The path of these segments, and the name made of these parts. */
  function Rooted(segments: seq<string>): string {
    if |segments| == 0 then "" else "/" + segments[0] + Rooted(segments[1..])
  }

  function Underscored(names: seq<string>): string {
    if |names| == 0 then "" else "_" + names[0] + Underscored(names[1..])
  }

  /** Each segment is the name, or a variable of that name. */
  ghost predicate Spells(segments: seq<string>, names: seq<string>) {
    && |segments| == |names|
    && forall i :: 0 <= i < |names| ==>
         IsPlainName(names[i]) && |names[i]| <= 128 && segments[i] in {names[i], "{" + names[i] + "}"}
  }

  lemma {:induction false} SegmentsSplit(current: string, segments: seq<string>)
    requires forall i :: 0 <= i < |segments| ==> '/' !in segments[i]
    ensures SplitFrom(current, Rooted(segments), '/') == [current] + segments
    decreases |segments|
  {
    if |segments| > 0 {
      var first, rest := segments[0], Rooted(segments[1..]);
      SegmentsSplit(first, segments[1..]);
      hide SplitFrom;
      assert Rooted(segments) == ['/'] + (first + rest);
      SplitAt(current, first + rest, '/');
      SplitWord("", first, rest, '/');
      assert "" + first == first;
      assert [current] + ([first] + segments[1..]) == [current] + segments;
    }
  }

  lemma {:induction false} NamesJoin(segments: seq<string>, names: seq<string>)
    requires Spells(segments, names)
    ensures JoinNames(segments) == Underscored(names)
    decreases |segments|
  {
    hide Normalize, IsPlainName;
    if |segments| > 0 {
      PlainNormal(names[0]);
      NotEmpty(names[0]);
      NamesJoin(segments[1..], names[1..]);
    }
  }

  lemma NotEmpty(name: string)
    requires IsPlainName(name)
    ensures name != "" && '/' !in name && '/' !in "{" + name + "}"
  {
  }

  /** Without an id the name is the method in small letters and the segments of the path, of
      variables their names: `GET /pets/{id}` is `get_pets_id`. */
  lemma PathIsName(op: Operation, segments: seq<string>, names: seq<string>)
    requires op.operationId.None? && op.key.verb == "GET" && op.key.path == Rooted(segments)
    requires Spells(segments, names) && |Underscored(names)| <= 125
    ensures DerivedName(op) == "get" + Underscored(names)
  {
    hide Normalize, IsPlainName;
    forall i | 0 <= i < |segments|
      ensures '/' !in segments[i]
    {
      NotEmpty(names[i]);
    }
    SegmentsSplit("", segments);
    NamesJoin(segments, names);
    var parts := [""] + segments;
    assert parts[0] == "" && parts[1..] == segments;
    EmptyNormal();
    assert JoinNames(parts) == "" + JoinNames(segments);
    assert LowerCase("GET") == "get";
  }

  lemma EmptyNormal()
    ensures Normalize("") == ""
  {
  }

  function OverrideFor(overrides: map<OperationKey, Override>, key: OperationKey): Option<string> {
    if key in overrides then overrides[key].name else None
  }

  function ToolName(op: Operation, overrides: map<OperationKey, Override>): string {
    match OverrideFor(overrides, op.key)
    case Some(name) => if IsToolName(name) then name else DerivedName(op)
    case None => DerivedName(op)
  }

  /** A name of the admin's is the tool's if MCP allows it; another is reported. */
  lemma OverrideIsName(op: Operation, overrides: map<OperationKey, Override>, name: string)
    ensures OverrideFor(overrides, op.key) == Some(name) && IsToolName(name) ==> ToolName(op, overrides) == name
    ensures NameProblem(op, overrides) <==>
            op.key in overrides && overrides[op.key].name.Some? && !IsToolName(overrides[op.key].name.value)
    ensures NameProblem(op, overrides) || OverrideFor(overrides, op.key).None? ==>
              ToolName(op, overrides) == DerivedName(op)
  {
  }

  predicate NameProblem(op: Operation, overrides: map<OperationKey, Override>) {
    match OverrideFor(overrides, op.key)
    case Some(name) => !IsToolName(name)
    case None => false
  }

  // ------------------------------------------------------------ mapping and conflicts

  /** The admin's own description, or the operation's. */
  function Description(op: Operation, overrides: map<OperationKey, Override>): string {
    if op.key in overrides && overrides[op.key].description.Some? then overrides[op.key].description.value else op.text
  }

  /** `tool` is the tool's name. */
  datatype Mapped = Mapped(key: OperationKey, tool: Option<string>, text: string, nameProblem: bool, selected: bool,
                           needsArguments: bool, conflicts: seq<OperationKey>)

  function MapOperation(op: Operation, overrides: map<OperationKey, Override>, selection: set<OperationKey>): Mapped {
    if op.supported
    then Mapped(op.key, Some(ToolName(op, overrides)), Description(op, overrides), NameProblem(op, overrides),
                op.key in selection, op.needsArguments, [])
    else Mapped(op.key, None, "", false, op.key in selection, false, [])
  }

  function MapAll(ops: seq<Operation>, overrides: map<OperationKey, Override>,
                  selection: set<OperationKey>): (r: seq<Mapped>)
    ensures |r| == |ops| && forall i :: 0 <= i < |ops| ==> r[i] == MapOperation(ops[i], overrides, selection)
  {
    seq(|ops|, i requires 0 <= i < |ops| => MapOperation(ops[i], overrides, selection))
  }

  /** The keys under one tool name, in order. */
  function Named(ms: seq<Mapped>, name: string): seq<OperationKey> {
    if |ms| == 0 then []
    else Named(ms[..|ms| - 1], name) + (if ms[|ms| - 1].tool == Some(name) then [ms[|ms| - 1].key] else [])
  }

  function Except(keys: seq<OperationKey>, key: OperationKey): seq<OperationKey> {
    if |keys| == 0 then []
    else (if keys[0] != key then [keys[0]] else []) + Except(keys[1..], key)
  }

  function Conflicted(ms: seq<Mapped>, m: Mapped): Mapped {
    match m.tool
    case None => m
    case Some(name) => m.(conflicts := Except(Named(ms, name), m.key))
  }

  function Conflicts(ms: seq<Mapped>): (r: seq<Mapped>)
    ensures |r| == |ms| && forall i :: 0 <= i < |ms| ==> r[i] == Conflicted(ms, ms[i])
  {
    seq(|ms|, i requires 0 <= i < |ms| => Conflicted(ms, ms[i]))
  }

  /** `_with_conflicts`, with its dictionary from names to keys. */
  method WithConflicts(ms: seq<Mapped>) returns (r: seq<Mapped>)
    ensures r == Conflicts(ms)
  {
    hide Except, Named;
    var byName := KeysByName(ms);
    r := [];
    for i := 0 to |ms|
      invariant |r| == i && forall k :: 0 <= k < i ==> r[k] == Conflicted(ms, ms[k])
    {
      if ms[i].tool.None? {
        r := r + [ms[i]];
      } else {
        NamedHolds(ms, i);
        var others := Except(byName[ms[i].tool.value], ms[i].key);
        r := r + [ms[i].(conflicts := others)];
      }
    }
  }

  /** The keys of each tool name, in order. */
  method KeysByName(ms: seq<Mapped>) returns (byName: map<string, seq<OperationKey>>)
    ensures forall name :: name in byName ==> byName[name] == Named(ms, name)
    ensures forall name :: name !in byName ==> Named(ms, name) == []
  {
    byName := map[];
    for i := 0 to |ms|
      invariant forall name :: name in byName ==> byName[name] == Named(ms[..i], name)
      invariant forall name :: name !in byName ==> Named(ms[..i], name) == []
    {
      assert ms[..i + 1][..i] == ms[..i];
      if ms[i].tool.Some? {
        var name := ms[i].tool.value;
        var before := if name in byName then byName[name] else [];
        byName := byName[name := before + [ms[i].key]];
      }
    }
    assert ms[..|ms|] == ms;
  }

  lemma {:induction false} NamedHolds(ms: seq<Mapped>, i: nat)
    requires i < |ms| && ms[i].tool.Some?
    ensures ms[i].key in Named(ms, ms[i].tool.value)
    decreases |ms|
  {
    if i < |ms| - 1 { NamedHolds(ms[..|ms| - 1], i); }
  }

  lemma {:induction false} NamedIff(ms: seq<Mapped>, name: string, key: OperationKey)
    ensures key in Named(ms, name) <==> exists i :: 0 <= i < |ms| && ms[i].tool == Some(name) && ms[i].key == key
    decreases |ms|
  {
    if |ms| > 0 {
      var last := |ms| - 1;
      NamedIff(ms[..last], name, key);
      if exists i :: 0 <= i < |ms| && ms[i].tool == Some(name) && ms[i].key == key {
        var i :| 0 <= i < |ms| && ms[i].tool == Some(name) && ms[i].key == key;
        if i < last { assert ms[..last][i] == ms[i]; }
      }
    }
  }

  lemma {:induction false} ExceptIff(keys: seq<OperationKey>, key: OperationKey, k: OperationKey)
    ensures k in Except(keys, key) <==> k in keys && k != key
  {
    if |keys| > 0 {
      assert keys == [keys[0]] + keys[1..];
      ExceptIff(keys[1..], key, k);
    }
  }

  /** An operation is in conflict exactly when another key has its tool name. */
  lemma ConflictIff(ms: seq<Mapped>, m: Mapped)
    requires m.tool.Some?
    ensures Conflicted(ms, m).conflicts != [] <==>
            exists i :: 0 <= i < |ms| && ms[i].tool == m.tool && ms[i].key != m.key
  {
    var named := Named(ms, m.tool.value);
    var others := Except(named, m.key);
    if others != [] {
      ExceptIff(named, m.key, others[0]);
      NamedIff(ms, m.tool.value, others[0]);
    }
    if i :| 0 <= i < |ms| && ms[i].tool == m.tool && ms[i].key != m.key {
      NamedIff(ms, m.tool.value, ms[i].key);
      ExceptIff(named, m.key, ms[i].key);
    }
  }

  // ------------------------------------------------------------ serving a selection

  datatype Problem =
    | Unsupported(key: OperationKey)
    | BadName(key: OperationKey)
    | Conflict(key: OperationKey)
    | NoBaseUrl
    | BadProbe

  /** `text` is the description before it is cut to the limit. */
  datatype Tool = Tool(key: OperationKey, name: string, text: string)

  datatype Built = Tools(tools: seq<Tool>) | Failed(problems: seq<Problem>)

  function Selected(ms: seq<Mapped>): (r: seq<Mapped>)
    ensures forall m :: m in r <==> m in ms && m.selected
  {
    if |ms| == 0 then []
    else
      assert ms == [ms[0]] + ms[1..];
      (if ms[0].selected then [ms[0]] else []) + Selected(ms[1..])
  }

  function WithTools(ms: seq<Mapped>): (r: seq<Mapped>)
    ensures forall m :: m in r <==> m in ms && m.tool.Some?
  {
    if |ms| == 0 then []
    else
      assert ms == [ms[0]] + ms[1..];
      (if ms[0].tool.Some? then [ms[0]] else []) + WithTools(ms[1..])
  }

  function OwnProblems(ms: seq<Mapped>): seq<Problem> {
    if |ms| == 0 then []
    else OwnProblems(ms[..|ms| - 1]) +
         (var m := ms[|ms| - 1];
          if m.tool.None? then [Unsupported(m.key)] else if m.nameProblem then [BadName(m.key)] else [])
  }

  function ConflictProblems(ms: seq<Mapped>): seq<Problem> {
    if |ms| == 0 then []
    else ConflictProblems(ms[..|ms| - 1]) +
         (var m := ms[|ms| - 1]; if m.conflicts != [] then [Conflict(m.key)] else [])
  }

  function ToolsOf(ms: seq<Mapped>): (r: seq<Tool>)
    requires forall i :: 0 <= i < |ms| ==> ms[i].tool.Some?
  {
    seq(|ms|, i requires 0 <= i < |ms| => Tool(ms[i].key, ms[i].tool.value, ms[i].text))
  }

  /** The selected operations as the mapping sees them, and those of them that are tools. */
  function Chosen(ops: seq<Operation>, overrides: map<OperationKey, Override>,
                  selection: set<OperationKey>): seq<Mapped> {
    Selected(Conflicts(MapAll(ops, overrides, selection)))
  }

  function Outcome(ops: seq<Operation>, overrides: map<OperationKey, Override>, selection: set<OperationKey>): Built {
    var chosen := Chosen(ops, overrides, selection);
    var able := Conflicts(WithTools(chosen));
    var problems := OwnProblems(chosen) + ConflictProblems(able);
    assert forall i :: 0 <= i < |able| ==> WithTools(chosen)[i] in WithTools(chosen);
    if problems == [] then Tools(ToolsOf(able)) else Failed(problems)
  }

  /** `build_tools`. */
  method BuildTools(ops: seq<Operation>, overrides: map<OperationKey, Override>, selection: set<OperationKey>)
    returns (r: Built)
    ensures r == Outcome(ops, overrides, selection)
  {
    hide Conflicts, Selected, WithTools, MapAll, OwnProblems, ConflictProblems;
    var mapped := WithConflicts(MapAll(ops, overrides, selection));
    var chosen := Selected(mapped);
    var problems := ReportEach(chosen);
    var able := WithConflicts(WithTools(chosen));
    assert forall i :: 0 <= i < |able| ==> WithTools(chosen)[i] in WithTools(chosen);
    var conflicts, tools := CollectTools(able);
    assert tools == ToolsOf(able);
    r := if problems + conflicts != [] then Failed(problems + conflicts) else Tools(tools);
  }

  method ReportEach(chosen: seq<Mapped>) returns (problems: seq<Problem>)
    ensures problems == OwnProblems(chosen)
  {
    problems := [];
    for i := 0 to |chosen|
      invariant problems == OwnProblems(chosen[..i])
    {
      assert chosen[..i + 1][..i] == chosen[..i];
      if chosen[i].tool.None? {
        problems := problems + [Unsupported(chosen[i].key)];
      } else if chosen[i].nameProblem {
        problems := problems + [BadName(chosen[i].key)];
      }
    }
    assert chosen[..|chosen|] == chosen;
  }

  method CollectTools(able: seq<Mapped>) returns (problems: seq<Problem>, tools: seq<Tool>)
    requires forall i :: 0 <= i < |able| ==> able[i].tool.Some?
    ensures problems == ConflictProblems(able)
    ensures |tools| == |able| && forall i :: 0 <= i < |able| ==>
            tools[i] == Tool(able[i].key, able[i].tool.value, able[i].text)
  {
    problems, tools := [], [];
    for i := 0 to |able|
      invariant problems == ConflictProblems(able[..i])
      invariant |tools| == i && forall k :: 0 <= k < i ==>
                tools[k] == Tool(able[k].key, able[k].tool.value, able[k].text)
    {
      assert able[..i + 1][..i] == able[..i];
      if able[i].conflicts != [] {
        problems := problems + [Conflict(able[i].key)];
      }
      tools := tools + [Tool(able[i].key, able[i].tool.value, able[i].text)];
    }
    assert able[..|able|] == able;
  }

  // ------------------------------------------------------------ when a selection is servable

  /** Every selected operation is a tool, under a valid name no other selected key has. */
  ghost predicate Servable(ops: seq<Operation>, overrides: map<OperationKey, Override>, selection: set<OperationKey>) {
    && (forall op :: op in ops && op.key in selection ==> op.supported && !NameProblem(op, overrides))
    && OneKeyPerName(Picked(ops, selection), overrides)
  }

  ghost predicate OneKeyPerName(ops: seq<Operation>, overrides: map<OperationKey, Override>) {
    forall p, q :: p in ops && q in ops ==> ToolName(p, overrides) == ToolName(q, overrides) ==> p.key == q.key
  }

  /** The selected operations, in the order the spec lists them. */
  function Picked(ops: seq<Operation>, selection: set<OperationKey>): (r: seq<Operation>)
    ensures forall op :: op in r <==> op in ops && op.key in selection
  {
    if |ops| == 0 then []
    else
      assert ops == [ops[0]] + ops[1..];
      (if ops[0].key in selection then [ops[0]] else []) + Picked(ops[1..], selection)
  }

  function Served(op: Operation, overrides: map<OperationKey, Override>): Tool {
    Tool(op.key, ToolName(op, overrides), Description(op, overrides))
  }

  function ServedAs(ops: seq<Operation>, overrides: map<OperationKey, Override>): (r: seq<Tool>)
    ensures |r| == |ops| && forall i :: 0 <= i < |ops| ==> r[i] == Served(ops[i], overrides)
  {
    seq(|ops|, i requires 0 <= i < |ops| => Served(ops[i], overrides))
  }

  lemma {:induction false} NoOwnProblems(ms: seq<Mapped>)
    ensures OwnProblems(ms) == [] <==> forall i :: 0 <= i < |ms| ==> ms[i].tool.Some? && !ms[i].nameProblem
    decreases |ms|
  {
    if |ms| > 0 {
      var last := |ms| - 1;
      NoOwnProblems(ms[..last]);
      assert forall i :: 0 <= i < last ==> ms[..last][i] == ms[i];
    }
  }

  lemma {:induction false} NoConflictProblems(ms: seq<Mapped>)
    ensures ConflictProblems(ms) == [] <==> forall i :: 0 <= i < |ms| ==> ms[i].conflicts == []
    decreases |ms|
  {
    if |ms| > 0 {
      var last := |ms| - 1;
      NoConflictProblems(ms[..last]);
      assert forall i :: 0 <= i < last ==> ms[..last][i] == ms[i];
    }
  }

  /** Choosing the selected mapped operations is mapping the selected operations. */
  lemma {:induction false} SelectedIsPicked(ops: seq<Operation>, overrides: map<OperationKey, Override>,
                                            selection: set<OperationKey>, ms: seq<Mapped>)
    requires |ms| == |ops|
    requires forall i :: 0 <= i < |ops| ==> ms[i].(conflicts := []) == MapOperation(ops[i], overrides, selection)
    ensures var chosen, picked := Selected(ms), Picked(ops, selection);
            && |chosen| == |picked|
            && forall i :: 0 <= i < |picked| ==>
                 chosen[i].(conflicts := []) == MapOperation(picked[i], overrides, selection)
    decreases |ops|
  {
    hide MapOperation;
    if |ops| > 0 {
      SelectedIsPicked(ops[1..], overrides, selection, ms[1..]);
      MapKeeps(ops[0], overrides, selection);
      assert ms[0].selected == ms[0].(conflicts := []).selected;
    }
  }

  lemma MapKeeps(op: Operation, overrides: map<OperationKey, Override>, selection: set<OperationKey>)
    ensures MapOperation(op, overrides, selection).selected == (op.key in selection)
  {
  }

  lemma {:induction false} AllHaveTools(ms: seq<Mapped>)
    requires forall i :: 0 <= i < |ms| ==> ms[i].tool.Some?
    ensures WithTools(ms) == ms
    decreases |ms|
  {
    if |ms| > 0 {
      AllHaveTools(ms[1..]);
    }
  }

  /** `build_tools` succeeds on exactly the servable selections, and returns one tool for
      each selected operation, in the spec's order. */
  lemma BuiltIffServable(ops: seq<Operation>, overrides: map<OperationKey, Override>, selection: set<OperationKey>)
    ensures Outcome(ops, overrides, selection).Tools? <==> Servable(ops, overrides, selection)
    ensures Servable(ops, overrides, selection) ==>
              Outcome(ops, overrides, selection) == Tools(ServedAs(Picked(ops, selection), overrides))
  {
    hide Conflicts, WithTools, OwnProblems, ConflictProblems, NameProblem, OneKeyPerName, Picked, Chosen, ToolsOf,
      ServedAs, MatchesOp;
    var chosen := Chosen(ops, overrides, selection);
    var picked := Picked(ops, selection);
    ChosenMatches(ops, overrides, selection);
    OwnProblemsIff(chosen, picked, overrides);
    if OwnProblems(chosen) == [] {
      AllHaveTools(chosen);
      ConflictFree(chosen, picked, overrides);
      SameTools(chosen, picked, overrides);
    }
  }

  lemma SameTools(chosen: seq<Mapped>, picked: seq<Operation>, overrides: map<OperationKey, Override>)
    requires |chosen| == |picked| && forall i :: 0 <= i < |picked| ==> MatchesOp(chosen[i], picked[i], overrides)
    requires forall i :: 0 <= i < |chosen| ==> chosen[i].tool.Some?
    ensures (forall i :: 0 <= i < |chosen| ==> Conflicts(chosen)[i].tool.Some?)
    ensures ToolsOf(Conflicts(chosen)) == ServedAs(picked, overrides)
  {
    hide Conflicted, ToolName, NameProblem;
    ConflictsKeep(chosen);
  }

  lemma ChosenMatches(ops: seq<Operation>, overrides: map<OperationKey, Override>, selection: set<OperationKey>)
    ensures var chosen, picked := Chosen(ops, overrides, selection), Picked(ops, selection);
            |chosen| == |picked| && forall i :: 0 <= i < |picked| ==> MatchesOp(chosen[i], picked[i], overrides)
  {
    hide Conflicted, Selected, Conflicts, ToolName, NameProblem, Description, MatchesOp;
    ConflictsKeep(MapAll(ops, overrides, selection));
    SelectedIsPicked(ops, overrides, selection, Conflicts(MapAll(ops, overrides, selection)));
    var chosen, picked := Chosen(ops, overrides, selection), Picked(ops, selection);
    forall i | 0 <= i < |picked|
      ensures MatchesOp(chosen[i], picked[i], overrides)
    {
      assert chosen[i].(conflicts := []) == MapOperation(picked[i], overrides, selection);
      StillMatches(chosen[i], picked[i], overrides, selection);
    }
  }

  lemma StillMatches(m: Mapped, op: Operation, overrides: map<OperationKey, Override>, selection: set<OperationKey>)
    requires m.(conflicts := []) == MapOperation(op, overrides, selection)
    ensures MatchesOp(m, op, overrides)
  {
    hide ToolName, NameProblem, Description;
    var plain := MapOperation(op, overrides, selection);
    assert m.key == plain.key && m.tool == plain.tool && m.nameProblem == plain.nameProblem && m.text == plain.text;
  }

  lemma OwnProblemsIff(chosen: seq<Mapped>, picked: seq<Operation>, overrides: map<OperationKey, Override>)
    requires |chosen| == |picked| && forall i :: 0 <= i < |picked| ==> MatchesOp(chosen[i], picked[i], overrides)
    ensures OwnProblems(chosen) == [] <==>
            (forall op :: op in picked ==> op.supported && !NameProblem(op, overrides))
    ensures OwnProblems(chosen) == [] ==> forall i :: 0 <= i < |chosen| ==> chosen[i].tool.Some?
  {
    hide ToolName, NameProblem, OwnProblems;
    NoOwnProblems(chosen);
    if forall op :: op in picked ==> op.supported && !NameProblem(op, overrides) {
      forall i | 0 <= i < |chosen|
        ensures chosen[i].tool.Some? && !chosen[i].nameProblem
      {
        assert picked[i] in picked;
      }
    }
  }

  lemma ConflictFree(chosen: seq<Mapped>, picked: seq<Operation>, overrides: map<OperationKey, Override>)
    requires |chosen| == |picked| && forall i :: 0 <= i < |picked| ==> MatchesOp(chosen[i], picked[i], overrides)
    requires forall i :: 0 <= i < |chosen| ==> chosen[i].tool.Some?
    ensures ConflictProblems(Conflicts(chosen)) == [] <==> OneKeyPerName(picked, overrides)
  {
    hide Conflicted, ToolName, NameProblem, ConflictProblems;
    NoConflictProblems(Conflicts(chosen));
    forall i | 0 <= i < |chosen|
      ensures Conflicts(chosen)[i].conflicts != [] <==>
              exists j :: 0 <= j < |chosen| && chosen[j].tool == chosen[i].tool && chosen[j].key != chosen[i].key
    {
      ConflictIff(chosen, chosen[i]);
    }
    if OneKeyPerName(picked, overrides) {
      forall i, j | 0 <= i < |chosen| && 0 <= j < |chosen| && chosen[j].tool == chosen[i].tool
        ensures chosen[j].key == chosen[i].key
      {
        assert picked[i] in picked && picked[j] in picked;
      }
    }
    if forall i :: 0 <= i < |chosen| ==> Conflicts(chosen)[i].conflicts == [] {
      forall p, q | p in picked && q in picked && ToolName(p, overrides) == ToolName(q, overrides)
        ensures p.key == q.key
      {
        var i :| 0 <= i < |picked| && picked[i] == p;
        var j :| 0 <= j < |picked| && picked[j] == q;
        assert chosen[j].tool == chosen[i].tool;
      }
    }
  }

  predicate MatchesOp(m: Mapped, op: Operation, overrides: map<OperationKey, Override>) {
    && m.key == op.key
    && (m.tool.Some? <==> op.supported)
    && (op.supported ==>
          && m.tool == Some(ToolName(op, overrides)) && m.text == Description(op, overrides)
          && m.nameProblem == NameProblem(op, overrides))
  }

  lemma ConflictsKeep(ms: seq<Mapped>)
    ensures forall i :: 0 <= i < |ms| ==> Conflicts(ms)[i].(conflicts := []) == ms[i].(conflicts := [])
    ensures forall i :: 0 <= i < |ms| ==> 
              && Conflicts(ms)[i].tool == ms[i].tool && Conflicts(ms)[i].key == ms[i].key
              && Conflicts(ms)[i].text == ms[i].text
  {
    hide Named, Except;
  }

  // ------------------------------------------------------------ smaller selections

  function OnlyKeys(tools: seq<Tool>, keys: set<OperationKey>): seq<Tool> {
    if |tools| == 0 then []
    else (if tools[0].key in keys then [tools[0]] else []) + OnlyKeys(tools[1..], keys)
  }

  lemma ServedCons(op: Operation, rest: seq<Operation>, overrides: map<OperationKey, Override>)
    ensures ServedAs([op] + rest, overrides) == [Served(op, overrides)] + ServedAs(rest, overrides)
    ensures ServedAs([op] + rest, overrides)[1..] == ServedAs(rest, overrides)
    ensures [] + rest == rest
  {
    hide ToolName, ServedAs;
    var all := [op] + rest;
    var left, right := ServedAs(all, overrides), [Served(op, overrides)] + ServedAs(rest, overrides);
    assert |left| == |right|;
    forall i | 0 <= i < |left|
      ensures left[i] == right[i]
    {
      assert i > 0 ==> all[i] == rest[i - 1];
    }
    assert left == right;
  }

  lemma {:induction false} PickedLess(ops: seq<Operation>, overrides: map<OperationKey, Override>,
                                      selection: set<OperationKey>, fewer: set<OperationKey>)
    requires fewer <= selection
    ensures ServedAs(Picked(ops, fewer), overrides) == OnlyKeys(ServedAs(Picked(ops, selection), overrides), fewer)
    decreases |ops|
  {
    hide ToolName;
    if |ops| > 0 {
      PickedLess(ops[1..], overrides, selection, fewer);
      ServedCons(ops[0], Picked(ops[1..], selection), overrides);
      ServedCons(ops[0], Picked(ops[1..], fewer), overrides);
    }
  }

  /** Any part of a servable selection is servable, with the very same tools. */
  lemma FewerIsServable(ops: seq<Operation>, overrides: map<OperationKey, Override>,
                        selection: set<OperationKey>, fewer: set<OperationKey>)
    requires Outcome(ops, overrides, selection).Tools? && fewer <= selection
    ensures Outcome(ops, overrides, fewer) == Tools(OnlyKeys(Outcome(ops, overrides, selection).tools, fewer))
  {
    hide Outcome, ToolName, NameProblem, Picked;
    BuiltIffServable(ops, overrides, selection);
    BuiltIffServable(ops, overrides, fewer);
    PickedLess(ops, overrides, selection, fewer);
  }
}
