# The OpenAPI pipeline of the MCP hub, modelled and proved in Dafny

The hub imports an OpenAPI document from an upstream nobody trusts, lets an admin choose
operations, and serves each choice as an MCP tool that calls the REST API. This project models
the parts of that pipeline where something must agree with a simpler meaning or must survive
every interleaving, and proves that it does:

* **Schemas** (`JsonValues`, `Schemas`, `SchemaLaws`, `SchemaConvert`, `KeywordFate`,
  `SchemaPreserved`, `BundledScope`, `Bundling`, `SelfContained`, `LooseRefs`, `InputSchema`,
  `ValidityFacts`). `Schemas.Valid` says what it means for an instance to be valid under a schema,
  for OpenAPI 3.0 and for JSON Schema 2020-12, through recursive refs; `SchemaLaws` states the law
  of each keyword. Converting and bundling a schema changes no verdict, and every ref of the output
  leads into its own `$defs`, wherever it stands. `KeywordFate` accounts for every keyword of a
  conversion. `InputSchema.BuildInputSchema` is the whole chain, from a document to a tool's
  argument schema.
* **Graph checks** (`Splitting`, `Pointers`, `Traversal`, `RefGraph`, `RefCheck`, `CheckedScope`, `PlainJson`,
  `MergeKeys`). The explicit-stack walks accept exactly the documents their recursive meaning
  accepts, end on cyclic input, and memoise the right numbers. Passing the ref check is what makes
  `Valid` well founded. Pointers reach exactly the parts of a document.
* **Arguments and requests** (`Flattening`, `OperationArguments`, `ArgumentCollector`,
  `RequestBuilder`, `RequestRoundTrip`, `RequestReading`, `PercentCoding`, `PathBuilding`,
  `DotSegments`, `Redirects`). Flattening refuses nothing the API accepts, renaming is undone by the
  request builder, a reader of the request finds every value again, values cannot change the shape
  of a path, and no upstream can move a credential off its origin.
* **A whole tool** (`DocumentParts`, `ServedTool`, `SpecOperations`, `SpecReading`). Every operation
  a document lists is read as the document's own text says and, when it is supported, becomes a tool
  whose 2020-12 schema takes whatever the API takes; a call of it becomes a request that carries
  exactly what was meant.
* **Records** (`Mapping`, `Revisions`, `Lifecycle`). Every stored record is servable from an
  approved spec in every interleaving of locked changes and unlocked discovery.
* **Caches** (`OboCache`, `OboProtocol`, `ToolCache`, `Jwks`). Per-caller isolation, expiry,
  agreement with the uncached function, and a bound on the rate of key fetches.

Check it with `dafny verify dfyconfig.toml`.

How the model is written: a JSON document is a finite value with ordered keys, and a key is either
one of the keywords the code names or any other text (`Key`). An object graph that may share or
contain itself is a finite map from node ids. Code that only computes is a function; code that
updates state or loops is a method or a class, proved against a function or outright. `Valid`
recurses on the instance, then on how far refs can still be followed on that instance (a rank, for
which the recorded expansion is the witness), then on the schema. Assertion keywords that
conversion copies (`minLength`, `pattern`, `format` and the like) are an arbitrary verdict
function, so the result holds whatever they mean. A clock, an identity provider, an upstream and
the lower-casing of text are parameters.

Where the code and its documentation differ, the model follows the code: the docstring of
`cached_openapi_tools` says that a failing selection is not cached, and the code caches it.

Four properties one might expect do not hold. Each has a concrete run or input that shows it, and
a statement over all runs or inputs of exactly when it does hold:

* A discovery writes back the record it read. The comment at src/mcp_hub/mcp/discovery.py:276-278
  says that a changed selection is not undone and that a deleted server stays deleted; but the
  mapping is awaited between the read and the write, and a change in that window is lost. This
  holds of a discovery in the background (`Lifecycle.WriteRestoresRead`) and of the one inside a
  locked section (`LockedWriteRestoresRead`): each undoes a change exactly when the record changed
  in between. The section's own write stores what was decided when the lock was taken
  (`RegisterStoresDecision`). Inside a section only deletions and background discoveries, which
  take no lock, can change the record (`LockKeepsOthersOut`). Concrete runs are
  `StaleWriteUndoesAccept`, `StaleWriteBringsBackDeleted`, `LockedDiscoveryBringsBackDeleted` and
  `LateRegisterBringsBackDeleted`. What is written is still servable and approved.
* A cached token's expiry is bounded by the session it was fetched with, not by the session that
  presents itself later (`OboProtocol.ShorterSessionIsGivenLongerToken`). It is within the later
  session if and only if the fetching session ended no later or the token's own lifetime did
  (`WithinSessionIff`); so it always is when every session asking for that token ends by then
  (`SessionsBoundTokens`).
* A path argument that is a list of one empty text is not refused, and can leave a dot segment of
  the template bare (`DotSegments.BlankListMakesDotSegment`, `DotFreeIff`).
* Each credential name is in the query exactly once if and only if no two configured names differ
  only in case (`Redirects.CredentialedIff`, `CaseTwinsAppearTwice`). The hub configures at most one.

## Model

| member | source | states |
|---|---|---|
| `InputSchema.BuildInputSchema` | src/mcp_hub/openapi/mapping.py:162-188 | An argument schema exists if and only if the document passes the ref check; then, for every instance and every meaning of the copied keywords, the schema as a whole accepts exactly the closed objects whose properties are valid in the document and of which no required one is missing; all refs, inside `$defs` too, resolve inside it; and every `$ref` anywhere in it outside data names one of its own `$defs`, unless it was copied from where JSON Schema has no schema |
| `InputSchema.RootMeans` | src/mcp_hub/openapi/mapping.py:181-188 | The finished root, read as 2020-12, accepts exactly the closed objects of its properties |
| `InputSchema.OutputLoose` | src/mcp_hub/openapi/schema_convert.py:71-76 | Every `$ref` of the finished output, under whatever keyword, is accounted for |
| `LooseRefs.ConvertedAllRefs` | src/mcp_hub/openapi/schema_convert.py:61-97 | Every `$ref` in a conversion, in a schema position or not, is a rewritten one, or stood where JSON Schema has no schema and was copied |
| `LooseRefs.StrayIsCopied` | src/mcp_hub/openapi/schema_convert.py:93-94 | The exception is real: a `$ref` under a keyword the conversion does not know |
| `KeywordFate.KeywordFates31` | src/mcp_hub/openapi/schema_convert.py:78-97 | In 3.1 the OpenAPI-only keywords are gone, schemas are converted where they stand, `example` becomes `examples` when there are none, all else is unchanged, and no other keyword appears |
| `KeywordFate.KeywordFates30` | src/mcp_hub/openapi/schema_convert.py:78-132 | The same in 3.0 of every keyword but types, enums and bounds, inside the alternative to null where there is one |
| `ServedTool.ServeOperation` | src/mcp_hub/openapi/mapping.py:148-206 | An operation of a document becomes a tool if and only if the document passes the ref check and the operation is supported; the tool's plan and schema then belong together |
| `ServedTool.ToolTakesWhatApiTakes` | src/mcp_hub/openapi/arguments.py:83-110 | Parameters and a body that the API takes, packed into arguments in any order, are valid under the tool's own schema |
| `ServedTool.CallOperation` | src/mcp_hub/openapi/request_builder.py:48-64 | A request is made if and only if the operation is supported; it is refused only for control characters in a header or an empty path value, and otherwise carries each value in its place and exactly the body that was meant |
| `ServedTool.CallPlanned` | src/mcp_hub/openapi/request_builder.py:48-135 | The same for one plan |
| `SpecOperations.MapDocument` | src/mcp_hub/openapi/mapping.py:113-206 | A document is mapped if and only if it passes the ref check; each listed operation is supported if and only if it has a tool, which then serves it; only operations without a tool repeat a key |
| `SpecReading.MappedReads` | src/mcp_hub/openapi/arguments.py:83-215 | A mapped operation is what the document's own text says: its id and description; its parameters, each the last under its name and place, in the plan with the place, style and `required` written there, unless it is a cookie or a header of the hub's; and its body, of the first JSON media type or else a form |
| `SpecReading.ListingComplete` | src/mcp_hub/openapi/mapping.py:113-145 | Every path that is no extension, and every object under one of the eight methods in its item, is listed with that verb and path |
| `SpecReading.ListingSound` | src/mcp_hub/openapi/mapping.py:113-145 | Every listed operation the hub calls stands there |
| `SpecOperations.ListingRepeats` | src/mcp_hub/openapi/mapping.py:113-145 | Among the operations a document lists, only custom methods can repeat a key |
| `SpecOperations.ReadStandsIn` | src/mcp_hub/openapi/arguments.py:113-121 | Every schema of an operation that was read is a part of the document, through refs of parameters and bodies |
| `SpecOperations.ListingStandsIn` | src/mcp_hub/openapi/mapping.py:113-145 | Every listed operation and its path item are parts of the document, through refs of path items |
| `DocumentParts.FlattenedParts` | src/mcp_hub/openapi/arguments.py:270-305 | What flattening hands out is a dictionary of parts of the document, through refs and `allOf` |
| `InputSchema.SamePerProperty` | src/mcp_hub/openapi/schema_convert.py:61-76 | The same for one schema, over all instances at once |
| `SelfContained.SameMeaning` | src/mcp_hub/openapi/schema_convert.py:61-132 | For every checked document, dialect, schema and instance: valid in the document if and only if the conversion is valid in the output; each bundled ref resolves in the output, also those inside bundled schemas; both scopes are well founded |
| `SelfContained.OutputResolves` | src/mcp_hub/openapi/schema_convert.py:71-76 | The ref written for a name resolves, in the output, to the conversion of exactly the schema the original ref named |
| `SelfContained.ConvertedRefs` | src/mcp_hub/openapi/schema_convert.py:61-97 | Every ref in a schema position of a conversion is the rewritten form of one of the original: none is left behind |
| `SchemaPreserved.Preserved` | src/mcp_hub/openapi/schema_convert.py:61-132 | Validity is preserved in both directions between any two scopes that correspond, through refs and recursive types |
| `SchemaPreserved.RefPreserved` | src/mcp_hub/openapi/schema_convert.py:61-69 | The ref case: 3.0 drops what stands beside a ref, 3.1 keeps it |
| `SchemaPreserved.BoundsPreserved` | src/mcp_hub/openapi/schema_convert.py:116-122 | Boolean exclusive bounds turned into numbers admit the same numbers, and no other keyword changes |
| `SchemaPreserved.Locals30` | src/mcp_hub/openapi/schema_convert.py:116-132 | After all 3.0 rewriting, type, enum, bounds, required and copied keywords give the same verdict |
| `SchemaPreserved.ConvertedOrNull` | src/mcp_hub/openapi/schema_convert.py:116-132 | An untyped nullable schema becomes one with a null alternative around the rest |
| `SchemaPreserved.CombinersPreserved` | src/mcp_hub/openapi/schema_convert.py:78-97 | `allOf`, `anyOf`, `oneOf`, `not` and `if`/`then`/`else` agree before and after |
| `SchemaPreserved.ChildrenPreserved` | src/mcp_hub/openapi/schema_convert.py:78-97 | Items, properties and additional properties agree before and after |
| `SchemaPreserved.ItemsPreserved` | src/mcp_hub/openapi/schema_convert.py:78-97 | `items`, `prefixItems` and `contains` with its bounds agree before and after |
| `SchemaPreserved.FieldsPreserved` | src/mcp_hub/openapi/schema_convert.py:78-97 | `properties`, `patternProperties`, `additionalProperties` and `propertyNames` agree before and after |
| `BundledScope.RankConverted` | src/mcp_hub/openapi/schema_convert.py:61-97 | Conversion never raises a schema's rank |
| `BundledScope.BundleWellRanked` | src/mcp_hub/openapi/schema_convert.py:71-76 | Following refs inside the bundle ends |
| `Bundling.SchemaBundler.DefName` | src/mcp_hub/openapi/schema_convert.py:99-113 | A known ref keeps its name; a new one gets a name no other ref has and goes on the work list; the search for a name ends |
| `Bundling.SchemaBundler.Convert` | src/mcp_hub/openapi/schema_convert.py:61-69 | The result is the specified conversion under the final names, and exactly the schema's refs have become named |
| `Bundling.SchemaBundler.ConvertKeywords` | src/mcp_hub/openapi/schema_convert.py:78-97 | The loop over keywords gives the specified keywords although names are added meanwhile |
| `Bundling.SchemaBundler.Finish` | src/mcp_hub/openapi/schema_convert.py:71-76 | The work list empties although converting adds to it; every named ref has its converted target stored under its name |
| `Bundling.ConvertedStable` | src/mcp_hub/openapi/schema_convert.py:61-97 | Naming more refs never changes what was converted before |
| `DefNames.CandidatesDiffer` | src/mcp_hub/openapi/schema_convert.py:102-109 | Numbered candidates for a name are pairwise different |
| `DefNames.DefPointer` | src/mcp_hub/openapi/schema_convert.py:61-69 | The ref written for a safe name decodes to `$defs` and that name |
| `DefNames.ComponentNameKept` | src/mcp_hub/openapi/schema_convert.py:99-104 | A component whose name is safe and has no underscore at either end keeps its name |
| `DefNames.RunReplaced` | src/mcp_hub/openapi/schema_convert.py:40-40 | Each run of unsafe characters becomes one underscore; with safe ones kept, this fixes every name |
| `ValidityFacts.RankIrrelevant` | src/mcp_hub/openapi/refs.py:146-192 | The witness that refs end has no influence on any verdict |
| `ValidityFacts.Deref` | src/mcp_hub/openapi/schema_convert.py:43-48 | The loop ends wherever refs end, at the schema the ref chain leads to |
| `ValidityFacts.DerefKeepsMeaning` | src/mcp_hub/openapi/schema_convert.py:43-48 | In 3.0 a schema and what it dereferences to accept the same instances |
| `RefGraph.CheckCycles` | src/mcp_hub/openapi/refs.py:146-192 | Accepts if and only if no target's unfolding, at any depth, exceeds 10,000; what it records satisfies the recursive count; a refusal for a cycle shows a real cycle, and one for size names a target that exceeds the limit |
| `RefGraph.RecordedIsUnfolding` | src/mcp_hub/openapi/refs.py:182-192 | Each recorded count equals the recursive unfolding at every sufficient depth |
| `RefGraph.CycleIsUnbounded` | src/mcp_hub/openapi/refs.py:146-179 | A cyclic graph unfolds beyond every bound |
| `RefGraph.ExpansionUnique` | src/mcp_hub/openapi/refs.py:182-192 | There is only one record that fits a graph |
| `RefGraph.ExpansionDecreases` | src/mcp_hub/openapi/refs.py:182-192 | The count falls along every edge, which bounds ref chains |
| `RefCheck.CheckRefs` | src/mcp_hub/openapi/refs.py:63-71 | Passes if and only if nothing re-bases refs, every ref is local and names an object, and the same-instance graph is bounded |
| `RefCheck.CollectRefSites` | src/mcp_hub/openapi/refs.py:74-94 | The stack walk finds exactly the refs of the recursive definition, or finds that refs are re-based |
| `RefCheck.SameInstanceRefs` | src/mcp_hub/openapi/refs.py:128-143 | The stack walk finds exactly the refs applied to the same instance |
| `RefCheck.ResolveTargets` | src/mcp_hub/openapi/refs.py:107-125 | Succeeds if and only if every ref leads to an object, with the target of each pointer |
| `DocumentParts.SitesIff` | src/mcp_hub/openapi/refs.py:74-94 | The refs the check reads are exactly the texts at `$ref` anywhere in the document |
| `DocumentParts.NeverRebasesIff` | src/mcp_hub/openapi/refs.py:74-88 | Refs are re-based if and only if some part of the document has a text at `$id`, `$dynamicRef` or `$recursiveRef` |
| `DocumentParts.SameRefsIff` | src/mcp_hub/openapi/refs.py:128-143 | The refs for one instance are a schema's own and those under seven keywords |
| `DocumentParts.EveryPartHasPointer` | src/mcp_hub/openapi/refs.py:107-125 | Every part of a document has a pointer that leads to it |
| `DocumentParts.WalkIsPart` | src/mcp_hub/openapi/refs.py:107-125 | A pointer leads to a part of the document or nowhere |
| `DocumentParts.EveryPartHasRef` | src/mcp_hub/openapi/refs.py:97-125 | Every part below the top can be referred to by `#` and its encoded pointer; what does not begin with `#/` refers to nothing |
| `CheckedScope.SourceWellRanked` | src/mcp_hub/openapi/refs.py:146-192 | A document that passes has a rank for every ref, so validity and `deref` are well founded |
| `CheckedScope.ConvRefsAreSites` | src/mcp_hub/openapi/schema_convert.py:78-97 | Every ref conversion follows is one the ref check saw |
| `CheckedScope.TargetSites` | src/mcp_hub/openapi/refs.py:74-94 | Refs inside a target are refs of the document |
| `Pointers.DecodeEncode` | src/mcp_hub/openapi/refs.py:41-51 | Decoding undoes encoding for every list of parts (sections 3 and 4 of RFC 6901) |
| `Pointers.DecodingTildesFirstIsWrong` | src/mcp_hub/openapi/refs.py:46-51 | With the two replacements swapped it would not |
| `PlainJson.CheckPlainJson` | src/mcp_hub/openapi/parse.py:223-265 | Accepts if and only if the graph unfolds to a finite tree within the size and depth limits whose scalars are all plain; ends on cyclic graphs; the memoised measure is the tree's |
| `PlainJson.PlainIff` | src/mcp_hub/openapi/parse.py:275-285 | The scalars of a tree are all plain if and only if there is a JSON value that the tree represents |
| `PlainJson.Total` | src/mcp_hub/openapi/parse.py:223-265 | Sums a container's children, each already sized |
| `PlainJson.UnfoldsIffAcyclic` | src/mcp_hub/openapi/parse.py:223-265 | A graph unfolds to a finite tree if and only if nothing in it contains itself |
| `PlainJson.UnfoldingUnique` | src/mcp_hub/openapi/parse.py:223-265 | It unfolds to at most one tree |
| `MergeKeys.SpecLoader.FlatPairs` | src/mcp_hub/openapi/parse.py:83-113 | The memoised result is the unmemoised meaning; a self-merge is reported only where every tree of the mapping would hold one of a mapping still being flattened |
| `MergeKeys.SpecLoader.FlatSources` | src/mcp_hub/openapi/parse.py:115-126 | Sources combine with earlier ones winning over later ones |
| `MergeKeys.SpecLoader.ConstructMapping` | src/mcp_hub/openapi/parse.py:75-113 | Whatever a mapping means is returned unless the key budget is really exceeded; a mapping that merges into itself, directly or through its sources, is never flattened, and only such a one is refused as a self-merge |
| `MergeKeys.UnfoldsIffNotSelfMerging` | src/mcp_hub/openapi/parse.py:83-113 | A mapping has a finite meaning tree if and only if following merges from it never comes to a mapping twice |
| `MergeKeys.MeaningIsLookup` | src/mcp_hub/openapi/parse.py:83-113 | The meaning gives each key its own value, else that of the last merge that has it, and there of the first source that has it |
| `MergeKeys.MeaningIff` | src/mcp_hub/openapi/parse.py:83-126 | A tree means a mapping if and only if every key is a scalar, no mapping has one twice and only mappings are merged, at every depth |
| `MergeKeys.FlattensToOne` | src/mcp_hub/openapi/parse.py:83-113 | A mapping flattens to one result |
| `Flattening.NeverOverRestricts` | src/mcp_hub/openapi/arguments.py:270-305 | Every object valid under the body schema has all required properties and fits every flattened property schema, through refs, nested `allOf` and overriding properties |
| `Flattening.FlattensTo` | src/mcp_hub/openapi/arguments.py:270-305 | A schema flattens if and only if nothing but properties says what the object is, there and in every `allOf` member, 32 deep at most; it then has its own properties, of the inherited ones each as the last member gives it, and requires what any of them requires |
| `OperationArguments.LastDeclaredWins` | src/mcp_hub/openapi/arguments.py:113-121 | One parameter per name and location, exactly the one declared last |
| `OperationArguments.ParameterFineIff` | src/mcp_hub/openapi/arguments.py:161-185 | A parameter can be an argument if and only if it has a schema and no content, the default style of its place, and no object and no array of arrays as its value |
| `OperationArguments.NoMediaIff` | src/mcp_hub/openapi/arguments.py:188-205 | A body has no usable media if and only if it offers neither JSON nor a form |
| `OperationArguments.RenamedDistinct` | src/mcp_hub/openapi/arguments.py:252-267 | Renamed body arguments never meet each other or a parameter |
| `OperationArguments.MergedParameters` | src/mcp_hub/openapi/arguments.py:113-121 | The dictionary loop computes the merged list |
| `OperationArguments.MergedWellFormed` | src/mcp_hub/openapi/arguments.py:230-249 | Adding a merged body keeps all argument names distinct and every required name a property |
| `ArgumentCollector.OperationPlan` | src/mcp_hub/openapi/arguments.py:83-110 | Nothing is unsupported if and only if the operation meets a declarative condition; the plan's argument names are distinct, each undropped parameter is in it with its schema, each template variable has a path parameter, and the body is added as specified |
| `ArgumentCollector.Arguments.AddParameter` | src/mcp_hub/openapi/arguments.py:124-158 | Drops, refuses or adds the parameter, changes nothing else, and keeps names distinct |
| `ArgumentCollector.Arguments.AddMergedBody` | src/mcp_hub/openapi/arguments.py:230-249 | Adds every property under a free name, or refuses, names the first property that has none and changes nothing else |
| `ArgumentCollector.Arguments.AddWholeBody` | src/mcp_hub/openapi/arguments.py:218-227 | Adds the body as one argument, or refuses when both names are taken |
| `ArgumentCollector.Arguments.AddBody` | src/mcp_hub/openapi/arguments.py:188-215 | Refuses if and only if there is no usable media type, schema or free name |
| `ArgumentCollector.CollectParameters` | src/mcp_hub/openapi/arguments.py:90-92 | No refusal if and only if each parameter is fine by itself and no two arguments share a name |
| `ArgumentCollector.CheckPath` | src/mcp_hub/openapi/arguments.py:93-107 | Adds a reason if and only if the path or one of its variables is not supported |
| `RequestBuilder.BuildRequest` | src/mcp_hub/openapi/request_builder.py:48-64 | Refuses control characters in headers and empty path values, and otherwise builds path, query, headers and body as specified |
| `RequestReading.RequestReads` | src/mcp_hub/openapi/request_builder.py:48-64 | A reader finds every parameter again: in the query one pair an item, in order, with explode, and else one pair whose text splits at commas into the items when none holds a comma; in the headers one such text |
| `RequestReading.QueryPairsRead` | src/mcp_hub/openapi/request_builder.py:102-109 | The same for one query parameter |
| `RequestReading.ScalarReads` | src/mcp_hub/openapi/request_builder.py:67-74 | A text is `true`, `false`, empty for null, the string itself, or what writes any other value |
| `RequestReading.FormBodyReads` | src/mcp_hub/openapi/request_builder.py:138-145 | A reader of a form finds every field of the body again |
| `RequestReading.ControlIff` | src/mcp_hub/openapi/request_builder.py:112-116 | A header is refused if and only if its text holds a character below 32 or 127 |
| `RequestRoundTrip.EachToItsSlot` | src/mcp_hub/openapi/request_builder.py:48-64 | Packed arguments give query, headers and path values that depend only on what was meant for each place, whatever the body carries |
| `RequestRoundTrip.PairsOfEach` | src/mcp_hub/openapi/request_builder.py:52-61 | The pairs under a parameter's name are exactly those of its value in its own place, none elsewhere, and a name that is no parameter's has none |
| `RequestRoundTrip.MergedBodyRecovered` | src/mcp_hub/openapi/request_builder.py:119-135 | The body comes back with the same value under every key, through every renaming; it is left out if and only if it is empty and not required |
| `RequestRoundTrip.WholeBodyRecovered` | src/mcp_hub/openapi/request_builder.py:119-127 | A whole body comes back as it is |
| `RequestRoundTrip.PathBuiltIff` | src/mcp_hub/openapi/request_builder.py:82-99 | With every variable declared, a path is built if and only if each variable is given a value that is not empty |
| `RequestRoundTrip.MergedAccepted` | src/mcp_hub/openapi/arguments.py:230-249 | Parameters that fit and a body the API accepts pack into arguments the tool's closed argument schema accepts |
| `RequestRoundTrip.WholeAccepted` | src/mcp_hub/openapi/arguments.py:218-227 | The same for a body passed whole, or left out when optional |
| `RequestRoundTrip.BodylessAccepted` | src/mcp_hub/openapi/arguments.py:246-249 | An optional merged body may be left out |
| `PercentCoding.Utf8RoundTrip` | src/mcp_hub/openapi/request_builder.py:77-79 | A strict UTF-8 reader recovers every text |
| `PercentCoding.QuoteRoundTrip` | src/mcp_hub/openapi/request_builder.py:77-79 | Percent-decoding undoes quoting for every text (section 2.1 of RFC 3986) |
| `PercentCoding.SegmentReads` | src/mcp_hub/openapi/request_builder.py:77-79 | A segment reads back as its text, holds no delimiter and is never `.` or `..` |
| `PathBuilding.BuildPath` | src/mcp_hub/openapi/request_builder.py:82-99 | The loop over template matches computes the specified path or error |
| `PathBuilding.NextMatch` | src/mcp_hub/openapi/request_builder.py:28-28 | The leftmost match of the variable pattern, and none is missed |
| `PathBuilding.PiecesCover` | src/mcp_hub/openapi/request_builder.py:82-99 | Literals and variables together are the template |
| `PathBuilding.PathIff` | src/mcp_hub/openapi/request_builder.py:87-99 | A path is built if and only if every variable is declared and not empty |
| `PathBuilding.LiteralKept` | src/mcp_hub/openapi/request_builder.py:87-98 | Which characters of literal text stay as they are: letters, digits and those a path segment may hold |
| `PathBuilding.SlashesAreTheTemplates` | src/mcp_hub/openapi/request_builder.py:82-99 | The path has exactly the slashes of the literal text, no `?` and no `#` (section 3.3 of RFC 3986) |
| `PathBuilding.RegionsReadBack` | src/mcp_hub/openapi/request_builder.py:77-99 | Each substituted region decodes to its argument, split at commas for lists; literal text to itself |
| `DotSegments.DotFreeIff` | src/mcp_hub/openapi/request_builder.py:77-99 | A path has a dot segment if and only if the template has one once empty values are taken out |
| `DotSegments.MappedPathsAreDotFree` | src/mcp_hub/openapi/arguments.py:97-103 | A template that mapping accepts never yields a dot segment unless a value comes out empty |
| `DotSegments.BlankListMakesDotSegment` | src/mcp_hub/openapi/request_builder.py:91-96 | The exception is real: a list of one empty text |
| `Redirects.Send` | src/mcp_hub/openapi/executor.py:203-284 | Against any upstream: at most the limit plus one requests, all on the base origin at checked hosts, with credentials in place, a body only with the original method, each following the answer before it; each reason for stopping is tied to what the world did; the end of the loop is unreachable (section 15.4 of RFC 9110) |
| `Redirects.RunIsUnique` | src/mcp_hub/openapi/executor.py:203-284 | The world determines the run: any two that meet the contract of `Send` have the same requests and the same outcome |
| `Redirects.CaseTwinsAppearTwice` | src/mcp_hub/openapi/executor.py:191-200 | Two names that differ only in case put the credential in twice |
| `Redirects.RedirectSafe` | src/mcp_hub/openapi/executor.py:260-281 | One followed redirect keeps origin, credentials and the body rule |
| `Redirects.EachHopByStatus` | src/mcp_hub/openapi/executor.py:276-280 | In every run, by status: after 303, and after 301 or 302 to a POST, the next request is a GET without body and content type; after any other redirect method, body and headers are unchanged (section 15.4 of RFC 9110) |
| `Redirects.AnsweredIsFinal` | src/mcp_hub/openapi/executor.py:257-260 | The answer a run gives out is its last one and no redirect with a location |
| `Redirects.SameOriginIff` | src/mcp_hub/openapi/executor.py:187-188 | Origins are equal if and only if scheme, host and the port meant are |
| `Redirects.CredentialedIff` | src/mcp_hub/openapi/executor.py:191-200 | Each credential name is there exactly once with its value if and only if the names differ ignoring case |
| `Redirects.OthersUntouched` | src/mcp_hub/openapi/executor.py:191-200 | Other parameters stay as they were, and setting the credential twice changes nothing |
| `Mapping.BuildTools` | src/mcp_hub/openapi/mapping.py:73-110 | The loops compute the specified tools or the specified problems |
| `Mapping.WithConflicts` | src/mcp_hub/openapi/mapping.py:209-229 | The dictionary of names finds the specified conflicts |
| `Mapping.ConflictIff` | src/mcp_hub/openapi/mapping.py:209-229 | A conflict is reported if and only if another key has the same name |
| `Mapping.BuiltIffServable` | src/mcp_hub/openapi/mapping.py:73-110 | Tools are built if and only if every selected operation is supported and has a valid name of its own; then they are the selected operations in order |
| `Mapping.FewerIsServable` | src/mcp_hub/openapi/mapping.py:73-110 | Any part of a servable selection is servable with the very same tools |
| `Mapping.DerivedNameIsValid` | src/mcp_hub/openapi/mapping.py:232-254 | For every operation under an upper-case method the derived name is a valid tool name |
| `Mapping.IdIsName` | src/mcp_hub/openapi/mapping.py:232-249 | An operation id that is a tool name without an underscore at either end is the derived name |
| `Mapping.PathIsName` | src/mcp_hub/openapi/mapping.py:252-254 | Without an id, `GET` on a path of plain segments and variables is named `get` and those names, joined by underscores |
| `Mapping.OverrideIsName` | src/mcp_hub/openapi/mapping.py:232-243 | An override names the tool if and only if MCP allows the name; otherwise it is reported and the derived name is used |
| `Revisions.CheckChoices` | src/mcp_hub/openapi/importer.py:332-351 | Collects the specified problems |
| `Revisions.PassesIff` | src/mcp_hub/openapi/importer.py:332-381 | A record passes if and only if it has a base URL where needed, is servable and its probe is callable |
| `Revisions.AcceptExact` | src/mcp_hub/openapi/revision.py:142-214 | Accepting keeps exactly the selected operations, the overrides and the probe whose operation the pending spec still offers (the last listed under the key is supported), reports exactly the rest, each in its old order, leaves a record that passes, and fails only over tool names |
| `Revisions.KeptPlusDropped` | src/mcp_hub/openapi/revision.py:142-172 | Kept and dropped interleave to the old selection, each in its old order |
| `Revisions.OverridesInterleave` | src/mcp_hub/openapi/revision.py:142-172 | The same for overrides |
| `Revisions.ProbesIff` | src/mcp_hub/openapi/importer.py:354-381 | A probe is callable if and only if it is a GET of a plain path whose operation, the last listed under its key, is supported and needs no arguments |
| `Revisions.PlainPathIff` | src/mcp_hub/openapi/importer.py:363-370 | Which paths are plain, character by character and segment by segment |
| `Revisions.DiffForetellsAccept` | src/mcp_hub/openapi/revision.py:175-214 | The diff has no problems if and only if accept succeeds, with the same drops |
| `Lifecycle.AlwaysServable` | src/mcp_hub/openapi/importer.py:188-230 | In every interleaving every stored or held record passes the checks and its accepted spec was approved |
| `Lifecycle.DecidedGood` | src/mcp_hub/routes/openapi.py:341-411 | Every locked section writes such a record or nothing |
| `Lifecycle.SectionExact` | src/mcp_hub/routes/openapi.py:341-411 | What each request makes of a record, field by field: each choice as it was sent or else as it was, the settings, the spec and the pending slot; stored if and only if the request applies and the result passes, and an accept is refused only for problems the diff shows |
| `Lifecycle.ApprovalHasCause` | src/mcp_hub/routes/openapi.py:341-395 | Each approved hash was a first import or was named in an accept that went through |
| `Lifecycle.ReimportLeavesAccepted` | src/mcp_hub/openapi/importer.py:308-329 | With another hash a re-import changes only the pending slot of the spec |
| `Lifecycle.SpecsComeFromImports` | src/mcp_hub/openapi/importer.py:308-329 | In every run, every accepted and pending spec stored or held was brought by an import of that run, and no pending spec has the hash of the accepted one beside it |
| `Lifecycle.OnlyAcceptReplaces` | src/mcp_hub/openapi/importer.py:308-329 | In every run without an accept or a deletion, every record stored, being written or held by a discovery has the first imported spec as its accepted one |
| `Lifecycle.DiscoveryListsSelection` | src/mcp_hub/mcp/discovery.py:267-302 | On such records discovery lists exactly the selected tools and never takes its error branch |
| `Lifecycle.WriteRestoresRead` | src/mcp_hub/mcp/discovery.py:276-302 | Whatever happens between, a background discovery's write restores what it read; it undoes a change if and only if there was one |
| `Lifecycle.LockedWriteRestoresRead` | src/mcp_hub/mcp/discovery.py:276-302 | The same of the discovery inside a locked section |
| `Lifecycle.RegisterStoresDecision` | src/mcp_hub/openapi/importer.py:216-229 | A locked section writes what it decided on the record it read, whatever happened since; that is the decision on the present record if and only if the two agree |
| `Lifecycle.LockKeepsOthersOut` | src/mcp_hub/openapi/importer.py:50-59 | Between a locked section's read and its write the record changes only through a deletion or a background discovery |
| `Lifecycle.StaleWriteUndoesAccept` | src/mcp_hub/mcp/discovery.py:276-302 | A run from the empty registry in which an accept is undone |
| `Lifecycle.StaleWriteBringsBackDeleted` | src/mcp_hub/mcp/discovery.py:276-302 | A run from the empty registry in which a deleted server comes back |
| `Lifecycle.LockedDiscoveryBringsBackDeleted` | src/mcp_hub/openapi/importer.py:228-229 | The same through the discovery of a locked section, without any background task |
| `Lifecycle.LateRegisterBringsBackDeleted` | src/mcp_hub/routes/openapi.py:398-411 | The same through a rejection decided before the deletion |
| `OboCache.OBOTokenCache.Lookup` | src/mcp_hub/mcp/obo_cache.py:69-94 | A live entry is served and becomes the newest; a dead one is dropped |
| `OboCache.OBOTokenCache.Store` | src/mcp_hub/mcp/obo_cache.py:69-94 | The token becomes the newest entry and the bound holds again |
| `OboCache.OBOTokenCache.EvictIfNeeded` | src/mcp_hub/mcp/obo_cache.py:117-120 | The loop keeps the newest entries |
| `OboCache.OBOTokenCache.Invalidate` | src/mcp_hub/mcp/obo_cache.py:96-98 | Removes the entry of the key and no other |
| `OboCache.LookedReads` | src/mcp_hub/mcp/obo_cache.py:69-94 | An entry answers if and only if it has more than 30 seconds left; then it becomes the newest, and else it alone is dropped |
| `OboCache.StoredReads` | src/mcp_hub/mcp/obo_cache.py:69-120 | A stored token is the newest, alone under its key, and nothing else goes while there is room |
| `OboCache.Lifetimes` | src/mcp_hub/mcp/obo_cache.py:103-115 | 300 seconds unless the issuer names a lifetime, at least 30 if it does, cut to the end of the session |
| `OboCache.ServedBeforeExpiry` | src/mcp_hub/mcp/token_exchange.py:181-186 | Stored within 30 seconds of issue, a token is served only before its true expiry, for every lifetime |
| `OboCache.LateStoreOutlives` | src/mcp_hub/mcp/obo_cache.py:103-115 | The 30 seconds are exact |
| `OboProtocol.KeyPinsEverything` | src/mcp_hub/mcp/auth.py:409-434 | Keys are equal if and only if subject, issuer, server and purpose are |
| `OboProtocol.AlwaysInv` | src/mcp_hub/mcp/obo_cache.py:69-120 | In every interleaving the cache stays bounded, ordered by last use, and every entry was issued for its key |
| `OboProtocol.OwnTokensOnly` | src/mcp_hub/mcp/obo_cache.py:69-120 | Whatever was served was issued to the same subject and issuer for the same server and purpose, with a bounded expiry |
| `OboProtocol.InvalidatedIsGone` | src/mcp_hub/mcp/obo_cache.py:96-98 | In every run, after an invalidation no token is handed out or cached under that key until a fetch for it is stored |
| `OboProtocol.Forgotten` | src/mcp_hub/mcp/obo_cache.py:96-98 | An invalidation takes every token of its key and none of another caller, server or kind |
| `OboProtocol.EvictsLeastRecentlyUsed` | src/mcp_hub/mcp/obo_cache.py:117-120 | What makes room was used before everything that stays |
| `OboProtocol.ShorterSessionIsGivenLongerToken` | src/mcp_hub/mcp/obo_cache.py:103-115 | A run in which a token outlives the session it is served to |
| `OboProtocol.WithinSessionIff` | src/mcp_hub/mcp/obo_cache.py:69-115 | In every run, a served token's cached expiry is within the asking session if and only if the fetching session ended no later or the token's own lifetime did; a fresh token's always is |
| `OboProtocol.SessionsBoundTokens` | src/mcp_hub/mcp/obo_cache.py:69-115 | If every session that asks for a token ends by some time, what is served for it is never held valid beyond |
| `OboProtocol.FetchedForAsking` | src/mcp_hub/mcp/obo_cache.py:69-94 | Nothing is fetched but for a session that asked |
| `ToolCache.SortIsStable` | src/mcp_hub/openapi/server_tools.py:84-93 | Sorting keeps the order of entries with equal keys |
| `ToolCache.EqualKeysSameChoices` | src/mcp_hub/openapi/server_tools.py:20-28 | Equal cache keys mean the same selection set and the same override map, duplicates included |
| `ToolCache.KeysAlikeIff` | src/mcp_hub/openapi/server_tools.py:84-93 | Two records share a key if and only if they have one spec hash and one limit, and their choices differ at most in the order between different operations |
| `ToolCache.SharedToolCache.Lookup` | src/mcp_hub/openapi/server_tools.py:94-97 | A hit becomes the newest entry |
| `ToolCache.SharedToolCache.Store` | src/mcp_hub/openapi/server_tools.py:103-106 | The entry is stored and the oldest make room |
| `ToolCache.CacheAgrees` | src/mcp_hub/openapi/server_tools.py:78-109 | Under any interleaving of threads every answer equals the uncached result, names and cut descriptions included, and at most 32 entries are held |
| `ToolCache.KeyNeedsLimitAndDescription` | src/mcp_hub/openapi/server_tools.py:84-92 | Two records that differ only in an override's description, or one under two limits, are served differently |
| `Jwks.JWKSCache.KeyFor` | src/mcp_hub/auth/jwt_bearer.py:90-143 | The new state and whether a fetch was made; a key is returned if and only if the id resolves |
| `Jwks.FetchDue` | src/mcp_hub/auth/jwt_bearer.py:90-145 | In every run a call fetches if and only if the keys do not answer its id and there was no fetch yet, or none for an interval, or none since there are keys; the keys become what was parsed, unless nothing was |
| `Jwks.AlwaysTracks` | src/mcp_hub/auth/jwt_bearer.py:110-143 | What the two timestamps say about all fetches so far |
| `Jwks.AtMostOneShortGap` | src/mcp_hub/auth/jwt_bearer.py:110-122 | In any run at most one gap between fetches is shorter than the interval |
| `Jwks.RateBound` | src/mcp_hub/auth/jwt_bearer.py:110-143 | The last of n fetches starts at least n - 2 intervals after the first ends |
| `Jwks.KeysNeverVanish` | src/mcp_hub/auth/jwt_bearer.py:124-145 | Once keys are loaded there are always keys |
| `Jwks.ShortGapHappens` | src/mcp_hub/auth/jwt_bearer.py:116-122 | The one short gap is real |

## Left out

- Schema keywords that hold subschemas beyond the fragment (`dependentSchemas`, `unevaluatedProperties`, `unevaluatedItems`, `additionalItems`): conversion of them is modelled (`KeywordFate`, `LooseRefs`), their meaning is not. Keywords that 3.0 does not have are read there as in 2020-12.
- A server's settings stand as a whole for a number.
- Percent-decoding of ref texts: `unquote` is any function that leaves texts without `%` alone.
- Non-ASCII digits as list indexes in pointers.
- `BuildInputSchema`: takes the arguments' schemas together with the document and runs the ref check itself; the hub runs it at import.
- The description text added to a parameter's schema.
- `AlwaysServable`: the description limit does not change during a run, so stored tools carry their uncut descriptions.
- `OperationPlan`: keeps argument schemas as the spec has them; that converting them changes no verdict is `BuildInputSchema`.
- `OperationPlan`: parameter and request body objects are taken with their own refs resolved; `MapDocument` resolves them.
- `BuildRequest`: the body is the JSON value or the form's pairs, not its bytes.
- Numbers, lists and objects as path, query or header text are written by an arbitrary function.
- `Send`: a URL is its parts; resolving a location is an arbitrary function, and re-encoding of the query by the HTTP client is not modelled. Port 0 counts as the default port, as in the code.
- `SpecLoader`: values of a mapping are opaque, and the order of keys in the result is not modelled.
- `CheckPlainJson`: the texts of error messages and the path they name.
- Lone surrogates in argument texts, which the encoder refuses.
- Health checks and the other unlocked writers of a record.
- `CacheAgrees`: a tool's schemas and plan, which the document alone determines, are not compared again; it takes the spec hash to identify the document, its dialect included.
- `RateBound`: takes a clock that has started, since the code reads time 0 as never.
- SHA-256 and canonical serialisation, Swagger 2 conversion, media-type hints, streaming responses and the output schema of a tool.
- Network, DNS, TLS, the MCP protocol itself, JWT parsing and signatures, storage, routes, templates and tracing.
