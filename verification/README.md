# Verified model of the Rust tooling around the Cedar specification

The Rust crates of this repository generate schemas, entity hierarchies, values, residuals and policy sets for
differential testing, analyse policy sets with a symbolic compiler, and exchange symbolic terms with Lean. This
project models the algorithms in them that carry an invariant, and proves the invariant for every input and every
sequence of random choices.

Randomness. A generator draws from a finite supply of random data. The supply is a sequence of decoded choices
(`Choices`); a read fails at the end of the sequence or when the next choice does not fit. "For every run" means
for every such sequence, and "can be generated" means that there is one. The class methods and loops are proved
equal to functions that thread the sequence, and the theorems are about those functions. For each generator one of
the theorems says exactly what can be generated (`OutcomesIff`, `HierarchyIff`, `SchemaIff`, `TranslationIff`,
`PolicySetIff`), in terms of the result alone.

## The modules

- `SchemaTypes`, `CommonTypes`, `CommonTypesProofs`, `CommonTypesTheorems`: a pass that binds schema types to new
  names, turns the bindings into chains of common-type definitions, and rewrites a schema to refer to them. The
  resolver that gives a type its meaning recurses through the definitions, so it is written with fuel; `ResolvesTo`
  is the reading without fuel, and a type may have no outcome at all when definitions are cyclic.
- `CommonTypesOutcomes`: exactly which schemas the pass can end with. Any selection of the places where a type may be
  bound is bound, each to any id, and every bound type, outermost first, becomes a reference to any of its ids; so no
  bound type is left anywhere but at the end of its own chain.
- `SchemaGenerator`, `SchemaGeneratorOutcomes`, `SchemaConstructors`, `CommonTypesRuns`, `CommonTypesReferences`, `CommonTypesNames`,
  `CommonTypesCapture`, `CommonTypesIds`: the two ways in which a schema
  comes to be, and what the pass does to each. A schema from the generator is kept by every run
  (`GeneratedSchemaKept`). A schema read from a namespace definition may also hold *entity-or-common* names, which
  the resolver takes for an entity type unless a common type has their base name. **There the pass can change the
  meaning of a schema:** a new common type may get that base name as its id, even inside its own definition, and old
  definitions are dropped. `AlwaysKeptIff` says exactly when no run does, for any attribute list: each such name must
  be an entity type under the old definitions, and every type at which binding starts must be a plain reference to
  that same entity type. So nothing goes wrong where there are no such names or nothing to bind.
  `DefinitionKeptIff` is the case of a definition without common types, with its own attribute list;
  `AttributeCaptured` and `ContextNotCaptured` show a small schema of each sort. A breaking run draws no text but the
  base name itself, and the theorems assume only that the base names of the schema are possible ids.
  The new definitions are a separate question: `IdsExpandIff` says that every id of every run expands to exactly the
  type it was bound to if and only if no type at which binding starts mentions an entity-or-common name; otherwise
  some run gives an id a definition that never ends (`CyclicRun`, `AttributeCyclic`), although names elsewhere, as in
  action contexts, do no harm to the definitions. `NeverPanicsIff` says that common-type references alone make a run
  panic.
- `HierarchyUids`, `Hierarchies`, `HierarchyProofs`, `HierarchyData`, `HierarchyPools`: uids are generated for each
  entity type, the pool of all of them is shuffled in place and indexed by type, and parents are chosen among later
  entities only, found by binary search over the index. A parent relation is generated exactly when it is acyclic and
  its edges are allowed by the mode, with any attributes and tags that can be drawn; `HierarchyIff` is about the whole
  generator, uids included.
- `Analysis`, `AnalysisReport`: the policy-set analyser, with each solver call an exact answer about sets of requests.
  Its report is exact for policies in any order. **A case the model covers:** should an environment have no requests,
  every policy would count as matching all of them, and any two policies of the same effect would be reported as
  redundant although neither matches anything (`RedundantMeansMatching`). Whether a schema can have such an
  environment is not part of this model; the definitions include the case.
- `Terms`, `TermProofs`, `TermMeaning`, `TermNormalForms`, `SharedTerms`, `SharedTermMeaning`, `TermMessages`,
  `TermMessageMeaning`, `Numerals`, `ExtensionText`: symbolic terms, their two representations and the conversions
  both ways; rebuilding a term whose common subterms were factored out; the wire messages; and the text of decimal and
  IPv4 values. Each of the four forms of a term has an evaluator of its own, operators by name, and every conversion
  keeps the value under every interpretation. From the wire to internal terms and back
  **more can change than the order of sets and records:** `CanonicalIff` says that a term is left alone exactly when,
  besides sets and record entries, the fields of record types are listed once and in order, and the number of every
  bit-vector is its usual numeral, below two to the power of the width. `NormalizeBits` says what becomes of any other
  number: its remainder, so `7` of width 1 becomes `1`.
- `AttrValues`, `AttrValueRuns`, `AttrValueOutcomes`: attribute values of bounded depth, with the same bound as schema
  types; exactly for which types a value of the wrong type can come out; and exactly which values can.
- `Residuals`, `ResidualOutcomes`, `ResidualMessages`, `ResidualMessageMeaning`: residuals translated from expressions
  with injected errors, and their flat messages.
- `PolicyExprs`, `PolicyExprOutcomes`, `PolicySets`, `PolicySetOutcomes`: generated conditions, templates, links and
  static policies.
- `RequestEnvs`: the request environments of a schema under restrictions.

`Wrappers` and `Choices` hold the option and result types and the random source.

## Model

| member | source | states |
|---|---|---|
| SchemaTypes.MoreFuel | cedar-policy-generators/src/schema.rs:308-391 | an answer of the resolver does not change when it may follow more references |
| SchemaTypes.ResolvesToUnique | cedar-policy-generators/src/schema.rs:325-391 | a type has at most one outcome: a resolved type or a panic |
| SchemaTypes.WrittenResolves | cedar-policy-generators/src/schema.rs:308-391 | every type is what the resolver makes of the schema type one would write for it, names without a path qualified by the namespace |
| CommonTypes.Bindings.constructor | cedar-policy-generators/src/schema.rs:523-529 | starts with no bindings and no ids |
| CommonTypes.Bindings.AddBinding | cedar-policy-generators/src/schema.rs:534-559 | the renaming loop terminates; the type's list grows at its end by the first unused variant of the id, which joins the ids in use, whether or not the type was bound before |
| CommonTypes.Bindings.Bind | cedar-policy-generators/src/schema.rs:705-740 | one coin and perhaps one binding for the type, then for its element or attributes in order; the state afterwards and the remaining choices are exactly those of the recursive definition, and it fails with the same error |
| CommonTypes.Bindings.CommonTypes | cedar-policy-generators/src/schema.rs:671-701 | the loops over bound types and chains fill the map that the chain definition describes |
| CommonTypes.IntroduceCommonTypes | cedar-policy-generators/src/schema.rs:853-924 | the whole pass, over the attributes, tag types, entity types and actions of a schema, agrees with its definition for every choice sequence and iteration order, down to the annotations drawn last; `OutcomesIff` says what that definition can give |
| CommonTypesProofs.FreshIdIsFirstUnused | cedar-policy-generators/src/schema.rs:540-552 | the id allocated is unused, and every shorter variant was in use |
| CommonTypesProofs.AddKeepsValid | cedar-policy-generators/src/schema.rs:513-559 | `ids` stays exactly the set of ids over all lists, each id occurs once in one list, and exactly one new id is added |
| CommonTypesProofs.BindTypeSound | cedar-policy-generators/src/schema.rs:705-740 | binding a whole type keeps that invariant, and bound types contain no common-type references |
| CommonTypesProofs.ToCommonTypesDefines | cedar-policy-generators/src/schema.rs:671-701 | later chains never overwrite an entry of an earlier one |
| CommonTypesProofs.CommonTypesComplete | cedar-policy-generators/src/schema.rs:662-701 | exactly the allocated ids are defined, each as the next id of its chain and the last one as the rewritten type |
| CommonTypesProofs.ChainMeaning | cedar-policy-generators/src/schema.rs:662-701 | following a chain from its i-th id takes one lookup for each id left and ends at the body |
| CommonTypesProofs.IdMeaning | cedar-policy-generators/src/schema.rs:561-564 | following any id ends, within its remaining chain plus the size of the bound type, at exactly what that type means without common types |
| CommonTypesProofs.SubtermsMeaning | cedar-policy-generators/src/schema.rs:565-613 | rewriting the subterms of a type keeps its meaning, required flags included |
| CommonTypesProofs.RewrittenMeaning | cedar-policy-generators/src/schema.rs:646-660 | a bound type becomes a reference to one of its ids, and rewriting any type keeps its meaning |
| CommonTypesTheorems.RewriteEntitiesKeeps | cedar-policy-generators/src/schema.rs:616-640 | every entity type keeps its name, parents, enumeration, and the meaning of shape and tags |
| CommonTypesTheorems.RewriteActionsKeeps | cedar-policy-generators/src/schema.rs:885-911 | every action keeps its name, groups, principal and resource types, and the meaning of its context |
| CommonTypesTheorems.RunBindings | cedar-policy-generators/src/schema.rs:853-924 | a successful run rewrites with valid bindings, and its definitions are complete for them |
| CommonTypesTheorems.MeaningPreserved | cedar-policy-generators/src/schema.rs:853-924 | for every schema and every successful run: all entity shapes, tag types and contexts resolve to the same outcome before and after, if no new id is the base name of an entity-or-common name |
| CommonTypesTheorems.EveryIdExpands | cedar-policy-generators/src/schema.rs:561-564 | one run whose new ids avoid the base names of all entity-or-common names: every id is bound to exactly one type, at one place of one list, and resolves to that type's meaning |
| CommonTypesTheorems.SchemaKept | cedar-policy-generators/src/schema.rs:874-923 | a schema is kept when the rewriting keeps each of its types |
| CommonTypesOutcomes.OutcomesIff | cedar-policy-generators/src/schema.rs:853-924 | exactly which schemas a run can end with: any selection of places is bound, each to any id; every id is defined along its chain; and every bound type, outermost first, is replaced by a reference to any of its ids |
| CommonTypesOutcomes.NoBoundTypeLeft | cedar-policy-generators/src/schema.rs:646-660 | after a run no bound type occurs in any shape, tag type or context, nor strictly inside any definition |
| CommonTypesOutcomes.ReferenceReached | cedar-policy-generators/src/schema.rs:646-660 | for every run, bound type at a shape, tag type or context and id of that type, some run with the same bindings puts a reference to that id there |
| CommonTypesRuns.PickedRun | cedar-policy-generators/src/schema.rs:853-924 | some run binds nothing at all, and for every bindable type and possible id some run binds that type to that id and nothing else |
| CommonTypesReferences.SuccessIsFree | cedar-policy-generators/src/schema.rs:570-573 | a run succeeds only where nothing has a common-type reference |
| CommonTypesReferences.SucceedsIff | cedar-policy-generators/src/schema.rs:853-924 | some run succeeds if and only if neither the attribute list nor any shape, tag type or context has a common-type reference |
| CommonTypesReferences.NeverPanicsIff | cedar-policy-generators/src/schema.rs:570-573 | no run panics if and only if neither the attribute list nor any shape, tag type or context has a common-type reference |
| CommonTypesCapture.CapturedNeverDone | cedar-policy-generators/src/schema.rs:308-391 | a definition that refers to itself through a captured name never resolves, nor does any type with that name |
| CommonTypesCapture.CaptureBreaks | cedar-policy-generators/src/schema.rs:308-391 | bound to the base of a name, any type but the entity type it stands for keeps the name from resolving to that entity type |
| CommonTypesCapture.UnboundBreaks | cedar-policy-generators/src/schema.rs:912-923 | a name that the old definitions gave another meaning loses it, since they are dropped |
| CommonTypesNames.MentionedKept | cedar-policy-generators/src/schema.rs:853-924 | under the condition, every run keeps a schema that has such names |
| CommonTypesCapture.CapturingRun | cedar-policy-generators/src/schema.rs:853-924 | whenever the condition fails, some run changes the meaning of a shape, tag type or context, drawing only possible ids |
| CommonTypesCapture.AlwaysKeptIff | cedar-policy-generators/src/schema.rs:853-924 | for any attribute list and old definitions: all runs keep the meaning of a schema if and only if each of its entity-or-common names is an entity type under the old definitions and every type at which binding starts is that same entity type, named as such; where there is a common-type reference no run succeeds |
| CommonTypesIds.UnmentionedExpand | cedar-policy-generators/src/schema.rs:561-564 | where no type at which binding starts mentions an entity-or-common name, every id of every run is bound at one place and resolves to what its type means on its own |
| CommonTypesIds.CyclicRun | cedar-policy-generators/src/schema.rs:561-564 | where one does, some run gives the base of that name a definition whose resolution never ends |
| CommonTypesIds.IdsExpandIff | cedar-policy-generators/src/schema.rs:561-564 | the new definitions of all runs are acyclic, with every id expanding to exactly the type it was bound to, if and only if no type at which binding starts mentions an entity-or-common name; where there is a common-type reference no run succeeds |
| SchemaGenerator.GeneratedTypePlain | cedar-policy-generators/src/schema.rs:189-290 | a generated schema type has no references and no entity-or-common names, and denotes a type |
| SchemaGenerator.GeneratedSchemaPlain | cedar-policy-generators/src/schema.rs:1119-1332 | so do all entity shapes, tag types and contexts of a generated schema |
| SchemaGenerator.CollectedWithin | cedar-policy-generators/src/schema.rs:1339-1367 | and the types of its attribute list |
| SchemaGeneratorOutcomes.TypeIff | cedar-policy-generators/src/schema.rs:189-290 | exactly which schema types can be generated: declared entity types, extension types, and sets and records down to the depth, attributes in key order and each key once |
| SchemaGeneratorOutcomes.SchemaIff | cedar-policy-generators/src/schema.rs:1119-1332 | exactly which schemas: every shape, tag type and context within those bounds, over the given names, parents and actions |
| SchemaGeneratorOutcomes.AttrsOfAllRecords | cedar-policy-generators/src/schema.rs:427-473 | the attributes listed for a type without definitions are those of all records in it, outermost first |
| SchemaConstructors.GeneratedSchemaKept | cedar-policy-generators/src/schema.rs:853-924 | every run keeps every generated schema, and every id it introduces expands to exactly the type it was bound to, without any condition |
| SchemaConstructors.NestedAttributes | cedar-policy-generators/src/schema.rs:427-473 | listing the attributes of all levels adds no condition to that on the attributes of the shapes |
| SchemaConstructors.DefinitionKeptIff | cedar-policy-generators/src/schema.rs:974-1005 | a definition without common types, with the attribute list made for it, is kept by all runs if and only if every attribute of an entity shape and every tag has the entity type of each entity-or-common name |
| SchemaConstructors.AttributeCaptured | cedar-policy-generators/src/schema.rs:974-1005 | a schema with one attribute, whose type is such a name, is changed by some run |
| SchemaConstructors.ContextNotCaptured | cedar-policy-generators/src/schema.rs:974-1005 | the same name in an action context alone is kept by all runs |
| SchemaConstructors.DefinitionIdsIff | cedar-policy-generators/src/schema.rs:974-1005 | for a definition without common types and its attribute list: every id of every run expands if and only if no entity shape and no tag type mentions an entity-or-common name |
| SchemaConstructors.AttributeCyclic | cedar-policy-generators/src/schema.rs:974-1005 | the schema with one attribute has a run after which the definition of an id never ends |
| Hierarchies.Hierarchy.constructor | cedar-policy-generators/src/hierarchy.rs:51-71 | the index has the declared types and those of the pool, and lists under each type what a scan of the pool finds, in pool order |
| Hierarchies.Hierarchy.PartitionPoint | cedar-policy-generators/src/hierarchy.rs:277-283 | the binary search separates the uids at or before a position from the later ones |
| Hierarchies.CutIsScan | cedar-policy-generators/src/hierarchy.rs:277-283 | such a cut of an index list is the scan of the later part of the pool |
| Hierarchies.ScanSorted | cedar-policy-generators/src/hierarchy.rs:40-44 | a scan lists uids in strictly increasing pool position |
| Hierarchies.Hierarchy.UidsForType | cedar-policy-generators/src/hierarchy.rs:277-283 | the slice found by binary search equals filtering the later pool by type; a type without entry gives nothing |
| Hierarchies.Hierarchy.UidsAfter | cedar-policy-generators/src/hierarchy.rs:266-271 | exactly the uids with a later position than the entity, in pool order; with the pool up to the entity before them they make up the pool |
| Hierarchies.Hierarchy.ReplaceEntities | cedar-policy-generators/src/hierarchy.rs:242-262 | with the same uids in the same order, the untouched index stays right |
| Hierarchies.Hierarchy.ShuffleInPlace | cedar-policy-generators/src/hierarchy.rs:86-89 | the swaps in the array produce the shuffled sequence |
| Hierarchies.Hierarchy.FromUidsByType | cedar-policy-generators/src/hierarchy.rs:76-97 | the new hierarchy is valid, its order is the shuffled pool without duplicates, nobody has parents, and every type of the pool is indexed |
| Hierarchies.Hierarchy.ChooseOfTypes | cedar-policy-generators/src/hierarchy.rs:483-490 | the coins of the nested loops over allowed types and index slices are those of one pass over the scanned candidates |
| Hierarchies.Hierarchy.ChooseParents | cedar-policy-generators/src/hierarchy.rs:480-505 | the parents of one entity, in either mode; it is never its own parent, and an unknown type panics |
| Hierarchies.Hierarchy.ChooseEntity | cedar-policy-generators/src/hierarchy.rs:476-614 | one entity under its own uid: its parents, then its attributes and tags, exactly as drawn, and the draws see the pool |
| Hierarchies.Hierarchy.GenerateEntities | cedar-policy-generators/src/hierarchy.rs:472-615 | all entities in pool order replace those of the pool, and the hierarchy stays valid |
| Hierarchies.GenerateFromPool | cedar-policy-generators/src/hierarchy.rs:472-615 | from the uids on, the generator agrees with its definition and its result is valid |
| HierarchyUids.TypeUidsOnce | cedar-policy-generators/src/hierarchy.rs:434-469 | each type gets uids of its own, each once, and with an exact total equally many |
| HierarchyUids.PoolOnce | cedar-policy-generators/src/hierarchy.rs:424-471 | the pool of all types has every uid once |
| HierarchyPools.PoolIff | cedar-policy-generators/src/hierarchy.rs:424-471 | exactly which pools can be generated: for every type, in order, different uids of it, as many as the settings allow, those of enumerated types among their choices |
| Hierarchies.IndexedByType | cedar-policy-generators/src/hierarchy.rs:40-44 | the index of a valid hierarchy lists uids under their own type |
| HierarchyUids.GenerateHierarchy | cedar-policy-generators/src/hierarchy.rs:414-615 | the whole generator, for given entity types: uids, shuffle, and for each entity its parents, attributes and tags; the pool it shuffles has no repetition |
| Hierarchies.NotOwnParent | cedar-policy-generators/src/hierarchy.rs:504-505 | the assertion of the generator never fails |
| HierarchyProofs.ShufflePermutes | cedar-policy-generators/src/hierarchy.rs:84-89 | a shuffle permutes its input |
| HierarchyProofs.ShuffleReaches | cedar-policy-generators/src/hierarchy.rs:84-89 | every permutation is some shuffle |
| HierarchyProofs.ForwardOrderExists | cedar-policy-generators/src/hierarchy.rs:264-271 | every acyclic relation has an order in which all edges go forward |
| HierarchyProofs.GeneratedIsAcyclic | cedar-policy-generators/src/hierarchy.rs:472-505 | for every pool, mode and run: the pool order has each uid once, edges are allowed and go forward, and the transitive closure is irreflexive, whatever the graph of parent types |
| HierarchyProofs.AcyclicIsGenerated | cedar-policy-generators/src/hierarchy.rs:495-503 | any acyclic allowed relation over distinct uids is produced by some shuffle and coins, which the lemma builds, if every type is one the schema knows and attributes and tags can be drawn at all |
| HierarchyProofs.GeneratedIff | cedar-policy-generators/src/hierarchy.rs:414-505 | over distinct uids of known types, and where attributes and tags can be drawn at all, a parent relation can be generated if and only if it is acyclic and its edges are allowed |
| HierarchyData.GeneratedAsDrawn | cedar-policy-generators/src/hierarchy.rs:511-613 | for every pool, mode and run: each entity is listed under its own uid, with the attributes and tags that some choices draw for it |
| HierarchyData.HierarchiesIff | cedar-policy-generators/src/hierarchy.rs:472-615 | for distinct uids of known types, exactly which hierarchies can be generated: any order, any allowed parents later in the order, and for each entity any attributes and tags that can be drawn |
| HierarchyData.AnyDataWithAnyParents | cedar-policy-generators/src/hierarchy.rs:472-615 | any acyclic allowed relation goes with any attributes and tags that can be drawn |
| HierarchyPools.HierarchyIff | cedar-policy-generators/src/hierarchy.rs:414-615 | exactly which hierarchies the whole generator produces for given entity types: as many different uids of each as the settings allow, in any order, with any such parents, attributes and tags |
| Analysis.PolicyVacuous | cedar-lean-cli/src/analysis.rs:501-538 | per environment: matches all, some or no requests |
| Analysis.PolicySetVacuous | cedar-lean-cli/src/analysis.rs:473-499 | per environment: the set allows all, some or no requests |
| Analysis.ShadowingIsUnique | cedar-lean-cli/src/analysis.rs:542-609 | the four possible results exclude one another |
| Analysis.ShortcutsExact | cedar-lean-cli/src/analysis.rs:562-600 | the vacuity shortcuts answer what two full implication checks would |
| Analysis.ComputePermitShadowing | cedar-lean-cli/src/analysis.rs:542-609 | every entry of the result describes the two match sets |
| Analysis.ComputeForbidShadowing | cedar-lean-cli/src/analysis.rs:643-694 | the same for forbids, which are compared by matching |
| Analysis.ComputeOverrides | cedar-lean-cli/src/analysis.rs:614-641 | reports exactly the environments where both policies are non-vacuous and the permit's match set is inside the forbid's |
| Analysis.UpdateFindings | cedar-lean-cli/src/analysis.rs:697-718 | a table that held the relation for the pairs compared so far holds it for one pair more |
| Analysis.PairFindings.RecordShadowing | cedar-lean-cli/src/analysis.rs:87-115 | both directions of a comparison enter the redundancy table and the shadowing table of their effect, and only these |
| Analysis.PairFindings.RecordOverriding | cedar-lean-cli/src/analysis.rs:116-139 | an override enters under the permit |
| Analysis.PairFindings.ComparePair | cedar-lean-cli/src/analysis.rs:79-174 | one iteration of the pair loop, for each combination of effects |
| AnalysisReport.ComparePairs | cedar-lean-cli/src/analysis.rs:79-175 | after the loop all four tables hold their relation for all ordered pairs; no vacuity lookup fails |
| AnalysisReport.RelatedShareClass | cedar-lean-cli/src/analysis.rs:212-230 | in a symmetric and transitive map, the members of a class have that class |
| AnalysisReport.PeelClasses | cedar-lean-cli/src/analysis.rs:212-230 | whatever entry each round takes, the loop ends with pairwise disjoint sets, and they are the classes of size two or more |
| AnalysisReport.ClassesCover | cedar-lean-cli/src/analysis.rs:212-230 | the classes cover exactly the policies with a redundant partner |
| AnalysisReport.CountFindings | cedar-lean-cli/src/analysis.rs:241-253 | the sizes added up are the number of related pairs |
| AnalysisReport.BuildEntry | cedar-lean-cli/src/analysis.rs:281-325 | the entry of an environment is exact, no table lacks a row for it, and its count is zero exactly when there is no finding |
| AnalysisReport.BuildEntries | cedar-lean-cli/src/analysis.rs:281-330 | an exact entry for each environment with a finding, in order, and no other entry |
| AnalysisReport.AllVacuities | cedar-lean-cli/src/analysis.rs:60-63 | every policy's vacuity is known |
| AnalysisReport.VacuousPoliciesExact | cedar-lean-cli/src/analysis.rs:274-279 | the policies reported as vacuous are those that match all or no requests of every environment |
| AnalysisReport.AnalyzePolicySet | cedar-lean-cli/src/analysis.rs:54-176 | the report equals its set-theoretic definition: vacuity, equivalence classes, shadowed and overridden policies per environment |
| AnalysisReport.ShadowingIsStrictOrder | cedar-lean-cli/src/analysis.rs:542-694 | shadowing is a strict partial order that respects redundancy classes |
| AnalysisReport.RedundantMeansMatching | cedar-lean-cli/src/analysis.rs:562-600 | redundancy means an equal nonempty match set exactly in environments that have requests |
| Numerals.NumeralRoundTrip | cedar-lean-ffi/src/datatypes.rs:813-820 | a printed number parses to itself |
| TermProofs.TypeRoundTrip | cedar-lean-ffi/src/datatypes.rs:921-1000 | every type survives the way to the wire and back |
| TermProofs.OpRoundTrip | cedar-lean-ffi/src/datatypes.rs:1087-1127 | every well-formed operator survives the way to the wire and back, patterns included |
| TermMeaning.SortKept | cedar-lean-ffi/src/datatypes.rs:921-1000 | every type denotes the same sort before and after conversion from the wire, the last field of a key counting |
| TermMeaning.SymbolKept | cedar-lean-ffi/src/datatypes.rs:764-811 | every operator keeps its name and its data, and converts exactly when the characters of its pattern are scalar values |
| TermMeaning.LiteralKept | cedar-lean-ffi/src/datatypes.rs:813-874 | every primitive denotes the same literal, bit-vectors the number of their digits modulo two to the width, and converts exactly when it denotes one |
| TermMeaning.DecodeKeepsValue | cedar-lean-ffi/src/datatypes.rs:876-907 | for every interpretation: a wire term has a value exactly when it converts, and then the internal term has that value |
| TermMeaning.EncodeKeepsValue | cedar-lean-ffi/src/datatypes.rs:1138-1170 | so does the other way, whatever the order in which sets and records are listed |
| TermProofs.PrimRoundTrip | cedar-lean-ffi/src/datatypes.rs:813-874 | so does every primitive, bit-vectors through decimal text and networks through their two widths |
| TermProofs.TermRoundTrip | cedar-lean-ffi/src/datatypes.rs:876-907 | converting any well-formed internal term to the wire and back is the identity, whatever the order in which sets and records are listed |
| TermProofs.DecodedWf | cedar-lean-ffi/src/datatypes.rs:876-907 | whatever decodes is well formed, so the round trip applies to it |
| TermNormalForms.NormalizeIdempotent | cedar-lean-ffi/src/datatypes.rs:1138-1170 | from the wire and back is invisible to decoding and idempotent |
| TermNormalForms.NormalFormsDecide | cedar-lean-ffi/src/datatypes.rs:1138-1170 | normal forms are equal exactly when the decoded terms are |
| TermNormalForms.NormalizeSet | cedar-lean-ffi/src/datatypes.rs:1138-1170 | the normal form of a set holds the normal forms of its elements, each once, in the order of the terms |
| TermNormalForms.NormalizeArgs | cedar-lean-ffi/src/datatypes.rs:1138-1170 | that of an application keeps every argument in its place, normalized |
| TermNormalForms.NormalizeKeys | cedar-lean-ffi/src/datatypes.rs:1138-1170 | that of a record has each key once, in order |
| TermNormalForms.NormalizeEntry | cedar-lean-ffi/src/datatypes.rs:876-907 | and under each key the normal form of the last entry given |
| TermNormalForms.NormalizeBits | cedar-lean-ffi/src/datatypes.rs:1002-1010 | the normal form of a bit-vector is the numeral of its number modulo two to the width, and differs unless that was its text |
| TermNormalForms.TypeCanonicalIff | cedar-lean-ffi/src/datatypes.rs:965-1000 | a type is left alone exactly when the fields of its record types are listed once and in order |
| TermNormalForms.CanonicalIff | cedar-lean-ffi/src/datatypes.rs:1138-1170 | a term is left alone if and only if its numbers are canonical, the fields of its record types and the entries of its records are listed once and in order, and the elements of its sets stand for different terms, in order |
| SharedTerms.ResolveIsMeaning | cedar-lean-ffi/src/datatypes.rs:634-681 | resolving a body against the table is converting the body with all references expanded, and succeeds exactly when that does |
| SharedTerms.TableGrows | cedar-lean-ffi/src/datatypes.rs:688-701 | one more definition extends the table correctly, and a known id means that ids are not distinct |
| SharedTerms.Rebuild | cedar-lean-ffi/src/datatypes.rs:683-701 | succeeds exactly when ids are distinct, references go backwards and everything converts; the result is the direct conversion of the fully expanded root |
| SharedTermMeaning.SharingKeepsValue | cedar-lean-ffi/src/datatypes.rs:683-701 | for every interpretation: evaluating each definition once, in order, and then the root succeeds exactly when the term can be rebuilt, and gives the value of the rebuilt term |
| TermMessages.BaseOpCode | cedar-lean-ffi/src/messages.rs:674-711 | every operator without data has its number; the encoder passes no other, so the remaining branch is never reached |
| TermMessages.PrimCode | cedar-lean-ffi/src/messages.rs:798-809 | the same for primitive types |
| TermMessages.TypeRecovered | cedar-lean-ffi/src/messages.rs:776-853 | a reader recovers every type from its message |
| TermMessages.OpRecovered | cedar-lean-ffi/src/messages.rs:657-671 | and every operator |
| TermMessages.TermRecovered | cedar-lean-ffi/src/messages.rs:895-959 | and every term |
| TermMessages.TermMessageInjective | cedar-lean-ffi/src/messages.rs:895-959 | different terms have different messages |
| TermMessages.InternalTermSurvives | cedar-lean-ffi/src/messages.rs:895-959 | an internal term converted to the wire format, sent as a message, read and converted back is unchanged |
| TermMessageMeaning.SymbolSent | cedar-lean-ffi/src/messages.rs:657-711 | every operator is sent as the number that its name has in the message schema, with its data |
| TermMessageMeaning.SortSent | cedar-lean-ffi/src/messages.rs:776-853 | every type is sent as a message that denotes its sort |
| TermMessageMeaning.MessageKeepsValue | cedar-lean-ffi/src/messages.rs:895-959 | for every interpretation a message, read by numbers and names, has the value of the term that was sent |
| ExtensionText.DecimalRoundTrip | cedar-lean-ffi/src/datatypes.rs:399-408 | every 64-bit decimal reads back from its text, the least one and those between -1 and 0 included |
| ExtensionText.OctetsMakeAddress | cedar-lean-ffi/src/datatypes.rs:431-437 | the four printed octets make up the address |
| ExtensionText.V4RoundTrip | cedar-lean-ffi/src/datatypes.rs:423-439 | every 32-bit address and valid prefix reads back; an absent prefix reads as 32 (section 3.1 of RFC 4632) |
| ExtensionText.TextIsPrinted | cedar-lean-ffi/src/datatypes.rs:378-397 | for a well-formed network neither number conversion panics |
| ExtensionText.InternalV4Readable | cedar-lean-ffi/src/datatypes.rs:423-439 | so the text of every well-formed internal network reads back |
| AttrValues.BoundedTypeFits | cedar-policy-generators/src/schema.rs:189-280 | a type generated at a depth resolves, and below that depth none of its records has a required attribute |
| AttrValues.ExtCallTyped | cedar-policy-generators/src/expr.rs:1003-1050 | a generated extension call is a constructor of the wanted type on arguments of its parameter types, nested calls included |
| AttrValues.GenerateAttrValue | cedar-policy-generators/src/expr.rs:1061-1137 | the loops compute what the definition gives, whose outcomes `OutcomesIff` describes; it fails or its value has the type, required attributes present at every level, whenever the type fits the depth |
| AttrValues.UncutTyped | cedar-policy-generators/src/expr.rs:1061-1137 | a value has the type unless a record at the depth bound that a run can get to needs an attribute |
| AttrValueRuns.CanGenerateIff | cedar-policy-generators/src/expr.rs:1061-1137 | some run generates a value if and only if every required part can be served within the depth |
| AttrValueRuns.AlwaysTypedIff | cedar-policy-generators/src/expr.rs:1061-1137 | every value has the type if and only if no record at the depth bound that a run can get to needs an attribute |
| AttrValueRuns.UnfitMistyped | cedar-policy-generators/src/expr.rs:1061-1137 | where sets may have elements and everything can be served, that is if and only if the type fits the depth |
| AttrValueOutcomes.SetRunIff | cedar-policy-generators/src/expr.rs:1101-1115 | a set value is the list of the elements read, exactly one for each "yes" coin, in the order of reading |
| AttrValueOutcomes.RecordRunIff | cedar-policy-generators/src/expr.rs:1117-1135 | a record value holds exactly the values read for its required fields and for the optional ones with a "yes" coin |
| AttrValueOutcomes.OutcomesIff | cedar-policy-generators/src/expr.rs:1061-1137 | exactly which values can be generated: any list of up to the width of outcomes for the element type, in that order; records with an outcome for every required and any of the optional fields; the extension calls of the type; and the uids of the type |
| AttrValues.GenerateForBoundedType | cedar-policy-generators/src/schema.rs:99-130 | the depth bounds agree: a type generated at a depth and a value generated for it at the same depth, over any valid hierarchy or none |
| Residuals.InjectionUnderApproximates | cedar-policy-generators/src/residual.rs:49-144 | for every expression without unknowns and slots and all coins, the residual evaluates to an error or to what the expression evaluates to; without injected errors the two agree |
| Residuals.GeneratedResidualSound | cedar-policy-generators/src/residual.rs:49-144 | a residual's value is the expression's value |
| Residuals.ExactTranslationExists | cedar-policy-generators/src/residual.rs:49-144 | every expression has coins that inject nothing |
| ResidualOutcomes.ResidualOutcome | cedar-policy-generators/src/residual.rs:49-54 | the result is an error exactly when the coin says so, and otherwise a node like the expression over translations of its parts |
| ResidualOutcomes.TranslationIff | cedar-policy-generators/src/residual.rs:49-144 | exactly which residuals can be generated: the expression node by node, with errors in place of any of its parts |
| ResidualMessages.ChildrenRoundTrip | cedar-lean-ffi/src/messages.rs:270-388 | the children of a message are those of the residual, in order |
| ResidualMessages.RoundTrip | cedar-lean-ffi/src/messages.rs:270-388 | a reader of tag, payload fields and children recovers every residual |
| ResidualMessageMeaning.MessageKeepsValue | cedar-lean-ffi/src/messages.rs:270-388 | for every semantics a message, evaluated by its tag, has the value of the residual |
| PolicyExprs.ExprSlotFree | cedar-policy-generators/src/pst.rs:131-224 | an expression generated at any depth has no slot |
| PolicyExprOutcomes.ExprIff | cedar-policy-generators/src/pst.rs:131-224 | exactly which expressions can be generated: without slots, and within the bounds of depth, width, numbers and attribute paths |
| PolicySets.ClausesSlotFree | cedar-policy-generators/src/pst.rs:227-240 | nor has a generated clause |
| PolicySets.TemplateSlots | cedar-policy-generators/src/pst.rs:364-413 | the check of the clauses never fails, and a generated constraint holds only the slot it was offered, and none when none was |
| PolicySetOutcomes.TemplateIff | cedar-policy-generators/src/pst.rs:364-413 | exactly which templates can be generated: slots only where they are offered, and conditions, action ids and annotations within bounds |
| PolicySets.ArbitrarySlotted | cedar-policy-generators/src/pst.rs:453-463 | a template of a generated set always has a slot; one that took a slot is as drawn |
| PolicySets.NextIdIsNew | cedar-policy-generators/src/pst.rs:443-449 | the counter never repeats an id |
| PolicySets.ArbitraryValues | cedar-policy-generators/src/pst.rs:470-474 | a value for each slot and no other, as drawn in turn |
| PolicySets.ArbitraryLinks | cedar-policy-generators/src/pst.rs:467-481 | as many links as drawn, in order, under the ids after that of the template, each with values for exactly its slots |
| PolicySets.ArbitraryGroups | cedar-policy-generators/src/pst.rs:451-482 | as many templates as drawn, each followed by its links, under ids in order; all ids are distinct and the links fit |
| PolicySets.ArbitraryStatics | cedar-policy-generators/src/pst.rs:484-495 | as many static policies as drawn, under the next ids, none with a slot; the conversion never fails |
| PolicySets.ToMapKeepsAll | cedar-policy-generators/src/pst.rs:497-501 | collecting entries with distinct ids into a map drops nothing |
| PolicySets.CollectedIsWellFormed | cedar-policy-generators/src/pst.rs:497-501 | the collected set is well formed and has as many templates and policies as were generated |
| PolicySets.ArbitraryPolicySet | cedar-policy-generators/src/pst.rs:437-501 | the answer is the set made of everything drawn; it is well formed, and neither the check of the clauses nor the conversion to a static policy ever fails |
| PolicySetOutcomes.AssembledExactly | cedar-policy-generators/src/pst.rs:443-501 | that set has as many templates, links and static policies as were drawn, each under its number: first every template before its links, and then the static policies |
| PolicySetOutcomes.PolicySetIff | cedar-policy-generators/src/pst.rs:437-501 | exactly which policy sets can be generated: up to three templates with up to two links each and up to three static policies, all within the bounds of their parts, with ids in order |
| RequestEnvs.AllEnvsMembers | cedar-lean-cli/src/util.rs:182-226 | the unrestricted environments are exactly an action with one of its principal types and one of its resource types |
| RequestEnvs.AllEnvsCount | cedar-lean-cli/src/util.rs:182-226 | each of them is listed once for every mention of its action, principal type and resource type |
| RequestEnvs.SortSorts | cedar-lean-cli/src/util.rs:243 | the answer is sorted and a permutation |
| RequestEnvs.FilterSort | cedar-lean-cli/src/util.rs:188-243 | restricting the sorted list is sorting the restricted one |
| RequestEnvs.UnrestrictedKeepsAll | cedar-lean-cli/src/util.rs:40-46 | without a restriction every environment is kept |
| RequestEnvs.ToRequestEnvs | cedar-lean-cli/src/util.rs:181-245 | the nested loops return the environments of the unrestricted call that meet the restrictions, in its order, and an error exactly when there is a restriction and nothing remains |
| RequestEnvs.AnswerDeterministic | cedar-lean-cli/src/util.rs:242-243 | for a linear order the answer does not depend on the order in which actions and types are visited |
| RequestEnvs.AnswerCounts | cedar-lean-cli/src/util.rs:181-245 | each environment is listed as often as the schema has it if it meets the restrictions, and not at all otherwise |

## Left out

- Solver errors: every solver call answers exactly. Foreign calls, reference counting and the byte encoding of messages are not part of this model.
- SharedTerms.Rebuild: says when rebuilding fails, not with which of several applicable errors, because an application converts its operator after its arguments there and before them in the direct conversion.
- AnalysisReport.AnalyzePolicySet: does not model printing, and takes the request environments as a count; policies are identified by id and effect.
- AttrValues.GenerateAttrValue: strings, numbers and the constant pool are arbitrary text and arbitrary 64-bit integers; whether the text of an extension value is well formed is not stated, since the generators mutate it on purpose.
- PolicySets.ArbitraryPolicySet: entity uids and entity types, which the source draws from a hierarchy, are arbitrary text.
- SchemaGenerator.GeneratedSchemaPlain: the names, parents, action groups, and principal and resource types of a generated schema are arbitrary inputs, and its declarations are listed in the order drawn.
- HierarchyUids.GenerateHierarchy: attributes and tags come from an arbitrary function of the pool order, the entity and the remaining choices, their values are text, and the entity types are an input. What can be drawn for an entity is assumed to be drawable whatever choices follow.
- HierarchyUids.ExactUids: always ends, since every draw uses up a choice; in the source a draw from an enumerated type with a single choice may read no bytes, and then an exact total above one per type might never be reached.
- CommonTypesCapture.AlwaysKeptIff: is about schemas in which every extension name is known, and assumes that the base names of the entity-or-common names in the schema can come up as ids.
- CommonTypesTheorems.EveryIdExpands: is about one run whose new ids avoid the base names of all entity-or-common names; CommonTypesIds.IdsExpandIff has the exact condition for all runs.
- CommonTypes.IntroduceCommonTypes: the annotations of new common types, entity types and actions are not kept; those of attributes are.
- Residuals.InjectionUnderApproximates: excludes unknowns and slots, which the translation replaces by `true`; operations that evaluate all their arguments are uninterpreted.
- Random data: how bytes become choices is not part of this model, so a completeness result says that a sequence of choices exists, not that some bytes decode to it.
- The qualification of the names of a namespace definition, beyond the resolver's own, and source locations.
- The core library's types and the symbolic compiler are known by use only: bit-vectors reduce their value modulo a power of two, IPv4 and IPv6 prefixes have 5 and 7 bits, numbers parse from one or more digits and nothing else, ordered sets and maps list their members once in some fixed order, and environments are laid out by an arbitrary order.
- Enumerations and primitive values that are renamed one to one between the wire format, the internal terms and the messages are shared between the representations.
- IPv6 text and the text of dates and durations.
- The generators of typed expressions, size hints, tables, JSON output, file handling, command-line arguments and the comparison of two policy sets.
