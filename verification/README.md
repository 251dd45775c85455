# RAGFlow: scheduler, metadata filters, canvas migration and tool sessions, verified

A Dafny model of the parts of RAGFlow where a mistake is hard to see by reading one function, with proofs of what they
are for. `dafny verify dfyconfig.toml` checks everything.

- **The canvas scheduler** (`agent/canvas.py`). Class `Canvas.Canvas` keeps the path, the queue of partials and the error
  flag as fields and changes them in place, loop by loop as `_run_impl` does. Each method is proved against the state
  machine of `CanvasSpec` (one `Step` is one turn of the outer loop). About that machine: dependencies come first, every
  processed component is reachable, processed entries never move, a failed batch is undone, ranked graphs end, a
  suspension saves all that its last batch contributed and is resumed whole, and node-finished events are conserved
  (`CanvasSafety`, `CanvasProgress`, `CanvasReports`). `CanvasPaths` and `CanvasEvents` say what exactly a batch puts
  behind itself and reports. Graphs with iterations and loops are cyclic: `CanvasLoops` says
  exactly when their runs end, and ends loops within loops by a lexicographic measure. An iteration whose body forks
  into branches of different length need not end (`CanvasForkExample`). What a component does is an oracle: whether it failed, which contents are unread streams, whether a
  loop has ended, which successors it chose.
- **Metadata filters.** The in-memory evaluator with its re-bound query value (`MetaFilter`, `Rebinding`), the inverted
  index it runs on (`MetaIndex`), the Elasticsearch translation with an evaluator for the bool queries it emits
  (`EsFilter`, `EsQuery`, `Wildcards`), and the theorem that both select the same documents (`Pushdown`). What each side
  says of one value, for every query, is in `MetaMeaning` and `EsMeaning`. The Infinity translation emits text; a lexer
  and a parser for search conditions (NOT over AND over OR, sections 5.3, 8.5 and 8.12 of ISO/IEC 9075:1992) read it
  back (`SqlCondition`, `InfinityFilter`), and `InfinityMeaning` says which documents the text selects.
- **Canvas migration** (`agent/dsl_migration.py`). The rewrite of a stored JSON document (`Migration`, `References`,
  `Json`), shown to be idempotent with an exact description of its fixed points (`MigrationFixpoint`), to keep the graph
  and the references in braces (`MigrationTexts`, `MigrationRuns`, `MigrationDrawing`), to keep names and ids together
  and every other field as it is (`MigrationNames`, `MigrationFields`), to rename edge ids in one pass
  (`MigrationEdgeIds`, `MigrationEdgePairs`), and to be invisible to the scheduler: every run of the migrated document
  is the renamed run of the original (`MigrationRuns.MigrationIsInvisible`, on `CanvasRenaming`). That the components report the same, under their
  new ids, is a hypothesis of that theorem. It fails for a component that reads a reference without braces to a renamed
  component: such a reference is not rewritten (`MigrationDrawing.BareReferenceSurvivesIff`).
- **Variables** (`agent/canvas.py`). Nested dictionaries as heap objects, walked and changed in place (`VariableStore`),
  against a specification on values (`VariableTree`) that is lifted to variable expressions (`Variables`,
  `VariableNames`).
- **Streaming** (`Stream`), **metadata merging** (`MetadataUpdate`) and the **MCP session queue** (`McpProtocol` and
  `McpReplies` for all interleavings, `McpSession` for the object with its result queues on the heap).

`ast.literal_eval`, `str`, `json.loads`, `int` on a text and `getattr` are parameters. `Sane` says what is asked of the
first two.

Where code and documentation disagree, the model follows the code: `normalize_chunker_dsl` says that it only rewrites
identifiers, but it also writes a null `component_name` into a component object that had none (see
`MigrationFixpoint.LeftAloneIffCurrent`); and it silently drops a component when a legacy id is renamed to an id the canvas
already has (see `MigrationRuns.ComponentsSurviveIffNoClash`). `MigrationExample`, `CanvasExample`
and `CanvasForkExample` give inputs at which such conditions fail. A comment in `common/metadata_es_filter.py` takes
"not contains" on a list of values to mean the same on both sides; it does not (`Pushdown.NegativeAgreesIffUniform`,
`Pushdown.NotContainsDiffersOnLists`). The Infinity translator folds the members of "in" to lower case and compares
them with stored texts as they are, so it never selects a text with a capital letter (`InfinityMeaning.CapitalsAreNotIn`).

## Model

| member | source | states |
|---|---|---|
| Canvas.Canvas.RunBatch | agent/canvas.py:536-596 | The in-place pop loop leaves the left fold of the batch, and exactly the surviving entries are handed to the thread pool, in order |
| Canvas.Canvas.HasUnmet | agent/canvas.py:571-575 | The scan over input elements finds a dependency exactly when one is missing from the path before the component and the path is not a resumed one |
| Canvas.Canvas.Drain | agent/canvas.py:694-699 | The drain loop reports the queued partials up to the first that still streams, in queue order, and removes exactly those |
| Canvas.Canvas.Append | agent/canvas.py:723-729 | One id is put last, unless the component took its goto or the id is last already |
| Canvas.Canvas.Extend | agent/canvas.py:731-736 | The append loop as a fold over the successors |
| Canvas.Canvas.SendMessage | agent/canvas.py:644-699 | A message component emits its message, then the partials that are ready; nothing else changes |
| Canvas.Canvas.HandleError | agent/canvas.py:701-711 | Goto, default value or run error, in this order; the other-branch flag is set exactly when the goto was taken |
| Canvas.Canvas.ReportFinished | agent/canvas.py:713-721 | A component with an unread stream is queued unless the run has failed; every other non-container is reported at once |
| Canvas.Canvas.FollowEdges | agent/canvas.py:738-751 | The branches by kind append exactly the successors of the component, or nothing after a goto |
| Canvas.Canvas.FinishNode | agent/canvas.py:738-751 | An ended item reports its container before the edges are followed |
| Canvas.Canvas.PostOne | agent/canvas.py:642-751 | One turn of the post-processing loop |
| Canvas.Canvas.PostProcess | agent/canvas.py:640-751 | The post-processing loop over the batch |
| Canvas.Canvas.AnnounceBatch | agent/canvas.py:626-638 | A node-started event per entry, up to the first unknown id, which raises |
| Canvas.Canvas.Select | agent/canvas.py:759-760 | The two comprehensions over the frontier: fill-ups, and the other known ids |
| Canvas.Canvas.SettleBatch | agent/canvas.py:753-775 | After a batch: cut the path back on an error, suspend on fill-ups that still ask, or go on |
| Canvas.Canvas.Turn | agent/canvas.py:625-775 | One turn of the outer loop and its exit |
| Canvas.Canvas.ResetOutputs | agent/canvas.py:475-478 | Exactly the components on the path have their outputs reset |
| Canvas.Canvas.Run | agent/canvas.py:468-788 | The whole run equals the state machine started on the saved path, with "begin" appended unless the path resumes |
| CanvasSafety.PruneIsTheSelection | agent/canvas.py:560-579 | The pop loop leaves the prefix and the pending positions whose dependencies stand before them; there is one such selection and the loop leaves it |
| CanvasSafety.PruneKeepsTheMet | agent/canvas.py:560-579 | Every survivor was pending, and its dependencies stand before it in the result |
| CanvasSafety.ResumePrunesNothing | agent/canvas.py:572-573 | On a path that starts with a fill-up nothing is popped |
| CanvasSafety.FirstBatchIsWhole | agent/canvas.py:519-640 | The first batch of a run, fresh or resumed, loses nothing |
| CanvasSafety.PostRangeEdges | agent/canvas.py:642-751 | Post-processing appends only what a processed component contributes, and everything it contributes |
| CanvasSafety.StepKeepsInv | agent/canvas.py:625-775 | One turn keeps the invariant of a run: what is processed met its dependencies, and what is pending came from processed entries |
| CanvasSafety.RunInv | agent/canvas.py:625-775 | The invariant holds after any number of turns |
| CanvasSafety.DependenciesComeFirst | agent/canvas.py:560-579 | In any fresh run every processed id is begin, a fill-up, or has all its dependencies at smaller indices |
| CanvasSafety.ProcessedIsReachable | agent/canvas.py:701-751 | Every processed id is the end of a trail of contributed edges that starts at an entry the run began with |
| CanvasSafety.EveryBatchMeetsDependencies | agent/canvas.py:560-579 | In every batch of every run, also one whose turn fails or suspends, each component is begin, a fill-up, or stands behind its dependencies, unless the path is resumed |
| CanvasSafety.EveryBatchIsReachable | agent/canvas.py:701-751 | Each component of such a batch ends a trail of contributed edges from an entry the run began with |
| CanvasSafety.BatchFollowsEveryEdge | agent/canvas.py:738-751 | In every batch, also one whose turn fails or suspends, every edge a component contributes is on the path, at or behind the component, and what stands behind the batch was contributed by it; a turn that goes on leaves this path |
| CanvasPaths.ComponentAdds | agent/canvas.py:701-751 | What each component of any batch adds to the path: its goto targets as they are, or its successors with every stretch of equal ids, the one that is last already included, taken once |
| CanvasPaths.EveryEntryIsAdded | agent/canvas.py:701-751 | Every entry behind a batch was added by exactly one component of it |
| CanvasPaths.NothingIsRepeated | agent/canvas.py:723-729 | No entry that a component added without a goto repeats the entry before it, whoever added that |
| CanvasPaths.LastIsNotAppended | agent/canvas.py:723-729 | A component whose one edge leads to what is last already adds nothing |
| CanvasExample.BranchesMeetOnce | agent/canvas.py:723-751 | Two branches that meet: the component is on the path once |
| CanvasEvents.EdgesByKind | agent/canvas.py:701-751 | What follows a component of each kind, with and without a failure, down to the item a container starts with |
| CanvasEvents.EventsOfNode | agent/canvas.py:688-740 | The events of one component in order, and what is left in the queue: the message with the ready partials up to the first that streams, the default, its end, the end of its container |
| CanvasEvents.TurnOfBatch | agent/canvas.py:625-774 | A turn announces its pending components first; it fails exactly when one that ran fails unhandled, and suspends exactly when a fill-up behind the batch still asks |
| CanvasEvents.TurnAtTheEnd | agent/canvas.py:625-788 | A run finishes exactly when nothing is pending, and reports the last component of the path |
| CanvasEvents.TurnOfUnknown | agent/canvas.py:631-635 | An unknown id crashes the run after the components before it are announced |
| CanvasEvents.LooksAreNames | agent/canvas.py:506 | An id looks like a fill-up exactly when the name of the kind stands in it, in either case |
| CanvasSafety.StepKeepsProcessed | agent/canvas.py:640-775 | A turn leaves the entries below idx alone; a failing one leaves exactly them |
| CanvasSafety.ProcessedNeverChanges | agent/canvas.py:640-775 | The same over any number of later turns |
| CanvasSafety.FailureRestoresPath | agent/canvas.py:753-775 | The path of a failed run is the processed part of the state before the failing batch |
| CanvasSafety.FinishedRunIsComplete | agent/canvas.py:625-788 | A run that finishes has idx at the end of a nonempty path, so the final output lookup is defined |
| CanvasProgress.StepLowersRank | agent/canvas.py:625-756 | When in this turn a rank falls along every edge its components contribute, each judged by its own report, the turn lowers the bound on the rank of the frontier |
| CanvasProgress.TerminatesWithinRank | agent/canvas.py:625-756 | When it does so in every turn, the run stops within the bound plus one turns, repeated entries included |
| CanvasProgress.FreshRunTerminates | agent/canvas.py:622-756 | A fresh run then stops within the rank of begin plus two turns |
| CanvasProgress.AcyclicRunIsRanked | agent/canvas.py:701-751 | In an acyclic canvas whose routers choose among their own options the rank falls in every turn |
| CanvasProgress.AcyclicRunTerminates | agent/canvas.py:622-756 | A run of an acyclic canvas, fresh or resumed, ends within the ranks it starts below and one more turn |
| CanvasProgress.AcyclicCanvasTerminates | agent/canvas.py:622-756 | Every fresh run of an acyclic canvas ends within the rank of begin plus two turns, routers behind routers included |
| CanvasProgress.ResumedCanvasTerminates | agent/canvas.py:506-756 | Every resumed one ends within the highest rank on the saved path plus two turns |
| CanvasLoops.FewRoundsEnd | agent/canvas.py:622-756 | A run of a canvas with iterations and loops, of which at most so many turns hold another round, ends within (rounds + 1) times the number of ranks plus one |
| CanvasLoops.LoopingCanvasTerminates | agent/canvas.py:622-756 | When each item reports that it ended from some visit on, whatever the forks, the run ends; the bound is in the sum of these limits |
| CanvasLoops.EndsIffItemsEnd | agent/canvas.py:622-756 | A run of a canvas with loops ends if and only if there are such limits |
| CanvasLoops.NestedLoopsTerminate | agent/canvas.py:622-756 | When no component contributes more than one edge, it is enough that each item ends after so many visits in a row each time it is entered: loops within loops end, however often the outer ones enter the inner ones |
| CanvasLoopExample.NestedTerminates | agent/canvas.py:738-751 | An iteration within an iteration, whose items both go round more than once, meets the conditions of both theorems |
| CanvasForkExample.ForkedLoopNeverEnds | agent/canvas.py:738-751 | An iteration whose body forks into a short and a long branch meets all the other conditions, each loop ending after one round, and its run never ends |
| CanvasExample.RoutersTerminate | agent/canvas.py:742-743 | Two routers in sequence, the first choosing the second, meet the hypotheses and the run ends |
| CanvasProgress.FillUpsFirstIsStable | agent/canvas.py:758-760 | The saved path is a stable partition of the known frontier, fill-ups first |
| CanvasProgress.SuspensionSavesFrontier | agent/canvas.py:738-774 | A suspension loses nothing: what it saves is all that stands behind its last batch, fill-ups first, so that every edge of the batch to a known component was followed in the batch or is saved; the head is a fill-up, and the components to reset are the same |
| CanvasProgress.ResumptionRunsSavedFrontier | agent/canvas.py:475-622 | When fill-up ids carry their kind, the next run resumes: no begin is added, its first batch is the saved path, whole, and exactly the components on it are reset |
| CanvasProgress.ResumesIffNamed | agent/canvas.py:506-522 | A suspended run is resumed if and only if the first fill-up among what its last batch contributed carries the kind name in its id; otherwise the next run starts a new begin behind the saved path |
| CanvasExample.UnnamedIsNotResumed | agent/canvas.py:506-522 | A suspended run whose fill-up is called "ask" is not resumed: the next run starts a new begin behind it |
| CanvasReports.QueuedOrReported | agent/canvas.py:713-721 | Queued and promptly reported components are together every processed non-container, each once |
| CanvasReports.NodeConserves | agent/canvas.py:644-751 | Post-processing one component keeps the account: late reports followed by the queue grow only by a deferred component |
| CanvasReports.RangeConserves | agent/canvas.py:642-751 | The account at every point inside a batch |
| CanvasReports.ReportsInBatch | agent/canvas.py:642-751 | At every point inside any batch of any run from its start: late reports and then the queue are the deferred components in first-in-first-out order, and reports plus queue length count the non-containers processed |
| CanvasReports.ReportsOfRun | agent/canvas.py:694-721 | The same between the turns and when the run finishes; what is still queued then is never reported |
| CanvasReports.ReportsAtTheEnd | agent/canvas.py:753-774 | The same for a run that fails or suspends, its last batch included; what is still queued then is never reported |
| CanvasRenaming.PruneRenamed | agent/canvas.py:560-579 | The pop loop commutes with an injective renaming of ids |
| CanvasRenaming.NodeRenamed | agent/canvas.py:642-751 | So does post-processing one component |
| CanvasRenaming.StepRenamed | agent/canvas.py:625-775 | So does a turn of the outer loop |
| CanvasRenaming.RunsAreRenamed | agent/canvas.py:468-788 | Every run of a renamed canvas is the renamed run: path, index, partials, events and outcome, after any number of turns |
| Migration.RenameByPrefix | agent/dsl_migration.py:55-61 | The loop over the rename table yields the renamed id, the first matching prefix deciding |
| Migration.FillIdMap | agent/dsl_migration.py:53-61 | The id map has exactly the component ids as keys |
| Migration.RewriteComponentsLoop | agent/dsl_migration.py:82-106 | The loop that fills the new component dictionary, in order, later entries overwriting |
| MigrationEdgeIds.RewriteEdgeId | agent/dsl_migration.py:146-157 | The loop of replacements over an edge id renames the prefix of every legacy id standing in it exactly once and copies the rest, when each id, longest first, may follow those before it; it leaves no legacy id of the canvas when they cannot overlap at all |
| MigrationEdgeIds.EdgeIdsAreRenamedOnce | agent/dsl_migration.py:146-157 | Longest first, one pass follows when no id overlaps itself, an id replaced before it, or the new form of one; overlaps the other way round do no harm |
| MigrationEdgeIds.NoLegacyIdIsLeft | agent/dsl_migration.py:146-157 | Where legacy ids cannot overlap, none of them stands in the edge id afterwards |
| MigrationEdgePairs.EdgeIdsOfTwoIff | agent/dsl_migration.py:146-157 | Two legacy ids neither of which begins the other are renamed once in every edge id if and only if that condition holds of them |
| MigrationEdgePairs.ReplaceMarks | agent/dsl_migration.py:154-157 | A replacement in a text some of whose legacy prefixes are already renamed renames more of them, only at places where the id heads the text as it then is; such a place at the beginning is renamed |
| MigrationEdgePairs.HarmlessOverlap | agent/dsl_migration.py:146-157 | Two ids that overlap in some text and are nevertheless both renamed in every text |
| MigrationEdgeIds.ReplacementsAreOnePass | agent/dsl_migration.py:146-157 | Where legacy ids cannot overlap the order of the replacements does not matter |
| MigrationEdgeIds.OverlapIffNotApart | agent/dsl_migration.py:154-157 | One id can stand over the beginning of another in some text if and only if a proper tail of it begins like the other |
| MigrationEdgeIds.OverlappingIdIsMissed | agent/dsl_migration.py:146-157 | Two overlapping ids and an edge id in which the shorter one is missed because the longer one is replaced first |
| References.RefsAreMapped | agent/dsl_migration.py:32-71 | The references found in a rewritten text are the rewritten references, in order, with names and tightness unchanged |
| References.NoNewMatch | agent/dsl_migration.py:32-71 | A brace that opened no reference opens none after rewriting |
| References.SubNothing | agent/dsl_migration.py:67-71 | Substituting every id by itself leaves the text as it was |
| MigrationFixpoint.RenameOnce | agent/dsl_migration.py:22-61 | A renamed id is never legacy, and a current one is not renamed |
| MigrationFixpoint.MapTwice | agent/dsl_migration.py:89-104 | Mapping an id twice, first inside the value rewrite and then explicitly, is mapping it once |
| MigrationFixpoint.MigratedIsCurrent | agent/dsl_migration.py:35-164 | After one pass no component id, component name, label or node type is legacy |
| MigrationFixpoint.LeftAloneIffCurrent | agent/dsl_migration.py:35-164 | A document is left as it is if and only if it is current |
| MigrationFixpoint.MigrationIsIdempotent | agent/dsl_migration.py:35-164 | Migrating twice is migrating once, for every document |
| MigrationIds.LegacyIdsStayApart | agent/dsl_migration.py:22-61 | Two legacy ids never get the same new id |
| MigrationIds.InjectiveIffNoClash | agent/dsl_migration.py:53-61 | The id map is injective on the component ids if and only if no legacy id is renamed to an id already there |
| MigrationIds.RenamedLooksTheSame | agent/canvas.py:506 | Renaming never makes or unmakes an id that looks like a fill-up |
| MigrationIds.RenamingIsFaithful | agent/dsl_migration.py:53-61 | The renaming is injective, keeps "begin", and keeps which ids look like fill-ups |
| MigrationTexts.KindOfText | agent/dsl_migration.py:84-90 | Rewriting the texts of a component never changes which kind of component it is |
| CanvasLoading.KindsByName | agent/canvas.py:701-751 | A component is of a kind exactly when its name is that of the kind, in either case |
| CanvasLoading.WrittenIsLoaded | agent/component/base.py:605-608 | A stored component is loaded as it was written: kind, dependencies, edges, parent and, if it handles failures, its handler |
| MigrationNames.LegacyNames | agent/dsl_migration.py:22-30 | The three names and the node type that are renamed, with what they become, and no others |
| MigrationNames.IdsCarryNames | agent/dsl_migration.py:53-61 | The new id of name:rest is the new name, a colon and rest, for every name without a colon |
| MigrationNames.NamesStayWithIds | agent/dsl_migration.py:82-106 | A document whose component ids carry their names is migrated to such a document, clashes or not |
| MigrationNames.NameStaysWithId | agent/dsl_migration.py:82-106 | And so is each component among others, when no new id is taken |
| MigrationFields.NodeKeepsLabel | agent/dsl_migration.py:111-141 | A node whose id carries its label still carries it |
| MigrationFields.DocumentFields | agent/dsl_migration.py:106-164 | Field by field of the document: what is rewritten, and that nothing else changes |
| MigrationFields.ComponentFieldsMigrated | agent/dsl_migration.py:82-104 | Field by field of a component, both lists of neighbours included |
| MigrationFields.ObjFields | agent/dsl_migration.py:87-91 | In its object the name alone is renamed, or made null when there was none |
| MigrationFields.GraphFields | agent/dsl_migration.py:111-157 | Of the drawing the nodes and the edges are rewritten, one by one, and nothing else |
| MigrationFields.NodeFields | agent/dsl_migration.py:111-141 | Field by field of a node |
| MigrationFields.DataFields | agent/dsl_migration.py:127-141 | Field by field of its data |
| MigrationFields.EdgeFields | agent/dsl_migration.py:146-157 | Field by field of an edge |
| ReferenceSpelling.FoundIffSpelled | agent/dsl_migration.py:32 | Behind a brace exactly the texts of the stated characters are found as references, in exactly those parts |
| MigrationTexts.RefsRewritten | agent/dsl_migration.py:63-80 | Every template reference in a rewritten value names the image of the component it named, under the same variable name; none appears or gets lost |
| MigrationTexts.RefsSurviveIffQuiet | agent/dsl_migration.py:63-80 | That holds for all values if and only if no component id itself contains a reference to a legacy one |
| MigrationTexts.SubstitutesNothingIff | agent/dsl_migration.py:67-71 | A text is copied unchanged if and only if no reference in it names a component by a legacy id |
| MigrationTexts.LinkMigratedIff | agent/dsl_migration.py:63-104 | A listed text, rewritten and then mapped, is mapped once if and only if it is a component id or mentions no legacy one |
| MigrationRuns.ListMigratedIff | agent/dsl_migration.py:84-95 | The same for whole lists |
| MigrationRuns.ComponentMigrated | agent/dsl_migration.py:82-104 | Loading a migrated component gives the renamed component: kind, dependencies, downstream, parent and exception handler |
| MigrationRuns.RewrittenComponents | agent/dsl_migration.py:82-106 | The new dictionary is the old one entry by entry exactly when the mapped ids keep apart |
| MigrationRuns.ComponentsSurviveIffNoClash | agent/dsl_migration.py:82-106 | No component is lost if and only if no new id is taken |
| MigrationRuns.EdgesAreKept | agent/dsl_migration.py:92-95 | b is downstream (upstream) of a exactly when the image of b is downstream (upstream) of the image of a, dangling edges to a new name aside, which then lead to that component |
| MigrationRuns.MigratedGraphIsRenamedIff | agent/dsl_migration.py:82-106 | The graph loaded from the migrated components is the renamed graph, in the same dictionary order, if and only if no new id is taken |
| MigrationRuns.PathMigrated | agent/dsl_migration.py:106-109 | The saved path is mapped id by id, whatever the components are |
| MigrationRuns.ComponentsMigratedIff | agent/dsl_migration.py:82-106 | The components of the migrated document are mapped entry by entry if and only if no new id is taken |
| MigrationRuns.MigrationIsInvisible | agent/dsl_migration.py:35-164 | For documents in which nothing dangles and no new id is taken, every run of the migrated document is the renamed run of the original, for any reports and any number of turns |
| MigrationExample.ExampleIsMigratable | agent/dsl_migration.py:22-26 | A canvas with a legacy component to which MigrationIsInvisible applies |
| MigrationExample.CollisionLosesAComponent | agent/dsl_migration.py:104-106 | "Splitter:a" beside "TokenChunker:a": one of the two components is lost |
| MigrationExample.NamelessIsChanged | agent/dsl_migration.py:87-90 | A component object without a name is not left alone |
| MigrationExample.BareReferenceIsLost | agent/dsl_migration.py:63-71 | A bare reference to a renamed component names nothing afterwards |
| MigrationExample.BracedIdKeepsOldReference | agent/dsl_migration.py:63-71 | "{Splitter:a@x}" as an id beside "Splitter:a": its reference is not rewritten |
| MigrationExample.BracedLinkIsChanged | agent/dsl_migration.py:63-95 | The same text listed as an id in a canvas without such a component is changed |
| MigrationDrawing.ImagesAreKeys | agent/dsl_migration.py:82-106 | The image of every old component id is a key of the new dictionary, clash or no clash |
| MigrationDrawing.DrawingStillFits | agent/dsl_migration.py:111-157 | If node ids, node parents and edge ends name components before the migration, they do after it |
| MigrationDrawing.OtherTextsAreMigrated | agent/dsl_migration.py:159-162 | References in history, messages and reference name the images of the components they named; none names a component by its legacy id |
| MigrationDrawing.FormIsMigrated | agent/dsl_migration.py:140-141 | So do the references in the form a node shows |
| MigrationDrawing.BareReferenceSurvivesIff | agent/dsl_migration.py:63-71 | A reference without braces is left as it is, so it still names its component if and only if the id of that component is not legacy |
| MetaFilter.FilterOut | common/metadata_utils.py:40-117 | The bucket loop with its re-bound query value collects what the fold collects |
| MetaFilter.Run | common/metadata_utils.py:30-138 | The condition loop with its early empty return finds exactly the documents the and/or combination chooses; no conditions choose nothing |
| MetaMeaning.DateTest | common/metadata_utils.py:44-62 | A date asked for is compared with stored dates only, by the calendar |
| MetaMeaning.OtherTest | common/metadata_utils.py:63-111 | Any other comparison: integers as numbers, texts by the order of their characters but for case, a text and a number never but for "≠" |
| MetaMeaning.MembershipTest | common/metadata_utils.py:77-92 | In a plain text "in" looks for the stored text, in a list for a member, case aside |
| Rebinding.RebindingIsHarmless | common/metadata_utils.py:40-117 | On one-kind data the loop selects what a fresh test of every bucket would |
| Rebinding.BucketOrderIsIrrelevant | common/metadata_utils.py:40-117 | There the result does not depend on bucket order |
| Rebinding.MixedDataDependsOnOrder | common/metadata_utils.py:63-76 | A concrete pair of buckets on which the order does show |
| Rebinding.MixedDataExactly | common/metadata_utils.py:63-117 | For a numeral query and an order operator the loop agrees with fresh tests if and only if no passing text bucket follows a numeral |
| MetaIndex.AddKeepsRepresents | api/db/services/doc_metadata_service.py:787-799 | Filing one more value of a document keeps the index in step with the documents |
| MetaIndex.IndexValues | api/db/services/doc_metadata_service.py:791-799 | The loop over the values of a key files each under its text |
| MetaIndex.BuildIndex | api/db/services/doc_metadata_service.py:782-799 | The built index lists every document under the text of each of its values, and nothing else |
| MetaIndex.FilterInMemory | common/metadata_utils.py:196-214 | From stored rows to result: the in-memory fallback finds exactly the hits of the compiled query, so it does not matter which way a request takes |
| Coercion.SplitMembers | common/metadata_es_filter.py:487-497 | The members are, one each and in order, exactly the trimmed stretches between commas that are not blank |
| Coercion.CsvOrListLoop | common/metadata_es_filter.py:472-504 | The loops compute the members and their normal forms, with the error cases; the result is never empty |
| Membership.RawMembersAre | common/metadata_es_filter.py:472-497 | The members of a query are the items of the list that it is or spells, its filled stretches between commas, or itself |
| EsFilter.PlanPushdownLoop | common/metadata_es_filter.py:329-346 | The planning loop translates every condition in order and stops at the first that raises |
| Wildcards.EscapeIsPerCharacter | common/metadata_es_filter.py:576-578 | The three replacements in sequence equal escaping every character once |
| Wildcards.EscapedTextIsLiteral | common/metadata_es_filter.py:576-578 | An escaped text consumes exactly that text, for every text |
| Wildcards.ContainsPatternExact | common/metadata_es_filter.py:295-304 | The pattern of "contains" matches a value exactly when the text occurs in it, case aside |
| Wildcards.SuffixPatternExact | common/metadata_es_filter.py:310-312 | The pattern of "end with" matches exactly the values with that suffix |
| Wildcards.PrefixPatternExact | common/metadata_infinity_filter.py:180-183 | The LIKE pattern of "start with" matches exactly the values with that prefix |
| Pushdown.PlanMeaning | common/metadata_es_filter.py:147-177 | The rendered query is the and/or of the conditions, within the knowledge bases |
| EsMeaning.TranslatesIff | common/metadata_es_filter.py:194-312 | Which conditions are translated, and that all others raise |
| EsMeaning.PlansIff | common/metadata_es_filter.py:329-346 | A plan is made exactly when the logic is known and every condition is translated |
| EsMeaning.SupportedIff | common/metadata_es_filter.py:349-368 | Which conditions the routing check lets through |
| EsMeaning.ConditionSays | common/metadata_es_filter.py:194-312 | What the clause of every translated condition asks of every document, operator by operator, for all queries, lists of values and kinds of data |
| EsMeaning.CommaTextMeans | common/metadata_es_filter.py:284-286 | "in" over a comma-separated text asks for a text that is one of its stretches, case and white space aside |
| Pushdown.ConditionMeans | common/metadata_es_filter.py:194-312 | Condition by condition the clause hits a document when some of its values passes the test, or, for the negative operators, when there are values and all do |
| Pushdown.ConditionAgrees | common/metadata_es_filter.py:194-312 | On agreeable conditions that is what the in-memory side asks |
| Pushdown.IdsAreTested | common/metadata_utils.py:120-127 | The index answers a condition with exactly the documents one of whose values passes the test |
| Pushdown.PushdownPreservesMeaning | common/metadata_es_filter.py:329-369 | The plan exists, routing lets it through, and it hits exactly the documents the in-memory evaluator chooses, under either logic, for lists of values too |
| Pushdown.NegativeAgreesIffUniform | common/metadata_es_filter.py:75-86 | A negative operator agrees over a whole collection if and only if its test never tells two values of one document apart |
| Pushdown.NotContainsDiffersOnLists | common/metadata_es_filter.py:75-86 | A document tagged "a" and "b" on which "not contains" differs |
| Pushdown.EqualAgreesIffTrimmed | common/metadata_es_filter.py:412-435 | For a text query "=" agrees on all text values if and only if the query has no blanks around it |
| Pushdown.NotEqualAgreesIff | common/metadata_es_filter.py:268-273 | "≠", which routing refuses, agrees with the in-memory test on a document if and only if the test says the same of all its values |
| Pushdown.NotInAgreesIff | common/metadata_es_filter.py:288-293 | So does "not in" with a list of texts |
| Pushdown.EmptyAgreesIffPresent | common/metadata_es_filter.py:238-256 | "empty" agrees with the in-memory evaluator on a document if and only if the document has a value for the key |
| SqlCondition.ReadLiteralBack | common/metadata_infinity_filter.py:292-293 | Reading a SQL literal undoes quote doubling, for every text |
| SqlCondition.PrintedConditionReadsBack | common/metadata_infinity_filter.py:198-204 | Lexing and parsing a printed search condition gives back its tree |
| InfinityFilter.MemberLoop | common/metadata_infinity_filter.py:126-162 | The member loop splits the members into the two printed lists, or raises on a null member |
| InfinityFilter.NotInTreeMeans | common/metadata_infinity_filter.py:145-162 | The fragment of "not in", emitted without outer parentheses, means that no member is contained |
| InfinityFilter.TreeMeans | common/metadata_infinity_filter.py:98-188 | The tree of a condition says what the condition says, with the comparison symbols of the operators written out |
| InfinityFilter.FragmentPrints | common/metadata_infinity_filter.py:98-188 | Every emitted fragment is the printed form of the condition's tree |
| InfinityFilter.EmittedFilterMeansCombination | common/metadata_infinity_filter.py:191-204 | The emitted string parses, and denotes exactly the and/or combination of the conditions, for every nonempty list and any reading of the basic predicates |
| InfinityFilter.LikeIsExact | common/metadata_infinity_filter.py:180-188 | The doubly escaped LIKE reads back as a pattern that matches exactly the texts that start (end) with the user's text |
| InfinityMeaning.BuildsIff | common/metadata_infinity_filter.py:191-204 | For which conditions a filter text is emitted at all |
| InfinityMeaning.ConditionReads | common/metadata_infinity_filter.py:98-188 | On a row whose predicates read its values, with the order symbols written out, each condition says what it asks: order as order of integers, members folded to lower case |
| InfinityMeaning.EmittedFilterSelects | common/metadata_infinity_filter.py:98-204 | The emitted text, read back as SQL over such a row, selects exactly the documents that meet all conditions, or one |
| InfinityMeaning.RowReadsValues | common/metadata_infinity_filter.py:98-188 | Such rows exist, whatever the values |
| InfinityMeaning.CapitalsAreNotIn | common/metadata_infinity_filter.py:283-289 | No "in" over texts asks for a stored text with a capital letter |
| VariableStore.Assign | agent/canvas.py:311-313 | Assigning one key of a dictionary object on the way changes the tree in that place and nowhere else |
| VariableStore.StepDown | agent/canvas.py:309-312 | One turn of the walk makes room where there is no dictionary, without changing what the write will do |
| VariableStore.SetParam | agent/canvas.py:304-314 | The in-place walk leaves a tree-shaped value that is the specified write, in the same root object |
| VariableStore.GetParam | agent/canvas.py:252-279 | The reading loop, over objects, lists and parsed texts, returns what the path means, as the stored object itself where it is stored |
| VariableStore.ReadingMeans | agent/canvas.py:252-279 | Reading among the dictionary objects reads what the path means on the value they stand for |
| VariableTree.ReadBelow | agent/canvas.py:252-314 | A path that extends the written one reads inside the written value |
| VariableTree.ReadBeside | agent/canvas.py:252-314 | A path that leaves the written one reads as before if the shared keys led through dictionaries, and nothing if not |
| VariableTree.ReadAbove | agent/canvas.py:252-314 | A path that stops short of the written one reads a dictionary that holds the write |
| Variables.WrittenIsReadIff | agent/canvas.py:229-302 | Every value written at an expression is read back, if and only if the expression names an output or goes, through all outputs, into a dictionary that is one |
| Variables.WriteLeavesTheRest | agent/canvas.py:229-314 | What every expression with an output name, and every global, reads after a write at one |
| Variables.UnnamedWriteTouches | agent/canvas.py:281-314 | What a write through all outputs changes: the dictionary it goes into, and no other output |
| VariableNames.SpelledIsNamed | agent/canvas.py:229-246 | An expression names the global, or the component, output and path that it spells, in any number of braces and blanks |
| VariableNames.ReadsIff | agent/canvas.py:229-250 | Reading raises exactly for an unknown global or component |
| VariableNames.WritesIff | agent/canvas.py:281-302 | Writing raises exactly for an unknown component and below an output that is neither a dictionary nor empty |
| VariableNames.ItemsAreRead | agent/canvas.py:268-274 | Which item of a list is read, from the front or from the back |
| VariableNames.TextsAreParsed | agent/canvas.py:259-263 | A text on the way is read as the JSON value it spells, or as nothing |
| Stream.StreamMessage | agent/canvas.py:649-687 | For any chunks: contents sent, pieces spoken and text stored are all the reply; every nonempty chunk is sent once, in order; every spoken piece but the last is longer than 16 characters, and never are more than 16 left unspoken |
| Stream.ChunkInReply | agent/canvas.py:649-687 | The reply is every chunk in its place, without the two tags |
| MetadataUpdate.DedupeList | common/metadata_utils.py:277-286 | The loop keeps the first value of each text |
| MetadataUpdate.FirstOnlyKeeps | common/metadata_utils.py:277-286 | No text is lost and none is kept twice |
| MetadataUpdate.OneMoreIsLast | common/metadata_utils.py:277-286 | One more value comes last if its text is new and changes nothing if not: so the first of each text is kept, in order |
| MetadataUpdate.UsableIs | common/metadata_utils.py:303-310 | What a new value brings: a text itself, a list its texts, anything else nothing |
| MetadataUpdate.GivenFields | common/metadata_utils.py:289-300 | What counts as new metadata: a dictionary, or a nonempty text that reads as one |
| MetadataUpdate.Document.Update | common/metadata_utils.py:289-300 | Without a dictionary to merge, also after parsing a text, nothing changes; otherwise the fields are merged |
| MetadataUpdate.Document.Merge | common/metadata_utils.py:302-321 | Key by key, what the in-place merge leaves |
| MetadataUpdate.MergedTexts | common/metadata_utils.py:312-317 | A list that was there ends with exactly its own texts and the new ones, each once |
| MetadataUpdate.HeldStayFirst | common/metadata_utils.py:312-317 | The values of a list that was there stay in front, in order; anything else is replaced |
| MetadataUpdate.UpdateIsIdempotent | common/metadata_utils.py:289-321 | Merging the same metadata again changes nothing |
| McpProtocol.StepKeepsInv | common/mcp_tool_call_conn.py:128-259 | Every action of a caller, the worker or the closer keeps the invariant |
| McpProtocol.RepliesAreConserved | common/mcp_tool_call_conn.py:128-259 | At every interleaving, submitted calls are answered, queued, in flight or lost to a cancellation, and no result queue gets a second reply |
| McpProtocol.FirstInFirstOut | common/mcp_tool_call_conn.py:131-134 | Calls leave the queue in the order they were accepted |
| McpProtocol.NothingAfterClose | common/mcp_tool_call_conn.py:166-252 | After a close nothing is accepted or queued, and no reply is taken back |
| McpProtocol.ClosedMeansAnswered | common/mcp_tool_call_conn.py:128-252 | Without cancellations, a closed session whose worker is outside a call has answered every call exactly once |
| McpProtocol.StoppedForGood | common/mcp_tool_call_conn.py:129-164 | A worker stopped under a closed session never comes back |
| McpProtocol.CloseTellsTheQueued | common/mcp_tool_call_conn.py:237-252 | The drain tells every queued caller, and nobody else |
| McpProtocol.RunIsHonest | common/mcp_tool_call_conn.py:148-157 | An unknown task never gets an answer |
| McpReplies.RepliesAreCaused | common/mcp_tool_call_conn.py:128-252 | Over every run a reply is in a result queue if and only if an action caused it: the client came back while the worker was in that call, the worker refused it without a client, or the session closed over it |
| McpReplies.AnswersAreTheirs | common/mcp_tool_call_conn.py:148-162 | An answer a caller gets was given while the worker was in that very call |
| McpReplies.ReplyIsDelivered | common/mcp_tool_call_conn.py:148-164 | What the client returns or raises is the one reply of the call the worker is in, and no other result queue changes |
| McpReplies.TakeIsHandedOver | common/mcp_tool_call_conn.py:129-146 | The first waiting call goes to the client, or is refused without one |
| McpReplies.OtherActions | common/mcp_tool_call_conn.py:129-252 | What a call, a close, a wait that runs out, a cancellation and a new loop without a client change |
| McpSession.Session.Submit | common/mcp_tool_call_conn.py:166-171 | A closed session refuses; otherwise the request is queued last, with a fresh result queue |
| McpSession.Session.TakeRequest | common/mcp_tool_call_conn.py:129-146 | The worker takes the head of the queue, and answers at once when it has no client |
| McpSession.Session.Finish | common/mcp_tool_call_conn.py:148-164 | The client's reply, or the error of an unknown task, goes into the result queue of the call in flight and into no other |
| McpSession.Session.WaitOver | common/mcp_tool_call_conn.py:129-134 | A wait that times out goes back to the head of the loop, which a closed session leaves |
| McpSession.Session.RestartBroken | common/mcp_tool_call_conn.py:100-102 | When the transport fails the loop is entered again, now without a client |
| McpSession.Session.CancelWorker | common/mcp_tool_call_conn.py:135-164 | A cancelled worker leaves its loop, and the call in flight is lost |
| McpSession.Session.CloseSession | common/mcp_tool_call_conn.py:237-252 | The drain loop empties the queue, one reply to each queued caller |

## Left out

- Canvas.Canvas.Run: bounded by `fuel`, because a graph with a cycle may run forever; the theorems hold for every number of turns. Cancellation polls, webhook payloads and the events a run starts with are not modelled.
- Canvas.Canvas.Turn: the finished event that the source still emits when the error says that the task was canceled.
- Canvas.Canvas.RunBatch: a dependency on a component that does not exist only pops here; in the source gathering the input elements raises for it, so the run crashes.
- Components: bodies, models, speech, storage, timing, token accounting and history; a component is its kind, static dependencies, edges and the oracle's report. Its dependencies are the references in braces in its parameters.
- CanvasSafety.StepKeepsInv: states that have suspended or crashed; the batches of such turns are covered by `EveryBatchMeetsDependencies`, `EveryBatchIsReachable` and `BatchFollowsEveryEdge`.
- CanvasSafety.RunInv: the same.
- CanvasLoops.NestedLoopsTerminate: a sufficient condition. With forks, ending depends on the lengths of the branches and on their order; `EndsIffItemsEnd` gives the exact condition on the run, none is given on the graph alone.
- CanvasSafety.DependenciesComeFirst: between turns only; see `EveryBatchMeetsDependencies`.
- CanvasSafety.ProcessedIsReachable: between turns only; see `EveryBatchIsReachable`.
- A categorize or switch without `_next` output raises in the source; the report always has a list.
- Streams inside the scheduler: `Stream` models one message; the scheduler sees only whether a content is still an unread stream.
- The inputs a fill-up still asks for are an oracle.
- Lower-casing, digits and white space are ASCII, without Unicode case rules.
- MetaFilter.FilterOut: floating-point numbers, tuples and lists among the values; they compare in the source and match nothing here.
- EsFilter.CoerceScalar: a floating-point literal, which the source keeps as a number, becomes a text.
- Coercion.CsvOrListLoop: tuples, which the source takes for lists.
- InfinityFilter.MemberLoop: floating-point members, which the source prints as numbers.
- InfinityFilter.FragmentPrints: floating-point bounds and members.
- InfinityFilter: the meaning of the basic JSON predicates is a parameter, among them the quoting of extracted strings.
- Elasticsearch: how analyzed fields answer is a parameter of every theorem; the keyword length limit, the result-size cap and pagination are not modelled.
- Pushdown.PushdownPreservesMeaning: values are lists of integers and texts, without null values. Not claimed where the code refuses to push down ("≠", "not in"), where the two sides differ and it is said exactly when ("empty": `EmptyAgreesIffPresent`, "not contains" and "not empty" on lists: `NegativeAgreesIffUniform`), nor for "in" with a plain text, which is a substring test in memory only, and for order comparisons of texts and dates, which an analyzed field answers.
- Pushdown.ConditionAgrees: the same conditions; `ConditionMeans` says what the clause means without them.
- MetaIndex.BuildIndex: null values, and fetching the rows in pages.
- MetaIndex.FilterInMemory: agreement is claimed for the conditions of `PushdownPreservesMeaning`.
- Empty filter lists: guarded by the caller; the constant true condition emitted for them is not parsed.
- Migration: list entries that cannot be dictionary keys.
- MigrationRuns.MigrationIsInvisible: what the components report is carried across by hypothesis; a component that reads a bare reference to a renamed id may report otherwise.
- MigrationTexts.RefsRewritten: component ids that contain a reference to a legacy id, exactly those for which it fails (`RefsSurviveIffQuiet`).
- MigrationRuns.ComponentMigrated: the same, and listed texts that are no ids but mention a legacy one (`LinkMigratedIff`).
- MigrationDrawing.OtherTextsAreMigrated: component ids as in `RefsRewritten`.
- MigrationDrawing.FormIsMigrated: component ids as in `RefsRewritten`.
- MigrationEdgeIds.EdgeIdsAreRenamedOnce: the condition is exact for two ids (`MigrationEdgePairs.EdgeIdsOfTwoIff`) and sufficient for any number. With three it is not necessary, because a replacement can undo the harm of another, as with "Splitter:P", "PDFGenerator:D" and "Splitter:D"; ids one of which begins the other are covered by the sufficient half only.
- MigrationEdgeIds.RewriteEdgeId: the same.
- Variables: after a write through all outputs two outputs share a dictionary; a second write through it is not modelled.
- VariableStore: values are tree-shaped, so aliasing between stored values is excluded; lists are values, since no write goes into one.
- MCP: closing from another event loop, transports, thread pools, and the callers' own timeouts, which leave the session as it is.
- Crypto wrappers, HTTP clients, settings, administration, command line and front end.
