# Verified model of the application core

This project models the event-sourced, single-writer core of the repository in Dafny and
proves properties of it. A command is reviewed, turned into one event, appended to a
hash-linked stream, folded into projections, mirrored into tables and remembered by a
receipt. The modules follow that path.

| module | models |
|---|---|
| `Prelude`, `Sorting` | shared vocabulary: results, filters and maps over lists, a stable sort, ordered keys |
| `TextRules`, `TextMeaning`, `TagLists`, `MemoryDraft` | canonical text and what it keeps, the tag loop, memory drafts |
| `MemoryTypes`, `MemoryStore` | memory entities; preparing, writing and reducing memory commands |
| `MemoryInvariant`, `MemorySteps`, `MemoryView`, `MemoryCommit` | what the memory tables keep, and that projection and tables move together |
| `MemoryEffects` | what each memory command leaves in the tables, and exactly when it succeeds |
| `MemoryRun`, `MemorySafety` | whole runs of set, delete, propose, approve and reject |
| `MemoryProjection` | the memory projection and the table writes as objects updated in place |
| `RetrievalTypes`, `Retrieval`, `RetrievalChoice` | budgeted snapshot selection, its validators, metadata and replay, and which items it chooses |
| `ProfileDraft`, `ProfileDiff`, `ProfileProjection` | profile drafts, diffs, versions and the five-index projection |
| `SkillsProjection`, `SkillNames`, `SkillRetrieval`, `SkillRepository` | skill versions and names, built-in reconciliation, assigned retrieval, batched checks |
| `EventLog`, `ProjectionStore`, `ProjectionMeaning` | the event stream, its fold, stored rows, and what the fold says of the events |
| `Mirror` | profile rows and active rows, and their repair from the stream |
| `MemoryReviews`, `ProfileReviews` | the one-use review registries as protocols between threads |
| `ProfileCommands`, `ProfileNames`, `ProfileViews` | profile commands: when they can be prepared and are accepted, names, views |
| `Receipts`, `Execution` | executing, recording and replaying commands, and exactly when each succeeds |
| `Rebuild` | rebuilding every table from the stream, and the engine of the profile projection |

How to read it. Code that computes is written as functions, and what the code promises is
stated in lemmas about them. Code that updates objects or runs loops is written as methods,
most of them in classes with the fields the source updates; each is proved equal to its
function, or to what the function is for. Identifiers, digests and times are numbers.
Library behaviour (Unicode folding, hashing, serialisation) is a field of a record, so a
lemma assumes of it only what its `requires` names: `Decodes` and `ReadsBack` that
serialised values read back, `CollisionFree` and `Injective` that a digest has no collisions.
A transaction either commits the new state or keeps the old one. Integers are unbounded and
the limits of 32- and 64-bit fields are written out where the code checks them.

## Findings

Two properties one would expect are false of the code. Both stay as the code has them.

- A profile diff prints a skill reference without its content digest
  (src/agents/diff.rs:145-152). `ProfileDiff.DigestIsNotShown` gives, for any added or
  upgraded reference, another candidate with the same diff, and
  `ProfileDiff.DiffDeterminesExactly` shows that a diff determines the candidate's references
  exactly when the candidate adds and upgrades nothing. Between reference lists the skill
  table accepts, the diff does determine them (`SkillRepository.StoredRefsAreDetermined`).
- The guard of the profile review registry does not release a reservation when it is dropped,
  unlike the guard of the memory registry. `ProfileReviews.AbandonedReservation` is a run that
  leaves a review reserved by nobody, and `ProfileReviews.GuardedExactly` shows that reserved
  implies owned exactly in the runs that never drop a guard over a reservation. The service
  never does: `Receipts.ExecutionFreesReview` for every execution, `Receipts.RunsFreeReview`
  for every run, and `Receipts.ExecutionIsPolite` for its steps on the registry.

## Model

| member | source | states |
|---|---|---|
| `TextRules.FoldIdempotent` | src/memory/entry.rs:778-793 | folding whitespace twice is folding it once, for every text |
| `TextRules.FoldChars` | src/memory/entry.rs:778-793 | folding introduces no character except the single space |
| `TextRules.FoldWhitespace` | src/memory/entry.rs:778-793 | the one-pass loop with its pending-space flag yields the words of the text with one space between neighbours |
| `TextRules.CanonicalMemoryLineIdempotent` | src/memory/entry.rs:689-703 | an accepted single line is accepted again, unchanged |
| `TextRules.CanonicalMemoryMultilineIdempotent` | src/memory/entry.rs:704-717 | an accepted multi-line text is accepted again, unchanged |
| `TextRules.CanonicalVisibleTextIdempotent` | src/agents/normalization.rs:56-76 | accepted visible profile text is accepted again, unchanged |
| `TextMeaning.LineEndingsMeaning` | src/memory/entry.rs:763-766 | rewriting line endings keeps every character in its order, except that a carriage return before a line feed is dropped and any other one becomes a line feed |
| `TextMeaning.FoldMeaning` | src/memory/entry.rs:778-793 | folding gives exactly the maximal runs of the text without whitespace, all of them, in their order, with one space between neighbours |
| `TextMeaning.MemoryLineMeaning` | src/memory/entry.rs:689-703 | a single line is unsafe exactly when it holds a line break or an unsafe character, and otherwise is its words, within the length asked for |
| `TextMeaning.MemoryMultilineMeaning` | src/memory/entry.rs:704-717 | a multi-line text is refused exactly for an unsafe character other than a carriage return, or for its length |
| `TagLists.PairsMeaning` | src/agents/profile.rs:199-300 | the tag loop succeeds exactly when every tag parses on its own and no two share a comparison key |
| `TagLists.CanonicalTagsIgnoreOrder` | src/memory/entry.rs:587-627 | an accepted tag list is accepted in every order, with one canonical form |
| `TagLists.CanonicalTagsIdempotent` | src/memory/entry.rs:587-627 | canonical tags are a fixed point, without assuming that key normalisation is idempotent |
| `TagLists.CanonicalTagsMeaning` | src/memory/entry.rs:587-627 | the canonical tags are the texts of the given tags, each once, by strictly ascending key |
| `TagLists.CollectTags` | src/memory/entry.rs:587-627 | the loop with its set of seen keys and its final sort computes the canonical tags or the first failure |
| `MemoryDraft.DraftIdempotent` | src/memory/entry.rs:587-627 | everything the draft constructor returns is canonical: rebuilding it is the identity |
| `MemoryDraft.DraftIgnoresTagOrder` | src/memory/entry.rs:587-627 | tag order changes neither acceptance nor the draft |
| `MemoryDraft.DraftMeaning` | src/memory/entry.rs:587-627 | a draft exists exactly when display key, value and tags each have an admissible canonical form, and holds each of them under the key the display key folds to |
| `MemoryDraft.CreateDraft` | src/memory/entry.rs:587-627 | the constructor with its tag loop builds exactly the canonical draft |
| `MemoryTypes.PreparedEditShowsAChange` | src/memory/review.rs:225-305 | a prepared edit shows a difference, field by field exactly the fields that differ |
| `MemoryTypes.DiffMeaning` | src/memory/review.rs:341-401 | the field diff lists a field exactly when its values differ, and is empty exactly when none does |
| `MemoryRun.ChecksMeaning` | src/app/service.rs:2473-2600 | in a sound state the resolution checks succeed exactly for a current review; the checks against projection, approval and proposal never add a refusal, and staleness is reported exactly when only the supplied entry state is out of date |
| `MemoryRun.PreparedCommits` | src/app/service.rs:2227-2862 | the row writes and the reduction of every event a preparation builds go through, numbers permitting |
| `MemoryRun.ExecuteMeaning` | src/app/service.rs:1745-1985 | a memory command fails in its preparation, with that error, or because the stream or the version column has no signed 64-bit number left, and succeeds otherwise; afterwards the invariant holds again |
| `MemoryRun.ResolveSucceedsExactly` | src/app/service.rs:2473-2696 | approving or rejecting succeeds exactly when the review is current and room and stored numbers allow it, and is never stale when the supplied entry state is current |
| `MemorySafety.PendingProposalsAreCurrent` | src/app/service.rs:2351-2369 | in every reachable state a pending proposal expects exactly the current state of its key and would change it |
| `MemorySafety.HistoriesAreChains` | src/memory/entry.rs:165-254 | in every reachable state a key's history is versions 1..n of one entry, each naming its predecessor and differing from it, no tombstone after a tombstone, and the current row is the last; approvals included |
| `MemorySafety.StatusIsTheApprovals` | src/app/service.rs:2662-2694 | in every reachable state a proposal's status is its approval's, and pending means unresolved on both sides |
| `MemorySafety.AcceptedProposalsAreVersions` | src/app/service.rs:2616-2661 | accepted proposals correspond one to one with the versions that name them, and such a version has the content its proposal asked for, or is the tombstone it asked for |
| `MemorySafety.IdentitiesAreUnique` | src/persistence/memory_repository.rs:661-676 | no two rows share a version id, and two rows share an entry id exactly when they belong to one key |
| `MemorySafety.CapacitiesAndProjection` | src/memory/projection.rs:181-224 | in every reachable state at most 1024 present entries and 256 pending proposals exist per namespace, and the projection is the one the tables stand for and passes its own check |
| `MemorySafety.RunGrows` | src/persistence/memory_repository.rs:661-1075 | over any run versions are only appended, proposals keep their content, and what was resolved never changes |
| `MemorySafety.ResolvedAtMostOnce` | src/app/service.rs:2473-2600 | once a proposal is resolved, every later attempt to resolve it is refused, whatever ran in between |
| `MemorySafety.ResolutionResolves` | src/app/service.rs:2601-2696 | a successful approve or reject moves the pending proposal it names to accepted or rejected |
| `MemorySafety.CommandsFailInPreparation` | src/app/service.rs:1745-1985 | in every reachable state a command succeeds exactly when it can be prepared and the stream has a number left: version numbers never run out first |
| `MemoryEffects.SetSucceedsExactly` | src/app/service.rs:2227-2380 | a direct set succeeds exactly when a human holds its review, names the key's present state, changes it and there is room; then the key's row is the next version with the draft's display key, value and tags, made now and by no proposal, its open proposals are expired, and no other row changes |
| `MemoryEffects.DeleteSucceedsExactly` | src/app/service.rs:2227-2380 | a direct delete succeeds exactly for the present row it names; then the key's row is its tombstone under the same display key, its open proposals are expired, and no other row changes |
| `MemoryEffects.DirectRefusals` | src/app/service.rs:2265-2301 | with the review in hand a state that is not the key's, or would not change, is a mismatch, and a key too many is a matter of capacity; nothing else is either |
| `MemoryEffects.ProposeSucceedsExactly` | src/app/service.rs:2382-2471 | a proposal succeeds exactly when an agent speaks for its own profile, names the key's present state, would change it, gives an admissible rationale and there is room; then one pending proposal with its pending approval is there, saying what was asked, and no version is touched |
| `MemoryEffects.ResolutionEffects` | src/app/service.rs:2473-2700 | a successful approval makes the key's next version carry out the proposal's operation, accepts the proposal with its approval and expires the other open ones of the key; a successful rejection only closes the proposal with its approval |
| `MemoryEffects.EditPrepared` | src/memory/review.rs:225-305 | an edit is prepared exactly when it names the state the entry is in and changes it |
| `MemoryCommit.OutdatedInView` | src/recovery/reducer.rs:825-876 | the expirations the reducer recomputes are those the service listed |
| `MemoryCommit.ExpirationsSettle` | src/app/service.rs:2351-2369 | the expirations of an event name each open sibling proposal of the key once, and each can be applied |
| `MemorySteps.PutPreserves` | src/app/service.rs:2738-2862 | adding a well-built version and settling every open proposal of its key keeps the whole table invariant |
| `MemorySteps.CreatePreserves` | src/persistence/memory_repository.rs:922-966 | storing a new pending proposal with its approval keeps the table invariant |
| `MemorySteps.RejectPreserves` | src/persistence/memory_repository.rs:1012-1075 | rejecting a pending proposal keeps the table invariant |
| `MemoryInvariant.InsertSucceeds` | src/persistence/memory_repository.rs:661-729 | the uniqueness rules and guards of the version table never refuse a well-built version |
| `MemoryInvariant.ResolveRowsSettle` | src/app/service.rs:2738-2862 | writing a list of resolutions settles exactly the proposals they name |
| `MemoryView.ViewResolves` | src/memory/projection.rs:162-179 | resolving in the projection follows resolving in the tables |
| `MemoryProjection.ProjectionState.CheckEntries` | src/memory/projection.rs:181-224 | the loop over inserted ids accepts exactly the entry maps without a structural fault |
| `MemoryProjection.ProjectionState.CheckProposals` | src/memory/projection.rs:181-224 | the loop accepts exactly the structurally sound proposal maps |
| `MemoryProjection.ProjectionState.CountPending` | src/memory/projection.rs:181-224 | one pass counts the pending proposals of every namespace |
| `MemoryProjection.ProjectionState.ValidateStructure` | src/memory/projection.rs:181-224 | the whole check, with the error it reports first |
| `MemoryProjection.ProjectionState.ApplyEntry` | src/memory/projection.rs:98-127 | the new projection, or the same one and the error |
| `MemoryProjection.ProjectionState.CreateProposal` | src/memory/projection.rs:128-161 | the new projection, or the same one and the error |
| `MemoryProjection.ProjectionState.ResolveProposal` | src/memory/projection.rs:162-179 | the new projection, or the same one and the error |
| `MemoryProjection.TableState.PutEntry` | src/persistence/memory_repository.rs:661-729 | the version row and the current row of its key, or no write that survives the transaction |
| `MemoryProjection.TableState.Settle` | src/persistence/memory_repository.rs:1012-1075 | a proposal and its approval resolved together |
| `MemoryProjection.TableState.SettleAll` | src/app/service.rs:2738-2862 | the loop over the expired siblings resolves all of them or stops at the first that does not fit |
| `MemoryProjection.TableState.Write` | src/app/service.rs:2738-2862 | all writes of one event as the specification orders them |
| `RetrievalTypes.DistinctRefsBreakTies` | src/memory/retrieval.rs:1110-1169 | once repeated references are refused, ties in either sort order are ties of an item with itself |
| `RetrievalTypes.MetadataOrderIsResort` | src/memory/retrieval.rs:1046-1109 | the pairwise order check on metadata accepts exactly the lists a re-sort leaves alone |
| `RetrievalTypes.MetadataIsValid` | src/memory/retrieval.rs:605-622 | metadata of a valid snapshot passes the metadata validator |
| `RetrievalTypes.ReplayRestores` | src/memory/retrieval.rs:623-640 | replaying a valid snapshot's metadata over its items gives the snapshot back |
| `RetrievalTypes.ReplayReproducesMetadata` | src/memory/retrieval.rs:623-672 | any successful replay is valid and shows exactly the metadata and items it was given |
| `RetrievalTypes.ReplayIsUnique` | src/memory/retrieval.rs:623-672 | with injective digests, metadata replays to at most one snapshot whatever items are offered |
| `Retrieval.SelectIgnoresOrder` | src/memory/retrieval.rs:843-889 | selection is a function of the eligible items as a collection: neither order nor ineligible items matter |
| `Retrieval.SelectIgnoresShuffling` | src/memory/retrieval.rs:843-889 | every permutation of the items read gives the same result |
| `Retrieval.SelectionMeaning` | src/memory/retrieval.rs:843-989 | selection refuses exactly repeated references, fails otherwise only on counter overflow, and returns a snapshot that passes the re-sorting, re-summing validator, conserves every total and omits nothing that would still fit |
| `Retrieval.SnapshotMeaning` | src/memory/retrieval.rs:843-989 | the first entry that cannot be read decides, then the first such summary; otherwise the whole selection result above |
| `Retrieval.SnapshotIgnoresOrder` | src/memory/retrieval.rs:843-889 | over error-free reads the snapshot depends only on the eligible items as a collection |
| `Retrieval.ReadItems` | src/memory/retrieval.rs:843-866 | the collecting loop returns every value or the first error |
| `Retrieval.TakeSnapshot` | src/memory/retrieval.rs:843-889 | reading, filtering, sorting and admitting compute the snapshot or the first error |
| `Retrieval.FinishSucceeds` | src/memory/retrieval.rs:968-989 | the independent validator never refuses what the builder built |
| `Retrieval.AllEntriesConsidered` | src/memory/retrieval.rs:908-930 | the admission of entries keeps exact counters, a sublist within budget, and nothing omitted that would fit |
| `Retrieval.AllSummariesConsidered` | src/memory/retrieval.rs:932-966 | the same for summaries, under bytes and sources together |
| `Retrieval.SnapshotBuilder.ConsiderEntry` | src/memory/retrieval.rs:908-930 | the builder after one entry, or unchanged with the overflow error |
| `Retrieval.SnapshotBuilder.ConsiderSummary` | src/memory/retrieval.rs:932-966 | the builder after one summary, or unchanged with the overflow error |
| `Retrieval.RejectDuplicateRefs` | src/memory/retrieval.rs:1152-1169 | the set-inserting loops accept exactly the lists without a repeated reference |
| `Retrieval.BuildSnapshot` | src/memory/retrieval.rs:843-889 | the two admission loops over a builder compute the selection |
| `RetrievalChoice.SnapshotIsTheChoice` | src/memory/retrieval.rs:843-1020 | of the items read a snapshot holds the one greedy choice: exactly the wanted items that still fitted when their turn came, those sharing a tag first, then entries by key, version, entry and version id and summaries newest first and by id; it is refused exactly for a repeated wanted reference or an invalid scope |
| `RetrievalChoice.SharingItemsFirst` | src/memory/retrieval.rs:1013-1020 | whatever shares a tag asked for stands before whatever does not, and an omitted item that shares one found no slot or no bytes behind the sharing items before it |
| `RetrievalChoice.MetadataAcceptedExactly` | src/memory/retrieval.rs:1046-1230 | the metadata validator accepts exactly metadata whose counts add up within budget, whose references belong to the scope, do not repeat and are in strict order under ranks that fit the scope, and whose digest recomputes |
| `RetrievalChoice.RepeatsMeaning` | src/memory/retrieval.rs:1152-1169 | the check on the sorted eligible items finds exactly a reference carried by two wanted items |
| `RetrievalChoice.EntryOrderMeaning` | src/memory/retrieval.rs:867-880 | the sort key of entries puts an item strictly before another exactly when it shares a tag and the other does not, or they are alike and its reference comes first |
| `RetrievalChoice.ChoiceIsUnique` | src/memory/retrieval.rs:881-889 | there is only one list in order of which each element found room and from which every other wanted one was left out for lack of it |
| `ProfileDraft.CanonicalizeIdempotent` | src/agents/profile.rs:199-326 | canonicalising a draft twice is canonicalising it once |
| `ProfileDraft.CanonicalizeIgnoresOrder` | src/agents/profile.rs:199-326 | the order of tags and skill references changes neither acceptance nor the canonical draft |
| `ProfileDraft.SkillRefsIgnoreOrder` | src/agents/profile.rs:199-300 | skill references in any order give one canonical list or one refusal |
| `ProfileDraft.CanonicalizeMeaning` | src/agents/profile.rs:199-300 | a draft has a canonical form exactly when its texts can be shown, tags and references are few enough and do not repeat and it names no server; each text is then its own words, the references its own by ascending skill, and role, bindings and template are as given |
| `ProfileDraft.AssignMeaning` | src/agents/profile.rs:336-347 | assigning succeeds exactly when the skill is not assigned and there is room, and adds exactly that reference |
| `ProfileDraft.UnassignMeaning` | src/agents/profile.rs:369-380 | unassigning succeeds exactly for a listed reference and removes exactly it |
| `ProfileDraft.UpgradeMeaning` | src/agents/profile.rs:349-367 | upgrading succeeds exactly for a listed reference and a different one of the same skill, and swaps exactly these |
| `ProfileDraft.UnassignUndoesAssign` | src/agents/profile.rs:336-380 | unassigning what was just assigned gives the draft back |
| `ProfileDraft.UpgradeIsReversible` | src/agents/profile.rs:349-367 | upgrading back gives the draft back |
| `ProfileDraft.CollectSkillRefs` | src/agents/profile.rs:199-300 | the loop over references and the sort compute the canonical list or refuse |
| `ProfileDraft.CreateDraft` | src/agents/profile.rs:199-300 | the constructor computes the canonical draft or its first error |
| `ProfileDiff.UnchangedMeaning` | src/agents/diff.rs:41-107 | a diff is refused as unchanged exactly when every compared field is equal |
| `ProfileDiff.FieldChangesMeaning` | src/agents/diff.rs:41-107 | besides skills a diff lists exactly the fields that differ, each once, with the value it had before and the value after |
| `ProfileDiff.CreatedVersionMeaning` | src/agents/profile.rs:502-540 | a first version can be made of exactly the drafts with a canonical form, holds that form, is known by the key of its display name and is sealed |
| `ProfileDiff.NextVersionMeaning` | src/agents/profile.rs:663-728 | a next version keeps profile, namespace and template, supersedes the current one by one, holds the canonical candidate and is known by the key of its display name |
| `ProfileDiff.DiffShowsCandidate` | src/agents/diff.rs:108-143 | the skill entries of a diff rebuild the candidate's references from the current ones, as far as references are printed |
| `ProfileDiff.DigestIsNotShown` | src/agents/diff.rs:145-152 | finding: changing only the content digest of an added or upgraded reference leaves the diff as it is |
| `ProfileDiff.DiffDeterminesExactly` | src/agents/diff.rs:108-152 | the skill entries determine the candidate's references exactly when the candidate adds and upgrades nothing |
| `ProfileDiff.ResolvedRefsAreDetermined` | src/agents/diff.rs:108-152 | when version ids determine references, equal diffs from the same references mean equal candidates |
| `ProfileDiff.AssignmentMeaning` | src/app/service.rs:3517-3561 | the service's assignment checks succeed exactly under the listed conditions and change exactly the named references |
| `ProfileDiff.AssignmentAlwaysDiffers` | src/app/service.rs:3563-3609 | every version made by assign, upgrade or unassign has a nonempty diff to the version it supersedes |
| `ProfileDiff.ActivationAlwaysDiffers` | src/app/service.rs:1487-1558 | every activated version has a nonempty diff to the version it supersedes |
| `ProfileDiff.AssignmentDiffIsOneEntry` | src/agents/diff.rs:108-143 | the diff of an assignment is exactly one entry of the matching kind |
| `ProfileDiff.PushSkillRefChanges` | src/agents/diff.rs:108-143 | the nested search loops append exactly the skill changes |
| `ProfileDiff.ComputeDiff` | src/agents/diff.rs:41-107 | pushing change after change computes the diff or its error |
| `ProfileProjection.ReplayAgrees` | src/agents/projection.rs:145-248 | after any events, accepted or refused, the five maps agree: contiguous supersedes chains, active is newest, names and namespaces biject with profiles |
| `ProfileProjection.EmptyAgrees` | src/agents/projection.rs:29-35 | the empty projection agrees |
| `ProfileProjection.HistoryMeaning` | src/agents/projection.rs:81-89 | the history of a profile is its versions 1..n in order |
| `ProfileProjection.BoundedHistoryMeaning` | src/agents/projection.rs:130-143 | the bounded history is the last k of the history, reversed |
| `ProfileProjection.ListingsAgree` | src/agents/projection.rs:37-51 | reading the name index in order lists the active profiles exactly as the sorted scan does |
| `ProfileProjection.BoundedListingMeaning` | src/agents/projection.rs:72-79 | the bounded listing is the first k of the sorted listing |
| `ProfileProjection.PreparedVersionIsAccepted` | src/agents/projection.rs:191-248 | a version the service prepares from the active one is accepted by the projection |
| `ProfileProjection.ProfilesProjection.Create` | src/agents/projection.rs:156-190 | the five maps after a creation, or unchanged when refused |
| `ProfileProjection.ProfilesProjection.Activate` | src/agents/projection.rs:191-248 | the five maps after an activation, or unchanged when refused |
| `SkillsProjection.FindInHistory` | src/skills/projection.rs:90-104 | searching a skill's history for a number is looking it up in the version index |
| `SkillsProjection.RunExtends` | src/skills/projection.rs:16-88 | later insertions and activations neither refile nor lose a version |
| `SkillsProjection.ReconcileIsIdempotent` | src/skills/builtin.rs:111-141 | after any later run of insertions and activations, reconciling the same built-in manifests succeeds and changes nothing |
| `SkillsProjection.ReconciledForGood` | src/skills/builtin.rs:111-141 | in every history of a projection: once reconciled, reconciling the same manifests at any later point succeeds and changes nothing |
| `SkillNames.InsertSucceedsExactly` | src/skills/projection.rs:16-40 | a skill is inserted exactly when it is a sealed first version under new ids and a name no active skill bears; it is then active and no other skill changes |
| `SkillNames.ActivateSucceedsExactly` | src/skills/projection.rs:42-88 | a version is activated exactly when it is the sealed successor of the active one it was reviewed against, under a new id and a name no other active skill bears |
| `SkillNames.HistoriesAreNamed` | src/skills/projection.rs:16-88 | in every history from the empty projection, the name index has a name exactly for the one skill whose active version bears it |
| `SkillsProjection.SkillsState.Insert` | src/skills/projection.rs:16-40 | the four maps after an insertion, or unchanged with the error |
| `SkillsProjection.SkillsState.Activate` | src/skills/projection.rs:42-88 | the four maps after an activation, or unchanged with the error |
| `SkillsProjection.SkillsState.LoadHistory` | src/skills/projection.rs:96-104 | the loop over the version index reads the history in ascending order |
| `SkillsProjection.SkillsState.ReconcileManifests` | src/skills/builtin.rs:111-141 | the loop over sorted manifests reconciles them one by one |
| `SkillRetrieval.PrefixIsLongest` | src/skills/retrieval.rs:55-110 | the accepted prefix fits all three budgets and no longer prefix does |
| `SkillRetrieval.RetrievalConserves` | src/skills/retrieval.rs:55-110 | accepted and omitted skills and resources add up to everything assigned, and the accepted ones are the longest fitting prefix of the sorted resolved assignments |
| `SkillRetrieval.RetrievalMeaning` | src/skills/retrieval.rs:55-139 | retrieval succeeds exactly when no version id is offered twice and every assignment is the reference of an offered version; it takes the longest fitting beginning of the assigned versions by skill, version and version id, and counts the rest |
| `SkillRetrieval.RetrieveIgnoresOrder` | src/skills/retrieval.rs:55-139 | the result, error or not, depends on the order of neither the assignments nor the available versions |
| `SkillRetrieval.BuildIndex` | src/skills/retrieval.rs:112-125 | the index exists exactly when no version id repeats, and maps each id to its version |
| `SkillRetrieval.ResolveAssignments` | src/skills/retrieval.rs:127-139 | resolving one by one gives all exact versions or the first failure |
| `SkillRetrieval.RetrieveAssigned` | src/skills/retrieval.rs:55-110 | the accumulating loop with its early exit computes the retrieval |
| `SkillRepository.HistoryMeaning` | src/persistence/skill_repository.rs:316-360 | a validated history belongs to its skill and repeats no version id |
| `SkillRepository.ValidateRefMeaning` | src/persistence/skill_repository.rs:107-115 | checking one reference is finding it in its own skill's validated history |
| `SkillRepository.BatchIsEachOne` | src/persistence/skill_repository.rs:117-188 | the batched check succeeds exactly when every reference passes on its own |
| `SkillRepository.StoredIdDeterminesRef` | src/persistence/skill_repository.rs:107-115 | two references that resolve in the skill table and name the same version id are the same reference |
| `SkillRepository.StoredRefsAreDetermined` | src/agents/diff.rs:108-152 | for reference lists the skill table accepts, a profile diff does determine the candidate's references |
| `SkillRepository.LoadValidatedHistory` | src/persistence/skill_repository.rs:316-360 | the loop rebuilds each row from the version before it, or refuses the history |
| `SkillRepository.ValidateBatch` | src/persistence/skill_repository.rs:117-188 | the grouped loop computes the batched check, and reports an integrity mismatch exactly when a touched history does not load |
| `EventLog.WireRoundTrip` | src/app/event.rs:337-405 | an appended envelope written to a row reads back as it was |
| `EventLog.WireIsCanonical` | src/app/event.rs:360-405 | a row that reads back is the canonical row of what was read |
| `EventLog.VerifyMeaning` | src/persistence/event_repository.rs:207-220 | the verification loop accepts exactly the streams numbered 1..n whose rows decode and link to the digest before them |
| `EventLog.AppendKeepsSound` | src/persistence/event_repository.rs:77-145 | an append keeps the stream verifiable and adds exactly its one event, or adds nothing |
| `EventLog.AppendIsIdempotent` | src/persistence/event_repository.rs:260-277 | re-appending a stored event returns it without growing the stream; another event under its id is a conflict that changes nothing |
| `EventLog.AppendSucceedsExactly` | src/persistence/event_repository.rs:77-145 | with a collision-free digest a new event is accepted exactly up to the limits of the stored integers |
| `EventLog.RunVerifies` | src/persistence/event_repository.rs:77-220 | after any run of appends the stream verifies and earlier rows are where they were |
| `EventLog.LastDigestDeterminesLog` | src/app/event.rs:501-525 | with a collision-free digest two verified streams ending in the same digest are identical |
| `EventLog.TailMeaning` | src/persistence/event_repository.rs:167-181 | a bounded tail is the last rows up to the sequence asked for |
| `EventLog.EventStream.AppendEvent` | src/persistence/event_repository.rs:77-145 | the stream and the answer after one append |
| `EventLog.EventStream.VerifyStream` | src/persistence/event_repository.rs:207-220 | the loop with its running digest decides verification and reports the first fault |
| `ProjectionStore.FoldKeeps` | src/persistence/projection_repository.rs:412-445 | no later event changes an installation, an ended session, or how a session started |
| `ProjectionStore.StoreThenLoad` | src/persistence/projection_repository.rs:362-410 | a successful store was given exactly the fold of the whole stream, and loading then returns it |
| `ProjectionStore.StoreAcceptsExactlyTheFold` | src/persistence/projection_repository.rs:362-445 | from rows in step with a stream, storing after more events succeeds exactly for the fold of the longer stream |
| `ProjectionStore.ReachableLoads` | src/persistence/projection_repository.rs:33-43 | in every database reached by transactions loading succeeds and returns the fold of the stream |
| `ProjectionStore.LoadAtIsThePast` | src/persistence/projection_repository.rs:45-61 | loading at event k returns the state stored after event k, whatever was appended later |
| `ProjectionStore.StoreAfterClearing` | src/persistence/projection_repository.rs:189-212 | with the rebuildable rows cleared exactly the fold of the stream can be stored, and loading then returns it |
| `ProjectionStore.ReduceEvents` | src/persistence/projection_repository.rs:223-229 | the loop over a running state computes the fold |
| `ProjectionMeaning.FoldTells` | src/recovery/reducer.rs:403-470 | the fold says exactly what the events tell: the installation is that of the one installing event, a session is there exactly when the one event that started it is, with its id and time, and has ended exactly as the one event that ended it says |
| `ProjectionMeaning.FoldExtendsExactly` | src/recovery/reducer.rs:403-470 | a folding stream folds with one more event exactly when that carries the next number and the last digest and says what the events before it allow |
| `ProjectionMeaning.LoadSucceedsExactly` | src/persistence/projection_repository.rs:33-43 | loading accepts exactly the rows that say what the stream folds to, column by column |
| `ProjectionStore.UpsertSessions` | src/persistence/projection_repository.rs:447-509 | one insert-or-update per session leaves exactly the merged rows |
| `ProjectionStore.ProjectionRows.Write` | src/persistence/projection_repository.rs:447-509 | the rows after a store, the metadata included |
| `ProjectionStore.ProjectionRows.Save` | src/persistence/projection_repository.rs:362-410 | every check before the first write: the new rows, or the same ones and the error |
| `Mirror.ReconcileMeaning` | src/persistence/agent_profile_repository.rs:195-238 | a repair succeeds exactly when every stored row is an expected row, then leaves exactly the expected rows; it reports a mismatch exactly when some stored row shares a key with an expected row it is not |
| `Mirror.DeletionsAreRepaired` | src/persistence/agent_profile_repository.rs:195-238 | whatever subset of the mirror's rows is deleted, the repair brings the whole mirror back in event order |
| `Mirror.ReconcileIsIdempotent` | src/persistence/agent_profile_repository.rs:195-238 | a repaired mirror needs no repair |
| `Mirror.AcceptedRowsFit` | src/agents/projection.rs:145-248 | every stream the profile projection accepts calls for rows with pairwise distinct keys and consistent namespaces, in event order |
| `Mirror.LoadedExactly` | src/persistence/agent_profile_repository.rs:54-73 | loading the version table succeeds exactly when every row reads as a version it shows in every column and whose references resolve, and gives these versions in row order |
| `Mirror.InsertTakesExactly` | src/persistence/agent_profile_repository.rs:37-52 | a table takes a row exactly when it can hold it with what it has: keys, namespace owner and shape |
| `Mirror.ExpectedRowsShow` | src/persistence/agent_profile_repository.rs:280-313 | the rows a stream calls for show the versions it carries, column by column, in order, and their payloads read as these versions |
| `Mirror.ActiveRowsShow` | src/persistence/agent_profile_repository.rs:164-190 | the active rows show exactly the active versions, column by column |
| `Mirror.MirrorIsRepaired` | src/persistence/projection_repository.rs:110-130 | for every stream accepted in its rewritten form the repair succeeds exactly for stored rows the stream calls for; loading the table then gives back the stream's versions exactly when all their skill references resolve |
| `Mirror.InsertEachBuilds` | src/persistence/agent_profile_repository.rs:37-52 | inserted one by one, the versions of an accepted stream are all stored exactly when their skill references resolve |
| `Mirror.InsertExpectedIsIdempotent` | src/persistence/agent_profile_repository.rs:37-52 | inserting a stored version again changes nothing, and is refused exactly when a skill reference does not resolve |
| `Mirror.ReplaceActiveMeaning` | src/persistence/agent_profile_repository.rs:164-281 | replacing the active rows succeeds and makes them match; they match exactly when they are one row per active profile, in any order |
| `Mirror.ActiveRowsAreMirrored` | src/persistence/agent_profile_repository.rs:164-190 | the version each active row refers to has its row in the repaired version table |
| `Mirror.ProfileTables.FindCandidates` | src/persistence/agent_profile_repository.rs:219-223 | the pass over the stored rows finds exactly those that share a key with the expected row |
| `Mirror.ProfileTables.ReconcileExpectedVersions` | src/persistence/agent_profile_repository.rs:195-238 | the loop that fills the matched flags and the missing rows computes the repair and writes only when it succeeds |
| `Mirror.ProfileTables.InsertVersion` | src/persistence/agent_profile_repository.rs:37-52 | references, expected row, candidates: the table with the row once, or unchanged with the error |
| `Mirror.ProfileTables.LoadAllVersions` | src/persistence/agent_profile_repository.rs:54-73 | the loop over the rows in event order returns every version or the first fault |
| `Mirror.ProfileTables.ReplaceActiveProfiles` | src/persistence/agent_profile_repository.rs:164-190 | the active rows become one per listed profile, or stay as they were |
| `MemoryReviews.RunKeepsInv` | src/memory/review.rs:651-831 | every interleaving keeps: the lock has one owner, a reservation and a live guard go together, tokens in use are issued and unspent |
| `MemoryReviews.ReservedMeansOwned` | src/memory/review.rs:669-744 | in every reachable state the slot is reserved exactly while one thread holds the matching guard, and that thread owns the operation lock |
| `MemoryReviews.LiveReservationsNeverFail` | src/memory/review.rs:763-825 | consuming, releasing or invalidating a live reservation never fails |
| `MemoryReviews.OperationsNeverMeetReserved` | src/memory/review.rs:652-762 | replace, cancel and finish never act on a reserved review |
| `MemoryReviews.TokensAreConsumedOnce` | src/memory/review.rs:803-822 | no token is consumed twice, and what is consumed is what was reviewed under it |
| `MemoryReviews.ConsumedIsRefused` | src/memory/review.rs:669-744 | once consumed, a token is refused by every later reservation, whatever ran in between |
| `MemoryReviews.MemoryReviewRegistry.Replace` | src/memory/review.rs:652-713 | the slot holds the new review, available, and the lock is free |
| `MemoryReviews.MemoryReviewRegistry.TryReserve` | src/memory/review.rs:669-744 | a reservation succeeds exactly for the available review with this token and binding, and leaves the lock with a live guard |
| `MemoryReviews.MemoryReviewRegistry.Cancel` | src/memory/review.rs:746-761 | the slot is empty and the lock free |
| `MemoryReviews.MemoryReviewRegistry.TransitionReserved` | src/memory/review.rs:763-781 | the slot moves on exactly for the owning command and token |
| `MemoryReviews.ReservedMemoryReview.TakeReview` | src/memory/review.rs:803-822 | consuming a live guard succeeds, empties the slot and frees the lock |
| `MemoryReviews.ReservedMemoryReview.ReleaseReview` | src/memory/review.rs:810-818 | releasing a live guard succeeds, makes the review available and frees the lock |
| `MemoryReviews.ReservedMemoryReview.Dropped` | src/memory/review.rs:825-831 | an unfinished guard releases its review before the lock; a finished one only frees the lock |
| `ProfileReviews.GuardedExactly` | src/agents/review.rs:57-206 | reserved implies owned in every state of a run exactly when no step of the run drops its guard while the review is reserved |
| `ProfileReviews.AbandonedReservation` | src/agents/review.rs:52-66 | finding: reserving and then dropping the guard leaves the review reserved by nobody, and it can not be reserved again |
| `ProfileReviews.PoliteRunsAreSafe` | src/app/service.rs:1509-1536 | under the service's discipline, in every interleaving: reserved implies owned, replace and cancel never meet a reserved review, release and consume always act |
| `ProfileReviews.GuardedUseMeaning` | src/app/service.rs:1942-1988 | lock, reserve, consume or release, let go: polite at every step, leaves the lock free and the slot consumed, released or as it was |
| `ProfileReviews.TokensAreConsumedOnce` | src/agents/review.rs:137-147 | no token is consumed twice, even without the discipline |
| `ProfileReviews.ProfileReviewOperation.TryReserve` | src/agents/review.rs:87-123 | taking the state out and putting it back in every branch reserves exactly the matching available review and otherwise changes nothing |
| `ProfileReviews.ProfileReviewOperation.GiveBack` | src/agents/review.rs:125-135 | only the owning command makes a reserved review available again |
| `ProfileReviews.ProfileReviewOperation.TakeOut` | src/agents/review.rs:137-147 | only the owning command takes a reserved review out |
| `ProfileCommands.CatalogsOnlyChangeReadiness` | src/app/service.rs:3744-3798 | under any two binding catalogs the same command, event and projection show the same view but for readiness, or are refused alike |
| `ProfileCommands.PreparedIsShown` | src/app/service.rs:4477-5181 | whatever a profile command prepares, once the projection accepts it, can be shown: the counts match the bounded reads and every shown version has a difference to its predecessor |
| `ProfileCommands.PreparedKeepsSound` | src/app/service.rs:3229-3313 | what is prepared keeps the five maps in agreement, every draft canonical and every version different from the one before it |
| `ProfileCommands.PreparedActivation` | src/app/service.rs:1487-1558 | a prepared activation was reviewed against the active version and succeeds exactly it |
| `ProfileCommands.PreparedAssignment` | src/app/service.rs:3563-3609 | a prepared skill change succeeds the active version and differs from it |
| `ProfileNames.FoundByShownName` | src/app/service.rs:5215-5228 | every active profile is found under the name it shows, however that is written, and under that name nothing else is |
| `ProfileNames.NameFreeMeaning` | src/app/service.rs:2030-2050 | the scan finds a name free exactly when no active profile but the excluded one bears its key, and then the name index has it for no other |
| `ProfileNames.CreateAcceptedExactly` | src/agents/projection.rs:156-190 | the projection creates exactly sealed first versions under an id, a namespace and a name not in use, and changes no other profile |
| `ProfileNames.ActivateAcceptedExactly` | src/agents/projection.rs:191-248 | it activates exactly the sealed next version of an active one, same namespace and template, under a new id and a name no other active profile bears, and changes no other profile |
| `ProfileNames.CreatePreparedExactly` | src/app/service.rs:3240-3263 | a profile can be created exactly from a draft with a canonical form, under a known template or none, whose name no active profile bears; what is prepared is that draft's first version, known by its display name |
| `ProfileNames.ActivatePreparedExactly` | src/app/service.rs:1487-1558 | an activation is prepared exactly for the review of this change, against the version still active, under a name no other active profile bears; it is the successor showing the candidate |
| `ProfileNames.ChangePreparedExactly` | src/app/service.rs:3563-3609 | a skill change is prepared exactly for a held review, on the version still active, when the assignment is valid |
| `ProfileNames.PreparedIsAccepted` | src/agents/projection.rs:156-248 | what is prepared the projection takes exactly when the ids drawn are new: a name found free is never refused |
| `ProfileViews.ListingMeaning` | src/agents/projection.rs:37-51 | the listing holds each active profile once, by strictly ascending name key |
| `ProfileViews.CommandsShow` | src/app/service.rs:4477-5213 | each profile command shows what it was asked for among the profiles it found: the new version, the first hundred by name, the resolved profile, its newest hundred versions downwards, or one version with its difference to the one before, each with its readiness |
| `Receipts.ExecuteEffects` | src/app/service.rs:1337-2003 | every execution leaves the database as it was or adds one receipt under its id, with no event for a denial and exactly the returned event otherwise; the stream stays verifiable |
| `Receipts.ExecutionIsRecorded` | src/app/service.rs:3619-3642 | a receipt added by an execution records the result that execution returned |
| `Receipts.RecordReplays` | src/app/service.rs:3666-3742 | a recorded command validates to what it recorded for its own request, and is a conflict for any other |
| `Receipts.ReplayReturnsTheFirstResult` | src/app/service.rs:1360-1413 | whatever ran since, executing a command id again for the same request returns the first result and changes nothing; for another request it is a conflict that changes nothing |
| `Receipts.StateAtIsPast` | src/persistence/projection_repository.rs:45-61 | reading the projection at an event of the stored stream gives the fold of the rows up to it |
| `Receipts.NewCommandsAreShown` | src/app/service.rs:1853-1940 | a command not seen before is never answered with an invalid receipt, and the profiles stay sound |
| `Receipts.ExecuteKeepsMirror` | src/app/service.rs:1866-1896 | executing commands keeps the profile mirror equal to the rows its stream calls for |
| `Receipts.RunsKeep` | src/app/service.rs:1337-2003 | over any run of commands, new or repeated, granted, denied or failing, the stream verifies, the mirror holds exactly the rows it calls for, and the profiles stay sound |
| `Receipts.TransactMeaning` | src/app/service.rs:1853-1940 | a committed transaction added exactly the event prepared for the request, reduced it into the stored projection, added the row it carries to the mirror and one receipt with the outcome it shows |
| `Receipts.ExecutionFreesReview` | src/app/service.rs:1942-1988 | no execution leaves a review reserved: the slot is as before, or emptied exactly when the command's review matched and the command committed |
| `Receipts.RunsFreeReview` | src/app/service.rs:1337-2003 | no run of executions leaves a review reserved |
| `Receipts.ExecutionIsPolite` | src/app/service.rs:1509-1536 | what an execution does to the slot is one thread's disciplined use of the registry |
| `Receipts.NothingIsKept` | src/app/service.rs:537-575 | a new database has all three properties |
| `Receipts.ApplicationService.ExecuteLocked` | src/app/service.rs:1337-2003 | the world and the answer after one execution, reservation flag, release and consumption included |
| `Execution.SessionMustRun` | src/app/service.rs:1424-1430 | a command not seen before finds the lifecycle finished exactly when its session has no stored row or an ended one, and then changes nothing |
| `Execution.DenialMeaning` | src/app/service.rs:1435-1477 | a command the policy does not grant is refused as the policy says and recorded with no event, or nothing is left when the commit fails |
| `Execution.GrantedSucceedsExactly` | src/app/service.rs:1479-2003 | a granted command of a running session succeeds exactly when it can be prepared, its event id and the stream's next number are free, its references resolve, projection and tables take the event, and the database commits; when it cannot be prepared the answer is why |
| `Execution.GrantedShows` | src/app/service.rs:1853-1940 | a first success answers with the next event of the stream, recorded for this command, actor, correlation and time, and with the view of what was asked |
| `Execution.ServiceCommitsExactly` | src/app/service.rs:1853-1940 | on the profile projection a prepared fact commits exactly when the ids drawn are new and its references resolve |
| `Execution.ServiceFindsProfiles` | src/app/service.rs:5215-5228 | from a new database, after any run of commands, the state loads and every active profile is found under the name it shows, and no other |
| `Execution.RunsLoad` | src/persistence/projection_repository.rs:33-43 | a database that loads still loads after any run of commands |
| `Execution.CanonicalCommandMeaning` | src/app/command.rs:376-398 | only the drafts of a command are put into canonical form, and it is refused exactly when they have none |
| `Execution.ReorderedReplays` | src/app/service.rs:1337-1413 | a command sent again with the tags and references of its draft in another order returns the first result and changes nothing |
| `Execution.ReceiptAnswersExactly` | src/app/service.rs:3666-3742 | a receipt answers exactly for the very request it records, when it is whole, under the capability the command needs, and what it records still stands; another request is a conflict |
| `Rebuild.RebuildMeaning` | src/persistence/projection_repository.rs:110-130 | a rebuild succeeds exactly when the events are the stream and fold, every stored profile row is one the stream calls for, every skill reference resolves and the other tables agree; then loading returns the fold, the mirror reads as exactly the rows called for, and the active rows are those of the fold |
| `Rebuild.ProfileRebuildMeaning` | src/persistence/projection_repository.rs:110-130 | the same for the profile projection itself, whose active table always takes the fold and then matches it |
| `Rebuild.LostRowsAreRebuilt` | src/persistence/agent_profile_repository.rs:195-238 | a rebuild that goes through with the whole mirror goes through with any part of it, to the same result |
| `Rebuild.RebuiltFollows` | src/persistence/projection_repository.rs:110-130 | a rebuilt database loads, and its mirror follows its stream as executing commands requires and keeps |
| `Rebuild.FoldIsProfiles` | src/recovery/reducer.rs:508-528 | a stream that folds is a stream the profile projection accepts in its rewritten form, with the same result |
| `Rebuild.ProfileEngineFits` | src/recovery/reducer.rs:490-528 | the engine of the profile projection is one the results on executions and rebuilds speak of, and a new database keeps what they keep |
| `Rebuild.ServiceRunsKeep` | src/app/service.rs:1337-2003 | on that engine, over any run of commands, the stream verifies, the mirror follows it and the profiles stay sound |
| `Rebuild.RebuildTables` | src/persistence/projection_repository.rs:110-130 | table by table: the rebuilt tables, or all of them as they were and the error |

## Left out

- Terminal interface, command line, audit text and view rendering: presentation only.
- SQL text, SQLite error codes, file paths, permissions, the process guard and the panic hook: a transaction is a new state or the old one, and a failing commit is an input of `Receipts.Execute`.
- Migrations, setup models, profile templates, policy evaluation: the policy's answer and whether a template is known are inputs.
- JSON, SHA-256, UUID parsing, Unicode normalisation and case folding: record fields about which only named hypotheses are assumed.
- The credential scanner of src/memory/normalization.rs: whether a text is admissible is a function of the library record.
- Record digests of memory entries and proposals, and the column-by-column row checks built on them in src/persistence/memory_repository.rs: a stored row is the entity it stands for.
- The checks of the recovery reducer on an event's object reference and envelope actor, and its fold of skill events: the reducer is modelled for memory, sessions, installation and profiles.
- The reconciliation of skill and memory tables inside a rebuild: whether they agree is an input of `Rebuild.RebuildAll`.
- The startup reconciliation of src/persistence/projection_repository.rs:132-156, which runs the same checks without clearing.
- Receipt replay of memory, skill-version, status and audit commands: their views read tables other than the projection; they appear in `Receipts` as steps that grow the stream and the receipts.
- The skill review registry of src/skills/review.rs: whether it reserves a review is an input of `Receipts.Execute`.
- Episodic summaries outside snapshot selection, and paging of memory lists.
- Idempotent re-insertion of an identical memory row: the model writes each row once, as the service does.
- Unwinding after a panic inside a guarded section, and poisoned locks: the source continues with the inner value, which the model does as well.
- Sets are walked by a ghost enumeration in ascending order where the source walks an ordered map; `ProfileCommands.Library` therefore takes the two bounded reads as fields, tied to the projection by `ReadsProjection`.
