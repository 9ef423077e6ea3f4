# JobAgent: a verified model of its stores, readers and agent graphs

JobAgent keeps SQLite as the authority, mirrors it into a Neo4j projection, pages evidence through
revision-bound cursors, and drives language-model agents through bounded graphs. This project models
those five parts and proves what each promises over whole runs: graphs left by syncs cut off anywhere,
every cancellation point of a streamed run, every answer of a model, every interleaving of writers.

- **The derived graph.** `GraphModel` gives each Cypher statement a meaning on node and edge maps
  (`MERGE` by key, `SET`, `UNWIND`, `DELETE`, `DETACH DELETE`). `SyncPrograms` lists the statements of
  every operation, `GraphSync` and `GraphRebuild` compute what a complete run leaves, `GraphRecovery`
  and `GraphInvariant` treat runs cut after any statement, `GraphDriver` is the store the code changes
  step by step, `GraphSchedules` treats any interleaving of statements, `SqliteSide`, `GraphChecks`,
  `GraphVerdict`, `GraphCounts` and `GraphAgreement` compare the graph with SQLite. `ScopedIds`
  and `Stamps` hold the identities and instants. `GraphMeaning`, `GraphCvMeaning`,
  `GraphRebuildMeaning` and `GraphCheckMeaning` say in terms of the inputs alone what complete runs
  leave and what the checks accept.
- **The bounded reader.** `CvReader` (in-place truncation, pages), `CvWalk` (whole walks),
  `CvCandidates` (what each mode reads) and `CvRealText` (the text a page really carries), over
  `Cursor`, `Json` and `Base64Url`.
- **Agents and the runner.** `AgentMessages`, `AgentTurn`, `AgentSafety`, `AgentAnswers` and
  `AgentDriver` for the decision graph; `TailoringGraph`; `Runner`, `RunnerProtocol`, `RunnerMerge`,
  `RunnerOutcome` and `RunnerStatus` for the merge queue, terminal outcome, cleanup and status events.
  Models, tools, the patch guard and the text predicates are arbitrary.
- **Repositories.** `Reextract`/`ReextractMeaning`/`ReextractStore`, `VersionChain`/`TailoringStore`,
  `JobLifecycle`/`JobStore`, `ToolExecutions`, `RunsAndAttachments`. A history is a sequence of
  committed states; a transaction's reads may come from any earlier committed state, and an update
  writes only the columns that changed in memory. Clocks and fresh identifiers are parameters.
- **Windows.** `Keyset` for the paged lists and `ContextBudget` for the recent-context window.

Findings that are results of the model, each a lemma below:

- `delete_cv_branch` documents a bare attachment id, but CV nodes are keyed `profile_id:attachment_id`;
  a bare id names no CV and the delete does nothing (`DeleteCvBranchNeedsScopedKey`).
- Two active CV syncs that interleave statement by statement can leave two `PROJECTS_TO`
  (`InterleavedActiveSyncs`), and a rebuild interleaved with a sync can leave entries without a section
  (`RebuildOrphansASync`); for any schedule the exact conditions are `OwnedThroughoutIff` and
  `ProjectionThroughoutIff`. A section id that continues another after a colon can make entry ids
  collide (`EntryIdsCollideIff`, `SyncedEntriesHaveOneSectionIff`).
- The relationship reads stop at 201 rows, which is exactly where the integrity verdict stops being
  equality (`VerdictExactIffWithinLimit`).
- A walk repeats candidates exactly when a page that offers a cursor ends at a repeated identity
  (`WalkTilesIff`), and can then go on for ever (`RepeatedIdentityNeverEnds`). Repeated identities are
  possible in section and search mode (`SectionIdentitiesUniqueIff`, `SearchIdentitiesUniqueIff`).
- A section or search page can carry more text than it accounts for: subtitles, dates and locations
  are never charged, and a chunk match carries its whole text (`SectionPageWithinCapIff`,
  `SearchPageWithinCapIff`, `SubtitleEscapesTheCap`).
- A run can be announced as completed and stored as failed, when the callback refuses the first
  outcome and accepts the one told on closing (`CompletedButDurablyFailed`).
- On a turn that names `save_job`, a tool result that does not validate leaves the wording to the model
  (`NamedTurnNarratesIffValidated`).
- Repository functions that judge a row read earlier can go wrong when a rival commits in between;
  for each the exact steps that do are named: a late result, failure or retry of a job (`MovedOnIff`,
  `CleanIff`, `RepeatedClockHidesAResult`), a late finish of a tool execution (`ReplayKeptIff`) or run
  (`FinalIff`, `ErrorsCoupledIff`), a late transition of an attachment (`NeverBackIff`), a claim or
  reconciliation of a re-extraction (`ClaimLeavesOneIff`, `StaleClaimLeavesTwo`,
  `ReviewReadyAfterReconcile`). With current reads none of them happens (`CurrentReadsAreSafe`,
  `CurrentReadsNeverOverwrite`, `CurrentReadsKeepRuns`, `CurrentReadsNeverTakeBack`); the re-extraction
  claim runs in an immediate transaction, for which the protocol is proved (`FreshClaim`).
- `create_version_cas` does not look at the session's state, so a version written over a deletion mark
  makes the session ready again (`DeletingIsNotFinal`).
- `replace_extraction_if_unchanged` looks at the revision alone, so it also processes a failed job
  (`ReplaceExtractionIfUnchanged`), and its revision check is safe against a repeating clock iff the
  captured job was processed (`RevisionRepeatsIffUnprocessed`).
- `list_chunks_after` filters by creation time and sorts by ordinal: complete iff creation times never
  fall along the ordinals (`SingleChunkWalksCompleteIff`, `FallingPairIsSkipped`).

Check the whole project with `dafny verify dfyconfig.toml`.

## Model

| member | source | states |
|---|---|---|
| `ScopedIds.OwnerUnique` | backend/app/graph/sync_cv.py:87-94 | Owners with equally many colons never share a scoped section or entry id |
| `ScopedIds.EntryIdsCollideIff` | backend/app/graph/sync_cv.py:92-94 | Two sections of one CV can produce the same entry id iff one section id continues the other after a colon |
| `GraphModel.ApplyKeepsWellFormed` | backend/app/graph/sync_cv.py:210-264 | No statement run on a graph without dangling relationships leaves one |
| `GraphSync.SeedExact` | backend/app/graph/sync_shared.py:130-151 | Seeding adds exactly the seed skills and the approved RELATED_TO edges between known skills, and touches nothing else |
| `GraphMeaning.SeedMeans` | backend/app/graph/sync_shared.py:130-151 | Seeding adds the seed skills, and a RELATED_TO for every taxonomy row between skills that are then there, with the properties of the last such row |
| `GraphSync.SyncCandidateExact` | backend/app/graph/sync_candidate.py:105-154 | A complete candidate sync, from any graph, replaces the Candidate node and its HAS_SKILL edges by those of its non-excluded skills and keeps every other node and edge |
| `GraphSync.SyncJobExact` | backend/app/graph/sync_job.py:136-212 | A complete job sync, from any graph, replaces only this Job's node and its REQUIRES/PREFERS edges |
| `GraphMeaning.CandidateSyncMeans` | backend/app/graph/sync_candidate.py:63-154 | After a complete candidate sync, from any graph, the Candidate has a HAS_SKILL edge to a key iff some skill with that key is not excluded, and the edge carries confidence, years, proficiency and evidence of the last such skill; every other edge is as before |
| `GraphMeaning.JobSyncMeans` | backend/app/graph/sync_job.py:136-212 | The same for a job: REQUIRES and PREFERS edges exactly to the keys of its required and preferred skills, each with the values of the last one of that key |
| `GraphSync.SyncCvExact` | backend/app/graph/sync_cv.py:285-320 | A complete CV sync, from any graph, leaves the CV node, sections and entries of the document, keeps what other CVs own, and sets PROJECTS_TO as the active flag demands |
| `GraphCvMeaning.CvSyncMeans` | backend/app/graph/sync_cv.py:137-320 | After a complete CV sync, on any reachable graph: the CV node carries the document's data, it owns exactly the document's sections and below them exactly its entries, each under the id spelled out from profile, attachment, section and entry and with the fields of the last of that id; an active CV alone projects to its Candidate, an archived one to none |
| `GraphCvMeaning.PreviewMeans` | backend/app/graph/sync_cv.py:72-105 | An entry's preview is the first 240 characters of the body between its outer white space, or of the bullets with text joined by single spaces when the body is blank |
| `GraphSync.ProjectLegacyExact` | backend/app/graph/rebuild.py:100-123 | The metadata-only projection writes one CV node and makes it the only one projecting to its Candidate |
| `GraphRecovery.CandidateCutThenRunConverges` | backend/app/graph/sync_candidate.py:105-154 | A candidate sync cut after any statement, then run in full, ends exactly where one full run ends; with a cut at the end, a second run changes nothing |
| `GraphRecovery.JobCutThenRunConverges` | backend/app/graph/sync_job.py:136-212 | The same for a job sync |
| `GraphRecovery.CvCutThenRunConverges` | backend/app/graph/sync_cv.py:285-320 | The same for a CV sync on any reachable graph, whatever the section and entry ids |
| `GraphRecovery.SyncCvOwnsExactlyItsDocument` | backend/app/graph/sync_cv.py:210-320 | After a complete CV sync the CV owns exactly the sections of its document, and every section of another CV keeps its owner and properties |
| `GraphRecovery.SyncCvKeepsOtherEntries` | backend/app/graph/sync_cv.py:210-320 | The entries below every other CV's sections are untouched as well |
| `GraphRecovery.SyncedEntriesHaveOneSectionIff` | backend/app/graph/sync_cv.py:92-94 | After a complete CV sync every entry of the CV has one section iff no entry id of the document is made in two sections |
| `GraphInvariant.StatementKeepsOwnedIff` | backend/app/graph/sync_cv.py:210-264 | Whatever ran just before it, a statement keeps ownership iff it does not clear sections or CVs while a relationship to what they own remains |
| `GraphInvariant.StatementKeepsProjectionIff` | backend/app/graph/sync_cv.py:301-320 | A statement keeps one active CV a Candidate iff it does not merge PROJECTS_TO while another CV's edge enters that Candidate |
| `GraphInvariant.EveryHistoryKeepsInv` | backend/app/graph/rebuild.py:126-223 | Over every history of syncs, deletes and rebuilds, each cut after any statement and for any section and entry ids, every section and entry belongs to one CV and at most one PROJECTS_TO enters each Candidate |
| `GraphInvariant.EveryHistoryKeepsApart` | backend/app/graph/sync_cv.py:92-94 | When no document has a section id continuing another after a colon, no two sections in any such graph can share an entry id |
| `GraphInvariant.InvMeansExactlyOneOwner` | backend/app/graph/sync_cv.py:210-264 | The invariant read out: one CV per section and per entry, at most one active CV per Candidate; and one section per entry when section ids are apart |
| `GraphSchedules.OwnedThroughoutIff` | backend/app/graph/rebuild_ops.py:113-118 | Under any schedule of sync, delete and rebuild statements every section and entry keeps its one CV all along iff each clear of sections or CVs comes when nothing they own is still linked |
| `GraphSchedules.AnyInterleavingKeepsOwned` | backend/app/graph/sync_cv.py:285-320 | Under any interleaving of statements without a rebuild, ownership holds all along |
| `GraphSchedules.ApartThroughoutIff` | backend/app/graph/sync_cv.py:210-264 | Section ids stay apart under any schedule iff each merge brings ids apart from those already there |
| `GraphSchedules.ProjectionThroughoutIff` | backend/app/graph/sync_cv.py:301-320 | Under any schedule a Candidate has at most one active CV all along iff no PROJECTS_TO is merged while another CV's enters it |
| `GraphSchedules.InterleavedActiveSyncs` | backend/app/graph/sync_cv.py:301-320 | Two active syncs for one Candidate that both clear before either merges leave a single projection iff they are for the same CV |
| `GraphSchedules.EntriesBetweenClearsIff` | backend/app/graph/rebuild_ops.py:113-118 | Entries merged between a rebuild's clears of entries and sections stay owned iff none of their sections was there |
| `GraphSchedules.SectionsBetweenClearsIff` | backend/app/graph/rebuild_ops.py:113-118 | The same one level up |
| `GraphSchedules.RebuildOrphansASync` | backend/app/graph/rebuild_ops.py:113-118 | A rebuild interleaved so with the sync of any CV with an entry, from the empty graph, ends with an entry no section owns |
| `GraphInvariant.DeleteCvBranchNeedsScopedKey` | backend/app/graph/delete_cv.py:52-81 | A CV branch is removed only by its scoped key; a key without a colon changes nothing |
| `GraphInvariant.DeleteCvBranchExact` | backend/app/graph/delete_cv.py:14-19 | By its scoped key the whole branch goes and every other CV keeps its sections and entries |
| `GraphInvariant.DeleteProfileReachesOnlyActiveCv` | backend/app/graph/delete_profile.py:7-13 | Profile deletion removes the Candidate and a CV iff that CV projects to it; a CV whose edge a crash removed stays |
| `GraphMeaning.DeleteJobMeans` | backend/app/graph/delete_job.py:95-137 | Deleting a job takes its node and its relationships, and nothing else |
| `GraphDriver.BuildEntryRows` | backend/app/graph/sync_cv.py:137-188 | The nested appending loops build exactly the entry rows of the document, in order, under their scoped section ids |
| `GraphDriver.GraphStore.SyncCandidate` | backend/app/graph/sync_candidate.py:63-154 | The driver issues exactly the candidate program, or the prefix that fits before the connection breaks, and reports which; on success the Candidate has exactly the HAS_SKILL edges of its skills that are not excluded, and all other edges are kept |
| `GraphDriver.GraphStore.SyncJob` | backend/app/graph/sync_job.py:99-212 | Refuses a blank id and any quality but full and partial before touching the store; otherwise issues the job program or a reported prefix |
| `GraphDriver.GraphStore.SyncCv` | backend/app/graph/sync_cv.py:191-320 | Refuses blank names, versions, ids and hashes before touching the store; otherwise issues the CV program or a reported prefix |
| `GraphDriver.GraphStore.ProjectLegacy` | backend/app/graph/rebuild.py:100-123 | Issues the metadata-only program or a reported prefix |
| `GraphDriver.GraphStore.DeleteJobNode` | backend/app/graph/delete_job.py:95-137 | Succeeds only with the Job absent from the graph, and only when both the delete and the absence read got through |
| `GraphDriver.GraphStore.DeleteCv` | backend/app/graph/delete_cv.py:52-81 | A blank key is refused without touching the graph; any other runs the branch delete for the stripped key or reports that it did not |
| `GraphDriver.GraphStore.DeleteProfile` | backend/app/graph/delete_profile.py:33-56 | The same for a profile branch |
| `GraphDriver.GraphStore.ClearJobAgentGraph` | backend/app/graph/rebuild_ops.py:113-118 | The label loop issues the six clearing statements in order, or a reported prefix |
| `GraphDriver.GraphStore.RebuildGraph` | backend/app/graph/rebuild.py:126-223 | A preflight error leaves the graph alone; success means the whole rebuild program ran and every count is that of the graph it left; any other failure leaves what some cut of it leaves |
| `SqliteSide.LoadRebuildInputs` | backend/app/graph/rebuild_snapshot.py:334-446 | The two reading loops return the ready profiles and scorable jobs in order, or the error of the first bad row |
| `SqliteSide.LoadedProfilesAreReadyRows` | backend/app/graph/rebuild_snapshot.py:345-410 | Loaded profiles are exactly the ready rows, each projected from its own row |
| `SqliteSide.LoadedJobsAreScorableRows` | backend/app/graph/rebuild_snapshot.py:412-446 | Loaded jobs are exactly the scorable rows |
| `SqliteSide.ProfilesAreRead` | backend/app/graph/rebuild_snapshot.py:345-410 | Loading returns, in order, one profile per ready row with the row's skills and the CV of its attachment, structured iff there is a document, or the fault of the first faulty ready row |
| `SqliteSide.JobsAreRead` | backend/app/graph/rebuild_snapshot.py:412-446 | Loading returns, in order, one job per processed row of quality full or partial with the row's values, or the fault of the first faulty one |
| `SqliteSide.InputsAreRead` | backend/app/graph/rebuild_snapshot.py:334-446 | Profiles are read before jobs; the inputs, or the first error, are those of the rows |
| `GraphRebuild.ClearEmpties` | backend/app/graph/rebuild_ops.py:113-118 | The label-scoped clear empties every graph without dangling relationships |
| `GraphRebuild.RebuildEqualsProjection` | backend/app/graph/rebuild.py:162-223 | From any prior graph a complete rebuild ends equal to the projection of its inputs: nothing stale survives, nothing is missing |
| `GraphRebuildMeaning.RebuildMeans` | backend/app/graph/rebuild.py:126-223 | After a complete rebuild, from any graph: the Candidates are the profiles and the Jobs the jobs of the inputs, each with its own fields and exactly its own skill relationships; each profile has one CV, which shows its document and alone projects to it; nothing else is there |
| `GraphCounts.RebuildCountsAreInputSums` | backend/app/graph/rebuild_ops.py:148-169 | With distinct keys per skill list and entry ids that are unique and unambiguous, every reported count after a rebuild is the sum over the inputs |
| `GraphChecks.ReadGraphRevisions` | backend/app/graph/consistency.py:160-168 | The dict-filling loop reads each row's instant and turns to nothing as soon as one row is unusable |
| `GraphChecks.ReadSourceRevisions` | backend/app/graph/consistency.py:139-148 | The loop over SQLite revisions yields the id-to-instant map with the last row per id |
| `GraphChecks.RevisionVerdictExact` | backend/app/graph/consistency.py:191-222 | The revision check accepts iff the Candidate and all Jobs carry exactly the SQLite revisions; with an unreadable node it accepts only an empty SQLite |
| `GraphCheckMeaning.RevisionCheckMeans` | backend/app/graph/consistency.py:139-222 | With readable stamps the revision check accepts iff the profile has its Candidate or neither is there, every scorable job has its node and every node its job, and each stamp is the instant of its row's time; otherwise iff SQLite holds neither |
| `GraphCheckMeaning.ActiveCvCheckMeans` | backend/app/graph/consistency.py:253-322 | For any listing of projecting CVs: no CV is accepted without a profile, none or the profile's own without a document, and exactly the profile's own at the document's instant with one |
| `GraphVerdict.VerdictOnGraph` | backend/app/graph/selected_skill_projection.py:163-238 | For any graph, owner and relationship types, and any order of reading: the verdict accepts with at most 201 stored iff the expected relationships are distinct, at most 201, not blank and exactly the stored ones |
| `GraphVerdict.VerdictExactIffWithinLimit` | backend/app/graph/selected_skill_projection.py:163-238 | For any listing of an owner's stored relationships the verdict means "exactly these, each once" for every expected list iff at most 201 are stored; past that the first 201 alone are accepted and the true list is refused |
| `GraphVerdict.VerdictWithoutSurplus` | backend/app/graph/selected_skill_projection.py:163-238 | When no more is stored than expected the verdict alone has that meaning |
| `GraphVerdict.CutCandidateVerdict` | backend/app/graph/sync_candidate.py:136-154 | For a candidate sync cut after any statement, from any graph: when the skill check accepts, by cut; from the first statement on the revision already matches |
| `GraphVerdict.CutJobVerdict` | backend/app/graph/sync_job.py:136-212 | The same for a job sync and its REQUIRES and PREFERS relationships |
| `GraphVerdict.SyncedCandidateAccepted` | backend/app/graph/selected_skill_projection.py:94-238 | After a complete candidate sync from any graph the skill check accepts the profile iff its rows have distinct, non-blank keys and are at most 201 |
| `GraphMeaning.AcceptedProfileMeans` | backend/app/graph/selected_skill_projection.py:94-238 | The same by position: accepted iff the skills that are not excluded are at most 201 and have keys that differ and are not blank |
| `GraphMeaning.ExpectedCandidateMeans` | backend/app/graph/selected_skill_projection.py:94-104 | The expected list names, in order, exactly the skills at the positions that are not excluded, with their values |
| `GraphMeaning.ExpectedJobMeans` | backend/app/graph/selected_skill_projection.py:105-118 | For a job it names every required skill and then every preferred skill, in order |
| `GraphAgreement.RebuiltRevisionsAccepted` | backend/app/graph/consistency.py:202-222 | After a rebuild the revision check accepts every ready profile |
| `GraphAgreement.RebuiltActiveCvAccepted` | backend/app/graph/consistency.py:253-322 | After a rebuild the active-CV check accepts a ready profile iff its stored document names the attachment it is filed under |
| `GraphAgreement.RebuiltSkillsAccepted` | backend/app/graph/selected_skill_projection.py:202-238 | After a rebuild the skill check accepts every ready profile with every scorable job, given distinct keys and at most 201 relationships per read |
| `Base64Url.PaddingRestored` | backend/app/services/active_cv_reader.py:104-118 | Stripping `=` and appending `-len % 4` of them gives back the padded text, which uses only the URL-safe alphabet |
| `Base64Url.UrlRoundTrip` | backend/app/services/active_cv_reader.py:104-122 | Every byte string survives unpadded base64url (sections 3.2 and 5 of RFC 4648) |
| `Json.WrittenStringReads` | backend/app/services/active_cv_reader.py:95-127 | A written JSON string is read back as itself with split surrogate pairs joined (section 7 of RFC 8259) |
| `Json.WrittenObjectReads` | backend/app/services/active_cv_reader.py:95-127 | A written object is read back member for member, in order, with split surrogate pairs joined |
| `Json.JoinedKeeps` | backend/app/services/active_cv_reader.py:95-127 | Text without a split surrogate pair is unchanged by that joining |
| `Json.JoinedShortens` | backend/app/services/active_cv_reader.py:95-127 | Text with one comes back shorter, so the restriction on the round trip is exact |
| `Json.SkipWsMeans` | backend/app/services/active_cv_reader.py:112-127 | Between the parts of a payload exactly spaces, tabs, line feeds and carriage returns are skipped |
| `Cursor.CursorRoundTrip` | backend/app/schemas/chat.py:49-82 | The codec below the typed cursors: decoding an encoded payload of strings and naturals without split pairs gives it back |
| `Cursor.ReaderRoundTripIff` | backend/app/services/active_cv_reader.py:86-136 | A reader cursor decodes to itself iff attachment, mode, selector and identity are visible and no field splits a surrogate pair |
| `Cursor.BindingExact` | backend/app/services/active_cv_reader.py:269-301 | A cursor resumes iff attachment, source hash, mode and selector are unchanged; a changed revision is reported before a changed request |
| `Cursor.BindingOfAnyText` | backend/app/services/active_cv_reader.py:269-301 | Whatever text comes as a cursor: malformed if it does not decode, else a changed CV, another request, or resumption, by the fields it names |
| `Cursor.DecodeReaderMeans` | backend/app/services/active_cv_reader.py:104-136 | A text decodes to a reader cursor iff its payload has exactly the six keys, version 1 and the five texts, visible but for the source hash; the last value of a repeated key counts |
| `Cursor.DecodedTextIsClean` | backend/app/services/active_cv_reader.py:104-118 | Only text without the standard alphabet's letters and inner white space decodes |
| `Cursor.HistoryRoundTrip` | backend/app/schemas/chat.py:49-93 | A history cursor that could be made decodes to its instant and normalised id, for any field validators that read back what they wrote |
| `Cursor.DecodeHistoryMeans` | backend/app/schemas/chat.py:49-93 | A text is a history cursor iff it carries exactly the two keys with values the validators accept |
| `Cursor.ChunkRoundTrip` | backend/app/schemas/observability.py:109-153 | The same for a chunk cursor and its ordinal |
| `Cursor.DecodeChunkMeans` | backend/app/schemas/observability.py:109-153 | The same for a chunk cursor |
| `Cursor.ConversationRoundTrip` | backend/app/repositories/conversations.py:54-84 | The same for a conversation cursor and its two instants |
| `Cursor.DecodeConversationMeans` | backend/app/repositories/conversations.py:54-84 | The same for a conversation cursor |
| `CvReader.RecordBox.Truncate` | backend/app/services/active_cv_reader.py:385-407 | Truncation in place spends one budget over body, text and excerpt in that order, drops bullets iff it is used up, and changes nothing else |
| `CvReader.CutIsAPrefix` | backend/app/services/active_cv_reader.py:385-407 | The three fields read one after another become the first `budget` characters of what they were; no field appears or vanishes, and the bullets go exactly when the fields use up a positive budget |
| `CvReader.PageCandidates` | backend/app/services/active_cv_reader.py:304-382 | A page shows as long a prefix of the candidates after the cursor as the result and character caps allow, only the last record cut, accounts for exactly what it shows, and leads on from its last record unless it shows all whole |
| `CvReader.PageIsPageOf` | backend/app/services/active_cv_reader.py:304-382 | That description determines the page |
| `CvWalk.CursorResumesAfter` | backend/app/services/active_cv_reader.py:315-326 | Resuming after a candidate continues with the next one iff no earlier candidate has its identity |
| `CvWalk.WalkTilesIff` | backend/app/services/active_cv_reader.py:304-382 | Following next_cursor returns every candidate exactly once and in order iff no page that offers a cursor ends at a candidate whose identity occurred before; otherwise more records are shown than there are |
| `CvWalk.FullWalk` | backend/app/services/active_cv_reader.py:304-382 | So with unique identities: every candidate once, in source order, only the last record of a page cut, accounted characters within the cap, at most n + 1 pages |
| `CvWalk.RepeatedIdentityNeverEnds` | backend/app/services/active_cv_reader.py:315-326 | Three candidates with one identity read one a page make a walk of any number of pages |
| `CvCandidates.SectionCandidates` | backend/app/services/active_cv_reader.py:410-487 | The candidates show the entries of the first section with the id, in order, each with its identity, head, body and bullets and charged for title, body and bullets; none iff no section has it |
| `CvCandidates.ChunkCandidates` | backend/app/services/active_cv_reader.py:453-581 | The candidates show exactly the chunks at or after the ordinal, in order, charged for their text; the not-found error iff there is none |
| `CvCandidates.SearchCandidates` | backend/app/services/active_cv_reader.py:490-552 | The nested scan with its early exits finds exactly the rows, among the first 2000 of all entries in document order and then all chunks, whose blob or text hits, in order, each with its excerpt of at most 400 characters |
| `CvCandidates.SectionIdentitiesUniqueIff` | backend/app/services/active_cv_reader.py:478-487 | Section pages have unique identities iff the section repeats no entry id |
| `CvCandidates.SearchIdentitiesUniqueIff` | backend/app/services/active_cv_reader.py:524-552 | Search pages have unique identities iff no two hits are entries with one id, in whichever sections, or one chunk |
| `CvCandidates.ChunkIdentitiesUnique` | backend/app/services/active_cv_reader.py:571-581 | Chunk pages have unique identities whenever ordinals are distinct |
| `CvCandidates.EntryNeverChunk` | backend/app/services/active_cv_reader.py:524-552 | In a search an entry and a chunk never share an identity |
| `CvCandidates.ChunkContinuationNeedsOrdinal` | backend/app/services/active_cv_reader.py:584-594 | A chunk cursor resumes on a request with another or no ordinal iff the two name the same start; without one only a walk from chunk 0 continues |
| `CvRealText.PageWithinCapIff` | backend/app/services/active_cv_reader.py:304-407 | The same for any reading mode, over the characters each record carries beyond those it is charged for |
| `CvRealText.ChunkPageReal` | backend/app/services/active_cv_reader.py:453-460 | In chunk mode the text on a page is exactly the reported characters, within the cap |
| `CvRealText.SectionPageWithinCapIff` | backend/app/services/active_cv_reader.py:429-450 | In section mode the text on an uncut page is within the cap iff accounted characters, subtitles, dates and locations together are; on a cut page iff there are none of these, the cut entry has no title and its body fills what was left |
| `CvRealText.SearchPageWithinCapIff` | backend/app/services/active_cv_reader.py:524-552 | The same for a search page, where a whole chunk match carries its full text beyond the excerpt it is charged for |
| `CvRealText.SubtitleEscapesTheCap` | backend/app/services/active_cv_reader.py:429-450 | An entry of 500 characters with a subtitle, read under a cap of 500, is not cut and the page exceeds the cap |
| `RunnerProtocol.ProtocolKept` | backend/app/agent/runner.py:514-590 | Every step of a run keeps what was told, what is durable, what was deleted and what was announced consistent |
| `RunnerProtocol.DurableTerminal` | backend/app/agent/runner.py:592-681 | Over every interleaving and cancellation at most one outcome is durable, the checkpoint is deleted at most once and only for a durable non-interruption, and at most one terminal event is sent, last |
| `RunnerProtocol.CleanupComesAfter` | backend/app/agent/runner.py:538-545 | At every point of the log, a deletion is preceded by a durable completed or failed outcome |
| `RunnerProtocol.DurableOnceIfAccepted` | backend/app/agent/runner.py:621-681 | A finished run whose callback accepted everything it was told has exactly one durable outcome; one without any was refused, or raised, on closing |
| `RunnerProtocol.InterruptionKeepsCheckpoint` | backend/app/agent/runner.py:538-583 | A durable interruption keeps its checkpoint and announces neither completion nor failure |
| `RunnerProtocol.AnnouncedCompletionIsDurableIff` | backend/app/agent/runner.py:538-681 | A run announced as completed is durably completed iff the callback accepted the first outcome, and durably failed iff it refused that one and accepted the closing one |
| `RunnerProtocol.CompletedButDurablyFailed` | backend/app/agent/runner.py:538-681 | Such a run exists |
| `RunnerMerge.NothingLost` | backend/app/agent/runner.py:437-512 | A run that reaches its outcome has streamed exactly what was queued, in order, up to statuses published after the drain; an error among the items decides the outcome |
| `RunnerOutcome.OutcomeDecided` | backend/app/agent/runner.py:437-526 | A run fails with the code of the latest item that reports one, else with that of the final snapshot; without an error it is interrupted iff an item or the snapshot says so, else completed; each status and each text of the queue was streamed, item by item |
| `RunnerOutcome.StoredTextIsStreamedText` | backend/app/agent/runner.py:466-539 | A run that told its outcome told it once and first, with all the text that was streamed, in order, or none if there was none; whatever else it told is the failure of the close, which alone carries no text |
| `RunnerOutcome.EndedRunsAnnounceAndDelete` | backend/app/agent/runner.py:538-590 | A run not stopped before its last event announced the outcome it told first, an interruption by saying nothing; once over, its checkpoint is deleted exactly once iff a completion or failure is durable |
| `RunnerStatus.StatusEventsAccountedFor` | backend/app/agent/runner.py:542-583 | The status event comes at the start iff shown and again at the end iff the start was recorded, the outcome accepted and the finish shown; a failed deletion ends the run before either |
| `AgentTurn.ExplicitCommandNamesSaveJob` | backend/app/agent/graph.py:598-605 | The approved explicit command always names `save_job` as a whole word |
| `AgentMessages.LatestBelow` | backend/app/agent/graph.py:835-852 | The newest-first scan finds the payload at the greatest position holding a validated save result |
| `AgentMessages.NarrationOfValidated` | backend/app/agent/graph.py:855-892 | A validated result is narrated by its summary; a returned job adds the no-new-Job sentence, and a summary that claims creation without a return is replaced by the fixed one |
| `AgentMessages.InvalidUpdateMeans` | backend/app/agent/graph.py:522-542 | The newest-first scan answers yes iff the latest profile update since the last calls was refused as an invalid draft |
| `AgentMessages.ValidateMeans` | backend/app/schemas/jobs.py:174-210 | `save_job` arguments validate iff exactly one of a URL, a text and the current message is given, nothing unknown is, and a preview comes only with the current message; the source is that one, stripped |
| `AgentSafety.TurnIsBounded` | backend/app/agent/graph.py:182-239 | Whatever model and tools do, a turn makes at most `limit` passes, counts exactly those made, asks the model at most 2 * (limit + 1) times and ends within 2 * limit + 1 steps |
| `AgentSafety.UnexecutedCallsIffLoopLimit` | backend/app/agent/graph.py:1165-1183 | A turn ends with calls nobody ran iff its error is the loop limit, and then every pass was used |
| `AgentSafety.ProposalBeforeApproval` | backend/app/agent/graph.py:441-519 | No message holds a proposal and a commit; a commit is issued automatically at most once, only after a successful proposal since the previous calls and without an earlier commit or invalid update |
| `AgentSafety.DraftLeadsToCommit` | backend/app/agent/graph.py:468-541 | A turn in which a proposal left a draft ends with a commit requested, unless a profile update failed |
| `AgentSafety.DraftReadyMeans` | backend/app/agent/graph.py:489-506 | The draft scan succeeds iff some successful proposal result has no later message with calls |
| `AgentSafety.NamedTurnOpensWithSave` | backend/app/agent/graph.py:1064-1097 | On a turn that names `save_job` the first assistant message is one sole `save_job` call, or the fixed no-action text with which the turn ends |
| `AgentSafety.PassiveTurnSavesCurrentMessage` | backend/app/agent/graph.py:1064-1164 | On a passive turn the first message that calls `save_job` is one sole call that validates as a current-message save |
| `AgentSafety.CanonicalCallsValidate` | backend/app/agent/graph.py:608-643 | A call the text itself settles always passes `save_job` validation, with the source the text asks for |
| `AgentSafety.NarrationIsOfLatestResult` | backend/app/agent/graph.py:817-892 | A projected narration asks no model and depends only on the latest validated result |
| `AgentSafety.NamedTurnNarratesIffValidated` | backend/app/agent/graph.py:1047-1062 | On a named turn the message after the save is the narration iff the tool result validates, and then the turn is over |
| `AgentDriver.TurnState.Ask` | backend/app/agent/graph.py:1079-1164 | The rebinding of the response over at most two model calls is the specified answer and call count: the model's first answer as it came, wherever the turn takes it |
| `AgentDriver.TurnState.DecisionNode` | backend/app/agent/graph.py:1005-1183 | The node and the router together are the specified decision step: an ordinary answer is appended with its content and calls after one question, there is at most one message and two model calls, the shape of the turn is kept, and tools are reached only below the limit |
| `AgentDriver.TurnState.ToolsNode` | backend/app/agent/graph.py:200-239 | Adds one answer per call of the last message, under its id and name; on a turn of the right shape the count stays within the limit and equals the passes, and the node's own limit error never fires |
| `AgentAnswers.AnswerIsSaid` | backend/app/agent/graph.py:1079-1172 | When nothing is settled beforehand and the turn is neither a named save nor a passive turn with a save to consider, the appended message has the first answer's content and calls, less exactly the commits if it proposes, and one question was asked |
| `AgentAnswers.PassiveSaveIsSaid` | backend/app/agent/graph.py:1101-1114 | On a passive turn one `save_job` call is kept if it is a valid current-message call and replaced by one otherwise |
| `AgentAnswers.SecondAnswerIsSaid` | backend/app/agent/graph.py:1115-1164 | Plain text to a large message, or a save among other calls, is asked again once: a sole save is taken or corrected, other calls become the fixed refusal, and plain text is the answer to plain text alone |
| `AgentAnswers.NamedAnswerIsSaid` | backend/app/agent/graph.py:1083-1097 | On a turn that names `save_job` the first answer with calls of two is said if it is one `save_job` call, and is the fixed text otherwise |
| `AgentAnswers.TextIsSaved` | backend/app/agent/graph.py:598-643 | A sole URL, the approved command and an obvious posting are each saved by one call with that source, in this order, before the model is asked; otherwise the model is asked |
| `AgentAnswers.CommitDueMeans` | backend/app/agent/graph.py:432-519 | An automatic commit is due iff a successful proposal left a draft since the last calls and no message asked for a commit |
| `AgentAnswers.ReadDueMeans` | backend/app/agent/graph.py:681-705 | The automatic read is due iff the stripped text is the one question, nothing has read the CV and the CV has an experience section |
| `AgentAnswers.NamesSaveJobMeans` | backend/app/agent/graph.py:562-580 | A turn names the tool iff the word stands in the text with no word character on either side |
| `AgentAnswers.NarrationDueMeans` | backend/app/agent/graph.py:803-852 | A narration is due iff `save_job` was called and its latest result with a visible summary is of a named, current-message or cancelled save |
| `AgentAnswers.ExplicitTextMeans` | backend/app/agent/graph.py:598-605 | The approved command yields a text iff the stripped message is that text, visible and without quotes or line ends, between the two fixed halves |
| `AgentAnswers.ReadyDraftIsCommitted` | backend/app/agent/graph.py:441-519 | A ready draft nobody committed is committed by a call of its own without asking the model |
| `AgentAnswers.RecentRoleIsRead` | backend/app/agent/graph.py:681-705 | The one question about the most recent role is answered by reading the CV's experience section without asking the model |
| `AgentAnswers.ResultIsTold` | backend/app/agent/graph.py:1049-1062 | A validated save result is narrated without asking the model on named, current-message and cancelled saves |
| `AgentAnswers.FailedUpdateEnds` | backend/app/agent/graph.py:1010-1011 | A failed profile update ends the turn without a message |
| `TailoringGraph.RunsAreBounded` | backend/app/agent/tailoring_graph.py:314-445 | Every run has at most six node steps and two rewriting calls, works only on sections of the outline, and reaches the guard without a patch only with an issue |
| `TailoringGraph.NoErrorIffAccepted` | backend/app/agent/tailoring_graph.py:340-410 | A finished run has no error iff its last step was the guard accepting a patch, which is then the run's patch |
| `TailoringGraph.GuardDecides` | backend/app/agent/tailoring_graph.py:364-418 | At the guard an accepted patch ends the run with it; anything else leads to the repair, without error and with an issue, before the one repair, and to the error after it |
| `TailoringGraph.FinishedRunIs` | backend/app/agent/tailoring_graph.py:280-445 | Every finished run failed to select, failed to load, had its first patch accepted, or had it refused, was repaired exactly once and judged again, with error, patch and issues accordingly |
| `TailoringGraph.RepairedIffRefused` | backend/app/agent/tailoring_graph.py:372-418 | A finished run has a repair iff its first patch was refused, and an error without a repair iff selection or loading failed |
| `Reextract.EveryCommittedState` | backend/app/repositories/profile_reextract_operations.py:253-310 | Over every interleaving, whatever earlier states the reads of each transaction came from, a profile has at most one actionable operation and every owned draft points to an existing operation of its profile and source |
| `Reextract.ClaimLeavesOneIff` | backend/app/repositories/profile_reextract_operations.py:282-305 | A successful claim leaves only its own row iff no draft owned a row of the profile when it wrote |
| `Reextract.FreshClaim` | backend/app/repositories/profile_reextract_operations.py:268-310 | A claim in an immediate transaction succeeds iff no review is pending and nothing is in progress, and then leaves exactly one row for the profile |
| `Reextract.StaleClaimLeavesTwo` | backend/app/repositories/profile_reextract_operations.py:268-310 | A history in which a claim that read before a rival's run lands after it and leaves two rows |
| `Reextract.ReviewReadyAfterReconcile` | backend/app/repositories/profile_reextract_operations.py:116-175 | Reconciling leaves a review-ready row as draft, profile and workspace of the state it writes to demand iff its four reads judge the same as that state |
| `Reextract.OperationsAdvance` | backend/app/repositories/profile_reextract_operations.py:344-367 | Between two committed states an operation keeps its owner, source and bases, never goes back a stage, and never changes once terminal |
| `ReextractMeaning.ClaimMeans` | backend/app/repositories/profile_reextract_operations.py:213-310 | Whatever states its reads came from: a claim changes nothing if a read draft owns an existing operation, a read or stored operation is unfinished or the profile is gone; else it stores its row and deletes exactly the finished rows of the profile that no draft owns |
| `ReextractMeaning.ReconcileMeans` | backend/app/repositories/profile_reextract_operations.py:116-175 | Exactly a row read and still stored as ready for review goes stale, when the draft, profile or workspace read are not as it wants them |
| `ReextractMeaning.InsertDraftMeans` | backend/app/repositories/profiles.py:217-280 | A draft is stored iff its profile exists, its owner is a read operation of its profile and source, and no other draft shares target, owner or source |
| `ReextractMeaning.UpdateDraftMeans` | backend/app/repositories/profiles.py:217-280 | An update keeps target and owner and writes source, body and time, iff the row read allows it and the row stays alone |
| `ReextractMeaning.DeletionsMean` | backend/app/repositories/profile_reextract_operations.py:370-390 | An operation is deleted iff it is this profile's, in the expected state and no draft owns it; a draft iff the row read has the expected revision and owner |
| `ReextractMeaning.DropProfileMeans` | backend/app/db/models/profiles.py:130-256 | Dropping a profile takes its drafts and operations, unsets it as active, and leaves all else |
| `ReextractStore.Store.ClaimOperation` | backend/app/repositories/profile_reextract_operations.py:253-310 | Sweep, insert and rollback give the specified claim: success stores the running row and keeps all but finished rows of the profile, and each conflict names an operation that causes it |
| `ReextractStore.Store.ReconcileReviewReady` | backend/app/repositories/profile_reextract_operations.py:116-175 | Returns the row as reconciled: a review-ready answer has its draft and unmoved bases, and the row goes stale with the stale code exactly otherwise |
| `ReextractStore.Store.TransitionRunning` | backend/app/repositories/profile_reextract_operations.py:344-367 | Succeeds iff the row is this profile's and running; then the row has the given state and code, and nothing else changed |
| `ReextractStore.Store.UpsertDraft` | backend/app/repositories/profiles.py:217-280 | Success stores exactly the given draft under the profile's one row, owned drafts matching their operation; failure changes nothing |
| `ReextractStore.Store.DeleteDraftForProfile` | backend/app/repositories/profiles.py:283-318 | Deletes iff the profile's draft has the expected revision and owner, and only that draft |
| `ReextractStore.Store.DeleteOperation` | backend/app/repositories/profile_reextract_operations.py:370-390 | Raises iff a draft still owns the matching row; otherwise reports whether it deleted |
| `VersionChain.VersionsFormOneChain` | backend/app/repositories/cv_tailoring.py:138-203 | Under every interleaving a session's versions are numbered 1..latest without gap or repeat, each with exactly the previous version as parent |
| `VersionChain.OneWriterPerHead` | backend/app/repositories/cv_tailoring.py:138-203 | Of all writers that expect the same head of a session at most one succeeds |
| `VersionChain.LoneWriterSucceeds` | backend/app/repositories/cv_tailoring.py:138-203 | A writer whose reads are current succeeds: its version is stored with the next number, its parent and its content, and the session is ready at that number |
| `VersionChain.WriterLandsIff` | backend/app/repositories/cv_tailoring.py:138-203 | Whatever it read, a writer stores version and head iff session and parent were as it expects when read and the head still is; otherwise nothing changes |
| `VersionChain.MarkersMean` | backend/app/repositories/cv_tailoring.py:206-279 | Each state marker sets state and code of its session where it applies, and nothing else |
| `VersionChain.DeletingIsNotFinal` | backend/app/repositories/cv_tailoring.py:182-197 | A version of the head makes a session marked for deletion ready again, whether its reads came before or after the mark |
| `TailoringStore.Store.CheckHead` | backend/app/repositories/cv_tailoring.py:147-166 | The read phase passes iff head, parent argument and parent row all match what the writer expects |
| `TailoringStore.Store.WriteVersion` | backend/app/repositories/cv_tailoring.py:168-203 | Insert, conditional update and rollback on a miss give the specified write on whatever the state is by then |
| `TailoringStore.Store.CreateVersionCas` | backend/app/repositories/cv_tailoring.py:138-203 | Alone in its transaction the writer succeeds iff its checks pass; then the version is stored with number, parent and content, the session is ready at it, and the chain is kept; otherwise nothing changes |
| `TailoringStore.Store.MarkGeneratingRow` | backend/app/repositories/cv_tailoring.py:219-235 | Starts generation iff the session is ready or failed |
| `TailoringStore.Store.RestoreReadyRow` | backend/app/repositories/cv_tailoring.py:254-266 | Makes a session ready iff it has a version |
| `JobLifecycle.EveryJobIsCoupled` | backend/app/repositories/jobs.py:172-405 | Over every history, however old the rows that were read, a job has a failure code iff failed, content unless it came from a URL, a processed one its results, and a complete embedding iff processed with full or partial quality, none otherwise |
| `JobLifecycle.CleanIff` | backend/app/repositories/jobs.py:200-255 | The same for one step |
| `JobLifecycle.CleanThroughoutIff` | backend/app/repositories/jobs.py:215-255 | Results stay with processed jobs throughout a history iff no failure, retry or start judged on an earlier row lands on an unscorable processed job |
| `JobLifecycle.MovedOnIff` | backend/app/repositories/jobs.py:172-405 | One step, judged on any earlier row, leaves a processed job unchanged, gone, or processed with a strictly later revision iff it is not one of the named disturbances |
| `JobLifecycle.UndisturbedMovesOn` | backend/app/repositories/jobs.py:299-405 | Over any undisturbed history a processed job moves on only so |
| `JobLifecycle.MovesOnUntilDisturbed` | backend/app/repositories/jobs.py:299-405 | The first disturbance is exactly where that ends |
| `JobLifecycle.ReplacementSeesItsCapture` | backend/app/repositories/jobs.py:317-405 | No lost update: after any history that did not disturb the job, a replacement with a revision captured from it while processed lands iff the row is still exactly the captured one |
| `JobLifecycle.RepeatedClockHidesAResult` | backend/app/repositories/jobs.py:258-296 | A second result judged on the row while it was processing, under a repeated clock, overwrites a processed job and leaves its revision as it was |
| `JobLifecycle.RevisionRepeatsIffUnprocessed` | backend/app/repositories/jobs.py:200-315 | With current reads a changed row can carry its old revision again, if the clock repeats, iff it was not processed |
| `JobLifecycle.CurrentReadsAreSafe` | backend/app/repositories/jobs.py:172-405 | A function that reads the row it writes never disturbs a processed job and never leaks results |
| `JobStore.JobTable.ReplaceExtractionIfUnchanged` | backend/app/repositories/jobs.py:317-405 | Replaces iff the row exists with the expected revision, moves the revision strictly later, and keeps the raw content and every other row |
| `JobStore.JobTable.MarkProcessedRow` | backend/app/repositories/jobs.py:258-296 | Succeeds iff the job is processing and a scorable quality brings a complete embedding |
| `JobStore.JobTable.RetryFailed` | backend/app/repositories/jobs.py:215-238 | Succeeds iff the job failed, and clears every result field |
| `JobStore.JobTable.MarkFailedRow` | backend/app/repositories/jobs.py:241-255 | Succeeds iff the job is received or processing, and keeps the couplings |
| `JobStore.JobTable.MarkProcessingRow` | backend/app/repositories/jobs.py:200-212 | Succeeds iff the job is received, and keeps the couplings |
| `JobStore.JobTable.SetUrlRawContent` | backend/app/repositories/jobs.py:172-197 | Attaches content only to a received URL placeholder without any, under a free hash |
| `JobStore.JobTable.DeleteUrlPlaceholder` | backend/app/repositories/jobs.py:408-430 | Deletes only a bare URL placeholder nothing was fetched for |
| `ToolExecutions.OneReplayableRowPerCall` | backend/app/repositories/tool_executions.py:171-328 | Over every history, with racing inserts and transitions judged on rows read earlier, a run and call identify at most one row, and a row has a duration, not negative, and a result that loads iff it is completed or failed |
| `ToolExecutions.LoadStoredMeans` | backend/app/repositories/tool_executions.py:305-328 | Exactly a finished row with a visible, coupled result loads: a success without codes, or a failure whose code the row repeats |
| `ToolExecutions.ReplayIsStableIff` | backend/app/repositories/tool_executions.py:247-328 | Over any history what a finished row replays never changes while it exists iff no finish judged on the running row overwrites it |
| `ToolExecutions.StartsAndFinishesOnce` | backend/app/repositories/tool_executions.py:336-377 | Over any such history a row starts at most once and finishes at most once |
| `ToolExecutions.ReplayKeptIff` | backend/app/repositories/tool_executions.py:247-302 | One step, judged on any earlier row, keeps the replay iff it is not a completion of another result over a completion, or a failure with another result |
| `ToolExecutions.CurrentReadsNeverOverwrite` | backend/app/repositories/tool_executions.py:344-377 | Judged on the current row, no finish overwrites anything |
| `ToolExecutions.Repository.GetOrCreatePending` | backend/app/repositories/tool_executions.py:171-232 | Returns the one row of the identity and reports whether this call made it |
| `ToolExecutions.Repository.MarkRunningRow` | backend/app/repositories/tool_executions.py:235-244 | Succeeds iff the row is pending, and changes its status alone |
| `ToolExecutions.Repository.CompleteExecution` | backend/app/repositories/tool_executions.py:247-272 | Succeeds iff the row is running and the result is a success, and then replays that result |
| `ToolExecutions.Repository.FailExecution` | backend/app/repositories/tool_executions.py:275-302 | Succeeds iff the row is running and the result a failure, and stores its code |
| `RunsAndAttachments.RunsAreCoupled` | backend/app/repositories/agent_runs.py:360-421 | Over every history, however old the rows that were read, a run has an approval iff interrupted and an end time iff terminal |
| `RunsAndAttachments.ErrorsCoupledIff` | backend/app/repositories/agent_runs.py:327-357 | The same for one step |
| `RunsAndAttachments.ErrorsCoupledThroughoutIff` | backend/app/repositories/agent_runs.py:327-357 | A run has an error code iff failed, throughout a history, iff no completion judged on a running run lands on a failed one |
| `RunsAndAttachments.FinalIff` | backend/app/repositories/agent_runs.py:360-421 | The same for one step |
| `RunsAndAttachments.TerminalRunsAreFinalIff` | backend/app/repositories/agent_runs.py:33-48 | A terminal run stays exactly as it ended, while it exists, iff no finish judged on it while running lands on it with another outcome; it stays terminal in any case |
| `RunsAndAttachments.CurrentReadsKeepRuns` | backend/app/repositories/agent_runs.py:360-421 | Judged on the current row, no transition rewrites a terminal run or keeps an error it should not |
| `RunsAndAttachments.CurrentRunMovesMean` | backend/app/repositories/agent_runs.py:327-421 | Judged on the current row each move takes a run from its one state to the next with its columns, and otherwise changes nothing |
| `RunsAndAttachments.CurrentRowsMean` | backend/app/repositories/attachments.py:275-300 | New runs start running and new files staged, under a hash nobody has; a run is deleted in any state, a file only staged, failed or deleting |
| `RunsAndAttachments.RunRepository.Transition` | backend/app/repositories/agent_runs.py:360-421 | Field-by-field assignment gives the coupled row; refused iff the transition is not allowed |
| `RunsAndAttachments.FilesAreCoupled` | backend/app/repositories/attachments.py:303-358 | Over every history, however old the rows that were read, an attachment has a failure code iff it failed, an active one has a positive page count, at most one is active and no two share a hash |
| `RunsAndAttachments.NeverBackIff` | backend/app/repositories/attachments.py:303-358 | One step takes an attachment back iff it is such a transition: an activation past active, a failure or retry once active, an archiving of one being deleted |
| `RunsAndAttachments.ForwardThroughoutIff` | backend/app/repositories/attachments.py:27-47 | In a history an attachment only goes forward, step by step, iff no transition judged on an earlier row takes it back |
| `RunsAndAttachments.ArchivedStaysArchived` | backend/app/repositories/attachments.py:229-272 | An archived attachment that is not taken back is archived or deleting later and never active again |
| `RunsAndAttachments.ActiveRemovedIff` | backend/app/repositories/attachments.py:275-300 | An active or archived row leaves the table in a step iff the removal was judged on it while it was removable |
| `RunsAndAttachments.CurrentReadsNeverTakeBack` | backend/app/repositories/attachments.py:303-358 | Judged on the current row, no transition takes an attachment back |
| `RunsAndAttachments.CurrentActivationMeans` | backend/app/repositories/attachments.py:303-358 | A staged file becomes the active one iff none is and it has pages |
| `RunsAndAttachments.CurrentFileMovesMean` | backend/app/repositories/attachments.py:303-358 | Each other move takes a file to its one state, if that may come next, and otherwise changes nothing |
| `RunsAndAttachments.FileRepository.Transition` | backend/app/repositories/attachments.py:303-358 | Assigns the row as the target state asks; each refusal has its exact cause |
| `RunsAndAttachments.FileRepository.MarkDeletingRow` | backend/app/repositories/attachments.py:248-272 | Succeeds iff the row exists and is not active, and leaves it deleting |
| `RunsAndAttachments.FileRepository.DeleteRow` | backend/app/repositories/attachments.py:275-300 | Removes a staged, failed or deleting row and refuses an active or archived one |
| `Keyset.WalkIsFullList` | backend/app/repositories/observability.py:31-65 | For any strict listing order, a walk whose tables change only behind it lists every row that was ahead, once and in order, with full pages but the last |
| `Keyset.NewestFirstWalk` | backend/app/repositories/chat_messages.py:118-156 | Walking messages, attachments, runs or jobs by the last key gives the whole table as it was at the start, once, by falling time and then by falling id, although newer rows arrive in between |
| `Keyset.ConversationWalk` | backend/app/repositories/conversations.py:87-124 | The same for the three-part conversation key, while no listed conversation is touched |
| `Keyset.NewestFirstIsTotal` | backend/app/repositories/saved_jobs.py:61-76 | The tuple comparison with text ids is a strict total order |
| `Keyset.LessTextMeans` | backend/app/repositories/saved_jobs.py:61-76 | Ids compare at the first position where they part |
| `Keyset.ListIsUnique` | backend/app/repositories/observability.py:61-65 | A set of rows has exactly one list in a strict total order |
| `Keyset.ChunkFilterFitsIff` | backend/app/repositories/observability.py:76-120 | After every chunk the cursor condition leaves exactly the later chunks iff creation times never fall along the ordinals |
| `Keyset.ChunkWalk` | backend/app/repositories/observability.py:76-120 | When creation times never fall along the ordinals, every walk lists all chunks once, by rising ordinal, at any page size |
| `Keyset.SingleChunkWalksCompleteIff` | backend/app/repositories/observability.py:76-120 | Every finished walk at one chunk a page is complete iff creation times never fall along the ordinals; a finished walk always exists |
| `Keyset.FinishedWalk` | backend/app/repositories/observability.py:98-120 | Over a table that does not change, a walk by any strict cursor order comes to an end, at any page size |
| `Keyset.FallingPairIsSkipped` | backend/app/repositories/observability.py:98-117 | What breaks the others: a page after the first of a falling pair misses the second, and one after the second repeats the first |
| `ContextBudget.ApplyRecentContextBudget` | backend/app/agent/context.py:77-138 | The window shows, oldest first, the newest of the messages that are not excluded, within both caps, only the newest cut and to the whole budget; it misses one only if it is full or the next does not fit |
| `ContextBudget.NewestAlwaysFits` | backend/app/agent/context.py:117-133 | The newest message is always in a window of positive count, cut to the budget if it must be |

## Left out

- Skill display properties of non-seed skills, vector indexes and constraints: the last writer wins and no property rests on them.
- Neo4j settings, target guards, query allowlists, embedding float checks and payload safety scans: settled by reading one branch.
- `RELATED_TO` endpoints outside the taxonomy: taxonomy loading, which rejects them, is not part of this model.
- The observability graph snapshot and skill map: row filtering only.
- JSON floats, nested values and UTF-8 beyond ASCII in cursors: payloads are flat objects of strings and naturals written with ASCII escapes.
- Case folding and white-space normalisation of search queries: matching is an arbitrary predicate on the text.
- SSE framing, activity storage failures and a failing `aclose` in the runner; when a chunk yields several deltas each send is its own step.
- LangGraph internals: a tool pass appends one message per call under the call's own id and name, and an interrupted pass that resumes is one pass.
- The prompt blocks, tool binding and model adapters of the agent graph: the model's answers are arbitrary.
- `RunnerProtocol.DurableTerminal`: an outcome counts as durable when the callback reports it so; a callback that commits and then raises is not seen.
- Attachments' rows, the text chunk table and file storage around re-extraction and tailoring: only the ids they contribute are modelled.
- `Keyset.NewestFirstWalk`: rows deleted during a walk are not modelled; they simply do not appear on later pages.
- `Cursor.HistoryRoundTrip`, `Cursor.ChunkRoundTrip`, `Cursor.ConversationRoundTrip`: the text formats of instants and UUIDs belong to pydantic and are any formats that read back what they wrote.
- `GraphCounts.RebuildCountsAreInputSums`: documents whose section ids continue each other after a colon are excluded, because their entry ids can then collide, as `EntryIdsCollideIff` states exactly.
- `JobLifecycle`, `ToolExecutions`, `RunsAndAttachments`: each repository function commits on its own; transactions that call several of them are not modelled.
