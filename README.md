# TalentFlow hiring tracker — a Dafny model of its core

TalentFlow is a single-page hiring board. Recruiters keep **jobs** (title,
slug, active/archived status, a drag-and-drop rank `order`, tags),
**candidates** (name, e-mail, pipeline stage, a timeline of stage changes)
and **assessments** (a questionnaire of sections and questions, at most one
per job). The data lives in two places:

- a browser-local store (IndexedDB through Dexie). It has four
  auto-incremented tables, and a unique index on `assessments.jobId`;
- a mock HTTP server (Mirage). It holds a separate, seeded job and
  candidate collection behind `/api/...` routes.

This project models in Dafny the parts of the program that decide things:

- the store and the seed that fills it on first run;
- the jobs controller: a reducer, paged and filtered fetches, create,
  status change, and a transactional reorder;
- the candidates controller: an optimistic stage change, reconciled with
  or reverted from the server's reply;
- the mock server's handlers;
- the assessment builder's reducer and its deferred save;
- the question editor's payloads, and the assessment form;
- the pages' derived data: filters, the kanban board, dashboard figures,
  `@mention` highlighting and routing decisions;
- the job-creation dialog and its slug;
- the login and theme contexts.

One Dafny module corresponds to one source file. Two shared modules sit
underneath them:

- `Common`: options, text helpers, decimal printing and parsing, a
  stable sort by key, and primary-key-order scans;
- `Records` and `AssessmentStructure`: the value types the store, the
  server and the pages share.

State that the program mutates in place is a class with `modifies` clauses:
the store, the controllers, the server, the builder page, the form, the
dialog, the auth and theme providers. Pure expressions are functions, and
their properties are lemmas.

Every store or network call takes an explicit success flag. The other
inputs the program takes from its environment are parameters:

- the clock (`Date.now()`, `new Date()`);
- `Math.random()` draws, as reals in [0, 1);
- `nanoid()` ids;
- faker's values.

`localStorage` slots appear as fields of the classes that write them.

## Model

| member | source | states |
|---|---|---|
| DexieDB.Database.constructor | src/dexieDB.js:3-9 | a fresh store has four empty tables whose key counters start at 1 |
| DexieDB.Database.AddJob | src/context/JobsContext.js:103-106 | `add` stores the record under the next key and returns that key; a failed call changes nothing |
| DexieDB.Database.UpdateJob | src/context/JobsContext.js:117 | `update` applies the change to that key only, returns the number of rows changed, and leaves a missing key alone |
| DexieDB.Database.PutAssessment | src/pages/AssessmentBuilderPage.jsx:63-67 | `put` without a key adds a row, or raises a ConstraintError and adds nothing when the unique `jobId` index already holds the key |
| DexieDB.Database.BulkAddJobs | src/seedDB.js:26 | `bulkAdd` appends every job in order under consecutive keys, or changes nothing |
| DexieDB.Database.BulkAddCandidates | src/seedDB.js:47 | `bulkAdd` appends every candidate in order under consecutive keys, or changes nothing |
| DexieDB.Database.BulkAddAssessments | src/seedDB.js:115 | the whole batch is added, or a ConstraintError adds none of it when two rows share a `jobId` or one is already indexed; inside the seed that error aborts the seed's transaction (`SeedDB.RunSeed`) |
| DexieDB.Database.Abort | src/seedDB.js:128-132 | a transaction that does not commit puts every table back as it was |
| DexieDB.WithJobProperties | src/dexieDB.js:5 | adding a job keeps every other row, uses a key not in use, and accepts duplicate titles and slugs |
| DexieDB.WithJobChangeProperties | src/dexieDB.js:5 | an update changes only the addressed row and keeps the store valid |
| DexieDB.WithAssessmentProperties | src/dexieDB.js:7 | a put fails exactly when its `jobId` is defined and already indexed |
| DexieDB.SecondPutForSameJobFails | src/dexieDB.js:7 | a second put for the same job raises ConstraintError, because `&jobId` is unique |
| DexieDB.UnindexedPutNeverConflicts | src/dexieDB.js:7 | a NaN `jobId` is not indexed, so such a put always adds a row |
| DexieDB.AssessmentForJobFinds | src/pages/AssessmentBuilderPage.jsx:51 | a NaN key is refused with a DataError; any other key gives the one row holding it, stored under its own id, and nothing exactly when no row holds it |
| DexieDB.FirstWithJobId | src/pages/AssessmentBuilderPage.jsx:51 | the lookup returns a row with that key, or there is none |
| DexieDB.WithJobsProperties | src/seedDB.js:26 | a bulk add of jobs stores each one under its own consecutive key and keeps the old rows |
| DexieDB.WithCandidatesProperties | src/seedDB.js:47 | a bulk add of candidates stores each one under its own consecutive key; every old key keeps its old row |
| DexieDB.WithAssessmentsProperties | src/seedDB.js:115 | a bulk add of assessments succeeds exactly when the batch has no index conflict |
| DexieDB.JobRowsEmptyIffNoJobs | src/seedDB.js:121-122 | `count() > 0` exactly when the jobs table holds a row |
| DexieDB.EmptyTablesValid | src/dexieDB.js:4-9 | the empty store satisfies the store's invariant, and its scans are empty |
| Common.SortByKeyProperties | src/pages/DashboardPage.jsx:58 | the stable sort by key yields an ascending permutation of its input |
| Common.SortedUnchanged | src/pages/CandidateDetailsPage.jsx:53 | sorting an already sorted sequence changes nothing |
| Common.RowsOfAppended | src/seedDB.js:28 | `toArray()` after appending to an empty table returns the added records in order, with their keys |
| Common.ParseNatToString | src/pages/AssessmentBuilderPage.jsx:51 | `Number` of a printed natural number gives that number back |
| Common.RemoveAtProperties | src/pages/AssessmentBuilderPage.jsx:39 | `splice(i, 1)` drops exactly the element at `i`; an index past the end drops nothing |
| JobsContext.SetFiltersResetsPage | src/context/JobsContext.js:33-38 | SET_FILTERS replaces the filters and resets the page to 1; nothing else changes |
| JobsContext.SetPageChangesOnlyPage | src/context/JobsContext.js:39-43 | SET_PAGE changes only `meta.page` |
| JobsContext.SetLoadingChangesOnlyLoading | src/context/JobsContext.js:18-19 | SET_LOADING changes only `loading` |
| JobsContext.UnknownActionKeepsState | src/context/JobsContext.js:44-45 | an unknown action returns the state unchanged |
| JobsContext.ReplaceByIdAt | src/context/JobsContext.js:29-31 | UPDATE_JOB replaces exactly the entries with the updated job's id, at the same positions |
| JobsContext.UpdateJobState | src/context/JobsContext.js:26-32 | UPDATE_JOB changes only the list, and keeps its length |
| JobsContext.SortByOrderProperties | src/context/JobsContext.js:67 | `orderBy("order")` is ascending in `order` and a permutation of the table |
| JobsContext.FilterJobsMembers | src/context/JobsContext.js:69-78 | a job passes exactly when its status matches a set status filter and its lower-cased title contains the lower-cased search |
| JobsContext.FilterJobsKeepsOrder | src/context/JobsContext.js:69-78 | filtering keeps the `order` ranking |
| JobsContext.PageSliceProperties | src/context/JobsContext.js:82-85 | a page holds at most 10 jobs: those from offset (page-1)*10 on |
| JobsContext.OrderedIsFilteredStore | src/context/JobsContext.js:67-78 | before paging, the collection holds exactly the stored jobs that pass the filters, ranked by `order` |
| JobsContext.ListPageProperties | src/context/JobsContext.js:67-85 | a fetched page holds at most 10 stored jobs that pass the filters, ranked by `order` |
| JobsContext.MoveProperties | src/context/JobsContext.js:129-131 | the moved job lands at the destination; the others keep their relative order; the result is a permutation |
| JobsContext.ApplyOrdersProperties | src/context/JobsContext.js:136-140 | after `n` writes, each of the first `n` jobs has `order` equal to its index; no other row changes |
| JobsContext.ReorderReadsBackInDispatchedOrder | src/context/JobsContext.js:67-140 | after a committed reorder, each moved job is stored with `order` = its index; with any filters, such a job is listed exactly when it passes them, and the listed ones appear in the dispatched order |
| JobsContext.ReorderedListLeadsTheListing | src/context/JobsContext.js:67-140 | when no other job is ranked below the list's length, an unfiltered fetch starts with exactly the dispatched list, and a full ten-job list is exactly page 1 |
| JobsContext.JobsController.constructor | src/context/JobsContext.js:9-14 | the initial state: empty list, page 1 of size 10, empty filters, not loading |
| JobsContext.JobsController.Dispatch | src/context/JobsContext.js:16-47 | the state is always the initial state with every dispatched action applied |
| JobsContext.JobsController.FetchJobs | src/context/JobsContext.js:64-99 | loading on, then the page and its metadata (or nothing on failure), then loading off |
| JobsContext.JobsController.CreateJob | src/context/JobsContext.js:101-113 | the job is added with `order` = now; loading goes on, page 1 is refetched unfiltered (or, when that read fails, the list and metadata are kept), and loading goes off; a failed add returns "Failed to save job." and stores nothing |
| JobsContext.JobsController.UpdateJobStatus | src/context/JobsContext.js:115-125 | the status is written and the list entry replaced; a failure returns "Failed to update job." and changes nothing |
| JobsContext.JobsController.ReorderJobs | src/context/JobsContext.js:127-148 | the moved list is dispatched first; the transaction commits all writes or none; on failure the original list is dispatched back and the store is unchanged |
| CandidatesContext.SetStageAt | src/context/CandidatesContext.js:29-31 | the optimistic step sets the new stage on exactly the candidates with that id |
| CandidatesContext.ReplaceCandidateAt | src/context/CandidatesContext.js:50 | the server's record replaces exactly the candidates with its id |
| CandidatesContext.ReconcileOverridesOptimistic | src/context/CandidatesContext.js:29-50 | reconciling after the optimistic step equals replacing in the original list |
| CandidatesContext.StageUpdateOutcome | src/context/CandidatesContext.js:25-57 | after a successful update the candidate is the server's record with the new stage; the others are untouched |
| CandidatesContext.CandidatesController.constructor | src/context/CandidatesContext.js:7-9 | no candidates, loading, no error |
| CandidatesContext.CandidatesController.FetchCandidates | src/context/CandidatesContext.js:11-23 | the list is the server's candidates, or on failure the old list with "Failed to fetch candidates"; loading ends either way |
| CandidatesContext.CandidatesController.UpdateCandidateStage | src/context/CandidatesContext.js:25-57 | optimistic stage, then the server's record; a 404 or unreachable server restores the snapshot and sets the revert error |
| MockServer.StageChangeAppendsOneEntry | src/api/server.js:114-118 | a stage change appends exactly one timeline entry, for the new stage and the current time |
| MockServer.NoStageChangeKeepsTimeline | src/api/server.js:115 | a missing, empty or unchanged stage adds no timeline entry |
| MockServer.MergeCandidateSetsSentAttributes | src/api/server.js:120 | every attribute the body sends overwrites the stored one; the rest are kept |
| MockServer.MergeJobSetsSentAttributes | src/api/server.js:87 | every attribute the body sends overwrites the stored one; the rest are kept |
| MockServer.FixtureJobShape | src/api/server.js:14-30 | fixture job `i` is rank `i`, id `i+1`, active or archived, tagged React and JavaScript, with numbered title and slug |
| MockServer.FixtureCandidateShape | src/api/server.js:32-49 | a fixture candidate has one of five stages and a one-entry timeline for that stage |
| MockServer.Server.Seeded | src/api/server.js:52-55 | the seeded server holds 15 fixture jobs and 1000 fixture candidates under ids 1 upwards; `GET /jobs/:id` and `GET /candidates/:id` find exactly those ids, and return fixture `id - 1` |
| MockServer.Server.GetJob | src/api/server.js:66-73 | a stored id returns its job; any other returns 404 "Job not found"; its partners are the round trips in `PostJob`, `PatchJob` and `Seeded` |
| MockServer.Server.GetCandidate | src/api/server.js:96-103 | a stored id returns its candidate; any other returns 404 "Candidate not found"; its partners are the round trips in `PatchCandidate` and `Seeded` |
| MockServer.Server.PostJob | src/api/server.js:75-78 | the body is stored under the next id and returned; `GET /jobs/:id` then returns it, `GET /jobs` lists it last, and every other id reads as before |
| MockServer.Server.PatchJob | src/api/server.js:80-89 | a stored job gets the sent attributes, and `GET /jobs/:id` then returns the reply; other ids read as before; a missing one returns 404 and nothing changes |
| MockServer.Server.PatchCandidate | src/api/server.js:105-122 | a stored candidate gets the sent attributes and the timeline rule, and `GET /candidates/:id` then returns the reply; other ids read as before; a missing one returns 404 and nothing changes |
| AssessmentBuilder.SetFieldSetsExactlyOneField | src/pages/AssessmentBuilderPage.jsx:35-36 | writing a question field sets that field and keeps every other field and the id |
| AssessmentBuilder.LoadAndUnrecognised | src/pages/AssessmentBuilderPage.jsx:14-15 | LOAD_ASSESSMENT returns its payload; an unknown action returns the state unchanged |
| AssessmentBuilder.UpdateTitleChangesOnlyTitle | src/pages/AssessmentBuilderPage.jsx:16-18 | UPDATE_TITLE changes only the title |
| AssessmentBuilder.AddSectionAppendsOne | src/pages/AssessmentBuilderPage.jsx:19-21 | ADD_SECTION appends one empty "New Section" and keeps the others |
| AssessmentBuilder.UpdateSectionTitleChangesOneTitle | src/pages/AssessmentBuilderPage.jsx:22-24 | UPDATE_SECTION_TITLE changes one section's title only |
| AssessmentBuilder.AddQuestionAppendsDefault | src/pages/AssessmentBuilderPage.jsx:25-33 | ADD_QUESTION appends the default short-text question, not required, to one section |
| AssessmentBuilder.UpdateQuestionSetsOneField | src/pages/AssessmentBuilderPage.jsx:34-37 | UPDATE_QUESTION sets one field of one question; all else is kept |
| AssessmentBuilder.DeleteQuestionRemovesOne | src/pages/AssessmentBuilderPage.jsx:38-40 | DELETE_QUESTION removes exactly the addressed question |
| AssessmentBuilder.SaveThenReload | src/pages/AssessmentBuilderPage.jsx:51-67 | after a save, loading the page for that job gives back the saved structure; a second save for it raises ConstraintError |
| AssessmentBuilder.BuilderPage.constructor | src/pages/AssessmentBuilderPage.jsx:47-48 | the initial state has an empty title and no sections; no save is pending |
| AssessmentBuilder.BuilderPage.Mount | src/pages/AssessmentBuilderPage.jsx:53-59 | before the live query answers, the effect loads a fresh "New Assessment" with the given id and schedules its save |
| AssessmentBuilder.BuilderPage.Dispatch | src/pages/AssessmentBuilderPage.jsx:71-78 | each state change cancels the pending save and schedules one if the title is non-empty |
| AssessmentBuilder.BuilderPage.Load | src/pages/AssessmentBuilderPage.jsx:51-59 | a NaN route key is refused and nothing changes; otherwise the stored structure for the job is loaded (one the table holds), or a fresh "New Assessment" exactly when no row holds the key; a save is scheduled |
| AssessmentBuilder.BuilderPage.TimerFires | src/pages/AssessmentBuilderPage.jsx:62-76 | the pending state is `put` under the route's job key with its title; a taken key fails |
| QuestionEditor.EditorFieldUpdatesIgnored | src/components/QuestionEditor.jsx:5-7 | UPDATE_QUESTION_FIELD is not handled by the builder's reducer, so edits would leave the state as it was; no page of the program renders this editor (the builder page has its own inline editor), so this is latent |
| QuestionEditor.EditorDeleteIsBuilderDelete | src/components/QuestionEditor.jsx:49 | the editor's delete is the builder's DELETE_QUESTION |
| QuestionEditor.SubObjectChangeOverwritesOneKey | src/components/QuestionEditor.jsx:9-17 | a validation or conditional change overwrites one key and keeps the others |
| QuestionEditor.OptionEdits | src/components/QuestionEditor.jsx:19-26 | change one option in place, append an empty one, or remove one by index |
| QuestionEditor.AvailableConditionalMembers | src/components/QuestionEditor.jsx:28 | the offered dependencies are exactly the other questions (by id) |
| QuestionEditor.ShowAlwaysStoresNull | src/components/QuestionEditor.jsx:82 | "Show always" stores `dependsOn: null`; any other choice stores its id |
| QuestionEditor.EditorPayloads | src/components/QuestionEditor.jsx:5-7 | every field change is an UPDATE_QUESTION_FIELD addressed by section and question index (the editor is not rendered by any page) |
| AssessmentForm.AnswerIsShown | src/components/AssessmentForm.jsx:8-49 | a text question shows what was typed once the change handler stores it, and "" before; answering another question leaves it as it was; single choice shows a radio group with one radio per option; every other type is "Unsupported question type." |
| AssessmentForm.RenderQuestionsAll | src/components/AssessmentForm.jsx:59-72 | every question of a section is rendered, in order, with its response |
| AssessmentForm.RenderSectionsAll | src/components/AssessmentForm.jsx:56-74 | every section is rendered, in order |
| AssessmentForm.RenderFormShowsEveryQuestion | src/components/AssessmentForm.jsx:51-76 | no structure renders nothing; otherwise every question of every section is shown |
| AssessmentForm.ResponseForm.constructor | src/components/AssessmentForm.jsx:40-41 | responses start as the initial responses |
| AssessmentForm.ResponseForm.HandleResponseChange | src/components/AssessmentForm.jsx:43-49 | one key is set to the new value and the rest are kept; the callback, if any, receives the new map |
| JobsPage.OnDragEnd | src/pages/JobsPage.jsx:26-29 | only a drop outside the list is ignored |
| JobsPage.DropInPlaceStillReorders | src/pages/JobsPage.jsx:26-29 | a drop at its own index still reorders, and the dispatched list is unchanged |
| JobsPage.ToggleStatus | src/pages/JobsPage.jsx:97 | active becomes archived; anything else becomes active |
| JobsPage.ToggleStatusTwice | src/pages/JobsPage.jsx:97 | toggling an active or archived job twice gives it back |
| JobsPage.PrevDisabledExactlyOnFirstPage | src/pages/JobsPage.jsx:117-118 | on a fetched page's metadata, Prev is disabled exactly on page 1; otherwise it asks for the page before, which is again a valid page |
| JobsPage.NextDisabled | src/pages/JobsPage.jsx:126 | Next is disabled exactly when all three values are defined and the page covers the total |
| JobsPage.PageCountMatchesNext | src/pages/JobsPage.jsx:122-126 | for fetched metadata, Next is disabled exactly on the last page of the count shown |
| JobsPage.FilterControlsReplaceOneField | src/pages/JobsPage.jsx:45-60 | the search box and the status select each replace only their own filter and reset the page |
| JobsPage.EmptyMetaAfterReorder | src/pages/JobsPage.jsx:117-126 | after a reorder the metadata is empty: no button is disabled, the count shows 1, and both buttons dispatch an undefined page |
| CandidatePage.FilteredMembers | src/pages/CandidatePage.jsx:18-25 | a candidate is listed exactly when its lower-cased name or e-mail contains the search and a set stage filter matches |
| CandidatePage.NoFiltersKeepsAll | src/pages/CandidatePage.jsx:18-25 | with no search and no stage filter, every candidate is listed in order |
| CandidatePage.ColumnMembers | src/pages/CandidatePage.jsx:101-102 | a column holds exactly the listed candidates at its stage |
| CandidatePage.OnBoardIffStageListed | src/pages/CandidatePage.jsx:91-102 | a listed candidate appears in its stage's column only, and on the board exactly when its stage is one of the five |
| CandidatePage.RejectedOnNoColumn | src/pages/CandidatePage.jsx:10 | a Rejected candidate is on no column |
| CandidatePage.BoardHeadersAddUp | src/pages/CandidatePage.jsx:99 | the column header counts plus the off-board candidates equal the listed total |
| CandidatePage.BoardCountsEveryListedCandidate | src/pages/CandidatePage.jsx:99 | for distinct column stages, the column counts plus the off-board candidates equal the list's length |
| CandidatePage.HandleOnDragEnd | src/pages/CandidatePage.jsx:27-33 | a drop is ignored exactly when it has no destination or lands where it started; otherwise the dragged id moves to the destination column |
| CandidatePage.SameColumnReorderStillUpdates | src/pages/CandidatePage.jsx:29-32 | a move within a column to another index still sends a stage update, to the same stage |
| DashboardPage.StatsCounts | src/pages/DashboardPage.jsx:45-53 | the cards count jobs, active jobs, candidates and hired candidates; all are zero until both tables are read |
| DashboardPage.ActiveJobsOfMembers | src/pages/DashboardPage.jsx:49 | the active filter keeps exactly the active jobs |
| DashboardPage.HiredOfMembers | src/pages/DashboardPage.jsx:51 | the hired filter keeps exactly the hired candidates |
| DashboardPage.RecentCandidatesAreTheNewest | src/pages/DashboardPage.jsx:55-59 | at most five candidates, by descending id; no left-out candidate has a larger id; with those left out they are all the candidates |
| DashboardPage.NewestFirstCut | src/pages/DashboardPage.jsx:58 | in a descending-id list, every entry before a cut has an id at least that of every entry after it |
| DashboardPage.ActiveJobsIsAPrefix | src/pages/DashboardPage.jsx:61-64 | the first five active jobs in table order; nothing before both tables are read |
| CandidateDetails.WordRunEnd | src/pages/CandidateDetailsPage.jsx:30 | `\w+` is greedy: the run ends at the first non-word character |
| CandidateDetails.FirstMention | src/pages/CandidateDetailsPage.jsx:30 | the leftmost `@\w` at or after a position, or none |
| CandidateDetails.SplitStep | src/pages/CandidateDetailsPage.jsx:30 | one split step: the text before the leftmost mention holds none, and the captured part is a whole `@\w+` mention |
| CandidateDetails.SplitJoinsBack | src/pages/CandidateDetailsPage.jsx:30 | the split's parts concatenate back to the note |
| CandidateDetails.SplitShape | src/pages/CandidateDetailsPage.jsx:30 | an odd number of parts; the captured mentions at odd positions; no mention in the text between |
| CandidateDetails.RenderPartsAt | src/pages/CandidateDetailsPage.jsx:31-35 | each part is shown with its own text, highlighted exactly when it is `@` plus a known user |
| CandidateDetails.RenderNoteHighlightsKnownMentions | src/pages/CandidateDetailsPage.jsx:29-36 | only whole mentions of alice, bob or charlie are highlighted, and all of them are |
| CandidateDetails.TimelineShownNewestFirst | src/pages/CandidateDetailsPage.jsx:53 | the timeline is shown newest first, with the same entries, and showing it again changes nothing |
| CandidateDetails.DetailsPage.constructor | src/pages/CandidateDetailsPage.jsx:10-11 | no candidate, loading: the page shows "Loading..." |
| CandidateDetails.DetailsPage.FetchCandidate | src/pages/CandidateDetailsPage.jsx:14-47 | loading ends; a found candidate is shown as its name, e-mail and stage; a 404 body shows "Candidate not found."; a failed request keeps the old candidate, so with none it shows "Candidate not found." |
| CandidateDetails.DetailsPage.ShowTimeline | src/pages/CandidateDetailsPage.jsx:53 | the timeline is sorted in place on the fetched record and shown |
| AssessmentPage.EnrichKeepsEveryAssessment | src/pages/AssessmentPage.jsx:15-31 | every stored assessment is listed in key order, with its job title added |
| AssessmentPage.SavedAssessmentIsListed | src/pages/AssessmentPage.jsx:15-31 | a saved assessment is listed last, after the unchanged earlier rows, titled with its job's title when its key is truthy and names a stored job, and "Unassigned" otherwise |
| AssessmentPage.HandleCreate | src/pages/AssessmentPage.jsx:33-42 | the chosen job's builder, or `unassigned-<now>` when none is chosen |
| AssessmentPage.HandleEdit | src/pages/AssessmentPage.jsx:44-51 | a linked assessment opens its job's builder; any other raises "This assessment is not linked to a job." |
| AssessmentPage.UnassignedBuilderNeverConflicts | src/pages/AssessmentPage.jsx:39-40 | the unassigned route's key is NaN, so its saves never hit the unique index |
| AssessmentPage.CreateForJobOpensItsBuilder | src/pages/AssessmentPage.jsx:34-36 | choosing a job opens a builder whose key is that job's id |
| AssessmentPage.EditOpensTheSameAssessment | src/pages/AssessmentPage.jsx:44-46 | editing a linked assessment opens the builder that loads that very assessment |
| JobFormModal.SlugifyProperties | src/components/JobFormModal.jsx:7-9 | a slug holds only lower-case letters, digits, `_` and `-`, and keeps the title's word characters in order |
| JobFormModal.SlugifyIdempotent | src/components/JobFormModal.jsx:7-9 | slugifying a slug changes nothing |
| JobFormModal.SlugCharsUnchanged | src/components/JobFormModal.jsx:8 | each of the three steps leaves a slug unchanged |
| JobFormModal.LeadingSpaceBecomesDash | src/components/JobFormModal.jsx:8 | leading whitespace is not trimmed: it becomes a leading `-` |
| JobFormModal.CollapseSpacesProperties | src/components/JobFormModal.jsx:8 | each run of JavaScript whitespace (ASCII and Unicode spaces and line terminators) becomes one `-`; no whitespace remains; word characters are kept |
| JobFormModal.UnicodeSpacesCount | src/components/JobFormModal.jsx:8-20 | a title of no-break, ideographic and line-separator spaces is blank, and a no-break space in a title becomes a `-` |
| JobFormModal.KeepSlugCharsAt | src/components/JobFormModal.jsx:8 | `[^\w-]` characters are dropped, and word characters are kept in order |
| JobFormModal.SubmittedJobShape | src/components/JobFormModal.jsx:25-26 | the dialog sends an active, untagged job whose slug is its title's slug |
| JobFormModal.JobForm.constructor | src/components/JobFormModal.jsx:13-14 | an empty title and no error |
| JobFormModal.JobForm.SetTitle | src/components/JobFormModal.jsx:13 | the title changes and the error is kept |
| JobFormModal.JobForm.HandleSubmit | src/components/JobFormModal.jsx:16-35 | a title that `trim()` empties (JavaScript whitespace, Unicode included) gives "Title is required" and stores nothing; otherwise the job is created and the dialog closes and clears, or the error is shown |
| SeedDB.Pick | src/seedDB.js:11 | `getRandom` returns an element of the array |
| SeedDB.SeedJobShape | src/seedDB.js:15-25 | a seeded job is active or archived, with a lower-case slug, one to three seed tags, a creation date, and rank `now - 1000*i` |
| SeedDB.SeedOrdersDescend | src/seedDB.js:21 | while the clock stays within one second, later seeded jobs get strictly smaller ranks |
| SeedDB.BuildJobs | src/seedDB.js:13-25 | the loop builds the 25 seeded jobs in order |
| SeedDB.SeededJobsReadBack | src/seedDB.js:26-28 | read back from an empty table, the jobs are the seeded ones, in order, under consecutive keys |
| SeedDB.SeedCandidateShape | src/seedDB.js:33-46 | a seeded candidate has a seed stage, a one-entry timeline for it, no notes, and a job id from the created jobs (none if there are no jobs) |
| SeedDB.BuildCandidates | src/seedDB.js:31-46 | the loop builds the 1000 seeded candidates in order |
| SeedDB.GenerateQuestionShape | src/seedDB.js:51-83 | choice types get the four levels, numeric gets 1 to 5 and the rating text, short text the strength text; the condition is empty; never a file upload |
| SeedDB.BuildQuestions | src/seedDB.js:92-95 | the inner loop builds six generated questions |
| SeedDB.BuildSections | src/seedDB.js:90-101 | the section loop builds "Technical Skills" and "Behavioral Questions" |
| SeedDB.BuildAssessments | src/seedDB.js:85-114 | three assessments for the first three jobs, or the TypeError when fewer jobs exist |
| SeedDB.SeedAssessmentsForFirstJobs | src/seedDB.js:87-114 | each assessment is titled after its job, for that job, with two sections of six questions |
| SeedDB.RunSeed | src/seedDB.js:119-137 | skipped when a job exists; otherwise one transaction commits all three tables, or rolls every table back |
| SeedDB.FreshJobsReadBack | src/seedDB.js:26-28 | in a fresh store the seeded jobs are read back under keys 1 to 25 |
| SeedDB.DistinctJobsNoConflict | src/seedDB.js:115 | a batch for distinct jobs added to an empty table raises nothing |
| SeedDB.FreshStoreSeeds | src/seedDB.js:119-137 | seeding a fresh store commits; assessment `k` is the one for job `k` |
| AuthContext.Auth.constructor | src/context/AuthContext.js:8-11 | the initial user is the stored one, or nobody |
| AuthContext.Auth.RestoreFromStorage | src/context/AuthContext.js:29-32 | a stored user replaces the state on mount |
| AuthContext.Auth.Login | src/context/AuthContext.js:13-22 | success exactly for admin@talentflow.com / 123456789, which signs in as `{email}` and stores it; any other pair returns "Invalid email or password" and changes nothing |
| AuthContext.Auth.Logout | src/context/AuthContext.js:24-27 | nobody is signed in and the stored user is removed |
| ThemeContext.Toggled | src/context/ThemeContext.js:12-14 | "light" becomes "dark"; anything else becomes "light" |
| ThemeContext.ToggleTwice | src/context/ThemeContext.js:13 | toggling twice gives light or dark back; from any other value it ends on dark |
| ThemeContext.StoredThemeSurvivesReload | src/context/ThemeContext.js:7-24 | after any number of toggles, the theme the effect stores is the one the next start reads back |
| ThemeContext.BodyClasses | src/context/ThemeContext.js:19-23 | the body has "dark-theme" exactly when the theme is dark; other classes are kept |
| ThemeContext.Theme.constructor | src/context/ThemeContext.js:7-24 | the stored theme, or "light" when none or an empty one is stored; then storage holds it and the body class follows it |
| ThemeContext.Theme.Effect | src/context/ThemeContext.js:17-24 | storage holds the theme and the body class follows it |
| ThemeContext.Theme.ToggleTheme | src/context/ThemeContext.js:12-24 | the theme flips and the effect mirrors it |

## Left out

- Rendering, CSS, icons, routing wiring and bootstrapping are left out: they hold no state rules. The same goes for the login page, the navigation bar, the layout and the protected route.
- The note and assessment-choice modals are left out: they only forward a value. The job details page is also left out: it is a single store lookup.
- The MSW handlers are left out. The equivalent lookup and 404 rule is modelled in `MockServer`.
- HTTP transport, `fetch`/`response.json`, and IndexedDB internals become explicit success flags on each call. A failed count or read-back inside the seed is folded into those flags.
- JSON text in `localStorage` is abstracted to the object it encodes. A corrupt stored user, which `JSON.parse` would reject, is not modelled.
- `useLiveQuery` reactivity is not modelled: a query's answer is an input.
- When the builder's live query rejects (a NaN key's DataError), dexie-react-hooks re-throws it into rendering; that is not modelled. `AssessmentBuilder.BuilderPage.Load` reports the refusal and keeps the state `Mount` set.
- Timers are not modelled. The 300 ms fetch debounce is left out. The 1.5 s builder save is modelled as "only the last scheduled save fires".
- Interleaved asynchronous actions, and closures racing on captured snapshots, are not modelled. Each action runs to completion.
- `Math.random()` is an input real in [0, 1); floating-point rounding is not modelled. faker's guarantees appear as preconditions on the draws: one to three distinct tags, for example.
- Faker and `nanoid` values, `Date.now()` and `new Date()` are parameters. The seed's ISO date strings and `createdAt` dates are integers.
- Only decimal digit strings are parsed as `Number`. Any other route parameter is NaN: a `None` key.
- Lower-casing in the slug and the search filters is ASCII only; Unicode case mapping is left out.
- Job and candidate ids are one abstract natural-number type for both the store and the mock server. The server's string ids, and the `draggableId` string, are identified with it.
- The jobs page after a reorder dispatches an undefined page. `JobsContext.JobsController.FetchJobs` requires a page of at least 1, so the store's answer to a NaN offset is not modelled.
- `AssessmentBuilder.BuilderPage.Dispatch` requires `Applicable`: indices the reducer dereferences must exist. Out-of-range indices would throw, which is not modelled.
- `UPDATE_QUESTION` writes any field name; the model covers the fields the page and editor write.
- AssessmentForm.ShownText: shows only string responses; a truthy non-string initial response (a number, say) is shown as "" rather than converted to text.
- The form's radio options are read as objects (`opt.value`, `opt.label`) while the structure stores strings. The model only records that a radio group is shown.
- The editor's option change is only called with an index in range, and the model requires this.
- `CandidateDetails.DetailsPage.ShowTimeline` sorts the timeline of the record value held by the page. It does not model an array shared with other holders of the same object.
