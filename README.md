# Study flash cards: a verified model of the two backends

The repository holds the backend of a flash-card study app in two versions.
Each version keeps topics, numbered questions with markdown answers, and one
progress entry per question. Progress entries are updated by spaced-repetition
reviews and grouped into quiz sessions.

- **SQLite backend** (`apps/tauri/src-tauri`). Four tables (topics, questions,
  progress, quiz_sessions) carry sync bookkeeping columns: `sync_version`,
  `synced_at`, `deleted` and `deleted_at`. A sync engine collects the rows not
  yet synced, applies the records pulled from the server (parents upserted
  first, children deleted first), and marks pushed records as synced.
- **JSON-files backend** (`src-tauri`). It keeps a topic list, one questions
  file per topic, a progress list and quiz-session files, plus an in-memory
  index of per-topic statistics and tags. It also imports exported databases
  (validated, then merged or replaced) and markdown study notes, parsed line
  by line into topics and questions with a slug per topic.

The model follows the source's own structure:

- The SQLite database, the JSON-files database and the index are classes.
  Their tables are `map` and `seq` fields, which the repository methods update.
  Their contracts state the new contents of every table and of the index's
  entries and tag map. The index totals follow from its consistency
  invariant. Its version and format strings are stated only by the index's
  own methods, which never change them.
- Row decoding, the review rules, question selection, slug generation and the
  markdown line classification are functions. Lemmas state what these
  functions promise.
- Loops of the source (the sync collection and marking loops, import loops,
  the parser's line loop, progress completion) are methods with invariants,
  proved against specification functions.

Clock readings, fresh UUIDs, the server's sync response, the JSON library and
the shuffle are parameters of the operations that use them.

The model follows the code where its own tests disagree with it. In
`src-tauri/src/commands/import.rs` the tests at lines 182 and 184 expect
`generate_slug` to drop an ampersand. The code maps it to `_`, so
"SQL & Databases" becomes "sql-_-databases" (`Slug.AmpersandSlug`).

## Model

| member | source | states |
|---|---|---|
| Wrappers.Option.UnwrapOr | apps/tauri/src-tauri/src/database/repository/lazy_topics_repo.rs:37-41 | a present value is returned, an absent one is replaced by the default (`unwrap_or`, `unwrap_or_default`) |
| Codec.OptStringsRoundTrip | apps/tauri/src-tauri/src/database/repository/lazy_topics_repo.rs:101 | decoding the JSON text written for an optional string list gives the same optional list back, `None` included |
| Models.DefaultStatus | src-tauri/src/database/models/progress.rs:20-24 | the default progress status is NotStudied |
| Models.ParseStatus | apps/tauri/src-tauri/src/database/repository/progress_repo.rs:33-39 | each stored status name decodes to the status it names, and any other string decodes to NotStudied |
| Models.NewProgress | src-tauri/src/database/models/progress.rs:54-69 | a new entry keeps the question and topic, is pristine (NotStudied, zero counters, no review dates) and has `created_at == updated_at` |
| Models.DefaultStatistics | src-tauri/src/database/models/progress.rs:186-199 | every count of the default statistics is zero |
| Models.DefaultProgressContainer | src-tauri/src/database/models/progress.rs:208-215 | the default progress file has version "2.1" and no entries |
| Models.ParseSessionType | apps/tauri/src-tauri/src/database/repository/quiz_session_repo.rs:35-47 | each stored session-type name decodes to the type it names, and any other string decodes to Random |
| Models.NewQuizSession | src-tauri/src/database/models/progress.rs:129-150 | a new session keeps its type, topics and questions, starts at index 0 with no results, and is not completed |
| Models.DefaultSessionsIndex | src-tauri/src/database/models/progress.rs:227-235 | the default sessions index has version "2.1", no ids and a total of 0 |
| Review.Clamp | apps/tauri/src-tauri/src/database/repository/progress_repo.rs:117-119 | the result lies in 0..5, equals the input inside that range, and is the nearer bound outside it |
| Review.NextReviewDays | apps/tauri/src-tauri/src/database/repository/progress_repo.rs:301-309 | the day table: confidence 0-1 gives 1 day; 2-3 gives 3 days with at most 2 reviews and 7 after; 4-5 gives 14 and 30; anything else gives 7 |
| Review.NextReviewMonotone | apps/tauri/src-tauri/src/database/repository/progress_repo.rs:301-309 | within the clamped range, more confidence or more reviews never bring the next review closer, and the interval is one of 1, 3, 7, 14, 30 |
| Review.Reviewed | apps/tauri/src-tauri/src/database/repository/progress_repo.rs:112-135 | status and clamped confidence are replaced only when given; `was_correct` bumps the review count and exactly one of correct/incorrect, and its absence leaves all three; both review stamps are refreshed and the next review is scheduled from the new confidence and count |
| Review.ResetEntry | apps/tauri/src-tauri/src/database/repository/progress_repo.rs:175-183 | a reset entry is pristine and balanced, keeps its question, topic and creation time, and carries the new `updated_at` |
| Review.ReviewKeepsInvariants | apps/tauri/src-tauri/src/database/repository/progress_repo.rs:117-135 | a review keeps `times_reviewed == times_correct + times_incorrect` and the confidence in 0..5, and always sets a next review date |
| Sorting.NoDupCountsOnce | apps/tauri/src-tauri/src/database/repository/quiz_session_repo.rs:266-267 | in a duplicate-free sequence every value occurs at most once |
| Sorting.PermutationNoDup | apps/tauri/src-tauri/src/database/repository/quiz_session_repo.rs:251-253 | reordering a duplicate-free sequence keeps it duplicate-free |
| Sorting.KeyClass | apps/tauri/src-tauri/src/database/repository/quiz_session_repo.rs:251-253 | the elements with a given key are no more than the whole sequence |
| Sorting.InsertBy | apps/tauri/src-tauri/src/database/repository/quiz_session_repo.rs:251-253 | inserting adds exactly one element: same multiset plus the new one |
| Sorting.SortBy | apps/tauri/src-tauri/src/database/repository/quiz_session_repo.rs:251-253 | `sort_by_key` returns a permutation of its input |
| Sorting.InsertBySorted | apps/tauri/src-tauri/src/database/repository/quiz_session_repo.rs:251-253 | inserting into a key-sorted sequence keeps it sorted |
| Sorting.SortBySorted | apps/tauri/src-tauri/src/database/repository/quiz_session_repo.rs:251-253 | the sorted output is ordered by the key |
| Sorting.KeyClassAppend | apps/tauri/src-tauri/src/database/repository/quiz_session_repo.rs:251-253 | the elements with one key in a concatenation are those of each part, in order |
| Sorting.InsertByClass | apps/tauri/src-tauri/src/database/repository/quiz_session_repo.rs:251-253 | insertion places the new element after every element of its key class |
| Sorting.KeyClassNone | apps/tauri/src-tauri/src/database/repository/quiz_session_repo.rs:251-253 | a key no element has selects nothing |
| Sorting.SortByStable | apps/tauri/src-tauri/src/database/repository/quiz_session_repo.rs:251-253 | the sort is stable: elements with equal keys keep their relative order |
| Sorting.AsUsize | apps/tauri/src-tauri/src/database/repository/quiz_session_repo.rs:266-267 | `as usize` keeps a non-negative `i32` and sends a negative one to a value of at least 2^63 |
| Sorting.AsI32 | apps/tauri/src-tauri/src/database/repository/quiz_session_repo.rs:266 | `as i32` lands in the `i32` range and keeps every value below 2^31 |
| Sorting.TakeCount | apps/tauri/src-tauri/src/database/repository/quiz_session_repo.rs:266-267 | the cap keeps at most all elements: all of them when `max_questions` is unset (or negative, since it wraps), otherwise the smaller of the cap and the length |
| SqliteDb.DefaultSync | apps/tauri/src-tauri/src/database/repository/lazy_topics_repo.rs:104-106 | a row inserted without sync columns is at version 1, unsynced and not deleted |
| SqliteDb.SoftDeleted | apps/tauri/src-tauri/src/database/repository/lazy_topics_repo.rs:272-277 | a soft delete bumps the version, clears `synced_at`, sets the deleted flag and stamps `deleted_at` |
| SqliteDb.Database.State | apps/tauri/src-tauri/src/database/sqlite_db.rs:46-121 | the snapshot holds exactly the four tables |
| SqliteDb.Database.constructor | apps/tauri/src-tauri/src/database/sqlite_db.rs:14-44 | a new database has four empty tables and no checkpoint |
| AppsTopics.DecodeSubtopics | apps/tauri/src-tauri/src/database/repository/lazy_topics_repo.rs:27-32 | a NULL column and text that decodes to nothing both read as an empty list |
| AppsTopics.GetById | apps/tauri/src-tauri/src/database/repository/lazy_topics_repo.rs:58-92 | a topic comes back iff a row with that id exists, soft-deleted or not, and it carries that id |
| AppsTopics.LiveTopics | apps/tauri/src-tauri/src/database/repository/lazy_topics_repo.rs:25-55 | the row loop yields every row not soft-deleted exactly once, decoded, and no other row |
| AppsTopics.GetAll | apps/tauri/src-tauri/src/database/repository/lazy_topics_repo.rs:16-56 | exactly the topics not soft-deleted, each once, ordered by `order_index` |
| AppsTopics.CreatedTopicReadsBack | apps/tauri/src-tauri/src/database/repository/lazy_topics_repo.rs:98-132 | reading back the inserted row gives the topic `create` returns, and that row is selected for the next push |
| AppsTopics.Create | apps/tauri/src-tauri/src/database/repository/lazy_topics_repo.rs:94-133 | a fresh id gets a row with the dto fields at version 1, unsynced, and the dto fields are returned; an existing id fails without a change; the other tables are untouched |
| AppsTopics.EmptyUpdateTouchesOnlyBookkeeping | apps/tauri/src-tauri/src/database/repository/lazy_topics_repo.rs:176 | an update naming no field changes only `updated_at`, `synced_at` and the version, which goes up by one |
| AppsTopics.UpdatesCompose | apps/tauri/src-tauri/src/database/repository/lazy_topics_repo.rs:176-215 | two updates leave the fields of one update with the later dto laid over the earlier, two versions higher |
| AppsTopics.UpdateQueuesForSync | apps/tauri/src-tauri/src/database/repository/lazy_topics_repo.rs:176 | an updated live topic is in the next push as an active record, with a higher version |
| AppsTopics.PatchRow | apps/tauri/src-tauri/src/database/repository/lazy_topics_repo.rs:176-215 | the SET clauses built one field at a time give the updated row: exactly the given fields replaced, bookkeeping refreshed |
| AppsTopics.Update | apps/tauri/src-tauri/src/database/repository/lazy_topics_repo.rs:135-249 | an unknown id returns None and changes nothing; otherwise only that row is replaced by the patched row, which is what is returned; the other tables are untouched |
| AppsTopics.Cascade | apps/tauri/src-tauri/src/database/repository/lazy_topics_repo.rs:259-269 | for either child table (questions or progress): the same keys remain; a row of another topic or one already deleted is unchanged; a live row of the topic gets only its sync columns replaced by the soft-deleted ones; when the row accessors form a lens, no live row of the topic remains |
| AppsTopics.CascadeTwice | apps/tauri/src-tauri/src/database/repository/lazy_topics_repo.rs:259-269 | repeating the cascade, at any later time, changes nothing: the `WHERE ... deleted = 0` guard makes it idempotent |
| AppsTopics.Delete | apps/tauri/src-tauri/src/database/repository/lazy_topics_repo.rs:251-280 | true iff the topic row existed; that topic is soft-deleted, the questions and progress tables are the cascade of the old ones, no row is removed and the sessions and checkpoint are unchanged; afterwards no question and no progress row of the topic is live |
| AppsTopics.SoftDeleteQueuesTombstone | apps/tauri/src-tauri/src/database/repository/lazy_topics_repo.rs:272-277 | a soft-deleted row is in the next push as a delete record with empty data and the bumped version |
| AppsQuestions.DecodeQuestion | apps/tauri/src-tauri/src/database/repository/lazy_questions_repo.rs:48-75 | a row decodes iff its difficulty is not NULL; bad answer JSON reads as empty markdown, NULL or bad tags as no tags; id, topic and number carry over |
| AppsQuestions.GetById | apps/tauri/src-tauri/src/database/repository/lazy_questions_repo.rs:25-29 | None for an unknown id, the decoded question for a decodable row, an error otherwise |
| AppsQuestions.NumberTaken | apps/tauri/src-tauri/src/database/repository/lazy_questions_repo.rs:105-111 | true iff another question of the topic has that number |
| AppsQuestions.MaxNumber | apps/tauri/src-tauri/src/database/repository/lazy_questions_repo.rs:114-121 | the largest number in the topic, or 0 for a topic with no questions |
| AppsQuestions.ChooseNumber | apps/tauri/src-tauri/src/database/repository/lazy_questions_repo.rs:113-124 | the requested number when it is free, otherwise max+1; either way no other question of the topic has it |
| AppsQuestions.ChosenNumberUnique | apps/tauri/src-tauri/src/database/repository/lazy_questions_repo.rs:113-124 | the number rule names a single number |
| AppsQuestions.ChosenNumberIsFree | apps/tauri/src-tauri/src/database/repository/lazy_questions_repo.rs:113-124 | whatever number the rule picks, no other question of the topic has it |
| AppsQuestions.CreatedQuestionReadsBack | apps/tauri/src-tauri/src/database/repository/lazy_questions_repo.rs:128-162 | reading back the inserted row gives the question `create` returns |
| AppsQuestions.Create | apps/tauri/src-tauri/src/database/repository/lazy_questions_repo.rs:85-163 | an unknown topic fails with "Topic with id … not found"; an id clash fails; otherwise one row is inserted with the number the rule picks, that number is free in the topic, and the other tables are untouched |
| AppsQuestions.UpdateReadsBack | apps/tauri/src-tauri/src/database/repository/lazy_questions_repo.rs:245-296 | reading back the updated row gives the old question with exactly the given fields replaced |
| AppsQuestions.Update | apps/tauri/src-tauri/src/database/repository/lazy_questions_repo.rs:165-312 | None for an unknown id; a move to a missing topic fails with "Topic … not found" and changes nothing; otherwise the number is recomputed only when requested and the topic or number differs, excluding the question itself, and only that row changes |
| AppsQuestions.UpdatedNumberIsFree | apps/tauri/src-tauri/src/database/repository/lazy_questions_repo.rs:219-243 | a renumbered question never lands on a number another question of its target topic has |
| AppsQuestions.Delete | apps/tauri/src-tauri/src/database/repository/lazy_questions_repo.rs:314-322 | true iff a row was removed; exactly that row is gone and nothing else changes |
| AppsProgress.DecodeProgress | apps/tauri/src-tauri/src/database/repository/progress_repo.rs:29-53 | the entry carries its question id and the row's topic, and an unknown status reads as NotStudied |
| AppsProgress.ProgressRoundTrip | apps/tauri/src-tauri/src/database/repository/progress_repo.rs:141-162 | reading back a written entry gives the entry, and the written row is pending for sync |
| AppsProgress.StartingEntry | apps/tauri/src-tauri/src/database/repository/progress_repo.rs:92-110 | the stored entry when there is one; otherwise a fresh entry with the question's topic; "Question … not found" when the question does not exist either |
| AppsProgress.Update | apps/tauri/src-tauri/src/database/repository/progress_repo.rs:86-165 | a missing question fails and leaves the table alone; otherwise the review is applied to the starting entry, only that row is written and the updated entry is returned |
| AppsProgress.UpdateKeepsEntrySound | apps/tauri/src-tauri/src/database/repository/progress_repo.rs:86-165 | a review keeps the entry balanced with its confidence in 0..5, and the written row reads back as the returned entry |
| AppsProgress.Reset | apps/tauri/src-tauri/src/database/repository/progress_repo.rs:167-196 | no row fails with "Progress not found for …"; otherwise only that row changes, to `ResetRow` of the old row; it reads back as the reset entry, and its sync columns are untouched |
| AppsProgress.StatusesPartition | apps/tauri/src-tauri/src/database/repository/progress_repo.rs:212-230 | the four status counts add up to the number of entries |
| AppsProgress.Statistics | apps/tauri/src-tauri/src/database/repository/progress_repo.rs:198-230 | `total_questions` is the number of entries and the four status counts sum to it |
| AppsProgress.ResetCountsAsNotStudied | apps/tauri/src-tauri/src/database/repository/progress_repo.rs:167-234 | once `reset` has written the row back, `get_statistics` reports the same total; the not-studied count grows by one unless the entry already was not studied, and the count of its old status drops by one |
| AppsProgress.FreshRowIsPristine | apps/tauri/src-tauri/src/database/repository/progress_repo.rs:336-337 | an inserted row reads back as a new, never-reviewed entry of the question's topic |
| AppsProgress.InsertMissing | apps/tauri/src-tauri/src/database/repository/progress_repo.rs:334-340 | every question gets a row; existing rows are kept as they are and every added row is a fresh row of a question |
| AppsProgress.EnsureProgress | apps/tauri/src-tauri/src/database/repository/progress_repo.rs:314-343 | inserts a fresh row for exactly the questions without progress, leaves existing rows untouched and returns how many it inserted |
| AppsProgress.EnsureProgressCovers | apps/tauri/src-tauri/src/database/repository/progress_repo.rs:314-343 | afterwards every question has progress, and the table grew by the number of questions that had none |
| AppsQuiz.DecodeList | apps/tauri/src-tauri/src/database/repository/quiz_session_repo.rs:35-40 | a NULL column or text that decodes to nothing reads as the empty list; decodable text reads as its list |
| AppsQuiz.DecodeResults | apps/tauri/src-tauri/src/database/repository/quiz_session_repo.rs:41-43 | the same default for the results column |
| AppsQuiz.DecodeSession | apps/tauri/src-tauri/src/database/repository/quiz_session_repo.rs:30-58 | the session keeps its id, index and completion time, and an unknown stored type reads as Random |
| AppsQuiz.CandidateOf | apps/tauri/src-tauri/src/database/repository/quiz_session_repo.rs:226-231 | a candidate keeps the question's id and order, and a question without progress counts as "NotStudied" |
| AppsQuiz.QueryCandidates | apps/tauri/src-tauri/src/database/repository/quiz_session_repo.rs:188-238 | every question matching the topic and difficulty filters comes out once with its progress status, and nothing else does |
| AppsQuiz.MasteredOnly | apps/tauri/src-tauri/src/database/repository/quiz_session_repo.rs:256 | exactly the candidates whose status is "Mastered" are kept |
| AppsQuiz.IdsOf | apps/tauri/src-tauri/src/database/repository/quiz_session_repo.rs:267 | the ids of the candidates, position by position |
| AppsQuiz.SelectQuestions | apps/tauri/src-tauri/src/database/repository/quiz_session_repo.rs:180-268 | QuickRefresher with no mastered candidate fails with "No mastered questions"; otherwise the candidates are arranged by the strategy (stable sort by order for Sequential, a reordering of the mastered ones for QuickRefresher, any reordering otherwise) and capped by `max_questions`; every id returned names a matching question, none twice, and never more than a non-negative `max_questions` |
| AppsQuiz.SelectedPrefixSound | apps/tauri/src-tauri/src/database/repository/quiz_session_repo.rs:266-267 | the capped prefix of an arrangement names matching questions only, each once, and has at most `max_questions` of them |
| AppsQuiz.ArrangedPermutesPool | apps/tauri/src-tauri/src/database/repository/quiz_session_repo.rs:243-264 | every strategy returns a reordering of the candidates it draws from |
| AppsQuiz.ArrangedFromCandidates | apps/tauri/src-tauri/src/database/repository/quiz_session_repo.rs:243-264 | the arranged candidates are candidates, none twice, and Mastered ones for QuickRefresher |
| AppsQuiz.SelectionIsSound | apps/tauri/src-tauri/src/database/repository/quiz_session_repo.rs:180-268 | every selected question matches the filters and is picked once; QuickRefresher picks only Mastered questions; Sequential lists them by ascending order |
| AppsQuiz.SessionRoundTrip | apps/tauri/src-tauri/src/database/repository/quiz_session_repo.rs:87-95 | a stored session reads back as itself |
| AppsQuiz.Create | apps/tauri/src-tauri/src/database/repository/quiz_session_repo.rs:69-98 | the picked ids are those of `SelectQuestions` on the state before the call: the QuickRefresher "No mastered questions" error, or the arranged matching candidates capped by `max_questions`, each a matching question and none twice; a failed selection fails, an empty one fails with "No questions available", a taken id fails with the database error, each storing nothing; otherwise a new open session over the picked questions is stored under the fresh id and returned |
| AppsQuiz.SubmitResult | apps/tauri/src-tauri/src/database/repository/quiz_session_repo.rs:111-141 | an unknown session fails with "Session not found"; an answered question fails with "Question already answered"; otherwise the result is appended and `current_index` becomes the number of results |
| AppsQuiz.SubmitKeepsAnswersDistinct | apps/tauri/src-tauri/src/database/repository/quiz_session_repo.rs:118-127 | an accepted answer keeps the answered questions distinct, and the stored row reads back as the returned session |
| AppsQuiz.Complete | apps/tauri/src-tauri/src/database/repository/quiz_session_repo.rs:143-161 | an unknown session fails; a completed one fails with "Already completed"; otherwise only `completed_at` is set |
| AppsQuiz.CompleteOnlyOnce | apps/tauri/src-tauri/src/database/repository/quiz_session_repo.rs:145-150 | after a successful completion the stored session reads as completed, so a second call fails |
| AppsImport.InsertFoldKeeps | apps/tauri/src-tauri/src/commands/data_management.rs:150-229 | an insert loop never changes or removes a row that was already stored |
| AppsImport.InsertFoldAddsItems | apps/tauri/src-tauri/src/commands/data_management.rs:150-229 | every row a loop adds is the row of an imported item with that key |
| AppsImport.InsertFoldCounts | apps/tauri/src-tauri/src/commands/data_management.rs:151-171 | each counted insert adds exactly one row, so the count is the growth of the table |
| AppsImport.InsertFoldComplete | apps/tauri/src-tauri/src/commands/data_management.rs:152-171 | when a loop finished without a failed INSERT, every item's key is stored, whether inserted or skipped as present |
| AppsImport.FreshKeysAllWritten | apps/tauri/src-tauri/src/commands/data_management.rs:125-171 | into a table without those keys, items with distinct keys are all written and all counted |
| AppsImport.InsertAll | apps/tauri/src-tauri/src/commands/data_management.rs:151-171 | the loop over one kind skips present keys in merge mode, inserts the others, and stops at the first INSERT that fails |
| AppsImport.InsertFoldStops | apps/tauri/src-tauri/src/commands/data_management.rs:169 | after a failed INSERT the remaining items change nothing |
| AppsImport.ReplaceFoldOthers | apps/tauri/src-tauri/src/commands/data_management.rs:194-207 | a question with no imported entry keeps its stored progress row, or stays without one |
| AppsImport.ReplaceFoldLastWins | apps/tauri/src-tauri/src/commands/data_management.rs:202-205 | an imported question's stored entry is the last one imported for it |
| AppsImport.ReplaceAll | apps/tauri/src-tauri/src/commands/data_management.rs:193-207 | every progress entry is written with INSERT OR REPLACE and counted |
| AppsImport.ImportDatabase | apps/tauri/src-tauri/src/commands/data_management.rs:108-239 | invalid JSON fails with "Invalid JSON format: …" before any table changes; otherwise a non-merge import first empties the four tables, then topics, questions, progress and sessions are written in that order, stopping at the first failed INSERT with the rows written so far kept |
| AppsImport.ImportCounts | apps/tauri/src-tauri/src/commands/data_management.rs:151-237 | a successful import counts each kind by the rows it added (progress: every entry), and a merge never overwrites a stored topic, question or session |
| AppsImport.ReplaceRestoresTopics | apps/tauri/src-tauri/src/commands/data_management.rs:125-171 | a replace of an export with distinct topic ids leaves exactly the exported topics, each stored as exported |
| Index.QuestionTotalRemove | apps/tauri/src-tauri/src/database/models/index.rs:97-101 | the question total is the same whichever entry is summed first |
| Index.SingleEntryTotal | apps/tauri/src-tauri/src/database/models/index.rs:193-212 | an index holding one entry totals that entry's question count (the `update_stats` test) |
| Index.Restrict | apps/tauri/src-tauri/src/database/models/index.rs:97-101 | the restricted index has exactly the chosen keys |
| Index.AddTagsProperties | apps/tauri/src-tauri/src/database/models/index.rs:124-128 | collecting tags keeps the list duplicate-free, holds exactly the old and the new tags, and only appends |
| Index.DistinctTagsAreDistinct | apps/tauri/src-tauri/src/database/models/index.rs:114-135 | an entry's tags hold every tag of its questions exactly once |
| Index.CountLevel | apps/tauri/src-tauri/src/database/models/index.rs:117-122 | a level is counted at most once per question |
| Index.DistributionBounded | apps/tauri/src-tauri/src/database/models/index.rs:116-122 | unknown levels are not counted, so the three counts add up to at most the question count, and to exactly it when every level is known |
| Index.Without | apps/tauri/src-tauri/src/database/models/index.rs:167 | the `retain` on a tag's topic list keeps exactly the other ids |
| Index.WithoutNoDup | apps/tauri/src-tauri/src/database/models/index.rs:167 | removing an id from a duplicate-free list keeps it duplicate-free |
| Index.DatabaseIndex.constructor | apps/tauri/src-tauri/src/database/models/index.rs:14-24 | the default index has version "2.0", format "lazy-indexed", zero totals and no entries or tags (test 183-190) |
| Index.DatabaseIndex.UpdateStats | apps/tauri/src-tauri/src/database/models/index.rs:95-102 | `total_topics` becomes the number of entries and `total_questions` the sum of their question counts; nothing else changes |
| Index.DatabaseIndex.UpdateTopicEntry | apps/tauri/src-tauri/src/database/models/index.rs:105-159 | the entry is replaced by one with the question count, distinct tags and difficulty distribution; each of its tags gets the new count and lists the topic exactly once; other tags are unchanged; the totals are consistent afterwards; the tag map is exactly `Retagged`: each distinct tag touched in first-occurrence order |
| Index.DatabaseIndex.RemoveTopic | apps/tauri/src-tauri/src/database/models/index.rs:162-176 | the entry is removed; the topic is withdrawn from each of its tags and tags left with no topic are deleted; other tags are unchanged; an absent topic leaves the tags alone; the totals are consistent afterwards; the tag map is exactly `WithdrawnFrom` the entry's tags |
| Index.SumQuestionCounts | apps/tauri/src-tauri/src/database/models/index.rs:97-101 | the loop sum is the total of the question counts |
| Index.Tally | apps/tauri/src-tauri/src/database/models/index.rs:117-122 | one question raises exactly its own level's count, and an unknown level raises none |
| Index.Summarize | apps/tauri/src-tauri/src/database/models/index.rs:113-129 | the question loop yields the difficulty distribution and the distinct tags in first-occurrence order |
| Index.AddTagsAppend | apps/tauri/src-tauri/src/database/models/index.rs:124-128 | collecting the tags of two lists one after the other is collecting those of their concatenation |
| Index.MergeTags | apps/tauri/src-tauri/src/database/models/index.rs:124-128 | the inner loop pushes exactly the tags not yet collected, in order |
| Index.RegisteredAt | apps/tauri/src-tauri/src/database/models/index.rs:143-156 | with distinct tags, each listed tag is touched once from its old entry and every other tag is left alone |
| Index.RegisterTags | apps/tauri/src-tauri/src/database/models/index.rs:143-156 | every tag of the entry gets the new count and lists the topic; no tag lists a topic twice; other tags keep their entry; the result is the fold `Registered` over the tags in order |
| Index.RetaggedEmpty | apps/tauri/src-tauri/src/database/models/index.rs:143-156 | indexing a topic with no questions leaves the tag map as it was |
| Index.RetaggedTwice | apps/tauri/src-tauri/src/database/models/index.rs:143-156 | re-indexing a topic whose tags only grew equals indexing it once with the later questions: the later count, the topic listed once |
| Index.AllTagsAppend | apps/tauri/src-tauri/src/database/models/index.rs:115-128 | the tags of two question lists put together are the tags of the first followed by those of the second |
| Index.NoDupSnoc | apps/tauri/src-tauri/src/database/models/index.rs:148-150 | appending an id a list lacks keeps it duplicate-free |
| Index.WithdrawnFromAt | apps/tauri/src-tauri/src/database/models/index.rs:165-172 | withdrawing the topic from a tag listed twice is the same as withdrawing once |
| Index.WithdrawTopic | apps/tauri/src-tauri/src/database/models/index.rs:165-172 | each of the entry's tags loses the topic and is deleted when no topic is left; every other tag is unchanged; no tag lists a topic twice; the result is the fold `WithdrawnFrom` over the tags in order |
| Index.WithoutTwice | apps/tauri/src-tauri/src/database/models/index.rs:167 | removing an id twice is removing it once |
| Sync.With | apps/tauri/src-tauri/src/sync.rs:202-204 | adding a nullable column keeps the object free of nulls, reads back the value when present and the old field otherwise, and leaves every other key alone |
| Sync.TopicData | apps/tauri/src-tauri/src/sync.rs:191-204 | the data object of an active topic holds no null value |
| Sync.QuestionData | apps/tauri/src-tauri/src/sync.rs:259-273 | the data object of an active question holds no null value |
| Sync.ProgressData | apps/tauri/src-tauri/src/sync.rs:328-343 | the data object of an active progress row holds no null value |
| Sync.SessionData | apps/tauri/src-tauri/src/sync.rs:395-406 | the data object of an active quiz session holds no null value |
| Sync.TopicTextFields | apps/tauri/src-tauri/src/sync.rs:191-198 | a topic's name, slug and order index travel under `name`, `slug` and `orderIndex` |
| Sync.TopicTimeFields | apps/tauri/src-tauri/src/sync.rs:199-200 | a topic's timestamps travel under `createdAt` and `updatedAt` |
| Sync.TopicOptionalFields | apps/tauri/src-tauri/src/sync.rs:193-197 | description, icon, color and subtopics read back exactly, absent when the column is NULL |
| Sync.TopicSurvivesTheWire | apps/tauri/src-tauri/src/sync.rs:455-491 | decoding the data a topic was collected as gives back the same topic, with only its sync columns replaced |
| Sync.QuestionTextFields | apps/tauri/src-tauri/src/sync.rs:259-264 | topic id, question number, question and answer travel under `topicSyncUuid`, `questionNumber`, `question` and `answer` |
| Sync.QuestionOrderFields | apps/tauri/src-tauri/src/sync.rs:267-269 | order index and timestamps travel under `orderIndex`, `createdAt` and `updatedAt` |
| Sync.QuestionSurvivesTheWire | apps/tauri/src-tauri/src/sync.rs:501-539 | decoding the data a question was collected as gives back the same question, with only its sync columns replaced |
| Sync.ProgressKeyFields | apps/tauri/src-tauri/src/sync.rs:328-331 | the progress key travels as `questionSyncUuid`, with the topic id and status beside it |
| Sync.ProgressCountFields | apps/tauri/src-tauri/src/sync.rs:332-335 | confidence and the three review counters travel as integers |
| Sync.ProgressTimeFields | apps/tauri/src-tauri/src/sync.rs:338-339 | a progress row's timestamps travel under `createdAt` and `updatedAt` |
| Sync.ProgressSurvivesTheWire | apps/tauri/src-tauri/src/sync.rs:541-590 | decoding the data a progress row was collected as gives back the same row, and its key is carried in the data |
| Sync.SessionFields | apps/tauri/src-tauri/src/sync.rs:395-400 | session type, current index and start time travel under `sessionType`, `currentIndex` and `startedAt` |
| Sync.SessionSurvivesTheWire | apps/tauri/src-tauri/src/sync.rs:592-632 | decoding the data a session was collected as gives back the same session, with only its sync columns replaced |
| Sync.MissingFieldsDefault | apps/tauri/src-tauri/src/sync.rs:459-467 | an empty data object writes the defaults: empty strings, zero counts, status `NotStudied`, session type `Random`, and a progress key equal to the record's row id |
| Sync.RecordOf | apps/tauri/src-tauri/src/sync.rs:148-166 | a collected record names the table and key, carries the row's version, is a delete exactly when the row is soft-deleted, and a delete carries an empty object while an active row carries its data |
| Sync.AnyRow.WithMeta | apps/tauri/src-tauri/src/sync.rs:455-491 | replacing a row's sync columns gives a row with exactly those columns |
| Sync.AnyRow.Data | apps/tauri/src-tauri/src/sync.rs:191-204 | the data built for any row holds no null value |
| Sync.RowAt | apps/tauri/src-tauri/src/sync.rs:634-636 | only the four known tables hold rows, and each lookup reads that table's map by its primary key |
| Sync.CollectRows | apps/tauri/src-tauri/src/sync.rs:148-166 | one query and its row loop list, in some order and each once, the records of exactly the unsynced rows with the queried deleted flag |
| Sync.JoinSegments | apps/tauri/src-tauri/src/sync.rs:148-211 | the deleted-rows query followed by the active-rows query lists every collectable row of the table once and nothing else |
| Sync.TopicsPart | apps/tauri/src-tauri/src/sync.rs:148-211 | the topic queries form a collection of the topics table |
| Sync.QuestionsPart | apps/tauri/src-tauri/src/sync.rs:215-280 | the question queries form a collection of the questions table |
| Sync.ProgressPart | apps/tauri/src-tauri/src/sync.rs:284-350 | the progress queries form a collection of the progress table, keyed by question id |
| Sync.SessionsPart | apps/tauri/src-tauri/src/sync.rs:354-413 | the session queries form a collection of the quiz sessions table |
| Sync.JoinParts | apps/tauri/src-tauri/src/sync.rs:143-415 | collections of disjoint groups of tables concatenate into a collection of their union |
| Sync.JoinNoRowTwice | apps/tauri/src-tauri/src/sync.rs:143-415 | concatenating collections of disjoint table groups never lists a row twice |
| Sync.JoinComplete | apps/tauri/src-tauri/src/sync.rs:143-415 | concatenating collections of table groups lists every collectable row of their union |
| Sync.WholeCollection | apps/tauri/src-tauri/src/sync.rs:143-415 | the four table collections in order make a collection of the whole database |
| Sync.CollectLocalChanges | apps/tauri/src-tauri/src/sync.rs:143-415 | the records returned list every unsynced row flagged deleted 0 or 1 exactly once, as a delete for a soft-deleted row and with its data otherwise, and nothing else |
| Sync.CollectionEmpty | apps/tauri/src-tauri/src/sync.rs:143-415 | the collection is empty exactly when no row of any table is collectable |
| Sync.Select | apps/tauri/src-tauri/src/sync.rs:422-423 | the records kept are exactly those with the requested deleted flag |
| Sync.SelectPartitions | apps/tauri/src-tauri/src/sync.rs:422-423 | the upsert and delete selections together hold every record exactly once |
| Sync.UpsertOrder | apps/tauri/src-tauri/src/sync.rs:426-431 | the upserts are the non-deleted records sorted parents first (topics, questions, then progress and sessions), a permutation that keeps the order within each rank |
| Sync.DeleteOrder | apps/tauri/src-tauri/src/sync.rs:434-439 | the deletes are the deleted records sorted children first (progress and sessions, questions, then topics), a permutation that keeps the order within each rank |
| Sync.UpsertOne | apps/tauri/src-tauri/src/sync.rs:445-636 | an upsert of an unknown table changes nothing; otherwise it writes the decoded row under its key, stamped synced now with the record's version, and no other row changes |
| Sync.DeleteOne | apps/tauri/src-tauri/src/sync.rs:641-663 | a delete removes the row with the record's key from its table and no other row changes |
| Sync.UpsertRecord | apps/tauri/src-tauri/src/sync.rs:445-636 | the new tables are those of one upsert, and the checkpoint is unchanged |
| Sync.DeleteRecord | apps/tauri/src-tauri/src/sync.rs:641-663 | the new tables are those of one delete, and the checkpoint is unchanged |
| Sync.ApplyRemoteChanges | apps/tauri/src-tauri/src/sync.rs:421-665 | the new tables are all upserts in rank order followed by all deletes in rank order, and the checkpoint is unchanged |
| Sync.UpsertPhase | apps/tauri/src-tauri/src/sync.rs:445-639 | the loop leaves the tables equal to the upserts applied in sequence |
| Sync.DeletePhase | apps/tauri/src-tauri/src/sync.rs:641-665 | the loop leaves the tables equal to the deletes applied in sequence |
| Sync.UpsertAllWritten | apps/tauri/src-tauri/src/sync.rs:445-639 | every row the upserts leave different from before is stamped synced now and not deleted |
| Sync.DeleteAllWritten | apps/tauri/src-tauri/src/sync.rs:641-665 | deletes only remove rows, so they rewrite nothing unstamped |
| Sync.ApplyNeverCreatesPending | apps/tauri/src-tauri/src/sync.rs:421-665 | after applying pulled records every row still unsynced is the same row as before |
| Sync.DeleteAllRemoves | apps/tauri/src-tauri/src/sync.rs:641-663 | a row named by any delete record is absent after the delete loop |
| Sync.DeleteWins | apps/tauri/src-tauri/src/sync.rs:445 | a row named by a delete record in a batch is absent afterwards, even when the batch also upserts it, since deletes run after all upserts |
| Sync.PushedRowArrives | apps/tauri/src-tauri/src/sync.rs:191-211 | a row collected on one device and upserted on another arrives with the same columns and version, stamped synced now |
| Sync.Stamped | apps/tauri/src-tauri/src/sync.rs:705-710 | a stamped row carries the given synced time |
| Sync.MarkOne | apps/tauri/src-tauri/src/sync.rs:673-710 | marking a delete record hard-deletes its row; marking an active record stamps its row, if present, as synced; no other row changes |
| Sync.MarkAllDeleted | apps/tauri/src-tauri/src/sync.rs:673-694 | a row named by any pushed delete record is gone after marking |
| Sync.MarkAllKept | apps/tauri/src-tauri/src/sync.rs:696-710 | a row named only by active records ends stamped with the sync time, and a row not named at all is unchanged |
| Sync.MarkAllEffect | apps/tauri/src-tauri/src/sync.rs:669-712 | the effect of marking on every row: gone if a delete names it, stamped if only active records name it, untouched otherwise |
| Sync.MarkRecord | apps/tauri/src-tauri/src/sync.rs:673-710 | the new tables are those of marking one record, and the checkpoint is unchanged |
| Sync.MarkRecordsSynced | apps/tauri/src-tauri/src/sync.rs:669-712 | the new tables are those of marking every record in turn, and the checkpoint is unchanged |
| Sync.PushSettlesCollection | apps/tauri/src-tauri/src/sync.rs:107-115 | after the collected records are marked, any row still unsynced is one the collection could not list, and is untouched |
| Sync.CountZeroAllSynced | apps/tauri/src-tauri/src/sync.rs:750-757 | a zero pending count means every row of every table has a synced time |
| Sync.CountPositiveSomePending | apps/tauri/src-tauri/src/sync.rs:750-757 | a nonzero pending count means some row of some table is unsynced |
| Sync.CountPendingZero | apps/tauri/src-tauri/src/sync.rs:750-757 | the pending count is zero exactly when every row of every table is synced |
| Sync.SyncNow | apps/tauri/src-tauri/src/sync.rs:99-139 | a failed delta call returns the error prefixed `Sync failed: ` and changes nothing; otherwise the pushed records are marked at the start time, the pulled records are applied, the checkpoint is the pulled one when there is one, and the counts come from the server answer |
| Sync.SyncClearsPending | apps/tauri/src-tauri/src/sync.rs:99-139 | a sync round whose answer has a push part leaves nothing pending when the tables' deleted flags are 0 or 1, whatever it pulls |
| OldDb.Find | src-tauri/src/database/repository/lazy_topics_repo.rs:27 | the position found holds the first element satisfying the test, and there is none exactly when no element does |
| OldDb.Filter | src-tauri/src/database/repository/lazy_topics_repo.rs:146 | the kept elements all satisfy the test and come from the input, every satisfying element is kept, nothing is dropped when all satisfy it, and something is dropped when one does not |
| OldDb.TopicPosition | src-tauri/src/database/repository/lazy_topics_repo.rs:85 | the position is that of the first topic with the id, and none exactly when no topic has it |
| OldDb.QuestionPosition | src-tauri/src/database/repository/lazy_questions_repo.rs:40 | the position is that of the first question with the id, and none exactly when no question has it |
| OldDb.NameOf | src-tauri/src/database/lazy_db.rs:283-290 | the index records the first matching topic's name, or `Unknown` when no topic has the id |
| OldDb.NameOfAppend | src-tauri/src/database/lazy_db.rs:283-290 | appending topics after the first one with an id does not change the name the index records for it |
| OldDb.QuestionsOf | src-tauri/src/database/lazy_db.rs:146-152 | a topic without a questions file reads as having no questions, otherwise the file's questions |
| OldDb.Home | src-tauri/src/database/repository/lazy_questions_repo.rs:33-45 | the topic found is the first in list order whose file holds the question, and there is none exactly when no file holds it |
| OldDb.Reindexed | src-tauri/src/database/lazy_db.rs:292-294 | after saving a set of topics the index holds entries for the old keys plus every saved topic that has a file |
| OldDb.ReindexedOne | src-tauri/src/database/lazy_db.rs:292-294 | saving one topic's file is one entry update in the index |
| OldDb.ReindexedPair | src-tauri/src/database/lazy_db.rs:292-294 | saving two different topics is two independent entry updates |
| OldDb.ReindexedAdd | src-tauri/src/database/lazy_db.rs:292-294 | saving one more, not yet saved topic extends the reindexing of the earlier ones by that topic's new entry |
| OldDb.LazyDatabase.constructor | src-tauri/src/database/lazy_db.rs:81-88 | a new database has no topics, no files, no progress, no sessions, the default index, and satisfies the index invariants |
| OldDb.LazyDatabase.SaveTopicQuestions | src-tauri/src/database/lazy_db.rs:255-300 | the topic's file is replaced; the index entry for it is refreshed with its name, count, path, tags and difficulty distribution; the tag map is the old one with the topic re-registered under the new questions' tags (`Index.Retagged`); the topics, progress and sessions are unchanged and the totals stay consistent |
| OldDb.SavedTagsFrame | src-tauri/src/database/lazy_db.rs:286-287 | the tag map after a sequence of saves depends only on the files of the saved topics |
| OldDb.SavedTagsSnoc | src-tauri/src/database/lazy_db.rs:286-287 | saving one more topic, not saved before, extends the save-order fold by that topic |
| OldDataManagement.Validate | src-tauri/src/commands/data_management.rs:200-225 | the document passes exactly when every topic id and question id is a UUID and every question names a topic of the document; otherwise the error names the first bad topic id (every topic before it is a UUID), else the first bad question id (every question before it is a UUID), else the first question with a dangling topic reference (every question before it names a topic) |
| OldDataManagement.ValidDocumentPasses | src-tauri/src/commands/data_management.rs:232-268 | a document with one topic and one question of it, both with UUIDs, passes validation |
| OldDataManagement.DanglingReferenceFails | src-tauri/src/commands/data_management.rs:270-292 | a question naming a topic the document lacks fails with the `references non-existent topic` message |
| OldDataManagement.HasKey | src-tauri/src/commands/data_management.rs:92 | the `any` test holds exactly when some element has the key |
| OldDataManagement.AbsorbedKeepsPrefix | src-tauri/src/commands/data_management.rs:90-116 | the merge keeps the existing topics or questions, in order, in front |
| OldDataManagement.AbsorbedCovers | src-tauri/src/commands/data_management.rs:90-116 | after the merge every incoming id is present |
| OldDataManagement.AbsorbedAddsFresh | src-tauri/src/commands/data_management.rs:90-116 | only incoming elements are appended, each with an id not present before it |
| OldDataManagement.Absorb | src-tauri/src/commands/data_management.rs:91-95 | the push loop returns the existing list with each incoming element appended, in order, unless its id is already there |
| OldDataManagement.OfTopicSnoc | src-tauri/src/commands/data_management.rs:100-105 | appending a question adds it to its own topic's questions and to no other |
| OldDataManagement.NoneOfTopic | src-tauri/src/commands/data_management.rs:100-105 | a topic none of whose questions occur has no questions in the grouping |
| OldDataManagement.GroupedKeys | src-tauri/src/commands/data_management.rs:99-105 | the groups are keyed by exactly the topic ids that occur among the questions |
| OldDataManagement.GroupedLists | src-tauri/src/commands/data_management.rs:99-105 | each group holds its topic's questions in input order |
| OldDataManagement.GroupedProperties | src-tauri/src/commands/data_management.rs:99-105 | the grouping has exactly the occurring topic ids as keys and each group lists that topic's questions in order |
| OldDataManagement.GroupByTopic | src-tauri/src/commands/data_management.rs:129-135 | the grouping loop produces exactly that grouping |
| OldDataManagement.StoredAt | src-tauri/src/commands/data_management.rs:138-140 | after a sequence of saves a key holds its saved value if some save wrote it and its old value otherwise |
| OldDataManagement.StoredAll | src-tauri/src/commands/data_management.rs:108-116 | once every group was saved, in whatever order, the files are the old files overridden by the saved values |
| OldDataManagement.MergeGroup | src-tauri/src/commands/data_management.rs:109-115 | one merge turn saves the topic's existing questions with the group's new ids appended, updates its index entry and changes nothing else; the tag map extends the save-order fold `SavedTags` by this topic |
| OldDataManagement.MergeGroups | src-tauri/src/commands/data_management.rs:108-116 | after the merge loop each grouped topic's file is its merged list and its index entry is refreshed; other files, topics, progress and sessions are unchanged; the topics were saved once each, in some order `saved`, and the tag map is `SavedTags` over that order |
| OldDataManagement.ReplaceGroup | src-tauri/src/commands/data_management.rs:138-140 | one replace turn saves the group as the topic's questions and refreshes its index entry; the tag map extends the save-order fold by this topic |
| OldDataManagement.ReplaceGroups | src-tauri/src/commands/data_management.rs:137-140 | after the replace loop each grouped topic's file is its group and its index entry is refreshed; other files stay; each topic saved once, in some order, and the tag map is `SavedTags` over that order |
| OldDataManagement.AddEmpty | src-tauri/src/commands/data_management.rs:142-147 | the empty-file saves never drop or change an existing file |
| OldDataManagement.AddEmptyAt | src-tauri/src/commands/data_management.rs:142-147 | every imported topic ends with a file, its old one if it had one and an empty one otherwise, and no other file appears |
| OldDataManagement.IndexEmptyIsReindexed | src-tauri/src/commands/data_management.rs:142-147 | the empty-file saves refresh the index entries of exactly the files they create |
| OldDataManagement.SaveIfMissing | src-tauri/src/commands/data_management.rs:144-146 | one turn saves an empty questions file for the topic when it has none; the tag map is unchanged |
| OldDataManagement.SaveMissing | src-tauri/src/commands/data_management.rs:142-147 | afterwards every imported topic has a file and exactly the created files got new index entries; the tag map is unchanged, since an empty file has no tags |
| OldDataManagement.MergeImport | src-tauri/src/commands/data_management.rs:88-116 | the merge path appends the new topics, merges each topic's imported questions into its file by id, and refreshes those index entries; each grouped topic saved once, and the tag map is `SavedTags` over that save order |
| OldDataManagement.ReplaceImport | src-tauri/src/commands/data_management.rs:117-149 | the replace path sets the topic list to the imported one, writes each group over its topic's file, then gives imported topics without a file an empty one; each grouped topic saved once, and the tag map is `SavedTags` over that save order |
| OldDataManagement.ImportDatabase | src-tauri/src/commands/data_management.rs:74-163 | unparsable JSON fails with `Invalid JSON format: ` and invalid content with the validation error, both changing nothing; otherwise merge or replace, and report success with the topic count and the index's question total; the tag map is `SavedTags` over the save order, which lists each grouped topic once on success and nothing on failure |
| OldDataManagement.MergedFileOf | src-tauri/src/commands/data_management.rs:107-116 | after a merge a topic that received questions has its existing questions followed by the new ids, in input order |
| OldDataManagement.MergeKeepsUntouched | src-tauri/src/commands/data_management.rs:107-116 | after a merge a topic that received no questions keeps its file |
| OldDataManagement.ReplacedFileOf | src-tauri/src/commands/data_management.rs:129-147 | after a replace a topic that received questions has exactly those, an imported topic that received none has an empty file unless it had one, and an old topic's file stays as it was |
| OldProgress.ProgressPosition | src-tauri/src/database/repository/progress_repo.rs:85-88 | the position is that of the question's first entry, and none exactly when the question has no entry |
| OldProgress.GetByTopic | src-tauri/src/database/repository/progress_repo.rs:33-41 | the result lists only entries of that topic, taken from the list, and every entry of that topic |
| OldProgress.StartingPoint | src-tauri/src/database/repository/progress_repo.rs:44-88 | the entry reviewed is the question's own, existing or appended |
| OldProgress.ApplyReview | src-tauri/src/database/repository/progress_repo.rs:92-120 | the field writes give the reviewed entry: status and clamped confidence when given, the counters moved by the quiz result, timestamps set to now, next review from the schedule |
| OldProgress.Start | src-tauri/src/database/repository/progress_repo.rs:44-80 | the lookup loop returns the stored entry's position, or appends a fresh entry for the question's first topic, or fails when no topic holds it |
| OldProgress.Update | src-tauri/src/database/repository/progress_repo.rs:44-131 | a failed lookup returns its error and changes nothing; otherwise the entry is reviewed in place, returned, and the rest of the database is unchanged |
| OldProgress.UpdateProperties | src-tauri/src/database/repository/progress_repo.rs:44-92 | update fails exactly when the question has no entry and no topic with a non-empty id holds it; a new entry is a pristine one of the question's first topic appended at the end |
| OldProgress.UpdateKeepsOthers | src-tauri/src/database/repository/progress_repo.rs:44-131 | no other question's entry changes, the list grows by at most one and the question is found at the reviewed entry; a sound entry stays sound |
| OldProgress.Reset | src-tauri/src/database/repository/progress_repo.rs:134-160 | a question without an entry fails with `Progress not found for question: `; otherwise its first entry returns to the pristine counters with the new update time and nothing else changes |
| OldProgress.StatusCount | src-tauri/src/database/repository/progress_repo.rs:166-169 | a status count never exceeds the number of entries |
| OldProgress.StatusCountsSum | src-tauri/src/database/repository/progress_repo.rs:166-171 | every entry is counted under exactly one of the four statuses |
| OldProgress.Statistics | src-tauri/src/database/repository/progress_repo.rs:163-171 | the total is the number of entries and the four status counts add up to it |
| OldProgress.StatusCountReplace | src-tauri/src/database/repository/progress_repo.rs:166-169 | replacing one entry moves one unit from its old status's count to its new status's count |
| OldProgress.ResetCountsAsNotStudied | src-tauri/src/database/repository/progress_repo.rs:134-171 | resetting an entry keeps the total and adds one to the not-studied count unless it was already not studied |
| OldProgress.PairsOf | src-tauri/src/database/repository/progress_repo.rs:264-266 | one pair per question of the topic, holding the question's id and the topic's id |
| OldProgress.ExistingIds | src-tauri/src/database/repository/progress_repo.rs:270-271 | one question id per progress entry, in order |
| OldProgress.TopicPairs | src-tauri/src/database/repository/progress_repo.rs:264-266 | the inner loop returns the topic's pairs |
| OldProgress.CollectPairs | src-tauri/src/database/repository/progress_repo.rs:262-267 | the nested loop returns the pairs of every topic's questions, in topic order |
| OldProgress.NewEntries | src-tauri/src/database/repository/progress_repo.rs:273-279 | the loop returns a fresh entry for each pair whose question has no entry |
| OldProgress.EnsureProgress | src-tauri/src/database/repository/progress_repo.rs:258-298 | the fresh entries are appended to the progress list and their number returned; nothing else changes |
| OldProgress.PairsListed | src-tauri/src/database/repository/progress_repo.rs:262-267 | every question of every topic appears as a pair |
| OldProgress.MissingListed | src-tauri/src/database/repository/progress_repo.rs:273-279 | a pair whose question has no entry gets a fresh entry |
| OldProgress.MissingFresh | src-tauri/src/database/repository/progress_repo.rs:273-279 | every added entry is pristine and for a question that had no entry |
| OldProgress.EnsureProgressCovers | src-tauri/src/database/repository/progress_repo.rs:258-298 | afterwards every question of every topic has an entry, the old entries are kept in front unchanged, and each added entry is pristine for a question that had none |
| OldQuestions.FirstWithId | src-tauri/src/database/repository/lazy_questions_repo.rs:40 | the question found is the list's element at some position, has the id, and no question before that position has the id (the first match `find` returns); there is none exactly when no question has the id |
| OldQuestions.GetById | src-tauri/src/database/repository/lazy_questions_repo.rs:33-45 | a question is found exactly when some topic's file holds the id, and it has that id |
| OldQuestions.FirstWithIdAppend | src-tauri/src/database/repository/lazy_questions_repo.rs:20-31 | the first match in two concatenated lists is the first list's match if it has one, else the second's |
| OldQuestions.HomeTail | src-tauri/src/database/repository/lazy_questions_repo.rs:36-44 | a first topic whose file lacks the id does not affect the lookup |
| OldQuestions.GetByIdIsFirstOfAll | src-tauri/src/database/repository/lazy_questions_repo.rs:20-45 | looking a question up topic by topic finds the same question as the first match in the concatenation of all files |
| OldQuestions.MaxNumber | src-tauri/src/database/repository/lazy_questions_repo.rs:75-80 | the maximum is at least every question's number, is some question's number, and is 0 for an empty file |
| OldQuestions.AllocatedIsFree | src-tauri/src/database/repository/lazy_questions_repo.rs:69-83 | the requested number is kept exactly when no other question has it, and the number used is never one another question has |
| OldQuestions.Create | src-tauri/src/database/repository/lazy_questions_repo.rs:54-107 | an unknown topic fails with `Topic with id ... not found` and changes nothing; otherwise the new question, with the requested number or one above the maximum when taken, is appended to the topic's file and the topic is re-indexed; the tag map is re-registered for that topic, and unchanged on failure |
| OldQuestions.Removed | src-tauri/src/database/repository/lazy_questions_repo.rs:209 | the kept questions all differ in id from the removed one and come from the list, every other question is kept, and the list shrinks when the id was present |
| OldQuestions.Patch | src-tauri/src/database/repository/lazy_questions_repo.rs:175-200 | the field writes give the patched question: each given field replaced, the allocated number applied, the update time refreshed |
| OldQuestions.Move | src-tauri/src/database/repository/lazy_questions_repo.rs:202-217 | the old file loses the question and the target file gets it appended; both topics are re-indexed; the tag map is the save-order fold over the old topic and then the target; topics, progress and sessions are unchanged |
| OldQuestions.Update | src-tauri/src/database/repository/lazy_questions_repo.rs:110-229 | the files and result are those of the update on the question's first home topic, or unchanged with no result when no topic holds it; the ghost save order is `SavesOf` of the old state; only the saved topics' files and index entries change; the tag map is the save-order fold over the saved topics |
| OldQuestions.SavesMatchUpdate | src-tauri/src/database/repository/lazy_questions_repo.rs:110-229 | the save order of an update is empty exactly when no question is returned, never names a topic twice, and names every topic whose file changed |
| OldQuestions.UpdateIn | src-tauri/src/database/repository/lazy_questions_repo.rs:128-229 | a move to an unknown topic fails with `Target topic with id ... not found` and saves nothing; otherwise the move or in-place branch is taken, the save order is `SavesFrom` (`[from, to]` or `[from]`), and only saved files change; the tag map is the save-order fold over the saved topics |
| OldQuestions.NumberFor | src-tauri/src/database/repository/lazy_questions_repo.rs:143-170 | no number when none is requested, otherwise the requested one or one above the target file's maximum when another question has it |
| OldQuestions.ApplyMove | src-tauri/src/database/repository/lazy_questions_repo.rs:202-217 | the topic-change branch leaves the files and result of a move; the save order is exactly `[from, to]`: the old topic and then the target are saved, re-indexed and re-tagged in that order |
| OldQuestions.ApplyInPlace | src-tauri/src/database/repository/lazy_questions_repo.rs:218-225 | the same-topic branch leaves the file with the question patched at its place; the save order is exactly `[from]`: that topic alone is saved, re-indexed and re-tagged |
| OldQuestions.MoveProperties | src-tauri/src/database/repository/lazy_questions_repo.rs:202-217 | a topic change succeeds, takes every copy of the question out of the old file, appends it with the new topic id to the target file, and a requested number ends free in the target |
| OldQuestions.InPlaceProperties | src-tauri/src/database/repository/lazy_questions_repo.rs:218-225 | an update within the topic rewrites the question at its position, keeps its id and topic, leaves every other question unchanged, and a requested number ends free |
| OldQuestions.Renumbered | src-tauri/src/database/repository/lazy_questions_repo.rs:263-265 | the question at each position gets that position plus one as its number, as a 32-bit integer, and nothing else changes |
| OldQuestions.Renumber | src-tauri/src/database/repository/lazy_questions_repo.rs:263-265 | the renumber loop returns the renumbered list |
| OldQuestions.Delete | src-tauri/src/database/repository/lazy_questions_repo.rs:232-271 | a question in no topic gives false and changes nothing; otherwise its topic's file loses it, is sorted by order and renumbered from 1, and the topic is re-indexed; the tag map is re-registered for that topic |
| OldQuestions.DeleteProperties | src-tauri/src/database/repository/lazy_questions_repo.rs:254-265 | after a delete the file is shorter, holds no question with the id, is numbered 1, 2, and so on, is ordered by `order`, and still holds every other question with its new number |
| OldQuestions.Search | src-tauri/src/database/repository/lazy_questions_repo.rs:288-300 | the results are matching questions of `get_all`, and every matching question is among them |
| OldQuestions.SearchProperties | src-tauri/src/database/repository/lazy_questions_repo.rs:288-300 | the empty keyword matches every question, and the keyword's case does not matter |
| OldTopics.GetById | src-tauri/src/database/repository/lazy_topics_repo.rs:25-29 | the topic found is the first with the id, and there is none exactly when no topic has it |
| OldTopics.Create | src-tauri/src/database/repository/lazy_topics_repo.rs:49-78 | the new topic, built from the request with the given id and time, is appended; it gets an empty questions file and an index entry; the tag map is unchanged, and progress and sessions too |
| OldTopics.CreatedTopicIsFound | src-tauri/src/database/repository/lazy_topics_repo.rs:49-78 | a topic created with a fresh id is found by id and indexed under its own name with no questions |
| OldTopics.Patch | src-tauri/src/database/repository/lazy_topics_repo.rs:86-109 | the field writes replace each given field, wrap the subtopics in `Some` and refresh the update time |
| OldTopics.Update | src-tauri/src/database/repository/lazy_topics_repo.rs:82-128 | an absent id returns nothing and changes nothing; otherwise the first topic with the id is patched in place, returned, and re-indexed under its current name with its current questions; its tags are re-registered with its current questions |
| OldTopics.PatchesCompose | src-tauri/src/database/repository/lazy_topics_repo.rs:86-109 | two updates in a row equal one update where the later fields win, repeating an update changes only the update time, an empty update only refreshes the update time, and the id and creation time never change |
| OldTopics.Others | src-tauri/src/database/repository/lazy_topics_repo.rs:146 | the kept topics all have other ids and come from the list, and every topic with another id is kept |
| OldTopics.Delete | src-tauri/src/database/repository/lazy_topics_repo.rs:132-169 | an absent id gives false and changes nothing; otherwise every topic with the id, its questions file and its index entry are removed; the topic is withdrawn from the tags of its old entry (`WithdrawnFrom`), and the tag map is unchanged without an entry |
| OldTopics.CountChanges | src-tauri/src/database/repository/lazy_topics_repo.rs:173-177 | creating adds one to the count, deleting a present id lowers it, and deleting an absent id keeps the list |
| OldTopics.Search | src-tauri/src/database/repository/lazy_topics_repo.rs:180-193 | the results are topics of the list whose lowercased name or description contains the lowercased keyword, and every such topic is among them |
| OldTopics.SearchProperties | src-tauri/src/database/repository/lazy_topics_repo.rs:180-193 | the empty keyword matches every topic, and the keyword's case does not matter |
| OldQuiz.ProgressFor | src-tauri/src/database/repository/quiz_session_repo.rs:203-207 | a question's entry is its first stored progress, or a fresh one of the topic when it has none, and always belongs to the question |
| OldQuiz.IncludedTopics | src-tauri/src/database/repository/quiz_session_repo.rs:185-189 | the topics read are the requested list when given, else every topic's id in list order |
| OldQuiz.CollectTopic | src-tauri/src/database/repository/quiz_session_repo.rs:193-210 | the inner loop returns the entries of the topic's wanted questions |
| OldQuiz.CollectQuestions | src-tauri/src/database/repository/quiz_session_repo.rs:177-214 | the collection loop returns the entries of the included topics' wanted questions, in topic order |
| OldQuiz.EntriesOfSound | src-tauri/src/database/repository/quiz_session_repo.rs:193-210 | every entry of a topic is one of its questions that passes the difficulty filter, paired with its progress, and every such question has an entry |
| OldQuiz.CollectedFromTopics | src-tauri/src/database/repository/quiz_session_repo.rs:191-211 | every collected entry is a wanted question of an included topic paired with its progress |
| OldQuiz.CollectedComplete | src-tauri/src/database/repository/quiz_session_repo.rs:191-211 | every wanted question of every included topic is collected |
| OldQuiz.CollectedSound | src-tauri/src/database/repository/quiz_session_repo.rs:177-214 | collected entries come exactly from the included topics' wanted questions, and a question without stored progress is paired with a not-studied entry |
| OldQuiz.MasteredOnly | src-tauri/src/database/repository/quiz_session_repo.rs:236-239 | the kept entries are mastered entries of the input and every mastered entry is kept |
| OldQuiz.IdsOf | src-tauri/src/database/repository/quiz_session_repo.rs:220 | one question id per entry, in order |
| OldQuiz.SelectQuestions | src-tauri/src/database/repository/quiz_session_repo.rs:149-175 | a quick refresher with no mastered question fails with `No mastered questions available for quick refresher`; otherwise the ids of the arranged entries are returned, capped at `max_questions`; every id returned belongs to an entry of the strategy's pool, and there are never more than a non-negative `max_questions` |
| OldQuiz.SelectedPrefixSound | src-tauri/src/database/repository/quiz_session_repo.rs:171-173 | the capped ids of an arrangement are ids of the collected entries (Mastered ones for QuickRefresher), at most `max_questions` of them |
| OldQuiz.SelectionIsSound | src-tauri/src/database/repository/quiz_session_repo.rs:149-247 | the arranged entries are collected ones, mastered ones for a quick refresher, ordered by `order` for a sequential session, no more than were collected, and the cap keeps at most `max_questions` of them |
| OldQuiz.Create | src-tauri/src/database/repository/quiz_session_repo.rs:24-47 | the picked ids are those of `SelectQuestions` on the state before the call: the quick-refresher error when no entry is mastered, or the arranged entries' ids capped at `max_questions`, each from the strategy's pool; a failed selection returns its error and an empty one fails with `No questions available for the selected criteria`, both storing nothing; otherwise the new session is stored and its id appended to the sessions index |
| OldQuiz.LatestOpen | src-tauri/src/database/repository/quiz_session_repo.rs:55-68 | the position found is the latest index entry whose session exists and is not completed, and there is none exactly when no such entry exists |
| OldQuiz.GetActive | src-tauri/src/database/repository/quiz_session_repo.rs:55-68 | the session returned is that of the newest index entry that exists and is not completed, and there is none exactly when no such session exists |
| OldQuiz.Reversed | src-tauri/src/database/repository/quiz_session_repo.rs:124 | the index entries newest first |
| OldQuiz.Present | src-tauri/src/database/repository/quiz_session_repo.rs:134-146 | the stored sessions of the listed ids, skipping missing ones, and exactly those sessions in order when all exist |
| OldQuiz.GetHistory | src-tauri/src/database/repository/quiz_session_repo.rs:117-131 | at most as many sessions as index entries, at most 10 without a limit, and at most the limit when it is not negative |
| OldQuiz.HistoryIsNewestFirst | src-tauri/src/database/repository/quiz_session_repo.rs:117-131 | when every indexed session exists the history is the newest ones in reverse index order, as many as the limit converted to an unsigned size allows |
| OldQuiz.SubmitResult | src-tauri/src/database/repository/quiz_session_repo.rs:71-96 | an unknown session, a question outside the session and an already answered question fail with their messages and change nothing; otherwise the result is appended and the current index set to the number of results |
| OldQuiz.SubmitKeepsAnswersSound | src-tauri/src/database/repository/quiz_session_repo.rs:77-90 | an accepted answer keeps every answer distinct and part of the session, and leaves no more answers than questions |
| OldQuiz.AnswersFit | src-tauri/src/database/repository/quiz_session_repo.rs:77-90 | a session whose answers are distinct and its own never has more answers than questions |
| OldQuiz.Complete | src-tauri/src/database/repository/quiz_session_repo.rs:99-114 | an unknown session fails with `Quiz session not found`, a completed one with `Quiz session is already completed`, both changing nothing; otherwise the completion time is set to now |
| OldQuiz.CompleteOnce | src-tauri/src/database/repository/quiz_session_repo.rs:99-114 | a completed session reads as completed, keeps its answers, and stops being a candidate for the active session while nothing else does |
| Markdown.Lines | src-tauri/src/utils/markdown_parser.rs:29 | no line holds a line feed |
| Markdown.LinesJoin | src-tauri/src/utils/markdown_parser.rs:29 | the lines joined by line feeds give back the content, less one final line feed |
| Markdown.DigitRun | src-tauri/src/utils/markdown_parser.rs:112 | the run is the longest prefix of decimal digits |
| Markdown.ExtractQuestionNumber | src-tauri/src/utils/markdown_parser.rs:111-116 | a number is found only when the text starts with digits and a dot, and it fits a 32-bit `parse` |
| Markdown.RemoveQuestionNumberPrefix | src-tauri/src/utils/markdown_parser.rs:118-121 | a text that does not start with digits and a dot is left unchanged |
| Markdown.DigitRunOf | src-tauri/src/utils/markdown_parser.rs:112 | the digit run of digits followed by a non-digit is exactly those digits |
| Markdown.ExtractPrinted | src-tauri/src/utils/markdown_parser.rs:111-116 | a printed number followed by a dot reads back as that number when it fits 32 bits, and as none otherwise |
| Markdown.RemoveDigits | src-tauri/src/utils/markdown_parser.rs:118-121 | digits, a dot and the whitespace after them are removed, leaving the rest |
| Markdown.RemovePrinted | src-tauri/src/utils/markdown_parser.rs:118-121 | a printed number, its dot and the following whitespace are removed |
| Markdown.ExtractExampleOne | src-tauri/src/utils/markdown_parser.rs:139-143 | `1. What is this?` gives the number 1 |
| Markdown.ExtractExampleTen | src-tauri/src/utils/markdown_parser.rs:139-143 | `10. Another question?` gives the number 10 |
| Markdown.ExtractExampleNone | src-tauri/src/utils/markdown_parser.rs:139-143 | `No number here` gives no number |
| Markdown.RemoveExampleOne | src-tauri/src/utils/markdown_parser.rs:147-150 | `1. What is this?` becomes `What is this?` |
| Markdown.RemoveExampleTen | src-tauri/src/utils/markdown_parser.rs:151-154 | `10. Another question?` becomes `Another question?` |
| Markdown.FinalizeQuestion | src-tauri/src/utils/markdown_parser.rs:123-131 | there is a finalized question exactly when there was an open one; it keeps its number and text and gets the trimmed answer |
| Markdown.Classify | src-tauri/src/utils/markdown_parser.rs:36-95 | a line classified as a question heading carries a number that fits 32 bits |
| Markdown.Step | src-tauri/src/utils/markdown_parser.rs:32-98 | a topic or numbered question heading clears the answer buffer and leaves the answer section; the answer marker clears the buffer and enters it |
| Markdown.KindsOf | src-tauri/src/utils/markdown_parser.rs:33 | one kind per line, and every question heading's number fits 32 bits |
| Markdown.KindsOfSnoc | src-tauri/src/utils/markdown_parser.rs:32-33 | classifying one more line appends its kind |
| Markdown.ParseLine | src-tauri/src/utils/markdown_parser.rs:33-97 | one pass of the loop body leaves the parser variables of one step |
| Markdown.SaveLast | src-tauri/src/utils/markdown_parser.rs:100-106 | after the loop the open topic, with its open question finalized, is saved |
| Markdown.RunSnoc | src-tauri/src/utils/markdown_parser.rs:32-98 | one more line is one more step |
| Markdown.ParseNext | src-tauri/src/utils/markdown_parser.rs:32-98 | the loop invariant: after line `i` the variables are those of running the first `i` lines |
| Markdown.ParseMarkdownFile | src-tauri/src/utils/markdown_parser.rs:22-109 | the parser never fails and returns the result of running the loop over the lines and saving the last topic |
| Markdown.Names | src-tauri/src/utils/markdown_parser.rs:17-20 | one name per topic |
| Markdown.NamesSnoc | src-tauri/src/utils/markdown_parser.rs:43 | saving one more topic appends its name |
| Markdown.StepNames | src-tauri/src/utils/markdown_parser.rs:36-53 | the saved names plus the open topic's name grow only at topic headings, by the heading's name |
| Markdown.RunNames | src-tauri/src/utils/markdown_parser.rs:32-98 | after any lines, the saved names plus the open topic's are the topic headings' names in order |
| Markdown.TopicsInOrder | src-tauri/src/utils/markdown_parser.rs:22-109 | the parsed topics are one per `## ` line, named by its trimmed remainder, in input order |
| Markdown.FlushedSound | src-tauri/src/utils/markdown_parser.rs:38-42 | filing the open question keeps every filed question sound |
| Markdown.SoundGrows | src-tauri/src/utils/markdown_parser.rs:32-98 | soundness with respect to the lines seen survives one more line |
| Markdown.StepSound | src-tauri/src/utils/markdown_parser.rs:32-98 | one step keeps every filed question sound |
| Markdown.FinishSound | src-tauri/src/utils/markdown_parser.rs:100-106 | saving the last topic keeps every filed question sound |
| Markdown.RunSound | src-tauri/src/utils/markdown_parser.rs:32-98 | the loop keeps every filed question sound |
| Markdown.QuestionsFromHeadings | src-tauri/src/utils/markdown_parser.rs:22-109 | every parsed question's number and text come from one `### N.` line, the number fits 32 bits and the answer is trimmed |
| Markdown.RunAppend | src-tauri/src/utils/markdown_parser.rs:32-98 | running two blocks of lines is running the first, then the second |
| Markdown.RunOne | src-tauri/src/utils/markdown_parser.rs:32-98 | running one line is one step |
| Markdown.AnswerAccumulates | src-tauri/src/utils/markdown_parser.rs:87-95 | in an open question's answer section, plain lines only extend the answer, each followed by a line feed, separators skipped |
| Markdown.PlainIgnoredOutsideAnswer | src-tauri/src/utils/markdown_parser.rs:87-95 | outside an answer section, plain lines change nothing |
| Markdown.QuestionBlock | src-tauri/src/utils/markdown_parser.rs:55-95 | a question heading files the open question, lines before the answer marker are dropped, and the lines after it become the question's trimmed answer |
| Markdown.OrphanQuestionJoinsFirstTopic | src-tauri/src/utils/markdown_parser.rs:59-65 | a question heading before any topic heading is kept open and filed into the first topic, with an empty answer |
| Markdown.OrphanQuestionReplaced | src-tauri/src/utils/markdown_parser.rs:59-76 | before any topic, a second question heading replaces the first question, which is lost |
| MdImport.Imported | src-tauri/src/commands/import.rs:115-145 | creating the parsed questions one by one leaves one question per parsed question in the topic's file |
| MdImport.ImportedFields | src-tauri/src/commands/import.rs:116-127 | every imported question has the id it was given, the topic's id, no subtopic, the parsed text and answer, the topic's name as its only tag, difficulty `intermediate`, its parsed number as its order, and the import time |
| MdImport.ImportedNumbersDistinct | src-tauri/src/commands/import.rs:115-145 | no two questions an import creates in a topic share a number, since a taken number is replaced by one above the maximum |
| MdImport.ImportedKeepsNumbers | src-tauri/src/commands/import.rs:115-145 | when the parsed numbers are distinct, every question keeps the number it was written with |
| MdImport.QuestionDetails | src-tauri/src/commands/import.rs:132-136 | one detail per created question, with its id and its parsed number and text |
| MdImport.ImportedSnoc | src-tauri/src/commands/import.rs:115-145 | creating one more parsed question appends it to the topic's file |
| MdImport.QuestionDetailsSnoc | src-tauri/src/commands/import.rs:132-136 | creating one more question appends its detail |
| MdImport.CreateQuestion | src-tauri/src/commands/import.rs:116-137 | one pass of the question loop creates the question in the topic's file, keeps the topic re-indexed, and reports its detail; the tag map stays the old one with the topic registered under its current file |
| MdImport.ImportTopic | src-tauri/src/commands/import.rs:84-155 | the topic is created with its slug and the fixed import fields, each parsed question is created in it, and the result counts one topic, the questions, and their details; the tag map is the old one with the new topic registered under its final file |
| MdImport.CreatedTopics | src-tauri/src/commands/import.rs:49-60 | one created topic per parsed topic |
| MdImport.CreatedTopicsAt | src-tauri/src/commands/import.rs:91-107 | the k-th created topic is the topic `create_topic` makes from the k-th parsed name under the k-th id: that name's slug, the description `Imported topic: ` and the name, the book icon, colour `#3B82F6`, no subtopics, order 0 and the import time |
| MdImport.Summary | src-tauri/src/commands/import.rs:66-78 | the message is the success sentence when no error was collected, and names the error count otherwise |
| MdImport.TopicDetails | src-tauri/src/commands/import.rs:147-152 | one detail per parsed topic |
| MdImport.TopicDetailsAt | src-tauri/src/commands/import.rs:147-152 | the k-th detail names the k-th topic's id and name, counts its questions, and lists each question's id, parsed number and text |
| MdImport.CreatedTopicsSnoc | src-tauri/src/commands/import.rs:49-60 | importing one more topic appends its topic, its detail, and its question count |
| MdImport.ImportNext | src-tauri/src/commands/import.rs:50-55 | one pass of the topic loop appends the k-th topic, writes its questions file and the index entry `save_topic_questions` builds for it (and nothing else in either map), and reports one topic, its questions and its detail; the store after it is the store after the first k + 1 topics |
| MdImport.KeptOutsideNone | src-tauri/src/commands/import.rs:44-60 | when no topic was imported, the frame of the import loop gives back the old map: an empty import leaves the questions files and the index entries as they were |
| MdImport.ImportAll | src-tauri/src/commands/import.rs:44-60 | the topic loop reports every topic and question with the success message and one detail per topic, and leaves exactly the store of importing every parsed topic in order, one `import_topic` step each, whatever the ids |
| MdImport.ImportedStoreEmpty | src-tauri/src/commands/import.rs:44-60 | importing no topic leaves the topics, the files, the index entries and the tag map as they were |
| MdImport.ImportedStoreSnoc | src-tauri/src/commands/import.rs:49-60 | importing the first k + 1 topics is importing the first k and then one `import_topic` step for the k-th |
| MdImport.CreatedAppend | src-tauri/src/commands/import.rs:49-60 | importing one more topic appends exactly the topic created from its name |
| MdImport.ImportedStoreProperties | src-tauri/src/commands/import.rs:44-60 | with distinct ids, after the first k topics the created topics are appended, each new id has its imported file and the index entry saving it wrote, every other file and entry keeps its presence and value, and the tag map is the saves folded in import order |
| MdImport.ImportedWritten | src-tauri/src/commands/import.rs:49-60 | with distinct ids, each imported id holds its own questions file and the index entry naming it in the final topics list |
| MdImport.WrittenAt | src-tauri/src/database/lazy_db.rs:271-288 | a key written in a sequence of map writes, and not written again later, holds the value it was written with |
| MdImport.WrittenKeeps | src-tauri/src/database/lazy_db.rs:271-288 | a key none of the writes touches is present exactly when it was before, with the same value |
| MdImport.WrittenAll | src-tauri/src/database/lazy_db.rs:271-288 | with distinct keys, every written key holds the value written for it |
| MdImport.WrittenKeepsAll | src-tauri/src/database/lazy_db.rs:271-288 | every key outside the written ones keeps its presence and value |
| MdImport.EntryOfAt | src-tauri/src/commands/import.rs:49-60 | the index entry written for an earlier topic is the one that names it in the final topics list, since topics appended later do not change its name |
| MdImport.RetaggingsSaved | src-tauri/src/commands/import.rs:49-60 | saving the topics' question lists one after the other folds the same tags into the map as saving those topics from any files map that holds their lists |
| MdImport.ImportFromMarkdown | src-tauri/src/commands/import.rs:34-82 | the content is parsed and every parsed topic imported; the result reports success, the counts, the message and the details; the new topics are appended, each new id has the imported questions file and the index entry saving it writes, every other file and index entry keeps its presence and value, and the tag map is the fold over the new topics in import order |
| MdImport.ImportedFromHeadings | src-tauri/src/commands/import.rs:34-155 | every question an import creates has the text of a `### N.` heading of the markdown, that heading's number as its order, and a trimmed answer |
| Slug.SlugChars | src-tauri/src/commands/import.rs:159-168 | each character of the lower-cased name maps one to one: letters and digits stay, whitespace becomes `-`, anything else `_` |
| Slug.NonEmpty | src-tauri/src/commands/import.rs:171 | the kept pieces are all non-empty pieces of the input and together spell the same text |
| Slug.SlugPieces | src-tauri/src/commands/import.rs:157-174 | every piece joined into a slug is non-empty and holds no dash |
| Slug.SlugShape | src-tauri/src/commands/import.rs:157-174 | a slug never starts or ends with a dash and never holds two dashes in a row |
| Slug.SlugKeepsCharacters | src-tauri/src/commands/import.rs:157-174 | with its dashes removed the slug equals the mapped characters of the name with their dashes removed, so nothing but dashes is lost or added |
| Slug.SlugAlphabetOnly | src-tauri/src/commands/import.rs:157-174 | a slug holds only lower-case ASCII letters, digits, `-` and `_` |
| Slug.SpringBootSlug | src-tauri/src/commands/import.rs:183 | the slug of "Spring Boot" is "spring-boot", as the test expects |
| Slug.AmpersandSlug | src-tauri/src/commands/import.rs:184 | the slug of "SQL & Databases" is "sql-_-databases": the ampersand survives as an underscore piece, unlike the "sql-databases" the test expects |
| Ascii.ToLower | src-tauri/src/commands/import.rs:158 | an upper-case letter becomes lower-case and every other character is unchanged |
| Ascii.Lower | src-tauri/src/commands/import.rs:158 | `to_lowercase` keeps the length and lowers each character in place |
| Ascii.TrimStart | src-tauri/src/utils/markdown_parser.rs:56 | the result is a suffix of the input, every dropped character is whitespace and the result does not start with whitespace |
| Ascii.TrimEnd | src-tauri/src/utils/markdown_parser.rs:128 | the result is a prefix of the input, every dropped character is whitespace and the result does not end with whitespace |
| Ascii.Trim | src-tauri/src/utils/markdown_parser.rs:33 | the trimmed line neither starts nor ends with whitespace |
| Ascii.TrimSlice | src-tauri/src/utils/markdown_parser.rs:33 | the trimmed line is a slice of the input, and every character dropped before or after it is whitespace |
| Ascii.ContainsFrom | src-tauri/src/database/repository/lazy_questions_repo.rs:295-296 | true exactly when the needle occurs at some position at or after the start index |
| Ascii.Contains | src-tauri/src/database/repository/lazy_questions_repo.rs:295-296 | `contains` is true exactly when the needle occurs somewhere in the text |
| Ascii.Split | src-tauri/src/commands/import.rs:170 | `split` yields at least one piece and no piece holds the separator |
| Ascii.JoinSplit | src-tauri/src/commands/import.rs:170-173 | joining the pieces of a split with the same separator gives back the text |
| Ascii.Decimal | src-tauri/src/commands/import.rs:67-76 | the printed form of a number is a non-empty run of digits |
| Ascii.DecimalValue | src-tauri/src/utils/markdown_parser.rs:112-114 | parsing the printed digits of a number gives the number back |
| Ascii.JoinWellSeparated | src-tauri/src/commands/import.rs:173 | joining non-empty pieces free of the separator gives text with no leading, trailing or doubled separator, starting with the first piece |
| Ascii.ConcatSplit | src-tauri/src/commands/import.rs:170 | the pieces of a split, concatenated, are the text with every separator removed |
| Ascii.WithoutJoin | src-tauri/src/commands/import.rs:173 | removing the separator from a join of separator-free pieces gives their concatenation |

## Left out

- Disk and SQL I/O:
  - the JSON files, `lazy_db.rs`'s LRU cache and directory layout, and the SQL text and rusqlite calls are not modelled;
  - a save is a plain update of the class fields, and a failed SQL statement is the one error `DbError`.
- Transactions and foreign keys: the source has no transactions, and a failing write in an import keeps the rows already written. The ON DELETE CASCADE and reference checks of the schema are not modelled, so the tables are independent maps.
- Row and map order:
  - SQL result order and `HashMap` iteration order are unspecified in the source;
  - loops over them choose an arbitrary remaining key;
  - contracts are stated independently of that order.
- Network and authentication: the sync client, its HTTP calls, tokens, `auth.rs` and `get_app_id` are not modelled. The server's delta response is a parameter of `Sync.SyncNow`. The checkpoint is an opaque value; its RFC 3339 parsing and formatting are not modelled.
- Clock and identifiers:
  - `Utc::now` is a `now` parameter, and UUID generation is an id parameter;
  - UUID syntax is the `isUuid` predicate of the import validation;
  - the JSON-files topic `create` reads the clock twice, while the model uses one `now` for both timestamps.
- Date arithmetic: `calculate_next_review` is modelled as its day count only. The "reviewed today" and "due for review" statistics are not modelled.
- Floating point: `average_confidence` in the progress statistics is not modelled.
- JSON: `serde_json` encoding and decoding of tags, answers, subtopics, id lists, results and export documents is the `Codec` parameter. Lemmas that need a round trip require it to be `Lawful`.
- Randomness: `shuffle` in the quiz selection is an arbitrary permutation of the candidates.
- Unicode: `to_lowercase`, `is_alphanumeric`, `is_whitespace` and `trim` are modelled over ASCII only. The regexes `^(\d+)\.` and `^\d+\.\s*` are written out by hand over ASCII digits.
- Integer widths: the `i32` overflow of the question-number parse is modelled, since a parse that overflows yields no number. Other `i32` and `i64` counters and versions are unbounded integers.
- Not modelled in the SQLite backend: `search`, `get_active` and `get_history` of its repositories.
- Not modelled in either backend: `export_database`, `get_database_stats` and `calculate_directory_size`, which only read files and measure them.
- Not modelled in the JSON-files backend: `count` and `count_by_topic` of the question repository, which are unused (`allow(dead_code)`).
- Not modelled anywhere:
  - the jql query files, `debug.rs`, the Tauri command wrappers and the `lib.rs` and `mod.rs` files, which are glue;
  - `Mutex`/`RwLock` locking and `async`, because the model is single-threaded.
- NULL sync columns: `sync_version` and `deleted` are integers in `SyncMeta`, never NULL. The SQLite schema is not part of this model. The defaults of `SqliteDb.DefaultSync` (version 1, `synced_at` NULL, `deleted` 0, `deleted_at` NULL) are assumed for the columns an INSERT leaves out. So the `COALESCE(sync_version, 0) + 1` of topic `update` and `delete` and the `deleted IS NULL` test of the queries never meet a NULL here.
- SqliteDb.DefaultSync: states the assumed column defaults, not ones read from a schema. `create` writes `sync_version` 1 and `synced_at` NULL itself (`apps/tauri/src-tauri/src/database/repository/lazy_topics_repo.rs:104-106`), and `deleted` 0 is the assumption.
- SqliteDb.SoftDeleted: on a NULL `sync_version` the source writes version 1 through `COALESCE`; that case cannot arise in the model.
- AppsTopics.LiveTopics: a row whose `deleted` is NULL is live in the source (`deleted = 0 OR deleted IS NULL`, line 22); the model has no such row.
- AppsTopics.GetAll: as for `AppsTopics.LiveTopics`, rows with a NULL `deleted` are not represented.
- AppsTopics.Cascade: the cascades also match questions and progress rows whose `deleted` is NULL (lines 261, 267); the model has none.
- AppsTopics.Delete: the `COALESCE` of a NULL `sync_version` and the rows with a NULL `deleted` are not represented, as above.
- AppsTopics.Update: the `COALESCE` of a NULL `sync_version` (line 176) is not represented. As written, the found-id path never returns. It keeps the connection mutex locked from lines 136-137, since the `drop(conn)` at line 247 is commented out. It then calls `get_by_id` at line 248, which locks the same mutex again at lines 59-60. So the call deadlocks, as the comment at lines 238-240 warns. The contract states the result the code evidently intends: the updated row, read back.
- Sync.SyncClearsPending: requires every `deleted` flag to be 0 or 1, as the collection queries test `deleted = 1` and `deleted = 0`; a NULL or other value would stay pending.
- OldProgress.EnsureProgress: when entries are added, the read guard taken at `src-tauri/src/database/repository/progress_repo.rs:271` is still held when `write_progress` runs at line 286. If `read_progress` returns a lock guard, as `read_topics` does, the call deadlocks. `read_progress` is not part of this model, and the contract states the intended outcome.
- OldQuestions.Create: the source reads the clock twice for `created_at` and `updated_at` (`src-tauri/src/database/repository/lazy_questions_repo.rs:96-97`). `OldQuestions.NewQuestion` uses one `now` for both.
- The JSON-files backend's own `src-tauri/src/database/models/index.rs` is not part of this model. Its index, the `Index` module, is modelled on `apps/tauri/src-tauri/src/database/models/index.rs`, whose `update_topic_entry` takes the arguments that `src-tauri/src/database/lazy_db.rs:287` passes.
- MdImport.ImportTopic: its error branches cannot be reached in the model, so the contract states success. Topic creation cannot fail without I/O, and question creation fails only for an unknown topic, which was created just before.
- MdImport.ImportFromMarkdown: requires the generated topic ids to be distinct, as fresh UUIDs are. The parse itself never fails.
- Behaviour the model keeps as the code has it:
  - in the markdown parser, a question before the first topic joins the next topic, and a second such question replaces the first;
  - the question details of a markdown import report the parsed number, not the number allocated;
  - a replacing import in the JSON-files backend keeps the question files of topics it drops;
  - a negative `get_history` limit takes every session;
  - a completed quiz session still accepts answers.
