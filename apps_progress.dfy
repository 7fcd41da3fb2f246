// The progress repository of the SQLite backend: one row per question,
// keyed by question id, updated by reviews and resets and filled in for
// questions that have none.
module AppsProgress {
  import opened Wrappers
  import opened Models
  import opened SqliteDb
  import opened Review
  import Sync

  // ---- rows and entries ----

  /** The row mapping of `query_progress`; an unknown status reads as
      NotStudied. */
  function DecodeProgress(questionId: string, row: ProgressRow): (p: QuestionProgress)
    ensures p.questionId == questionId && p.topicId == row.topicId
    ensures p.status == ParseStatus(row.status)
  {
    QuestionProgress(questionId, row.topicId, ParseStatus(row.status), row.confidenceLevel,
                     row.timesReviewed, row.timesCorrect, row.timesIncorrect,
                     row.lastReviewedAt, row.nextReviewAt, row.createdAt, row.updatedAt)
  }

  /** The row `update`'s INSERT OR REPLACE writes. It does not name the
      sync columns, so the replacing row takes their defaults. */
  function EncodeProgress(p: QuestionProgress): ProgressRow
  {
    ProgressRow(p.topicId, StatusName(p.status), p.confidenceLevel, p.timesReviewed,
                p.timesCorrect, p.timesIncorrect, p.lastReviewedAt, p.nextReviewAt,
                p.createdAt, p.updatedAt, DefaultSync())
  }

  /** Reading back a written entry gives the entry. */
  lemma ProgressRoundTrip(p: QuestionProgress)
    ensures DecodeProgress(p.questionId, EncodeProgress(p)) == p
    ensures Sync.Selected(EncodeProgress(p).sync, false)
  {
    var s := p.status;
    assert ParseStatus(StatusName(s)) == s;
  }

  // ---- update ----

  /** The entry `update` starts from: the stored one, or a fresh one for a
      question that exists but has no progress yet. */
  function StartingEntry(db: Tables, questionId: string, now: string): (r: Result<QuestionProgress, string>)
    ensures questionId in db.progress ==> r == Ok(DecodeProgress(questionId, db.progress[questionId]))
    ensures questionId !in db.progress && questionId in db.questions ==>
      r == Ok(NewProgress(questionId, db.questions[questionId].topicId, now))
    ensures questionId !in db.progress && questionId !in db.questions ==> r == Err("Question " + questionId + " not found")
  {
    if questionId in db.progress then Ok(DecodeProgress(questionId, db.progress[questionId]))
    else if questionId in db.questions then Ok(NewProgress(questionId, db.questions[questionId].topicId, now))
    else Err("Question " + questionId + " not found")
  }

  /** `update`: fails for a question that does not exist; otherwise the
      review is applied to the starting entry and the row written. */
  method Update(db: Database, questionId: string, dto: UpdateProgressDto, clock: Clock) returns (r: Result<QuestionProgress, string>)
    modifies db
    ensures StartingEntry(old(db.State()), questionId, clock.now).Err? ==>
      r == Err("Question " + questionId + " not found") && db.progress == old(db.progress)
    ensures StartingEntry(old(db.State()), questionId, clock.now).Ok? ==>
      r == Ok(Reviewed(StartingEntry(old(db.State()), questionId, clock.now).value, dto, clock))
      && db.progress == old(db.progress)[questionId := EncodeProgress(r.value)]
    ensures db.topics == old(db.topics) && db.questions == old(db.questions)
    ensures db.sessions == old(db.sessions) && db.checkpoint == old(db.checkpoint)
  {
    var current: QuestionProgress;
    if questionId in db.progress {
      current := DecodeProgress(questionId, db.progress[questionId]);
    } else if questionId in db.questions {
      current := NewProgress(questionId, db.questions[questionId].topicId, clock.now);
    } else {
      return Err("Question " + questionId + " not found");
    }
    if dto.status.Some? {
      current := current.(status := dto.status.value);
    }
    if dto.confidenceLevel.Some? {
      current := current.(confidenceLevel := Clamp(dto.confidenceLevel.value));
    }
    if dto.wasCorrect.Some? {
      current := current.(timesReviewed := current.timesReviewed + 1);
      if dto.wasCorrect.value {
        current := current.(timesCorrect := current.timesCorrect + 1);
      } else {
        current := current.(timesIncorrect := current.timesIncorrect + 1);
      }
    }
    current := current.(lastReviewedAt := Some(clock.now), updatedAt := clock.now);
    current := current.(nextReviewAt := Some(clock.daysLater(NextReviewDays(current.confidenceLevel, current.timesReviewed))));
    db.progress := db.progress[questionId := EncodeProgress(current)];
    r := Ok(current);
  }

  /** A review of a stored entry that kept its invariants keeps them, and
      reading the entry back gives what `update` returned. */
  lemma UpdateKeepsEntrySound(db: Tables, questionId: string, dto: UpdateProgressDto, clock: Clock)
    requires StartingEntry(db, questionId, clock.now).Ok?
    requires var p := StartingEntry(db, questionId, clock.now).value; Balanced(p) && 0 <= p.confidenceLevel <= 5
    ensures var q := Reviewed(StartingEntry(db, questionId, clock.now).value, dto, clock);
      Balanced(q) && 0 <= q.confidenceLevel <= 5 && DecodeProgress(questionId, EncodeProgress(q)) == q
  {
    var p := StartingEntry(db, questionId, clock.now).value;
    ReviewKeepsInvariants(p, dto, clock);
    ProgressRoundTrip(Reviewed(p, dto, clock));
  }

  // ---- reset ----

  /** The row `reset` writes back: status, counters and review dates back
      at the start, `updated_at` refreshed, every other column kept. */
  function ResetRow(row: ProgressRow, now: string): ProgressRow
  {
    row.(status := StatusName(NotStudied), confidenceLevel := 0, timesReviewed := 0,
         timesCorrect := 0, timesIncorrect := 0, lastReviewedAt := None,
         nextReviewAt := None, updatedAt := now)
  }

  /** `reset`: fails when the question has no progress; otherwise its
      status, counters and review dates go back to the start, `updated_at`
      is refreshed and the sync columns are not touched. */
  method Reset(db: Database, questionId: string, now: string) returns (r: Result<bool, string>)
    modifies db
    ensures questionId !in old(db.progress) ==>
      r == Err("Progress not found for " + questionId) && db.progress == old(db.progress)
    ensures questionId in old(db.progress) ==>
      r == Ok(true) && db.progress.Keys == old(db.progress).Keys
      && (forall k :: k in db.progress && k != questionId ==> db.progress[k] == old(db.progress)[k])
      && DecodeProgress(questionId, db.progress[questionId]) == ResetEntry(DecodeProgress(questionId, old(db.progress)[questionId]), now)
      && db.progress[questionId].sync == old(db.progress)[questionId].sync
      && db.progress == old(db.progress)[questionId := ResetRow(old(db.progress)[questionId], now)]
    ensures db.topics == old(db.topics) && db.questions == old(db.questions)
    ensures db.sessions == old(db.sessions) && db.checkpoint == old(db.checkpoint)
  {
    if questionId !in db.progress {
      return Err("Progress not found for " + questionId);
    }
    var row := db.progress[questionId];
    row := row.(status := StatusName(NotStudied), confidenceLevel := 0, timesReviewed := 0,
                timesCorrect := 0, timesIncorrect := 0, lastReviewedAt := None,
                nextReviewAt := None, updatedAt := now);
    db.progress := db.progress[questionId := row];
    r := Ok(true);
  }

  // ---- statistics ----

  /** The keys of the entries whose status reads as `s`. */
  function WithStatus(progress: map<string, ProgressRow>, s: ProgressStatus): set<string>
  {
    set k | k in progress && ParseStatus(progress[k].status) == s
  }

  lemma DisjointCard(a: set<string>, b: set<string>)
    requires a * b == {}
    ensures |a + b| == |a| + |b|
  {
  }

  lemma StatusesDisjoint(progress: map<string, ProgressRow>, s: ProgressStatus, t: ProgressStatus)
    requires s != t
    ensures WithStatus(progress, s) * WithStatus(progress, t) == {}
  {
  }

  lemma StatusesCover(progress: map<string, ProgressRow>)
    ensures WithStatus(progress, NotStudied) + WithStatus(progress, Studying)
          + WithStatus(progress, Mastered) + WithStatus(progress, NeedsReview) == progress.Keys
  {
    forall k | k in progress.Keys
      ensures ParseStatus(progress[k].status) in {NotStudied, Studying, Mastered, NeedsReview}
    {
    }
  }

  /** Every entry has exactly one of the four statuses. */
  lemma {:induction false} StatusesPartition(progress: map<string, ProgressRow>)
    ensures |WithStatus(progress, NotStudied)| + |WithStatus(progress, Studying)|
      + |WithStatus(progress, Mastered)| + |WithStatus(progress, NeedsReview)| == |progress|
  {
    var a, b, c, d := WithStatus(progress, NotStudied), WithStatus(progress, Studying),
                      WithStatus(progress, Mastered), WithStatus(progress, NeedsReview);
    StatusesDisjoint(progress, NotStudied, Studying);
    StatusesDisjoint(progress, NotStudied, Mastered);
    StatusesDisjoint(progress, Studying, Mastered);
    StatusesDisjoint(progress, NotStudied, NeedsReview);
    StatusesDisjoint(progress, Studying, NeedsReview);
    StatusesDisjoint(progress, Mastered, NeedsReview);
    DisjointCard(a, b);
    DisjointCard(a + b, c);
    DisjointCard(a + b + c, d);
    StatusesCover(progress);
  }

  /** The four status counts of `get_statistics` over all progress rows,
      soft-deleted ones included. */
  function Statistics(progress: map<string, ProgressRow>): (r: ProgressStatistics)
    ensures r.totalQuestions == |progress|
    ensures r.notStudied + r.studying + r.mastered + r.needsReview == r.totalQuestions
  {
    StatusesPartition(progress);
    ProgressStatistics(|WithStatus(progress, NotStudied)|, |WithStatus(progress, Studying)|,
                       |WithStatus(progress, Mastered)|, |WithStatus(progress, NeedsReview)|, |progress|)
  }

  /** Each status class after one row was replaced: the replaced key
      leaves its old class and joins the class of the new row's status. */
  lemma WithStatusReplace(progress: map<string, ProgressRow>, k: string, row: ProgressRow, s: ProgressStatus)
    requires k in progress
    ensures WithStatus(progress[k := row], s)
         == (WithStatus(progress, s) - {k}) + (if ParseStatus(row.status) == s then {k} else {})
  {
  }

  /** A reset keeps the number of entries; the entry moves from the count
      of its old status to the not-studied count, so that count grows by
      one unless the entry already was not studied. */
  lemma {:induction false} ResetCountsAsNotStudied(progress: map<string, ProgressRow>, questionId: string, now: string)
    requires questionId in progress
    ensures var before := Statistics(progress);
      var after := Statistics(progress[questionId := ResetRow(progress[questionId], now)]);
      var was := ParseStatus(progress[questionId].status);
      && after.totalQuestions == before.totalQuestions
      && after.notStudied == before.notStudied + (if was == NotStudied then 0 else 1)
      && after.studying == before.studying - (if was == Studying then 1 else 0)
      && after.mastered == before.mastered - (if was == Mastered then 1 else 0)
      && after.needsReview == before.needsReview - (if was == NeedsReview then 1 else 0)
  {
    var row := ResetRow(progress[questionId], now);
    assert ParseStatus(row.status) == NotStudied;
    forall s: ProgressStatus
      ensures |WithStatus(progress[questionId := row], s)|
           == |WithStatus(progress, s)| + (if s == NotStudied then 1 else 0)
              - (if questionId in WithStatus(progress, s) then 1 else 0)
    {
      WithStatusReplace(progress, questionId, row, s);
      var a := WithStatus(progress, s);
      if questionId in a {
        assert a == (a - {questionId}) + {questionId};
      }
    }
  }

  // ---- ensure progress ----

  /** The fresh row `ensure_progress` inserts for a question. */
  function FreshRow(questionId: string, q: QuestionRow, now: string): ProgressRow
  {
    EncodeProgress(NewProgress(questionId, q.topicId, now))
  }

  /** An inserted row reads back as a never-reviewed entry of the
      question's topic. */
  lemma FreshRowIsPristine(questionId: string, q: QuestionRow, now: string)
    ensures DecodeProgress(questionId, FreshRow(questionId, q, now)) == NewProgress(questionId, q.topicId, now)
    ensures Pristine(DecodeProgress(questionId, FreshRow(questionId, q, now)))
  {
    ProgressRoundTrip(NewProgress(questionId, q.topicId, now));
  }

  /** The insert loop of `ensure_progress` over the missing questions. */
  method InsertMissing(questions: map<string, QuestionRow>, existing: map<string, ProgressRow>, now: string)
    returns (progress: map<string, ProgressRow>)
    ensures progress.Keys == existing.Keys + questions.Keys
    ensures forall k :: k in existing ==> progress[k] == existing[k]
    ensures forall k :: k in progress && k !in existing ==> k in questions && progress[k] == FreshRow(k, questions[k], now)
  {
    var todo := questions.Keys - existing.Keys;
    progress := existing;
    while todo != {}
      invariant todo <= questions.Keys - existing.Keys
      invariant progress.Keys + todo == existing.Keys + questions.Keys
      invariant todo !! progress.Keys
      invariant forall k :: k in existing ==> progress[k] == existing[k]
      invariant forall k :: k in progress && k !in existing ==> k in questions && progress[k] == FreshRow(k, questions[k], now)
      decreases todo
    {
      var k :| k in todo;
      progress := progress[k := FreshRow(k, questions[k], now)];
      todo := todo - {k};
    }
  }

  /** `ensure_progress_for_all_questions`: one fresh NotStudied row for every
      question, soft-deleted or not, that has no progress row; existing rows
      are not touched. Returns how many rows it inserted. */
  method EnsureProgress(db: Database, now: string) returns (count: nat)
    modifies db
    ensures count == |old(db.questions).Keys - old(db.progress).Keys|
    ensures db.progress.Keys == old(db.progress).Keys + old(db.questions).Keys
    ensures forall k :: k in old(db.progress) ==> db.progress[k] == old(db.progress)[k]
    ensures forall k :: k in db.progress && k !in old(db.progress) ==>
      k in old(db.questions) && db.progress[k] == FreshRow(k, old(db.questions)[k], now)
    ensures db.topics == old(db.topics) && db.questions == old(db.questions)
    ensures db.sessions == old(db.sessions) && db.checkpoint == old(db.checkpoint)
  {
    count := |db.questions.Keys - db.progress.Keys|;
    db.progress := InsertMissing(db.questions, db.progress, now);
  }

  /** After `ensure_progress` every question has progress. */
  lemma EnsureProgressCovers(questions: map<string, QuestionRow>, before: map<string, ProgressRow>, after: map<string, ProgressRow>)
    requires after.Keys == before.Keys + questions.Keys
    ensures forall q :: q in questions ==> q in after
    ensures |after| == |before| + |questions.Keys - before.Keys|
  {
    assert after.Keys == before.Keys + (questions.Keys - before.Keys);
    assert before.Keys * (questions.Keys - before.Keys) == {};
  }
}
