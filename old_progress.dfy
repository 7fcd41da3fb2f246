// The progress repository of the JSON-files backend: one list of progress
// entries, looked up by question id, reviewed, reset, counted, and completed
// with a fresh entry for every question that has none.
module OldProgress {
  import opened Wrappers
  import opened Models
  import opened Review
  import opened OldDb

  /** The first entry of that question. */
  function ProgressPosition(progress: seq<QuestionProgress>, questionId: string): (r: Option<nat>)
    ensures r.Some? ==> (r.value < |progress| && progress[r.value].questionId == questionId
                         && forall j :: 0 <= j < r.value ==> progress[j].questionId != questionId)
    ensures r.None? <==> forall j :: 0 <= j < |progress| ==> progress[j].questionId != questionId
  {
    Find(progress, (p: QuestionProgress) => p.questionId == questionId)
  }

  /** `get_by_topic`: the entries of that topic, in list order. */
  function GetByTopic(progress: seq<QuestionProgress>, topicId: string): (r: seq<QuestionProgress>)
    ensures |r| <= |progress|
    ensures forall i :: 0 <= i < |r| ==> r[i].topicId == topicId && r[i] in progress
    ensures forall i :: 0 <= i < |progress| && progress[i].topicId == topicId ==> progress[i] in r
  {
    Filter(progress, (p: QuestionProgress) => p.topicId == topicId)
  }

  // ---- update ----

  /** The list `update` reviews and the position of the entry it reviews:
      the stored entry, or a fresh one appended for a question that some
      topic's file holds. The topic id is read back as text, so a question
      whose topic has the empty id counts as not found. */
  function StartingPoint(progress: seq<QuestionProgress>, topics: seq<Topic>, files: map<string, seq<Question>>,
                         questionId: string, now: string)
    : (r: Result<(seq<QuestionProgress>, nat), string>)
    ensures r.Ok? ==> r.value.1 < |r.value.0| && r.value.0[r.value.1].questionId == questionId
  {
    var pos := ProgressPosition(progress, questionId);
    if pos.Some? then
      var found: (seq<QuestionProgress>, nat) := (progress, pos.value);
      Ok(found)
    else
      var h := Home(topics, files, questionId);
      var topicId := if h.None? then "" else topics[h.value].id;
      if topicId == "" then Err("Question not found: " + questionId)
      else
        var added: (seq<QuestionProgress>, nat) := (progress + [NewProgress(questionId, topicId, now)], |progress|);
        Ok(added)
  }

  /** The field writes `update` makes to the entry, in source order. */
  method ApplyReview(p: QuestionProgress, dto: UpdateProgressDto, clock: Clock) returns (entry: QuestionProgress)
    ensures entry == Reviewed(p, dto, clock)
  {
    entry := p;
    if dto.status.Some? {
      entry := entry.(status := dto.status.value);
    }
    if dto.confidenceLevel.Some? {
      entry := entry.(confidenceLevel := Clamp(dto.confidenceLevel.value));
    }
    if dto.wasCorrect.Some? {
      entry := entry.(timesReviewed := entry.timesReviewed + 1);
      if dto.wasCorrect.value {
        entry := entry.(timesCorrect := entry.timesCorrect + 1);
      } else {
        entry := entry.(timesIncorrect := entry.timesIncorrect + 1);
      }
    }
    entry := entry.(lastReviewedAt := Some(clock.now), updatedAt := clock.now);
    entry := entry.(nextReviewAt := Some(clock.daysLater(NextReviewDays(entry.confidenceLevel, entry.timesReviewed))));
  }

  /** The lookup half of `update`: the stored entry, or a fresh one
      appended when some topic with a non-empty id holds the question. */
  method Start(progress: seq<QuestionProgress>, topics: seq<Topic>, files: map<string, seq<Question>>,
               questionId: string, now: string)
    returns (r: Result<(seq<QuestionProgress>, nat), string>)
    ensures r == StartingPoint(progress, topics, files, questionId, now)
  {
    var pos := ProgressPosition(progress, questionId);
    if pos.Some? {
      return Ok((progress, pos.value));
    }
    var h := Home(topics, files, questionId);
    var topicId := "";
    if h.Some? {
      topicId := topics[h.value].id;
    }
    if topicId == "" {
      return Err("Question not found: " + questionId);
    }
    return Ok((progress + [NewProgress(questionId, topicId, now)], |progress|));
  }

  /** `update`: find or create the entry, then apply the review to it in
      place. */
  method Update(db: LazyDatabase, questionId: string, dto: UpdateProgressDto, clock: Clock)
    returns (r: Result<QuestionProgress, string>)
    modifies db
    ensures var start := StartingPoint(old(db.progress), old(db.topics), old(db.files), questionId, clock.now);
      && (start.Err? ==> r == Err(start.error) && db.progress == old(db.progress))
      && (start.Ok? ==>
            && r == Ok(Reviewed(start.value.0[start.value.1], dto, clock))
            && db.progress == start.value.0[start.value.1 := r.value])
    ensures db.topics == old(db.topics) && db.files == old(db.files) && db.index == old(db.index)
    ensures db.sessions == old(db.sessions) && db.sessionIds == old(db.sessionIds)
  {
    var start := Start(db.progress, db.topics, db.files, questionId, clock.now);
    if start.Err? {
      return Err(start.error);
    }
    var (list, k) := start.value;
    var entry := ApplyReview(list[k], dto, clock);
    db.progress := list[k := entry];
    r := Ok(entry);
  }

  /** `update` fails exactly when the question has no entry and no topic
      with a non-empty id holds it, and a new entry starts from a pristine
      one of the question's first topic, appended at the end. */
  lemma UpdateProperties(progress: seq<QuestionProgress>, topics: seq<Topic>, files: map<string, seq<Question>>,
                         questionId: string, now: string)
    ensures var start := StartingPoint(progress, topics, files, questionId, now);
      start.Err? <==> (ProgressPosition(progress, questionId).None?
                       && (Home(topics, files, questionId).None? || topics[Home(topics, files, questionId).value].id == ""))
    ensures var start := StartingPoint(progress, topics, files, questionId, now);
      start.Ok? && ProgressPosition(progress, questionId).None? ==>
        var h := Home(topics, files, questionId).value;
        && start.value.1 == |progress|
        && start.value.0 == progress + [NewProgress(questionId, topics[h].id, now)]
        && Pristine(start.value.0[start.value.1])
  {
  }

  /** After `update` every other question's entry is untouched, the
      question is found at the reviewed entry, and a sound entry stays
      sound. */
  lemma UpdateKeepsOthers(progress: seq<QuestionProgress>, topics: seq<Topic>, files: map<string, seq<Question>>,
                          questionId: string, dto: UpdateProgressDto, clock: Clock)
    ensures var start := StartingPoint(progress, topics, files, questionId, clock.now);
      start.Ok? ==>
        var after := start.value.0[start.value.1 := Reviewed(start.value.0[start.value.1], dto, clock)];
        && |progress| <= |after| <= |progress| + 1
        && (forall i :: 0 <= i < |progress| && progress[i].questionId != questionId ==> after[i] == progress[i])
        && ProgressPosition(after, questionId) == Some(start.value.1)
    ensures var start := StartingPoint(progress, topics, files, questionId, clock.now);
      start.Ok? && Balanced(start.value.0[start.value.1]) && 0 <= start.value.0[start.value.1].confidenceLevel <= 5 ==>
        Balanced(Reviewed(start.value.0[start.value.1], dto, clock))
  {
    var start := StartingPoint(progress, topics, files, questionId, clock.now);
    if start.Ok? {
      var (base, k) := start.value;
      var after := base[k := Reviewed(base[k], dto, clock)];
      assert forall j :: 0 <= j < k ==> base[j].questionId != questionId;
      assert forall j :: 0 <= j < k ==> after[j] == base[j];
      assert after[k].questionId == questionId;
      if Balanced(base[k]) && 0 <= base[k].confidenceLevel <= 5 {
        ReviewKeepsInvariants(base[k], dto, clock);
      }
    }
  }

  // ---- reset ----

  /** `reset`: fails when the question has no entry; otherwise its first
      entry goes back to the pristine state. */
  method Reset(db: LazyDatabase, questionId: string, now: string) returns (r: Result<bool, string>)
    modifies db
    ensures ProgressPosition(old(db.progress), questionId).None? ==>
      r == Err("Progress not found for question: " + questionId) && db.progress == old(db.progress)
    ensures ProgressPosition(old(db.progress), questionId).Some? ==>
      var k := ProgressPosition(old(db.progress), questionId).value;
      r == Ok(true) && db.progress == old(db.progress)[k := ResetEntry(old(db.progress)[k], now)]
    ensures db.topics == old(db.topics) && db.files == old(db.files) && db.index == old(db.index)
    ensures db.sessions == old(db.sessions) && db.sessionIds == old(db.sessionIds)
  {
    var pos := ProgressPosition(db.progress, questionId);
    if pos.None? {
      return Err("Progress not found for question: " + questionId);
    }
    var entry := db.progress[pos.value];
    entry := entry.(status := NotStudied);
    entry := entry.(confidenceLevel := 0);
    entry := entry.(timesReviewed := 0);
    entry := entry.(timesCorrect := 0);
    entry := entry.(timesIncorrect := 0);
    entry := entry.(lastReviewedAt := None);
    entry := entry.(nextReviewAt := None);
    entry := entry.(updatedAt := now);
    db.progress := db.progress[pos.value := entry];
    r := Ok(true);
  }

  // ---- statistics ----

  /** `filter(|p| matches!(p.status, s)).count()`. */
  function StatusCount(progress: seq<QuestionProgress>, s: ProgressStatus): (n: nat)
    ensures n <= |progress|
  {
    if progress == [] then 0
    else (if progress[0].status == s then 1 else 0) + StatusCount(progress[1..], s)
  }

  /** Every entry has exactly one of the four statuses. */
  lemma {:induction false} StatusCountsSum(progress: seq<QuestionProgress>)
    ensures StatusCount(progress, NotStudied) + StatusCount(progress, Studying)
          + StatusCount(progress, Mastered) + StatusCount(progress, NeedsReview) == |progress|
  {
    if progress != [] {
      StatusCountsSum(progress[1..]);
    }
  }

  /** The four status counts and the total of `get_statistics`. */
  function Statistics(progress: seq<QuestionProgress>): (r: ProgressStatistics)
    ensures r.totalQuestions == |progress|
    ensures r.notStudied + r.studying + r.mastered + r.needsReview == r.totalQuestions
  {
    StatusCountsSum(progress);
    ProgressStatistics(StatusCount(progress, NotStudied), StatusCount(progress, Studying),
                       StatusCount(progress, Mastered), StatusCount(progress, NeedsReview), |progress|)
  }

  /** Replacing one entry moves one unit between the counts of its old and
      its new status. */
  lemma {:induction false} StatusCountReplace(progress: seq<QuestionProgress>, k: nat, e: QuestionProgress, s: ProgressStatus)
    requires k < |progress|
    ensures StatusCount(progress[k := e], s)
         == StatusCount(progress, s) - (if progress[k].status == s then 1 else 0) + (if e.status == s then 1 else 0)
  {
    if k > 0 {
      assert progress[k := e][1..] == progress[1..][k - 1 := e];
      StatusCountReplace(progress[1..], k - 1, e, s);
    }
  }

  /** A reset of an entry that was not NotStudied adds one to the
      NotStudied count and leaves the total alone. */
  lemma ResetCountsAsNotStudied(progress: seq<QuestionProgress>, k: nat, now: string)
    requires k < |progress|
    ensures var after := progress[k := ResetEntry(progress[k], now)];
      && Statistics(after).totalQuestions == Statistics(progress).totalQuestions
      && Statistics(after).notStudied
         == Statistics(progress).notStudied + (if progress[k].status == NotStudied then 0 else 1)
  {
    StatusCountReplace(progress, k, ResetEntry(progress[k], now), NotStudied);
  }

  // ---- ensure progress ----

  /** `(question id, topic id)` for each question of the list. */
  function PairsOf(qs: seq<Question>, topicId: string): (r: seq<(string, string)>)
    ensures |r| == |qs|
    ensures forall i :: 0 <= i < |qs| ==> r[i] == (qs[i].id, topicId)
  {
    seq(|qs|, i requires 0 <= i < |qs| => (qs[i].id, topicId))
  }

  /** `all_question_ids`: the pairs of every topic's questions, in topic
      order. */
  function Pairs(topics: seq<Topic>, files: map<string, seq<Question>>): seq<(string, string)>
  {
    if topics == [] then []
    else Pairs(topics[..|topics| - 1], files) + PairsOf(QuestionsOf(files, topics[|topics| - 1].id), topics[|topics| - 1].id)
  }

  /** The question ids that have an entry, `existing_ids`. */
  function ExistingIds(progress: seq<QuestionProgress>): (r: seq<string>)
    ensures |r| == |progress|
    ensures forall i :: 0 <= i < |progress| ==> r[i] == progress[i].questionId
  {
    seq(|progress|, i requires 0 <= i < |progress| => progress[i].questionId)
  }

  /** `new_entries`: a fresh entry for every pair whose question id has no
      entry, in pair order. A question listed twice gets two. */
  function Missing(pairs: seq<(string, string)>, existing: seq<string>, now: string): seq<QuestionProgress>
  {
    if pairs == [] then []
    else
      var last := pairs[|pairs| - 1];
      Missing(pairs[..|pairs| - 1], existing, now)
        + (if last.0 in existing then [] else [NewProgress(last.0, last.1, now)])
  }

  /** The inner loop of `all_question_ids`: one pair per question of the
      topic. */
  method TopicPairs(questions: seq<Question>, topicId: string) returns (pairs: seq<(string, string)>)
    ensures pairs == PairsOf(questions, topicId)
  {
    pairs := [];
    var j := 0;
    while j < |questions|
      invariant 0 <= j <= |questions|
      invariant pairs == PairsOf(questions[..j], topicId)
    {
      assert PairsOf(questions[..j + 1], topicId) == PairsOf(questions[..j], topicId) + [(questions[j].id, topicId)];
      pairs := pairs + [(questions[j].id, topicId)];
      j := j + 1;
    }
    assert questions[..j] == questions;
  }

  /** The nested loop that collects `all_question_ids`. */
  method CollectPairs(topics: seq<Topic>, files: map<string, seq<Question>>) returns (pairs: seq<(string, string)>)
    ensures pairs == Pairs(topics, files)
  {
    pairs := [];
    var i := 0;
    while i < |topics|
      invariant 0 <= i <= |topics|
      invariant pairs == Pairs(topics[..i], files)
    {
      var topic := topics[i];
      var topicPairs := TopicPairs(QuestionsOf(files, topic.id), topic.id);
      pairs := pairs + topicPairs;
      assert topics[..i + 1][..i] == topics[..i];
      i := i + 1;
    }
    assert topics[..i] == topics;
  }

  /** The loop that builds `new_entries`. */
  method NewEntries(pairs: seq<(string, string)>, existing: seq<string>, now: string) returns (entries: seq<QuestionProgress>)
    ensures entries == Missing(pairs, existing, now)
  {
    entries := [];
    var i := 0;
    while i < |pairs|
      invariant 0 <= i <= |pairs|
      invariant entries == Missing(pairs[..i], existing, now)
    {
      var (questionId, topicId) := pairs[i];
      assert pairs[..i + 1][..i] == pairs[..i];
      if questionId !in existing {
        entries := entries + [NewProgress(questionId, topicId, now)];
      }
      i := i + 1;
    }
    assert pairs[..i] == pairs;
  }

  /** `ensure_progress_for_all_questions`: append a fresh entry for every
      question of every topic whose id has no entry yet, and return how many
      were appended. */
  method EnsureProgress(db: LazyDatabase, now: string) returns (count: nat)
    modifies db
    ensures var added := Missing(Pairs(old(db.topics), old(db.files)), ExistingIds(old(db.progress)), now);
      count == |added| && db.progress == old(db.progress) + added
    ensures db.topics == old(db.topics) && db.files == old(db.files) && db.index == old(db.index)
    ensures db.sessions == old(db.sessions) && db.sessionIds == old(db.sessionIds)
  {
    var allQuestionIds := CollectPairs(db.topics, db.files);
    var existingIds := ExistingIds(db.progress);
    var newEntries := NewEntries(allQuestionIds, existingIds, now);
    count := |newEntries|;
    if count > 0 {
      db.progress := db.progress + newEntries;
    }
  }

  lemma {:induction false} PairsListed(topics: seq<Topic>, files: map<string, seq<Question>>, j: nat, m: nat)
    requires j < |topics| && m < |QuestionsOf(files, topics[j].id)|
    ensures (QuestionsOf(files, topics[j].id)[m].id, topics[j].id) in Pairs(topics, files)
  {
    var n := |topics| - 1;
    if j < n {
      PairsListed(topics[..n], files, j, m);
    } else {
      assert PairsOf(QuestionsOf(files, topics[n].id), topics[n].id)[m] == (QuestionsOf(files, topics[j].id)[m].id, topics[j].id);
    }
  }

  lemma {:induction false} MissingListed(pairs: seq<(string, string)>, existing: seq<string>, now: string, i: nat)
    requires i < |pairs| && pairs[i].0 !in existing
    ensures NewProgress(pairs[i].0, pairs[i].1, now) in Missing(pairs, existing, now)
  {
    var n := |pairs| - 1;
    if i < n {
      assert pairs[..n][i] == pairs[i];
      MissingListed(pairs[..n], existing, now, i);
    }
  }

  lemma {:induction false} MissingFresh(pairs: seq<(string, string)>, existing: seq<string>, now: string)
    ensures forall e :: e in Missing(pairs, existing, now) ==> Pristine(e) && e.questionId !in existing
  {
    if pairs != [] {
      MissingFresh(pairs[..|pairs| - 1], existing, now);
    }
  }

  /** After `ensure_progress` every question of every topic has an entry,
      the old entries are kept as they were, and every added entry is a
      pristine one for a question that had none. */
  lemma EnsureProgressCovers(progress: seq<QuestionProgress>, topics: seq<Topic>, files: map<string, seq<Question>>, now: string)
    ensures var after := progress + Missing(Pairs(topics, files), ExistingIds(progress), now);
      && after[..|progress|] == progress
      && (forall j, m :: 0 <= j < |topics| && 0 <= m < |QuestionsOf(files, topics[j].id)| ==>
            ProgressPosition(after, QuestionsOf(files, topics[j].id)[m].id).Some?)
      && (forall i :: |progress| <= i < |after| ==>
            Pristine(after[i]) && ProgressPosition(progress, after[i].questionId).None?)
  {
    var existing := ExistingIds(progress);
    var added := Missing(Pairs(topics, files), existing, now);
    var after := progress + added;
    MissingFresh(Pairs(topics, files), existing, now);
    forall j, m | 0 <= j < |topics| && 0 <= m < |QuestionsOf(files, topics[j].id)|
      ensures ProgressPosition(after, QuestionsOf(files, topics[j].id)[m].id).Some?
    {
      var q := QuestionsOf(files, topics[j].id)[m].id;
      if q in existing {
        var i :| 0 <= i < |existing| && existing[i] == q;
        assert after[i].questionId == q;
      } else {
        PairsListed(topics, files, j, m);
        var pairs := Pairs(topics, files);
        var i :| 0 <= i < |pairs| && pairs[i] == (q, topics[j].id);
        MissingListed(pairs, existing, now, i);
        var e := NewProgress(q, topics[j].id, now);
        var t :| 0 <= t < |added| && added[t] == e;
        assert after[|progress| + t].questionId == q;
      }
    }
    forall i | |progress| <= i < |after|
      ensures Pristine(after[i]) && ProgressPosition(progress, after[i].questionId).None?
    {
      assert after[i] == added[i - |progress|];
      assert after[i].questionId !in existing;
    }
  }
}
