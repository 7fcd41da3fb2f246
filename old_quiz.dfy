// The quiz-session repository of the JSON-files backend: collecting the
// questions of the chosen topics with their progress, arranging them by the
// session's strategy, and answering and closing sessions.
module OldQuiz {
  import opened Wrappers
  import opened Models
  import opened Sorting
  import opened OldDb
  import opened OldProgress

  // ---- collecting questions ----

  /** A question together with its progress, as `collect_questions` pairs
      them. */
  datatype Entry = Entry(question: Question, progress: QuestionProgress)

  /** The entry's progress: the first stored one for the question, or a
      fresh NotStudied one for the topic it was collected from. */
  function ProgressFor(progress: seq<QuestionProgress>, questionId: string, topicId: string, now: string)
    : (p: QuestionProgress)
    ensures ProgressPosition(progress, questionId).Some? ==> p == progress[ProgressPosition(progress, questionId).value]
    ensures ProgressPosition(progress, questionId).None? ==> p == NewProgress(questionId, topicId, now)
    ensures p.questionId == questionId
  {
    var pos := ProgressPosition(progress, questionId);
    if pos.Some? then progress[pos.value] else NewProgress(questionId, topicId, now)
  }

  /** The difficulty filter: an exact match, when one is given. */
  predicate Wanted(difficulty: Option<string>, q: Question)
  {
    difficulty.None? || q.difficulty == difficulty.value
  }

  /** The topics `collect_questions` reads: the dto's list, or every topic
      id in list order. */
  function IncludedTopics(dto: CreateQuizSessionDto, topics: seq<Topic>): (ids: seq<string>)
    ensures dto.topicIds.Some? ==> ids == dto.topicIds.value
    ensures dto.topicIds.None? ==> |ids| == |topics| && forall i :: 0 <= i < |topics| ==> ids[i] == topics[i].id
  {
    if dto.topicIds.Some? then dto.topicIds.value else seq(|topics|, i requires 0 <= i < |topics| => topics[i].id)
  }

  /** The entries of one topic's questions. */
  function EntriesOf(qs: seq<Question>, topicId: string, progress: seq<QuestionProgress>,
                     difficulty: Option<string>, now: string): seq<Entry>
  {
    if qs == [] then []
    else
      var q := qs[|qs| - 1];
      EntriesOf(qs[..|qs| - 1], topicId, progress, difficulty, now)
        + (if Wanted(difficulty, q) then [Entry(q, ProgressFor(progress, q.id, topicId, now))] else [])
  }

  /** The entries of the listed topics, in topic order. */
  function Collected(ids: seq<string>, files: map<string, seq<Question>>, progress: seq<QuestionProgress>,
                     difficulty: Option<string>, now: string): seq<Entry>
  {
    if ids == [] then []
    else
      Collected(ids[..|ids| - 1], files, progress, difficulty, now)
        + EntriesOf(QuestionsOf(files, ids[|ids| - 1]), ids[|ids| - 1], progress, difficulty, now)
  }

  /** The inner loop of `collect_questions` over one topic's questions. */
  method CollectTopic(qs: seq<Question>, topicId: string, progress: seq<QuestionProgress>,
                      difficulty: Option<string>, now: string) returns (entries: seq<Entry>)
    ensures entries == EntriesOf(qs, topicId, progress, difficulty, now)
  {
    entries := [];
    var j := 0;
    while j < |qs|
      invariant 0 <= j <= |qs|
      invariant entries == EntriesOf(qs[..j], topicId, progress, difficulty, now)
    {
      var question := qs[j];
      assert qs[..j + 1][..j] == qs[..j];
      if Wanted(difficulty, question) {
        entries := entries + [Entry(question, ProgressFor(progress, question.id, topicId, now))];
      }
      j := j + 1;
    }
    assert qs[..j] == qs;
  }

  /** `collect_questions`. */
  method CollectQuestions(db: LazyDatabase, dto: CreateQuizSessionDto, now: string) returns (entries: seq<Entry>)
    ensures entries == Collected(IncludedTopics(dto, db.topics), db.files, db.progress, dto.difficulty, now)
  {
    var ids := IncludedTopics(dto, db.topics);
    entries := [];
    var i := 0;
    while i < |ids|
      invariant 0 <= i <= |ids|
      invariant entries == Collected(ids[..i], db.files, db.progress, dto.difficulty, now)
    {
      var more := CollectTopic(QuestionsOf(db.files, ids[i]), ids[i], db.progress, dto.difficulty, now);
      assert ids[..i + 1][..i] == ids[..i];
      entries := entries + more;
      i := i + 1;
    }
    assert ids[..i] == ids;
  }

  /** A collected entry is a wanted question of an included topic, paired
      with its progress. */
  ghost predicate FromTopic(ids: seq<string>, files: map<string, seq<Question>>, progress: seq<QuestionProgress>,
                            difficulty: Option<string>, now: string, e: Entry)
  {
    exists j, m :: 0 <= j < |ids| && 0 <= m < |QuestionsOf(files, ids[j])|
      && e.question == QuestionsOf(files, ids[j])[m] && Wanted(difficulty, e.question)
      && e.progress == ProgressFor(progress, e.question.id, ids[j], now)
  }

  lemma {:induction false} EntriesOfSound(qs: seq<Question>, topicId: string, progress: seq<QuestionProgress>,
                                          difficulty: Option<string>, now: string)
    ensures forall e :: e in EntriesOf(qs, topicId, progress, difficulty, now) ==>
      exists m :: 0 <= m < |qs| && e.question == qs[m] && Wanted(difficulty, e.question)
        && e.progress == ProgressFor(progress, e.question.id, topicId, now)
    ensures forall m :: 0 <= m < |qs| && Wanted(difficulty, qs[m]) ==>
      Entry(qs[m], ProgressFor(progress, qs[m].id, topicId, now)) in EntriesOf(qs, topicId, progress, difficulty, now)
  {
    if qs != [] {
      var init := qs[..|qs| - 1];
      EntriesOfSound(init, topicId, progress, difficulty, now);
      forall e | e in EntriesOf(qs, topicId, progress, difficulty, now)
        ensures exists m :: (0 <= m < |qs| && e.question == qs[m] && Wanted(difficulty, e.question)
                             && e.progress == ProgressFor(progress, e.question.id, topicId, now))
      {
        if e in EntriesOf(init, topicId, progress, difficulty, now) {
          var m :| 0 <= m < |init| && e.question == init[m] && Wanted(difficulty, e.question)
            && e.progress == ProgressFor(progress, e.question.id, topicId, now);
          assert qs[m] == init[m];
        } else {
          assert e.question == qs[|qs| - 1];
        }
      }
      forall m | 0 <= m < |qs| && Wanted(difficulty, qs[m])
        ensures Entry(qs[m], ProgressFor(progress, qs[m].id, topicId, now)) in EntriesOf(qs, topicId, progress, difficulty, now)
      {
        if m < |init| {
          assert qs[m] == init[m];
        }
      }
    }
  }

  /** Every collected entry is a wanted question of an included topic,
      paired with its progress. */
  lemma {:induction false} CollectedFromTopics(ids: seq<string>, files: map<string, seq<Question>>,
                                               progress: seq<QuestionProgress>, difficulty: Option<string>, now: string)
    ensures forall e :: e in Collected(ids, files, progress, difficulty, now) ==>
      FromTopic(ids, files, progress, difficulty, now, e)
  {
    if ids != [] {
      var n := |ids| - 1;
      var init := ids[..n];
      var qs := QuestionsOf(files, ids[n]);
      CollectedFromTopics(init, files, progress, difficulty, now);
      EntriesOfSound(qs, ids[n], progress, difficulty, now);
      forall e | e in Collected(ids, files, progress, difficulty, now)
        ensures FromTopic(ids, files, progress, difficulty, now, e)
      {
        if e in Collected(init, files, progress, difficulty, now) {
          var j, m :| 0 <= j < |init| && 0 <= m < |QuestionsOf(files, init[j])|
            && e.question == QuestionsOf(files, init[j])[m] && Wanted(difficulty, e.question)
            && e.progress == ProgressFor(progress, e.question.id, init[j], now);
          assert ids[j] == init[j];
        } else {
          var m :| 0 <= m < |qs| && e.question == qs[m] && Wanted(difficulty, e.question)
            && e.progress == ProgressFor(progress, e.question.id, ids[n], now);
        }
      }
    }
  }

  /** Every wanted question of an included topic is collected. */
  lemma {:induction false} CollectedComplete(ids: seq<string>, files: map<string, seq<Question>>,
                                             progress: seq<QuestionProgress>, difficulty: Option<string>, now: string)
    ensures forall j, m :: 0 <= j < |ids| && 0 <= m < |QuestionsOf(files, ids[j])| && Wanted(difficulty, QuestionsOf(files, ids[j])[m]) ==>
      var q := QuestionsOf(files, ids[j])[m];
      Entry(q, ProgressFor(progress, q.id, ids[j], now)) in Collected(ids, files, progress, difficulty, now)
  {
    if ids != [] {
      var n := |ids| - 1;
      var init := ids[..n];
      CollectedComplete(init, files, progress, difficulty, now);
      EntriesOfSound(QuestionsOf(files, ids[n]), ids[n], progress, difficulty, now);
      forall j, m | 0 <= j < |ids| && 0 <= m < |QuestionsOf(files, ids[j])| && Wanted(difficulty, QuestionsOf(files, ids[j])[m])
        ensures var q := QuestionsOf(files, ids[j])[m];
          Entry(q, ProgressFor(progress, q.id, ids[j], now)) in Collected(ids, files, progress, difficulty, now)
      {
        if j < n {
          assert ids[j] == init[j];
        }
      }
    }
  }

  /** Every collected entry comes from an included topic and passes the
      difficulty filter, every wanted question of an included topic is
      collected, and a question without progress counts as NotStudied. */
  lemma CollectedSound(ids: seq<string>, files: map<string, seq<Question>>,
                       progress: seq<QuestionProgress>, difficulty: Option<string>, now: string)
    ensures forall e :: e in Collected(ids, files, progress, difficulty, now) ==>
      FromTopic(ids, files, progress, difficulty, now, e)
    ensures forall j, m :: 0 <= j < |ids| && 0 <= m < |QuestionsOf(files, ids[j])| && Wanted(difficulty, QuestionsOf(files, ids[j])[m]) ==>
      var q := QuestionsOf(files, ids[j])[m];
      Entry(q, ProgressFor(progress, q.id, ids[j], now)) in Collected(ids, files, progress, difficulty, now)
    ensures forall e :: (e in Collected(ids, files, progress, difficulty, now)
                         && ProgressPosition(progress, e.question.id).None?) ==> e.progress.status == NotStudied
  {
    CollectedFromTopics(ids, files, progress, difficulty, now);
    CollectedComplete(ids, files, progress, difficulty, now);
    forall e | e in Collected(ids, files, progress, difficulty, now) && ProgressPosition(progress, e.question.id).None?
      ensures e.progress.status == NotStudied
    {
      assert FromTopic(ids, files, progress, difficulty, now, e);
    }
  }

  // ---- selecting questions ----

  function EntryOrder(e: Entry): int { e.question.order }

  predicate IsMastered(e: Entry) { e.progress.status == Mastered }

  /** The entries `select_quick_refresher` keeps. */
  function MasteredOnly(entries: seq<Entry>): (r: seq<Entry>)
    ensures |r| <= |entries|
    ensures forall i :: 0 <= i < |r| ==> r[i] in entries && IsMastered(r[i])
    ensures forall i :: 0 <= i < |entries| && IsMastered(entries[i]) ==> entries[i] in r
  {
    Filter(entries, IsMastered)
  }

  /** How a strategy arranges the collected entries: a stable sort by
      order for Sequential, the Mastered ones shuffled for QuickRefresher,
      all of them shuffled otherwise. */
  ghost predicate Arranged(kind: QuizSessionType, entries: seq<Entry>, arranged: seq<Entry>)
  {
    match kind
    case Sequential => arranged == SortBy(entries, EntryOrder)
    case QuickRefresher => multiset(arranged) == multiset(MasteredOnly(entries))
    case _ => multiset(arranged) == multiset(entries)
  }

  function IdsOf(s: seq<Entry>): (ids: seq<string>)
    ensures |ids| == |s|
    ensures forall i :: 0 <= i < |s| ==> ids[i] == s[i].question.id
  {
    seq(|s|, i requires 0 <= i < |s| => s[i].question.id)
  }

  /** The entries a strategy draws from. */
  function Pool(kind: QuizSessionType, entries: seq<Entry>): seq<Entry>
  {
    if kind == QuickRefresher then MasteredOnly(entries) else entries
  }

  /** What a successful selection returns: ids of entries of the strategy's
      pool, at most `max_questions` of them when that is set and not
      negative. */
  ghost predicate SoundSelection(kind: QuizSessionType, max: Option<int>, entries: seq<Entry>, ids: seq<string>)
  {
    && (forall i :: 0 <= i < |ids| ==> ids[i] in IdsOf(Pool(kind, entries)))
    && (max.Some? && 0 <= max.value ==> |ids| <= max.value)
  }

  lemma SelectedPrefixSound(kind: QuizSessionType, entries: seq<Entry>, arranged: seq<Entry>, max: Option<int>, n: nat)
    requires Arranged(kind, entries, arranged)
    requires max.Some? ==> -0x8000_0000 <= max.value < 0x8000_0000
    requires n == TakeCount(max, |arranged|)
    ensures SoundSelection(kind, max, entries, IdsOf(arranged)[..n])
  {
    var pool := Pool(kind, entries);
    var ids := IdsOf(arranged)[..n];
    assert multiset(arranged) == multiset(pool);
    forall i | 0 <= i < |ids|
      ensures ids[i] in IdsOf(pool)
    {
      assert arranged[i] in multiset(pool);
      var k :| 0 <= k < |pool| && pool[k] == arranged[i];
      assert IdsOf(pool)[k] == ids[i];
    }
  }

  /** `select_questions`: the shuffles are an arbitrary reordering, given
      back as `arranged`. */
  method SelectQuestions(db: LazyDatabase, dto: CreateQuizSessionDto, now: string)
    returns (r: Result<seq<string>, string>, ghost ordered: seq<Entry>)
    requires dto.WellTyped()
    ensures var entries := Collected(IncludedTopics(dto, db.topics), db.files, db.progress, dto.difficulty, now);
      && (dto.sessionType == QuickRefresher && MasteredOnly(entries) == [] ==>
            r == Err("No mastered questions available for quick refresher"))
      && (!(dto.sessionType == QuickRefresher && MasteredOnly(entries) == []) ==>
            && Arranged(dto.sessionType, entries, ordered)
            && r == Ok(IdsOf(ordered)[..TakeCount(dto.maxQuestions, |ordered|)]))
    ensures r.Err? ==> dto.sessionType == QuickRefresher && r.error == "No mastered questions available for quick refresher"
    ensures r.Ok? ==> SoundSelection(dto.sessionType, dto.maxQuestions,
      Collected(IncludedTopics(dto, db.topics), db.files, db.progress, dto.difficulty, now), r.value)
  {
    var questions := CollectQuestions(db, dto, now);
    var arranged: seq<Entry>;
    match dto.sessionType {
      case Sequential =>
        arranged := SortBy(questions, EntryOrder);
      case QuickRefresher =>
        var mastered := MasteredOnly(questions);
        if mastered == [] {
          return Err("No mastered questions available for quick refresher"), [];
        }
        arranged :| multiset(arranged) == multiset(mastered);
      case _ =>
        arranged :| multiset(arranged) == multiset(questions);
    }
    ordered := arranged;
    var selected := IdsOf(arranged);
    var maxQuestions := TakeCount(dto.maxQuestions, |selected|);
    SelectedPrefixSound(dto.sessionType, questions, arranged, dto.maxQuestions, maxQuestions);
    r := Ok(selected[..maxQuestions]);
  }

  /** The arranged entries are collected ones (Mastered ones for
      QuickRefresher), Sequential puts lower orders first, and the cap
      keeps at most `max_questions` of them. */
  lemma SelectionIsSound(kind: QuizSessionType, entries: seq<Entry>, arranged: seq<Entry>, max: Option<int>)
    requires Arranged(kind, entries, arranged)
    requires max.Some? ==> -0x8000_0000 <= max.value < 0x8000_0000
    ensures forall i :: 0 <= i < |arranged| ==> arranged[i] in entries
    ensures kind == QuickRefresher ==> forall i :: 0 <= i < |arranged| ==> IsMastered(arranged[i])
    ensures kind == Sequential ==> SortedBy(arranged, EntryOrder)
    ensures |arranged| <= |entries|
    ensures max.Some? && max.value >= 0 ==> TakeCount(max, |arranged|) <= max.value
  {
    var pool := Pool(kind, entries);
    assert multiset(arranged) == multiset(pool);
    forall i | 0 <= i < |arranged|
      ensures arranged[i] in pool
    {
      assert arranged[i] in multiset(pool);
    }
    assert |arranged| == |multiset(arranged)| == |multiset(pool)| == |pool|;
    if kind == Sequential {
      SortBySorted(entries, EntryOrder);
    }
  }

  // ---- create ----

  /** `create`: fails when the selection fails or picks nothing; otherwise
      the new session is stored and its id appended to the sessions index.
      `id` is the generated UUID and `now` the clock reading. */
  method Create(db: LazyDatabase, dto: CreateQuizSessionDto, id: string, now: string)
    returns (r: Result<QuizSession, string>, ghost picked: Result<seq<string>, string>, ghost ordered: seq<Entry>)
    requires dto.WellTyped()
    modifies db
    ensures var entries := Collected(IncludedTopics(dto, old(db.topics)), old(db.files), old(db.progress), dto.difficulty, now);
      && (dto.sessionType == QuickRefresher && MasteredOnly(entries) == [] ==>
            picked == Err("No mastered questions available for quick refresher"))
      && (!(dto.sessionType == QuickRefresher && MasteredOnly(entries) == []) ==>
            && Arranged(dto.sessionType, entries, ordered)
            && picked == Ok(IdsOf(ordered)[..TakeCount(dto.maxQuestions, |ordered|)]))
    ensures picked.Ok? ==> SoundSelection(dto.sessionType, dto.maxQuestions,
      Collected(IncludedTopics(dto, old(db.topics)), old(db.files), old(db.progress), dto.difficulty, now), picked.value)
    ensures picked.Err? ==> r == Err(picked.error) && db.sessions == old(db.sessions) && db.sessionIds == old(db.sessionIds)
    ensures picked == Ok([]) ==>
      r == Err("No questions available for the selected criteria")
      && db.sessions == old(db.sessions) && db.sessionIds == old(db.sessionIds)
    ensures picked.Ok? && picked.value != [] ==>
      && r == Ok(NewQuizSession(id, dto.sessionType, dto.topicIds.UnwrapOr([]), picked.value, now))
      && db.sessions == old(db.sessions)[id := r.value]
      && db.sessionIds == old(db.sessionIds) + [id]
    ensures db.topics == old(db.topics) && db.files == old(db.files)
    ensures db.progress == old(db.progress) && db.index == old(db.index)
  {
    var selection;
    selection, ordered := SelectQuestions(db, dto, now);
    picked := selection;
    if selection.Err? {
      return Err(selection.error), picked, ordered;
    }
    var questionIds := selection.value;
    if questionIds == [] {
      return Err("No questions available for the selected criteria"), picked, ordered;
    }
    var topicIds := dto.topicIds.UnwrapOr([]);
    var session := NewQuizSession(id, dto.sessionType, topicIds, questionIds, now);
    db.sessions := db.sessions[id := session];
    db.sessionIds := db.sessionIds + [id];
    r := Ok(session);
  }

  // ---- reading sessions ----

  predicate Open(sessions: map<string, QuizSession>, id: string)
  {
    id in sessions && !sessions[id].IsCompleted()
  }

  /** The position of the latest index entry whose session exists and is
      not completed. */
  function LatestOpen(sessionIds: seq<string>, sessions: map<string, QuizSession>): (r: Option<nat>)
    ensures r.None? ==> forall i :: 0 <= i < |sessionIds| ==> !Open(sessions, sessionIds[i])
    ensures r.Some? ==> (r.value < |sessionIds| && Open(sessions, sessionIds[r.value])
                         && forall j :: r.value < j < |sessionIds| ==> !Open(sessions, sessionIds[j]))
  {
    if sessionIds == [] then None
    else if Open(sessions, sessionIds[|sessionIds| - 1]) then Some(|sessionIds| - 1)
    else LatestOpen(sessionIds[..|sessionIds| - 1], sessions)
  }

  /** `get_active`: the session of the latest index entry that exists and
      is not completed, scanning the index newest first. */
  function GetActive(sessionIds: seq<string>, sessions: map<string, QuizSession>): (r: Option<QuizSession>)
    ensures r.None? <==> forall i :: 0 <= i < |sessionIds| ==> !Open(sessions, sessionIds[i])
    ensures r.Some? ==> (!r.value.IsCompleted()
                         && exists i :: 0 <= i < |sessionIds| && Open(sessions, sessionIds[i]) && r.value == sessions[sessionIds[i]]
                                        && forall j :: i < j < |sessionIds| ==> !Open(sessions, sessionIds[j]))
  {
    var i := LatestOpen(sessionIds, sessions);
    if i.None? then None else Some(sessions[sessionIds[i.value]])
  }

  /** The index entries newest first. */
  function Reversed(s: seq<string>): (r: seq<string>)
    ensures |r| == |s|
    ensures forall i :: 0 <= i < |s| ==> r[i] == s[|s| - 1 - i]
  {
    seq(|s|, i requires 0 <= i < |s| => s[|s| - 1 - i])
  }

  /** The stored sessions of the listed ids, in list order; missing ones
      are skipped. */
  function Present(ids: seq<string>, sessions: map<string, QuizSession>): (r: seq<QuizSession>)
    ensures |r| <= |ids|
    ensures (forall i :: 0 <= i < |ids| ==> ids[i] in sessions) ==>
      |r| == |ids| && forall i :: 0 <= i < |ids| ==> r[i] == sessions[ids[i]]
  {
    if ids == [] then []
    else
      var n := |ids| - 1;
      Present(ids[..n], sessions) + (if ids[n] in sessions then [sessions[ids[n]]] else [])
  }

  /** `get_history`: the existing sessions among the newest
      `limit.unwrap_or(10) as usize` index entries, newest first; a negative
      limit wraps to a huge one and takes them all. */
  function GetHistory(sessionIds: seq<string>, sessions: map<string, QuizSession>, limit: Option<int>)
    : (r: seq<QuizSession>)
    requires limit.Some? ==> -0x8000_0000 <= limit.value < 0x8000_0000
    ensures |r| <= |sessionIds|
    ensures limit.None? ==> |r| <= 10
    ensures limit.Some? && limit.value >= 0 ==> |r| <= limit.value
  {
    var n := AsUsize(limit.UnwrapOr(10));
    var recent := Reversed(sessionIds);
    Present(recent[..if n < |recent| then n else |recent|], sessions)
  }

  /** When every indexed session exists, the history is the newest ones in
      reverse index order. */
  lemma HistoryIsNewestFirst(sessionIds: seq<string>, sessions: map<string, QuizSession>, limit: Option<int>)
    requires limit.Some? ==> -0x8000_0000 <= limit.value < 0x8000_0000
    requires forall i :: 0 <= i < |sessionIds| ==> sessionIds[i] in sessions
    ensures var r := GetHistory(sessionIds, sessions, limit);
      var n := AsUsize(limit.UnwrapOr(10));
      && |r| == (if n < |sessionIds| then n else |sessionIds|)
      && forall i :: 0 <= i < |r| ==> r[i] == sessions[sessionIds[|sessionIds| - 1 - i]]
  {
    var n := AsUsize(limit.UnwrapOr(10));
    var recent := Reversed(sessionIds);
    var taken := recent[..if n < |recent| then n else |recent|];
    assert forall i :: 0 <= i < |taken| ==> taken[i] == sessionIds[|sessionIds| - 1 - i];
  }

  // ---- answering ----

  predicate Answered(results: seq<QuizResult>, questionId: string)
  {
    exists i | 0 <= i < |results| :: results[i].questionId == questionId
  }

  /** What every stored session keeps: no question answered twice, and
      only questions of the session answered. */
  ghost predicate SoundAnswers(s: QuizSession)
  {
    && (forall i, j :: 0 <= i < j < |s.results| ==> s.results[i].questionId != s.results[j].questionId)
    && (forall i :: 0 <= i < |s.results| ==> s.results[i].questionId in s.questionIds)
  }

  /** `submit_result`: fails for an unknown session, a question outside the
      session or one already answered; otherwise the result is appended and
      `current_index` is the number of results. A completed session still
      takes answers. */
  method SubmitResult(db: LazyDatabase, sessionId: string, result: QuizResult) returns (r: Result<QuizSession, string>)
    modifies db
    ensures sessionId !in old(db.sessions) ==>
      r == Err("Quiz session not found: " + sessionId) && db.sessions == old(db.sessions)
    ensures sessionId in old(db.sessions) ==>
      var s := old(db.sessions)[sessionId];
      if result.questionId !in s.questionIds then
        r == Err("Question " + result.questionId + " is not part of this quiz session") && db.sessions == old(db.sessions)
      else if Answered(s.results, result.questionId) then
        r == Err("Question " + result.questionId + " has already been answered") && db.sessions == old(db.sessions)
      else
        r == Ok(s.(results := s.results + [result], currentIndex := AsI32(|s.results| + 1)))
        && db.sessions == old(db.sessions)[sessionId := r.value]
    ensures db.topics == old(db.topics) && db.files == old(db.files) && db.progress == old(db.progress)
    ensures db.sessionIds == old(db.sessionIds) && db.index == old(db.index)
  {
    if sessionId !in db.sessions {
      return Err("Quiz session not found: " + sessionId);
    }
    var session := db.sessions[sessionId];
    if result.questionId !in session.questionIds {
      return Err("Question " + result.questionId + " is not part of this quiz session");
    }
    if Answered(session.results, result.questionId) {
      return Err("Question " + result.questionId + " has already been answered");
    }
    session := session.(results := session.results + [result]);
    session := session.(currentIndex := AsI32(|session.results|));
    db.sessions := db.sessions[sessionId := session];
    r := Ok(session);
  }

  /** An accepted answer keeps the session's answers sound, and a sound
      session never has more results than questions. */
  lemma SubmitKeepsAnswersSound(s: QuizSession, result: QuizResult)
    requires SoundAnswers(s)
    requires result.questionId in s.questionIds && !Answered(s.results, result.questionId)
    ensures SoundAnswers(s.(results := s.results + [result]))
    ensures |s.results| + 1 <= |s.questionIds|
  {
    var t := s.(results := s.results + [result]);
    forall i, j | 0 <= i < j < |t.results| ensures t.results[i].questionId != t.results[j].questionId {
      if j == |t.results| - 1 {
        assert t.results[i] == s.results[i];
      } else {
        assert t.results[i] == s.results[i] && t.results[j] == s.results[j];
      }
    }
    AnswersFit(t);
  }

  /** The answered ids of a sound session are distinct ids of the session,
      so there are no more of them than questions. */
  lemma AnswersFit(s: QuizSession)
    requires SoundAnswers(s)
    ensures |s.results| <= |s.questionIds|
  {
    var answered := AnsweredSet(s.results);
    DistinctAnsweredCard(s.results);
    SeqSetCard(s.questionIds);
    assert answered <= set q | q in s.questionIds;
    SubsetCard(answered, set q | q in s.questionIds);
  }

  function AnsweredSet(results: seq<QuizResult>): set<string>
  {
    set i | 0 <= i < |results| :: results[i].questionId
  }

  lemma {:induction false} DistinctAnsweredCard(results: seq<QuizResult>)
    requires forall i, j :: 0 <= i < j < |results| ==> results[i].questionId != results[j].questionId
    ensures |AnsweredSet(results)| == |results|
  {
    if results != [] {
      var n := |results| - 1;
      var init := results[..n];
      assert forall i :: 0 <= i < n ==> init[i] == results[i];
      DistinctAnsweredCard(init);
      assert AnsweredSet(results) == AnsweredSet(init) + {results[n].questionId};
      assert results[n].questionId !in AnsweredSet(init);
    }
  }

  lemma {:induction false} SeqSetCard(s: seq<string>)
    ensures |set q | q in s| <= |s|
  {
    if s != [] {
      var n := |s| - 1;
      SeqSetCard(s[..n]);
      assert (set q | q in s) == (set q | q in s[..n]) + {s[n]} by {
        assert s == s[..n] + [s[n]];
      }
    }
  }

  lemma {:induction false} SubsetCard(a: set<string>, b: set<string>)
    requires a <= b
    ensures |a| <= |b|
  {
    if a != {} {
      var x :| x in a;
      SubsetCard(a - {x}, b - {x});
    }
  }

  // ---- completing ----

  /** `complete`: fails for an unknown or already completed session;
      otherwise `completed_at` is set to `now`. */
  method Complete(db: LazyDatabase, sessionId: string, now: string) returns (r: Result<QuizSession, string>)
    modifies db
    ensures sessionId !in old(db.sessions) ==>
      r == Err("Quiz session not found: " + sessionId) && db.sessions == old(db.sessions)
    ensures sessionId in old(db.sessions) && old(db.sessions)[sessionId].IsCompleted() ==>
      r == Err("Quiz session is already completed") && db.sessions == old(db.sessions)
    ensures sessionId in old(db.sessions) && !old(db.sessions)[sessionId].IsCompleted() ==>
      r == Ok(old(db.sessions)[sessionId].(completedAt := Some(now)))
      && db.sessions == old(db.sessions)[sessionId := r.value]
    ensures db.topics == old(db.topics) && db.files == old(db.files) && db.progress == old(db.progress)
    ensures db.sessionIds == old(db.sessionIds) && db.index == old(db.index)
  {
    if sessionId !in db.sessions {
      return Err("Quiz session not found: " + sessionId);
    }
    var session := db.sessions[sessionId];
    if session.IsCompleted() {
      return Err("Quiz session is already completed");
    }
    session := session.(completedAt := Some(now));
    db.sessions := db.sessions[sessionId := session];
    r := Ok(session);
  }

  /** A session completes at most once: afterwards it reads as completed,
      so a second `complete` fails, its answers are kept, and it is no longer
      a candidate for `get_active`. */
  lemma CompleteOnce(sessions: map<string, QuizSession>, id: string, now: string)
    requires id in sessions && !sessions[id].IsCompleted()
    ensures var after := sessions[id := sessions[id].(completedAt := Some(now))];
      && after[id].IsCompleted() && after[id].results == sessions[id].results
      && forall k :: Open(after, k) <==> (Open(sessions, k) && k != id)
  {
  }
}
