// The quiz-session repository of the SQLite backend: choosing the
// questions of a new session, answering them one at a time and closing the
// session.
module AppsQuiz {
  import opened Wrappers
  import opened Models
  import opened SqliteDb
  import opened Codec
  import opened Sorting

  // ---- reading rows ----

  /** A JSON list column: NULL or undecodable text reads as the empty list. */
  function DecodeList(c: Codec, col: Option<string>): (r: seq<string>)
    ensures col.None? ==> r == []
    ensures col.Some? && c.decodeStrings(col.value).None? ==> r == []
    ensures col.Some? && c.decodeStrings(col.value).Some? ==> r == c.decodeStrings(col.value).value
  {
    if col.None? then [] else c.decodeStrings(col.value).UnwrapOr([])
  }

  /** The results column, with the same default. */
  function DecodeResults(c: Codec, col: Option<string>): (r: seq<QuizResult>)
    ensures col.None? ==> r == []
    ensures col.Some? && c.decodeResults(col.value).None? ==> r == []
    ensures col.Some? && c.decodeResults(col.value).Some? ==> r == c.decodeResults(col.value).value
  {
    if col.None? then [] else c.decodeResults(col.value).UnwrapOr([])
  }

  /** The row mapping of `query_sessions`; an unknown session type reads as
      Random. */
  function DecodeSession(c: Codec, id: string, row: SessionRow): (s: QuizSession)
    ensures s.id == id && s.sessionType == ParseSessionType(row.sessionType)
    ensures s.currentIndex == row.currentIndex && s.completedAt == row.completedAt
  {
    QuizSession(id, ParseSessionType(row.sessionType), DecodeList(c, row.topicIds),
                DecodeList(c, row.questionIds), row.currentIndex, row.startedAt,
                row.completedAt, DecodeResults(c, row.results))
  }

  // ---- selecting questions ----

  /** A row of the selection query: a question's id and order, and the
      status text of its progress row, "NotStudied" when it has none. */
  datatype Candidate = Candidate(id: string, order: int, status: string)

  function CandidateOrder(x: Candidate): int { x.order }

  /** The WHERE clause: the topic filter applies only to a non-empty list,
      and a difficulty filter never matches a NULL difficulty. */
  predicate Matches(dto: CreateQuizSessionDto, q: QuestionRow)
  {
    && (dto.topicIds.Some? && dto.topicIds.value != [] ==> q.topicId in dto.topicIds.value)
    && (dto.difficulty.Some? ==> q.difficulty == dto.difficulty)
  }

  function CandidateOf(id: string, q: QuestionRow, progress: map<string, ProgressRow>): (x: Candidate)
    ensures x.id == id && x.order == q.orderIndex
    ensures id !in progress ==> x.status == "NotStudied"
  {
    Candidate(id, q.orderIndex, if id in progress then progress[id].status else "NotStudied")
  }

  /** `cands` is a result of the selection query, in some order: each
      matching question once, with its progress status. */
  ghost predicate IsCandidateList(t: Tables, dto: CreateQuizSessionDto, cands: seq<Candidate>)
  {
    && (forall i :: 0 <= i < |cands| ==>
          cands[i].id in t.questions && Matches(dto, t.questions[cands[i].id])
          && cands[i] == CandidateOf(cands[i].id, t.questions[cands[i].id], t.progress))
    && (forall k :: k in t.questions && Matches(dto, t.questions[k]) ==> exists i :: 0 <= i < |cands| && cands[i].id == k)
    && (forall i, j :: 0 <= i < j < |cands| ==> cands[i].id != cands[j].id)
  }

  /** The selection query; every question row takes part, soft-deleted or
      not. */
  method QueryCandidates(db: Database, dto: CreateQuizSessionDto) returns (cands: seq<Candidate>)
    ensures IsCandidateList(db.State(), dto, cands)
  {
    cands := [];
    var todo := db.questions.Keys;
    while todo != {}
      invariant todo <= db.questions.Keys
      invariant forall i :: 0 <= i < |cands| ==>
        cands[i].id in db.questions && cands[i].id !in todo && Matches(dto, db.questions[cands[i].id])
        && cands[i] == CandidateOf(cands[i].id, db.questions[cands[i].id], db.progress)
      invariant forall k :: k in db.questions && k !in todo && Matches(dto, db.questions[k]) ==>
        exists i :: 0 <= i < |cands| && cands[i].id == k
      invariant forall i, j :: 0 <= i < j < |cands| ==> cands[i].id != cands[j].id
      decreases todo
    {
      var k :| k in todo;
      if Matches(dto, db.questions[k]) {
        ghost var before := cands;
        cands := cands + [CandidateOf(k, db.questions[k], db.progress)];
        assert cands[|cands| - 1].id == k;
        assert forall i :: 0 <= i < |before| ==> cands[i] == before[i];
      }
      todo := todo - {k};
    }
  }

  /** `retain(|c| c.status == "Mastered")`. */
  function MasteredOnly(cands: seq<Candidate>): (r: seq<Candidate>)
    ensures forall x :: x in r <==> x in cands && x.status == "Mastered"
    ensures |r| <= |cands|
  {
    if cands == [] then []
    else (if cands[0].status == "Mastered" then [cands[0]] else []) + MasteredOnly(cands[1..])
  }

  /** How a strategy arranges the candidates before the cap: a stable sort
      by order for Sequential, the Mastered ones in any order for
      QuickRefresher, any order for the shuffled strategies. */
  ghost predicate Arranged(kind: QuizSessionType, cands: seq<Candidate>, ordered: seq<Candidate>)
  {
    match kind
    case Sequential => ordered == SortBy(cands, CandidateOrder)
    case QuickRefresher => multiset(ordered) == multiset(MasteredOnly(cands))
    case _ => multiset(ordered) == multiset(cands)
  }

  function IdsOf(s: seq<Candidate>): (ids: seq<string>)
    ensures |ids| == |s|
    ensures forall i :: 0 <= i < |s| ==> ids[i] == s[i].id
  {
    seq(|s|, i requires 0 <= i < |s| => s[i].id)
  }

  /** `select_questions`. The shuffles are an arbitrary reordering; the
      query's own order is whatever the database returns, given back as
      `cands`. */
  method SelectQuestions(db: Database, dto: CreateQuizSessionDto)
    returns (r: Result<seq<string>, string>, ghost cands: seq<Candidate>, ghost ordered: seq<Candidate>)
    requires dto.WellTyped()
    ensures IsCandidateList(db.State(), dto, cands)
    ensures dto.sessionType == QuickRefresher && MasteredOnly(cands) == [] ==> r == Err("No mastered questions")
    ensures !(dto.sessionType == QuickRefresher && MasteredOnly(cands) == []) ==>
      Arranged(dto.sessionType, cands, ordered)
      && r == Ok(IdsOf(ordered[..TakeCount(dto.maxQuestions, |ordered|)]))
    ensures r.Err? ==> dto.sessionType == QuickRefresher && r.error == "No mastered questions"
    ensures r.Ok? ==> SoundSelection(db.State(), dto, r.value)
  {
    var candidates := QueryCandidates(db, dto);
    cands := candidates;
    var arranged: seq<Candidate>;
    match dto.sessionType {
      case Sequential =>
        arranged := SortBy(candidates, CandidateOrder);
      case QuickRefresher =>
        var mastered := MasteredOnly(candidates);
        if mastered == [] {
          return Err("No mastered questions"), cands, [];
        }
        arranged :| multiset(arranged) == multiset(mastered);
      case _ =>
        arranged :| multiset(arranged) == multiset(candidates);
    }
    ordered := arranged;
    var n := TakeCount(dto.maxQuestions, |arranged|);
    SelectedPrefixSound(db.State(), dto, cands, ordered, n);
    r := Ok(IdsOf(arranged[..n]));
  }

  /** What a successful selection returns: ids of matching questions, none
      twice, at most `max_questions` of them when that is set and not
      negative. */
  ghost predicate SoundSelection(t: Tables, dto: CreateQuizSessionDto, ids: seq<string>)
    requires dto.WellTyped()
  {
    && (forall i :: 0 <= i < |ids| ==> ids[i] in t.questions && Matches(dto, t.questions[ids[i]]))
    && (forall i, j :: 0 <= i < j < |ids| ==> ids[i] != ids[j])
    && (dto.maxQuestions.Some? && 0 <= dto.maxQuestions.value ==> |ids| <= dto.maxQuestions.value)
  }

  lemma SelectedPrefixSound(t: Tables, dto: CreateQuizSessionDto, cands: seq<Candidate>, ordered: seq<Candidate>, n: nat)
    requires dto.WellTyped()
    requires IsCandidateList(t, dto, cands)
    requires Arranged(dto.sessionType, cands, ordered)
    requires n == TakeCount(dto.maxQuestions, |ordered|)
    ensures SoundSelection(t, dto, IdsOf(ordered[..n]))
  {
    SelectionIsSound(t, dto, cands, ordered);
    var ids := IdsOf(ordered[..n]);
    assert forall i :: 0 <= i < |ids| ==> ids[i] == ordered[i].id;
  }

  /** The candidates a strategy draws from. */
  function Pool(kind: QuizSessionType, cands: seq<Candidate>): seq<Candidate>
  {
    if kind == QuickRefresher then MasteredOnly(cands) else cands
  }

  /** An arrangement reorders the strategy's pool. */
  lemma ArrangedPermutesPool(kind: QuizSessionType, cands: seq<Candidate>, ordered: seq<Candidate>)
    requires Arranged(kind, cands, ordered)
    ensures multiset(ordered) == multiset(Pool(kind, cands))
  {
  }

  /** The arranged candidates are candidates, Mastered ones for
      QuickRefresher, and no candidate comes twice. */
  lemma {:induction false} ArrangedFromCandidates(kind: QuizSessionType, cands: seq<Candidate>, ordered: seq<Candidate>)
    requires NoDup(cands)
    requires Arranged(kind, cands, ordered)
    ensures forall i :: 0 <= i < |ordered| ==> ordered[i] in cands
    ensures kind == QuickRefresher ==> forall i :: 0 <= i < |ordered| ==> ordered[i].status == "Mastered"
    ensures NoDup(ordered)
  {
    var pool := Pool(kind, cands);
    ArrangedPermutesPool(kind, cands, ordered);
    forall i | 0 <= i < |ordered|
      ensures ordered[i] in pool
    {
      assert ordered[i] in multiset(pool);
    }
    if kind == QuickRefresher {
      MasteredNoDup(cands);
    }
    PermutationNoDup(pool, ordered);
  }

  /** Every selected id is a matching question, none twice, and the cap is
      respected; Sequential picks the lowest orders first and
      QuickRefresher only Mastered questions. */
  lemma SelectionIsSound(t: Tables, dto: CreateQuizSessionDto, cands: seq<Candidate>, ordered: seq<Candidate>)
    requires IsCandidateList(t, dto, cands)
    requires Arranged(dto.sessionType, cands, ordered)
    ensures forall i :: 0 <= i < |ordered| ==> ordered[i].id in t.questions && Matches(dto, t.questions[ordered[i].id])
    ensures forall i, j :: 0 <= i < j < |ordered| ==> ordered[i].id != ordered[j].id
    ensures dto.sessionType == QuickRefresher ==> forall i :: 0 <= i < |ordered| ==> ordered[i].status == "Mastered"
    ensures dto.sessionType == Sequential ==> forall i, j :: 0 <= i < j < |ordered| ==> ordered[i].order <= ordered[j].order
  {
    NoDupIds(cands);
    ArrangedFromCandidates(dto.sessionType, cands, ordered);
    DistinctIdsKept(cands, ordered);
    if dto.sessionType == Sequential {
      SortBySorted(cands, CandidateOrder);
    }
  }

  /** Distinct rows drawn from an id-distinct list have distinct ids. */
  lemma DistinctIdsKept(cands: seq<Candidate>, ordered: seq<Candidate>)
    requires forall i, j :: 0 <= i < j < |cands| ==> cands[i].id != cands[j].id
    requires forall i :: 0 <= i < |ordered| ==> ordered[i] in cands
    requires NoDup(ordered)
    ensures forall i, j :: 0 <= i < j < |ordered| ==> ordered[i].id != ordered[j].id
  {
    forall i, j | 0 <= i < j < |ordered|
      ensures ordered[i].id != ordered[j].id
    {
      var a :| 0 <= a < |cands| && cands[a] == ordered[i];
      var b :| 0 <= b < |cands| && cands[b] == ordered[j];
      assert a != b;
    }
  }

  lemma NoDupIds(cands: seq<Candidate>)
    requires forall i, j :: 0 <= i < j < |cands| ==> cands[i].id != cands[j].id
    ensures NoDup(cands)
  {
  }

  lemma {:induction false} MasteredNoDup(cands: seq<Candidate>)
    requires NoDup(cands)
    ensures NoDup(MasteredOnly(cands))
  {
    if cands != [] {
      assert NoDup(cands[1..]) by {
        forall i, j | 0 <= i < j < |cands[1..]| ensures cands[1..][i] != cands[1..][j] {
          assert cands[1..][i] == cands[i + 1];
        }
      }
      MasteredNoDup(cands[1..]);
      var head := if cands[0].status == "Mastered" then [cands[0]] else [];
      var rest := MasteredOnly(cands[1..]);
      assert cands[0] !in rest;
      assert MasteredOnly(cands) == head + rest;
    }
  }

  // ---- create ----

  /** The row `create` inserts; the sync columns take their defaults. */
  function NewSessionRow(c: Codec, s: QuizSession): SessionRow
  {
    SessionRow(SessionTypeName(s.sessionType), Some(c.encodeStrings(s.topicIds)),
               Some(c.encodeStrings(s.questionIds)), s.currentIndex, s.startedAt,
               s.completedAt, Some(c.encodeResults(s.results)), DefaultSync())
  }

  /** Sessions survive a write and a read. */
  lemma SessionRoundTrip(c: Codec, s: QuizSession)
    requires Lawful(c)
    ensures DecodeSession(c, s.id, NewSessionRow(c, s)) == s
  {
    var kind := s.sessionType;
    assert ParseSessionType(SessionTypeName(kind)) == kind;
    assert c.decodeStrings(c.encodeStrings(s.topicIds)) == Some(s.topicIds);
    assert c.decodeStrings(c.encodeStrings(s.questionIds)) == Some(s.questionIds);
    assert c.decodeResults(c.encodeResults(s.results)) == Some(s.results);
  }

  /** `create`: fails when the selection fails or picks nothing; otherwise a
      new open session over the picked questions is stored. `id` is the
      generated UUID and `now` the clock reading. */
  method Create(db: Database, c: Codec, dto: CreateQuizSessionDto, id: string, now: string)
    returns (r: Result<QuizSession, string>, ghost picked: Result<seq<string>, string>,
             ghost cands: seq<Candidate>, ghost ordered: seq<Candidate>)
    requires dto.WellTyped()
    modifies db
    ensures IsCandidateList(old(db.State()), dto, cands)
    ensures dto.sessionType == QuickRefresher && MasteredOnly(cands) == [] ==> picked == Err("No mastered questions")
    ensures !(dto.sessionType == QuickRefresher && MasteredOnly(cands) == []) ==>
      Arranged(dto.sessionType, cands, ordered)
      && picked == Ok(IdsOf(ordered[..TakeCount(dto.maxQuestions, |ordered|)]))
    ensures picked.Ok? ==> SoundSelection(old(db.State()), dto, picked.value)
    ensures picked.Err? ==> r == Err(picked.error) && db.sessions == old(db.sessions)
    ensures picked == Ok([]) ==> r == Err("No questions available") && db.sessions == old(db.sessions)
    ensures picked.Ok? && picked.value != [] && id in old(db.sessions) ==> r == Err(DbError) && db.sessions == old(db.sessions)
    ensures picked.Ok? && picked.value != [] && id !in old(db.sessions) ==>
      r == Ok(NewQuizSession(id, dto.sessionType, dto.topicIds.UnwrapOr([]), picked.value, now))
      && db.sessions == old(db.sessions)[id := NewSessionRow(c, r.value)]
    ensures db.topics == old(db.topics) && db.questions == old(db.questions)
    ensures db.progress == old(db.progress) && db.checkpoint == old(db.checkpoint)
  {
    var selection;
    selection, cands, ordered := SelectQuestions(db, dto);
    picked := selection;
    if selection.Err? {
      return Err(selection.error), picked, cands, ordered;
    }
    var questionIds := selection.value;
    if questionIds == [] {
      return Err("No questions available"), picked, cands, ordered;
    }
    var session := NewQuizSession(id, dto.sessionType, dto.topicIds.UnwrapOr([]), questionIds, now);
    if id in db.sessions {
      return Err(DbError), picked, cands, ordered;
    }
    db.sessions := db.sessions[id := NewSessionRow(c, session)];
    r := Ok(session);
  }

  // ---- answering ----

  predicate Answered(results: seq<QuizResult>, questionId: string)
  {
    exists i | 0 <= i < |results| :: results[i].questionId == questionId
  }

  /** No question answered twice. */
  ghost predicate DistinctAnswers(results: seq<QuizResult>)
  {
    forall i, j :: 0 <= i < j < |results| ==> results[i].questionId != results[j].questionId
  }

  /** `submit_result`: fails for an unknown session or a question already
      answered; otherwise the result is appended and `current_index` is the
      number of results. Completed sessions still take answers. */
  method SubmitResult(db: Database, c: Codec, sessionId: string, result: QuizResult) returns (r: Result<QuizSession, string>)
    modifies db
    ensures sessionId !in old(db.sessions) ==> r == Err("Session not found") && db.sessions == old(db.sessions)
    ensures sessionId in old(db.sessions) ==>
      var s := DecodeSession(c, sessionId, old(db.sessions)[sessionId]);
      if Answered(s.results, result.questionId) then
        r == Err("Question already answered") && db.sessions == old(db.sessions)
      else
        r == Ok(s.(results := s.results + [result], currentIndex := |s.results| + 1))
        && db.sessions == old(db.sessions)[sessionId := old(db.sessions)[sessionId].(
             results := Some(c.encodeResults(r.value.results)), currentIndex := |r.value.results|)]
    ensures db.topics == old(db.topics) && db.questions == old(db.questions)
    ensures db.progress == old(db.progress) && db.checkpoint == old(db.checkpoint)
  {
    if sessionId !in db.sessions {
      return Err("Session not found");
    }
    var session := DecodeSession(c, sessionId, db.sessions[sessionId]);
    if Answered(session.results, result.questionId) {
      return Err("Question already answered");
    }
    session := session.(results := session.results + [result]);
    session := session.(currentIndex := |session.results|);
    db.sessions := db.sessions[sessionId := db.sessions[sessionId].(
      results := Some(c.encodeResults(session.results)), currentIndex := session.currentIndex)];
    r := Ok(session);
  }

  /** An accepted answer keeps the answers distinct and is read back as
      the session `submit_result` returned. */
  lemma SubmitKeepsAnswersDistinct(c: Codec, id: string, row: SessionRow, result: QuizResult)
    requires Lawful(c)
    requires DistinctAnswers(DecodeSession(c, id, row).results)
    requires !Answered(DecodeSession(c, id, row).results, result.questionId)
    ensures var s := DecodeSession(c, id, row);
      var results := s.results + [result];
      DistinctAnswers(results)
      && DecodeSession(c, id, row.(results := Some(c.encodeResults(results)), currentIndex := |results|))
         == s.(results := results, currentIndex := |results|)
  {
    var s := DecodeSession(c, id, row);
    var results := s.results + [result];
    assert c.decodeResults(c.encodeResults(results)) == Some(results);
    forall i, j | 0 <= i < j < |results| ensures results[i].questionId != results[j].questionId {
      if j == |results| - 1 {
        assert results[i] == s.results[i];
      } else {
        assert results[i] == s.results[i] && results[j] == s.results[j];
      }
    }
  }

  // ---- completing ----

  /** `complete`: fails for an unknown or already completed session;
      otherwise `completed_at` is set to `now`. */
  method Complete(db: Database, c: Codec, sessionId: string, now: string) returns (r: Result<QuizSession, string>)
    modifies db
    ensures sessionId !in old(db.sessions) ==> r == Err("Session not found") && db.sessions == old(db.sessions)
    ensures sessionId in old(db.sessions) && old(db.sessions)[sessionId].completedAt.Some? ==>
      r == Err("Already completed") && db.sessions == old(db.sessions)
    ensures sessionId in old(db.sessions) && old(db.sessions)[sessionId].completedAt.None? ==>
      r == Ok(DecodeSession(c, sessionId, old(db.sessions)[sessionId]).(completedAt := Some(now)))
      && db.sessions == old(db.sessions)[sessionId := old(db.sessions)[sessionId].(completedAt := Some(now))]
    ensures db.topics == old(db.topics) && db.questions == old(db.questions)
    ensures db.progress == old(db.progress) && db.checkpoint == old(db.checkpoint)
  {
    if sessionId !in db.sessions {
      return Err("Session not found");
    }
    var session := DecodeSession(c, sessionId, db.sessions[sessionId]);
    if session.completedAt.Some? {
      return Err("Already completed");
    }
    session := session.(completedAt := Some(now));
    db.sessions := db.sessions[sessionId := db.sessions[sessionId].(completedAt := Some(now))];
    r := Ok(session);
  }

  /** A session completes at most once: after `complete` succeeded, the
      stored row reads as completed, so a second call fails. */
  lemma CompleteOnlyOnce(c: Codec, id: string, row: SessionRow, now: string)
    requires row.completedAt.None?
    ensures DecodeSession(c, id, row.(completedAt := Some(now))).IsCompleted()
    ensures DecodeSession(c, id, row.(completedAt := Some(now))) == DecodeSession(c, id, row).(completedAt := Some(now))
  {
  }
}
