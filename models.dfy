// The records both backends share: topics, questions, progress entries and
// quiz sessions, with their constructors and defaults. Timestamps are the
// opaque RFC 3339 strings the clock produced; the clock itself is a
// parameter of the operations that read it.
module Models {
  import opened Wrappers

  // ---- topics and questions (plain declarations) ----

  datatype Topic = Topic(
    id: string, name: string, description: string, slug: string,
    icon: string, color: string, subtopics: Option<seq<string>>,
    order: int, createdAt: string, updatedAt: string)

  datatype CreateTopicDto = CreateTopicDto(
    name: string, description: string, slug: string, icon: string,
    color: string, subtopics: Option<seq<string>>, order: int)

  datatype UpdateTopicDto = UpdateTopicDto(
    name: Option<string>, description: Option<string>, slug: Option<string>,
    icon: Option<string>, color: Option<string>,
    subtopics: Option<seq<string>>, order: Option<int>)

  /** A question; `answer` is the markdown of its `Answer` record. */
  datatype Question = Question(
    id: string, topicId: string, subtopic: Option<string>,
    questionNumber: int, question: string, answer: string,
    tags: seq<string>, difficulty: string, order: int,
    createdAt: string, updatedAt: string)

  datatype CreateQuestionDto = CreateQuestionDto(
    topicId: string, subtopic: Option<string>, questionNumber: int,
    question: string, answer: string, tags: seq<string>,
    difficulty: string, order: int)

  datatype UpdateQuestionDto = UpdateQuestionDto(
    topicId: Option<string>, subtopic: Option<string>,
    questionNumber: Option<int>, question: Option<string>,
    answer: Option<string>, tags: Option<seq<string>>,
    difficulty: Option<string>, order: Option<int>)

  // ---- progress ----

  datatype ProgressStatus = NotStudied | Studying | Mastered | NeedsReview

  /** `impl Default for ProgressStatus`. */
  function DefaultStatus(): (s: ProgressStatus)
    ensures s == NotStudied
  {
    NotStudied
  }

  /** The `{:?}` rendering the SQLite backend stores in `progress.status`. */
  function StatusName(s: ProgressStatus): string
  {
    match s
    case NotStudied => "NotStudied"
    case Studying => "Studying"
    case Mastered => "Mastered"
    case NeedsReview => "NeedsReview"
  }

  /** Decoding of a stored status; an unknown string reads as NotStudied. */
  function ParseStatus(name: string): (s: ProgressStatus)
    ensures forall t :: StatusName(t) == name ==> s == t
    ensures (forall t :: StatusName(t) != name) ==> s == NotStudied
  {
    if name == "Studying" then assert StatusName(Studying) == name; Studying
    else if name == "Mastered" then assert StatusName(Mastered) == name; Mastered
    else if name == "NeedsReview" then assert StatusName(NeedsReview) == name; NeedsReview
    else NotStudied
  }

  datatype QuestionProgress = QuestionProgress(
    questionId: string, topicId: string, status: ProgressStatus,
    confidenceLevel: int, timesReviewed: int, timesCorrect: int,
    timesIncorrect: int, lastReviewedAt: Option<string>,
    nextReviewAt: Option<string>, createdAt: string, updatedAt: string)

  /** Never reviewed: NotStudied, every counter zero, no review date. */
  predicate Pristine(p: QuestionProgress)
  {
    p.status == NotStudied && p.confidenceLevel == 0 && p.timesReviewed == 0
    && p.timesCorrect == 0 && p.timesIncorrect == 0
    && p.lastReviewedAt.None? && p.nextReviewAt.None?
  }

  /** Every review counted either as correct or as incorrect. */
  predicate Balanced(p: QuestionProgress)
  {
    p.timesReviewed == p.timesCorrect + p.timesIncorrect
  }

  /** `QuestionProgress::new`; `now` is the clock reading it takes. */
  function NewProgress(questionId: string, topicId: string, now: string): (p: QuestionProgress)
    ensures p.questionId == questionId && p.topicId == topicId
    ensures Pristine(p) && Balanced(p)
    ensures p.createdAt == p.updatedAt == now
  {
    QuestionProgress(questionId, topicId, NotStudied, 0, 0, 0, 0, None, None, now, now)
  }

  datatype UpdateProgressDto = UpdateProgressDto(
    status: Option<ProgressStatus>, confidenceLevel: Option<int>,
    wasCorrect: Option<bool>)

  /** The counts of `ProgressStatistics`; the average confidence and the two
      date-based counts are not modelled. */
  datatype ProgressStatistics = ProgressStatistics(
    notStudied: nat, studying: nat, mastered: nat, needsReview: nat,
    totalQuestions: nat)

  /** `impl Default for ProgressStatistics`. */
  function DefaultStatistics(): (s: ProgressStatistics)
    ensures s.notStudied == s.studying == s.mastered == s.needsReview == s.totalQuestions == 0
  {
    ProgressStatistics(0, 0, 0, 0, 0)
  }

  datatype ProgressContainer = ProgressContainer(version: string, progress: seq<QuestionProgress>)

  function DefaultProgressContainer(): (c: ProgressContainer)
    ensures c.version == "2.1" && c.progress == []
  {
    ProgressContainer("2.1", [])
  }

  // ---- quiz sessions ----

  datatype QuizSessionType = Random | Sequential | QuickRefresher | TopicFocused | DifficultyFocused

  /** The serde name of a session type, as the SQLite backend stores it. */
  function SessionTypeName(t: QuizSessionType): string
  {
    match t
    case Random => "Random"
    case Sequential => "Sequential"
    case QuickRefresher => "QuickRefresher"
    case TopicFocused => "TopicFocused"
    case DifficultyFocused => "DifficultyFocused"
  }

  /** Decoding of a stored session type; anything unknown reads as Random. */
  function ParseSessionType(name: string): (t: QuizSessionType)
    ensures forall u :: SessionTypeName(u) == name ==> t == u
    ensures (forall u :: SessionTypeName(u) != name) ==> t == Random
  {
    if name == "Sequential" then assert SessionTypeName(Sequential) == name; Sequential
    else if name == "QuickRefresher" then assert SessionTypeName(QuickRefresher) == name; QuickRefresher
    else if name == "TopicFocused" then assert SessionTypeName(TopicFocused) == name; TopicFocused
    else if name == "DifficultyFocused" then assert SessionTypeName(DifficultyFocused) == name; DifficultyFocused
    else Random
  }

  datatype QuizResult = QuizResult(
    questionId: string, wasCorrect: bool, confidenceRating: int,
    timeSpentSeconds: Option<int>, answeredAt: string)

  datatype QuizSession = QuizSession(
    id: string, sessionType: QuizSessionType, topicIds: seq<string>,
    questionIds: seq<string>, currentIndex: int, startedAt: string,
    completedAt: Option<string>, results: seq<QuizResult>)
  {
    /** `is_completed`. */
    predicate IsCompleted() { completedAt.Some? }
  }

  /** `QuizSession::new`; `id` is the fresh UUID and `now` the clock reading. */
  function NewQuizSession(id: string, sessionType: QuizSessionType, topicIds: seq<string>,
                          questionIds: seq<string>, now: string): (s: QuizSession)
    ensures s.id == id && s.sessionType == sessionType
    ensures s.topicIds == topicIds && s.questionIds == questionIds
    ensures s.currentIndex == 0 && s.results == [] && !s.IsCompleted()
    ensures s.startedAt == now
  {
    QuizSession(id, sessionType, topicIds, questionIds, 0, now, None, [])
  }

  datatype CreateQuizSessionDto = CreateQuizSessionDto(
    sessionType: QuizSessionType, topicIds: Option<seq<string>>,
    difficulty: Option<string>, maxQuestions: Option<int>)
  {
    /** `max_questions` is an `i32`. */
    predicate WellTyped()
    {
      maxQuestions.Some? ==> -0x8000_0000 <= maxQuestions.value < 0x8000_0000
    }
  }

  datatype QuizSessionsIndex = QuizSessionsIndex(version: string, sessionIds: seq<string>, totalSessions: nat)

  /** `impl Default for QuizSessionsIndex`. */
  function DefaultSessionsIndex(): (x: QuizSessionsIndex)
    ensures x.version == "2.1" && x.sessionIds == [] && x.totalSessions == 0
  {
    QuizSessionsIndex("2.1", [], 0)
  }
}
