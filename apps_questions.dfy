// The questions repository of the SQLite backend: row decoding with its
// defaults, the question-number rule of `create` and `update`, and the
// hard delete. Question writes do not touch the sync columns.
module AppsQuestions {
  import opened Wrappers
  import opened Models
  import opened SqliteDb
  import opened Codec

  // ---- reading rows ----

  /** The row mapping of `query_questions`: undecodable answer JSON reads
      as empty markdown, NULL or undecodable tags as no tags; a NULL
      difficulty fails the row, and the whole query with it. */
  function DecodeQuestion(c: Codec, id: string, row: QuestionRow): (r: Result<Question, string>)
    ensures r.Err? <==> row.difficulty.None?
    ensures r.Ok? ==> r.value.id == id && r.value.topicId == row.topicId && r.value.questionNumber == row.questionNumber
    ensures r.Ok? && c.decodeAnswer(row.answer).None? ==> r.value.answer == ""
    ensures r.Ok? && (row.tags.None? || c.decodeStrings(row.tags.value).None?) ==> r.value.tags == []
  {
    if row.difficulty.None? then Err(DbError)
    else
      var tags := if row.tags.None? then [] else c.decodeStrings(row.tags.value).UnwrapOr([]);
      Ok(Question(id, row.topicId, row.subtopic, row.questionNumber, row.question,
                  c.decodeAnswer(row.answer).UnwrapOr(""), tags, row.difficulty.value,
                  row.orderIndex, row.createdAt, row.updatedAt))
  }

  /** `get_by_id`. */
  function GetById(c: Codec, questions: map<string, QuestionRow>, id: string): (r: Result<Option<Question>, string>)
    ensures id !in questions ==> r == Ok(None)
    ensures id in questions && DecodeQuestion(c, id, questions[id]).Ok? ==> r == Ok(Some(DecodeQuestion(c, id, questions[id]).value))
    ensures id in questions && DecodeQuestion(c, id, questions[id]).Err? ==> r.Err?
  {
    if id !in questions then Ok(None)
    else
      var q := DecodeQuestion(c, id, questions[id]);
      if q.Ok? then Ok(Some(q.value)) else Err(q.error)
  }

  // ---- question numbers ----

  /** Another question of `topic` (not `exclude`) already has number `n`. */
  ghost predicate Occupied(questions: map<string, QuestionRow>, topic: string, n: int, exclude: Option<string>)
  {
    exists k :: k in questions && questions[k].topicId == topic && questions[k].questionNumber == n && Some(k) != exclude
  }

  /** `x` is what `SELECT MAX(question_number)` over the topic gives, with
      NULL (no question) read as 0. */
  ghost predicate IsMaxNumber(questions: map<string, QuestionRow>, topic: string, x: int)
  {
    && (forall k :: k in questions && questions[k].topicId == topic ==> questions[k].questionNumber <= x)
    && ((exists k :: k in questions && questions[k].topicId == topic && questions[k].questionNumber == x)
        || (x == 0 && forall k :: k in questions ==> questions[k].topicId != topic))
  }

  /** The number rule: the requested number when it is free, otherwise one
      more than the topic's largest. */
  ghost predicate ChosenNumber(questions: map<string, QuestionRow>, topic: string, requested: int, exclude: Option<string>, n: int)
  {
    if Occupied(questions, topic, requested, exclude) then IsMaxNumber(questions, topic, n - 1) else n == requested
  }

  /** The count query of the duplicate check. */
  method NumberTaken(questions: map<string, QuestionRow>, topic: string, n: int, exclude: Option<string>) returns (taken: bool)
    ensures taken <==> Occupied(questions, topic, n, exclude)
  {
    taken := false;
    var todo := questions.Keys;
    while todo != {}
      invariant todo <= questions.Keys
      invariant taken <==> exists k :: k in questions && k !in todo && questions[k].topicId == topic
                                     && questions[k].questionNumber == n && Some(k) != exclude
      decreases todo
    {
      var k :| k in todo;
      if questions[k].topicId == topic && questions[k].questionNumber == n && Some(k) != exclude {
        taken := true;
      }
      todo := todo - {k};
    }
  }

  /** The MAX query over the topic's numbers. */
  method MaxNumber(questions: map<string, QuestionRow>, topic: string) returns (mx: int)
    ensures IsMaxNumber(questions, topic, mx)
  {
    mx := 0;
    var any := false;
    var todo := questions.Keys;
    while todo != {}
      invariant todo <= questions.Keys
      invariant forall k :: k in questions && k !in todo && questions[k].topicId == topic ==> questions[k].questionNumber <= mx
      invariant any ==> exists k :: k in questions && questions[k].topicId == topic && questions[k].questionNumber == mx
      invariant !any ==> mx == 0 && forall k :: k in questions && k !in todo ==> questions[k].topicId != topic
      decreases todo
    {
      var k :| k in todo;
      if questions[k].topicId == topic && (!any || questions[k].questionNumber > mx) {
        mx := questions[k].questionNumber;
        any := true;
      }
      todo := todo - {k};
    }
  }

  /** The number `create` and `update` settle on. */
  method ChooseNumber(questions: map<string, QuestionRow>, topic: string, requested: int, exclude: Option<string>) returns (n: int)
    ensures ChosenNumber(questions, topic, requested, exclude, n)
    ensures !Occupied(questions, topic, n, exclude)
  {
    var taken := NumberTaken(questions, topic, requested, exclude);
    if taken {
      var mx := MaxNumber(questions, topic);
      n := mx + 1;
    } else {
      n := requested;
    }
  }

  /** The rule names a single number: the requested one or max+1. */
  lemma ChosenNumberUnique(questions: map<string, QuestionRow>, topic: string, requested: int, exclude: Option<string>, n1: int, n2: int)
    requires ChosenNumber(questions, topic, requested, exclude, n1)
    requires ChosenNumber(questions, topic, requested, exclude, n2)
    ensures n1 == n2
  {
  }

  /** Whatever number the rule picks, no other question of the topic has it. */
  lemma ChosenNumberIsFree(questions: map<string, QuestionRow>, topic: string, requested: int, exclude: Option<string>, n: int)
    requires ChosenNumber(questions, topic, requested, exclude, n)
    ensures !Occupied(questions, topic, n, exclude)
  {
    if Occupied(questions, topic, requested, exclude) {
      forall k | k in questions && questions[k].topicId == topic
        ensures questions[k].questionNumber != n
      {
        assert questions[k].questionNumber <= n - 1;
      }
    }
  }

  // ---- create ----

  /** The row `create` inserts; the sync columns take their defaults. */
  function NewQuestionRow(c: Codec, dto: CreateQuestionDto, number: int, now: string): QuestionRow
  {
    QuestionRow(dto.topicId, dto.subtopic, number, dto.question, c.encodeAnswer(dto.answer),
                Some(c.encodeStrings(dto.tags)), Some(dto.difficulty), dto.order, now, now, DefaultSync())
  }

  /** The question `create` returns. */
  function CreatedQuestion(id: string, dto: CreateQuestionDto, number: int, now: string): Question
  {
    Question(id, dto.topicId, dto.subtopic, number, dto.question, dto.answer, dto.tags,
             dto.difficulty, dto.order, now, now)
  }

  /** What `create` returns is what a later read of its row gives. */
  lemma CreatedQuestionReadsBack(c: Codec, id: string, dto: CreateQuestionDto, number: int, now: string)
    requires Lawful(c)
    ensures DecodeQuestion(c, id, NewQuestionRow(c, dto, number, now)) == Ok(CreatedQuestion(id, dto, number, now))
  {
    assert c.decodeAnswer(c.encodeAnswer(dto.answer)) == Some(dto.answer);
    assert c.decodeStrings(c.encodeStrings(dto.tags)) == Some(dto.tags);
  }

  /** `create`; `id` is the generated UUID and `now` the clock reading. Any
      row of the topic table counts as existing, soft-deleted or not. */
  method Create(db: Database, c: Codec, dto: CreateQuestionDto, id: string, now: string) returns (r: Result<Question, string>)
    modifies db
    ensures dto.topicId !in old(db.topics) ==>
      r == Err("Topic with id " + dto.topicId + " not found") && db.questions == old(db.questions)
    ensures dto.topicId in old(db.topics) && id in old(db.questions) ==> r == Err(DbError) && db.questions == old(db.questions)
    ensures dto.topicId in old(db.topics) && id !in old(db.questions) ==>
      exists n :: ChosenNumber(old(db.questions), dto.topicId, dto.questionNumber, None, n)
        && r == Ok(CreatedQuestion(id, dto, n, now))
        && db.questions == old(db.questions)[id := NewQuestionRow(c, dto, n, now)]
    ensures r.Ok? ==> !Occupied(old(db.questions), dto.topicId, r.value.questionNumber, None)
    ensures db.topics == old(db.topics) && db.progress == old(db.progress)
    ensures db.sessions == old(db.sessions) && db.checkpoint == old(db.checkpoint)
  {
    if dto.topicId !in db.topics {
      return Err("Topic with id " + dto.topicId + " not found");
    }
    var n := ChooseNumber(db.questions, dto.topicId, dto.questionNumber, None);
    if id in db.questions {
      return Err(DbError);
    }
    db.questions := db.questions[id := NewQuestionRow(c, dto, n, now)];
    r := Ok(CreatedQuestion(id, dto, n, now));
  }

  // ---- update ----

  /** The number `update` writes: recomputed by the number rule in the
      target topic, excluding the question itself, only when a number is
      requested and the topic or the number differs. */
  ghost predicate FinalNumber(questions: map<string, QuestionRow>, id: string, current: Question, newTopic: string,
                              requested: Option<int>, n: int)
  {
    if requested.Some? && (newTopic != current.topicId || requested.value != current.questionNumber)
    then ChosenNumber(questions, newTopic, requested.value, Some(id), n)
    else n == current.questionNumber
  }

  /** The row after `update`'s UPDATE statement; the sync columns are not
      touched. */
  function UpdatedQuestionRow(c: Codec, row: QuestionRow, dto: UpdateQuestionDto, number: int, now: string): QuestionRow
  {
    QuestionRow(
      dto.topicId.UnwrapOr(row.topicId),
      if dto.subtopic.Some? then dto.subtopic else row.subtopic,
      number,
      dto.question.UnwrapOr(row.question),
      if dto.answer.Some? then c.encodeAnswer(dto.answer.value) else row.answer,
      if dto.tags.Some? then Some(c.encodeStrings(dto.tags.value)) else row.tags,
      if dto.difficulty.Some? then dto.difficulty else row.difficulty,
      dto.order.UnwrapOr(row.orderIndex),
      row.createdAt, now, row.sync)
  }

  /** The question after an update: exactly the given fields replaced, the
      number as settled, `updated_at` refreshed. */
  function Patched(q: Question, dto: UpdateQuestionDto, number: int, now: string): Question
  {
    q.(topicId := dto.topicId.UnwrapOr(q.topicId),
       subtopic := if dto.subtopic.Some? then dto.subtopic else q.subtopic,
       questionNumber := number,
       question := dto.question.UnwrapOr(q.question),
       answer := dto.answer.UnwrapOr(q.answer),
       tags := dto.tags.UnwrapOr(q.tags),
       difficulty := dto.difficulty.UnwrapOr(q.difficulty),
       order := dto.order.UnwrapOr(q.order),
       updatedAt := now)
  }

  /** Reading the updated row back gives the old question with exactly the
      given fields replaced: the fields the dto leaves out keep the values
      they read as before, decoding defaults included. */
  lemma UpdateReadsBack(c: Codec, id: string, row: QuestionRow, dto: UpdateQuestionDto, number: int, now: string)
    requires Lawful(c)
    requires DecodeQuestion(c, id, row).Ok?
    ensures DecodeQuestion(c, id, UpdatedQuestionRow(c, row, dto, number, now))
      == Ok(Patched(DecodeQuestion(c, id, row).value, dto, number, now))
  {
    if dto.answer.Some? {
      assert c.decodeAnswer(c.encodeAnswer(dto.answer.value)) == Some(dto.answer.value);
    }
    if dto.tags.Some? {
      assert c.decodeStrings(c.encodeStrings(dto.tags.value)) == Some(dto.tags.value);
    }
  }

  /** `update`: None for an unknown id; a row that does not decode, or a
      move to a topic that does not exist, fails without a change;
      otherwise the SET clauses are applied and the row is read back. */
  method Update(db: Database, c: Codec, id: string, dto: UpdateQuestionDto, now: string)
    returns (r: Result<Option<Question>, string>, ghost number: int)
    modifies db
    ensures id !in old(db.questions) ==> r == Ok(None) && db.questions == old(db.questions)
    ensures id in old(db.questions) && DecodeQuestion(c, id, old(db.questions)[id]).Err? ==>
      r.Err? && db.questions == old(db.questions)
    ensures id in old(db.questions) && DecodeQuestion(c, id, old(db.questions)[id]).Ok? ==>
      var current := DecodeQuestion(c, id, old(db.questions)[id]).value;
      var target := dto.topicId.UnwrapOr(current.topicId);
      if target != current.topicId && target !in old(db.topics) then
        r == Err("Topic " + target + " not found") && db.questions == old(db.questions)
      else
        FinalNumber(old(db.questions), id, current, target, dto.questionNumber, number)
        && db.questions == old(db.questions)[id := UpdatedQuestionRow(c, old(db.questions)[id], dto, number, now)]
        && r == Ok(Some(DecodeQuestion(c, id, db.questions[id]).value))
    ensures db.topics == old(db.topics) && db.progress == old(db.progress)
    ensures db.sessions == old(db.sessions) && db.checkpoint == old(db.checkpoint)
  {
    number := 0;
    if id !in db.questions {
      return Ok(None), number;
    }
    var found := GetById(c, db.questions, id);
    if found.Err? {
      return Err(found.error), number;
    }
    var current := found.value.value;
    var target := dto.topicId.UnwrapOr(current.topicId);
    var moved := target != current.topicId;
    if moved && target !in db.topics {
      return Err("Topic " + target + " not found"), number;
    }
    var finalNumber := current.questionNumber;
    if dto.questionNumber.Some? {
      var requested := dto.questionNumber.value;
      if moved || requested != current.questionNumber {
        finalNumber := ChooseNumber(db.questions, target, requested, Some(id));
      }
    }
    number := finalNumber;
    db.questions := db.questions[id := UpdatedQuestionRow(c, db.questions[id], dto, finalNumber, now)];
    var after := GetById(c, db.questions, id);
    r := after;
  }

  /** A renumbered question never lands on a number another question of
      its target topic already has. */
  lemma UpdatedNumberIsFree(questions: map<string, QuestionRow>, id: string, current: Question, newTopic: string, requested: int, n: int)
    requires FinalNumber(questions, id, current, newTopic, Some(requested), n)
    requires newTopic != current.topicId || requested != current.questionNumber
    ensures !Occupied(questions, newTopic, n, Some(id))
  {
    ChosenNumberIsFree(questions, newTopic, requested, Some(id), n);
  }

  // ---- delete ----

  /** `delete` is a hard delete: true iff a row was removed. */
  method Delete(db: Database, id: string) returns (removed: bool)
    modifies db
    ensures removed <==> id in old(db.questions)
    ensures db.questions == old(db.questions) - {id}
    ensures db.topics == old(db.topics) && db.progress == old(db.progress)
    ensures db.sessions == old(db.sessions) && db.checkpoint == old(db.checkpoint)
  {
    removed := id in db.questions;
    db.questions := db.questions - {id};
  }
}
