// The question repository of the JSON-files backend: questions live in the
// file of their topic, numbers are allocated per topic, an update may move a
// question to another topic, and a delete renumbers what is left.
module OldQuestions {
  import opened Wrappers
  import opened Models
  import opened Ascii
  import opened Sorting
  import opened OldDb
  import Index

  // ---- reading ----

  /** `get_all`: the questions files of the topics, in topic order. */
  function AllQuestions(topics: seq<Topic>, files: map<string, seq<Question>>): seq<Question>
  {
    if topics == [] then [] else QuestionsOf(files, topics[0].id) + AllQuestions(topics[1..], files)
  }

  /** The first question with that id. */
  function FirstWithId(qs: seq<Question>, id: string): (r: Option<Question>)
    ensures r.None? <==> forall j :: 0 <= j < |qs| ==> qs[j].id != id
    ensures r.Some? ==> exists i :: (0 <= i < |qs| && r.value == qs[i]
                                     && forall j :: 0 <= j < i ==> qs[j].id != id)
    ensures r.Some? ==> r.value.id == id
  {
    var p := QuestionPosition(qs, id);
    if p.None? then None else Some(qs[p.value])
  }

  /** `get_by_id`: the first topic, in list order, whose file has the
      question, and the first match in that file. */
  function GetById(topics: seq<Topic>, files: map<string, seq<Question>>, id: string): (r: Option<Question>)
    ensures r.None? <==> Home(topics, files, id).None?
    ensures r.Some? ==> r.value.id == id
  {
    var h := Home(topics, files, id);
    if h.None? then None else FirstWithId(QuestionsOf(files, topics[h.value].id), id)
  }

  lemma FirstWithIdAppend(a: seq<Question>, b: seq<Question>, id: string)
    ensures FirstWithId(a + b, id) == if FirstWithId(a, id).Some? then FirstWithId(a, id) else FirstWithId(b, id)
  {
    var p := QuestionPosition(a + b, id);
    var pa := QuestionPosition(a, id);
    var pb := QuestionPosition(b, id);
    assert forall j :: 0 <= j < |a| ==> (a + b)[j] == a[j];
    assert forall j :: 0 <= j < |b| ==> (a + b)[|a| + j] == b[j];
    if pa.Some? {
      assert p.Some?;
      assert p.value == pa.value;
    } else if pb.Some? {
      assert (a + b)[|a| + pb.value].id == id;
      assert p.Some?;
      assert p.value == |a| + pb.value;
    } else {
      assert p.None?;
    }
  }

  lemma HomeTail(topics: seq<Topic>, files: map<string, seq<Question>>, id: string)
    requires topics != [] && QuestionPosition(QuestionsOf(files, topics[0].id), id).None?
    ensures GetById(topics, files, id) == GetById(topics[1..], files, id)
  {
    var h := Home(topics, files, id);
    var t := Home(topics[1..], files, id);
    assert forall j :: 1 <= j < |topics| ==> topics[j] == topics[1..][j - 1];
    if h.Some? {
      assert h.value > 0;
      assert t.Some?;
      assert t.value == h.value - 1;
    } else {
      assert t.None?;
    }
  }

  /** `get_by_id` finds the same question as the first match in `get_all`. */
  lemma {:induction false} GetByIdIsFirstOfAll(topics: seq<Topic>, files: map<string, seq<Question>>, id: string)
    ensures GetById(topics, files, id) == FirstWithId(AllQuestions(topics, files), id)
  {
    if topics != [] {
      var first := QuestionsOf(files, topics[0].id);
      FirstWithIdAppend(first, AllQuestions(topics[1..], files), id);
      if QuestionPosition(first, id).Some? {
        assert Home(topics, files, id) == Some(0);
      } else {
        HomeTail(topics, files, id);
        GetByIdIsFirstOfAll(topics[1..], files, id);
      }
    }
  }

  // ---- question numbers ----

  /** The duplicate check: some question other than `exclude` already has
      number `n`. */
  predicate NumberTaken(qs: seq<Question>, n: int, exclude: Option<string>)
  {
    exists i :: 0 <= i < |qs| && (exclude.None? || qs[i].id != exclude.value) && qs[i].questionNumber == n
  }

  /** `map(|q| q.question_number).max().unwrap_or(0)`. */
  function MaxNumber(qs: seq<Question>): (m: int)
    ensures forall i :: 0 <= i < |qs| ==> qs[i].questionNumber <= m
    ensures qs == [] ==> m == 0
    ensures qs != [] ==> exists i :: 0 <= i < |qs| && qs[i].questionNumber == m
  {
    if qs == [] then 0
    else if |qs| == 1 then qs[0].questionNumber
    else
      var rest := MaxNumber(qs[1..]);
      assert forall i :: 1 <= i < |qs| ==> qs[i] == qs[1..][i - 1];
      if qs[0].questionNumber > rest then qs[0].questionNumber else rest
  }

  /** The number a create or update ends up with: the requested one unless
      it is taken, otherwise one more than the largest. */
  function Allocated(qs: seq<Question>, requested: int, exclude: Option<string>): int
  {
    if NumberTaken(qs, requested, exclude) then MaxNumber(qs) + 1 else requested
  }

  /** The allocated number is the requested one exactly when that is free,
      and no question other than `exclude` has it. */
  lemma AllocatedIsFree(qs: seq<Question>, requested: int, exclude: Option<string>)
    ensures (Allocated(qs, requested, exclude) == requested) <==> !NumberTaken(qs, requested, exclude)
    ensures !NumberTaken(qs, Allocated(qs, requested, exclude), exclude)
  {
    if NumberTaken(qs, requested, exclude) {
      var i :| 0 <= i < |qs| && (exclude.None? || qs[i].id != exclude.value) && qs[i].questionNumber == requested;
      assert requested <= MaxNumber(qs);
    }
  }

  // ---- create ----

  function NewQuestion(dto: CreateQuestionDto, id: string, number: int, now: string): Question
  {
    Question(id, dto.topicId, dto.subtopic, number, dto.question, dto.answer, dto.tags,
             dto.difficulty, dto.order, now, now)
  }

  /** `create`: fails for an unknown topic; otherwise appends the question,
      numbered by `Allocated`, to the topic's file. */
  method Create(db: LazyDatabase, dto: CreateQuestionDto, id: string, now: string)
    returns (r: Result<Question, string>)
    requires db.Valid()
    modifies db, db.index
    ensures db.Valid() && db.index == old(db.index)
    ensures r.Err? <==> TopicPosition(old(db.topics), dto.topicId).None?
    ensures r.Err? ==>
      && r.error == "Topic with id " + dto.topicId + " not found"
      && db.files == old(db.files) && db.index.topicsIndex == old(db.index.topicsIndex)
      && db.index.globalTags == old(db.index.globalTags)
    ensures r.Ok? ==>
      && r.value == NewQuestion(dto, id, Allocated(QuestionsOf(old(db.files), dto.topicId), dto.questionNumber, None), now)
      && db.files == old(db.files)[dto.topicId := QuestionsOf(old(db.files), dto.topicId) + [r.value]]
      && db.index.topicsIndex == old(db.index.topicsIndex)[dto.topicId := EntryFor(db.topics, dto.topicId, db.files[dto.topicId], now)]
      && db.index.globalTags == Index.Retagged(old(db.index.globalTags), dto.topicId, db.files[dto.topicId])
    ensures db.topics == old(db.topics) && db.progress == old(db.progress)
    ensures db.sessions == old(db.sessions) && db.sessionIds == old(db.sessionIds)
  {
    if TopicPosition(db.topics, dto.topicId).None? {
      return Err("Topic with id " + dto.topicId + " not found");
    }
    var questions := QuestionsOf(db.files, dto.topicId);
    var isDuplicate := NumberTaken(questions, dto.questionNumber, None);
    var number := if isDuplicate then MaxNumber(questions) + 1 else dto.questionNumber;
    var question := NewQuestion(dto, id, number, now);
    db.SaveTopicQuestions(dto.topicId, questions + [question], now);
    r := Ok(question);
  }

  // ---- update ----

  /** The question after `update`: the `Some` fields replaced (the subtopic
      wrapped in `Some`), the allocated number if one was requested, the new
      topic id when the topic changes, and `updated_at` refreshed. */
  function Patched(q: Question, dto: UpdateQuestionDto, number: Option<int>, moveTo: Option<string>, now: string): Question
  {
    Question(q.id, moveTo.UnwrapOr(q.topicId),
             if dto.subtopic.Some? then dto.subtopic else q.subtopic,
             number.UnwrapOr(q.questionNumber), dto.question.UnwrapOr(q.question),
             dto.answer.UnwrapOr(q.answer), dto.tags.UnwrapOr(q.tags),
             dto.difficulty.UnwrapOr(q.difficulty), dto.order.UnwrapOr(q.order),
             q.createdAt, now)
  }

  /** Every question of the list but the ones with that id. */
  function Removed(qs: seq<Question>, id: string): (r: seq<Question>)
    ensures forall i :: 0 <= i < |r| ==> r[i].id != id && r[i] in qs
    ensures forall i :: 0 <= i < |qs| && qs[i].id != id ==> qs[i] in r
    ensures (exists i :: 0 <= i < |qs| && qs[i].id == id) ==> |r| < |qs|
  {
    Filter(qs, (q: Question) => q.id != id)
  }

  /** The number `update` writes: none when none is requested; otherwise
      the requested one unless another question of the target topic has it. */
  function FinalNumber(target: seq<Question>, dto: UpdateQuestionDto, id: string): Option<int>
  {
    if dto.questionNumber.None? then None else Some(Allocated(target, dto.questionNumber.value, Some(id)))
  }

  /** The outcome of `update` on the question files: the new files and the
      result. */
  function Updated(topics: seq<Topic>, files: map<string, seq<Question>>, id: string, dto: UpdateQuestionDto, now: string)
    : (map<string, seq<Question>>, Result<Option<Question>, string>)
  {
    var h := Home(topics, files, id);
    if h.None? then (files, Ok(None))
    else UpdatedFrom(topics, files, id, dto, now, topics[h.value].id)
  }

  /** `update` of a question whose file is that of topic `from`. */
  function UpdatedFrom(topics: seq<Topic>, files: map<string, seq<Question>>, id: string, dto: UpdateQuestionDto,
                       now: string, from: string)
    : (map<string, seq<Question>>, Result<Option<Question>, string>)
    requires QuestionPosition(QuestionsOf(files, from), id).Some?
  {
    var to := dto.topicId.UnwrapOr(from);
    if to != from && TopicPosition(topics, to).None? then
      (files, Err("Target topic with id " + to + " not found"))
    else if to != from then Moved(files, id, dto, now, from, to)
    else UpdatedInPlace(files, id, dto, now, from)
  }

  /** A topic change: the patched question, numbered against the target
      topic, leaves the old file and goes to the end of the target's. */
  function Moved(files: map<string, seq<Question>>, id: string, dto: UpdateQuestionDto, now: string,
                 from: string, to: string)
    : (map<string, seq<Question>>, Result<Option<Question>, string>)
    requires QuestionPosition(QuestionsOf(files, from), id).Some?
  {
    var oldQs := QuestionsOf(files, from);
    var k := QuestionPosition(oldQs, id).value;
    var q := Patched(oldQs[k], dto, FinalNumber(QuestionsOf(files, to), dto, id), Some(to), now);
    (files[from := Removed(oldQs, id)][to := QuestionsOf(files, to) + [q]], Ok(Some(q)))
  }

  /** No topic change: the patched question, numbered against its own
      topic, replaces the first one with that id. */
  function UpdatedInPlace(files: map<string, seq<Question>>, id: string, dto: UpdateQuestionDto, now: string,
                          from: string)
    : (map<string, seq<Question>>, Result<Option<Question>, string>)
    requires QuestionPosition(QuestionsOf(files, from), id).Some?
  {
    var oldQs := QuestionsOf(files, from);
    var k := QuestionPosition(oldQs, id).value;
    var q := Patched(oldQs[k], dto, FinalNumber(oldQs, dto, id), None, now);
    (files[from := oldQs[k := q]], Ok(Some(q)))
  }

  /** The topics `update` saves, in the order it saves them: none for an
      unknown question; otherwise as `SavesFrom` for its home topic. */
  function SavesOf(topics: seq<Topic>, files: map<string, seq<Question>>, id: string, dto: UpdateQuestionDto): seq<string>
  {
    var h := Home(topics, files, id);
    if h.None? then [] else SavesFrom(topics, dto, topics[h.value].id)
  }

  /** None when the target topic is missing, the old topic and then the
      target on a move, the home topic alone otherwise. */
  function SavesFrom(topics: seq<Topic>, dto: UpdateQuestionDto, from: string): seq<string>
  {
    var to := dto.topicId.UnwrapOr(from);
    if to != from && TopicPosition(topics, to).None? then []
    else if to != from then [from, to]
    else [from]
  }

  /** `update` saves a topic only when it returns a question, saves no topic
      twice, and every file it changes belongs to a saved topic. */
  lemma SavesMatchUpdate(topics: seq<Topic>, files: map<string, seq<Question>>, id: string,
                         dto: UpdateQuestionDto, now: string)
    ensures var (f, r) := Updated(topics, files, id, dto, now);
            var s := SavesOf(topics, files, id, dto);
            && (s == [] <==> !(r.Ok? && r.value.Some?))
            && (forall i, j :: 0 <= i < j < |s| ==> s[i] != s[j])
            && (forall k :: k in f && (k !in files || f[k] != files[k]) ==> k in s)
  {
    var h := Home(topics, files, id);
    if h.Some? {
      var from := topics[h.value].id;
      var to := dto.topicId.UnwrapOr(from);
      if to != from && TopicPosition(topics, to).Some? {
        var oldQs := QuestionsOf(files, from);
        var k := QuestionPosition(oldQs, id).value;
        var q := Patched(oldQs[k], dto, FinalNumber(QuestionsOf(files, to), dto, id), Some(to), now);
        assert Updated(topics, files, id, dto, now) == Moved(files, id, dto, now, from, to);
        assert Moved(files, id, dto, now, from, to).0 == files[from := Removed(oldQs, id)][to := QuestionsOf(files, to) + [q]];
      } else if to == from {
        assert Updated(topics, files, id, dto, now) == UpdatedInPlace(files, id, dto, now, from);
      }
    }
  }

  /** The field writes of `update`, in the order the source makes them. */
  method Patch(q: Question, dto: UpdateQuestionDto, number: Option<int>, now: string) returns (p: Question)
    ensures p == Patched(q, dto, number, None, now)
  {
    p := q;
    if dto.subtopic.Some? {
      p := p.(subtopic := Some(dto.subtopic.value));
    }
    if number.Some? {
      p := p.(questionNumber := number.value);
    }
    if dto.question.Some? {
      p := p.(question := dto.question.value);
    }
    if dto.answer.Some? {
      p := p.(answer := dto.answer.value);
    }
    if dto.tags.Some? {
      p := p.(tags := dto.tags.value);
    }
    if dto.difficulty.Some? {
      p := p.(difficulty := dto.difficulty.value);
    }
    if dto.order.Some? {
      p := p.(order := dto.order.value);
    }
    p := p.(updatedAt := now);
  }

  /** The move branch of `update`: the old file loses the question, the
      target file gains it at the end, and both are re-indexed. */
  method Move(db: LazyDatabase, from: string, to: string, rest: seq<Question>, q: Question, now: string)
    requires db.Valid() && from != to
    modifies db, db.index
    ensures db.Valid() && db.index == old(db.index)
    ensures db.files == old(db.files)[from := rest][to := QuestionsOf(old(db.files), to) + [q]]
    ensures db.index.topicsIndex == Reindexed(old(db.index.topicsIndex), db.topics, db.files, {from, to}, now)
    ensures db.index.globalTags == SavedTags(old(db.index.globalTags), db.files, [from, to])
    ensures db.topics == old(db.topics) && db.progress == old(db.progress)
    ensures db.sessions == old(db.sessions) && db.sessionIds == old(db.sessionIds)
  {
    ghost var entries := db.index.topicsIndex;
    db.SaveTopicQuestions(from, rest, now);
    var newQuestions := QuestionsOf(db.files, to);
    db.SaveTopicQuestions(to, newQuestions + [q], now);
    ReindexedPair(entries, db.topics, db.files, from, to, now);
    SavedTagsSnoc(old(db.index.globalTags), old(db.files), [], from, rest);
    SavedTagsSnoc(old(db.index.globalTags), old(db.files)[from := rest], [from], to, newQuestions + [q]);
  }

  /** `update`: locate the question; the rest is `UpdateIn`. */
  method Update(db: LazyDatabase, id: string, dto: UpdateQuestionDto, now: string)
    returns (r: Result<Option<Question>, string>, ghost saved: seq<string>)
    requires db.Valid()
    modifies db, db.index
    ensures db.Valid() && db.index == old(db.index)
    ensures (db.files, r) == Updated(old(db.topics), old(db.files), id, dto, now)
    ensures saved == SavesOf(old(db.topics), old(db.files), id, dto)
    ensures db.index.topicsIndex == Reindexed(old(db.index.topicsIndex), db.topics, db.files, (set k | k in saved), now)
    ensures db.index.globalTags == SavedTags(old(db.index.globalTags), db.files, saved)
    ensures forall k :: k in db.files && k !in saved ==> k in old(db.files) && db.files[k] == old(db.files)[k]
    ensures db.topics == old(db.topics) && db.progress == old(db.progress)
    ensures db.sessions == old(db.sessions) && db.sessionIds == old(db.sessionIds)
  {
    var h := Home(db.topics, db.files, id);
    if h.None? {
      saved := [];
      return Ok(None), saved;
    }
    r, saved := UpdateIn(db, id, dto, now, db.topics[h.value].id);
  }

  /** The rest of `update`: check the target topic, allocate the number
      against the target topic's list, patch the question, and either
      rewrite it in place or move it to the end of the target topic's file. */
  method UpdateIn(db: LazyDatabase, id: string, dto: UpdateQuestionDto, now: string, from: string)
    returns (r: Result<Option<Question>, string>, ghost saved: seq<string>)
    requires db.Valid() && QuestionPosition(QuestionsOf(db.files, from), id).Some?
    modifies db, db.index
    ensures db.Valid() && db.index == old(db.index)
    ensures (db.files, r) == UpdatedFrom(old(db.topics), old(db.files), id, dto, now, from)
    ensures saved == SavesFrom(old(db.topics), dto, from)
    ensures db.index.topicsIndex == Reindexed(old(db.index.topicsIndex), db.topics, db.files, (set k | k in saved), now)
    ensures db.index.globalTags == SavedTags(old(db.index.globalTags), db.files, saved)
    ensures forall k :: k in db.files && k !in saved ==> k in old(db.files) && db.files[k] == old(db.files)[k]
    ensures db.topics == old(db.topics) && db.progress == old(db.progress)
    ensures db.sessions == old(db.sessions) && db.sessionIds == old(db.sessionIds)
  {
    var to := dto.topicId.UnwrapOr(from);
    var changed := to != from;
    if changed && TopicPosition(db.topics, to).None? {
      saved := [];
      return Err("Target topic with id " + to + " not found"), saved;
    }
    if changed {
      r, saved := ApplyMove(db, id, dto, now, from, to);
    } else {
      r, saved := ApplyInPlace(db, id, dto, now, from);
    }
  }

  /** The number `update` computes against the target list. */
  method NumberFor(target: seq<Question>, dto: UpdateQuestionDto, id: string) returns (finalNumber: Option<int>)
    ensures finalNumber == FinalNumber(target, dto, id)
  {
    finalNumber := None;
    if dto.questionNumber.Some? {
      var isDuplicate := NumberTaken(target, dto.questionNumber.value, Some(id));
      finalNumber := Some(if isDuplicate then MaxNumber(target) + 1 else dto.questionNumber.value);
    }
  }

  lemma PairKeys(a: string, b: string)
    ensures (set k | k in [a, b]) == {a, b}
  {
    assert forall k :: k in [a, b] <==> k == a || k == b;
  }

  /** The topic-change branch of `update`. */
  method ApplyMove(db: LazyDatabase, id: string, dto: UpdateQuestionDto, now: string, from: string, to: string)
    returns (r: Result<Option<Question>, string>, ghost saved: seq<string>)
    requires db.Valid() && from != to && QuestionPosition(QuestionsOf(db.files, from), id).Some?
    modifies db, db.index
    ensures db.Valid() && db.index == old(db.index)
    ensures (db.files, r) == Moved(old(db.files), id, dto, now, from, to)
    ensures saved == [from, to]
    ensures db.index.topicsIndex == Reindexed(old(db.index.topicsIndex), db.topics, db.files, (set k | k in saved), now)
    ensures db.index.globalTags == SavedTags(old(db.index.globalTags), db.files, saved)
    ensures forall k :: k in db.files && k !in saved ==> k in old(db.files) && db.files[k] == old(db.files)[k]
    ensures db.topics == old(db.topics) && db.progress == old(db.progress)
    ensures db.sessions == old(db.sessions) && db.sessionIds == old(db.sessionIds)
  {
    var oldQuestions := QuestionsOf(db.files, from);
    var finalNumber := NumberFor(QuestionsOf(db.files, to), dto, id);
    var k := QuestionPosition(oldQuestions, id).value;
    var question := Patch(oldQuestions[k], dto, finalNumber, now);
    question := question.(topicId := to);
    Move(db, from, to, Removed(oldQuestions, id), question, now);
    saved := [from, to];
    PairKeys(from, to);
    r := Ok(Some(question));
  }

  /** The same-topic branch of `update`. */
  method ApplyInPlace(db: LazyDatabase, id: string, dto: UpdateQuestionDto, now: string, from: string)
    returns (r: Result<Option<Question>, string>, ghost saved: seq<string>)
    requires db.Valid() && QuestionPosition(QuestionsOf(db.files, from), id).Some?
    modifies db, db.index
    ensures db.Valid() && db.index == old(db.index)
    ensures (db.files, r) == UpdatedInPlace(old(db.files), id, dto, now, from)
    ensures saved == [from]
    ensures db.index.topicsIndex == Reindexed(old(db.index.topicsIndex), db.topics, db.files, (set k | k in saved), now)
    ensures db.index.globalTags == SavedTags(old(db.index.globalTags), db.files, saved)
    ensures forall k :: k in db.files && k !in saved ==> k in old(db.files) && db.files[k] == old(db.files)[k]
    ensures db.topics == old(db.topics) && db.progress == old(db.progress)
    ensures db.sessions == old(db.sessions) && db.sessionIds == old(db.sessionIds)
  {
    var oldQuestions := QuestionsOf(db.files, from);
    var finalNumber := NumberFor(oldQuestions, dto, id);
    var k := QuestionPosition(oldQuestions, id).value;
    var question := Patch(oldQuestions[k], dto, finalNumber, now);
    db.SaveTopicQuestions(from, oldQuestions[k := question], now);
    ReindexedOne(old(db.index.topicsIndex), db.topics, db.files, from, now);
    saved := [from];
    assert (set k | k in saved) == {from} by {
      assert forall k :: k in saved <==> k == from;
    }
    assert saved[..0] == [];
    r := Ok(Some(question));
  }


  /** A topic change takes the question out of its old file, appends it to
      the target's file, and the number it ends up with is one no other
      question of the target topic has. */
  lemma MoveProperties(topics: seq<Topic>, files: map<string, seq<Question>>, id: string,
                                          dto: UpdateQuestionDto, now: string, from: string)
    requires QuestionPosition(QuestionsOf(files, from), id).Some?
    requires dto.topicId.Some? && dto.topicId.value != from && TopicPosition(topics, dto.topicId.value).Some?
    ensures UpdatedFrom(topics, files, id, dto, now, from).1.Ok?
    ensures var (f, r) := UpdatedFrom(topics, files, id, dto, now, from);
            var to := dto.topicId.value;
            && r.value.Some? && r.value.value.id == id && r.value.value.topicId == to
            && (forall i :: 0 <= i < |f[from]| ==> f[from][i].id != id)
            && f[to] == QuestionsOf(files, to) + [r.value.value]
            && (dto.questionNumber.Some? ==> !NumberTaken(QuestionsOf(files, to), r.value.value.questionNumber, Some(id)))
  {
    var to := dto.topicId.value;
    if dto.questionNumber.Some? {
      AllocatedIsFree(QuestionsOf(files, to), dto.questionNumber.value, Some(id));
    }
  }

  /** An update within the topic rewrites the question at its place, keeps
      its id and topic, and leaves every other question of the file as it
      was. */
  lemma InPlaceProperties(topics: seq<Topic>, files: map<string, seq<Question>>, id: string,
                          dto: UpdateQuestionDto, now: string, from: string)
    requires QuestionPosition(QuestionsOf(files, from), id).Some?
    requires dto.topicId.None? || dto.topicId.value == from
    ensures var (f, r) := UpdatedFrom(topics, files, id, dto, now, from);
            var prev := QuestionsOf(files, from);
            var k := QuestionPosition(prev, id).value;
            && r.Ok? && r.value.Some? && r.value.value.id == id && r.value.value.topicId == prev[k].topicId
            && |f[from]| == |prev| && f[from][k] == r.value.value
            && (forall i :: 0 <= i < |prev| && i != k ==> f[from][i] == prev[i])
            && (dto.questionNumber.Some? ==> !NumberTaken(prev, r.value.value.questionNumber, Some(id)))
            && f.Keys == files.Keys + {from}
  {
    var prev := QuestionsOf(files, from);
    if dto.questionNumber.Some? {
      AllocatedIsFree(prev, dto.questionNumber.value, Some(id));
    }
  }

  // ---- delete ----

  /** The key of `sort_by_key(|q| q.order)`. */
  function QuestionOrder(q: Question): int
  {
    q.order
  }

  /** The renumbering of `delete`: the question at position `i` gets
      `(i + 1) as i32`. */
  function Renumbered(qs: seq<Question>): (r: seq<Question>)
    ensures |r| == |qs|
    ensures forall i :: 0 <= i < |qs| ==> r[i] == qs[i].(questionNumber := AsI32(i + 1))
  {
    seq(|qs|, i requires 0 <= i < |qs| => qs[i].(questionNumber := AsI32(i + 1)))
  }

  /** The renumber loop over `iter_mut().enumerate()`. */
  method Renumber(qs: seq<Question>) returns (r: seq<Question>)
    ensures r == Renumbered(qs)
  {
    r := qs;
    var i := 0;
    while i < |r|
      invariant 0 <= i <= |r| == |qs|
      invariant forall j :: 0 <= j < i ==> r[j] == qs[j].(questionNumber := AsI32(j + 1))
      invariant forall j :: i <= j < |r| ==> r[j] == qs[j]
    {
      r := r[i := r[i].(questionNumber := AsI32(i + 1))];
      i := i + 1;
    }
  }

  /** The file `delete` writes back: the other questions, sorted by order
      and renumbered. */
  function AfterDelete(qs: seq<Question>, id: string): seq<Question>
  {
    Renumbered(SortBy(Removed(qs, id), QuestionOrder))
  }

  /** `delete`: `false` and no change for a question in no topic; otherwise
      its topic's file loses it, the rest is sorted by order and renumbered
      from 1, and the topic is re-indexed. */
  method Delete(db: LazyDatabase, id: string, now: string) returns (found: bool)
    requires db.Valid()
    modifies db, db.index
    ensures db.Valid() && db.index == old(db.index)
    ensures found <==> Home(old(db.topics), old(db.files), id).Some?
    ensures !found ==> db.files == old(db.files) && db.index.topicsIndex == old(db.index.topicsIndex)
                       && db.index.globalTags == old(db.index.globalTags)
    ensures found ==>
      var from := old(db.topics)[Home(old(db.topics), old(db.files), id).value].id;
      && db.files == old(db.files)[from := AfterDelete(QuestionsOf(old(db.files), from), id)]
      && db.index.topicsIndex == Reindexed(old(db.index.topicsIndex), db.topics, db.files, {from}, now)
      && db.index.globalTags == Index.Retagged(old(db.index.globalTags), from, db.files[from])
    ensures db.topics == old(db.topics) && db.progress == old(db.progress)
    ensures db.sessions == old(db.sessions) && db.sessionIds == old(db.sessionIds)
  {
    var h := Home(db.topics, db.files, id);
    if h.None? {
      return false;
    }
    var from := db.topics[h.value].id;
    var questions := QuestionsOf(db.files, from);
    var rest := Removed(questions, id);
    // the `len() == initial_len` branch cannot be taken: the scan found the id
    assert |rest| < |questions|;
    var sorted := SortBy(rest, QuestionOrder);
    var renumbered := Renumber(sorted);
    db.SaveTopicQuestions(from, renumbered, now);
    ReindexedOne(old(db.index.topicsIndex), db.topics, db.files, from, now);
    found := true;
  }

  /** After a delete the file holds none of that id, is ordered by `order`,
      is numbered 1, 2, ... in file order, and still holds every other
      question, up to its number. */
  lemma DeleteProperties(qs: seq<Question>, id: string)
    requires exists i :: 0 <= i < |qs| && qs[i].id == id
    requires |qs| < 0x8000_0000
    ensures var r := AfterDelete(qs, id);
            && |r| < |qs|
            && (forall i :: 0 <= i < |r| ==> r[i].id != id && r[i].questionNumber == i + 1)
            && SortedBy(r, QuestionOrder)
            && (forall i :: 0 <= i < |qs| && qs[i].id != id ==>
                  exists j :: 0 <= j < |r| && r[j] == qs[i].(questionNumber := j + 1))
  {
    var rest := Removed(qs, id);
    var sorted := SortBy(rest, QuestionOrder);
    var r := AfterDelete(qs, id);
    SortBySorted(rest, QuestionOrder);
    forall i | 0 <= i < |r| ensures r[i].id != id {
      assert sorted[i] in multiset(rest);
    }
    forall i, j | 0 <= i < j < |r| ensures QuestionOrder(r[i]) <= QuestionOrder(r[j]) {
      assert QuestionOrder(sorted[i]) <= QuestionOrder(sorted[j]);
    }
    forall i | 0 <= i < |qs| && qs[i].id != id
      ensures exists j :: 0 <= j < |r| && r[j] == qs[i].(questionNumber := j + 1)
    {
      assert qs[i] in multiset(sorted);
      var j :| 0 <= j < |sorted| && sorted[j] == qs[i];
      assert r[j] == qs[i].(questionNumber := j + 1);
    }
  }

  // ---- search ----

  /** The matching rule of `search`: the lowercased keyword occurs in the
      lowercased question text or answer. */
  ghost predicate QuestionMatches(q: Question, keyword: string)
  {
    Occurs(Lower(q.question), Lower(keyword)) || Occurs(Lower(q.answer), Lower(keyword))
  }

  /** `search`: the matching questions of `get_all`, in its order. */
  function Search(topics: seq<Topic>, files: map<string, seq<Question>>, keyword: string): (r: seq<Question>)
    ensures |r| <= |AllQuestions(topics, files)|
    ensures forall i :: 0 <= i < |r| ==> r[i] in AllQuestions(topics, files) && QuestionMatches(r[i], keyword)
    ensures forall i :: 0 <= i < |AllQuestions(topics, files)| && QuestionMatches(AllQuestions(topics, files)[i], keyword)
              ==> AllQuestions(topics, files)[i] in r
  {
    var k := Lower(keyword);
    Filter(AllQuestions(topics, files), (q: Question) => Contains(Lower(q.question), k) || Contains(Lower(q.answer), k))
  }

  /** The empty keyword matches every question, and the keyword's case does
      not matter. */
  lemma SearchProperties(topics: seq<Topic>, files: map<string, seq<Question>>, keyword: string)
    ensures Search(topics, files, "") == AllQuestions(topics, files)
    ensures Search(topics, files, Lower(keyword)) == Search(topics, files, keyword)
  {
    forall s: string ensures Contains(s, "") {
      assert MatchAt(s, "", 0);
    }
    assert Lower(Lower(keyword)) == Lower(keyword);
  }
}
