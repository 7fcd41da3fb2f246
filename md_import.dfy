// `import_from_markdown` of the JSON-files backend: every topic the markdown
// parser finds becomes a new topic, and every question parsed under it is
// created in that topic through the question repository.
module MdImport {
  import opened Wrappers
  import opened Models
  import opened OldDb
  import opened Markdown
  import opened Slug
  import Ascii
  import OldTopics
  import OldQuestions
  import Index

  datatype QuestionImportDetail = QuestionImportDetail(questionId: string, questionNumber: int, question: string)

  datatype TopicImportDetail = TopicImportDetail(
    topicId: string, topicName: string, questionsCount: nat, questions: seq<QuestionImportDetail>)

  datatype ImportResult = ImportResult(
    success: bool, topicsImported: nat, questionsImported: nat, message: string,
    errors: seq<string>, topicsDetails: seq<TopicImportDetail>)

  /** The book emoji every imported topic gets as its icon. */
  const BooksIcon: string := "\U{1F4DA}"
  const ImportColor: string := "#3B82F6"

  /** The topic dto `import_topic` builds from a parsed topic's name. */
  function TopicDtoFor(name: string): CreateTopicDto
  {
    CreateTopicDto(name, "Imported topic: " + name, GenerateSlug(name), BooksIcon, ImportColor, None, 0)
  }

  /** The question dto `import_topic` builds for one parsed question: tagged
      with the topic's name, of intermediate difficulty, ordered by its
      number. */
  function QuestionDtoFor(topicId: string, name: string, q: ParsedQuestion): CreateQuestionDto
  {
    CreateQuestionDto(topicId, None, q.questionNumber, q.question, q.answer, [name], "intermediate", q.questionNumber)
  }

  /** The questions file of a topic after its parsed questions were created
      one after the other in the new, empty topic; question `i` gets the id
      `questionId(i)`. */
  function Imported(topicId: string, name: string, qs: seq<ParsedQuestion>, questionId: int -> string, now: string): (r: seq<Question>)
    ensures |r| == |qs|
    decreases |qs|
  {
    if qs == [] then []
    else
      var before := Imported(topicId, name, qs[..|qs| - 1], questionId, now);
      var q := qs[|qs| - 1];
      before + [OldQuestions.NewQuestion(QuestionDtoFor(topicId, name, q), questionId(|qs| - 1),
                                         OldQuestions.Allocated(before, q.questionNumber, None), now)]
  }

  /** Every imported question carries the text, the answer and the order of
      the parsed question it came from, the topic's name as its only tag, the
      id it was given and the import time. */
  lemma {:induction false} ImportedFields(topicId: string, name: string, qs: seq<ParsedQuestion>, questionId: int -> string, now: string)
    ensures var r := Imported(topicId, name, qs, questionId, now);
      forall i :: 0 <= i < |qs| ==>
        && r[i].id == questionId(i) && r[i].topicId == topicId && r[i].subtopic == None
        && r[i].question == qs[i].question && r[i].answer == qs[i].answer
        && r[i].tags == [name] && r[i].difficulty == "intermediate" && r[i].order == qs[i].questionNumber
        && r[i].createdAt == now && r[i].updatedAt == now
    decreases |qs|
  {
    if qs != [] {
      var front := qs[..|qs| - 1];
      ImportedFields(topicId, name, front, questionId, now);
      var before := Imported(topicId, name, front, questionId, now);
      var r := Imported(topicId, name, qs, questionId, now);
      forall i | 0 <= i < |qs| - 1
        ensures r[i] == before[i] && qs[i] == front[i]
      {
      }
    }
  }

  /** No two questions share a number. */
  predicate NumbersDistinct(qs: seq<Question>)
  {
    forall i, j :: 0 <= i < j < |qs| ==> qs[i].questionNumber != qs[j].questionNumber
  }

  /** Importing never gives two questions of a topic the same number: a
      number already taken is moved past the largest. */
  lemma {:induction false} ImportedNumbersDistinct(topicId: string, name: string, qs: seq<ParsedQuestion>, questionId: int -> string, now: string)
    ensures NumbersDistinct(Imported(topicId, name, qs, questionId, now))
    decreases |qs|
  {
    if qs != [] {
      var before := Imported(topicId, name, qs[..|qs| - 1], questionId, now);
      var q := qs[|qs| - 1];
      ImportedNumbersDistinct(topicId, name, qs[..|qs| - 1], questionId, now);
      var last := OldQuestions.Allocated(before, q.questionNumber, None);
      OldQuestions.AllocatedIsFree(before, q.questionNumber, None);
      var r := Imported(topicId, name, qs, questionId, now);
      assert r == before + [r[|qs| - 1]] && r[|qs| - 1].questionNumber == last;
      forall i, j | 0 <= i < j < |r|
        ensures r[i].questionNumber != r[j].questionNumber
      {
        assert r[i] == before[i];
        if j == |qs| - 1 {
          assert r[j].questionNumber == last;
          assert !(before[i].questionNumber == last);
        } else {
          assert r[j] == before[j];
          assert before[i].questionNumber != before[j].questionNumber;
        }
      }
    }
  }

  /** When the parsed numbers are already distinct, every question keeps the
      number it was written with. */
  lemma {:induction false} ImportedKeepsNumbers(topicId: string, name: string, qs: seq<ParsedQuestion>, questionId: int -> string, now: string)
    requires forall i, j :: 0 <= i < j < |qs| ==> qs[i].questionNumber != qs[j].questionNumber
    ensures var r := Imported(topicId, name, qs, questionId, now);
            forall i :: 0 <= i < |qs| ==> r[i].questionNumber == qs[i].questionNumber
    decreases |qs|
  {
    if qs != [] {
      var front := qs[..|qs| - 1];
      var before := Imported(topicId, name, front, questionId, now);
      var q := qs[|qs| - 1];
      ImportedKeepsNumbers(topicId, name, front, questionId, now);
      OldQuestions.AllocatedIsFree(before, q.questionNumber, None);
      assert !OldQuestions.NumberTaken(before, q.questionNumber, None) by {
        forall k | 0 <= k < |before|
          ensures before[k].questionNumber != q.questionNumber
        {
          assert before[k].questionNumber == front[k].questionNumber == qs[k].questionNumber;
        }
      }
      var r := Imported(topicId, name, qs, questionId, now);
      forall i | 0 <= i < |qs| - 1
        ensures r[i].questionNumber == qs[i].questionNumber
      {
        assert r[i] == before[i] && front[i] == qs[i];
      }
    }
  }

  /** The details of the questions created, in order: the id each got and
      the number and text it was parsed with. */
  function QuestionDetails(qs: seq<ParsedQuestion>, questionId: int -> string): (r: seq<QuestionImportDetail>)
    ensures |r| == |qs|
    ensures forall i :: 0 <= i < |qs| ==> r[i] == QuestionImportDetail(questionId(i), qs[i].questionNumber, qs[i].question)
    decreases |qs|
  {
    if qs == [] then []
    else
      var q := qs[|qs| - 1];
      QuestionDetails(qs[..|qs| - 1], questionId) + [QuestionImportDetail(questionId(|qs| - 1), q.questionNumber, q.question)]
  }

  /** The detail `import_topic` reports for a parsed topic. */
  function DetailFor(topicId: string, t: ParsedTopic, questionId: int -> string): TopicImportDetail
  {
    TopicImportDetail(topicId, t.name, |t.questions|, QuestionDetails(t.questions, questionId))
  }

  lemma UpdateTwice<K, V>(m: map<K, V>, k: K, a: V, b: V)
    ensures m[k := a][k := b] == m[k := b]
  {
  }

  lemma ImportedSnoc(topicId: string, name: string, qs: seq<ParsedQuestion>, i: nat, questionId: int -> string, now: string)
    requires i < |qs|
    ensures var before := Imported(topicId, name, qs[..i], questionId, now);
            Imported(topicId, name, qs[..i + 1], questionId, now)
            == before + [OldQuestions.NewQuestion(QuestionDtoFor(topicId, name, qs[i]), questionId(i),
                                                  OldQuestions.Allocated(before, qs[i].questionNumber, None), now)]
  {
    assert qs[..i + 1][..i] == qs[..i];
  }

  lemma QuestionDetailsSnoc(qs: seq<ParsedQuestion>, i: nat, questionId: int -> string)
    requires i < |qs|
    ensures QuestionDetails(qs[..i + 1], questionId)
            == QuestionDetails(qs[..i], questionId) + [QuestionImportDetail(questionId(i), qs[i].questionNumber, qs[i].question)]
  {
    assert qs[..i + 1][..i] == qs[..i];
  }

  /** One pass of the question loop of `import_topic`: build the dto of
      question `i`, create it in the topic `topicId`, which is the last one
      of the list, and report its detail. */
  method CreateQuestion(db: LazyDatabase, topicId: string, name: string, qs: seq<ParsedQuestion>, i: nat,
                        questionId: int -> string, now: string, ghost topics: seq<Topic>,
                        ghost files0: map<string, seq<Question>>, ghost index0: map<string, Index.TopicIndexEntry>,
                        ghost tags0: map<string, Index.TagInfo>)
    returns (detail: QuestionImportDetail)
    requires db.Valid() && i < |qs|
    requires db.topics == topics && |topics| > 0 && topics[|topics| - 1].id == topicId
    requires db.files == files0[topicId := Imported(topicId, name, qs[..i], questionId, now)]
    requires db.index.topicsIndex == index0[topicId := EntryFor(topics, topicId, db.files[topicId], now)]
    requires db.index.globalTags == Index.Retagged(tags0, topicId, db.files[topicId])
    modifies db, db.index
    ensures db.Valid() && db.index == old(db.index) && db.topics == topics
    ensures db.files == files0[topicId := Imported(topicId, name, qs[..i + 1], questionId, now)]
    ensures db.index.topicsIndex == index0[topicId := EntryFor(topics, topicId, db.files[topicId], now)]
    ensures db.index.globalTags == Index.Retagged(tags0, topicId, db.files[topicId])
    ensures detail == QuestionImportDetail(questionId(i), qs[i].questionNumber, qs[i].question)
    ensures db.progress == old(db.progress) && db.sessions == old(db.sessions) && db.sessionIds == old(db.sessionIds)
  {
    var q := qs[i];
    var questionDto := CreateQuestionDto(topicId, None, q.questionNumber, q.question, q.answer, [name], "intermediate", q.questionNumber);
    ghost var before := Imported(topicId, name, qs[..i], questionId, now);
    assert QuestionsOf(db.files, topicId) == before;
    var created := OldQuestions.Create(db, questionDto, questionId(i), now);
    // the topic was created before its questions, so `create` finds it
    assert created.Ok?;
    var question := created.value;
    ImportedSnoc(topicId, name, qs, i, questionId, now);
    assert questionDto == QuestionDtoFor(topicId, name, q);
    assert question == OldQuestions.NewQuestion(QuestionDtoFor(topicId, name, q), questionId(i),
                                                OldQuestions.Allocated(before, q.questionNumber, None), now);
    ghost var after := before + [question];
    assert after == Imported(topicId, name, qs[..i + 1], questionId, now);
    UpdateTwice(files0, topicId, before, after);
    UpdateTwice(index0, topicId, EntryFor(topics, topicId, before, now), EntryFor(topics, topicId, after, now));
    Index.AllTagsAppend(before, [question]);
    Index.RetaggedTwice(tags0, topicId, before, after);
    detail := QuestionImportDetail(question.id, q.questionNumber, q.question);
  }

  /** `import_topic`: create the topic, then each parsed question in it. Both
      error returns of the source are unreachable here: creating a topic
      only appends to the list, and creating a question fails only for an
      unknown topic, while the topic was created just before. */
  method ImportTopic(db: LazyDatabase, parsed: ParsedTopic, topicId: string, questionId: int -> string, now: string)
    returns (r: Result<(nat, nat, TopicImportDetail), string>)
    requires db.Valid()
    modifies db, db.index
    ensures db.Valid() && db.index == old(db.index)
    ensures r.Ok? && r.value.0 == 1 && r.value.1 == |parsed.questions|
    ensures r.value.2 == DetailFor(topicId, parsed, questionId)
    ensures db.topics == old(db.topics) + [OldTopics.NewTopic(TopicDtoFor(parsed.name), topicId, now)]
    ensures db.files == old(db.files)[topicId := Imported(topicId, parsed.name, parsed.questions, questionId, now)]
    ensures db.index.topicsIndex == old(db.index.topicsIndex)[topicId := EntryFor(db.topics, topicId, db.files[topicId], now)]
    ensures db.index.globalTags == Index.Retagged(old(db.index.globalTags), topicId, db.files[topicId])
    ensures db.progress == old(db.progress) && db.sessions == old(db.sessions) && db.sessionIds == old(db.sessionIds)
  {
    var slug := GenerateSlug(parsed.name);
    var topicDto := CreateTopicDto(parsed.name, "Imported topic: " + parsed.name, slug, BooksIcon, ImportColor, None, 0);
    var topic := OldTopics.Create(db, topicDto, topicId, now);
    var id := topic.id;
    ghost var topics := db.topics;
    assert topics[|topics| - 1].id == id;
    Index.RetaggedEmpty(old(db.index.globalTags), id);

    var questionCount := 0;
    var questionDetails: seq<QuestionImportDetail> := [];
    var qs := parsed.questions;
    var i := 0;
    while i < |qs|
      invariant 0 <= i <= |qs|
      invariant db.Valid() && db.index == old(db.index)
      invariant db.topics == topics
      invariant db.files == old(db.files)[id := Imported(id, parsed.name, qs[..i], questionId, now)]
      invariant db.index.topicsIndex == old(db.index.topicsIndex)[id := EntryFor(db.topics, id, db.files[id], now)]
      invariant db.index.globalTags == Index.Retagged(old(db.index.globalTags), id, db.files[id])
      invariant questionCount == i && questionDetails == QuestionDetails(qs[..i], questionId)
      invariant db.progress == old(db.progress) && db.sessions == old(db.sessions) && db.sessionIds == old(db.sessionIds)
    {
      var detail := CreateQuestion(db, id, parsed.name, qs, i, questionId, now, topics, old(db.files), old(db.index.topicsIndex),
                                  old(db.index.globalTags));
      questionCount := questionCount + 1;
      questionDetails := questionDetails + [detail];
      QuestionDetailsSnoc(qs, i, questionId);
      i := i + 1;
    }
    assert qs[..i] == qs;
    r := Ok((1, questionCount, TopicImportDetail(id, parsed.name, questionCount, questionDetails)));
  }

  /** The topics an import appends, the `k`-th parsed one with id `topicId(k)`. */
  function CreatedTopics(ts: seq<ParsedTopic>, topicId: int -> string, now: string): (r: seq<Topic>)
    ensures |r| == |ts|
    decreases |ts|
  {
    if ts == [] then []
    else CreatedTopics(ts[..|ts| - 1], topicId, now) + [OldTopics.NewTopic(TopicDtoFor(ts[|ts| - 1].name), topicId(|ts| - 1), now)]
  }

  /** The `k`-th created topic carries the `k`-th parsed name, the slug of
      that name, the fixed description, icon, colour and order of an import,
      and the import time. */
  lemma {:induction false} CreatedTopicsAt(ts: seq<ParsedTopic>, topicId: int -> string, now: string, k: nat)
    requires k < |ts|
    ensures var t := CreatedTopics(ts, topicId, now)[k];
            && t == OldTopics.NewTopic(TopicDtoFor(ts[k].name), topicId(k), now)
            && t.id == topicId(k) && t.name == ts[k].name && t.slug == GenerateSlug(ts[k].name)
            && t.description == "Imported topic: " + ts[k].name && t.icon == BooksIcon && t.color == ImportColor
            && t.subtopics == None && t.order == 0 && t.createdAt == now && t.updatedAt == now
    decreases |ts|
  {
    if k < |ts| - 1 {
      CreatedTopicsAt(ts[..|ts| - 1], topicId, now, k);
      assert CreatedTopics(ts, topicId, now)[k] == CreatedTopics(ts[..|ts| - 1], topicId, now)[k];
    }
  }

  /** The number of questions under the parsed topics. */
  function TotalQuestions(ts: seq<ParsedTopic>): nat
    decreases |ts|
  {
    if ts == [] then 0 else TotalQuestions(ts[..|ts| - 1]) + |ts[|ts| - 1].questions|
  }

  /** The message of the import result, by whether errors were collected. */
  function Summary(topics: nat, questions: nat, errors: nat): (m: string)
    ensures errors == 0 ==> m == "Successfully imported " + Ascii.Decimal(topics) + " topics and " + Ascii.Decimal(questions) + " questions"
    ensures errors > 0 ==> m == "Imported " + Ascii.Decimal(topics) + " topics and " + Ascii.Decimal(questions) + " questions with " + Ascii.Decimal(errors) + " errors"
  {
    if errors == 0 then
      "Successfully imported " + Ascii.Decimal(topics) + " topics and " + Ascii.Decimal(questions) + " questions"
    else
      "Imported " + Ascii.Decimal(topics) + " topics and " + Ascii.Decimal(questions) + " questions with " + Ascii.Decimal(errors) + " errors"
  }

  /** The questions file of each of the first `k` parsed topics holds what
      importing it created. */
  predicate FilesImported(files: map<string, seq<Question>>, ts: seq<ParsedTopic>, k: nat,
                          topicId: int -> string, questionId: int -> int -> string, now: string)
    requires k <= |ts|
  {
    forall j :: 0 <= j < k ==>
      topicId(j) in files && files[topicId(j)] == Imported(topicId(j), ts[j].name, ts[j].questions, questionId(j), now)
  }

  /** The index entry of each of the first `k` parsed topics is the one that
      saving its questions file writes, named after the topic. */
  ghost predicate EntriesImported(entries: map<string, Index.TopicIndexEntry>, topics: seq<Topic>,
                                  files: map<string, seq<Question>>, ts: seq<ParsedTopic>, k: nat,
                                  topicId: int -> string, now: string)
    requires k <= |ts|
  {
    forall j :: 0 <= j < k ==>
      && topicId(j) in entries && topicId(j) in files
      && entries[topicId(j)] == EntryFor(topics, topicId(j), files[topicId(j)], now)
  }

  /** Every key outside `ids` is in `m` exactly when it is in `m0`, with the
      same value. */
  ghost predicate KeptOutside<V>(m: map<string, V>, m0: map<string, V>, ids: seq<string>)
  {
    forall key :: key !in ids ==> (key in m <==> key in m0) && (key in m ==> m[key] == m0[key])
  }

  /** With no imported ids, nothing outside them changed: the map is the old one. */
  lemma KeptOutsideNone<V>(m: map<string, V>, m0: map<string, V>)
    requires KeptOutside(m, m0, [])
    ensures m == m0
  {
    assert m.Keys == m0.Keys;
  }

  /** The details of the imported topics, one per parsed topic in order. */
  function TopicDetails(ts: seq<ParsedTopic>, topicId: int -> string, questionId: int -> int -> string): (r: seq<TopicImportDetail>)
    ensures |r| == |ts|
    decreases |ts|
  {
    if ts == [] then []
    else TopicDetails(ts[..|ts| - 1], topicId, questionId) + [DetailFor(topicId(|ts| - 1), ts[|ts| - 1], questionId(|ts| - 1))]
  }

  /** The `k`-th detail names the `k`-th parsed topic, its id, and the
      questions created in it, each with the id it got and the number and
      text it was parsed with. */
  lemma {:induction false} TopicDetailsAt(ts: seq<ParsedTopic>, topicId: int -> string, questionId: int -> int -> string, k: nat)
    requires k < |ts|
    ensures var d := TopicDetails(ts, topicId, questionId)[k];
            && d.topicId == topicId(k) && d.topicName == ts[k].name
            && d.questionsCount == |ts[k].questions| == |d.questions|
            && forall i :: 0 <= i < |d.questions| ==>
                 d.questions[i] == QuestionImportDetail(questionId(k)(i), ts[k].questions[i].questionNumber, ts[k].questions[i].question)
    decreases |ts|
  {
    if k < |ts| - 1 {
      TopicDetailsAt(ts[..|ts| - 1], topicId, questionId, k);
      assert TopicDetails(ts, topicId, questionId)[k] == TopicDetails(ts[..|ts| - 1], topicId, questionId)[k];
    }
  }

  lemma CreatedTopicsSnoc(ts: seq<ParsedTopic>, k: nat, topicId: int -> string, questionId: int -> int -> string, now: string)
    requires k < |ts|
    ensures CreatedTopics(ts[..k + 1], topicId, now)
            == CreatedTopics(ts[..k], topicId, now) + [OldTopics.NewTopic(TopicDtoFor(ts[k].name), topicId(k), now)]
    ensures TopicDetails(ts[..k + 1], topicId, questionId)
            == TopicDetails(ts[..k], topicId, questionId) + [DetailFor(topicId(k), ts[k], questionId(k))]
    ensures TotalQuestions(ts[..k + 1]) == TotalQuestions(ts[..k]) + |ts[k].questions|
  {
    assert ts[..k + 1][..k] == ts[..k];
  }

  /** The database after the first `k` parsed topics were imported into one
      whose topics, questions files, index entries and tag map were
      `topics0`, `files0`, `entries0` and `tags0`: the new topics appended,
      each new id with its imported file and the entry saving it wrote, every
      other file and entry as it was, and the tag map the fold over the
      saves in import order. */
  ghost predicate ImportedPrefix(topics: seq<Topic>, files: map<string, seq<Question>>,
                                 entries: map<string, Index.TopicIndexEntry>, tags: map<string, Index.TagInfo>,
                                 topics0: seq<Topic>, files0: map<string, seq<Question>>,
                                 entries0: map<string, Index.TopicIndexEntry>, tags0: map<string, Index.TagInfo>,
                                 ts: seq<ParsedTopic>, k: nat, topicId: int -> string,
                                 questionId: int -> int -> string, now: string)
    requires k <= |ts|
  {
    && topics == topics0 + CreatedTopics(ts, topicId, now)[..k]
    && FilesImported(files, ts, k, topicId, questionId, now)
    && EntriesImported(entries, topics, files, ts, k, topicId, now)
    && KeptOutside(files, files0, TopicIds(topicId, k))
    && KeptOutside(entries, entries0, TopicIds(topicId, k))
    && tags == SavedTags(tags0, files, TopicIds(topicId, k))
  }

  /** The part of the JSON-files database an import changes: the topics
      list, the questions files, and the index's entries and tag map. */
  datatype Store = Store(topics: seq<Topic>, files: map<string, seq<Question>>,
                         entries: map<string, Index.TopicIndexEntry>, tags: map<string, Index.TagInfo>)

  function StoreOf(db: LazyDatabase): Store
    reads db, db.index
  {
    Store(db.topics, db.files, db.index.topicsIndex, db.index.globalTags)
  }

  /** What `import_topic` does to the store: the topic appended, its
      questions file written, and that file saved into the index. */
  function ImportStep(s: Store, t: ParsedTopic, id: string, questionId: int -> string, now: string): Store
  {
    var topics := s.topics + [OldTopics.NewTopic(TopicDtoFor(t.name), id, now)];
    var qs := Imported(id, t.name, t.questions, questionId, now);
    Store(topics, s.files[id := qs], s.entries[id := EntryFor(topics, id, qs, now)], Index.Retagged(s.tags, id, qs))
  }

  /** `m0` with the keys `ids(0)`, ..., `ids(k - 1)` written in that order,
      the `i`-th with `vals(i)`. */
  function Written<V>(m0: map<string, V>, ids: int -> string, vals: int -> V, k: nat): map<string, V>
  {
    if k == 0 then m0 else Written(m0, ids, vals, k - 1)[ids(k - 1) := vals(k - 1)]
  }

  /** A key written last among the first `k` holds the value written for it. */
  lemma {:induction false} WrittenAt<V>(m0: map<string, V>, ids: int -> string, vals: int -> V, k: nat, j: nat)
    requires j < k
    requires forall i :: j < i < k ==> ids(i) != ids(j)
    ensures ids(j) in Written(m0, ids, vals, k) && Written(m0, ids, vals, k)[ids(j)] == vals(j)
  {
    if j < k - 1 {
      WrittenAt(m0, ids, vals, k - 1, j);
    }
  }

  /** A key none of the first `k` writes touched is in the map exactly when
      it was, with the same value. */
  lemma {:induction false} WrittenKeeps<V>(m0: map<string, V>, ids: int -> string, vals: int -> V, k: nat, key: string)
    requires key !in TopicIds(ids, k)
    ensures var m := Written(m0, ids, vals, k);
            (key in m <==> key in m0) && (key in m ==> m[key] == m0[key])
  {
    if k > 0 {
      assert TopicIds(ids, k) == TopicIds(ids, k - 1) + [ids(k - 1)];
      WrittenKeeps(m0, ids, vals, k - 1, key);
    }
  }

  /** With distinct ids, each of the first `k` keys holds the value written
      for it. */
  lemma WrittenAll<V>(m0: map<string, V>, ids: int -> string, vals: int -> V, k: nat)
    requires forall i, j :: 0 <= i < j < k ==> ids(i) != ids(j)
    ensures forall j :: 0 <= j < k ==> ids(j) in Written(m0, ids, vals, k) && Written(m0, ids, vals, k)[ids(j)] == vals(j)
  {
    forall j | 0 <= j < k
      ensures ids(j) in Written(m0, ids, vals, k) && Written(m0, ids, vals, k)[ids(j)] == vals(j)
    {
      WrittenAt(m0, ids, vals, k, j);
    }
  }

  /** No key outside the first `k` ids is touched. */
  lemma WrittenKeepsAll<V>(m0: map<string, V>, ids: int -> string, vals: int -> V, k: nat)
    ensures KeptOutside(Written(m0, ids, vals, k), m0, TopicIds(ids, k))
  {
    forall key | key !in TopicIds(ids, k)
      ensures var m := Written(m0, ids, vals, k);
              (key in m <==> key in m0) && (key in m ==> m[key] == m0[key])
    {
      WrittenKeeps(m0, ids, vals, k, key);
    }
  }

  /** The questions file importing the `i`-th parsed topic writes; no file is
      written for an `i` outside the parsed topics, and the value there is
      never read. */
  function FileOf(ts: seq<ParsedTopic>, topicId: int -> string, questionId: int -> int -> string, now: string)
    : int -> seq<Question>
  {
    i => if 0 <= i < |ts| then Imported(topicId(i), ts[i].name, ts[i].questions, questionId(i), now) else []
  }

  /** The index entry saving the `i`-th imported topic's file `files(i)`
      writes, named in the topics list as it is right after the `i`-th of
      the `created` topics was appended to `topics0`; nothing is written for
      an `i` outside them, and the value there is never read. */
  function EntryOf(topics0: seq<Topic>, created: seq<Topic>, topicId: int -> string, files: int -> seq<Question>,
                   now: string): int -> Index.TopicIndexEntry
  {
    i => if 0 <= i < |created| then EntryFor(topics0 + created[..i + 1], topicId(i), files(i), now)
         else EntryFor(topics0, topicId(i), [], now)
  }

  /** The tag map `tags0` with the question lists `vals(0)`, ...,
      `vals(k - 1)` saved into it in that order, the `i`-th under the topic
      `ids(i)`. */
  function Retaggings(tags0: map<string, Index.TagInfo>, ids: int -> string, vals: int -> seq<Question>, k: nat)
    : map<string, Index.TagInfo>
  {
    if k == 0 then tags0 else Index.Retagged(Retaggings(tags0, ids, vals, k - 1), ids(k - 1), vals(k - 1))
  }

  /** The store after the first `k` parsed topics were imported, in order. */
  function ImportedStore(s0: Store, ts: seq<ParsedTopic>, k: nat, topicId: int -> string,
                         questionId: int -> int -> string, now: string): Store
    requires k <= |ts|
  {
    Store(s0.topics + CreatedTopics(ts, topicId, now)[..k],
          Written(s0.files, topicId, FileOf(ts, topicId, questionId, now), k),
          Written(s0.entries, topicId, EntryOf(s0.topics, CreatedTopics(ts, topicId, now), topicId, FileOf(ts, topicId, questionId, now), now), k),
          Retaggings(s0.tags, topicId, FileOf(ts, topicId, questionId, now), k))
  }

  /** Importing nothing leaves the store as it was. */
  lemma ImportedStoreEmpty(s0: Store, ts: seq<ParsedTopic>, topicId: int -> string, questionId: int -> int -> string, now: string)
    ensures ImportedStore(s0, ts, 0, topicId, questionId, now) == s0
  {
    assert s0.topics + CreatedTopics(ts, topicId, now)[..0] == s0.topics;
  }

  /** Importing one more topic is one more `import_topic` step. */
  lemma ImportedStoreSnoc(s0: Store, ts: seq<ParsedTopic>, k: nat, topicId: int -> string,
                          questionId: int -> int -> string, now: string)
    requires k < |ts|
    ensures ImportedStore(s0, ts, k + 1, topicId, questionId, now)
            == ImportStep(ImportedStore(s0, ts, k, topicId, questionId, now), ts[k], topicId(k), questionId(k), now)
  {
    CreatedAppend(s0.topics, ts, k, topicId, now);
    EntryOfLast(s0.topics, CreatedTopics(ts, topicId, now), topicId, FileOf(ts, topicId, questionId, now), now, k);
  }

  /** Importing one more topic appends the topic it creates. */
  lemma CreatedAppend(topics0: seq<Topic>, ts: seq<ParsedTopic>, k: nat, topicId: int -> string, now: string)
    requires k < |ts|
    ensures topics0 + CreatedTopics(ts, topicId, now)[..k + 1]
            == (topics0 + CreatedTopics(ts, topicId, now)[..k]) + [OldTopics.NewTopic(TopicDtoFor(ts[k].name), topicId(k), now)]
  {
    var created := CreatedTopics(ts, topicId, now);
    CreatedTopicsAt(ts, topicId, now, k);
    assert created[..k + 1] == created[..k] + [created[k]];
    AppendAssociates(topics0, created[..k], created[k]);
  }

  /** The entry written for the last of the first `k + 1` created topics
      names it in the topics list that ends with it. */
  lemma EntryOfLast(topics0: seq<Topic>, created: seq<Topic>, topicId: int -> string, files: int -> seq<Question>,
                    now: string, k: nat)
    requires k < |created|
    ensures EntryOf(topics0, created, topicId, files, now)(k) == EntryFor(topics0 + created[..k + 1], topicId(k), files(k), now)
  {
  }

  /** Importing the first `k` topics with distinct ids appends the created
      topics, writes each new id's file and the index entry saving it,
      leaves every other file and entry as it was, and folds the saves into
      the tag map in import order. */
  lemma ImportedStoreProperties(s0: Store, ts: seq<ParsedTopic>, k: nat, topicId: int -> string,
                                questionId: int -> int -> string, now: string)
    requires k <= |ts|
    requires forall i, j :: 0 <= i < j < |ts| ==> topicId(i) != topicId(j)
    ensures var s := ImportedStore(s0, ts, k, topicId, questionId, now);
            ImportedPrefix(s.topics, s.files, s.entries, s.tags, s0.topics, s0.files, s0.entries, s0.tags,
                           ts, k, topicId, questionId, now)
  {
    var files := FileOf(ts, topicId, questionId, now);
    ImportedWritten(s0, ts, k, topicId, questionId, now);
    WrittenKeepsAll(s0.files, topicId, files, k);
    WrittenKeepsAll(s0.entries, topicId, EntryOf(s0.topics, CreatedTopics(ts, topicId, now), topicId, files, now), k);
    WrittenAll(s0.files, topicId, files, k);
    RetaggingsSaved(s0.tags, Written(s0.files, topicId, files, k), topicId, files, k);
  }

  /** Each imported id has its imported file and the index entry saving it. */
  lemma ImportedWritten(s0: Store, ts: seq<ParsedTopic>, k: nat, topicId: int -> string,
                        questionId: int -> int -> string, now: string)
    requires k <= |ts|
    requires forall i, j :: 0 <= i < j < |ts| ==> topicId(i) != topicId(j)
    ensures var files := Written(s0.files, topicId, FileOf(ts, topicId, questionId, now), k);
            && FilesImported(files, ts, k, topicId, questionId, now)
            && EntriesImported(Written(s0.entries, topicId, EntryOf(s0.topics, CreatedTopics(ts, topicId, now), topicId, FileOf(ts, topicId, questionId, now), now), k),
                               s0.topics + CreatedTopics(ts, topicId, now)[..k], files, ts, k, topicId, now)
  {
    var created := CreatedTopics(ts, topicId, now);
    var files := FileOf(ts, topicId, questionId, now);
    WrittenAll(s0.files, topicId, files, k);
    WrittenAll(s0.entries, topicId, EntryOf(s0.topics, created, topicId, files, now), k);
    forall j | 0 <= j < k
      ensures EntryOf(s0.topics, created, topicId, files, now)(j) == EntryFor(s0.topics + created[..k], topicId(j), files(j), now)
    {
      CreatedTopicsAt(ts, topicId, now, j);
      EntryOfAt(s0.topics, created, topicId, files, now, k, j);
    }
  }

  /** The entry written for the `j`-th created topic names it as the topics
      list after the first `k` of them does, as the later ones are appended
      behind it. */
  lemma EntryOfAt(topics0: seq<Topic>, created: seq<Topic>, topicId: int -> string, files: int -> seq<Question>,
                  now: string, k: nat, j: nat)
    requires j < k <= |created| && created[j].id == topicId(j)
    ensures EntryOf(topics0, created, topicId, files, now)(j) == EntryFor(topics0 + created[..k], topicId(j), files(j), now)
  {
    var before := topics0 + created[..j + 1];
    assert topics0 + created[..k] == before + created[j + 1..k];
    assert before[|topics0| + j].id == topicId(j);
    NameOfAppend(before, created[j + 1..k], topicId(j));
  }

  /** Saving the lists one after the other is saving, in the same order,
      the topics of any files map that holds each of those lists under its
      topic. */
  lemma {:induction false} RetaggingsSaved(tags0: map<string, Index.TagInfo>, files: map<string, seq<Question>>,
                                           ids: int -> string, vals: int -> seq<Question>, k: nat)
    requires forall i :: 0 <= i < k ==> QuestionsOf(files, ids(i)) == vals(i)
    ensures Retaggings(tags0, ids, vals, k) == SavedTags(tags0, files, TopicIds(ids, k))
  {
    if k > 0 {
      RetaggingsSaved(tags0, files, ids, vals, k - 1);
      assert TopicIds(ids, k)[..k - 1] == TopicIds(ids, k - 1);
    }
  }

  /** One pass of the topic loop of `import_from_markdown`: import the
      `k`-th parsed topic, which extends the store by one step. */
  method ImportNext(db: LazyDatabase, ts: seq<ParsedTopic>, k: nat, topicId: int -> string,
                    questionId: int -> int -> string, now: string, ghost s0: Store)
    returns (topicCount: nat, questionCount: nat, detail: TopicImportDetail)
    requires db.Valid() && k < |ts|
    requires StoreOf(db) == ImportedStore(s0, ts, k, topicId, questionId, now)
    modifies db, db.index
    ensures db.Valid() && db.index == old(db.index)
    ensures db.topics == old(db.topics) + [OldTopics.NewTopic(TopicDtoFor(ts[k].name), topicId(k), now)]
    ensures db.files == old(db.files)[topicId(k) := Imported(topicId(k), ts[k].name, ts[k].questions, questionId(k), now)]
    ensures db.index.topicsIndex == old(db.index.topicsIndex)[topicId(k) := EntryFor(db.topics, topicId(k), db.files[topicId(k)], now)]
    ensures StoreOf(db) == ImportedStore(s0, ts, k + 1, topicId, questionId, now)
    ensures topicCount == 1 && questionCount == |ts[k].questions|
    ensures detail == DetailFor(topicId(k), ts[k], questionId(k))
    ensures db.progress == old(db.progress) && db.sessions == old(db.sessions) && db.sessionIds == old(db.sessionIds)
  {
    ImportedStoreSnoc(s0, ts, k, topicId, questionId, now);
    var outcome := ImportTopic(db, ts[k], topicId(k), questionId(k), now);
    var (a, b, c) := outcome.value;
    topicCount, questionCount, detail := a, b, c;
  }

  lemma AppendAssociates<T>(a: seq<T>, b: seq<T>, x: T)
    ensures (a + b) + [x] == a + (b + [x])
  {
  }

  /** The result of importing all of `ts` without an error: every topic and
      every question counted, the success message, and one detail per topic
      in parse order. */
  predicate ReportsAll(res: ImportResult, ts: seq<ParsedTopic>, topicId: int -> string, questionId: int -> int -> string)
  {
    && res.success && res.errors == []
    && res.topicsImported == |ts| && res.questionsImported == TotalQuestions(ts)
    && res.message == Summary(|ts|, TotalQuestions(ts), 0)
    && res.topicsDetails == TopicDetails(ts, topicId, questionId)
  }

  /** The counters of the topic loop after the first `k` parsed topics:
      every topic and question of them counted, no error, one detail each. */
  predicate Reported(topicsImported: nat, questionsImported: nat, errors: seq<string>,
                     topicsDetails: seq<TopicImportDetail>, ts: seq<ParsedTopic>, k: nat,
                     topicId: int -> string, questionId: int -> int -> string)
    requires k <= |ts|
  {
    && topicsImported == k && questionsImported == TotalQuestions(ts[..k]) && errors == []
    && topicsDetails == TopicDetails(ts[..k], topicId, questionId)
  }

  /** Counting the `k`-th topic's import extends the counters by it. */
  lemma ReportedSnoc(topicsImported: nat, questionsImported: nat, errors: seq<string>,
                     topicsDetails: seq<TopicImportDetail>, ts: seq<ParsedTopic>, k: nat,
                     topicId: int -> string, questionId: int -> int -> string, questionCount: nat, detail: TopicImportDetail)
    requires k < |ts|
    requires Reported(topicsImported, questionsImported, errors, topicsDetails, ts, k, topicId, questionId)
    requires questionCount == |ts[k].questions| && detail == DetailFor(topicId(k), ts[k], questionId(k))
    ensures Reported(topicsImported + 1, questionsImported + questionCount, errors, topicsDetails + [detail],
                     ts, k + 1, topicId, questionId)
  {
    CreatedTopicsSnoc(ts, k, topicId, questionId, "");
  }

  /** Once every topic is counted, the result reports all of them. */
  lemma ReportedAll(topicsImported: nat, questionsImported: nat, errors: seq<string>,
                    topicsDetails: seq<TopicImportDetail>, ts: seq<ParsedTopic>,
                    topicId: int -> string, questionId: int -> int -> string)
    requires Reported(topicsImported, questionsImported, errors, topicsDetails, ts, |ts|, topicId, questionId)
    ensures ReportsAll(ImportResult(|errors| == 0, topicsImported, questionsImported,
                                    Summary(topicsImported, questionsImported, |errors|), errors, topicsDetails),
                       ts, topicId, questionId)
  {
    assert ts[..|ts|] == ts;
  }

  /** The ids of the first `n` imported topics, in import order. */
  function TopicIds(topicId: int -> string, n: nat): (r: seq<string>)
    ensures |r| == n && forall i :: 0 <= i < n ==> r[i] == topicId(i)
  {
    seq(n, i => topicId(i))
  }

  /** The loop of `import_from_markdown` over the parsed topics: import each
      in order, summing what was created. */
  method ImportAll(db: LazyDatabase, topics: seq<ParsedTopic>, topicId: int -> string, questionId: int -> int -> string, now: string)
    returns (res: ImportResult)
    requires db.Valid()
    modifies db, db.index
    ensures db.Valid() && db.index == old(db.index)
    ensures ReportsAll(res, topics, topicId, questionId)
    ensures StoreOf(db) == ImportedStore(old(StoreOf(db)), topics, |topics|, topicId, questionId, now)
    ensures db.progress == old(db.progress) && db.sessions == old(db.sessions) && db.sessionIds == old(db.sessionIds)
  {
    var topicsImported := 0;
    var questionsImported := 0;
    var errors: seq<string> := [];
    var topicsDetails: seq<TopicImportDetail> := [];
    var k := 0;
    while k < |topics|
      invariant 0 <= k <= |topics|
      invariant db.Valid() && db.index == old(db.index)
      invariant Reported(topicsImported, questionsImported, errors, topicsDetails, topics, k, topicId, questionId)
      invariant StoreOf(db) == ImportedStore(old(StoreOf(db)), topics, k, topicId, questionId, now)
      invariant db.progress == old(db.progress) && db.sessions == old(db.sessions) && db.sessionIds == old(db.sessionIds)
    {
      var topicCount, questionCount, detail := ImportNext(db, topics, k, topicId, questionId, now, old(StoreOf(db)));
      ReportedSnoc(topicsImported, questionsImported, errors, topicsDetails, topics, k, topicId, questionId,
                   questionCount, detail);
      topicsImported := topicsImported + topicCount;
      questionsImported := questionsImported + questionCount;
      topicsDetails := topicsDetails + [detail];
      k := k + 1;
    }
    ReportedAll(topicsImported, questionsImported, errors, topicsDetails, topics, topicId, questionId);
    res := ImportResult(|errors| == 0, topicsImported, questionsImported,
                        Summary(topicsImported, questionsImported, |errors|), errors, topicsDetails);
  }

  /** `import_from_markdown`: parse the content, then import every parsed
      topic. The `k`-th topic gets the id `topicId(k)` and its questions the
      ids `questionId(k)`; the ids stand for the fresh UUIDs of the
      repositories, so distinct topics get distinct ids. */
  method ImportFromMarkdown(db: LazyDatabase, content: string, topicId: int -> string, questionId: int -> int -> string, now: string)
    returns (r: Result<ImportResult, string>)
    requires db.Valid()
    requires forall i, j :: 0 <= i < j < |Parse(content)| ==> topicId(i) != topicId(j)
    modifies db, db.index
    ensures db.Valid() && db.index == old(db.index)
    ensures r.Ok? && ReportsAll(r.value, Parse(content), topicId, questionId)
    ensures db.topics == old(db.topics) + CreatedTopics(Parse(content), topicId, now)
    ensures FilesImported(db.files, Parse(content), |Parse(content)|, topicId, questionId, now)
    ensures db.index.globalTags == SavedTags(old(db.index.globalTags), db.files, TopicIds(topicId, |Parse(content)|))
    ensures EntriesImported(db.index.topicsIndex, db.topics, db.files, Parse(content), |Parse(content)|, topicId, now)
    ensures KeptOutside(db.files, old(db.files), TopicIds(topicId, |Parse(content)|))
    ensures KeptOutside(db.index.topicsIndex, old(db.index.topicsIndex), TopicIds(topicId, |Parse(content)|))
    ensures db.progress == old(db.progress) && db.sessions == old(db.sessions) && db.sessionIds == old(db.sessionIds)
  {
    var parsed := ParseMarkdownFile(content);
    // the parser has no error path, so the `map_err` never applies
    var res := ImportAll(db, parsed.value, topicId, questionId, now);
    ImportedStoreProperties(old(StoreOf(db)), parsed.value, |parsed.value|, topicId, questionId, now);
    assert CreatedTopics(parsed.value, topicId, now)[..|parsed.value|] == CreatedTopics(parsed.value, topicId, now);
    r := Ok(res);
  }

  /** Every question an import creates has the text of a question heading
      of the markdown, the number of that heading as its order, and an
      answer without surrounding whitespace. */
  lemma ImportedFromHeadings(content: string, topicId: int -> string, questionId: int -> int -> string, now: string, k: nat, i: nat)
    requires k < |Parse(content)| && i < |Parse(content)[k].questions|
    ensures var t := Parse(content)[k];
            var q := Imported(topicId(k), t.name, t.questions, questionId(k), now)[i];
            && QuestionHeading(q.order, q.question) in KindsOf(Lines(content))
            && Trimmed(q.answer)
  {
    var t := Parse(content)[k];
    var p := t.questions[i];
    QuestionsFromHeadings(content);
    assert t in Parse(content) && p in t.questions;
    ImportedFields(topicId(k), t.name, t.questions, questionId(k), now);
  }
}
