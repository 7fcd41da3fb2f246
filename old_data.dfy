// `validate_database` and `import_database` of the JSON-files backend: an
// exported `{version, topics, questions}` document is checked for id
// validity and dangling topic references, then either merged into the
// database (skipping ids already present) or written over it. JSON decoding
// is the `parsed` parameter and UUID syntax the `isUuid` predicate.
module OldDataManagement {
  import opened Wrappers
  import opened Models
  import opened OldDb
  import Index
  import Sorting

  /** `DatabaseV1Export`. */
  datatype V1Export = V1Export(version: string, topics: seq<Topic>, questions: seq<Question>)

  /** `ImportResult`. */
  datatype ImportResult = ImportResult(success: bool, message: string, topicsCount: nat, questionsCount: nat)

  // ---- validation ----

  /** Every topic id and question id is a UUID and every question names one
      of the document's topics. */
  ghost predicate Consistent(data: V1Export, isUuid: string -> bool)
  {
    && (forall i :: 0 <= i < |data.topics| ==> isUuid(data.topics[i].id))
    && (forall i :: 0 <= i < |data.questions| ==> isUuid(data.questions[i].id))
    && (forall i :: 0 <= i < |data.questions| ==>
          exists j :: 0 <= j < |data.topics| && data.topics[j].id == data.questions[i].topicId)
  }

  /** `validate_database`: the topic ids first, then the question ids, then
      the topic references, each reporting the first offender. */
  function Validate(data: V1Export, isUuid: string -> bool): (r: Result<(), string>)
    ensures r.Ok? <==> Consistent(data, isUuid)
    ensures (exists i :: 0 <= i < |data.topics| && !isUuid(data.topics[i].id)) ==>
      exists i :: (0 <= i < |data.topics| && !isUuid(data.topics[i].id)
                   && (forall j :: 0 <= j < i ==> isUuid(data.topics[j].id))
                   && r == Err("Invalid topic ID: " + data.topics[i].id))
    ensures (&& (forall i :: 0 <= i < |data.topics| ==> isUuid(data.topics[i].id))
             && (exists i :: 0 <= i < |data.questions| && !isUuid(data.questions[i].id))) ==>
      exists i :: (0 <= i < |data.questions| && !isUuid(data.questions[i].id)
                   && (forall j :: 0 <= j < i ==> isUuid(data.questions[j].id))
                   && r == Err("Invalid question ID: " + data.questions[i].id))
    ensures (&& (forall i :: 0 <= i < |data.topics| ==> isUuid(data.topics[i].id))
             && (forall i :: 0 <= i < |data.questions| ==> isUuid(data.questions[i].id))
             && r.Err?) ==>
      exists i :: (0 <= i < |data.questions| && TopicPosition(data.topics, data.questions[i].topicId).None?
                   && (forall j :: 0 <= j < i ==> TopicPosition(data.topics, data.questions[j].topicId).Some?)
                   && r == Err("Question " + data.questions[i].id + " references non-existent topic "
                               + data.questions[i].topicId))
  {
    var badTopic := Find(data.topics, (t: Topic) => !isUuid(t.id));
    if badTopic.Some? then Err("Invalid topic ID: " + data.topics[badTopic.value].id)
    else
      var badQuestion := Find(data.questions, (q: Question) => !isUuid(q.id));
      if badQuestion.Some? then Err("Invalid question ID: " + data.questions[badQuestion.value].id)
      else
        var dangling := Find(data.questions, (q: Question) => TopicPosition(data.topics, q.topicId).None?);
        if dangling.Some? then
          var q := data.questions[dangling.value];
          Err("Question " + q.id + " references non-existent topic " + q.topicId)
        else
          assert forall i :: 0 <= i < |data.questions| ==> TopicPosition(data.topics, data.questions[i].topicId).Some?;
          Ok(())
  }

  function SampleTopic(id: string): Topic
  {
    Topic(id, "Test Topic", "Test", "test-topic", "📚", "#000", None, 1,
          "2024-01-01T00:00:00Z", "2024-01-01T00:00:00Z")
  }

  function SampleQuestion(id: string, topicId: string): Question
  {
    Question(id, topicId, None, 1, "Test?", "Answer", [], "beginner", 1,
             "2024-01-01T00:00:00Z", "2024-01-01T00:00:00Z")
  }

  /** One topic and one question of it, both with UUIDs, pass. */
  lemma ValidDocumentPasses(isUuid: string -> bool, topicId: string, questionId: string)
    requires isUuid(topicId) && isUuid(questionId)
    ensures Validate(V1Export("1.0", [SampleTopic(topicId)], [SampleQuestion(questionId, topicId)]), isUuid) == Ok(())
  {
    var data := V1Export("1.0", [SampleTopic(topicId)], [SampleQuestion(questionId, topicId)]);
    assert data.topics[0].id == data.questions[0].topicId;
  }

  /** A question naming a topic the document does not hold fails, with the
      reference message. */
  lemma DanglingReferenceFails(isUuid: string -> bool, questionId: string)
    requires isUuid(questionId)
    ensures Validate(V1Export("1.0", [], [SampleQuestion(questionId, "non-existent-id")]), isUuid)
         == Err("Question " + questionId + " references non-existent topic non-existent-id")
  {
    var data := V1Export("1.0", [], [SampleQuestion(questionId, "non-existent-id")]);
    assert TopicPosition(data.topics, data.questions[0].topicId).None?;
    assert Find(data.questions, (q: Question) => !isUuid(q.id)).None?;
    var q := data.questions[0];
    assert Find(data.questions, (q: Question) => TopicPosition(data.topics, q.topicId).None?) == Some(0);
    assert Validate(data, isUuid) == Err("Question " + q.id + " references non-existent topic " + q.topicId);
    assert "Question " + q.id + " references non-existent topic " + q.topicId
        == ("Question " + q.id) + (" references non-existent topic " + q.topicId);
    assert " references non-existent topic " + "non-existent-id" == " references non-existent topic non-existent-id";
  }

  // ---- merging lists by id ----

  /** Whether some element of `s` has key `k`: the `iter().any` test. */
  function HasKey<T>(s: seq<T>, key: T -> string, k: string): (b: bool)
    ensures b <==> exists j :: 0 <= j < |s| && key(s[j]) == k
  {
    Find(s, (y: T) => key(y) == k).Some?
  }

  /** `existing` after each element of `incoming`, in order, is pushed unless
      an element with its key is already there. */
  function Absorbed<T>(existing: seq<T>, incoming: seq<T>, key: T -> string): seq<T>
    decreases |incoming|
  {
    if incoming == [] then existing
    else
      var m := Absorbed(existing, incoming[..|incoming| - 1], key);
      var x := incoming[|incoming| - 1];
      if HasKey(m, key, key(x)) then m else m + [x]
  }

  /** The merge keeps `existing` as a prefix. */
  lemma {:induction false} AbsorbedKeepsPrefix<T>(existing: seq<T>, incoming: seq<T>, key: T -> string)
    ensures |Absorbed(existing, incoming, key)| >= |existing|
    ensures Absorbed(existing, incoming, key)[..|existing|] == existing
    decreases |incoming|
  {
    if incoming != [] {
      AbsorbedKeepsPrefix(existing, incoming[..|incoming| - 1], key);
    }
  }

  /** Afterwards every incoming key is present. */
  lemma {:induction false} AbsorbedCovers<T>(existing: seq<T>, incoming: seq<T>, key: T -> string)
    ensures forall i :: 0 <= i < |incoming| ==> HasKey(Absorbed(existing, incoming, key), key, key(incoming[i]))
    decreases |incoming|
  {
    if incoming != [] {
      var front := incoming[..|incoming| - 1];
      var m := Absorbed(existing, front, key);
      var x := incoming[|incoming| - 1];
      AbsorbedCovers(existing, front, key);
      var r := Absorbed(existing, incoming, key);
      assert r == if HasKey(m, key, key(x)) then m else m + [x];
      forall i | 0 <= i < |incoming| ensures HasKey(r, key, key(incoming[i])) {
        if i < |front| {
          assert incoming[i] == front[i];
          assert HasKey(m, key, key(front[i]));
          var j :| 0 <= j < |m| && key(m[j]) == key(front[i]);
          assert r[j] == m[j];
        } else if !HasKey(m, key, key(x)) {
          assert r[|m|] == x;
        }
      }
    }
  }

  /** Only incoming elements are appended, each with a key that appears
      nowhere before it. */
  lemma {:induction false} AbsorbedAddsFresh<T>(existing: seq<T>, incoming: seq<T>, key: T -> string)
    ensures forall j :: |existing| <= j < |Absorbed(existing, incoming, key)| ==>
      (&& Absorbed(existing, incoming, key)[j] in incoming
       && !HasKey(Absorbed(existing, incoming, key)[..j], key, key(Absorbed(existing, incoming, key)[j])))
    decreases |incoming|
  {
    if incoming != [] {
      var front := incoming[..|incoming| - 1];
      var m := Absorbed(existing, front, key);
      var x := incoming[|incoming| - 1];
      AbsorbedAddsFresh(existing, front, key);
      var r := Absorbed(existing, incoming, key);
      assert r == if HasKey(m, key, key(x)) then m else m + [x];
      forall j | |existing| <= j < |r|
        ensures r[j] in incoming && !HasKey(r[..j], key, key(r[j]))
      {
        if j < |m| {
          assert r[..j] == m[..j] && r[j] == m[j];
          assert m[j] in front;
        } else {
          assert r[j] == x && r[..j] == m;
        }
      }
    }
  }

  function TopicKey(t: Topic): string
  {
    t.id
  }

  function QuestionKey(q: Question): string
  {
    q.id
  }

  /** The push loops of the merge: `r` is `Absorbed(existing, incoming, key)`. */
  method Absorb<T>(existing: seq<T>, incoming: seq<T>, key: T -> string) returns (r: seq<T>)
    ensures r == Absorbed(existing, incoming, key)
  {
    r := existing;
    var i := 0;
    while i < |incoming|
      invariant 0 <= i <= |incoming|
      invariant r == Absorbed(existing, incoming[..i], key)
    {
      assert incoming[..i + 1][..i] == incoming[..i];
      var x := incoming[i];
      var present := HasKey(r, key, key(x));
      if !present {
        r := r + [x];
      }
      i := i + 1;
    }
    assert incoming[..i] == incoming;
  }

  // ---- grouping by topic ----

  /** The questions of `qs`, in order, that belong to topic `k`. */
  function OfTopic(qs: seq<Question>, k: string): seq<Question>
  {
    Filter(qs, (q: Question) => q.topicId == k)
  }

  /** `questions_by_topic`: each question pushed onto the list of its
      topic's entry, created empty on first sight. */
  function Grouped(qs: seq<Question>): map<string, seq<Question>>
    decreases |qs|
  {
    if qs == [] then map[]
    else
      var g := Grouped(qs[..|qs| - 1]);
      var q := qs[|qs| - 1];
      g[q.topicId := (if q.topicId in g then g[q.topicId] else []) + [q]]
  }

  lemma {:induction false} OfTopicSnoc(qs: seq<Question>, q: Question, k: string)
    ensures OfTopic(qs + [q], k) == OfTopic(qs, k) + (if q.topicId == k then [q] else [])
    decreases |qs|
  {
    if qs == [] {
      assert [q][1..] == [];
    } else {
      assert (qs + [q])[1..] == qs[1..] + [q];
      OfTopicSnoc(qs[1..], q, k);
    }
  }

  lemma {:induction false} NoneOfTopic(qs: seq<Question>, k: string)
    requires forall i :: 0 <= i < |qs| ==> qs[i].topicId != k
    ensures OfTopic(qs, k) == []
    decreases |qs|
  {
    if qs != [] {
      assert forall i :: 0 <= i < |qs| - 1 ==> qs[1..][i] == qs[i + 1];
      NoneOfTopic(qs[1..], k);
    }
  }

  /** The groups are keyed by exactly the topic ids that occur. */
  lemma {:induction false} GroupedKeys(qs: seq<Question>)
    ensures forall k :: k in Grouped(qs) <==> exists i :: 0 <= i < |qs| && qs[i].topicId == k
    decreases |qs|
  {
    if qs != [] {
      var front := qs[..|qs| - 1];
      var q := qs[|qs| - 1];
      GroupedKeys(front);
      assert forall i :: 0 <= i < |front| ==> qs[i] == front[i];
      forall k ensures k in Grouped(qs) <==> exists i :: 0 <= i < |qs| && qs[i].topicId == k {
        if k != q.topicId {
          assert k in Grouped(qs) <==> k in Grouped(front);
        }
      }
    }
  }

  /** Each group holds its topic's questions in input order. */
  lemma {:induction false} GroupedLists(qs: seq<Question>)
    ensures forall k :: k in Grouped(qs) ==> Grouped(qs)[k] == OfTopic(qs, k)
    decreases |qs|
  {
    if qs != [] {
      var front := qs[..|qs| - 1];
      var q := qs[|qs| - 1];
      assert qs == front + [q];
      GroupedLists(front);
      GroupedKeys(front);
      forall k | k in Grouped(qs) ensures Grouped(qs)[k] == OfTopic(qs, k) {
        OfTopicSnoc(front, q, k);
        if k !in Grouped(front) {
          NoneOfTopic(front, k);
        }
      }
    }
  }

  lemma GroupedProperties(qs: seq<Question>)
    ensures forall k :: k in Grouped(qs) <==> exists i :: 0 <= i < |qs| && qs[i].topicId == k
    ensures forall k :: k in Grouped(qs) ==> Grouped(qs)[k] == OfTopic(qs, k)
  {
    GroupedKeys(qs);
    GroupedLists(qs);
  }

  /** The grouping loop. */
  method GroupByTopic(qs: seq<Question>) returns (groups: map<string, seq<Question>>)
    ensures groups == Grouped(qs)
  {
    groups := map[];
    var i := 0;
    while i < |qs|
      invariant 0 <= i <= |qs|
      invariant groups == Grouped(qs[..i])
    {
      assert qs[..i + 1][..i] == qs[..i];
      var q := qs[i];
      var list := if q.topicId in groups then groups[q.topicId] else [];
      groups := groups[q.topicId := list + [q]];
      i := i + 1;
    }
    assert qs[..i] == qs;
  }

  // ---- the saves, in the order they happen ----

  /** `base` after `vals[k]` was stored under each key of `order`, in turn:
      the effect of a sequence of saves. */
  function Stored<V>(base: map<string, V>, vals: map<string, V>, order: seq<string>): map<string, V>
    requires forall x :: x in order ==> x in vals
    decreases |order|
  {
    if order == [] then base
    else
      var k := order[|order| - 1];
      Stored(base, vals, order[..|order| - 1])[k := vals[k]]
  }

  /** A key holds its stored value when some save wrote it, and its old
      value otherwise. */
  lemma {:induction false} StoredAt<V>(base: map<string, V>, vals: map<string, V>, order: seq<string>, k: string)
    requires forall x :: x in order ==> x in vals
    ensures k in Stored(base, vals, order) <==> k in base || k in order
    ensures k in order ==> Stored(base, vals, order)[k] == vals[k]
    ensures k !in order && k in base ==> Stored(base, vals, order)[k] == base[k]
    decreases |order|
  {
    if order != [] {
      var front := order[..|order| - 1];
      StoredAt(base, vals, front, k);
      assert order == front + [order[|order| - 1]];
    }
  }

  /** Once every key of `vals` was saved, whatever the order, the result is
      `base` overridden by `vals`. */
  lemma StoredAll<V>(base: map<string, V>, vals: map<string, V>, order: seq<string>)
    requires forall x :: x in order ==> x in vals
    requires forall k :: k in vals ==> k in order
    ensures Stored(base, vals, order) == base + vals
  {
    var s := Stored(base, vals, order);
    forall k ensures (k in s <==> k in base + vals) && (k in s ==> s[k] == (base + vals)[k]) {
      StoredAt(base, vals, order, k);
    }
    assert s.Keys == (base + vals).Keys;
  }

  // ---- the files and the index after an import ----

  /** What the merge saves for each group: the topic's existing questions
      with the group's new ids appended. */
  function MergedValues(files: map<string, seq<Question>>, groups: map<string, seq<Question>>)
    : map<string, seq<Question>>
  {
    map k | k in groups :: Absorbed(QuestionsOf(files, k), groups[k], QuestionKey)
  }

  /** The index entries the saves of `vals` write. */
  function EntriesOf(topics: seq<Topic>, vals: map<string, seq<Question>>, now: string)
    : map<string, Index.TopicIndexEntry>
  {
    map k | k in vals :: EntryFor(topics, k, vals[k], now)
  }

  /** `saved` lists each key of `keys` exactly once, in the order the
      saves were made. */
  ghost predicate SavedOnce(saved: seq<string>, keys: set<string>)
  {
    (forall k :: k in saved <==> k in keys) && Sorting.NoDup(saved)
  }

  /** One turn of the merge loop: the group of `k` merged into the topic's
      questions, which are saved. */
  method MergeGroup(db: LazyDatabase, groups: map<string, seq<Question>>, k: string, now: string,
                    ghost files0: map<string, seq<Question>>, ghost entries0: map<string, Index.TopicIndexEntry>,
                    ghost tags0: map<string, Index.TagInfo>, ghost saved: seq<string>)
    requires db.Valid() && k in groups && k !in saved
    requires forall x :: x in saved ==> x in groups
    requires db.files == Stored(files0, MergedValues(files0, groups), saved)
    requires db.index.topicsIndex == Stored(entries0, EntriesOf(db.topics, MergedValues(files0, groups), now), saved)
    requires db.index.globalTags == SavedTags(tags0, db.files, saved)
    modifies db, db.index
    ensures db.Valid() && db.index == old(db.index)
    ensures db.files == Stored(files0, MergedValues(files0, groups), saved + [k])
    ensures db.index.topicsIndex == Stored(entries0, EntriesOf(db.topics, MergedValues(files0, groups), now), saved + [k])
    ensures db.index.globalTags == SavedTags(tags0, db.files, saved + [k])
    ensures db.topics == old(db.topics) && db.progress == old(db.progress)
    ensures db.sessions == old(db.sessions) && db.sessionIds == old(db.sessionIds)
  {
    ghost var vals := MergedValues(files0, groups);
    StoredAt(files0, vals, saved, k);
    var existing := QuestionsOf(db.files, k);
    var questions := Absorb(existing, groups[k], QuestionKey);
    db.SaveTopicQuestions(k, questions, now);
    assert (saved + [k])[..|saved|] == saved;
    SavedTagsSnoc(tags0, old(db.files), saved, k, questions);
  }

  /** The merge loop over the groups, in an unspecified order (the `HashMap`
      iteration of the source): each group merged into its topic's questions
      and saved. */
  method MergeGroups(db: LazyDatabase, groups: map<string, seq<Question>>, now: string)
    returns (ghost saved: seq<string>)
    requires db.Valid()
    modifies db, db.index
    ensures db.Valid() && db.index == old(db.index)
    ensures db.files == old(db.files) + MergedValues(old(db.files), groups)
    ensures db.index.topicsIndex == old(db.index.topicsIndex) + EntriesOf(db.topics, MergedValues(old(db.files), groups), now)
    ensures SavedOnce(saved, groups.Keys)
    ensures db.index.globalTags == SavedTags(old(db.index.globalTags), db.files, saved)
    ensures db.topics == old(db.topics) && db.progress == old(db.progress)
    ensures db.sessions == old(db.sessions) && db.sessionIds == old(db.sessionIds)
  {
    ghost var files0 := db.files;
    ghost var vals := MergedValues(files0, groups);
    ghost var entries := EntriesOf(db.topics, vals, now);
    var todo := groups.Keys;
    saved := [];
    while todo != {}
      invariant todo <= groups.Keys
      invariant forall x :: x in groups ==> x in todo || x in saved
      invariant forall x :: x in saved ==> x in groups && x !in todo
      invariant Sorting.NoDup(saved)
      invariant db.Valid() && db.index == old(db.index)
      invariant db.files == Stored(files0, vals, saved)
      invariant db.index.topicsIndex == Stored(old(db.index.topicsIndex), entries, saved)
      invariant db.index.globalTags == SavedTags(old(db.index.globalTags), db.files, saved)
      invariant db.topics == old(db.topics) && db.progress == old(db.progress)
      invariant db.sessions == old(db.sessions) && db.sessionIds == old(db.sessionIds)
      decreases |todo|
    {
      var k :| k in todo;
      MergeGroup(db, groups, k, now, files0, old(db.index.topicsIndex), old(db.index.globalTags), saved);
      Index.NoDupSnoc(saved, k);
      saved := saved + [k];
      todo := todo - {k};
    }
    StoredAll(files0, vals, saved);
    StoredAll(old(db.index.topicsIndex), entries, saved);
  }

  /** One turn of the replace loop: the group of `k` saved over the
      topic's questions. */
  method ReplaceGroup(db: LazyDatabase, groups: map<string, seq<Question>>, k: string, now: string,
                      ghost files0: map<string, seq<Question>>, ghost entries0: map<string, Index.TopicIndexEntry>,
                      ghost tags0: map<string, Index.TagInfo>, ghost saved: seq<string>)
    requires db.Valid() && k in groups && k !in saved
    requires forall x :: x in saved ==> x in groups
    requires db.files == Stored(files0, groups, saved)
    requires db.index.topicsIndex == Stored(entries0, EntriesOf(db.topics, groups, now), saved)
    requires db.index.globalTags == SavedTags(tags0, db.files, saved)
    modifies db, db.index
    ensures db.Valid() && db.index == old(db.index)
    ensures db.files == Stored(files0, groups, saved + [k])
    ensures db.index.topicsIndex == Stored(entries0, EntriesOf(db.topics, groups, now), saved + [k])
    ensures db.index.globalTags == SavedTags(tags0, db.files, saved + [k])
    ensures db.topics == old(db.topics) && db.progress == old(db.progress)
    ensures db.sessions == old(db.sessions) && db.sessionIds == old(db.sessionIds)
  {
    db.SaveTopicQuestions(k, groups[k], now);
    assert (saved + [k])[..|saved|] == saved;
    SavedTagsSnoc(tags0, old(db.files), saved, k, groups[k]);
  }

  /** The replace loop over the groups, in an unspecified order: each group
      written over its topic's questions file. */
  method ReplaceGroups(db: LazyDatabase, groups: map<string, seq<Question>>, now: string)
    returns (ghost saved: seq<string>)
    requires db.Valid()
    modifies db, db.index
    ensures db.Valid() && db.index == old(db.index)
    ensures db.files == old(db.files) + groups
    ensures db.index.topicsIndex == old(db.index.topicsIndex) + EntriesOf(db.topics, groups, now)
    ensures SavedOnce(saved, groups.Keys)
    ensures db.index.globalTags == SavedTags(old(db.index.globalTags), db.files, saved)
    ensures db.topics == old(db.topics) && db.progress == old(db.progress)
    ensures db.sessions == old(db.sessions) && db.sessionIds == old(db.sessionIds)
  {
    ghost var files0 := db.files;
    ghost var entries := EntriesOf(db.topics, groups, now);
    var todo := groups.Keys;
    saved := [];
    while todo != {}
      invariant todo <= groups.Keys
      invariant forall x :: x in groups ==> x in todo || x in saved
      invariant forall x :: x in saved ==> x in groups && x !in todo
      invariant Sorting.NoDup(saved)
      invariant db.Valid() && db.index == old(db.index)
      invariant db.files == Stored(files0, groups, saved)
      invariant db.index.topicsIndex == Stored(old(db.index.topicsIndex), entries, saved)
      invariant db.index.globalTags == SavedTags(old(db.index.globalTags), db.files, saved)
      invariant db.topics == old(db.topics) && db.progress == old(db.progress)
      invariant db.sessions == old(db.sessions) && db.sessionIds == old(db.sessionIds)
      decreases |todo|
    {
      var k :| k in todo;
      ReplaceGroup(db, groups, k, now, files0, old(db.index.topicsIndex), old(db.index.globalTags), saved);
      Index.NoDupSnoc(saved, k);
      saved := saved + [k];
      todo := todo - {k};
    }
    StoredAll(files0, groups, saved);
    StoredAll(old(db.index.topicsIndex), entries, saved);
  }

  /** The files after an empty questions file was saved, in list order, for
      every topic of `topics` that has none. */
  function AddEmpty(files: map<string, seq<Question>>, topics: seq<Topic>): (r: map<string, seq<Question>>)
    ensures files.Keys <= r.Keys
    decreases |topics|
  {
    if topics == [] then files
    else
      var f := AddEmpty(files, topics[..|topics| - 1]);
      var id := topics[|topics| - 1].id;
      if id in f then f else f[id := []]
  }

  /** The index entries those saves write, starting from `entries`. */
  function IndexEmpty(entries: map<string, Index.TopicIndexEntry>, allTopics: seq<Topic>,
                      files: map<string, seq<Question>>, topics: seq<Topic>, now: string)
    : map<string, Index.TopicIndexEntry>
    decreases |topics|
  {
    if topics == [] then entries
    else
      var e := IndexEmpty(entries, allTopics, files, topics[..|topics| - 1], now);
      var id := topics[|topics| - 1].id;
      if id in AddEmpty(files, topics[..|topics| - 1]) then e else e[id := EntryFor(allTopics, id, [], now)]
  }

  /** Each topic of the list ends up with a file: its old one if it had
      one, an empty one otherwise; no other file appears. */
  lemma {:induction false} AddEmptyAt(files: map<string, seq<Question>>, topics: seq<Topic>, k: string)
    ensures k in AddEmpty(files, topics) <==> k in files || exists j :: 0 <= j < |topics| && topics[j].id == k
    ensures k in files ==> AddEmpty(files, topics)[k] == files[k]
    ensures k !in files && k in AddEmpty(files, topics) ==> AddEmpty(files, topics)[k] == []
    decreases |topics|
  {
    if topics != [] {
      var front := topics[..|topics| - 1];
      AddEmptyAt(files, front, k);
      assert forall j :: 0 <= j < |front| ==> topics[j] == front[j];
      if k in AddEmpty(files, topics) && k !in files && k !in AddEmpty(files, front) {
        assert topics[|topics| - 1].id == k;
      }
    }
  }

  /** The empty-file saves reindex exactly the files they create. */
  lemma {:induction false} IndexEmptyIsReindexed(entries: map<string, Index.TopicIndexEntry>, allTopics: seq<Topic>,
                                                 files: map<string, seq<Question>>, topics: seq<Topic>, now: string)
    ensures IndexEmpty(entries, allTopics, files, topics, now)
         == Reindexed(entries, allTopics, AddEmpty(files, topics), AddEmpty(files, topics).Keys - files.Keys, now)
    decreases |topics|
  {
    if topics == [] {
      var r := Reindexed(entries, allTopics, files, {}, now);
      assert r.Keys == entries.Keys;
    } else {
      var front := topics[..|topics| - 1];
      var id := topics[|topics| - 1].id;
      var f := AddEmpty(files, front);
      IndexEmptyIsReindexed(entries, allTopics, files, front, now);
      if id !in f {
        assert AddEmpty(files, topics).Keys - files.Keys == (f.Keys - files.Keys) + {id};
        ReindexedAdd(entries, allTopics, f, f.Keys - files.Keys, id, [], now);
      }
    }
  }

  /** One turn of the empty-file loop: an empty file for the topic unless
      it has one. */
  method SaveIfMissing(db: LazyDatabase, topics: seq<Topic>, i: nat, now: string,
                       ghost files0: map<string, seq<Question>>, ghost entries0: map<string, Index.TopicIndexEntry>)
    requires db.Valid() && i < |topics|
    requires db.files == AddEmpty(files0, topics[..i])
    requires db.index.topicsIndex == IndexEmpty(entries0, db.topics, files0, topics[..i], now)
    modifies db, db.index
    ensures db.Valid() && db.index == old(db.index)
    ensures db.files == AddEmpty(files0, topics[..i + 1])
    ensures db.index.topicsIndex == IndexEmpty(entries0, db.topics, files0, topics[..i + 1], now)
    ensures db.index.globalTags == old(db.index.globalTags)
    ensures db.topics == old(db.topics) && db.progress == old(db.progress)
    ensures db.sessions == old(db.sessions) && db.sessionIds == old(db.sessionIds)
  {
    assert topics[..i + 1][..i] == topics[..i];
    var id := topics[i].id;
    if id !in db.files {
      db.SaveTopicQuestions(id, [], now);
      Index.RetaggedEmpty(old(db.index.globalTags), id);
    }
  }

  /** The loop of the replace path that gives every imported topic without
      a directory an empty questions file. */
  method SaveMissing(db: LazyDatabase, topics: seq<Topic>, now: string)
    requires db.Valid()
    modifies db, db.index
    ensures db.Valid() && db.index == old(db.index)
    ensures db.files == AddEmpty(old(db.files), topics)
    ensures db.index.topicsIndex
         == Reindexed(old(db.index.topicsIndex), db.topics, db.files, db.files.Keys - old(db.files).Keys, now)
    ensures db.index.globalTags == old(db.index.globalTags)
    ensures db.topics == old(db.topics) && db.progress == old(db.progress)
    ensures db.sessions == old(db.sessions) && db.sessionIds == old(db.sessionIds)
  {
    ghost var files0 := db.files;
    var i := 0;
    assert topics[..0] == [];
    while i < |topics|
      invariant 0 <= i <= |topics|
      invariant db.Valid() && db.index == old(db.index)
      invariant db.files == AddEmpty(files0, topics[..i])
      invariant db.index.topicsIndex == IndexEmpty(old(db.index.topicsIndex), db.topics, files0, topics[..i], now)
      invariant db.index.globalTags == old(db.index.globalTags)
      invariant db.topics == old(db.topics) && db.progress == old(db.progress)
      invariant db.sessions == old(db.sessions) && db.sessionIds == old(db.sessionIds)
    {
      SaveIfMissing(db, topics, i, now, files0, old(db.index.topicsIndex));
      i := i + 1;
    }
    assert topics[..i] == topics;
    IndexEmptyIsReindexed(old(db.index.topicsIndex), db.topics, files0, topics, now);
  }

  // ---- import_database ----

  /** The merge path: new topics appended, each group merged into its
      topic's questions file. */
  method MergeImport(db: LazyDatabase, data: V1Export, now: string)
    returns (ghost saved: seq<string>)
    requires db.Valid()
    modifies db, db.index
    ensures db.Valid() && db.index == old(db.index)
    ensures db.topics == Absorbed(old(db.topics), data.topics, TopicKey)
    ensures db.files == old(db.files) + MergedValues(old(db.files), Grouped(data.questions))
    ensures db.index.topicsIndex
         == old(db.index.topicsIndex) + EntriesOf(db.topics, MergedValues(old(db.files), Grouped(data.questions)), now)
    ensures SavedOnce(saved, Grouped(data.questions).Keys)
    ensures db.index.globalTags == SavedTags(old(db.index.globalTags), db.files, saved)
    ensures db.progress == old(db.progress)
    ensures db.sessions == old(db.sessions) && db.sessionIds == old(db.sessionIds)
  {
    var topics := Absorb(db.topics, data.topics, TopicKey);
    db.topics := topics;
    var groups := GroupByTopic(data.questions);
    saved := MergeGroups(db, groups, now);
  }

  /** The replace path: the topic list becomes the imported one, each group
      is written over its topic's file, then every imported topic without a
      file gets an empty one. */
  method ReplaceImport(db: LazyDatabase, data: V1Export, now: string)
    returns (ghost saved: seq<string>)
    requires db.Valid()
    modifies db, db.index
    ensures db.Valid() && db.index == old(db.index)
    ensures db.topics == data.topics
    ensures db.files == AddEmpty(old(db.files) + Grouped(data.questions), data.topics)
    ensures db.index.topicsIndex
         == Reindexed(old(db.index.topicsIndex) + EntriesOf(data.topics, Grouped(data.questions), now), data.topics,
                      db.files, db.files.Keys - (old(db.files) + Grouped(data.questions)).Keys, now)
    ensures SavedOnce(saved, Grouped(data.questions).Keys)
    ensures db.index.globalTags == SavedTags(old(db.index.globalTags), db.files, saved)
    ensures db.progress == old(db.progress)
    ensures db.sessions == old(db.sessions) && db.sessionIds == old(db.sessionIds)
  {
    db.topics := data.topics;
    var groups := GroupByTopic(data.questions);
    saved := ReplaceGroups(db, groups, now);
    ghost var files := db.files;
    SaveMissing(db, data.topics, now);
    forall k | k in saved ensures QuestionsOf(files, k) == QuestionsOf(db.files, k) {
      AddEmptyAt(files, data.topics, k);
    }
    SavedTagsFrame(old(db.index.globalTags), files, db.files, saved);
  }

  /** `import_database`: undecodable or invalid content changes nothing;
      otherwise merge or replace, and report the topic count and the total
      the index holds. */
  method ImportDatabase(db: LazyDatabase, parsed: Result<V1Export, string>, isUuid: string -> bool,
                        merge: bool, now: string)
    returns (r: Result<ImportResult, string>, ghost saved: seq<string>)
    requires db.Valid()
    modifies db, db.index
    ensures db.Valid() && db.index == old(db.index)
    ensures parsed.Err? ==> r == Err("Invalid JSON format: " + parsed.error)
    ensures parsed.Ok? && Validate(parsed.value, isUuid).Err? ==> r == Err(Validate(parsed.value, isUuid).error)
    ensures r.Err? ==> (&& db.topics == old(db.topics) && db.files == old(db.files)
                        && db.index.topicsIndex == old(db.index.topicsIndex))
    ensures r.Ok? <==> parsed.Ok? && Consistent(parsed.value, isUuid)
    ensures r.Ok? && merge ==> (&& db.topics == Absorbed(old(db.topics), parsed.value.topics, TopicKey)
                                && db.files == old(db.files) + MergedValues(old(db.files), Grouped(parsed.value.questions)))
    ensures r.Ok? && !merge ==> (&& db.topics == parsed.value.topics
                                 && db.files == AddEmpty(old(db.files) + Grouped(parsed.value.questions),
                                                         parsed.value.topics))
    ensures r.Ok? ==> r.value == ImportResult(true, "Database imported successfully", |db.topics|,
                                              db.index.totalQuestions)
    ensures r.Ok? ==> r.value.questionsCount == Index.QuestionTotal(db.index.topicsIndex)
    ensures r.Err? ==> saved == []
    ensures r.Ok? ==> SavedOnce(saved, Grouped(parsed.value.questions).Keys)
    ensures db.index.globalTags == SavedTags(old(db.index.globalTags), db.files, saved)
    ensures db.progress == old(db.progress)
    ensures db.sessions == old(db.sessions) && db.sessionIds == old(db.sessionIds)
  {
    saved := [];
    if parsed.Err? {
      return Err("Invalid JSON format: " + parsed.error), saved;
    }
    var data := parsed.value;
    var valid := Validate(data, isUuid);
    if valid.Err? {
      return Err(valid.error), saved;
    }
    if merge {
      saved := MergeImport(db, data, now);
    } else {
      saved := ReplaceImport(db, data, now);
    }
    r := Ok(ImportResult(true, "Database imported successfully", |db.topics|, db.index.totalQuestions));
  }

  /** After a merge, a topic that received imported questions has the
      merge of its existing questions with those, in input order; so by
      `AbsorbedKeepsPrefix`, `AbsorbedCovers` and `AbsorbedAddsFresh` the
      existing ones stay in front, every imported id is there and no id is
      added twice or when already present. */
  lemma MergedFileOf(files: map<string, seq<Question>>, qs: seq<Question>, k: string)
    requires exists i :: 0 <= i < |qs| && qs[i].topicId == k
    ensures k in files + MergedValues(files, Grouped(qs))
    ensures (files + MergedValues(files, Grouped(qs)))[k] == Absorbed(QuestionsOf(files, k), OfTopic(qs, k), QuestionKey)
  {
    GroupedProperties(qs);
    var g := Grouped(qs);
    assert k in g && g[k] == OfTopic(qs, k);
  }

  /** A topic that received no imported questions keeps its file after a
      merge. */
  lemma MergeKeepsUntouched(files: map<string, seq<Question>>, qs: seq<Question>, k: string)
    requires forall i :: 0 <= i < |qs| ==> qs[i].topicId != k
    ensures k in files + MergedValues(files, Grouped(qs)) <==> k in files
    ensures k in files ==> (files + MergedValues(files, Grouped(qs)))[k] == files[k]
  {
    GroupedProperties(qs);
  }

  /** After a replace, a topic that received questions has exactly those,
      in input order; an imported topic that received none has an empty
      file unless it had one; and the file of a topic that neither received
      questions nor was imported stays as it was: old topics' files stay on
      disk. */
  lemma ReplacedFileOf(files: map<string, seq<Question>>, data: V1Export, k: string)
    ensures (exists i :: 0 <= i < |data.questions| && data.questions[i].topicId == k) ==>
      (&& k in AddEmpty(files + Grouped(data.questions), data.topics)
       && AddEmpty(files + Grouped(data.questions), data.topics)[k] == OfTopic(data.questions, k))
    ensures (&& (forall i :: 0 <= i < |data.questions| ==> data.questions[i].topicId != k)
             && (exists j :: 0 <= j < |data.topics| && data.topics[j].id == k)
             && k !in files) ==>
      (&& k in AddEmpty(files + Grouped(data.questions), data.topics)
       && AddEmpty(files + Grouped(data.questions), data.topics)[k] == [])
    ensures (&& (forall i :: 0 <= i < |data.questions| ==> data.questions[i].topicId != k)
             && k in files) ==>
      (&& k in AddEmpty(files + Grouped(data.questions), data.topics)
       && AddEmpty(files + Grouped(data.questions), data.topics)[k] == files[k])
  {
    GroupedProperties(data.questions);
    AddEmptyAt(files + Grouped(data.questions), data.topics, k);
  }
}
