// The JSON-files backend: the topic list, one `questions.json` per topic
// directory, the progress list, the quiz-session files with their id index,
// and the in-memory `DatabaseIndex` that every save of a topic's questions
// refreshes. Saving to disk is a plain state update here.
module OldDb {
  import opened Wrappers
  import opened Models
  import Index

  // ---- the `Iterator` searches the repositories use ----

  /** `iter().position(p)`: the first position whose element satisfies `p`. */
  function Find<T>(s: seq<T>, p: T -> bool): (r: Option<nat>)
    ensures r.Some? ==> r.value < |s| && p(s[r.value]) && forall j :: 0 <= j < r.value ==> !p(s[j])
    ensures r.None? <==> forall j :: 0 <= j < |s| ==> !p(s[j])
  {
    if s == [] then None
    else if p(s[0]) then Some(0)
    else
      var rest := Find(s[1..], p);
      assert forall j :: 1 <= j < |s| ==> s[j] == s[1..][j - 1];
      if rest.None? then None else Some(rest.value + 1)
  }

  /** `retain(p)` and `filter(p).collect()`: the elements satisfying `p`, in
      their original order. */
  function Filter<T>(s: seq<T>, p: T -> bool): (r: seq<T>)
    ensures |r| <= |s|
    ensures forall i :: 0 <= i < |r| ==> r[i] in s && p(r[i])
    ensures forall i :: 0 <= i < |s| && p(s[i]) ==> s[i] in r
    ensures (forall i :: 0 <= i < |s| ==> p(s[i])) ==> r == s
    ensures (exists i :: 0 <= i < |s| && !p(s[i])) ==> |r| < |s|
  {
    if s == [] then []
    else
      assert forall i :: 1 <= i < |s| ==> s[i] == s[1..][i - 1];
      if p(s[0]) then [s[0]] + Filter(s[1..], p) else Filter(s[1..], p)
  }

  /** The index of the first topic with that id. */
  function TopicPosition(topics: seq<Topic>, id: string): (r: Option<nat>)
    ensures r.Some? ==> (r.value < |topics| && topics[r.value].id == id
                         && forall j :: 0 <= j < r.value ==> topics[j].id != id)
    ensures r.None? <==> forall j :: 0 <= j < |topics| ==> topics[j].id != id
  {
    Find(topics, (t: Topic) => t.id == id)
  }

  /** The index of the first question with that id. */
  function QuestionPosition(questions: seq<Question>, id: string): (r: Option<nat>)
    ensures r.Some? ==> (r.value < |questions| && questions[r.value].id == id
                         && forall j :: 0 <= j < r.value ==> questions[j].id != id)
    ensures r.None? <==> forall j :: 0 <= j < |questions| ==> questions[j].id != id
  {
    Find(questions, (q: Question) => q.id == id)
  }

  /** What `save_topic_questions` records as the topic's name in the index:
      the name of the first topic with that id, or "Unknown". */
  function NameOf(topics: seq<Topic>, id: string): (name: string)
    ensures TopicPosition(topics, id).None? ==> name == "Unknown"
    ensures TopicPosition(topics, id).Some? ==> name == topics[TopicPosition(topics, id).value].name
  {
    var i := TopicPosition(topics, id);
    if i.None? then "Unknown" else topics[i.value].name
  }

  /** The name an index entry records does not change when topics are
      appended after the first one with that id. */
  lemma NameOfAppend(topics: seq<Topic>, more: seq<Topic>, id: string)
    requires TopicPosition(topics, id).Some?
    ensures NameOf(topics + more, id) == NameOf(topics, id)
  {
    var p := TopicPosition(topics, id).value;
    assert (topics + more)[p] == topics[p];
    assert forall j :: 0 <= j < p ==> (topics + more)[j] == topics[j];
    assert TopicPosition(topics + more, id) == Some(p);
  }

  /** The file path `save_topic_questions` records in the index. */
  function QuestionsFilePath(topicId: string): string
  {
    "topics/" + topicId + "/questions.json"
  }

  /** `get_topic_questions`: a topic without a questions file has no
      questions. */
  function QuestionsOf(files: map<string, seq<Question>>, topicId: string): (r: seq<Question>)
    ensures topicId in files ==> r == files[topicId]
    ensures topicId !in files ==> r == []
  {
    if topicId in files then files[topicId] else []
  }

  /** The position of the first topic, in list order, whose questions file
      holds a question with that id: the topic scan of `get_by_id`, `update`
      and `delete`. */
  function Home(topics: seq<Topic>, files: map<string, seq<Question>>, id: string): (r: Option<nat>)
    ensures r.Some? ==> (r.value < |topics| && QuestionPosition(QuestionsOf(files, topics[r.value].id), id).Some?
                         && forall j :: 0 <= j < r.value ==> QuestionPosition(QuestionsOf(files, topics[j].id), id).None?)
    ensures r.None? <==> forall j :: 0 <= j < |topics| ==> QuestionPosition(QuestionsOf(files, topics[j].id), id).None?
  {
    Find(topics, (t: Topic) => QuestionPosition(QuestionsOf(files, t.id), id).Some?)
  }

  /** The per-topic index entry `save_topic_questions` writes. */
  function EntryFor(topics: seq<Topic>, topicId: string, questions: seq<Question>, now: string): Index.TopicIndexEntry
  {
    Index.TopicIndexEntry(NameOf(topics, topicId), |questions|, QuestionsFilePath(topicId),
                          Index.DistinctTags(questions), Index.Distribution(questions), now)
  }

  /** The index entries after the topics in `keys` were saved with their
      current files. */
  function Reindexed(entries: map<string, Index.TopicIndexEntry>, topics: seq<Topic>,
                     files: map<string, seq<Question>>, keys: set<string>, now: string)
    : (r: map<string, Index.TopicIndexEntry>)
    ensures r.Keys == entries.Keys + (keys * files.Keys)
  {
    map k | k in entries.Keys + (keys * files.Keys) ::
      if k in keys && k in files then EntryFor(topics, k, files[k], now) else entries[k]
  }

  lemma ReindexedOne(entries: map<string, Index.TopicIndexEntry>, topics: seq<Topic>,
                     files: map<string, seq<Question>>, k: string, now: string)
    requires k in files
    ensures Reindexed(entries, topics, files, {k}, now) == entries[k := EntryFor(topics, k, files[k], now)]
  {
    var r := Reindexed(entries, topics, files, {k}, now);
    var e := entries[k := EntryFor(topics, k, files[k], now)];
    assert r.Keys == e.Keys;
    forall j | j in r.Keys ensures r[j] == e[j] {
    }
  }

  /** Saving two different topics is two entry updates. */
  lemma ReindexedPair(entries: map<string, Index.TopicIndexEntry>, topics: seq<Topic>,
                      files: map<string, seq<Question>>, a: string, b: string, now: string)
    requires a in files && b in files && a != b
    ensures Reindexed(entries, topics, files, {a, b}, now)
         == entries[a := EntryFor(topics, a, files[a], now)][b := EntryFor(topics, b, files[b], now)]
  {
    var x := Reindexed(entries, topics, files, {a, b}, now);
    var y := entries[a := EntryFor(topics, a, files[a], now)][b := EntryFor(topics, b, files[b], now)];
    assert x.Keys == y.Keys;
    forall j | j in x.Keys ensures x[j] == y[j] {
      if j != a && j != b {
        assert j in entries;
      }
    }
  }

  /** Saving one more topic, not saved before, with new questions. */
  lemma ReindexedAdd(entries: map<string, Index.TopicIndexEntry>, topics: seq<Topic>,
                     files: map<string, seq<Question>>, done: set<string>, k: string, v: seq<Question>, now: string)
    requires k !in done
    ensures Reindexed(entries, topics, files, done, now)[k := EntryFor(topics, k, v, now)]
         == Reindexed(entries, topics, files[k := v], done + {k}, now)
  {
    var a := Reindexed(entries, topics, files, done, now)[k := EntryFor(topics, k, v, now)];
    var b := Reindexed(entries, topics, files[k := v], done + {k}, now);
    assert a.Keys == b.Keys;
    forall j | j in a.Keys ensures a[j] == b[j] {
    }
  }


  /** The tag map after the topics of `order` were saved, in that order,
      each with its file in `files`. */
  function SavedTags(tags: map<string, Index.TagInfo>, files: map<string, seq<Question>>, order: seq<string>)
    : map<string, Index.TagInfo>
    decreases |order|
  {
    if order == [] then tags
    else
      var k := order[|order| - 1];
      Index.Retagged(SavedTags(tags, files, order[..|order| - 1]), k, QuestionsOf(files, k))
  }

  /** Only the files of the saved topics matter. */
  lemma {:induction false} SavedTagsFrame(tags: map<string, Index.TagInfo>, f: map<string, seq<Question>>,
                                          g: map<string, seq<Question>>, order: seq<string>)
    requires forall k :: k in order ==> QuestionsOf(f, k) == QuestionsOf(g, k)
    ensures SavedTags(tags, f, order) == SavedTags(tags, g, order)
    decreases |order|
  {
    if order != [] {
      var front := order[..|order| - 1];
      assert forall k :: k in front ==> k in order;
      SavedTagsFrame(tags, f, g, front);
      assert order[|order| - 1] in order;
    }
  }

  /** Saving one more topic, not saved before, with its new file. */
  lemma SavedTagsSnoc(tags: map<string, Index.TagInfo>, files: map<string, seq<Question>>, order: seq<string>,
                      k: string, v: seq<Question>)
    requires k !in order
    ensures Index.Retagged(SavedTags(tags, files, order), k, v) == SavedTags(tags, files[k := v], order + [k])
  {
    assert (order + [k])[..|order|] == order;
    SavedTagsFrame(tags, files, files[k := v], order);
  }

  class LazyDatabase {
    /** `topics.json`. */
    var topics: seq<Topic>
    /** `topics/<id>/questions.json`, keyed by topic id; a missing key is a
        missing directory. */
    var files: map<string, seq<Question>>
    /** The progress list. */
    var progress: seq<QuestionProgress>
    /** The quiz-session files, keyed by session id. */
    var sessions: map<string, QuizSession>
    /** `session_ids` of the quiz-sessions index, oldest first. */
    var sessionIds: seq<string>
    /** `index.json`. */
    var index: Index.DatabaseIndex

    /** An empty database: no topics, no files, the default index. */
    constructor ()
      ensures topics == [] && files == map[] && progress == []
      ensures sessions == map[] && sessionIds == []
      ensures fresh(index) && index.topicsIndex == map[] && index.globalTags == map[]
      ensures Valid()
    {
      topics := [];
      files := map[];
      progress := [];
      sessions := map[];
      sessionIds := [];
      index := new Index.DatabaseIndex();
    }

    /** The index invariants: the tag lists the index methods rely on, and
        totals that agree with the entries. */
    ghost predicate Valid()
      reads this, index
    {
      index.TagListsDistinct() && index.StatsConsistent()
    }

    /** `save_topic_questions`: replace the topic's questions file and
        refresh its index entry. */
    method SaveTopicQuestions(topicId: string, questions: seq<Question>, now: string)
      requires Valid()
      modifies this, index
      ensures Valid() && index == old(index)
      ensures files == old(files)[topicId := questions]
      ensures topics == old(topics) && progress == old(progress)
      ensures sessions == old(sessions) && sessionIds == old(sessionIds)
      ensures index.topicsIndex == old(index.topicsIndex)[topicId := EntryFor(topics, topicId, questions, now)]
      ensures index.globalTags == Index.Retagged(old(index.globalTags), topicId, questions)
      ensures index.StatsConsistent()
    {
      files := files[topicId := questions];
      index.UpdateTopicEntry(topicId, NameOf(topics, topicId), questions, QuestionsFilePath(topicId), now);
      ReindexedOne(old(index.topicsIndex), topics, files, topicId, now);
    }
  }
}
