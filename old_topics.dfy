// The topic repository of the JSON-files backend: the topic list in
// `topics.json`, an empty questions file for every new topic, and the index
// entry kept under the topic's current name.
module OldTopics {
  import opened Wrappers
  import opened Models
  import opened Ascii
  import opened OldDb
  import Index

  /** `get_by_id`: the first topic with that id. */
  function GetById(topics: seq<Topic>, id: string): (r: Option<Topic>)
    ensures r.None? <==> forall j :: 0 <= j < |topics| ==> topics[j].id != id
    ensures r.Some? ==> exists i :: 0 <= i < |topics| && topics[i] == r.value && r.value.id == id
                                    && forall j :: 0 <= j < i ==> topics[j].id != id
  {
    var i := TopicPosition(topics, id);
    if i.None? then None else Some(topics[i.value])
  }

  /** The topic `create` builds from the dto, with a fresh id and both
      timestamps from one clock reading. */
  function NewTopic(dto: CreateTopicDto, id: string, now: string): Topic
  {
    Topic(id, dto.name, dto.description, dto.slug, dto.icon, dto.color, dto.subtopics, dto.order, now, now)
  }

  /** `create`: append the topic and write an empty questions file for it. */
  method Create(db: LazyDatabase, dto: CreateTopicDto, id: string, now: string) returns (t: Topic)
    requires db.Valid()
    modifies db, db.index
    ensures db.Valid() && db.index == old(db.index)
    ensures t == NewTopic(dto, id, now)
    ensures db.topics == old(db.topics) + [t]
    ensures db.files == old(db.files)[id := []]
    ensures db.index.topicsIndex == old(db.index.topicsIndex)[id := EntryFor(db.topics, id, [], now)]
    ensures db.index.globalTags == old(db.index.globalTags)
    ensures db.progress == old(db.progress) && db.sessions == old(db.sessions) && db.sessionIds == old(db.sessionIds)
  {
    t := NewTopic(dto, id, now);
    db.topics := db.topics + [t];
    db.SaveTopicQuestions(id, [], now);
    Index.RetaggedEmpty(old(db.index.globalTags), id);
  }

  /** A topic created with an id no other topic has is found by `get_by_id`
      and indexed under its own name with no questions. */
  lemma CreatedTopicIsFound(topics: seq<Topic>, dto: CreateTopicDto, id: string, now: string)
    requires forall j :: 0 <= j < |topics| ==> topics[j].id != id
    ensures GetById(topics + [NewTopic(dto, id, now)], id) == Some(NewTopic(dto, id, now))
    ensures NameOf(topics + [NewTopic(dto, id, now)], id) == dto.name
    ensures EntryFor(topics + [NewTopic(dto, id, now)], id, [], now).questionCount == 0
  {
    var s := topics + [NewTopic(dto, id, now)];
    assert forall j :: 0 <= j < |topics| ==> s[j].id != id;
    assert s[|topics|].id == id;
    var p := TopicPosition(s, id);
    assert p.Some?;
    assert p.value == |topics|;
  }

  /** The topic after `update`: each field given as `Some` replaced, the
      subtopics wrapped in `Some`, `updated_at` refreshed. */
  function Patched(t: Topic, dto: UpdateTopicDto, now: string): Topic
  {
    Topic(t.id, dto.name.UnwrapOr(t.name), dto.description.UnwrapOr(t.description),
          dto.slug.UnwrapOr(t.slug), dto.icon.UnwrapOr(t.icon), dto.color.UnwrapOr(t.color),
          if dto.subtopics.Some? then dto.subtopics else t.subtopics,
          dto.order.UnwrapOr(t.order), t.createdAt, now)
  }

  /** The field-by-field patch of `update`. */
  method Patch(t: Topic, dto: UpdateTopicDto, now: string) returns (topic: Topic)
    ensures topic == Patched(t, dto, now)
  {
    topic := t;
    if dto.name.Some? {
      topic := topic.(name := dto.name.value);
    }
    if dto.description.Some? {
      topic := topic.(description := dto.description.value);
    }
    if dto.slug.Some? {
      topic := topic.(slug := dto.slug.value);
    }
    if dto.icon.Some? {
      topic := topic.(icon := dto.icon.value);
    }
    if dto.color.Some? {
      topic := topic.(color := dto.color.value);
    }
    if dto.subtopics.Some? {
      topic := topic.(subtopics := Some(dto.subtopics.value));
    }
    if dto.order.Some? {
      topic := topic.(order := dto.order.value);
    }
    topic := topic.(updatedAt := now);
  }

  /** `update`: patch the first topic with that id in place, then re-index
      it under its (possibly new) name with its current questions. An absent
      id changes nothing. */
  method Update(db: LazyDatabase, id: string, dto: UpdateTopicDto, now: string)
    returns (r: Option<Topic>, ghost pos: Option<nat>)
    requires db.Valid()
    modifies db, db.index
    ensures db.Valid() && db.index == old(db.index)
    ensures pos == TopicPosition(old(db.topics), id)
    ensures pos.None? ==>
      && r.None? && db.topics == old(db.topics)
      && db.index.topicsIndex == old(db.index.topicsIndex) && db.index.globalTags == old(db.index.globalTags)
    ensures pos.Some? ==>
      && r == Some(Patched(old(db.topics)[pos.value], dto, now))
      && db.topics == old(db.topics)[pos.value := r.value]
      && db.index.topicsIndex == old(db.index.topicsIndex)[id := Index.TopicIndexEntry(
           r.value.name, |QuestionsOf(db.files, id)|, QuestionsFilePath(id),
           Index.DistinctTags(QuestionsOf(db.files, id)), Index.Distribution(QuestionsOf(db.files, id)), now)]
      && db.index.globalTags == Index.Retagged(old(db.index.globalTags), id, QuestionsOf(db.files, id))
    ensures db.files == old(db.files) && db.progress == old(db.progress)
    ensures db.sessions == old(db.sessions) && db.sessionIds == old(db.sessionIds)
  {
    pos := TopicPosition(db.topics, id);
    var i := TopicPosition(db.topics, id);
    if i.None? {
      return None, pos;
    }
    var topic := Patch(db.topics[i.value], dto, now);
    db.topics := db.topics[i.value := topic];
    var questions := QuestionsOf(db.files, id);
    db.index.UpdateTopicEntry(id, topic.name, questions, QuestionsFilePath(id), now);
    r := Some(topic);
  }

  /** Every field of the update, with `None` for "leave it". */
  function Overlay(first: UpdateTopicDto, second: UpdateTopicDto): UpdateTopicDto
  {
    UpdateTopicDto(
      if second.name.Some? then second.name else first.name,
      if second.description.Some? then second.description else first.description,
      if second.slug.Some? then second.slug else first.slug,
      if second.icon.Some? then second.icon else first.icon,
      if second.color.Some? then second.color else first.color,
      if second.subtopics.Some? then second.subtopics else first.subtopics,
      if second.order.Some? then second.order else first.order)
  }

  /** Two updates in a row are one update with the later fields winning;
      repeating an update changes nothing but `updated_at`; an update with
      no field only refreshes `updated_at`. */
  lemma PatchesCompose(t: Topic, first: UpdateTopicDto, second: UpdateTopicDto, a: string, b: string)
    ensures Patched(Patched(t, first, a), second, b) == Patched(t, Overlay(first, second), b)
    ensures Patched(Patched(t, first, a), first, b) == Patched(t, first, b)
    ensures Patched(t, UpdateTopicDto(None, None, None, None, None, None, None), b) == t.(updatedAt := b)
    ensures Patched(t, first, a).id == t.id && Patched(t, first, a).createdAt == t.createdAt
  {
  }

  /** The topics `delete` keeps: every one with another id. */
  function Others(topics: seq<Topic>, id: string): (r: seq<Topic>)
    ensures forall i :: 0 <= i < |r| ==> r[i].id != id && r[i] in topics
    ensures forall i :: 0 <= i < |topics| && topics[i].id != id ==> topics[i] in r
  {
    Filter(topics, (t: Topic) => t.id != id)
  }

  /** `delete`: `false` and no change when no topic has that id; otherwise
      drop every topic with that id, its questions directory and its index
      entry. */
  method Delete(db: LazyDatabase, id: string) returns (found: bool)
    requires db.Valid()
    modifies db, db.index
    ensures db.Valid() && db.index == old(db.index)
    ensures found <==> exists j :: 0 <= j < |old(db.topics)| && old(db.topics)[j].id == id
    ensures !found ==>
      && db.topics == old(db.topics) && db.files == old(db.files)
      && db.index.topicsIndex == old(db.index.topicsIndex) && db.index.globalTags == old(db.index.globalTags)
    ensures found ==>
      && db.topics == Others(old(db.topics), id) && db.files == old(db.files) - {id}
      && db.index.topicsIndex == old(db.index.topicsIndex) - {id}
      && db.index.globalTags == if id in old(db.index.topicsIndex)
                                then Index.WithdrawnFrom(old(db.index.globalTags), old(db.index.topicsIndex)[id].tags, id)
                                else old(db.index.globalTags)
    ensures db.progress == old(db.progress) && db.sessions == old(db.sessions) && db.sessionIds == old(db.sessionIds)
  {
    if TopicPosition(db.topics, id).None? {
      return false;
    }
    db.topics := Others(db.topics, id);
    db.files := db.files - {id};
    db.index.RemoveTopic(id);
    found := true;
  }

  /** `count`. */
  function Count(topics: seq<Topic>): nat
  {
    |topics|
  }

  /** `create` adds one topic; `delete` of a present id removes at least
      one and of an absent id none. */
  lemma CountChanges(topics: seq<Topic>, t: Topic, id: string)
    ensures Count(topics + [t]) == Count(topics) + 1
    ensures (exists j :: 0 <= j < |topics| && topics[j].id == id) ==> Count(Others(topics, id)) < Count(topics)
    ensures (forall j :: 0 <= j < |topics| ==> topics[j].id != id) ==> Others(topics, id) == topics
  {
  }

  /** The matching rule of `search`: the lowercased keyword occurs in the
      lowercased name or description. */
  ghost predicate TopicMatches(t: Topic, keyword: string)
  {
    Occurs(Lower(t.name), Lower(keyword)) || Occurs(Lower(t.description), Lower(keyword))
  }

  /** `search`: the matching topics, in list order. */
  function Search(topics: seq<Topic>, keyword: string): (r: seq<Topic>)
    ensures |r| <= |topics|
    ensures forall i :: 0 <= i < |r| ==> r[i] in topics && TopicMatches(r[i], keyword)
    ensures forall i :: 0 <= i < |topics| && TopicMatches(topics[i], keyword) ==> topics[i] in r
  {
    var k := Lower(keyword);
    Filter(topics, (t: Topic) => Contains(Lower(t.name), k) || Contains(Lower(t.description), k))
  }

  /** The empty keyword matches every topic, and the keyword's case does
      not matter. */
  lemma SearchProperties(topics: seq<Topic>, keyword: string)
    ensures Search(topics, "") == topics
    ensures Search(topics, Lower(keyword)) == Search(topics, keyword)
  {
    forall s: string ensures Contains(s, "") {
      assert MatchAt(s, "", 0);
    }
    assert Lower(Lower(keyword)) == Lower(keyword);
  }
}
