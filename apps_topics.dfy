// The topics repository of the SQLite backend. Every write keeps the sync
// bookkeeping that feeds the sync engine: `create` inserts an unsynced row
// at version 1, `update` clears `synced_at` and bumps the version, and
// `delete` soft-deletes the topic together with its questions and progress.
module AppsTopics {
  import opened Wrappers
  import opened Models
  import opened SqliteDb
  import opened Codec
  import opened Sorting
  import Sync

  // ---- reading rows ----

  /** The subtopics column: NULL and undecodable text both read as an
      empty list; the JSON `null` reads as None. */
  function DecodeSubtopics(c: Codec, col: Option<string>): (r: Option<seq<string>>)
    ensures col.None? ==> r == Some([])
    ensures col.Some? && DecodeOptStrings(c, col.value).None? ==> r == Some([])
  {
    if col.None? then Some([])
    else
      var parsed := DecodeOptStrings(c, col.value);
      if parsed.Some? then parsed.value else Some([])
  }

  /** The `Topic` a query builds from a row; NULL text columns read as "". */
  function DecodeTopic(c: Codec, id: string, r: TopicRow): Topic
  {
    Topic(id, r.name, r.description.UnwrapOr(""), r.slug, r.icon.UnwrapOr(""), r.color.UnwrapOr(""),
          DecodeSubtopics(c, r.subtopics), r.orderIndex, r.createdAt, r.updatedAt)
  }

  /** `get_by_id`: the row with that id, soft-deleted or not. */
  function GetById(c: Codec, topics: map<string, TopicRow>, id: string): (r: Option<Topic>)
    ensures r.Some? <==> id in topics
    ensures r.Some? ==> r.value.id == id
  {
    if id in topics then Some(DecodeTopic(c, id, topics[id])) else None
  }

  function TopicOrder(t: Topic): int { t.order }

  /** `get_all`'s row loop: the rows not soft-deleted, in the order the
      query returns them. */
  method LiveTopics(c: Codec, topics: map<string, TopicRow>) returns (out: seq<Topic>)
    ensures forall i :: 0 <= i < |out| ==>
      out[i].id in topics && topics[out[i].id].sync.deleted == 0 && out[i] == DecodeTopic(c, out[i].id, topics[out[i].id])
    ensures forall k :: k in topics && topics[k].sync.deleted == 0 ==> exists i :: 0 <= i < |out| && out[i].id == k
    ensures NoDup(out)
  {
    out := [];
    var todo := topics.Keys;
    while todo != {}
      invariant todo <= topics.Keys
      invariant forall i :: 0 <= i < |out| ==>
        out[i].id in topics && out[i].id !in todo && topics[out[i].id].sync.deleted == 0
        && out[i] == DecodeTopic(c, out[i].id, topics[out[i].id])
      invariant forall k :: k in topics && k !in todo && topics[k].sync.deleted == 0 ==>
        exists i :: 0 <= i < |out| && out[i].id == k
      invariant NoDup(out)
      decreases todo
    {
      var k :| k in todo;
      if topics[k].sync.deleted == 0 {
        ghost var before := out;
        out := out + [DecodeTopic(c, k, topics[k])];
        assert out[|out| - 1].id == k;
        assert forall i :: 0 <= i < |before| ==> out[i] == before[i];
      }
      todo := todo - {k};
    }
  }

  /** `get_all`: exactly the topics not soft-deleted, each once, ordered by
      `order_index`. */
  method GetAll(db: Database, c: Codec) returns (topics: seq<Topic>)
    ensures SortedBy(topics, TopicOrder)
    ensures forall i :: 0 <= i < |topics| ==>
      topics[i].id in db.topics && db.topics[topics[i].id].sync.deleted == 0
      && topics[i] == DecodeTopic(c, topics[i].id, db.topics[topics[i].id])
    ensures forall k :: k in db.topics && db.topics[k].sync.deleted == 0 ==>
      exists i :: 0 <= i < |topics| && topics[i].id == k
    ensures NoDup(topics)
  {
    var rows := LiveTopics(c, db.topics);
    topics := SortBy(rows, TopicOrder);
    SortBySorted(rows, TopicOrder);
    PermutationNoDup(rows, topics);
    forall i | 0 <= i < |topics|
      ensures topics[i].id in db.topics && db.topics[topics[i].id].sync.deleted == 0
      ensures topics[i] == DecodeTopic(c, topics[i].id, db.topics[topics[i].id])
    {
      assert topics[i] in multiset(rows);
    }
    forall k | k in db.topics && db.topics[k].sync.deleted == 0
      ensures exists i :: 0 <= i < |topics| && topics[i].id == k
    {
      var j :| 0 <= j < |rows| && rows[j].id == k;
      assert rows[j] in multiset(topics);
    }
  }

  // ---- create ----

  /** The row `create` inserts: the dto's fields, the subtopics as JSON
      (`null` when absent), unsynced at version 1. */
  function NewTopicRow(c: Codec, dto: CreateTopicDto, now: string): TopicRow
  {
    TopicRow(dto.name, Some(dto.description), dto.slug, Some(dto.icon), Some(dto.color),
             Some(EncodeOptStrings(c, dto.subtopics)), dto.order, now, now, SyncMeta(1, None, 0, None))
  }

  /** The topic `create` returns. */
  function CreatedTopic(id: string, dto: CreateTopicDto, now: string): Topic
  {
    Topic(id, dto.name, dto.description, dto.slug, dto.icon, dto.color, dto.subtopics, dto.order, now, now)
  }

  /** What `create` returns is what a later read of the row gives back,
      and the new row is waiting to be pushed. */
  lemma CreatedTopicReadsBack(c: Codec, id: string, dto: CreateTopicDto, now: string)
    requires Lawful(c)
    ensures DecodeTopic(c, id, NewTopicRow(c, dto, now)) == CreatedTopic(id, dto, now)
    ensures Sync.Selected(NewTopicRow(c, dto, now).sync, false)
  {
    OptStringsRoundTrip(c, dto.subtopics);
  }

  /** `create`; `id` is the freshly generated UUID and `now` the clock
      reading. A clash with an existing id fails the INSERT. */
  method Create(db: Database, c: Codec, dto: CreateTopicDto, id: string, now: string) returns (r: Result<Topic, string>)
    modifies db
    ensures id in old(db.topics) ==> r == Err(DbError) && db.topics == old(db.topics)
    ensures id !in old(db.topics) ==>
      r == Ok(CreatedTopic(id, dto, now)) && db.topics == old(db.topics)[id := NewTopicRow(c, dto, now)]
    ensures db.questions == old(db.questions) && db.progress == old(db.progress)
    ensures db.sessions == old(db.sessions) && db.checkpoint == old(db.checkpoint)
  {
    if id in db.topics {
      return Err(DbError);
    }
    db.topics := db.topics[id := NewTopicRow(c, dto, now)];
    r := Ok(CreatedTopic(id, dto, now));
  }

  // ---- update ----

  /** The row after `update`'s UPDATE statement: `updated_at` refreshed,
      `synced_at` cleared, the version bumped, and exactly the fields the
      dto gives replaced. */
  function UpdatedTopicRow(c: Codec, row: TopicRow, dto: UpdateTopicDto, now: string): TopicRow
  {
    TopicRow(
      dto.name.UnwrapOr(row.name),
      if dto.description.Some? then dto.description else row.description,
      dto.slug.UnwrapOr(row.slug),
      if dto.icon.Some? then dto.icon else row.icon,
      if dto.color.Some? then dto.color else row.color,
      if dto.subtopics.Some? then Some(c.encodeStrings(dto.subtopics.value)) else row.subtopics,
      dto.order.UnwrapOr(row.orderIndex),
      row.createdAt, now,
      row.sync.(syncedAt := None, syncVersion := row.sync.syncVersion + 1))
  }

  /** An update that names no field still counts as a change: only
      `updated_at` and the sync bookkeeping move. */
  lemma EmptyUpdateTouchesOnlyBookkeeping(c: Codec, row: TopicRow, now: string)
    ensures var u := UpdatedTopicRow(c, row, UpdateTopicDto(None, None, None, None, None, None, None), now);
      u.(updatedAt := row.updatedAt, sync := row.sync) == row && u.sync.syncVersion == row.sync.syncVersion + 1
  {
  }

  /** The dto whose given fields are those of `second`, falling back to
      `first`. */
  function Overlay(first: UpdateTopicDto, second: UpdateTopicDto): UpdateTopicDto
  {
    UpdateTopicDto(
      if second.name.Some? then second.name else first.name,
      if second.description.Some? then second.description else first.description,
      if second.slug.Some? then second.slug else first.slug,
      if second.icon.Some? then second.icon else first.icon,
      if second.color.Some? then second.color else first.color,
      if second.subtopics.Some? then second.subtopics else first.subtopics,
      if second.order.Some? then second.order else first.order)
  }

  /** Two updates in a row leave the same topic fields as one update with
      the later dto laid over the earlier; each counts as its own version. */
  lemma UpdatesCompose(c: Codec, row: TopicRow, d1: UpdateTopicDto, d2: UpdateTopicDto, t1: string, t2: string)
    ensures UpdatedTopicRow(c, UpdatedTopicRow(c, row, d1, t1), d2, t2)
      == UpdatedTopicRow(c, row, Overlay(d1, d2), t2).(sync := row.sync.(syncedAt := None, syncVersion := row.sync.syncVersion + 2))
  {
  }

  /** An updated topic that was not soft-deleted is in the next push as an
      active record. */
  lemma UpdateQueuesForSync(c: Codec, row: TopicRow, dto: UpdateTopicDto, now: string)
    requires row.sync.deleted == 0
    ensures Sync.Selected(UpdatedTopicRow(c, row, dto, now).sync, false)
    ensures UpdatedTopicRow(c, row, dto, now).sync.syncVersion > row.sync.syncVersion
  {
  }

  /** The SET clauses of `update`'s UPDATE statement, one field at a time. */
  method PatchRow(c: Codec, current: TopicRow, dto: UpdateTopicDto, now: string) returns (row: TopicRow)
    ensures row == UpdatedTopicRow(c, current, dto, now)
  {
    row := current;
    row := row.(updatedAt := now, sync := row.sync.(syncedAt := None, syncVersion := row.sync.syncVersion + 1));
    if dto.name.Some? {
      row := row.(name := dto.name.value);
    }
    if dto.description.Some? {
      row := row.(description := dto.description);
    }
    if dto.slug.Some? {
      row := row.(slug := dto.slug.value);
    }
    if dto.icon.Some? {
      row := row.(icon := dto.icon);
    }
    if dto.color.Some? {
      row := row.(color := dto.color);
    }
    if dto.subtopics.Some? {
      row := row.(subtopics := Some(c.encodeStrings(dto.subtopics.value)));
    }
    if dto.order.Some? {
      row := row.(orderIndex := dto.order.value);
    }
  }

  /** `update`: None for an unknown id, otherwise the SET clauses applied
      and the row read back. */
  method Update(db: Database, c: Codec, id: string, dto: UpdateTopicDto, now: string) returns (r: Result<Option<Topic>, string>)
    modifies db
    ensures id !in old(db.topics) ==> r == Ok(None) && db.topics == old(db.topics)
    ensures id in old(db.topics) ==>
      db.topics == old(db.topics)[id := UpdatedTopicRow(c, old(db.topics)[id], dto, now)]
      && r == Ok(Some(DecodeTopic(c, id, db.topics[id])))
    ensures db.questions == old(db.questions) && db.progress == old(db.progress)
    ensures db.sessions == old(db.sessions) && db.checkpoint == old(db.checkpoint)
  {
    if id !in db.topics {
      return Ok(None);
    }
    var row := PatchRow(c, db.topics[id], dto, now);
    db.topics := db.topics[id := row];
    r := Ok(GetById(c, db.topics, id));
  }

  // ---- delete ----

  /** The cascading UPDATEs of `delete`, on `questions` and on
      `question_progress`: every live row of the topic soft-deleted.
      `topicOf` and `syncOf` read a row's topic and sync columns, and
      `withSync` writes its sync columns. */
  function Cascade<R(!new)>(rows: map<string, R>, topicOf: R -> string, syncOf: R -> SyncMeta,
                      withSync: (R, SyncMeta) -> R, id: string, now: int): (r: map<string, R>)
    ensures r.Keys == rows.Keys
    ensures forall k :: k in rows && (topicOf(rows[k]) != id || syncOf(rows[k]).deleted != 0) ==> r[k] == rows[k]
    ensures forall k :: k in rows && topicOf(rows[k]) == id && syncOf(rows[k]).deleted == 0 ==>
      r[k] == withSync(rows[k], SoftDeleted(syncOf(rows[k]), now))
    ensures SyncLens(topicOf, syncOf, withSync) ==>
      forall k :: k in r && topicOf(r[k]) == id ==> syncOf(r[k]).deleted != 0
  {
    map k | k in rows ::
      if topicOf(rows[k]) == id && syncOf(rows[k]).deleted == 0
      then withSync(rows[k], SoftDeleted(syncOf(rows[k]), now))
      else rows[k]
  }

  /** `withSync` sets the sync columns and leaves the topic alone. */
  ghost predicate SyncLens<R(!new)>(topicOf: R -> string, syncOf: R -> SyncMeta, withSync: (R, SyncMeta) -> R)
  {
    forall x, m :: syncOf(withSync(x, m)) == m && topicOf(withSync(x, m)) == topicOf(x)
  }

  /** A second cascade for the same topic finds no live row and changes
      nothing, whenever it runs. */
  lemma CascadeTwice<R(!new)>(rows: map<string, R>, topicOf: R -> string, syncOf: R -> SyncMeta,
                        withSync: (R, SyncMeta) -> R, id: string, now: int, later: int)
    requires SyncLens(topicOf, syncOf, withSync)
    ensures var once := Cascade(rows, topicOf, syncOf, withSync, id, now);
      Cascade(once, topicOf, syncOf, withSync, id, later) == once
  {
    var once := Cascade(rows, topicOf, syncOf, withSync, id, now);
    var twice := Cascade(once, topicOf, syncOf, withSync, id, later);
    forall k | k in twice
      ensures twice[k] == once[k]
    {
      if topicOf(once[k]) == id {
        assert syncOf(once[k]).deleted != 0;
      }
    }
  }

  // The columns the cascade reads and writes, for each child table.
  function QuestionTopic(q: QuestionRow): string { q.topicId }
  function QuestionSync(q: QuestionRow): SyncMeta { q.sync }
  function WithQuestionSync(q: QuestionRow, m: SyncMeta): QuestionRow { q.(sync := m) }
  function ProgressTopic(p: ProgressRow): string { p.topicId }
  function ProgressSync(p: ProgressRow): SyncMeta { p.sync }
  function WithProgressSync(p: ProgressRow, m: SyncMeta): ProgressRow { p.(sync := m) }

  /** `delete`: soft-deletes the topic's questions and progress that are
      not already deleted, then the topic itself; true iff the topic row
      existed. Rows are kept, flagged, so that the next push carries the
      deletions. */
  method Delete(db: Database, id: string, now: int) returns (found: bool)
    modifies db
    ensures found <==> id in old(db.topics)
    ensures db.topics.Keys == old(db.topics).Keys
    ensures forall k :: k in db.topics ==>
      db.topics[k] == if k == id then old(db.topics)[k].(sync := SoftDeleted(old(db.topics)[k].sync, now)) else old(db.topics)[k]
    ensures db.questions == Cascade(old(db.questions), QuestionTopic, QuestionSync, WithQuestionSync, id, now)
    ensures db.progress == Cascade(old(db.progress), ProgressTopic, ProgressSync, WithProgressSync, id, now)
    ensures forall k :: k in db.questions && db.questions[k].topicId == id ==> db.questions[k].sync.deleted != 0
    ensures forall k :: k in db.progress && db.progress[k].topicId == id ==> db.progress[k].sync.deleted != 0
    ensures db.sessions == old(db.sessions) && db.checkpoint == old(db.checkpoint)
  {
    assert SyncLens(QuestionTopic, QuestionSync, WithQuestionSync);
    assert SyncLens(ProgressTopic, ProgressSync, WithProgressSync);
    db.questions := Cascade(db.questions, QuestionTopic, QuestionSync, WithQuestionSync, id, now);
    db.progress := Cascade(db.progress, ProgressTopic, ProgressSync, WithProgressSync, id, now);
    found := id in db.topics;
    if found {
      db.topics := db.topics[id := db.topics[id].(sync := SoftDeleted(db.topics[id].sync, now))];
    }
  }

  /** A soft-deleted row is in the next push as a delete record with empty
      data and the bumped version. */
  lemma SoftDeleteQueuesTombstone(table: string, key: string, m: SyncMeta, data: Sync.Data, now: int)
    ensures Sync.Selected(SoftDeleted(m, now), true)
    ensures Sync.RecordOf(table, key, SoftDeleted(m, now), data) == Sync.SyncRecord(table, key, map[], m.syncVersion + 1, true)
  {
  }
}
