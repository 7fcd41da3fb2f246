// The sync engine of the SQLite backend: collecting unsynced rows as
// sync records, applying the records pulled from the server, and marking
// pushed records as synced. The server's delta call is a parameter of
// `SyncNow`; tokens, the HTTP client and the environment are not modelled.
module Sync {
  import opened Wrappers
  import opened SqliteDb
  import opened Sorting

  // ---- the JSON values carried by a record ----

  /** A JSON value as the sync code reads it: a string, an integer, null,
      or anything else (booleans, floats, arrays, objects). */
  datatype Json = JStr(str: string) | JInt(num: int) | JNull | JOther

  type Data = map<string, Json>

  /** `value[key]`: a missing key reads as null. */
  function Field(d: Data, key: string): Json
  {
    if key in d then d[key] else JNull
  }

  /** `Value::as_str`. */
  function AsStr(j: Json): Option<string>
  {
    if j.JStr? then Some(j.str) else None
  }

  /** `Value::as_i64`. */
  function AsI64(j: Json): Option<int>
  {
    if j.JInt? then Some(j.num) else None
  }

  datatype SyncRecord = SyncRecord(tableName: string, rowId: string, data: Data, version: int, deleted: bool)

  /** No value of the object is null. */
  predicate NoNulls(d: Data)
  {
    forall k :: k in d ==> d[k] != JNull
  }

  /** Adds a nullable text column: present as a string, or absent once
      nulls are removed from the object. */
  function With(d: Data, key: string, v: Option<string>): (r: Data)
    ensures NoNulls(d) ==> NoNulls(r)
    ensures Field(r, key) == (if v.Some? then JStr(v.value) else Field(d, key))
    ensures forall k :: k != key ==> Field(r, k) == Field(d, k)
  {
    if v.Some? then d[key := JStr(v.value)] else d
  }

  // ---- the data objects built by `collect_local_changes` ----

  function TopicData(r: TopicRow): (d: Data)
    ensures NoNulls(d)
  {
    var d := map["name" := JStr(r.name), "slug" := JStr(r.slug), "orderIndex" := JInt(r.orderIndex),
                 "createdAt" := JStr(r.createdAt), "updatedAt" := JStr(r.updatedAt)];
    With(With(With(With(d, "description", r.description), "icon", r.icon), "color", r.color), "subtopics", r.subtopics)
  }

  function QuestionData(r: QuestionRow): (d: Data)
    ensures NoNulls(d)
  {
    var d := map["topicSyncUuid" := JStr(r.topicId), "questionNumber" := JInt(r.questionNumber),
                 "question" := JStr(r.question), "answer" := JStr(r.answer), "orderIndex" := JInt(r.orderIndex),
                 "createdAt" := JStr(r.createdAt), "updatedAt" := JStr(r.updatedAt)];
    With(With(With(d, "subtopic", r.subtopic), "tags", r.tags), "difficulty", r.difficulty)
  }

  /** Progress rows are keyed by question id, which travels as
      `questionSyncUuid`. */
  function ProgressData(questionId: string, r: ProgressRow): (d: Data)
    ensures NoNulls(d)
  {
    var d := map["questionSyncUuid" := JStr(questionId), "topicSyncUuid" := JStr(r.topicId), "status" := JStr(r.status),
                 "confidenceLevel" := JInt(r.confidenceLevel), "timesReviewed" := JInt(r.timesReviewed),
                 "timesCorrect" := JInt(r.timesCorrect), "timesIncorrect" := JInt(r.timesIncorrect),
                 "createdAt" := JStr(r.createdAt), "updatedAt" := JStr(r.updatedAt)];
    With(With(d, "lastReviewedAt", r.lastReviewedAt), "nextReviewAt", r.nextReviewAt)
  }

  function SessionData(r: SessionRow): (d: Data)
    ensures NoNulls(d)
  {
    var d := map["sessionType" := JStr(r.sessionType), "currentIndex" := JInt(r.currentIndex),
                 "startedAt" := JStr(r.startedAt)];
    With(With(With(With(d, "topicIds", r.topicIds), "questionIds", r.questionIds), "completedAt", r.completedAt), "results", r.results)
  }

  // ---- the rows written by `apply_remote_changes` ----

  function Text(d: Data, key: string, default: string): string
  {
    AsStr(Field(d, key)).UnwrapOr(default)
  }

  function Int(d: Data, key: string): int
  {
    AsI64(Field(d, key)).UnwrapOr(0)
  }

  /** The sync columns of a pulled row: the record's version, stamped
      `now`, not deleted; `deleted_at` is whatever the row had before
      (an UPDATE does not touch it, an INSERT leaves it NULL). */
  function Pulled(version: int, now: int, deletedAt: Option<int>): SyncMeta
  {
    SyncMeta(version, Some(now), 0, deletedAt)
  }

  function TopicFromData(d: Data, meta: SyncMeta): TopicRow
  {
    TopicRow(Text(d, "name", ""), AsStr(Field(d, "description")), Text(d, "slug", ""),
             AsStr(Field(d, "icon")), AsStr(Field(d, "color")), AsStr(Field(d, "subtopics")),
             Int(d, "orderIndex"), Text(d, "createdAt", ""), Text(d, "updatedAt", ""), meta)
  }

  function QuestionFromData(d: Data, meta: SyncMeta): QuestionRow
  {
    QuestionRow(Text(d, "topicSyncUuid", ""), AsStr(Field(d, "subtopic")), Int(d, "questionNumber"),
                Text(d, "question", ""), Text(d, "answer", ""), AsStr(Field(d, "tags")),
                AsStr(Field(d, "difficulty")), Int(d, "orderIndex"),
                Text(d, "createdAt", ""), Text(d, "updatedAt", ""), meta)
  }

  function ProgressFromData(d: Data, meta: SyncMeta): ProgressRow
  {
    ProgressRow(Text(d, "topicSyncUuid", ""), Text(d, "status", "NotStudied"), Int(d, "confidenceLevel"),
                Int(d, "timesReviewed"), Int(d, "timesCorrect"), Int(d, "timesIncorrect"),
                AsStr(Field(d, "lastReviewedAt")), AsStr(Field(d, "nextReviewAt")),
                Text(d, "createdAt", ""), Text(d, "updatedAt", ""), meta)
  }

  function SessionFromData(d: Data, meta: SyncMeta): SessionRow
  {
    SessionRow(Text(d, "sessionType", "Random"), AsStr(Field(d, "topicIds")), AsStr(Field(d, "questionIds")),
               Int(d, "currentIndex"), Text(d, "startedAt", ""), AsStr(Field(d, "completedAt")),
               AsStr(Field(d, "results")), meta)
  }

  /** The key a pulled progress record is stored under. */
  function ProgressKey(r: SyncRecord): string
  {
    Text(r.data, "questionSyncUuid", r.rowId)
  }

  // The wire lemmas are split by field so that each proof stays small.

  lemma TopicTextFields(t: TopicRow)
    ensures Field(TopicData(t), "name") == JStr(t.name)
    ensures Field(TopicData(t), "slug") == JStr(t.slug)
    ensures Field(TopicData(t), "orderIndex") == JInt(t.orderIndex)
  {
  }

  lemma TopicTimeFields(t: TopicRow)
    ensures Field(TopicData(t), "createdAt") == JStr(t.createdAt)
    ensures Field(TopicData(t), "updatedAt") == JStr(t.updatedAt)
  {
  }

  lemma TopicOptionalFields(t: TopicRow)
    ensures AsStr(Field(TopicData(t), "description")) == t.description
    ensures AsStr(Field(TopicData(t), "icon")) == t.icon
    ensures AsStr(Field(TopicData(t), "color")) == t.color
    ensures AsStr(Field(TopicData(t), "subtopics")) == t.subtopics
  {
  }

  /** Flattening a row into its record data and reading it back on the
      other side gives the same column values. */
  lemma TopicSurvivesTheWire(t: TopicRow, meta: SyncMeta)
    ensures TopicFromData(TopicData(t), meta) == t.(sync := meta)
  {
    TopicTextFields(t);
    TopicTimeFields(t);
    TopicOptionalFields(t);
  }

  lemma QuestionTextFields(q: QuestionRow)
    ensures Field(QuestionData(q), "topicSyncUuid") == JStr(q.topicId)
    ensures Field(QuestionData(q), "questionNumber") == JInt(q.questionNumber)
    ensures Field(QuestionData(q), "question") == JStr(q.question)
    ensures Field(QuestionData(q), "answer") == JStr(q.answer)
  {
  }

  lemma QuestionOrderFields(q: QuestionRow)
    ensures Field(QuestionData(q), "orderIndex") == JInt(q.orderIndex)
    ensures Field(QuestionData(q), "createdAt") == JStr(q.createdAt)
    ensures Field(QuestionData(q), "updatedAt") == JStr(q.updatedAt)
  {
  }

  lemma QuestionSurvivesTheWire(q: QuestionRow, meta: SyncMeta)
    ensures QuestionFromData(QuestionData(q), meta) == q.(sync := meta)
  {
    QuestionTextFields(q);
    QuestionOrderFields(q);
  }

  lemma ProgressKeyFields(id: string, p: ProgressRow)
    ensures Field(ProgressData(id, p), "questionSyncUuid") == JStr(id)
    ensures Field(ProgressData(id, p), "topicSyncUuid") == JStr(p.topicId)
    ensures Field(ProgressData(id, p), "status") == JStr(p.status)
  {
  }

  lemma ProgressCountFields(id: string, p: ProgressRow)
    ensures Field(ProgressData(id, p), "confidenceLevel") == JInt(p.confidenceLevel)
    ensures Field(ProgressData(id, p), "timesReviewed") == JInt(p.timesReviewed)
    ensures Field(ProgressData(id, p), "timesCorrect") == JInt(p.timesCorrect)
    ensures Field(ProgressData(id, p), "timesIncorrect") == JInt(p.timesIncorrect)
  {
  }

  lemma ProgressTimeFields(id: string, p: ProgressRow)
    ensures Field(ProgressData(id, p), "createdAt") == JStr(p.createdAt)
    ensures Field(ProgressData(id, p), "updatedAt") == JStr(p.updatedAt)
  {
  }

  lemma ProgressSurvivesTheWire(id: string, p: ProgressRow, meta: SyncMeta)
    ensures ProgressFromData(ProgressData(id, p), meta) == p.(sync := meta)
    ensures Field(ProgressData(id, p), "questionSyncUuid") == JStr(id)
  {
    ProgressKeyFields(id, p);
    ProgressCountFields(id, p);
    ProgressTimeFields(id, p);
  }

  lemma SessionFields(s: SessionRow)
    ensures Field(SessionData(s), "sessionType") == JStr(s.sessionType)
    ensures Field(SessionData(s), "currentIndex") == JInt(s.currentIndex)
    ensures Field(SessionData(s), "startedAt") == JStr(s.startedAt)
  {
  }

  lemma SessionSurvivesTheWire(s: SessionRow, meta: SyncMeta)
    ensures SessionFromData(SessionData(s), meta) == s.(sync := meta)
  {
    SessionFields(s);
  }

  /** A record whose data holds none of the fields writes the defaults:
      empty text, zero, NULL, "NotStudied" and "Random"; a progress record
      without `questionSyncUuid` is stored under its row id. */
  lemma MissingFieldsDefault(meta: SyncMeta, r: SyncRecord)
    requires r.data == map[]
    ensures TopicFromData(map[], meta) == TopicRow("", None, "", None, None, None, 0, "", "", meta)
    ensures QuestionFromData(map[], meta) == QuestionRow("", None, 0, "", "", None, None, 0, "", "", meta)
    ensures ProgressFromData(map[], meta) == ProgressRow("", "NotStudied", 0, 0, 0, 0, None, None, "", "", meta)
    ensures SessionFromData(map[], meta) == SessionRow("Random", None, None, 0, "", None, None, meta)
    ensures ProgressKey(r) == r.rowId
  {
  }

  // ---- collecting local changes ----

  /** The rows a collection query selects: not yet synced, and flagged
      deleted (`deleted = 1`) or active (`deleted = 0`) as asked. */
  predicate Selected(m: SyncMeta, deletedRows: bool)
  {
    m.syncedAt.None? && m.deleted == (if deletedRows then 1 else 0)
  }

  /** Rows some collection query selects. */
  predicate Collectable(m: SyncMeta)
  {
    m.syncedAt.None? && (m.deleted == 0 || m.deleted == 1)
  }

  /** The record for a collected row: a deleted row travels with empty
      data, an active row with its data; both carry the row's version. */
  function RecordOf(table: string, key: string, m: SyncMeta, data: Data): (r: SyncRecord)
    ensures r.tableName == table && r.rowId == key && r.version == m.syncVersion
    ensures r.deleted <==> m.deleted == 1
    ensures r.deleted ==> r.data == map[]
    ensures !r.deleted ==> r.data == data
  {
    if m.deleted == 1 then SyncRecord(table, key, map[], m.syncVersion, true)
    else SyncRecord(table, key, data, m.syncVersion, false)
  }

  /** A row of any of the four synced tables. */
  datatype AnyRow = T(topic: TopicRow) | Q(question: QuestionRow) | P(progress: ProgressRow) | S(session: SessionRow)
  {
    function Meta(): SyncMeta
    {
      match this
      case T(r) => r.sync
      case Q(r) => r.sync
      case P(r) => r.sync
      case S(r) => r.sync
    }

    function WithMeta(m: SyncMeta): (r: AnyRow)
      ensures r.Meta() == m
    {
      match this
      case T(x) => T(x.(sync := m))
      case Q(x) => Q(x.(sync := m))
      case P(x) => P(x.(sync := m))
      case S(x) => S(x.(sync := m))
    }

    /** The data object `collect_local_changes` builds for the row stored
        under `key`. */
    function Data(key: string): (d: Data)
      ensures NoNulls(d)
    {
      match this
      case T(r) => TopicData(r)
      case Q(r) => QuestionData(r)
      case P(r) => ProgressData(key, r)
      case S(r) => SessionData(r)
    }
  }

  /** The four table names the sync engine knows. */
  predicate Known(table: string)
  {
    table == "topics" || table == "questions" || table == "progress" || table == "quiz_sessions"
  }

  /** The row of `table` stored under `key`; unknown tables hold nothing. */
  function RowAt(t: Tables, table: string, key: string): (r: Option<AnyRow>)
    ensures r.Some? ==> Known(table)
    ensures table == "topics" ==> r == (if key in t.topics then Some(T(t.topics[key])) else None)
    ensures table == "questions" ==> r == (if key in t.questions then Some(Q(t.questions[key])) else None)
    ensures table == "progress" ==> r == (if key in t.progress then Some(P(t.progress[key])) else None)
    ensures table == "quiz_sessions" ==> r == (if key in t.sessions then Some(S(t.sessions[key])) else None)
  {
    if table == "topics" then (if key in t.topics then Some(T(t.topics[key])) else None)
    else if table == "questions" then (if key in t.questions then Some(Q(t.questions[key])) else None)
    else if table == "progress" then (if key in t.progress then Some(P(t.progress[key])) else None)
    else if table == "quiz_sessions" then (if key in t.sessions then Some(S(t.sessions[key])) else None)
    else None
  }

  /** `r` is the record of a collectable row of `t`. */
  ghost predicate IsChangeOf(t: Tables, r: SyncRecord)
  {
    var row := RowAt(t, r.tableName, r.rowId);
    row.Some? && Collectable(row.value.Meta())
    && r == RecordOf(r.tableName, r.rowId, row.value.Meta(), row.value.Data(r.rowId))
  }

  ghost predicate Lists(out: seq<SyncRecord>, table: string, key: string)
  {
    exists i :: 0 <= i < |out| && out[i].tableName == table && out[i].rowId == key
  }

  /** `out` lists every change of `t` exactly once and nothing else. */
  ghost predicate IsCollection(t: Tables, out: seq<SyncRecord>)
  {
    && (forall i :: 0 <= i < |out| ==> IsChangeOf(t, out[i]))
    && (forall i, j :: 0 <= i < j < |out| ==> out[i].tableName != out[j].tableName || out[i].rowId != out[j].rowId)
    && (forall table, k :: RowAt(t, table, k).Some? && Collectable(RowAt(t, table, k).value.Meta()) ==> Lists(out, table, k))
  }

  /** What one collection query and its row loop produce: the records of
      the rows of `m` that `Selected` picks, one per row. */
  ghost predicate Segment<R>(table: string, m: map<string, R>, meta: R -> SyncMeta,
                             data: (string, R) -> Data, deletedRows: bool, out: seq<SyncRecord>)
  {
    && (forall i :: 0 <= i < |out| ==>
          out[i].tableName == table && out[i].rowId in m && Selected(meta(m[out[i].rowId]), deletedRows)
          && out[i] == RecordOf(table, out[i].rowId, meta(m[out[i].rowId]), data(out[i].rowId, m[out[i].rowId])))
    && (forall k :: k in m && Selected(meta(m[k]), deletedRows) ==> exists i :: 0 <= i < |out| && out[i].rowId == k)
    && (forall i, j :: 0 <= i < j < |out| ==> out[i].rowId != out[j].rowId)
  }

  /** One collection query and its row loop, in the (unspecified) order
      the query returns the rows. */
  method CollectRows<R>(table: string, m: map<string, R>, meta: R -> SyncMeta,
                        data: (string, R) -> Data, deletedRows: bool)
    returns (out: seq<SyncRecord>)
    ensures Segment(table, m, meta, data, deletedRows, out)
  {
    out := [];
    var todo := m.Keys;
    while todo != {}
      invariant todo <= m.Keys
      invariant forall i :: 0 <= i < |out| ==>
        out[i].tableName == table && out[i].rowId in m && out[i].rowId !in todo
        && Selected(meta(m[out[i].rowId]), deletedRows)
        && out[i] == RecordOf(table, out[i].rowId, meta(m[out[i].rowId]), data(out[i].rowId, m[out[i].rowId]))
      invariant forall k :: k in m && k !in todo && Selected(meta(m[k]), deletedRows) ==>
        exists i :: 0 <= i < |out| && out[i].rowId == k
      invariant forall i, j :: 0 <= i < j < |out| ==> out[i].rowId != out[j].rowId
      decreases todo
    {
      var k :| k in todo;
      if Selected(meta(m[k]), deletedRows) {
        ghost var before := out;
        out := out + [RecordOf(table, k, meta(m[k]), data(k, m[k]))];
        assert out[|out| - 1].rowId == k;
        assert forall i :: 0 <= i < |before| ==> out[i] == before[i];
      }
      todo := todo - {k};
    }
  }

  function TopicMeta(r: TopicRow): SyncMeta { r.sync }
  function QuestionMeta(r: QuestionRow): SyncMeta { r.sync }
  function ProgressMeta(r: ProgressRow): SyncMeta { r.sync }
  function SessionMeta(r: SessionRow): SyncMeta { r.sync }
  function TopicDataAt(key: string, r: TopicRow): Data { TopicData(r) }
  function QuestionDataAt(key: string, r: QuestionRow): Data { QuestionData(r) }
  function ProgressDataAt(key: string, r: ProgressRow): Data { ProgressData(key, r) }
  function SessionDataAt(key: string, r: SessionRow): Data { SessionData(r) }

  /** The records of one table: every collectable row once, nothing else. */
  ghost predicate TableCollection<R>(table: string, m: map<string, R>, meta: R -> SyncMeta,
                                     data: (string, R) -> Data, out: seq<SyncRecord>)
  {
    && (forall i :: 0 <= i < |out| ==>
          out[i].tableName == table && out[i].rowId in m && Collectable(meta(m[out[i].rowId]))
          && out[i] == RecordOf(table, out[i].rowId, meta(m[out[i].rowId]), data(out[i].rowId, m[out[i].rowId])))
    && (forall k :: k in m && Collectable(meta(m[k])) ==> exists i :: 0 <= i < |out| && out[i].rowId == k)
    && (forall i, j :: 0 <= i < j < |out| ==> out[i].rowId != out[j].rowId)
  }

  /** The deleted-rows query followed by the active-rows query of one
      table collects that table. */
  lemma JoinSegments<R>(table: string, m: map<string, R>, meta: R -> SyncMeta,
                        data: (string, R) -> Data, del: seq<SyncRecord>, act: seq<SyncRecord>)
    requires Segment(table, m, meta, data, true, del)
    requires Segment(table, m, meta, data, false, act)
    ensures TableCollection(table, m, meta, data, del + act)
  {
    var out := del + act;
    forall k | k in m && Collectable(meta(m[k]))
      ensures exists i :: 0 <= i < |out| && out[i].rowId == k
    {
      if meta(m[k]).deleted == 1 {
        var i :| 0 <= i < |del| && del[i].rowId == k;
        assert out[i].rowId == k;
      } else {
        var i :| 0 <= i < |act| && act[i].rowId == k;
        assert out[|del| + i].rowId == k;
      }
    }
  }

  /** `out` lists every change of `t` in the tables `names` exactly once
      and nothing else. */
  ghost predicate PartCollection(t: Tables, names: set<string>, out: seq<SyncRecord>)
  {
    && (forall i :: 0 <= i < |out| ==> out[i].tableName in names && IsChangeOf(t, out[i]))
    && NoRowTwice(out)
    && PartComplete(t, names, out)
  }

  ghost predicate NoRowTwice(out: seq<SyncRecord>)
  {
    forall i, j :: 0 <= i < j < |out| ==> out[i].tableName != out[j].tableName || out[i].rowId != out[j].rowId
  }

  ghost predicate PartComplete(t: Tables, names: set<string>, out: seq<SyncRecord>)
  {
    forall table, k :: table in names && RowAt(t, table, k).Some? && Collectable(RowAt(t, table, k).value.Meta()) ==> Lists(out, table, k)
  }

  lemma TopicsPart(t: Tables, out: seq<SyncRecord>)
    requires TableCollection("topics", t.topics, TopicMeta, TopicDataAt, out)
    ensures PartCollection(t, {"topics"}, out)
  {
  }

  lemma QuestionsPart(t: Tables, out: seq<SyncRecord>)
    requires TableCollection("questions", t.questions, QuestionMeta, QuestionDataAt, out)
    ensures PartCollection(t, {"questions"}, out)
  {
  }

  lemma ProgressPart(t: Tables, out: seq<SyncRecord>)
    requires TableCollection("progress", t.progress, ProgressMeta, ProgressDataAt, out)
    ensures PartCollection(t, {"progress"}, out)
  {
  }

  lemma SessionsPart(t: Tables, out: seq<SyncRecord>)
    requires TableCollection("quiz_sessions", t.sessions, SessionMeta, SessionDataAt, out)
    ensures PartCollection(t, {"quiz_sessions"}, out)
  {
  }

  /** Collections of disjoint groups of tables concatenate. */
  lemma JoinParts(t: Tables, n1: set<string>, x: seq<SyncRecord>, n2: set<string>, y: seq<SyncRecord>)
    requires PartCollection(t, n1, x) && PartCollection(t, n2, y) && n1 !! n2
    ensures PartCollection(t, n1 + n2, x + y)
  {
    JoinNoRowTwice(t, n1, x, n2, y);
    JoinComplete(t, n1, x, n2, y);
  }

  lemma JoinNoRowTwice(t: Tables, n1: set<string>, x: seq<SyncRecord>, n2: set<string>, y: seq<SyncRecord>)
    requires forall i :: 0 <= i < |x| ==> x[i].tableName in n1
    requires forall i :: 0 <= i < |y| ==> y[i].tableName in n2
    requires NoRowTwice(x) && NoRowTwice(y) && n1 !! n2
    ensures NoRowTwice(x + y)
  {
    var out := x + y;
    forall i, j | 0 <= i < j < |out|
      ensures out[i].tableName != out[j].tableName || out[i].rowId != out[j].rowId
    {
      if j < |x| { assert out[i] == x[i] && out[j] == x[j]; }
      else if i >= |x| { assert out[i] == y[i - |x|] && out[j] == y[j - |x|]; }
      else { assert out[i] == x[i] && out[j] == y[j - |x|]; }
    }
  }

  lemma JoinComplete(t: Tables, n1: set<string>, x: seq<SyncRecord>, n2: set<string>, y: seq<SyncRecord>)
    requires PartComplete(t, n1, x) && PartComplete(t, n2, y)
    ensures PartComplete(t, n1 + n2, x + y)
  {
    var out := x + y;
    forall table, k | table in n1 + n2 && RowAt(t, table, k).Some? && Collectable(RowAt(t, table, k).value.Meta())
      ensures Lists(out, table, k)
    {
      if table in n1 {
        var i :| 0 <= i < |x| && x[i].tableName == table && x[i].rowId == k;
        assert out[i] == x[i];
      } else {
        var i :| 0 <= i < |y| && y[i].tableName == table && y[i].rowId == k;
        assert out[|x| + i] == y[i];
      }
    }
  }

  lemma WholeCollection(t: Tables, out: seq<SyncRecord>)
    requires PartCollection(t, {"topics", "questions", "progress", "quiz_sessions"}, out)
    ensures IsCollection(t, out)
  {
    forall table, k | RowAt(t, table, k).Some? && Collectable(RowAt(t, table, k).value.Meta())
      ensures Lists(out, table, k)
    {
      assert table in {"topics", "questions", "progress", "quiz_sessions"};
    }
  }

  /** `collect_local_changes`: for each table, the soft-deleted unsynced rows
      as delete records, then the active unsynced rows with their data. */
  method CollectLocalChanges(db: Database) returns (records: seq<SyncRecord>)
    ensures IsCollection(db.State(), records)
  {
    var td := CollectRows("topics", db.topics, TopicMeta, TopicDataAt, true);
    var ta := CollectRows("topics", db.topics, TopicMeta, TopicDataAt, false);
    var qd := CollectRows("questions", db.questions, QuestionMeta, QuestionDataAt, true);
    var qa := CollectRows("questions", db.questions, QuestionMeta, QuestionDataAt, false);
    var pd := CollectRows("progress", db.progress, ProgressMeta, ProgressDataAt, true);
    var pa := CollectRows("progress", db.progress, ProgressMeta, ProgressDataAt, false);
    var sd := CollectRows("quiz_sessions", db.sessions, SessionMeta, SessionDataAt, true);
    var sa := CollectRows("quiz_sessions", db.sessions, SessionMeta, SessionDataAt, false);
    JoinSegments("topics", db.topics, TopicMeta, TopicDataAt, td, ta);
    JoinSegments("questions", db.questions, QuestionMeta, QuestionDataAt, qd, qa);
    JoinSegments("progress", db.progress, ProgressMeta, ProgressDataAt, pd, pa);
    JoinSegments("quiz_sessions", db.sessions, SessionMeta, SessionDataAt, sd, sa);
    var t := db.State();
    TopicsPart(t, td + ta);
    QuestionsPart(t, qd + qa);
    ProgressPart(t, pd + pa);
    SessionsPart(t, sd + sa);
    JoinParts(t, {"topics"}, td + ta, {"questions"}, qd + qa);
    JoinParts(t, {"topics", "questions"}, td + ta + (qd + qa), {"progress"}, pd + pa);
    JoinParts(t, {"topics", "questions", "progress"}, td + ta + (qd + qa) + (pd + pa), {"quiz_sessions"}, sd + sa);
    records := td + ta + (qd + qa) + (pd + pa) + (sd + sa);
    WholeCollection(t, records);
  }

  /** A collection lists nothing for rows that are already synced, and
      lists every collectable row: it is empty exactly when no row is
      collectable. */
  lemma CollectionEmpty(t: Tables, out: seq<SyncRecord>)
    requires IsCollection(t, out)
    ensures out == [] <==> forall table, k :: RowAt(t, table, k).Some? ==> !Collectable(RowAt(t, table, k).value.Meta())
  {
    if out != [] {
      assert IsChangeOf(t, out[0]);
    }
  }

  // ---- applying remote changes ----

  /** The records with the given `deleted` flag, in their original order. */
  function Select(recs: seq<SyncRecord>, deleted: bool): (r: seq<SyncRecord>)
    ensures forall x :: x in r <==> x in recs && x.deleted == deleted
  {
    if recs == [] then []
    else if recs[0].deleted == deleted then [recs[0]] + Select(recs[1..], deleted)
    else Select(recs[1..], deleted)
  }

  /** Every record goes to exactly one of the two phases. */
  lemma {:induction false} SelectPartitions(recs: seq<SyncRecord>)
    ensures multiset(Select(recs, false)) + multiset(Select(recs, true)) == multiset(recs)
  {
    if recs != [] {
      SelectPartitions(recs[1..]);
      assert recs == [recs[0]] + recs[1..];
    }
  }

  /** Parents first for inserts. */
  function UpsertRank(r: SyncRecord): int
  {
    if r.tableName == "topics" then 0
    else if r.tableName == "questions" then 1
    else if r.tableName == "progress" || r.tableName == "quiz_sessions" then 2
    else 3
  }

  /** Children first for deletes. */
  function DeleteRank(r: SyncRecord): int
  {
    if r.tableName == "progress" || r.tableName == "quiz_sessions" then 0
    else if r.tableName == "questions" then 1
    else if r.tableName == "topics" then 2
    else 3
  }

  /** The order upserts are applied in: the non-deleted records, stably
      sorted by `UpsertRank`. */
  function UpsertOrder(recs: seq<SyncRecord>): (r: seq<SyncRecord>)
    ensures SortedBy(r, UpsertRank)
    ensures multiset(r) == multiset(Select(recs, false))
    ensures forall k :: KeyClass(r, UpsertRank, k) == KeyClass(Select(recs, false), UpsertRank, k)
  {
    var live := Select(recs, false);
    SortBySorted(live, UpsertRank);
    forall k ensures KeyClass(SortBy(live, UpsertRank), UpsertRank, k) == KeyClass(live, UpsertRank, k) {
      SortByStable(live, UpsertRank, k);
    }
    SortBy(live, UpsertRank)
  }

  /** The order deletes are applied in: the deleted records, stably sorted
      by `DeleteRank`. */
  function DeleteOrder(recs: seq<SyncRecord>): (r: seq<SyncRecord>)
    ensures SortedBy(r, DeleteRank)
    ensures multiset(r) == multiset(Select(recs, true))
    ensures forall k :: KeyClass(r, DeleteRank, k) == KeyClass(Select(recs, true), DeleteRank, k)
  {
    var gone := Select(recs, true);
    SortBySorted(gone, DeleteRank);
    forall k ensures KeyClass(SortBy(gone, DeleteRank), DeleteRank, k) == KeyClass(gone, DeleteRank, k) {
      SortByStable(gone, DeleteRank, k);
    }
    SortBy(gone, DeleteRank)
  }

  /** The key an upsert writes: the progress table is keyed by question. */
  function TargetKey(r: SyncRecord): string
  {
    if r.tableName == "progress" then ProgressKey(r) else r.rowId
  }

  /** The `deleted_at` a pulled row keeps: the old row's, or NULL when the
      row is inserted. */
  function KeptDeletedAt(prior: Option<AnyRow>): Option<int>
  {
    if prior.Some? then prior.value.Meta().deletedAt else None
  }

  /** The row an upsert of `table` writes from `data`. */
  function Decode(table: string, data: Data, meta: SyncMeta): AnyRow
    requires Known(table)
  {
    if table == "topics" then T(TopicFromData(data, meta))
    else if table == "questions" then Q(QuestionFromData(data, meta))
    else if table == "progress" then P(ProgressFromData(data, meta))
    else S(SessionFromData(data, meta))
  }

  /** One upsert: UPDATE the row when its key exists, INSERT it otherwise;
      an unknown table is skipped. */
  function UpsertOne(t: Tables, r: SyncRecord, now: int): (u: Tables)
    ensures !Known(r.tableName) ==> u == t
    ensures Known(r.tableName) ==>
      RowAt(u, r.tableName, TargetKey(r))
        == Some(Decode(r.tableName, r.data, Pulled(r.version, now, KeptDeletedAt(RowAt(t, r.tableName, TargetKey(r))))))
    ensures forall table, k :: table != r.tableName || k != TargetKey(r) ==> RowAt(u, table, k) == RowAt(t, table, k)
  {
    var key := TargetKey(r);
    var meta := Pulled(r.version, now, KeptDeletedAt(RowAt(t, r.tableName, key)));
    if r.tableName == "topics" then t.(topics := t.topics[key := TopicFromData(r.data, meta)])
    else if r.tableName == "questions" then t.(questions := t.questions[key := QuestionFromData(r.data, meta)])
    else if r.tableName == "progress" then t.(progress := t.progress[key := ProgressFromData(r.data, meta)])
    else if r.tableName == "quiz_sessions" then t.(sessions := t.sessions[key := SessionFromData(r.data, meta)])
    else t
  }

  /** One hard delete by primary key (`question_id` for progress); an
      absent row and an unknown table are no-ops. */
  function DeleteOne(t: Tables, r: SyncRecord): (u: Tables)
    ensures RowAt(u, r.tableName, r.rowId).None?
    ensures forall table, k :: table != r.tableName || k != r.rowId ==> RowAt(u, table, k) == RowAt(t, table, k)
  {
    if r.tableName == "topics" then t.(topics := t.topics - {r.rowId})
    else if r.tableName == "questions" then t.(questions := t.questions - {r.rowId})
    else if r.tableName == "progress" then t.(progress := t.progress - {r.rowId})
    else if r.tableName == "quiz_sessions" then t.(sessions := t.sessions - {r.rowId})
    else t
  }

  function UpsertAll(t: Tables, recs: seq<SyncRecord>, now: int): Tables
  {
    if recs == [] then t else UpsertOne(UpsertAll(t, recs[..|recs| - 1], now), recs[|recs| - 1], now)
  }

  function DeleteAll(t: Tables, recs: seq<SyncRecord>): Tables
  {
    if recs == [] then t else DeleteOne(DeleteAll(t, recs[..|recs| - 1]), recs[|recs| - 1])
  }

  /** `apply_remote_changes` as a function of the tables: all upserts in
      rank order, then all deletes in rank order. */
  function ApplyAll(t: Tables, recs: seq<SyncRecord>, now: int): Tables
  {
    DeleteAll(UpsertAll(t, UpsertOrder(recs), now), DeleteOrder(recs))
  }

  method UpsertRecord(db: Database, r: SyncRecord, now: int)
    modifies db
    ensures db.State() == UpsertOne(old(db.State()), r, now)
    ensures db.checkpoint == old(db.checkpoint)
  {
    if r.tableName == "topics" {
      var present := r.rowId in db.topics;
      if present {
        db.topics := db.topics[r.rowId := TopicFromData(r.data, Pulled(r.version, now, db.topics[r.rowId].sync.deletedAt))];
      } else {
        db.topics := db.topics[r.rowId := TopicFromData(r.data, Pulled(r.version, now, None))];
      }
    } else if r.tableName == "questions" {
      var present := r.rowId in db.questions;
      if present {
        db.questions := db.questions[r.rowId := QuestionFromData(r.data, Pulled(r.version, now, db.questions[r.rowId].sync.deletedAt))];
      } else {
        db.questions := db.questions[r.rowId := QuestionFromData(r.data, Pulled(r.version, now, None))];
      }
    } else if r.tableName == "progress" {
      var questionId := ProgressKey(r);
      var present := questionId in db.progress;
      if present {
        db.progress := db.progress[questionId := ProgressFromData(r.data, Pulled(r.version, now, db.progress[questionId].sync.deletedAt))];
      } else {
        db.progress := db.progress[questionId := ProgressFromData(r.data, Pulled(r.version, now, None))];
      }
    } else if r.tableName == "quiz_sessions" {
      var present := r.rowId in db.sessions;
      if present {
        db.sessions := db.sessions[r.rowId := SessionFromData(r.data, Pulled(r.version, now, db.sessions[r.rowId].sync.deletedAt))];
      } else {
        db.sessions := db.sessions[r.rowId := SessionFromData(r.data, Pulled(r.version, now, None))];
      }
    }
  }

  method DeleteRecord(db: Database, r: SyncRecord)
    modifies db
    ensures db.State() == DeleteOne(old(db.State()), r)
    ensures db.checkpoint == old(db.checkpoint)
  {
    if r.tableName == "topics" {
      db.topics := db.topics - {r.rowId};
    } else if r.tableName == "questions" {
      db.questions := db.questions - {r.rowId};
    } else if r.tableName == "progress" {
      db.progress := db.progress - {r.rowId};
    } else if r.tableName == "quiz_sessions" {
      db.sessions := db.sessions - {r.rowId};
    }
  }

  /** `apply_remote_changes`: split, sort, then one loop per phase. */
  method ApplyRemoteChanges(db: Database, records: seq<SyncRecord>, now: int)
    modifies db
    ensures db.State() == ApplyAll(old(db.State()), records, now)
    ensures db.checkpoint == old(db.checkpoint)
  {
    var nonDeleted := UpsertOrder(records);
    var deleted := DeleteOrder(records);
    UpsertPhase(db, nonDeleted, now);
    DeletePhase(db, deleted);
  }

  /** The upsert loop, parents first. */
  method UpsertPhase(db: Database, nonDeleted: seq<SyncRecord>, now: int)
    modifies db
    ensures db.State() == UpsertAll(old(db.State()), nonDeleted, now)
    ensures db.checkpoint == old(db.checkpoint)
  {
    var i := 0;
    while i < |nonDeleted|
      invariant 0 <= i <= |nonDeleted|
      invariant db.State() == UpsertAll(old(db.State()), nonDeleted[..i], now)
      invariant db.checkpoint == old(db.checkpoint)
    {
      assert nonDeleted[..i + 1][..i] == nonDeleted[..i];
      UpsertRecord(db, nonDeleted[i], now);
      i := i + 1;
    }
    assert nonDeleted[..i] == nonDeleted;
  }

  /** The delete loop, children first. */
  method DeletePhase(db: Database, deleted: seq<SyncRecord>)
    modifies db
    ensures db.State() == DeleteAll(old(db.State()), deleted)
    ensures db.checkpoint == old(db.checkpoint)
  {
    var j := 0;
    while j < |deleted|
      invariant 0 <= j <= |deleted|
      invariant db.State() == DeleteAll(old(db.State()), deleted[..j])
      invariant db.checkpoint == old(db.checkpoint)
    {
      assert deleted[..j + 1][..j] == deleted[..j];
      DeleteRecord(db, deleted[j]);
      j := j + 1;
    }
    assert deleted[..j] == deleted;
  }

  /** Rows that an apply rewrote carry `synced_at = now` and `deleted = 0`;
      every other row of `u` is the row of `t`. */
  ghost predicate WrittenAt(t: Tables, u: Tables, now: int)
  {
    forall table, k :: RowAt(u, table, k).Some? && RowAt(u, table, k) != RowAt(t, table, k) ==>
      RowAt(u, table, k).value.Meta().syncedAt == Some(now) && RowAt(u, table, k).value.Meta().deleted == 0
  }

  lemma {:induction false} UpsertAllWritten(t: Tables, recs: seq<SyncRecord>, now: int)
    ensures WrittenAt(t, UpsertAll(t, recs, now), now)
  {
    if recs != [] {
      UpsertAllWritten(t, recs[..|recs| - 1], now);
    }
  }

  lemma {:induction false} DeleteAllWritten(t: Tables, u: Tables, recs: seq<SyncRecord>, now: int)
    requires WrittenAt(t, u, now)
    ensures WrittenAt(t, DeleteAll(u, recs), now)
  {
    if recs != [] {
      DeleteAllWritten(t, u, recs[..|recs| - 1], now);
    }
  }

  /** Applying pulled records stamps what it writes and deletes the rest:
      it never leaves a row unsynced that was not unsynced before. */
  lemma ApplyNeverCreatesPending(t: Tables, recs: seq<SyncRecord>, now: int)
    ensures WrittenAt(t, ApplyAll(t, recs, now), now)
    ensures forall table, k :: RowAt(ApplyAll(t, recs, now), table, k).Some? && RowAt(ApplyAll(t, recs, now), table, k).value.Meta().syncedAt.None? ==>
      RowAt(t, table, k) == RowAt(ApplyAll(t, recs, now), table, k)
  {
    UpsertAllWritten(t, UpsertOrder(recs), now);
    DeleteAllWritten(t, UpsertAll(t, UpsertOrder(recs), now), DeleteOrder(recs), now);
  }

  lemma {:induction false} DeleteAllRemoves(t: Tables, ds: seq<SyncRecord>, r: SyncRecord)
    requires r in ds
    ensures RowAt(DeleteAll(t, ds), r.tableName, r.rowId).None?
  {
    var last := ds[|ds| - 1];
    if r != last {
      assert r in ds[..|ds| - 1] by { assert ds == ds[..|ds| - 1] + [last]; }
      DeleteAllRemoves(t, ds[..|ds| - 1], r);
    }
  }

  /** A delete record wins over any upsert of the same row in the same
      batch, since all deletes run after all upserts. */
  lemma DeleteWins(t: Tables, recs: seq<SyncRecord>, now: int, r: SyncRecord)
    requires r in recs && r.deleted
    ensures RowAt(ApplyAll(t, recs, now), r.tableName, r.rowId).None?
  {
    assert r in Select(recs, true);
    assert r in multiset(DeleteOrder(recs));
    DeleteAllRemoves(UpsertAll(t, UpsertOrder(recs), now), DeleteOrder(recs), r);
  }

  /** A row pushed by one device and pulled by another arrives with the
      same column values and version, stamped as synced and not deleted. */
  lemma PushedRowArrives(t: Tables, r: SyncRecord, there: Tables, now: int)
    requires IsChangeOf(t, r) && !r.deleted
    ensures var row := RowAt(t, r.tableName, r.rowId).value;
      RowAt(UpsertOne(there, r, now), r.tableName, r.rowId)
        == Some(row.WithMeta(Pulled(row.Meta().syncVersion, now, KeptDeletedAt(RowAt(there, r.tableName, r.rowId)))))
  {
    var row := RowAt(t, r.tableName, r.rowId).value;
    var meta := Pulled(row.Meta().syncVersion, now, KeptDeletedAt(RowAt(there, r.tableName, r.rowId)));
    if r.tableName == "topics" {
      TopicSurvivesTheWire(row.topic, meta);
    } else if r.tableName == "questions" {
      QuestionSurvivesTheWire(row.question, meta);
    } else if r.tableName == "progress" {
      ProgressSurvivesTheWire(r.rowId, row.progress, meta);
      assert TargetKey(r) == r.rowId;
    } else {
      SessionSurvivesTheWire(row.session, meta);
    }
  }

  // ---- marking pushed records as synced ----

  function Stamped(row: AnyRow, syncedAt: int): (r: AnyRow)
    ensures r.Meta().syncedAt == Some(syncedAt)
  {
    row.WithMeta(row.Meta().(syncedAt := Some(syncedAt)))
  }

  /** What marking one pushed record does: a delete record hard-deletes
      the row, an active record sets `synced_at` on the row if it is still
      there; unknown tables are left alone. */
  function MarkOne(t: Tables, r: SyncRecord, syncedAt: int): (u: Tables)
    ensures r.deleted ==> u == DeleteOne(t, r)
    ensures !r.deleted ==>
      RowAt(u, r.tableName, r.rowId) ==
        (if RowAt(t, r.tableName, r.rowId).Some? then Some(Stamped(RowAt(t, r.tableName, r.rowId).value, syncedAt)) else None)
    ensures forall table, k :: table != r.tableName || k != r.rowId ==> RowAt(u, table, k) == RowAt(t, table, k)
  {
    var k := r.rowId;
    if r.deleted then DeleteOne(t, r)
    else if r.tableName == "topics" then
      (if k in t.topics then t.(topics := t.topics[k := t.topics[k].(sync := t.topics[k].sync.(syncedAt := Some(syncedAt)))]) else t)
    else if r.tableName == "questions" then
      (if k in t.questions then t.(questions := t.questions[k := t.questions[k].(sync := t.questions[k].sync.(syncedAt := Some(syncedAt)))]) else t)
    else if r.tableName == "progress" then
      (if k in t.progress then t.(progress := t.progress[k := t.progress[k].(sync := t.progress[k].sync.(syncedAt := Some(syncedAt)))]) else t)
    else if r.tableName == "quiz_sessions" then
      (if k in t.sessions then t.(sessions := t.sessions[k := t.sessions[k].(sync := t.sessions[k].sync.(syncedAt := Some(syncedAt)))]) else t)
    else t
  }

  function MarkAll(t: Tables, recs: seq<SyncRecord>, syncedAt: int): Tables
  {
    if recs == [] then t else MarkOne(MarkAll(t, recs[..|recs| - 1], syncedAt), recs[|recs| - 1], syncedAt)
  }

  ghost predicate DeletedIn(recs: seq<SyncRecord>, table: string, k: string)
  {
    exists r :: r in recs && r.deleted && r.tableName == table && r.rowId == k
  }

  ghost predicate ActiveIn(recs: seq<SyncRecord>, table: string, k: string)
  {
    exists r :: r in recs && !r.deleted && r.tableName == table && r.rowId == k
  }

  lemma {:induction false} MarkAllDeleted(t: Tables, recs: seq<SyncRecord>, syncedAt: int, table: string, k: string)
    ensures DeletedIn(recs, table, k) ==> RowAt(MarkAll(t, recs, syncedAt), table, k).None?
  {
    if recs != [] {
      var init := recs[..|recs| - 1];
      var last := recs[|recs| - 1];
      assert recs == init + [last];
      MarkAllDeleted(t, init, syncedAt, table, k);
      assert forall r :: r in recs <==> r in init || r == last;
    }
  }

  lemma {:induction false} MarkAllKept(t: Tables, recs: seq<SyncRecord>, syncedAt: int, table: string, k: string)
    ensures !DeletedIn(recs, table, k) && ActiveIn(recs, table, k) ==>
      RowAt(MarkAll(t, recs, syncedAt), table, k) ==
        (if RowAt(t, table, k).Some? then Some(Stamped(RowAt(t, table, k).value, syncedAt)) else None)
    ensures !DeletedIn(recs, table, k) && !ActiveIn(recs, table, k) ==>
      RowAt(MarkAll(t, recs, syncedAt), table, k) == RowAt(t, table, k)
  {
    if recs != [] {
      var init := recs[..|recs| - 1];
      var last := recs[|recs| - 1];
      assert recs == init + [last];
      MarkAllKept(t, init, syncedAt, table, k);
      assert forall r :: r in recs <==> r in init || r == last;
      var prior := MarkAll(t, init, syncedAt);
      if last.tableName == table && last.rowId == k && !last.deleted {
        if RowAt(prior, table, k).Some? {
          var v := RowAt(prior, table, k).value;
          assert Stamped(Stamped(v, syncedAt), syncedAt) == Stamped(v, syncedAt) by {
            match v
            case T(x) =>
            case Q(x) =>
            case P(x) =>
            case S(x) =>
          }
        }
      }
    }
  }

  /** The effect of `mark_records_synced` on one row: gone if any record
      deletes it, stamped if it was there and some record lists it active,
      unchanged otherwise; marking never adds a row. */
  lemma MarkAllEffect(t: Tables, recs: seq<SyncRecord>, syncedAt: int, table: string, k: string)
    ensures DeletedIn(recs, table, k) ==> RowAt(MarkAll(t, recs, syncedAt), table, k).None?
    ensures !DeletedIn(recs, table, k) && ActiveIn(recs, table, k) ==>
      RowAt(MarkAll(t, recs, syncedAt), table, k) ==
        (if RowAt(t, table, k).Some? then Some(Stamped(RowAt(t, table, k).value, syncedAt)) else None)
    ensures !DeletedIn(recs, table, k) && !ActiveIn(recs, table, k) ==>
      RowAt(MarkAll(t, recs, syncedAt), table, k) == RowAt(t, table, k)
  {
    MarkAllDeleted(t, recs, syncedAt, table, k);
    MarkAllKept(t, recs, syncedAt, table, k);
  }

  method MarkRecord(db: Database, r: SyncRecord, syncedAt: int)
    modifies db
    ensures db.State() == MarkOne(old(db.State()), r, syncedAt)
    ensures db.checkpoint == old(db.checkpoint)
  {
    var k := r.rowId;
    if r.deleted {
      DeleteRecord(db, r);
    } else if r.tableName == "topics" {
      if k in db.topics {
        db.topics := db.topics[k := db.topics[k].(sync := db.topics[k].sync.(syncedAt := Some(syncedAt)))];
      }
    } else if r.tableName == "questions" {
      if k in db.questions {
        db.questions := db.questions[k := db.questions[k].(sync := db.questions[k].sync.(syncedAt := Some(syncedAt)))];
      }
    } else if r.tableName == "progress" {
      if k in db.progress {
        db.progress := db.progress[k := db.progress[k].(sync := db.progress[k].sync.(syncedAt := Some(syncedAt)))];
      }
    } else if r.tableName == "quiz_sessions" {
      if k in db.sessions {
        db.sessions := db.sessions[k := db.sessions[k].(sync := db.sessions[k].sync.(syncedAt := Some(syncedAt)))];
      }
    }
  }

  /** `mark_records_synced`. */
  method MarkRecordsSynced(db: Database, records: seq<SyncRecord>, syncedAt: int)
    modifies db
    ensures db.State() == MarkAll(old(db.State()), records, syncedAt)
    ensures db.checkpoint == old(db.checkpoint)
  {
    var i := 0;
    while i < |records|
      invariant 0 <= i <= |records|
      invariant db.State() == MarkAll(old(db.State()), records[..i], syncedAt)
      invariant db.checkpoint == old(db.checkpoint)
    {
      assert records[..i + 1][..i] == records[..i];
      MarkRecord(db, records[i], syncedAt);
      i := i + 1;
    }
    assert records[..i] == records;
  }

  /** After the collected records are marked, a row still unsynced is a
      row the collection could not list, untouched. */
  lemma PushSettlesCollection(t: Tables, out: seq<SyncRecord>, syncedAt: int)
    requires IsCollection(t, out)
    ensures forall table, k :: RowAt(MarkAll(t, out, syncedAt), table, k).Some? && RowAt(MarkAll(t, out, syncedAt), table, k).value.Meta().syncedAt.None? ==>
      RowAt(t, table, k) == RowAt(MarkAll(t, out, syncedAt), table, k) && !Collectable(RowAt(t, table, k).value.Meta())
  {
    var u := MarkAll(t, out, syncedAt);
    forall table, k | RowAt(u, table, k).Some? && RowAt(u, table, k).value.Meta().syncedAt.None?
      ensures RowAt(t, table, k) == RowAt(u, table, k) && !Collectable(RowAt(t, table, k).value.Meta())
    {
      MarkAllEffect(t, out, syncedAt, table, k);
    }
  }

  // ---- pending changes and the sync round ----

  function PendingKeys<R>(m: map<string, R>, meta: R -> SyncMeta): set<string>
  {
    set k | k in m && meta(m[k]).syncedAt.None?
  }

  /** `count_pending_changes`: unsynced rows over the four tables,
      soft-deleted rows included. */
  function CountPending(t: Tables): nat
  {
    |PendingKeys(t.topics, TopicMeta)| + |PendingKeys(t.questions, QuestionMeta)|
    + |PendingKeys(t.progress, ProgressMeta)| + |PendingKeys(t.sessions, SessionMeta)|
  }

  lemma CountZeroAllSynced(t: Tables)
    requires CountPending(t) == 0
    ensures forall table, k :: RowAt(t, table, k).Some? ==> RowAt(t, table, k).value.Meta().syncedAt.Some?
  {
    forall table, k | RowAt(t, table, k).Some?
      ensures RowAt(t, table, k).value.Meta().syncedAt.Some?
    {
      if table == "topics" { assert k !in PendingKeys(t.topics, TopicMeta); }
      else if table == "questions" { assert k !in PendingKeys(t.questions, QuestionMeta); }
      else if table == "progress" { assert k !in PendingKeys(t.progress, ProgressMeta); }
      else { assert k !in PendingKeys(t.sessions, SessionMeta); }
    }
  }

  lemma CountPositiveSomePending(t: Tables)
    requires CountPending(t) != 0
    ensures exists table, k :: RowAt(t, table, k).Some? && RowAt(t, table, k).value.Meta().syncedAt.None?
  {
    if |PendingKeys(t.topics, TopicMeta)| > 0 {
      var k :| k in PendingKeys(t.topics, TopicMeta);
      assert RowAt(t, "topics", k).Some?;
    } else if |PendingKeys(t.questions, QuestionMeta)| > 0 {
      var k :| k in PendingKeys(t.questions, QuestionMeta);
      assert RowAt(t, "questions", k).Some?;
    } else if |PendingKeys(t.progress, ProgressMeta)| > 0 {
      var k :| k in PendingKeys(t.progress, ProgressMeta);
      assert RowAt(t, "progress", k).Some?;
    } else {
      var k :| k in PendingKeys(t.sessions, SessionMeta);
      assert RowAt(t, "quiz_sessions", k).Some?;
    }
  }

  /** The count is zero exactly when no row of any table is unsynced. */
  lemma CountPendingZero(t: Tables)
    ensures CountPending(t) == 0 <==>
      forall table, k :: RowAt(t, table, k).Some? ==> RowAt(t, table, k).value.Meta().syncedAt.Some?
  {
    if CountPending(t) == 0 {
      CountZeroAllSynced(t);
    } else {
      CountPositiveSomePending(t);
    }
  }

  datatype PushResult = PushResult(synced: nat, conflicts: seq<string>)
  datatype PullResult = PullResult(records: seq<SyncRecord>, checkpoint: Checkpoint)

  /** The server's answer to a delta call. */
  datatype Delta = Delta(push: Option<PushResult>, pull: Option<PullResult>)

  datatype SyncResult = SyncResult(pushed: nat, pulled: nat, conflicts: nat, success: bool,
                                   error: Option<string>, syncedAt: int)

  /** The tables after a successful delta call: pushed records marked
      synced at `start`, then pulled records applied at `now`. */
  function AfterSync(t: Tables, local: seq<SyncRecord>, d: Delta, start: int, now: int): Tables
  {
    var marked := if d.push.Some? then MarkAll(t, local, start) else t;
    if d.pull.Some? then ApplyAll(marked, d.pull.value.records, now) else marked
  }

  function Outcome(d: Delta, start: int): SyncResult
  {
    SyncResult(if d.push.Some? then d.push.value.synced else 0,
               if d.pull.Some? then |d.pull.value.records| else 0,
               if d.push.Some? then |d.push.value.conflicts| else 0,
               true, None, start)
  }

  /** The local-state part of `sync_now`; `server` stands for the delta
      call, `start` for the time the round began and `now` for the clock
      reading while pulled records are applied. */
  method SyncNow(db: Database, server: (seq<SyncRecord>, Option<Checkpoint>) -> Result<Delta, string>, start: int, now: int)
    returns (result: Result<SyncResult, string>, ghost local: seq<SyncRecord>)
    modifies db
    ensures IsCollection(old(db.State()), local)
    ensures server(local, old(db.checkpoint)).Err? ==>
      result == Err("Sync failed: " + server(local, old(db.checkpoint)).error)
      && db.State() == old(db.State()) && db.checkpoint == old(db.checkpoint)
    ensures server(local, old(db.checkpoint)).Ok? ==>
      var d := server(local, old(db.checkpoint)).value;
      result == Ok(Outcome(d, start))
      && db.State() == AfterSync(old(db.State()), local, d, start, now)
      && db.checkpoint == (if d.pull.Some? then Some(d.pull.value.checkpoint) else old(db.checkpoint))
  {
    var localChanges := CollectLocalChanges(db);
    local := localChanges;
    var checkpoint := db.checkpoint;
    var response := server(localChanges, checkpoint);
    if response.Err? {
      return Err("Sync failed: " + response.error), local;
    }
    var pushed := 0;
    var conflicts := 0;
    var pulled := 0;
    if response.value.push.Some? {
      pushed := response.value.push.value.synced;
      conflicts := |response.value.push.value.conflicts|;
      MarkRecordsSynced(db, localChanges, start);
    }
    if response.value.pull.Some? {
      pulled := |response.value.pull.value.records|;
      ApplyRemoteChanges(db, response.value.pull.value.records, now);
      db.checkpoint := Some(response.value.pull.value.checkpoint);
    }
    result := Ok(SyncResult(pushed, pulled, conflicts, true, None, start));
  }

  /** The flags the repositories write: every unsynced row has `deleted`
      0 or 1, so it is collectable. */
  ghost predicate WellFlagged(t: Tables)
  {
    forall table, k :: RowAt(t, table, k).Some? && RowAt(t, table, k).value.Meta().syncedAt.None? ==>
      Collectable(RowAt(t, table, k).value.Meta())
  }

  /** A sync round whose server answer has a push part leaves nothing
      pending, whatever it pulls. */
  lemma SyncClearsPending(t: Tables, local: seq<SyncRecord>, d: Delta, start: int, now: int)
    requires IsCollection(t, local) && WellFlagged(t) && d.push.Some?
    ensures CountPending(AfterSync(t, local, d, start, now)) == 0
  {
    var marked := MarkAll(t, local, start);
    PushSettlesCollection(t, local, start);
    var u := AfterSync(t, local, d, start, now);
    if d.pull.Some? {
      ApplyNeverCreatesPending(marked, d.pull.value.records, now);
    }
    CountPendingZero(u);
  }
}
