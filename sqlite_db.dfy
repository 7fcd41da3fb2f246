// The SQLite database of the newer backend: four tables keyed by primary
// key, each row carrying the sync bookkeeping columns, plus the stored
// sync checkpoint. JSON-valued columns (subtopics, tags, answer, id lists,
// results) are kept as the raw text stored in the column.
module SqliteDb {
  import opened Wrappers

  /** The sync columns every table carries: `sync_version`, `synced_at`
      (Unix seconds, NULL while the row has unpushed changes), `deleted`
      (the soft-delete flag) and `deleted_at`. */
  datatype SyncMeta = SyncMeta(syncVersion: int, syncedAt: Option<int>, deleted: int, deletedAt: Option<int>)

  /** The column defaults a row gets when an INSERT does not name the sync
      columns. */
  function DefaultSync(): (m: SyncMeta)
    ensures m.syncVersion == 1 && m.syncedAt.None? && m.deleted == 0 && m.deletedAt.None?
  {
    SyncMeta(1, None, 0, None)
  }

  /** Stands for the message of a failed SQL statement (a primary-key
      clash, a NULL in a NOT NULL column); its text is not modelled. */
  const DbError: string := "database error"

  /** The sync columns `delete` writes: one more version, unsynced, flagged
      deleted at `now`. */
  function SoftDeleted(m: SyncMeta, now: int): (r: SyncMeta)
    ensures r.syncVersion == m.syncVersion + 1 && r.syncedAt.None?
    ensures r.deleted == 1 && r.deletedAt == Some(now)
  {
    SyncMeta(m.syncVersion + 1, None, 1, Some(now))
  }

  datatype TopicRow = TopicRow(
    name: string, description: Option<string>, slug: string,
    icon: Option<string>, color: Option<string>, subtopics: Option<string>,
    orderIndex: int, createdAt: string, updatedAt: string, sync: SyncMeta)

  datatype QuestionRow = QuestionRow(
    topicId: string, subtopic: Option<string>, questionNumber: int,
    question: string, answer: string, tags: Option<string>,
    difficulty: Option<string>, orderIndex: int, createdAt: string,
    updatedAt: string, sync: SyncMeta)

  /** A `progress` row; its key is the question id. The surrogate `id`
      column is not modelled. */
  datatype ProgressRow = ProgressRow(
    topicId: string, status: string, confidenceLevel: int,
    timesReviewed: int, timesCorrect: int, timesIncorrect: int,
    lastReviewedAt: Option<string>, nextReviewAt: Option<string>,
    createdAt: string, updatedAt: string, sync: SyncMeta)

  datatype SessionRow = SessionRow(
    sessionType: string, topicIds: Option<string>, questionIds: Option<string>,
    currentIndex: int, startedAt: string, completedAt: Option<string>,
    results: Option<string>, sync: SyncMeta)

  /** The server's sync position, stored and handed back unchanged. */
  datatype Checkpoint = Checkpoint(updatedAt: string, id: string)

  /** The content of the four tables. */
  datatype Tables = Tables(
    topics: map<string, TopicRow>, questions: map<string, QuestionRow>,
    progress: map<string, ProgressRow>, sessions: map<string, SessionRow>)

  class Database {
    var topics: map<string, TopicRow>
    var questions: map<string, QuestionRow>
    var progress: map<string, ProgressRow>
    var sessions: map<string, SessionRow>
    var checkpoint: Option<Checkpoint>

    function State(): (t: Tables)
      reads this
      ensures t.topics == topics && t.questions == questions
      ensures t.progress == progress && t.sessions == sessions
    {
      Tables(topics, questions, progress, sessions)
    }

    /** A freshly created database: empty tables and no checkpoint. */
    constructor ()
      ensures topics == map[] && questions == map[] && progress == map[] && sessions == map[]
      ensures checkpoint.None?
    {
      topics := map[];
      questions := map[];
      progress := map[];
      sessions := map[];
      checkpoint := None;
    }
  }
}
