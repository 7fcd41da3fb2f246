// `import_database` of the SQLite backend: a JSON export is parsed, the
// tables are emptied unless merging, and the exported topics, questions,
// progress entries and sessions are written row by row. There is no
// transaction: a failing INSERT ends the import with the rows written so
// far kept.
module AppsImport {
  import opened Wrappers
  import opened Models
  import opened SqliteDb
  import opened Codec
  import AppsQuestions
  import AppsProgress
  import AppsQuiz

  /** The content of an export file. */
  datatype Export = Export(topics: seq<Topic>, questions: seq<Question>,
                           progress: seq<QuestionProgress>, sessions: seq<QuizSession>)

  datatype ImportResult = ImportResult(
    success: bool, message: string, topicsCount: nat, questionsCount: nat,
    progressCount: nat, sessionsCount: nat)

  // ---- the rows each kind is written as ----

  function TopicKey(t: Topic): string { t.id }
  function QuestionKey(q: Question): string { q.id }
  function SessionKey(s: QuizSession): string { s.id }

  /** The topic INSERT: the sync columns take their defaults. */
  function TopicRowOf(c: Codec, t: Topic): TopicRow
  {
    TopicRow(t.name, Some(t.description), t.slug, Some(t.icon), Some(t.color),
             Some(EncodeOptStrings(c, t.subtopics)), t.order, t.createdAt, t.updatedAt, DefaultSync())
  }

  function QuestionRowOf(c: Codec, q: Question): QuestionRow
  {
    QuestionRow(q.topicId, q.subtopic, q.questionNumber, q.question, c.encodeAnswer(q.answer),
                Some(c.encodeStrings(q.tags)), Some(q.difficulty), q.order, q.createdAt, q.updatedAt, DefaultSync())
  }

  function SessionRowOf(c: Codec, s: QuizSession): SessionRow
  {
    AppsQuiz.NewSessionRow(c, s)
  }

  /** The merge-mode tests `if let Ok(Some(_)) = get_by_id(..)`: a topic or
      session row always reads; a question row only when it decodes. */
  function TopicFound(c: Codec, m: map<string, TopicRow>, k: string): bool { k in m }
  function SessionFound(c: Codec, m: map<string, SessionRow>, k: string): bool { k in m }
  function QuestionFound(c: Codec, m: map<string, QuestionRow>, k: string): bool
  {
    k in m && AppsQuestions.DecodeQuestion(c, k, m[k]).Ok?
  }

  // ---- one insert loop ----

  /** A table after some of the inserts, how many were written, and whether
      every INSERT so far succeeded. */
  datatype Load<R> = Load(table: map<string, R>, count: nat, ok: bool)

  /** The insert loop over `items`: in merge mode an item whose key is
      found is skipped; otherwise it is inserted, and an INSERT onto a key
      that is already there fails and stops the loop. */
  function InsertFold<T, R>(c: Codec, m: map<string, R>, items: seq<T>, key: T -> string,
                            row: (Codec, T) -> R, found: (Codec, map<string, R>, string) -> bool,
                            merge: bool): Load<R>
  {
    if items == [] then Load(m, 0, true)
    else
      var prev := InsertFold(c, m, items[..|items| - 1], key, row, found, merge);
      var x := items[|items| - 1];
      if !prev.ok || (merge && found(c, prev.table, key(x))) then prev
      else if key(x) in prev.table then prev.(ok := false)
      else Load(prev.table[key(x) := row(c, x)], prev.count + 1, true)
  }

  /** The merge test only finds keys that are in the table. */
  ghost predicate FindsStored<R(!new)>(found: (Codec, map<string, R>, string) -> bool)
  {
    forall c, m, k :: found(c, m, k) ==> k in m
  }

  /** The loop never changes or removes a row that was there. */
  lemma {:induction false} InsertFoldKeeps<T, R>(c: Codec, m: map<string, R>, items: seq<T>, key: T -> string,
                                                 row: (Codec, T) -> R, found: (Codec, map<string, R>, string) -> bool,
                                                 merge: bool)
    ensures var l := InsertFold(c, m, items, key, row, found, merge);
      m.Keys <= l.table.Keys && forall k :: k in m ==> l.table[k] == m[k]
  {
    if items != [] {
      InsertFoldKeeps(c, m, items[..|items| - 1], key, row, found, merge);
    }
  }

  /** Every row the loop adds is the row of an item with that key. */
  lemma {:induction false} InsertFoldAddsItems<T, R>(c: Codec, m: map<string, R>, items: seq<T>, key: T -> string,
                                                     row: (Codec, T) -> R, found: (Codec, map<string, R>, string) -> bool,
                                                     merge: bool)
    ensures var l := InsertFold(c, m, items, key, row, found, merge);
      forall k :: k in l.table && k !in m ==> exists i :: 0 <= i < |items| && key(items[i]) == k && l.table[k] == row(c, items[i])
  {
    if items != [] {
      var init := items[..|items| - 1];
      InsertFoldAddsItems(c, m, init, key, row, found, merge);
      var prev := InsertFold(c, m, init, key, row, found, merge);
      forall i | 0 <= i < |init| ensures items[i] == init[i] { }
    }
  }

  /** Each counted insert adds one row. */
  lemma {:induction false} InsertFoldCounts<T, R>(c: Codec, m: map<string, R>, items: seq<T>, key: T -> string,
                                                  row: (Codec, T) -> R, found: (Codec, map<string, R>, string) -> bool,
                                                  merge: bool)
    ensures var l := InsertFold(c, m, items, key, row, found, merge);
      |l.table| == |m| + l.count
  {
    if items != [] {
      var init := items[..|items| - 1];
      InsertFoldCounts(c, m, init, key, row, found, merge);
      var prev := InsertFold(c, m, init, key, row, found, merge);
      var x := items[|items| - 1];
      if prev.ok && !(merge && found(c, prev.table, key(x))) && key(x) !in prev.table {
        assert |prev.table[key(x) := row(c, x)]| == |prev.table| + 1;
      }
    }
  }

  /** When the loop succeeded, every item's key is in the table. */
  lemma {:induction false} InsertFoldComplete<T, R(!new)>(c: Codec, m: map<string, R>, items: seq<T>, key: T -> string,
                                                    row: (Codec, T) -> R, found: (Codec, map<string, R>, string) -> bool,
                                                    merge: bool)
    requires FindsStored(found)
    ensures var l := InsertFold(c, m, items, key, row, found, merge);
      l.ok ==> forall i :: 0 <= i < |items| ==> key(items[i]) in l.table
  {
    if items != [] {
      var init := items[..|items| - 1];
      InsertFoldComplete(c, m, init, key, row, found, merge);
      var prev := InsertFold(c, m, init, key, row, found, merge);
      var l := InsertFold(c, m, items, key, row, found, merge);
      assert prev.table.Keys <= l.table.Keys;
      forall i | 0 <= i < |init| ensures items[i] == init[i] { }
    }
  }

  /** With every key new and distinct, a replace-mode loop writes every
      item. */
  lemma {:induction false} FreshKeysAllWritten<T, R>(c: Codec, m: map<string, R>, items: seq<T>, key: T -> string,
                                                     row: (Codec, T) -> R, found: (Codec, map<string, R>, string) -> bool)
    requires forall i :: 0 <= i < |items| ==> key(items[i]) !in m
    requires forall i, j :: 0 <= i < j < |items| ==> key(items[i]) != key(items[j])
    ensures InsertFold(c, m, items, key, row, found, false).ok
    ensures InsertFold(c, m, items, key, row, found, false).count == |items|
  {
    if items != [] {
      var init := items[..|items| - 1];
      FreshKeysAllWritten(c, m, init, key, row, found);
      InsertFoldAddsItems(c, m, init, key, row, found, false);
      var prev := InsertFold(c, m, init, key, row, found, false);
      var x := items[|items| - 1];
      if key(x) in prev.table {
        assert false;
      }
    }
  }

  /** The loop of one kind. */
  method InsertAll<T, R>(c: Codec, m: map<string, R>, items: seq<T>, key: T -> string,
                         row: (Codec, T) -> R, found: (Codec, map<string, R>, string) -> bool, merge: bool)
    returns (load: Load<R>)
    ensures load == InsertFold(c, m, items, key, row, found, merge)
  {
    var table := m;
    var count: nat := 0;
    var i := 0;
    while i < |items|
      invariant 0 <= i <= |items|
      invariant InsertFold(c, m, items[..i], key, row, found, merge) == Load(table, count, true)
    {
      assert items[..i + 1][..i] == items[..i];
      var x := items[i];
      if merge && found(c, table, key(x)) {
        i := i + 1;
        continue;
      }
      if key(x) in table {
        assert items[..i + 1] == items[..i] + [x];
        load := Load(table, count, false);
        assert InsertFold(c, m, items[..i + 1], key, row, found, merge) == load;
        InsertFoldStops(c, m, items, i + 1, key, row, found, merge);
        assert items[..|items|] == items;
        return;
      }
      table := table[key(x) := row(c, x)];
      count := count + 1;
      i := i + 1;
    }
    assert items[..i] == items;
    load := Load(table, count, true);
  }

  /** Once an INSERT failed, the later items change nothing. */
  lemma {:induction false} InsertFoldStops<T, R>(c: Codec, m: map<string, R>, items: seq<T>, n: nat, key: T -> string,
                                                 row: (Codec, T) -> R, found: (Codec, map<string, R>, string) -> bool,
                                                 merge: bool)
    requires n <= |items|
    requires !InsertFold(c, m, items[..n], key, row, found, merge).ok
    ensures InsertFold(c, m, items, key, row, found, merge) == InsertFold(c, m, items[..n], key, row, found, merge)
    decreases |items| - n
  {
    if n < |items| {
      assert items[..n + 1][..n] == items[..n];
      InsertFoldStops(c, m, items, n + 1, key, row, found, merge);
    } else {
      assert items[..n] == items;
    }
  }

  // ---- progress ----

  /** The progress loop: INSERT OR REPLACE, so every entry is written and
      counted, and a later entry for the same question wins. */
  function ReplaceFold(m: map<string, ProgressRow>, items: seq<QuestionProgress>): (r: map<string, ProgressRow>)
  {
    if items == [] then m
    else ReplaceFold(m, items[..|items| - 1])[items[|items| - 1].questionId := AppsProgress.EncodeProgress(items[|items| - 1])]
  }

  /** Questions not imported keep their stored entry, or stay without one. */
  lemma {:induction false} ReplaceFoldOthers(m: map<string, ProgressRow>, items: seq<QuestionProgress>, k: string)
    requires forall i :: 0 <= i < |items| ==> items[i].questionId != k
    ensures k in ReplaceFold(m, items) <==> k in m
    ensures k in m ==> ReplaceFold(m, items)[k] == m[k]
  {
    if items != [] {
      var init := items[..|items| - 1];
      forall i | 0 <= i < |init| ensures init[i].questionId != k {
        assert init[i] == items[i];
      }
      ReplaceFoldOthers(m, init, k);
    }
  }

  /** The stored entry of an imported question is the last one imported
      for it. */
  lemma {:induction false} ReplaceFoldLastWins(m: map<string, ProgressRow>, items: seq<QuestionProgress>, i: nat)
    requires i < |items|
    requires forall j :: i < j < |items| ==> items[j].questionId != items[i].questionId
    ensures items[i].questionId in ReplaceFold(m, items)
    ensures ReplaceFold(m, items)[items[i].questionId] == AppsProgress.EncodeProgress(items[i])
  {
    var init := items[..|items| - 1];
    if i < |items| - 1 {
      assert init[i] == items[i];
      forall j | i < j < |init| ensures init[j].questionId != init[i].questionId {
        assert init[j] == items[j];
      }
      ReplaceFoldLastWins(m, init, i);
    }
  }

  method ReplaceAll(m: map<string, ProgressRow>, items: seq<QuestionProgress>) returns (table: map<string, ProgressRow>, count: nat)
    ensures table == ReplaceFold(m, items) && count == |items|
  {
    table, count := m, 0;
    var i := 0;
    while i < |items|
      invariant 0 <= i <= |items| && count == i
      invariant table == ReplaceFold(m, items[..i])
    {
      assert items[..i + 1][..i] == items[..i];
      table := table[items[i].questionId := AppsProgress.EncodeProgress(items[i])];
      count := count + 1;
      i := i + 1;
    }
    assert items[..i] == items;
  }

  // ---- the whole import ----

  /** The state and the answer of an import, kind by kind: topics, then
      questions, progress and sessions. */
  function ImportOutcome(t: Tables, c: Codec, data: Export, merge: bool): (Tables, Result<ImportResult, string>)
  {
    var start := if merge then t else Tables(map[], map[], map[], map[]);
    var lt := InsertFold(c, start.topics, data.topics, TopicKey, TopicRowOf, TopicFound, merge);
    if !lt.ok then (start.(topics := lt.table), Err(DbError))
    else
      var lq := InsertFold(c, start.questions, data.questions, QuestionKey, QuestionRowOf, QuestionFound, merge);
      if !lq.ok then (start.(topics := lt.table, questions := lq.table), Err(DbError))
      else
        var progress := ReplaceFold(start.progress, data.progress);
        var ls := InsertFold(c, start.sessions, data.sessions, SessionKey, SessionRowOf, SessionFound, merge);
        var after := Tables(lt.table, lq.table, progress, ls.table);
        if !ls.ok then (after, Err(DbError))
        else (after, Ok(ImportResult(true, "Import complete", lt.count, lq.count, |data.progress|, ls.count)))
  }

  /** `import_database`. `parse` is the JSON parser; its error text is
      passed through. */
  method ImportDatabase(db: Database, c: Codec, parse: string -> Result<Export, string>, content: string, merge: bool)
    returns (r: Result<ImportResult, string>)
    modifies db
    ensures parse(content).Err? ==>
      r == Err("Invalid JSON format: " + parse(content).error) && db.State() == old(db.State())
    ensures parse(content).Ok? ==> (db.State(), r) == ImportOutcome(old(db.State()), c, parse(content).value, merge)
    ensures db.checkpoint == old(db.checkpoint)
  {
    var parsed := parse(content);
    if parsed.Err? {
      return Err("Invalid JSON format: " + parsed.error);
    }
    var data := parsed.value;
    if !merge {
      db.progress := map[];
      db.sessions := map[];
      db.questions := map[];
      db.topics := map[];
    }
    var lt := InsertAll(c, db.topics, data.topics, TopicKey, TopicRowOf, TopicFound, merge);
    db.topics := lt.table;
    if !lt.ok {
      return Err(DbError);
    }
    var lq := InsertAll(c, db.questions, data.questions, QuestionKey, QuestionRowOf, QuestionFound, merge);
    db.questions := lq.table;
    if !lq.ok {
      return Err(DbError);
    }
    var progress, progressCount := ReplaceAll(db.progress, data.progress);
    db.progress := progress;
    var ls := InsertAll(c, db.sessions, data.sessions, SessionKey, SessionRowOf, SessionFound, merge);
    db.sessions := ls.table;
    if !ls.ok {
      return Err(DbError);
    }
    r := Ok(ImportResult(true, "Import complete", lt.count, lq.count, progressCount, ls.count));
  }

  /** A successful import counts each kind by the rows it added: after a
      replace the counts are the table sizes; a merge never overwrites a
      topic, question or session that was already stored. */
  lemma ImportCounts(t: Tables, c: Codec, data: Export, merge: bool)
    requires ImportOutcome(t, c, data, merge).1.Ok?
    ensures var (after, r) := ImportOutcome(t, c, data, merge);
      var start := if merge then t else Tables(map[], map[], map[], map[]);
      && |after.topics| == |start.topics| + r.value.topicsCount
      && |after.questions| == |start.questions| + r.value.questionsCount
      && |after.sessions| == |start.sessions| + r.value.sessionsCount
      && r.value.progressCount == |data.progress|
      && (forall k :: k in start.topics ==> k in after.topics && after.topics[k] == start.topics[k])
      && (forall k :: k in start.questions ==> k in after.questions && after.questions[k] == start.questions[k])
      && (forall k :: k in start.sessions ==> k in after.sessions && after.sessions[k] == start.sessions[k])
  {
    var start := if merge then t else Tables(map[], map[], map[], map[]);
    InsertFoldKeeps(c, start.topics, data.topics, TopicKey, TopicRowOf, TopicFound, merge);
    InsertFoldKeeps(c, start.questions, data.questions, QuestionKey, QuestionRowOf, QuestionFound, merge);
    InsertFoldKeeps(c, start.sessions, data.sessions, SessionKey, SessionRowOf, SessionFound, merge);
    InsertFoldCounts(c, start.topics, data.topics, TopicKey, TopicRowOf, TopicFound, merge);
    InsertFoldCounts(c, start.questions, data.questions, QuestionKey, QuestionRowOf, QuestionFound, merge);
    InsertFoldCounts(c, start.sessions, data.sessions, SessionKey, SessionRowOf, SessionFound, merge);
  }

  /** A replace of an export whose topic ids are distinct leaves exactly
      the exported topics, each stored as exported. */
  lemma ReplaceRestoresTopics(t: Tables, c: Codec, data: Export)
    requires forall i, j :: 0 <= i < j < |data.topics| ==> data.topics[i].id != data.topics[j].id
    ensures var lt := InsertFold(c, map[], data.topics, TopicKey, TopicRowOf, TopicFound, false);
      && lt.ok && lt.count == |data.topics|
      && (forall k :: k in lt.table <==> exists i :: 0 <= i < |data.topics| && data.topics[i].id == k)
      && (forall k :: k in lt.table ==> exists i :: 0 <= i < |data.topics| && data.topics[i].id == k && lt.table[k] == TopicRowOf(c, data.topics[i]))
  {
    FreshKeysAllWritten(c, map[], data.topics, TopicKey, TopicRowOf, TopicFound);
    InsertFoldAddsItems(c, map[], data.topics, TopicKey, TopicRowOf, TopicFound, false);
    InsertFoldComplete(c, map[], data.topics, TopicKey, TopicRowOf, TopicFound, false);
  }
}
