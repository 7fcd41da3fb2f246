// The in-memory `DatabaseIndex`: one entry per topic (question count,
// distinct tags, difficulty distribution), a global tag map, and the two
// totals that `update_stats` recomputes after every change.
module Index {
  import opened Models
  import opened Sorting

  datatype DifficultyDistribution = DifficultyDistribution(beginner: nat, intermediate: nat, advanced: nat)

  datatype TopicIndexEntry = TopicIndexEntry(
    name: string, questionCount: nat, filePath: string, tags: seq<string>,
    difficulty: DifficultyDistribution, lastModified: string)

  datatype TagInfo = TagInfo(count: nat, topics: seq<string>)

  /** The sum of `question_count` over every entry of the index. */
  ghost function QuestionTotal(m: map<string, TopicIndexEntry>): nat
    decreases |m|
  {
    if m == map[] then 0
    else
      var k :| k in m;
      m[k].questionCount + QuestionTotal(m - {k})
  }

  /** The sum does not depend on which entry is taken first. */
  lemma {:induction false} QuestionTotalRemove(m: map<string, TopicIndexEntry>, k: string)
    requires k in m
    ensures QuestionTotal(m) == m[k].questionCount + QuestionTotal(m - {k})
    decreases |m|
  {
    var j :| j in m && QuestionTotal(m) == m[j].questionCount + QuestionTotal(m - {j});
    if j != k {
      assert (m - {j}).Keys == m.Keys - {j};
      assert (m - {k}).Keys == m.Keys - {k};
      QuestionTotalRemove(m - {j}, k);
      QuestionTotalRemove(m - {k}, j);
      assert (m - {j}) - {k} == (m - {k}) - {j};
    }
  }

  /** The index holding only `topic-1` with ten questions totals one topic
      and ten questions (the `update_stats` unit test). */
  lemma {:induction false} SingleEntryTotal(e: TopicIndexEntry)
    ensures QuestionTotal(map["topic-1" := e]) == e.questionCount
  {
    var m := map["topic-1" := e];
    QuestionTotalRemove(m, "topic-1");
    assert m - {"topic-1"} == map[];
  }

  function Restrict(m: map<string, TopicIndexEntry>, keys: set<string>): (r: map<string, TopicIndexEntry>)
    requires keys <= m.Keys
    ensures r.Keys == keys
  {
    map k | k in keys :: m[k]
  }

  // ---- the tags and difficulty counts of a topic's questions ----

  /** Every tag of every question, in order, repetitions included. */
  function AllTags(qs: seq<Question>): seq<string>
  {
    if qs == [] then [] else qs[0].tags + AllTags(qs[1..])
  }

  /** Appends to `acc` each tag of `tags` that `acc` does not hold yet. */
  function AddTags(acc: seq<string>, tags: seq<string>): seq<string>
    decreases |tags|
  {
    if tags == [] then acc
    else AddTags(if tags[0] in acc then acc else acc + [tags[0]], tags[1..])
  }

  /** The entry's tag list: the distinct tags in first-occurrence order. */
  function DistinctTags(qs: seq<Question>): seq<string>
  {
    AddTags([], AllTags(qs))
  }

  lemma {:induction false} AddTagsProperties(acc: seq<string>, tags: seq<string>)
    requires NoDup(acc)
    decreases |tags|
    ensures NoDup(AddTags(acc, tags))
    ensures forall x :: x in AddTags(acc, tags) <==> x in acc || x in tags
    ensures |acc| <= |AddTags(acc, tags)| && AddTags(acc, tags)[..|acc|] == acc
  {
    if tags != [] {
      var next := if tags[0] in acc then acc else acc + [tags[0]];
      AddTagsProperties(next, tags[1..]);
      assert tags == [tags[0]] + tags[1..];
      assert next[..|acc|] == acc;
    }
  }

  /** The tags of a concatenation are the tags of each part, in order. */
  lemma {:induction false} AllTagsAppend(a: seq<Question>, b: seq<Question>)
    ensures AllTags(a + b) == AllTags(a) + AllTags(b)
    decreases |a|
  {
    if a == [] {
      assert a + b == b;
    } else {
      AllTagsAppend(a[1..], b);
      assert (a + b)[0] == a[0] && (a + b)[1..] == a[1..] + b;
    }
  }

  /** The entry tags hold each tag of the questions exactly once. */
  lemma DistinctTagsAreDistinct(qs: seq<Question>)
    ensures NoDup(DistinctTags(qs))
    ensures forall t :: t in DistinctTags(qs) <==> t in AllTags(qs)
  {
    AddTagsProperties([], AllTags(qs));
  }

  function CountLevel(qs: seq<Question>, level: string): (n: nat)
    ensures n <= |qs|
  {
    if qs == [] then 0
    else (if qs[0].difficulty == level then 1 else 0) + CountLevel(qs[1..], level)
  }

  function Distribution(qs: seq<Question>): DifficultyDistribution
  {
    DifficultyDistribution(CountLevel(qs, "beginner"), CountLevel(qs, "intermediate"), CountLevel(qs, "advanced"))
  }

  /** Levels other than the three known ones are not counted, so the
      distribution never adds up to more than the question count. */
  lemma {:induction false} DistributionBounded(qs: seq<Question>)
    ensures Distribution(qs).beginner + Distribution(qs).intermediate + Distribution(qs).advanced <= |qs|
    ensures (forall i :: 0 <= i < |qs| ==> qs[i].difficulty in {"beginner", "intermediate", "advanced"}) ==>
      Distribution(qs).beginner + Distribution(qs).intermediate + Distribution(qs).advanced == |qs|
  {
    if qs != [] {
      DistributionBounded(qs[1..]);
    }
  }

  // ---- the global tag map ----

  /** The tag entry after `update_topic_entry` touched `tag`. */
  function Touched(tags: map<string, TagInfo>, tag: string, topicId: string, n: nat): TagInfo
  {
    if tag in tags then
      TagInfo(n, if topicId in tags[tag].topics then tags[tag].topics else tags[tag].topics + [topicId])
    else TagInfo(n, [topicId])
  }

  function Without(s: seq<string>, x: string): (r: seq<string>)
    ensures forall y :: y in r <==> y in s && y != x
    ensures |r| <= |s|
  {
    if s == [] then []
    else if s[0] == x then Without(s[1..], x)
    else [s[0]] + Without(s[1..], x)
  }

  /** The tag map after `remove_topic` visited `tag`. */
  function Untagged(tags: map<string, TagInfo>, tag: string, topicId: string): map<string, TagInfo>
  {
    if tag !in tags then tags
    else if Without(tags[tag].topics, topicId) == [] then tags - {tag}
    else tags[tag := tags[tag].(topics := Without(tags[tag].topics, topicId))]
  }

  lemma {:induction false} WithoutNoDup(s: seq<string>, x: string)
    requires NoDup(s)
    ensures NoDup(Without(s, x))
  {
    if s != [] {
      WithoutNoDup(s[1..], x);
      assert s[0] !in s[1..];
    }
  }

  class DatabaseIndex {
    var version: string
    var format: string
    var totalTopics: nat
    var totalQuestions: nat
    var topicsIndex: map<string, TopicIndexEntry>
    var globalTags: map<string, TagInfo>

    /** The two totals agree with the entries. */
    ghost predicate StatsConsistent()
      reads this
    {
      totalTopics == |topicsIndex| && totalQuestions == QuestionTotal(topicsIndex)
    }

    /** No tag lists a topic twice. */
    ghost predicate TagListsDistinct()
      reads this
    {
      forall tag :: tag in globalTags ==> NoDup(globalTags[tag].topics)
    }

    /** `impl Default for DatabaseIndex`. */
    constructor ()
      ensures version == "2.0" && format == "lazy-indexed"
      ensures totalTopics == 0 && totalQuestions == 0
      ensures topicsIndex == map[] && globalTags == map[]
      ensures StatsConsistent() && TagListsDistinct()
    {
      version := "2.0";
      format := "lazy-indexed";
      totalTopics := 0;
      totalQuestions := 0;
      topicsIndex := map[];
      globalTags := map[];
    }

    /** `update_stats`: recompute both totals from the entries. */
    method UpdateStats()
      modifies this
      ensures StatsConsistent()
      ensures topicsIndex == old(topicsIndex) && globalTags == old(globalTags)
      ensures version == old(version) && format == old(format)
    {
      totalTopics := |topicsIndex|;
      totalQuestions := SumQuestionCounts(topicsIndex);
    }

    /** `update_topic_entry`: (re)index a topic from its question list and
        register the topic under each of its tags. */
    method UpdateTopicEntry(topicId: string, name: string, questions: seq<Question>, filePath: string, now: string)
      requires TagListsDistinct()
      modifies this
      ensures topicsIndex == old(topicsIndex)[topicId := TopicIndexEntry(
        name, |questions|, filePath, DistinctTags(questions), Distribution(questions), now)]
      ensures globalTags.Keys == old(globalTags).Keys + set t | t in DistinctTags(questions)
      ensures forall t :: t in DistinctTags(questions) ==>
        globalTags[t] == Touched(old(globalTags), t, topicId, |questions|)
      ensures forall t :: t in DistinctTags(questions) ==> topicId in globalTags[t].topics
      ensures forall t :: t in old(globalTags) && t !in DistinctTags(questions) ==> globalTags[t] == old(globalTags)[t]
      ensures globalTags == Retagged(old(globalTags), topicId, questions)
      ensures StatsConsistent() && TagListsDistinct()
      ensures version == old(version) && format == old(format)
    {
      var dist, tagsSet := Summarize(questions);
      topicsIndex := topicsIndex[topicId := TopicIndexEntry(name, |questions|, filePath, tagsSet, dist, now)];
      DistinctTagsAreDistinct(questions);
      globalTags := RegisterTags(globalTags, tagsSet, topicId, |questions|);
      UpdateStats();
    }

    /** `remove_topic`: drop the entry and withdraw the topic from each of
        its tags, deleting tags that end up with no topic. */
    method RemoveTopic(topicId: string)
      requires TagListsDistinct()
      modifies this
      ensures topicsIndex == old(topicsIndex) - {topicId}
      ensures topicId !in old(topicsIndex) ==> globalTags == old(globalTags)
      ensures topicId in old(topicsIndex) ==>
        Withdrawn(old(globalTags), old(topicsIndex)[topicId].tags, topicId, globalTags)
      ensures topicId in old(topicsIndex) ==>
        globalTags == WithdrawnFrom(old(globalTags), old(topicsIndex)[topicId].tags, topicId)
      ensures StatsConsistent() && TagListsDistinct()
      ensures version == old(version) && format == old(format)
    {
      if topicId in topicsIndex {
        var entry := topicsIndex[topicId];
        topicsIndex := topicsIndex - {topicId};
        globalTags := WithdrawTopic(globalTags, entry.tags, topicId);
      }
      UpdateStats();
    }
  }

  /** The loop of `update_stats`: the sum of the question counts. */
  method SumQuestionCounts(m: map<string, TopicIndexEntry>) returns (sum: nat)
    ensures sum == QuestionTotal(m)
  {
    var keys := m.Keys;
    sum := 0;
    assert Restrict(m, keys) == m;
    while keys != {}
      invariant keys <= m.Keys
      invariant sum + QuestionTotal(Restrict(m, keys)) == QuestionTotal(m)
      decreases keys
    {
      var k :| k in keys;
      var part := Restrict(m, keys);
      QuestionTotalRemove(part, k);
      assert part - {k} == Restrict(m, keys - {k});
      sum := sum + m[k].questionCount;
      keys := keys - {k};
    }
    assert Restrict(m, {}) == map[];
  }

  /** One question of the difficulty match: its level's count goes up. */
  method Tally(dist: DifficultyDistribution, q: Question) returns (d: DifficultyDistribution)
    ensures d.beginner == dist.beginner + CountLevel([q], "beginner")
    ensures d.intermediate == dist.intermediate + CountLevel([q], "intermediate")
    ensures d.advanced == dist.advanced + CountLevel([q], "advanced")
  {
    d := dist;
    if q.difficulty == "beginner" {
      d := d.(beginner := d.beginner + 1);
    } else if q.difficulty == "intermediate" {
      d := d.(intermediate := d.intermediate + 1);
    } else if q.difficulty == "advanced" {
      d := d.(advanced := d.advanced + 1);
    }
  }

  /** The question loop of `update_topic_entry`: the difficulty
      distribution and the distinct tags in first-occurrence order. */
  method Summarize(questions: seq<Question>) returns (dist: DifficultyDistribution, tagsSet: seq<string>)
    ensures dist == Distribution(questions)
    ensures tagsSet == DistinctTags(questions)
  {
    dist := DifficultyDistribution(0, 0, 0);
    tagsSet := [];
    var i := 0;
    while i < |questions|
      invariant 0 <= i <= |questions|
      invariant AddTags(tagsSet, AllTags(questions[i..])) == DistinctTags(questions)
      invariant dist.beginner + CountLevel(questions[i..], "beginner") == CountLevel(questions, "beginner")
      invariant dist.intermediate + CountLevel(questions[i..], "intermediate") == CountLevel(questions, "intermediate")
      invariant dist.advanced + CountLevel(questions[i..], "advanced") == CountLevel(questions, "advanced")
    {
      var q := questions[i];
      assert questions[i..][0] == q;
      assert questions[i..][1..] == questions[i + 1..];
      dist := Tally(dist, q);
      AddTagsAppend(tagsSet, q.tags, AllTags(questions[i + 1..]));
      tagsSet := MergeTags(tagsSet, q.tags);
      i := i + 1;
    }
    assert AllTags(questions[i..]) == [];
  }

  lemma {:induction false} AddTagsAppend(acc: seq<string>, a: seq<string>, b: seq<string>)
    ensures AddTags(acc, a + b) == AddTags(AddTags(acc, a), b)
    decreases |a|
  {
    if a != [] {
      assert (a + b)[1..] == a[1..] + b;
      AddTagsAppend(if a[0] in acc then acc else acc + [a[0]], a[1..], b);
    } else {
      assert a + b == b;
    }
  }

  /** The inner tag loop of `update_topic_entry`: push each tag not yet
      collected. */
  method MergeTags(acc: seq<string>, tags: seq<string>) returns (r: seq<string>)
    ensures r == AddTags(acc, tags)
  {
    r := acc;
    var j := 0;
    while j < |tags|
      invariant 0 <= j <= |tags|
      invariant AddTags(r, tags[j..]) == AddTags(acc, tags)
    {
      assert tags[j..][1..] == tags[j + 1..];
      if tags[j] !in r {
        r := r + [tags[j]];
      }
      j := j + 1;
    }
  }

  /** The tag map after each tag of `ts`, in order, was touched. */
  function Registered(tags: map<string, TagInfo>, ts: seq<string>, topicId: string, n: nat): map<string, TagInfo>
    decreases |ts|
  {
    if ts == [] then tags
    else
      var r := Registered(tags, ts[..|ts| - 1], topicId, n);
      var tag := ts[|ts| - 1];
      r[tag := Touched(r, tag, topicId, n)]
  }

  /** The tag map after `update_topic_entry` indexed `questions` under
      `topicId`: each distinct tag of the questions touched, in order. */
  function Retagged(tags: map<string, TagInfo>, topicId: string, questions: seq<Question>): map<string, TagInfo>
  {
    Registered(tags, DistinctTags(questions), topicId, |questions|)
  }

  /** Indexing an empty question list leaves the tag map alone. */
  lemma RetaggedEmpty(tags: map<string, TagInfo>, topicId: string)
    ensures Retagged(tags, topicId, []) == tags
  {
    assert DistinctTags([]) == [];
  }

  /** Re-indexing a topic whose tags only grew is indexing it once with the
      later list: the count is the later one and the topic is listed once. */
  lemma {:induction false} RetaggedTwice(tags: map<string, TagInfo>, topicId: string, a: seq<Question>, b: seq<Question>)
    requires forall t :: t in AllTags(a) ==> t in AllTags(b)
    ensures Retagged(Retagged(tags, topicId, a), topicId, b) == Retagged(tags, topicId, b)
  {
    var ta, tb := DistinctTags(a), DistinctTags(b);
    DistinctTagsAreDistinct(a);
    DistinctTagsAreDistinct(b);
    var mid := Registered(tags, ta, topicId, |a|);
    var x := Registered(mid, tb, topicId, |b|);
    var y := Registered(tags, tb, topicId, |b|);
    forall t ensures (t in x <==> t in y) && (t in x ==> x[t] == y[t]) {
      RegisteredAt(tags, ta, topicId, |a|, t);
      RegisteredAt(mid, tb, topicId, |b|, t);
      RegisteredAt(tags, tb, topicId, |b|, t);
    }
    assert x.Keys == y.Keys;
  }

  /** With distinct tags, each listed tag is touched once, from its old
      entry, and every other tag is left alone. */
  lemma {:induction false} RegisteredAt(tags: map<string, TagInfo>, ts: seq<string>, topicId: string, n: nat, t: string)
    requires NoDup(ts)
    ensures t in Registered(tags, ts, topicId, n) <==> t in tags || t in ts
    ensures t in ts ==> Registered(tags, ts, topicId, n)[t] == Touched(tags, t, topicId, n)
    ensures t in tags && t !in ts ==> Registered(tags, ts, topicId, n)[t] == tags[t]
    decreases |ts|
  {
    if ts != [] {
      var front := ts[..|ts| - 1];
      assert ts == front + [ts[|ts| - 1]];
      assert NoDup(front) by {
        forall i, j | 0 <= i < j < |front| ensures front[i] != front[j] {
          assert front[i] == ts[i] && front[j] == ts[j];
        }
      }
      assert ts[|ts| - 1] !in front by {
        forall i | 0 <= i < |front| ensures front[i] != ts[|ts| - 1] {
          assert front[i] == ts[i];
        }
      }
      RegisteredAt(tags, front, topicId, n, t);
    }
  }

  /** The tag loop of `update_topic_entry`: every tag of the entry gets the
      new count and lists the topic once; other tags keep their entry. */
  method RegisterTags(tags: map<string, TagInfo>, tagsSet: seq<string>, topicId: string, n: nat)
    returns (r: map<string, TagInfo>)
    requires NoDup(tagsSet)
    requires forall t :: t in tags ==> NoDup(tags[t].topics)
    ensures r.Keys == tags.Keys + set t | t in tagsSet
    ensures forall t :: t in tagsSet ==> r[t] == Touched(tags, t, topicId, n)
    ensures forall t :: t in tagsSet ==> r[t].count == n && topicId in r[t].topics
    ensures forall t :: t in tags && t !in tagsSet ==> r[t] == tags[t]
    ensures forall t :: t in r ==> NoDup(r[t].topics)
    ensures r == Registered(tags, tagsSet, topicId, n)
  {
    r := tags;
    var k := 0;
    while k < |tagsSet|
      invariant 0 <= k <= |tagsSet|
      invariant r == Registered(tags, tagsSet[..k], topicId, n)
    {
      assert tagsSet[..k + 1][..k] == tagsSet[..k];
      var tag := tagsSet[k];
      if tag in r {
        var info := r[tag];
        var topics := if topicId in info.topics then info.topics else info.topics + [topicId];
        r := r[tag := TagInfo(n, topics)];
      } else {
        r := r[tag := TagInfo(n, [topicId])];
      }
      k := k + 1;
    }
    assert tagsSet[..k] == tagsSet;
    forall t
      ensures t in r <==> t in tags || t in tagsSet
      ensures t in tagsSet ==> r[t] == Touched(tags, t, topicId, n)
      ensures t in tags && t !in tagsSet ==> r[t] == tags[t]
    {
      RegisteredAt(tags, tagsSet, topicId, n, t);
    }
    forall t | t in r ensures NoDup(r[t].topics) {
      if t in tagsSet && t in tags && topicId !in tags[t].topics {
        NoDupSnoc(tags[t].topics, topicId);
      }
    }
  }

  lemma NoDupSnoc(s: seq<string>, x: string)
    requires NoDup(s) && x !in s
    ensures NoDup(s + [x])
  {
  }

  /** `r` is the tag map `tags` once `topicId` has been withdrawn from
      each tag of `entryTags`: withdrawn tags lose the topic and disappear
      when no topic is left, every other tag is unchanged. */
  ghost predicate Withdrawn(tags: map<string, TagInfo>, entryTags: seq<string>, topicId: string, r: map<string, TagInfo>)
  {
    && (forall t :: t in r ==> t in tags)
    && (forall t :: t in tags && t !in entryTags ==> t in r && r[t] == tags[t])
    && (forall t :: t in tags && t in entryTags ==>
          if Without(tags[t].topics, topicId) == [] then t !in r
          else t in r && r[t] == tags[t].(topics := Without(tags[t].topics, topicId)))
  }

  /** The tag map after the topic was withdrawn from each tag of `ts`, in
      order. */
  function WithdrawnFrom(tags: map<string, TagInfo>, ts: seq<string>, topicId: string): map<string, TagInfo>
    decreases |ts|
  {
    if ts == [] then tags
    else
      var r := WithdrawnFrom(tags, ts[..|ts| - 1], topicId);
      var tag := ts[|ts| - 1];
      if tag !in r then r
      else
        var rest := Without(r[tag].topics, topicId);
        if rest == [] then r - {tag} else r[tag := r[tag].(topics := rest)]
  }

  /** Withdrawing from a tag twice is withdrawing once, so a repeated tag
      makes no difference. */
  lemma {:induction false} WithdrawnFromAt(tags: map<string, TagInfo>, ts: seq<string>, topicId: string, t: string)
    ensures t in WithdrawnFrom(tags, ts, topicId) ==> t in tags
    ensures t in tags && t !in ts ==> t in WithdrawnFrom(tags, ts, topicId) && WithdrawnFrom(tags, ts, topicId)[t] == tags[t]
    ensures t in tags && t in ts ==>
      if Without(tags[t].topics, topicId) == [] then t !in WithdrawnFrom(tags, ts, topicId)
      else t in WithdrawnFrom(tags, ts, topicId)
           && WithdrawnFrom(tags, ts, topicId)[t] == tags[t].(topics := Without(tags[t].topics, topicId))
    decreases |ts|
  {
    if ts != [] {
      var front := ts[..|ts| - 1];
      assert ts == front + [ts[|ts| - 1]];
      WithdrawnFromAt(tags, front, topicId, t);
      if t in tags && t in front {
        WithoutTwice(tags[t].topics, topicId);
      }
    }
  }

  /** The tag loop of `remove_topic`. */
  method WithdrawTopic(tags: map<string, TagInfo>, entryTags: seq<string>, topicId: string)
    returns (r: map<string, TagInfo>)
    requires forall t :: t in tags ==> NoDup(tags[t].topics)
    ensures Withdrawn(tags, entryTags, topicId, r)
    ensures forall t :: t in r && t in entryTags ==> topicId !in r[t].topics
    ensures forall t :: t in r ==> NoDup(r[t].topics)
    ensures r == WithdrawnFrom(tags, entryTags, topicId)
  {
    r := tags;
    var k := 0;
    while k < |entryTags|
      invariant 0 <= k <= |entryTags|
      invariant r == WithdrawnFrom(tags, entryTags[..k], topicId)
    {
      assert entryTags[..k + 1][..k] == entryTags[..k];
      var tag := entryTags[k];
      if tag in r {
        var rest := Without(r[tag].topics, topicId);
        if rest == [] {
          r := r - {tag};
        } else {
          r := r[tag := r[tag].(topics := rest)];
        }
      }
      k := k + 1;
    }
    assert entryTags[..k] == entryTags;
    forall t
      ensures t in r ==> t in tags
      ensures t in tags && t !in entryTags ==> t in r && r[t] == tags[t]
      ensures t in tags && t in entryTags ==>
        if Without(tags[t].topics, topicId) == [] then t !in r
        else t in r && r[t] == tags[t].(topics := Without(tags[t].topics, topicId))
    {
      WithdrawnFromAt(tags, entryTags, topicId, t);
    }
    forall t | t in r ensures NoDup(r[t].topics) {
      if t in entryTags {
        WithoutNoDup(tags[t].topics, topicId);
      }
    }
  }

  lemma {:induction false} WithoutTwice(s: seq<string>, x: string)
    ensures Without(Without(s, x), x) == Without(s, x)
  {
    if s != [] {
      WithoutTwice(s[1..], x);
    }
  }
}
