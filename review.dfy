// The review bookkeeping both progress repositories apply to a progress
// entry: confidence clamping, the correct/incorrect counters and the
// spaced-repetition day table of `calculate_next_review`.
module Review {
  import opened Wrappers
  import opened Models

  /** The clock as the repositories read it: the current instant and the
      instant a whole number of days later, both as RFC 3339 text. */
  datatype Clock = Clock(now: string, daysLater: int -> string)

  /** `i32::clamp(0, 5)`. */
  function Clamp(c: int): (r: int)
    ensures 0 <= r <= 5
    ensures 0 <= c <= 5 ==> r == c
    ensures c < 0 ==> r == 0
    ensures c > 5 ==> r == 5
  {
    if c < 0 then 0 else if c > 5 then 5 else c
  }

  /** The number of days until the next review, the match in
      `calculate_next_review`. */
  function NextReviewDays(confidence: int, timesReviewed: int): (days: int)
    ensures 0 <= confidence <= 1 ==> days == 1
    ensures 2 <= confidence <= 3 ==> days == (if 0 <= timesReviewed <= 2 then 3 else 7)
    ensures 4 <= confidence <= 5 ==> days == (if 0 <= timesReviewed <= 2 then 14 else 30)
    ensures (confidence < 0 || confidence > 5) ==> days == 7
  {
    if 0 <= confidence <= 1 then 1
    else if 2 <= confidence <= 3 then (if 0 <= timesReviewed <= 2 then 3 else 7)
    else if 4 <= confidence <= 5 then (if 0 <= timesReviewed <= 2 then 14 else 30)
    else 7
  }

  /** Within the clamped range, more confidence or more reviews never bring
      the next review closer. */
  lemma NextReviewMonotone(c1: int, c2: int, r1: int, r2: int)
    requires 0 <= c1 <= c2 <= 5
    requires 0 <= r1 <= r2
    ensures NextReviewDays(c1, r1) <= NextReviewDays(c2, r2)
    ensures NextReviewDays(c1, r1) in {1, 3, 7, 14, 30}
  {
  }

  /** The field updates `update` makes to a progress entry before writing
      it back: the status and clamped confidence when given, one more review
      counted as correct or incorrect when `was_correct` is given, both
      review timestamps and `updated_at` refreshed. */
  function Reviewed(p: QuestionProgress, dto: UpdateProgressDto, clock: Clock): (q: QuestionProgress)
    ensures q.questionId == p.questionId && q.topicId == p.topicId && q.createdAt == p.createdAt
    ensures q.status == (if dto.status.Some? then dto.status.value else p.status)
    ensures q.confidenceLevel == (if dto.confidenceLevel.Some? then Clamp(dto.confidenceLevel.value) else p.confidenceLevel)
    ensures dto.wasCorrect.None? ==>
      q.timesReviewed == p.timesReviewed && q.timesCorrect == p.timesCorrect && q.timesIncorrect == p.timesIncorrect
    ensures dto.wasCorrect.Some? ==>
      q.timesReviewed == p.timesReviewed + 1
      && q.timesCorrect == p.timesCorrect + (if dto.wasCorrect.value then 1 else 0)
      && q.timesIncorrect == p.timesIncorrect + (if dto.wasCorrect.value then 0 else 1)
    ensures q.lastReviewedAt == Some(clock.now) && q.updatedAt == clock.now
    ensures q.nextReviewAt == Some(clock.daysLater(NextReviewDays(q.confidenceLevel, q.timesReviewed)))
  {
    var status := if dto.status.Some? then dto.status.value else p.status;
    var confidence := if dto.confidenceLevel.Some? then Clamp(dto.confidenceLevel.value) else p.confidenceLevel;
    var reviewed := if dto.wasCorrect.Some? then p.timesReviewed + 1 else p.timesReviewed;
    var correct := if dto.wasCorrect == Some(true) then p.timesCorrect + 1 else p.timesCorrect;
    var incorrect := if dto.wasCorrect == Some(false) then p.timesIncorrect + 1 else p.timesIncorrect;
    p.(status := status, confidenceLevel := confidence, timesReviewed := reviewed,
       timesCorrect := correct, timesIncorrect := incorrect,
       lastReviewedAt := Some(clock.now), updatedAt := clock.now,
       nextReviewAt := Some(clock.daysLater(NextReviewDays(confidence, reviewed))))
  }

  /** The field updates of `reset`: back to the pristine state, keeping the
      question, topic and creation time. */
  function ResetEntry(p: QuestionProgress, now: string): (q: QuestionProgress)
    ensures Pristine(q) && Balanced(q)
    ensures q.questionId == p.questionId && q.topicId == p.topicId && q.createdAt == p.createdAt
    ensures q.updatedAt == now
  {
    p.(status := NotStudied, confidenceLevel := 0, timesReviewed := 0, timesCorrect := 0,
       timesIncorrect := 0, lastReviewedAt := None, nextReviewAt := None, updatedAt := now)
  }

  /** A review keeps the entry's counters balanced and its confidence in
      range, so every entry that only went through `new`, `update` and
      `reset` satisfies both. */
  lemma ReviewKeepsInvariants(p: QuestionProgress, dto: UpdateProgressDto, clock: Clock)
    requires Balanced(p) && 0 <= p.confidenceLevel <= 5
    ensures Balanced(Reviewed(p, dto, clock))
    ensures 0 <= Reviewed(p, dto, clock).confidenceLevel <= 5
    ensures Reviewed(p, dto, clock).nextReviewAt.Some?
  {
  }
}
