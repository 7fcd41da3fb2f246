// The line-based markdown parser of the JSON-files backend
// (`utils/markdown_parser.rs`): `## ` lines open topics, `### N.` lines open
// numbered questions and everything after a `**Answer:**` line is the
// question's answer. The regexes `^(\d+)\.` and `^\d+\.\s*` are written out
// by hand over ASCII digits and whitespace.
module Markdown {
  import opened Wrappers
  import opened Ascii

  datatype ParsedQuestion = ParsedQuestion(questionNumber: int, question: string, answer: string)
  datatype ParsedTopic = ParsedTopic(name: string, questions: seq<ParsedQuestion>)

  /** `i32::MAX`: the largest question number `parse::<i32>` accepts. */
  const I32Max: int := 0x7FFF_FFFF

  // ---- lines ----

  /** `str::lines`: the pieces between line feeds, without the empty piece
      a final line feed leaves. The carriage return of a `\r\n` ending is
      kept here; every line is trimmed before use, which removes it. */
  function Lines(content: string): (r: seq<string>)
    ensures forall i :: 0 <= i < |r| ==> '\n' !in r[i]
  {
    var pieces := Split(content, '\n');
    if pieces[|pieces| - 1] == [] then pieces[..|pieces| - 1] else pieces
  }

  /** The lines joined by line feeds are the content, less one final line
      feed if it has one. */
  lemma LinesJoin(content: string)
    ensures content != [] && content[|content| - 1] == '\n' ==> Join(Lines(content), '\n') + "\n" == content
    ensures content == [] || content[|content| - 1] != '\n' ==> Join(Lines(content), '\n') == content
  {
    var pieces := Split(content, '\n');
    JoinSplit(content, '\n');
    var n := |pieces|;
    if pieces[n - 1] == [] && content != [] {
      assert pieces == pieces[..n - 1] + [[]];
      JoinSnoc(pieces[..n - 1], [], '\n');
    } else if pieces[n - 1] != [] && n > 1 {
      assert pieces == pieces[..n - 1] + [pieces[n - 1]];
      JoinSnoc(pieces[..n - 1], pieces[n - 1], '\n');
      assert content[|content| - 1] == pieces[n - 1][|pieces[n - 1]| - 1];
    }
  }

  // ---- question numbers ----

  /** The longest prefix of decimal digits. */
  function DigitRun(s: string): (d: string)
    ensures |d| <= |s| && d == s[..|d|] && AllDigits(d)
    ensures |d| < |s| ==> !IsDigit(s[|d|])
  {
    if s != [] && IsDigit(s[0]) then [s[0]] + DigitRun(s[1..]) else []
  }

  /** The text starts with `^\d+\.`: digits and then a dot. */
  predicate HasNumberPrefix(text: string)
  {
    var d := DigitRun(text);
    0 < |d| < |text| && text[|d|] == '.'
  }

  /** `extract_question_number`: the number before the dot, or None when
      there is none or it does not fit an `i32`. */
  function ExtractQuestionNumber(text: string): (r: Option<int>)
    ensures r.Some? ==> HasNumberPrefix(text) && 0 <= r.value <= I32Max
  {
    var d := DigitRun(text);
    if HasNumberPrefix(text) && DigitsValue(d) <= I32Max then Some(DigitsValue(d)) else None
  }

  /** `remove_question_number_prefix`: the digits, the dot and the
      whitespace after them removed; any other text unchanged. */
  function RemoveQuestionNumberPrefix(text: string): (r: string)
    ensures !HasNumberPrefix(text) ==> r == text
  {
    var d := DigitRun(text);
    if HasNumberPrefix(text) then TrimStart(text[|d| + 1..]) else text
  }

  lemma {:induction false} DigitRunOf(ds: string, rest: string)
    requires AllDigits(ds)
    requires rest == [] || !IsDigit(rest[0])
    ensures DigitRun(ds + rest) == ds
  {
    if ds != [] {
      assert (ds + rest)[1..] == ds[1..] + rest;
      DigitRunOf(ds[1..], rest);
    }
  }

  /** A printed number and a dot read back as that number, as long as it
      fits an `i32`; a larger one reads as no number at all. */
  lemma ExtractPrinted(n: nat, rest: string)
    ensures ExtractQuestionNumber(Decimal(n) + "." + rest) == (if n <= I32Max then Some(n) else None)
  {
    var text := Decimal(n) + "." + rest;
    assert text == Decimal(n) + ("." + rest);
    DigitRunOf(Decimal(n), "." + rest);
    DecimalValue(n);
  }

  /** The prefix removal strips digits, their dot and the spaces after
      them. */
  lemma RemoveDigits(ds: string, rest: string)
    requires ds != [] && AllDigits(ds)
    ensures RemoveQuestionNumberPrefix(ds + "." + rest) == TrimStart(rest)
  {
    var text := ds + "." + rest;
    assert text == ds + ("." + rest);
    DigitRunOf(ds, "." + rest);
    assert text[|ds| + 1..] == rest;
  }

  /** The prefix removal strips a printed number, its dot and the spaces
      after it, whatever the size of the number. */
  lemma RemovePrinted(n: nat, rest: string)
    ensures RemoveQuestionNumberPrefix(Decimal(n) + "." + rest) == TrimStart(rest)
  {
    RemoveDigits(Decimal(n), rest);
  }

  /** The first example of `test_extract_question_number`. */
  lemma ExtractExampleOne()
    ensures ExtractQuestionNumber("1. What is this?") == Some(1)
  {
    DigitRunOf("1", ". What is this?");
    assert "1" + ". What is this?" == "1. What is this?";
  }

  /** The second example of `test_extract_question_number`. */
  lemma ExtractExampleTen()
    ensures ExtractQuestionNumber("10. Another question?") == Some(10)
  {
    DecimalTen();
    ExtractPrinted(10, " Another question?");
    assert "10" + "." + " Another question?" == "10. Another question?";
  }

  lemma DecimalTen()
    ensures Decimal(10) == "10"
  {
    assert Decimal(1) == "1";
  }

  /** The third example of `test_extract_question_number`. */
  lemma ExtractExampleNone()
    ensures ExtractQuestionNumber("No number here") == None
  {
    assert DigitRun("No number here") == [];
  }

  /** The first example of `test_remove_question_number_prefix`. */
  lemma RemoveExampleOne()
    ensures RemoveQuestionNumberPrefix("1. What is this?") == "What is this?"
  {
    assert RemoveQuestionNumberPrefix("1. What is this?") == TrimStart(" What is this?") by {
      assert "1" + "." + " What is this?" == "1. What is this?";
      RemoveDigits("1", " What is this?");
    }
    assert " What is this?"[1..] == "What is this?";
    assert TrimStart(" What is this?") == "What is this?" by {
      assert TrimStart("What is this?") == "What is this?" by {
        assert !IsWhitespace("What is this?"[0]);
      }
    }
  }

  /** The second example of `test_remove_question_number_prefix`. */
  lemma RemoveExampleTen()
    ensures RemoveQuestionNumberPrefix("10. Another question?") == "Another question?"
  {
    assert RemoveQuestionNumberPrefix("10. Another question?") == TrimStart(" Another question?") by {
      assert "10" + "." + " Another question?" == "10. Another question?";
      RemoveDigits("10", " Another question?");
    }
    assert " Another question?"[1..] == "Another question?";
    assert TrimStart(" Another question?") == "Another question?" by {
      assert TrimStart("Another question?") == "Another question?" by {
        assert !IsWhitespace("Another question?"[0]);
      }
    }
  }

  // ---- the state machine ----

  /** `finalize_question`: the question, if any, with the trimmed answer. */
  function FinalizeQuestion(question: Option<ParsedQuestion>, answer: string): (r: Option<ParsedQuestion>)
    ensures r.Some? <==> question.Some?
    ensures r.Some? ==> r.value.questionNumber == question.value.questionNumber && r.value.question == question.value.question
    ensures r.Some? ==> r.value.answer == Trim(answer)
  {
    match question
    case None => None
    case Some(q) => Some(q.(answer := Trim(answer)))
  }

  /** What a trimmed line is to the parser. */
  datatype LineKind =
    | TopicHeading(name: string)
    | QuestionHeading(number: int, text: string)
    | OtherHeading
    | AnswerMarker
    | Separator
    | Text(line: string)

  /** The branch of the loop body a trimmed line takes. */
  function Classify(line: string): (k: LineKind)
    ensures k.QuestionHeading? ==> 0 <= k.number <= I32Max
  {
    if StartsWith(line, "## ") && !StartsWith(line, "### ") then TopicHeading(Trim(line[3..]))
    else if StartsWith(line, "### ") then
      var text := Trim(line[4..]);
      var number := ExtractQuestionNumber(text);
      if number.Some? then QuestionHeading(number.value, RemoveQuestionNumberPrefix(text)) else OtherHeading
    else if StartsWith(line, "**Answer:**") then AnswerMarker
    else if line == "---" then Separator
    else Text(line)
  }

  /** The parser's variables: the finished topics, the open topic, the open
      question, the answer buffer and whether the answer section began. */
  datatype Parser = Parser(
    topics: seq<ParsedTopic>, topic: Option<ParsedTopic>, question: Option<ParsedQuestion>,
    answer: string, inAnswer: bool)

  const Start := Parser([], None, None, "", false)

  /** The open topic with the finalized open question appended. */
  function Flushed(topic: ParsedTopic, question: Option<ParsedQuestion>, answer: string): ParsedTopic
  {
    match FinalizeQuestion(question, answer)
    case None => topic
    case Some(q) => topic.(questions := topic.questions + [q])
  }

  /** One pass of the loop body, on the kind of the trimmed line. A topic
      heading closes the open topic; a question heading files the open
      question into the open topic; only when there is an open topic is the
      open question taken, so a question before the first topic survives a
      topic heading. */
  function Step(p: Parser, k: LineKind): (r: Parser)
    ensures k.TopicHeading? || k.QuestionHeading? ==> r.answer == [] && !r.inAnswer
    ensures k.AnswerMarker? ==> r.answer == [] && r.inAnswer
  {
    match k
    case TopicHeading(name) =>
      var topics := if p.topic.Some? then p.topics + [Flushed(p.topic.value, p.question, p.answer)] else p.topics;
      var question := if p.topic.Some? then None else p.question;
      Parser(topics, Some(ParsedTopic(name, [])), question, "", false)
    case QuestionHeading(n, text) =>
      var topic := if p.topic.Some? then Some(Flushed(p.topic.value, p.question, p.answer)) else None;
      Parser(p.topics, topic, Some(ParsedQuestion(n, text, "")), "", false)
    case AnswerMarker => p.(inAnswer := true, answer := "")
    case Text(line) => if p.inAnswer && p.question.Some? then p.(answer := p.answer + line + "\n") else p
    case _ => p
  }

  /** The kinds of the trimmed lines, in order. */
  function KindsOf(lines: seq<string>): (r: seq<LineKind>)
    ensures |r| == |lines|
    ensures forall k :: k in r && k.QuestionHeading? ==> 0 <= k.number <= I32Max
  {
    if lines == [] then [] else KindsOf(lines[..|lines| - 1]) + [Classify(Trim(lines[|lines| - 1]))]
  }

  lemma KindsOfSnoc(lines: seq<string>, i: nat)
    requires i < |lines|
    ensures KindsOf(lines[..i + 1]) == KindsOf(lines[..i]) + [Classify(Trim(lines[i]))]
  {
    assert lines[..i + 1][..i] == lines[..i];
  }

  /** The loop over a sequence of line kinds. */
  function Run(p: Parser, kinds: seq<LineKind>): Parser
  {
    if kinds == [] then p else Step(Run(p, kinds[..|kinds| - 1]), kinds[|kinds| - 1])
  }

  /** After the loop: the open topic, with its open question, is saved. */
  function Finish(p: Parser): seq<ParsedTopic>
  {
    if p.topic.Some? then p.topics + [Flushed(p.topic.value, p.question, p.answer)] else p.topics
  }

  /** What `parse_markdown_file` returns inside its `Ok`. */
  function Parse(content: string): seq<ParsedTopic>
  {
    Finish(Run(Start, KindsOf(Lines(content))))
  }

  /** The body of the `while` loop of `parse_markdown_file` on one line,
      over the parser's five variables. */
  method ParseLine(topics: seq<ParsedTopic>, currentTopic: Option<ParsedTopic>,
                   currentQuestion: Option<ParsedQuestion>, currentAnswer: string, inAnswer: bool, raw: string)
    returns (topics': seq<ParsedTopic>, currentTopic': Option<ParsedTopic>,
             currentQuestion': Option<ParsedQuestion>, currentAnswer': string, inAnswer': bool)
    ensures Parser(topics', currentTopic', currentQuestion', currentAnswer', inAnswer')
         == Step(Parser(topics, currentTopic, currentQuestion, currentAnswer, inAnswer), Classify(Trim(raw)))
  {
    topics', currentTopic', currentQuestion', currentAnswer', inAnswer' :=
      topics, currentTopic, currentQuestion, currentAnswer, inAnswer;
    var line := Trim(raw);
    if StartsWith(line, "## ") && !StartsWith(line, "### ") {
      if currentTopic'.Some? {
        var topic := currentTopic'.value;
        var question := FinalizeQuestion(currentQuestion', currentAnswer');
        currentQuestion' := None;
        if question.Some? {
          topic := topic.(questions := topic.questions + [question.value]);
        }
        topics' := topics' + [topic];
      }
      currentTopic' := Some(ParsedTopic(Trim(line[3..]), []));
      currentAnswer' := "";
      inAnswer' := false;
    } else if StartsWith(line, "### ") {
      var questionText := Trim(line[4..]);
      var number := ExtractQuestionNumber(questionText);
      if number.Some? {
        if currentTopic'.Some? {
          var question := FinalizeQuestion(currentQuestion', currentAnswer');
          currentQuestion' := None;
          if question.Some? {
            currentTopic' := Some(currentTopic'.value.(questions := currentTopic'.value.questions + [question.value]));
          }
        }
        currentQuestion' := Some(ParsedQuestion(number.value, RemoveQuestionNumberPrefix(questionText), ""));
        currentAnswer' := "";
        inAnswer' := false;
      }
    } else if StartsWith(line, "**Answer:**") {
      inAnswer' := true;
      currentAnswer' := "";
    } else if inAnswer' && currentQuestion'.Some? {
      if line != "---" {
        currentAnswer' := currentAnswer' + line + "\n";
      }
    }
  }

  /** The end of `parse_markdown_file`: the open topic, with its open
      question, saved. */
  method SaveLast(topics: seq<ParsedTopic>, currentTopic: Option<ParsedTopic>,
                  currentQuestion: Option<ParsedQuestion>, currentAnswer: string, inAnswer: bool)
    returns (topics': seq<ParsedTopic>)
    ensures topics' == Finish(Parser(topics, currentTopic, currentQuestion, currentAnswer, inAnswer))
  {
    topics' := topics;
    if currentTopic.Some? {
      var topic := currentTopic.value;
      var question := FinalizeQuestion(currentQuestion, currentAnswer);
      if question.Some? {
        topic := topic.(questions := topic.questions + [question.value]);
      }
      topics' := topics' + [topic];
    }
  }

  lemma RunSnoc(p: Parser, kinds: seq<LineKind>, k: LineKind)
    ensures Run(p, kinds + [k]) == Step(Run(p, kinds), k)
  {
    assert (kinds + [k])[..|kinds|] == kinds;
  }

  /** One turn of the loop of `parse_markdown_file`, with its invariant
      before and after. */
  method ParseNext(lines: seq<string>, i: nat,
                   topics: seq<ParsedTopic>, currentTopic: Option<ParsedTopic>,
                   currentQuestion: Option<ParsedQuestion>, currentAnswer: string, inAnswer: bool)
    returns (topics': seq<ParsedTopic>, currentTopic': Option<ParsedTopic>,
             currentQuestion': Option<ParsedQuestion>, currentAnswer': string, inAnswer': bool)
    requires i < |lines|
    requires Parser(topics, currentTopic, currentQuestion, currentAnswer, inAnswer) == Run(Start, KindsOf(lines[..i]))
    ensures Parser(topics', currentTopic', currentQuestion', currentAnswer', inAnswer') == Run(Start, KindsOf(lines[..i + 1]))
  {
    topics', currentTopic', currentQuestion', currentAnswer', inAnswer' :=
      ParseLine(topics, currentTopic, currentQuestion, currentAnswer, inAnswer, lines[i]);
    KindsOfSnoc(lines, i);
    RunSnoc(Start, KindsOf(lines[..i]), Classify(Trim(lines[i])));
  }

  /** `parse_markdown_file`. It never fails. */
  method ParseMarkdownFile(content: string) returns (r: Result<seq<ParsedTopic>, string>)
    ensures r == Ok(Parse(content))
  {
    var topics: seq<ParsedTopic> := [];
    var currentTopic: Option<ParsedTopic> := None;
    var currentQuestion: Option<ParsedQuestion> := None;
    var currentAnswer := "";
    var inAnswer := false;
    var lines := Lines(content);
    var i := 0;
    assert lines[..0] == [];
    while i < |lines|
      invariant 0 <= i <= |lines|
      invariant Parser(topics, currentTopic, currentQuestion, currentAnswer, inAnswer) == Run(Start, KindsOf(lines[..i]))
    {
      topics, currentTopic, currentQuestion, currentAnswer, inAnswer :=
        ParseNext(lines, i, topics, currentTopic, currentQuestion, currentAnswer, inAnswer);
      i := i + 1;
    }
    assert lines[..i] == lines;
    topics := SaveLast(topics, currentTopic, currentQuestion, currentAnswer, inAnswer);
    r := Ok(topics);
  }

  // ---- what the parse yields ----

  function Names(topics: seq<ParsedTopic>): (r: seq<string>)
    ensures |r| == |topics|
  {
    if topics == [] then [] else Names(topics[..|topics| - 1]) + [topics[|topics| - 1].name]
  }

  function NameOf(topic: Option<ParsedTopic>): seq<string>
  {
    if topic.Some? then [topic.value.name] else []
  }

  /** The names of the topic headings, in order. */
  function HeadingNames(kinds: seq<LineKind>): seq<string>
  {
    if kinds == [] then []
    else
      var k := kinds[|kinds| - 1];
      HeadingNames(kinds[..|kinds| - 1]) + (if k.TopicHeading? then [k.name] else [])
  }

  lemma NamesSnoc(topics: seq<ParsedTopic>, t: ParsedTopic)
    ensures Names(topics + [t]) == Names(topics) + [t.name]
  {
    assert (topics + [t])[..|topics|] == topics;
  }

  lemma StepNames(p: Parser, k: LineKind)
    ensures Names(Step(p, k).topics) + NameOf(Step(p, k).topic)
         == Names(p.topics) + NameOf(p.topic) + (if k.TopicHeading? then [k.name] else [])
  {
    if k.TopicHeading? && p.topic.Some? {
      NamesSnoc(p.topics, Flushed(p.topic.value, p.question, p.answer));
    }
  }

  lemma {:induction false} RunNames(kinds: seq<LineKind>)
    ensures Names(Run(Start, kinds).topics) + NameOf(Run(Start, kinds).topic) == HeadingNames(kinds)
  {
    if kinds != [] {
      var front := kinds[..|kinds| - 1];
      RunNames(front);
      StepNames(Run(Start, front), kinds[|kinds| - 1]);
    }
  }

  /** One topic per `## ` line, named by its trimmed remainder, in input
      order, the last one included. */
  lemma TopicsInOrder(content: string)
    ensures Names(Parse(content)) == HeadingNames(KindsOf(Lines(content)))
  {
    var p := Run(Start, KindsOf(Lines(content)));
    RunNames(KindsOf(Lines(content)));
    if p.topic.Some? {
      NamesSnoc(p.topics, Flushed(p.topic.value, p.question, p.answer));
    }
  }

  predicate Trimmed(s: string)
  {
    s == [] || (!IsWhitespace(s[0]) && !IsWhitespace(s[|s| - 1]))
  }

  /** The question's number and text are those of a question heading. */
  predicate FromHeading(q: ParsedQuestion, kinds: seq<LineKind>)
  {
    QuestionHeading(q.questionNumber, q.question) in kinds
  }

  predicate Finished(q: ParsedQuestion, kinds: seq<LineKind>)
  {
    FromHeading(q, kinds) && Trimmed(q.answer)
  }

  /** Every filed question comes from a heading and has a trimmed answer;
      the open question comes from a heading. */
  predicate Sound(p: Parser, kinds: seq<LineKind>)
  {
    && (forall t :: t in p.topics ==> forall q :: q in t.questions ==> Finished(q, kinds))
    && (p.topic.Some? ==> forall q :: q in p.topic.value.questions ==> Finished(q, kinds))
    && (p.question.Some? ==> FromHeading(p.question.value, kinds))
  }

  lemma FlushedSound(t: ParsedTopic, question: Option<ParsedQuestion>, answer: string, kinds: seq<LineKind>)
    requires forall q :: q in t.questions ==> Finished(q, kinds)
    requires question.Some? ==> FromHeading(question.value, kinds)
    ensures forall q :: q in Flushed(t, question, answer).questions ==> Finished(q, kinds)
  {
  }

  lemma SoundGrows(p: Parser, kinds: seq<LineKind>, k: LineKind)
    requires Sound(p, kinds)
    ensures Sound(p, kinds + [k])
  {
    forall x | x in kinds ensures x in kinds + [k] {}
  }

  lemma StepSound(p: Parser, kinds: seq<LineKind>, k: LineKind)
    requires Sound(p, kinds) && k in kinds
    ensures Sound(Step(p, k), kinds)
  {
    if (k.TopicHeading? || k.QuestionHeading?) && p.topic.Some? {
      FlushedSound(p.topic.value, p.question, p.answer, kinds);
      var f := Flushed(p.topic.value, p.question, p.answer);
      assert forall t :: t in p.topics + [f] ==> t in p.topics || t == f;
    }
  }

  lemma FinishSound(p: Parser, kinds: seq<LineKind>)
    requires Sound(p, kinds)
    ensures forall t, q :: t in Finish(p) && q in t.questions ==> Finished(q, kinds)
  {
    if p.topic.Some? {
      FlushedSound(p.topic.value, p.question, p.answer, kinds);
      var f := Flushed(p.topic.value, p.question, p.answer);
      assert forall t :: t in p.topics + [f] ==> t in p.topics || t == f;
    }
  }

  lemma {:induction false} RunSound(kinds: seq<LineKind>)
    ensures Sound(Run(Start, kinds), kinds)
  {
    if kinds != [] {
      var front := kinds[..|kinds| - 1];
      var k := kinds[|kinds| - 1];
      RunSound(front);
      assert kinds == front + [k];
      SoundGrows(Run(Start, front), front, k);
      StepSound(Run(Start, front), kinds, k);
    }
  }

  /** Every parsed question's number and text come from one `### N.` line,
      its number fits an `i32`, and its answer is trimmed. */
  lemma QuestionsFromHeadings(content: string)
    ensures forall t, q {:trigger q in t.questions, t in Parse(content)} :: t in Parse(content) && q in t.questions ==>
      && QuestionHeading(q.questionNumber, q.question) in KindsOf(Lines(content))
      && 0 <= q.questionNumber <= I32Max
      && Trimmed(q.answer)
  {
    FinishedFromHeadings(Parse(content), KindsOf(Lines(content)));
  }

  /** The same, for the topics finished from any classified lines whose
      numbers fit an `i32`. */
  lemma {:induction false} FinishedFromHeadings(topics: seq<ParsedTopic>, kinds: seq<LineKind>)
    requires topics == Finish(Run(Start, kinds))
    requires forall k :: k in kinds && k.QuestionHeading? ==> 0 <= k.number <= I32Max
    ensures forall t, q {:trigger q in t.questions, t in topics} :: t in topics && q in t.questions ==>
      && QuestionHeading(q.questionNumber, q.question) in kinds
      && 0 <= q.questionNumber <= I32Max
      && Trimmed(q.answer)
  {
    RunSound(kinds);
    FinishSound(Run(Start, kinds), kinds);
    forall t, q | t in topics && q in t.questions
      ensures QuestionHeading(q.questionNumber, q.question) in kinds
      ensures 0 <= q.questionNumber <= I32Max && Trimmed(q.answer)
    {
      assert Finished(q, kinds);
      var h := QuestionHeading(q.questionNumber, q.question);
      assert h in kinds && h.QuestionHeading?;
    }
  }

  // ---- answers ----

  /** The lines that open nothing: unnumbered headings, separators and text. */
  predicate Plain(k: LineKind)
  {
    k.OtherHeading? || k.Separator? || k.Text?
  }

  /** The answer buffer built from plain lines: each text line and a line
      feed; separators and unnumbered headings add nothing. */
  function AnswerText(kinds: seq<LineKind>): string
  {
    if kinds == [] then []
    else
      var k := kinds[|kinds| - 1];
      AnswerText(kinds[..|kinds| - 1]) + (if k.Text? then k.line + "\n" else [])
  }

  lemma {:induction false} RunAppend(p: Parser, a: seq<LineKind>, b: seq<LineKind>)
    ensures Run(p, a + b) == Run(Run(p, a), b)
  {
    if b == [] {
      assert a + b == a;
    } else {
      assert (a + b)[..|a + b| - 1] == a + b[..|b| - 1];
      RunAppend(p, a, b[..|b| - 1]);
    }
  }

  lemma RunOne(p: Parser, k: LineKind)
    ensures Run(p, [k]) == Step(p, k)
  {
    assert [k][..0] == [];
  }

  /** In the answer section of an open question, plain lines only extend
      the answer buffer. */
  lemma {:induction false} AnswerAccumulates(p: Parser, kinds: seq<LineKind>)
    requires p.inAnswer && p.question.Some?
    requires forall k :: k in kinds ==> Plain(k)
    ensures Run(p, kinds) == p.(answer := p.answer + AnswerText(kinds))
  {
    if kinds != [] {
      var front := kinds[..|kinds| - 1];
      var k := kinds[|kinds| - 1];
      assert forall k :: k in front ==> k in kinds;
      AnswerAccumulates(p, front);
      var q := Run(p, front);
      assert Run(p, kinds) == Step(q, k);
      if k.Text? {
        assert Step(q, k) == q.(answer := q.answer + k.line + "\n");
        assert AnswerText(kinds) == AnswerText(front) + (k.line + "\n");
        assert p.answer + AnswerText(front) + k.line + "\n" == p.answer + AnswerText(kinds);
      } else {
        assert k in kinds;
        assert Step(q, k) == q;
        assert AnswerText(kinds) == AnswerText(front) + [];
      }
    }
  }

  /** Outside an answer section, plain lines change nothing. */
  lemma {:induction false} PlainIgnoredOutsideAnswer(p: Parser, kinds: seq<LineKind>)
    requires !(p.inAnswer && p.question.Some?)
    requires forall k :: k in kinds ==> Plain(k)
    ensures Run(p, kinds) == p
  {
    if kinds != [] {
      var front := kinds[..|kinds| - 1];
      assert forall k :: k in front ==> k in kinds;
      PlainIgnoredOutsideAnswer(p, front);
      var k := kinds[|kinds| - 1];
      assert k in kinds;
      assert Run(p, kinds) == Step(p, k);
    }
  }

  /** A question block: its heading files the open question, the lines
      before `**Answer:**` are dropped, the answer marker starts an empty
      buffer and the lines after it are the answer, trimmed when the
      question is finalized. */
  lemma QuestionBlock(p: Parser, n: int, text: string, before: seq<LineKind>, after: seq<LineKind>)
    requires forall k :: k in before ==> Plain(k)
    requires forall k :: k in after ==> Plain(k)
    ensures var r := Run(p, [QuestionHeading(n, text)] + before + [AnswerMarker] + after);
      && r.topics == p.topics
      && r.topic == (if p.topic.Some? then Some(Flushed(p.topic.value, p.question, p.answer)) else None)
      && r.question == Some(ParsedQuestion(n, text, ""))
      && r.answer == AnswerText(after) && r.inAnswer
      && FinalizeQuestion(r.question, r.answer) == Some(ParsedQuestion(n, text, Trim(AnswerText(after))))
  {
    var heading := [QuestionHeading(n, text)];
    var started := Step(p, QuestionHeading(n, text));
    RunOne(p, QuestionHeading(n, text));
    RunAppend(p, heading, before);
    PlainIgnoredOutsideAnswer(started, before);
    RunAppend(p, heading + before, [AnswerMarker]);
    RunOne(started, AnswerMarker);
    var marked := Step(started, AnswerMarker);
    RunAppend(p, heading + before + [AnswerMarker], after);
    AnswerAccumulates(marked, after);
    assert [] + AnswerText(after) == AnswerText(after);
  }

  // ---- a question before the first topic ----

  /** A question heading before any topic heading is kept open across the
      first topic heading and filed into that topic, with an empty answer. */
  lemma OrphanQuestionJoinsFirstTopic(n: int, text: string, name: string)
    ensures Finish(Run(Start, [QuestionHeading(n, text), TopicHeading(name)]))
         == [ParsedTopic(name, [ParsedQuestion(n, text, "")])]
  {
    var question := ParsedQuestion(n, text, "");
    RunOne(Start, QuestionHeading(n, text));
    var first := Step(Start, QuestionHeading(n, text));
    assert first == Parser([], None, Some(question), "", false);
    RunSnoc(Start, [QuestionHeading(n, text)], TopicHeading(name));
    assert [QuestionHeading(n, text)] + [TopicHeading(name)] == [QuestionHeading(n, text), TopicHeading(name)];
    var second := Step(first, TopicHeading(name));
    assert second == Parser([], Some(ParsedTopic(name, [])), Some(question), "", false);
    assert Trim("") == "";
    assert Flushed(ParsedTopic(name, []), Some(question), "") == ParsedTopic(name, [question]);
  }

  /** Before any topic, a second question heading replaces the first
      question, which is lost. */
  lemma OrphanQuestionReplaced(m: int, first: string, n: int, second: string, name: string)
    ensures Finish(Run(Start, [QuestionHeading(m, first), QuestionHeading(n, second), TopicHeading(name)]))
         == [ParsedTopic(name, [ParsedQuestion(n, second, "")])]
  {
    var question := ParsedQuestion(n, second, "");
    RunOne(Start, QuestionHeading(m, first));
    var p1 := Step(Start, QuestionHeading(m, first));
    RunSnoc(Start, [QuestionHeading(m, first)], QuestionHeading(n, second));
    var two := [QuestionHeading(m, first)] + [QuestionHeading(n, second)];
    var p2 := Step(p1, QuestionHeading(n, second));
    assert p2 == Parser([], None, Some(question), "", false);
    RunSnoc(Start, two, TopicHeading(name));
    assert two + [TopicHeading(name)] == [QuestionHeading(m, first), QuestionHeading(n, second), TopicHeading(name)];
    var p3 := Step(p2, TopicHeading(name));
    assert p3 == Parser([], Some(ParsedTopic(name, [])), Some(question), "", false);
    assert Trim("") == "";
    assert Flushed(ParsedTopic(name, []), Some(question), "") == ParsedTopic(name, [question]);
  }
}
