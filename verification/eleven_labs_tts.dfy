/** Narration of the question set: the speech script rendered for each question,
    the audio file each one is written to, and the collection of the per-question
    results. The speech-synthesis call and the file write are an oracle input. */
module ElevenLabsTts {
  import opened Results
  import opened Strings
  import opened Json
  import PosixPath

  // ----- the question record -----

  predicate HasField(v: Value, key: string) {
    v.Obj? && Get(v.fields, key).Some?
  }

  function Field(v: Value, key: string): Value
    requires HasField(v, key)
  {
    Get(v.fields, key).value
  }

  /** Usable as a dict key: lists and dicts are not. */
  predicate Hashable(v: Value) {
    !v.Arr? && !v.Obj?
  }

  /** The shape the script template needs: a dict with a hashable "difficulty",
      "question", "options" holding a dict with keys A to D, "correct_answer" and
      "explanation". */
  predicate IsQuestionRecord(q: Value) {
    && HasField(q, "difficulty") && Hashable(Field(q, "difficulty"))
    && HasField(q, "question")
    && HasField(q, "options")
    && HasField(Field(q, "options"), "A") && HasField(Field(q, "options"), "B")
    && HasField(Field(q, "options"), "C") && HasField(Field(q, "options"), "D")
    && HasField(q, "correct_answer")
    && HasField(q, "explanation")
  }

  // ----- the intro line -----

  const EasyIntro: string := "Here's a basic CSCS concept everyone should know."
  const MediumIntro: string := "Let's test your CSCS knowledge with this one."
  const HardIntro: string := "Here's a challenging CSCS question for you."
  const IntenseIntro: string := "This is an advanced CSCS concept. Are you ready?"
  const FallbackIntro: string := "Here's your CSCS trivia question."

  /** The `difficulty_intros` table. */
  const Intros: map<string, string> :=
    map["Easy" := EasyIntro, "Medium" := MediumIntro, "Hard" := HardIntro, "Intense" := IntenseIntro]

  /** `difficulty_intros.get(difficulty, fallback)`; an unhashable difficulty raises. */
  function IntroFor(difficulty: Value): (r: Result<string, PyError>)
    ensures r.Failure? <==> !Hashable(difficulty)
    ensures r.Success? ==> r.value in Intros.Values || r.value == FallbackIntro
    ensures r.Success? && difficulty.Str? && difficulty.s in Intros ==> r.value == Intros[difficulty.s]
    ensures r.Success? && !(difficulty.Str? && difficulty.s in Intros) ==> r.value == FallbackIntro
  {
    match difficulty
    case Arr(_) => Failure(TypeError("unhashable type: 'list'"))
    case Obj(_) => Failure(TypeError("unhashable type: 'dict'"))
    case Str(s) => Success(if s in Intros then Intros[s] else FallbackIntro)
    case _ => Success(FallbackIntro)
  }

  /** The five intro sentences are pairwise different, so the intro a listener
      hears tells the four named difficulties apart from each other and from any
      other difficulty. */
  lemma IntroIdentifiesDifficulty(a: Value, b: Value)
    requires a.Str? && a.s in Intros
    requires IntroFor(b).Success? && IntroFor(a) == IntroFor(b)
    ensures b == a
  {
    assert |EasyIntro| == 49 && |MediumIntro| == 45 && |HardIntro| == 43;
    assert |IntenseIntro| == 48 && |FallbackIntro| == 33;
  }

  // ----- the speech script -----

  /** A line break followed by the template's eight-space indentation. */
  const Gap: string := "\n        "
  const HalfSecondBreak: string := "<break time=\"500ms\"/>"
  const FiveSecondBreak: string := "<break time=\"5s\"/>"
  const TimesUp: string := "Time's up!"
  const AnswerLead: string := "The correct answer is "

  /** The text between the intro and the question. */
  const QuestionLead: string := Gap + Gap + HalfSecondBreak + Gap
  /** The text between the last option and the explanation's first word. */
  const ExplanationLead: string :=
    Gap + Gap + HalfSecondBreak + Gap + "Here's why this is correct:" + Gap + "<break time=\"300ms\"/>" + Gap
  /** The pause between two options. */
  const OptionBreak: string := Gap + "<break time=\"400ms\"/>" + Gap

  /** The four options, each on its own line behind its letter. */
  function OptionsParts(a: string, b: string, c: string, d: string): seq<string> {
    [ Gap + Gap + "<break time=\"800ms\"/>" + Gap + "Let's look at your options:" + Gap + HalfSecondBreak + Gap + Gap,
      "A) " + a, OptionBreak, "B) " + b, OptionBreak, "C) " + c, OptionBreak, "D) " + d ]
  }

  /** The five-second pause, "Time's up!" and the correct answer. */
  function AnnouncementParts(answer: string): seq<string> {
    [ Gap + Gap, FiveSecondBreak, Gap, TimesUp, Gap + HalfSecondBreak + Gap + Gap, AnswerLead + answer + "." ]
  }

  function OptionsText(a: string, b: string, c: string, d: string): string {
    Concat(OptionsParts(a, b, c, d))
  }

  function AnnouncementText(answer: string): string {
    Concat(AnnouncementParts(answer))
  }

  /** The template of `format_tts_text`, cut into the interpolated values and the
      literal text between them. */
  function ScriptParts(intro: string, question: string, a: string, b: string, c: string,
                       d: string, answer: string, explanation: string): seq<string>
  {
    [ intro, QuestionLead, question, OptionsText(a, b, c, d), AnnouncementText(answer),
      ExplanationLead, explanation ]
  }

  /** The rendered template: it opens with the intro and closes with the
      explanation (`ScriptLayout` places the pieces in between). */
  function Script(intro: string, question: string, a: string, b: string, c: string,
                  d: string, answer: string, explanation: string): (r: string)
    ensures StartsWith(r, intro) && EndsWith(r, explanation)
  {
    var parts := ScriptParts(intro, question, a, b, c, d, answer, explanation);
    ConcatAppend(parts, 6);
    assert Concat(parts[6..]) == explanation by {
      assert parts[6..] == [explanation];
      assert Concat(parts[6..]) == explanation + Concat([]);
    }
    assert Concat(parts) == intro + Concat(parts[1..]);
    Concat(parts)
  }

  /** The offsets at which the parts start inside their concatenation, with the
      total length appended: each part sits between its offset and the next. */
  lemma Slots(parts: seq<string>) returns (o: seq<nat>)
    ensures |o| == |parts| + 1 && o[0] == 0 && o[|parts|] == |Concat(parts)|
    ensures forall k :: 0 <= k < |parts| ==> o[k] + |parts[k]| == o[k + 1]
    ensures forall k :: 0 <= k <= |parts| ==> o[k] <= |Concat(parts)|
    ensures forall k :: 0 <= k < |parts| ==> Concat(parts)[o[k]..o[k + 1]] == parts[k]
  {
    o := seq(|parts| + 1, k requires 0 <= k <= |parts| => Offset(parts, k));
    assert parts[..0] == [] && parts[..|parts|] == parts;
    forall k {:trigger o[k]} | 0 <= k < |parts|
      ensures o[k] + |parts[k]| == o[k + 1]
      ensures Offset(parts, k + 1) <= |Concat(parts)|
      ensures o[k] <= |Concat(parts)|
      ensures Concat(parts)[o[k]..o[k + 1]] == parts[k]
    {
      assert o[k] == Offset(parts, k) && o[k + 1] == Offset(parts, k + 1);
      PartAt(parts, k);
    }
  }


  /** Where each option line starts inside the options block; each comes after
      the one before. */
  lemma OptionsLayout(a: string, b: string, c: string, d: string)
    returns (pA: nat, pB: nat, pC: nat, pD: nat)
    ensures var r := OptionsText(a, b, c, d);
      && 0 < pA && pA + |"A) " + a| < pB && pB + |"B) " + b| < pC && pC + |"C) " + c| < pD
      && pD + |"D) " + d| == |r|
      && r[pA..pA + |"A) " + a|] == "A) " + a
      && r[pB..pB + |"B) " + b|] == "B) " + b
      && r[pC..pC + |"C) " + c|] == "C) " + c
      && r[pD..pD + |"D) " + d|] == "D) " + d
  {
    var o := Slots(OptionsParts(a, b, c, d));
    pA, pB, pC, pD := o[1], o[3], o[5], o[7];
    assert o[2] < o[3] && o[4] < o[5] && o[6] < o[7];
  }


  /** Where the five-second break, "Time's up!" and the answer sit inside the
      announcement block, in that order. */
  lemma AnnouncementLayout(answer: string) returns (pBreak: nat, pTimesUp: nat, pAnswer: nat)
    ensures var r := AnnouncementText(answer);
      && 0 < pBreak && pBreak + |FiveSecondBreak| < pTimesUp && pTimesUp + |TimesUp| < pAnswer
      && pAnswer + |AnswerLead + answer + "."| == |r|
      && r[pBreak..pBreak + |FiveSecondBreak|] == FiveSecondBreak
      && r[pTimesUp..pTimesUp + |TimesUp|] == TimesUp
      && r[pAnswer..pAnswer + |AnswerLead + answer + "."|] == AnswerLead + answer + "."
  {
    var o := Slots(AnnouncementParts(answer));
    pBreak, pTimesUp, pAnswer := o[1], o[3], o[5];
    assert o[2] < o[3] && o[4] < o[5];
  }


  /** The rendered script opens with the intro and closes with the explanation;
      in between come the question, the options block and the announcement of the
      answer, each at the position returned, each position after the previous one
      (`OptionsLayout` and `AnnouncementLayout` place the pieces inside the blocks). */
  lemma ScriptLayout(intro: string, question: string, a: string, b: string, c: string,
                     d: string, answer: string, explanation: string)
    returns (pQuestion: nat, pOptions: nat, pAnnouncement: nat, pExplanation: nat)
    ensures var r := Script(intro, question, a, b, c, d, answer, explanation);
      var options, announcement := OptionsText(a, b, c, d), AnnouncementText(answer);
      && |intro| < pQuestion
      && pOptions == pQuestion + |question|
      && pAnnouncement == pOptions + |options|
      && pAnnouncement + |announcement| < pExplanation
      && pExplanation + |explanation| == |r|
      && StartsWith(r, intro)
      && r[pQuestion..pOptions] == question
      && r[pOptions..pAnnouncement] == options
      && r[pAnnouncement..pAnnouncement + |announcement|] == announcement
      && r[pExplanation..] == explanation
  {
    var parts := ScriptParts(intro, question, a, b, c, d, answer, explanation);
    var r := Concat(parts);
    var o := Slots(parts);
    pQuestion, pOptions, pAnnouncement, pExplanation := o[2], o[3], o[4], o[6];
    assert o[1] == |intro| && |QuestionLead| > 0 && |ExplanationLead| > 0;
    assert r[o[0]..o[1]] == intro;
    assert r[o[6]..o[7]] == explanation && o[7] == |r|;
    assert r[o[4]..o[5]] == parts[4] == AnnouncementText(answer);
    assert o[5] + |parts[5]| == o[6];
  }


  /** `format_tts_text`: the script for one question. Looking up a missing key
      raises `KeyError`, as does an unhashable difficulty (`TypeError`). */
  function FormatTtsText(q: Value): (r: Result<string, PyError>)
    ensures r.Success? <==> IsQuestionRecord(q)
    ensures r.Success? ==>
      var opts := Field(q, "options");
      r.value == Script(IntroFor(Field(q, "difficulty")).value, Show(Field(q, "question")),
                        Show(Field(opts, "A")), Show(Field(opts, "B")), Show(Field(opts, "C")),
                        Show(Field(opts, "D")), Show(Field(q, "correct_answer")),
                        Show(Field(q, "explanation")))
    ensures q.Obj? && !HasField(q, "difficulty") ==> r == Failure(KeyError("difficulty"))
  {
    var difficulty :- Subscript(q, "difficulty");
    var intro :- IntroFor(difficulty);
    var question :- Subscript(q, "question");
    var options :- Subscript(q, "options");
    var a :- Subscript(options, "A");
    var b :- Subscript(options, "B");
    var c :- Subscript(options, "C");
    var d :- Subscript(options, "D");
    var answer :- Subscript(q, "correct_answer");
    var explanation :- Subscript(q, "explanation");
    Success(Script(intro, Show(question), Show(a), Show(b), Show(c), Show(d),
                   Show(answer), Show(explanation)))
  }

  // ----- one question's audio file -----

  const AudioNamePrefix: string := "Question "
  const AudioNameSeparator: string := " - "
  const AudioExtension: string := ".mp3"

  /** `f"Question {index} - {difficulty}.mp3"`. */
  function AudioFileName(index: nat, difficulty: string): string {
    AudioNamePrefix + NatToString(index) + AudioNameSeparator + difficulty + AudioExtension
  }

  /** The file name opens with the number and closes with the difficulty and the
      ".mp3" extension; it is relative, so joining never drops the folder. */
  lemma AudioFileNameLayout(index: nat, difficulty: string)
    ensures var name := AudioFileName(index, difficulty);
      && StartsWith(name, AudioNamePrefix + NatToString(index) + AudioNameSeparator)
      && EndsWith(name, difficulty + AudioExtension)
      && EndsWith(name, AudioExtension)
      && !StartsWith(name, "/")
  {
    var name := AudioFileName(index, difficulty);
    var head := AudioNamePrefix + NatToString(index) + AudioNameSeparator;
    assert name == head + (difficulty + AudioExtension);
    assert name[..|head|] == head;
    assert name[0] == 'Q';
  }

  const DefaultOutputFolder: string := "audio_output"

  /** `os.path.join(output_folder, safe_filename)`: the file name under the folder,
      which it never replaces, since the name is relative. */
  function AudioPath(folder: string, index: nat, difficulty: string): (p: string)
    ensures p == PosixPath.Lead(folder) + AudioFileName(index, difficulty)
    ensures EndsWith(p, AudioExtension)
  {
    var name := AudioFileName(index, difficulty);
    AudioFileNameLayout(index, difficulty);
    var p := PosixPath.Join(folder, name);
    SuffixOfSuffix(p, name, AudioExtension);
    p
  }

  /** Different (index, difficulty) pairs are written to different files in the
      same folder, so concurrent tasks never share an output path; and both are
      recoverable from the path. */
  lemma AudioPathsDistinct(folder: string, i: nat, j: nat, d: string, e: string)
    requires AudioPath(folder, i, d) == AudioPath(folder, j, e)
    ensures i == j && d == e
  {
    var m, n := AudioFileName(i, d), AudioFileName(j, e);
    assert m[0] == AudioNamePrefix[0] == 'Q';
    assert n[0] == AudioNamePrefix[0];
    PosixPath.JoinInjective(folder, m, n);
    assert AudioNameSeparator[0] == ' ';
    NumberedTextInjective(AudioNamePrefix, AudioNameSeparator, AudioExtension, i, j, d, e);
  }

  /** The example file name: question 3 of difficulty "Hard" in the default folder. */
  lemma ThirdHardQuestionPath(folder: string, difficulty: string)
    requires folder == DefaultOutputFolder && difficulty == "Hard"
    ensures AudioPath(folder, 3, difficulty) == "audio_output/Question 3 - Hard.mp3"
  {
    assert NatToString(3) == "3";
    assert PosixPath.Lead(folder) == "audio_output/" by { assert folder[|folder| - 1] == 't'; }
  }

  /** The difficulty as the file name shows it (`f"{difficulty}"`); the empty
      string for a question without one, which never reaches the file name. */
  function DifficultyText(q: Value): string {
    if HasField(q, "difficulty") then Show(Field(q, "difficulty")) else ""
  }

  /** `generate_audio_for_question`. The script is formatted before the `try`, so
      a malformed question raises whatever the synthesis would have done; once
      formatted, a failed synthesis or write (`synthesized` false) yields `None`. */
  function GenerateAudio(q: Value, index: nat, folder: string, synthesized: bool): (r: Result<Option<string>, PyError>)
    ensures r.Failure? <==> !IsQuestionRecord(q)
    ensures r.Failure? ==> r == Failure(FormatTtsText(q).error)
    ensures r.Success? ==>
      r.value == (if synthesized then Some(AudioPath(folder, index, DifficultyText(q))) else None)
  {
    var text :- FormatTtsText(q);
    if synthesized then Success(Some(AudioPath(folder, index, DifficultyText(q))))
    else Success(None)
  }

  // ----- all questions -----

  /** The queueing loop reads `question['difficulty']` of every question before
      any task runs; the first failing read raises. */
  function Queue(questions: seq<Value>): (r: Result<(), PyError>)
    ensures r.Success? <==> forall i :: 0 <= i < |questions| ==> HasField(questions[i], "difficulty")
    decreases |questions|
  {
    if |questions| == 0 then Success(())
    else match Subscript(questions[0], "difficulty")
      case Failure(e) => Failure(e)
      case Success(_) =>
        var rest := Queue(questions[1..]);
        assert forall i :: 1 <= i < |questions| ==> questions[i] == questions[1..][i - 1];
        rest
  }

  /** The audio path of question `i` (0-based): the file numbered `i + 1`, with the
      question's difficulty, under the folder; never empty. */
  function PathOf(questions: seq<Value>, folder: string, i: nat): (p: string)
    requires i < |questions|
    ensures p == PosixPath.Lead(folder) + AudioFileName(i + 1, DifficultyText(questions[i]))
    ensures p != ""
  {
    AudioPath(folder, i + 1, DifficultyText(questions[i]))
  }

  /** The paths of all questions, in input order. */
  function AllPaths(questions: seq<Value>, folder: string): seq<string> {
    seq(|questions|, i requires 0 <= i < |questions| => PathOf(questions, folder, i))
  }

  /** What the task of question `i` (0-based) returns once its script is formatted. */
  function Outcome(questions: seq<Value>, folder: string, synthesized: nat -> bool, i: nat): Option<string>
    requires i < |questions|
  {
    if synthesized(i + 1) then Some(PathOf(questions, folder, i)) else None
  }

  /** Every question's outcome, in input order. */
  function Outcomes(questions: seq<Value>, folder: string, synthesized: nat -> bool): seq<Option<string>> {
    seq(|questions|, i requires 0 <= i < |questions| => Outcome(questions, folder, synthesized, i))
  }

  /** The tasks `process_questions` hands to `asyncio.gather`, one per question,
      in input order: task `i` (0-based) raises exactly when question `i` is
      malformed, with that question's formatting error, and otherwise returns the
      outcome of the file numbered `i + 1`. */
  function Tasks(questions: seq<Value>, folder: string, synthesized: nat -> bool)
    : (tasks: seq<Result<Option<string>, PyError>>)
    ensures |tasks| == |questions|
    ensures forall i :: 0 <= i < |questions| ==> (tasks[i].Failure? <==> !IsQuestionRecord(questions[i]))
    ensures forall i :: 0 <= i < |questions| && !IsQuestionRecord(questions[i]) ==>
      tasks[i] == Failure(FormatTtsText(questions[i]).error)
    ensures forall i :: 0 <= i < |questions| && IsQuestionRecord(questions[i]) ==>
      tasks[i] == Success(Outcome(questions, folder, synthesized, i))
  {
    seq(|questions|, i requires 0 <= i < |questions| => GenerateAudio(questions[i], i + 1, folder, synthesized(i + 1)))
  }

  /** `asyncio.gather` over started tasks: their results in input order, or the
      exception of the first task (in input order) that raised. Each task formats
      its script synchronously when it starts, before its first suspension, and
      the tasks start in input order. */
  function Gather(tasks: seq<Result<Option<string>, PyError>>): (r: Result<seq<Option<string>>, PyError>)
    ensures r.Failure? <==> exists k :: 0 <= k < |tasks| && tasks[k].Failure?
    ensures r.Success? ==> |r.value| == |tasks| && forall k :: 0 <= k < |tasks| ==> r.value[k] == tasks[k].value
    ensures r.Failure? ==>
      exists k :: 0 <= k < |tasks| && tasks[k] == Failure(r.error) && (forall j :: 0 <= j < k ==> tasks[j].Success?)
    decreases |tasks|
  {
    if |tasks| == 0 then Success([])
    else
      var first :- tasks[0];
      var rest := Gather(tasks[1..]);
      assert forall k :: 1 <= k < |tasks| ==> tasks[k] == tasks[1..][k - 1];
      if rest.Failure? then
        var k :| 0 <= k < |tasks| - 1 && tasks[1..][k] == Failure(rest.error)
          && (forall j :: 0 <= j < k ==> tasks[1..][j].Success?);
        assert tasks[k + 1] == Failure(rest.error);
        Failure(rest.error)
      else Success([first] + rest.value)
  }

  /** `[f for f in audio_files if f]`: the truthy results, in order. */
  function Successes(results: seq<Option<string>>): (r: seq<string>)
    ensures |r| <= |results|
    decreases |results|
  {
    if |results| == 0 then []
    else
      var rest := Successes(results[1..]);
      match results[0]
      case Some(p) => if p != "" then [p] + rest else rest
      case None => rest
  }

  /** The kept paths are exactly the non-empty ones among the results. */
  lemma {:induction false} SuccessesMembers(results: seq<Option<string>>, p: string)
    ensures p in Successes(results) <==> p != "" && Some(p) in results
    decreases |results|
  {
    if |results| > 0 {
      SuccessesMembers(results[1..], p);
      assert Some(p) in results <==> Some(p) == results[0] || Some(p) in results[1..];
    }
  }

  lemma {:induction false} SuccessesAppend(a: seq<Option<string>>, b: seq<Option<string>>)
    ensures Successes(a + b) == Successes(a) + Successes(b)
    decreases |a|
  {
    if |a| > 0 {
      assert (a + b)[0] == a[0];
      assert (a + b)[1..] == a[1..] + b;
      SuccessesAppend(a[1..], b);
    } else {
      assert a + b == b;
    }
  }

  /** With no failure at all, every result is kept, in order. */
  lemma {:induction false} SuccessesAllPresent(results: seq<Option<string>>, paths: seq<string>)
    requires |results| == |paths|
    requires forall i :: 0 <= i < |results| ==> results[i] == Some(paths[i]) && paths[i] != ""
    ensures Successes(results) == paths
    decreases |results|
  {
    if |results| > 0 {
      SuccessesAllPresent(results[1..], paths[1..]);
      assert paths == [paths[0]] + paths[1..];
    }
  }

  /** A missing result between two stretches contributes nothing. */
  lemma SuccessesGap(before: seq<Option<string>>, after: seq<Option<string>>)
    ensures Successes(before + [None] + after) == Successes(before) + Successes(after)
  {
    SuccessesAppend(before + [None], after);
    SuccessesAppend(before, [None]);
    assert Successes([None]) == [];
  }

  /** Dropping the one missing result of an otherwise complete list. */
  lemma SuccessesSkipOne(results: seq<Option<string>>, all: seq<string>, k: nat)
    requires |results| == |all| && k < |results|
    requires forall i :: 0 <= i < |all| ==> all[i] != ""
    requires forall i :: 0 <= i < |results| ==> results[i] == (if i == k then None else Some(all[i]))
    ensures Successes(results) == all[..k] + all[k + 1..]
  {
    var before, after := results[..k], results[k + 1..];
    assert results == before + [None] + after;
    SuccessesGap(before, after);
    assert forall i :: 0 <= i < k ==> before[i] == Some(all[..k][i]) && all[..k][i] != "";
    SuccessesAllPresent(before, all[..k]);
    assert forall i :: 0 <= i < |after| ==> after[i] == results[k + 1 + i] && all[k + 1..][i] == all[k + 1 + i];
    SuccessesAllPresent(after, all[k + 1..]);
  }

  /** `process_questions`: queue every question, gather the tasks, drop the failed ones. */
  function ProcessQuestions(questions: seq<Value>, folder: string, synthesized: nat -> bool)
    : (r: Result<seq<string>, PyError>)
    ensures r.Failure? <==> exists k :: 0 <= k < |questions| && !IsQuestionRecord(questions[k])
    ensures r.Success? ==> |r.value| <= |questions|
  {
    var _ :- Queue(questions);
    var results :- Gather(Tasks(questions, folder, synthesized));
    Success(Successes(results))
  }

  /** A successful run returns the kept results of the gathered tasks. */
  lemma ProcessedResults(questions: seq<Value>, folder: string, synthesized: nat -> bool)
    requires ProcessQuestions(questions, folder, synthesized).Success?
    ensures Gather(Tasks(questions, folder, synthesized)).Success?
    ensures ProcessQuestions(questions, folder, synthesized)
         == Success(Successes(Gather(Tasks(questions, folder, synthesized)).value))
  {
  }

  /** With every question well formed, gathering succeeds with each question's
      outcome in its place. */
  lemma GatheredOutcomes(questions: seq<Value>, folder: string, synthesized: nat -> bool)
    requires forall i :: 0 <= i < |questions| ==> IsQuestionRecord(questions[i])
    ensures Gather(Tasks(questions, folder, synthesized)) == Success(Outcomes(questions, folder, synthesized))
  {
    var tasks := Tasks(questions, folder, synthesized);
    var outcomes := Outcomes(questions, folder, synthesized);
    var r := Gather(tasks);
    assert r.Success?;
    assert r.value == outcomes by {
      forall k | 0 <= k < |tasks|
        ensures r.value[k] == outcomes[k]
      {
        assert tasks[k] == Success(Outcome(questions, folder, synthesized, k));
      }
    }
  }

  /** A path is returned exactly when it is the file of a question whose synthesis
      succeeded. */
  lemma ProcessedPaths(questions: seq<Value>, folder: string, synthesized: nat -> bool, p: string)
    requires ProcessQuestions(questions, folder, synthesized).Success?
    ensures p in ProcessQuestions(questions, folder, synthesized).value <==>
      exists i :: 0 <= i < |questions| && synthesized(i + 1) && p == PathOf(questions, folder, i)
  {
    ProcessedResults(questions, folder, synthesized);
    GatheredOutcomes(questions, folder, synthesized);
    OutcomePaths(questions, folder, synthesized, p);
  }

  /** Filtering the per-question outcomes keeps exactly the files of the questions
      whose synthesis succeeded. */
  lemma OutcomePaths(questions: seq<Value>, folder: string, synthesized: nat -> bool, p: string)
    ensures p in Successes(Outcomes(questions, folder, synthesized)) <==>
      exists i :: 0 <= i < |questions| && synthesized(i + 1) && p == PathOf(questions, folder, i)
  {
    var results := Outcomes(questions, folder, synthesized);
    SuccessesMembers(results, p);
    if p in Successes(results) {
      var i :| 0 <= i < |results| && results[i] == Some(p);
      assert results[i] == Outcome(questions, folder, synthesized, i);
    }
    if exists i :: 0 <= i < |questions| && synthesized(i + 1) && p == PathOf(questions, folder, i) {
      var i :| 0 <= i < |questions| && synthesized(i + 1) && p == PathOf(questions, folder, i);
      assert results[i] == Outcome(questions, folder, synthesized, i);
    }
  }


  /** When every synthesis succeeds, the result lists every question's file, numbered
      1 to N in input order. */
  lemma AllSynthesized(questions: seq<Value>, folder: string, synthesized: nat -> bool)
    requires forall i :: 0 <= i < |questions| ==> IsQuestionRecord(questions[i])
    requires forall n :: 1 <= n <= |questions| ==> synthesized(n)
    ensures ProcessQuestions(questions, folder, synthesized) == Success(AllPaths(questions, folder))
  {
    ProcessedResults(questions, folder, synthesized);
    GatheredOutcomes(questions, folder, synthesized);
    var results := Outcomes(questions, folder, synthesized);
    forall i | 0 <= i < |results|
      ensures results[i] == Some(PathOf(questions, folder, i))
    {
      assert synthesized(i + 1);
      assert results[i] == Outcome(questions, folder, synthesized, i);
    }
    SuccessesAllPresent(results, AllPaths(questions, folder));
  }

  /** When only question `k` (0-based) fails to synthesize, its file alone is
      missing: the other N - 1 are returned, in order. */
  lemma OneSynthesisFails(questions: seq<Value>, folder: string, synthesized: nat -> bool, k: nat)
    requires forall i :: 0 <= i < |questions| ==> IsQuestionRecord(questions[i])
    requires k < |questions| && !synthesized(k + 1)
    requires forall n :: 1 <= n <= |questions| && n != k + 1 ==> synthesized(n)
    ensures var all := AllPaths(questions, folder);
      ProcessQuestions(questions, folder, synthesized) == Success(all[..k] + all[k + 1..])
  {
    ProcessedResults(questions, folder, synthesized);
    GatheredOutcomes(questions, folder, synthesized);
    OutcomesSkipOne(questions, folder, synthesized, k);
  }

  /** The outcomes of a run in which only question `k` failed to synthesize keep
      every path but that question's. */
  lemma OutcomesSkipOne(questions: seq<Value>, folder: string, synthesized: nat -> bool, k: nat)
    requires k < |questions| && !synthesized(k + 1)
    requires forall n :: 1 <= n <= |questions| && n != k + 1 ==> synthesized(n)
    ensures var all := AllPaths(questions, folder);
      Successes(Outcomes(questions, folder, synthesized)) == all[..k] + all[k + 1..]
  {
    var results := Outcomes(questions, folder, synthesized);
    var all := AllPaths(questions, folder);
    forall i | 0 <= i < |results|
      ensures all[i] != ""
      ensures results[i] == (if i == k then None else Some(all[i]))
    {
      assert all[i] == PathOf(questions, folder, i);
      assert synthesized(i + 1) <==> i != k;
    }
    SuccessesSkipOne(results, all, k);
  }
}
