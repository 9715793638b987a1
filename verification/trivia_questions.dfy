/** Question generation for one textbook chapter: the retried request to the
    language model, the classification of what comes back, the chapter name
    derived from the PDF path, and the "any failure yields no questions" policy
    of the chapter processor. The model endpoint, the JSON decoder and the PDF
    text extractor are oracle inputs. */
module TriviaQuestions {
  import opened Results
  import opened Strings
  import opened Json
  import PosixPath

  // ----- the request with retries -----

  /** One block of the model's reply (`response.content[k]`). */
  datatype Block = TextBlock(text: string) | OtherBlock(typeName: string)

  datatype Response = Response(content: seq<Block>)

  /** What one call to the messages endpoint did: raised an exception (its text,
      and whether it is a `json.JSONDecodeError`), or returned. */
  datatype Attempt = Raised(error: string, decodeError: bool) | Returned(response: Response)

  /** The course of one request: the attempt that ended it, the backoff delays
      slept between attempts (in seconds), and how many calls were made. */
  datatype RetryRun = RetryRun(last: Attempt, waits: seq<nat>, calls: nat)

  const MaxRetries: nat := 3

  /** `2 ** k`. */
  function Pow2(k: nat): (r: nat)
    ensures r >= 1
  {
    if k == 0 then 1 else 2 * Pow2(k - 1)
  }

  /** The retry loop from attempt number `attempt` (0-based) on; `call(k)` is the
      outcome of the k-th call. A failure that is not the last permitted one is
      followed by a sleep of `2 ** attempt` seconds and the next attempt. */
  function RetryFrom(call: nat -> Attempt, attempt: nat): (run: RetryRun)
    requires attempt < MaxRetries
    ensures attempt < run.calls <= MaxRetries
    ensures run.last == call(run.calls - 1)
    ensures forall k :: attempt <= k < run.calls - 1 ==> call(k).Raised?
    ensures run.last.Returned? || run.calls == MaxRetries
    ensures |run.waits| == run.calls - 1 - attempt
    ensures forall k :: 0 <= k < |run.waits| ==> run.waits[k] == Pow2(attempt + k)
    decreases MaxRetries - attempt
  {
    match call(attempt)
    case Returned(_) => RetryRun(call(attempt), [], attempt + 1)
    case Raised(_, _) =>
      if attempt == MaxRetries - 1 then RetryRun(call(attempt), [], attempt + 1)
      else
        var rest := RetryFrom(call, attempt + 1);
        rest.(waits := [Pow2(attempt)] + rest.waits)
  }

  /** `_make_claude_request`: at most three calls; the first one that returns ends
      the loop with its response; the third failure is re-raised; the delays are a
      prefix of `[1, 2]`, one per failure that was followed by another attempt. */
  function MakeClaudeRequest(call: nat -> Attempt): (run: RetryRun)
    ensures 1 <= run.calls <= MaxRetries
    ensures run.last == call(run.calls - 1)
    ensures forall k :: 0 <= k < run.calls - 1 ==> call(k).Raised?
    ensures run.last.Raised? ==> run.calls == MaxRetries
    ensures run.waits == [1, 2][..run.calls - 1]
  {
    var run := RetryFrom(call, 0);
    assert run.waits == [1, 2][..run.calls - 1] by {
      if run.calls > 1 { assert run.waits[0] == Pow2(0); }
      if run.calls > 2 { assert run.waits[1] == Pow2(1); }
    }
    run
  }

  /** `f < 3` failures followed by a success: that success is the result, after
      exactly `f` waits and `f + 1` calls. */
  lemma SucceedsAfterFailures(call: nat -> Attempt, f: nat)
    requires f < MaxRetries
    requires forall k :: 0 <= k < f ==> call(k).Raised?
    requires call(f).Returned?
    ensures MakeClaudeRequest(call).last == call(f)
    ensures MakeClaudeRequest(call).calls == f + 1
    ensures |MakeClaudeRequest(call).waits| == f
  {
  }

  /** Three failures in a row: the third one is re-raised, after waits of 1 s and
      2 s, and no fourth call is made. */
  lemma ExhaustedRetriesReraise(call: nat -> Attempt)
    requires call(0).Raised? && call(1).Raised? && call(2).Raised?
    ensures MakeClaudeRequest(call) == RetryRun(call(2), [1, 2], 3)
  {
  }

  // ----- parsing the reply -----

  /** The two errors `generate_questions` raises. */
  datatype GenError = JsonParseError | GenerationError(detail: string)

  const ParseFailureMessage: string := "Failed to parse Claude's response as JSON"
  const GenerationPrefix: string := "Error generating questions: "

  /** The message of the raised exception. The two kinds are told apart by the
      prefix, and a generation error's message carries its detail unchanged. */
  function Message(e: GenError): (m: string)
    ensures e.JsonParseError? <==> !StartsWith(m, GenerationPrefix)
    ensures e.GenerationError? ==> m[|GenerationPrefix|..] == e.detail
  {
    match e
    case JsonParseError =>
      assert ParseFailureMessage[1] != GenerationPrefix[1];
      ParseFailureMessage
    case GenerationError(d) => GenerationPrefix + d
  }

  /** The two kinds of error can never be told apart wrongly by their messages. */
  lemma MessagesDistinct(d: string)
    ensures StartsWith(Message(GenerationError(d)), GenerationPrefix)
    ensures !StartsWith(Message(JsonParseError), GenerationPrefix)
  {
    assert Message(JsonParseError)[1] != GenerationPrefix[1];
  }

  /** `response.content[0].text`: the first block's text, `IndexError` for an
      empty reply, `AttributeError` for a first block that is not text. */
  function ResponseText(r: Response): (t: Result<string, PyError>)
    ensures t.Success? <==> |r.content| > 0 && r.content[0].TextBlock?
    ensures t.Success? ==> t.value == r.content[0].text
    ensures |r.content| == 0 ==> t.Failure? && t.error.IndexError?
    ensures |r.content| > 0 && r.content[0].OtherBlock? ==> t.Failure? && t.error.AttributeError?
  {
    if |r.content| == 0 then Failure(IndexError("list index out of range"))
    else match r.content[0]
      case TextBlock(t) => Success(t)
      case OtherBlock(n) => Failure(AttributeError("'" + n + "' object has no attribute 'text'"))
  }

  /** What `generate_questions` made of its request: the result it returned or the
      error it raised, and the request's course. */
  datatype Generation = Generation(result: Result<Value, GenError>, request: RetryRun)

  /** The key under which the model's reply holds the questions. */
  const QuestionsKey: string := "questions"

  /** What the body of `generate_questions` does with the request's final attempt.
      `decode(t)` is `json.loads(t)`, `None` standing for a `JSONDecodeError`.
      A `JSONDecodeError` is the parse error wherever in the `try` it was raised;
      every other exception is wrapped with its text; a successful reply gives
      its "questions" entry. */
  function Interpret(last: Attempt, decode: string -> Option<Value>): (r: Result<Value, GenError>)
    ensures r == Failure(JsonParseError) <==>
      || (last.Raised? && last.decodeError)
      || (last.Returned? && ResponseText(last.response).Success?
          && decode(ResponseText(last.response).value).None?)
    ensures r.Success? <==>
      (last.Returned? && ResponseText(last.response).Success?
       && decode(ResponseText(last.response).value).Some?
       && Subscript(decode(ResponseText(last.response).value).value, QuestionsKey).Success?)
    ensures r.Success? ==>
      r.value == Subscript(decode(ResponseText(last.response).value).value, QuestionsKey).value
    ensures r.Failure? && r.error.GenerationError? && last.Raised? ==> r.error.detail == last.error
  {
    match last
    case Raised(e, isDecodeError) => if isDecodeError then Failure(JsonParseError) else Failure(GenerationError(e))
    case Returned(resp) =>
      match ResponseText(resp)
      case Failure(err) => Failure(GenerationError(ErrorText(err)))
      case Success(text) =>
        match decode(text)
        case None => Failure(JsonParseError)
        case Some(data) =>
          match Subscript(data, QuestionsKey)
          case Failure(err) => Failure(GenerationError(ErrorText(err)))
          case Success(questions) => Success(questions)
  }

  /** `generate_questions`: decoding happens after the retry loop, so the request
      is exactly the retried request, whatever the decoder does. */
  function GenerateQuestions(call: nat -> Attempt, decode: string -> Option<Value>): (g: Generation)
    ensures g.request == MakeClaudeRequest(call)
    ensures g.result == Failure(JsonParseError) <==>
      || (g.request.last.Returned? && ResponseText(g.request.last.response).Success?
          && decode(ResponseText(g.request.last.response).value).None?)
      || (g.request.last.Raised? && g.request.last.decodeError)
    ensures g.result.Success? <==>
      (g.request.last.Returned? && ResponseText(g.request.last.response).Success?
       && decode(ResponseText(g.request.last.response).value).Some?
       && Subscript(decode(ResponseText(g.request.last.response).value).value, QuestionsKey).Success?)
    ensures g.result.Success? ==>
      g.result.value == Subscript(decode(ResponseText(g.request.last.response).value).value, QuestionsKey).value
    ensures g.request.last.Raised? && !g.request.last.decodeError ==>
      g.result == Failure(GenerationError(g.request.last.error))
  {
    var run := MakeClaudeRequest(call);
    Generation(Interpret(run.last, decode), run)
  }

  /** A reply that fails to decode is reported as the parse error at once: with a
      first call that returns such a reply, exactly one call is made and nothing is slept. */
  lemma ParseErrorNotRetried(call: nat -> Attempt, decode: string -> Option<Value>, t: string)
    requires call(0).Returned? && ResponseText(call(0).response) == Success(t)
    requires decode(t).None?
    ensures GenerateQuestions(call, decode) == Generation(Failure(JsonParseError), RetryRun(call(0), [], 1))
  {
  }

  /** Exhausted retries whose last failure is not a decoding error are wrapped as
      a generation error carrying that failure's text, never as the parse error. */
  lemma ExhaustedRetriesWrapped(call: nat -> Attempt, decode: string -> Option<Value>)
    requires call(0).Raised? && call(1).Raised? && call(2).Raised?
    requires !call(2).decodeError
    ensures GenerateQuestions(call, decode).result == Failure(GenerationError(call(2).error))
    ensures StartsWith(Message(GenerateQuestions(call, decode).result.error), GenerationPrefix)
  {
    ExhaustedRetriesReraise(call);
    MessagesDistinct(call(2).error);
  }

  /** Exhausted retries whose last failure is a `JSONDecodeError` (raised by the
      client itself) are reported as the parse error, like an undecodable reply. */
  lemma ExhaustedRetriesDecodeError(call: nat -> Attempt, decode: string -> Option<Value>)
    requires call(0).Raised? && call(1).Raised? && call(2).Raised?
    requires call(2).decodeError
    ensures GenerateQuestions(call, decode).result == Failure(JsonParseError)
    ensures Message(GenerateQuestions(call, decode).result.error) == ParseFailureMessage
  {
    ExhaustedRetriesReraise(call);
  }

  /** A decoded object without a "questions" key is a generation error naming the key. */
  lemma MissingQuestionsKey(call: nat -> Attempt, decode: string -> Option<Value>,
                            fields: seq<(string, Value)>)
    requires MakeClaudeRequest(call).last.Returned?
    requires var t := ResponseText(MakeClaudeRequest(call).last.response);
      t.Success? && decode(t.value) == Some(Obj(fields))
    requires Get(fields, "questions").None?
    ensures GenerateQuestions(call, decode).result == Failure(GenerationError("'questions'"))
  {
    InterpretMissingKey(MakeClaudeRequest(call).last, decode, fields);
    QuestionsKeyText();
  }

  lemma InterpretMissingKey(last: Attempt, decode: string -> Option<Value>, fields: seq<(string, Value)>)
    requires last.Returned?
    requires var t := ResponseText(last.response); t.Success? && decode(t.value) == Some(Obj(fields))
    requires Get(fields, QuestionsKey).None?
    ensures Interpret(last, decode) == Failure(GenerationError(ErrorText(KeyError(QuestionsKey))))
  {
    assert Subscript(Obj(fields), QuestionsKey) == Failure(KeyError(QuestionsKey));
  }

  /** `str(KeyError("questions"))` is the key in single quotes. */
  lemma QuestionsKeyText()
    ensures ErrorText(KeyError(QuestionsKey)) == "'questions'"
  {
    QuestionsKeyPlain();
    KeyErrorText(QuestionsKey);
    QuotedQuestions();
  }

  /** Kept apart so that the literal concatenation is evaluated in a small context. */
  lemma QuotedQuestions()
    ensures "'" + "questions" + "'" == "'questions'"
  {
  }

  lemma QuestionsKeyPlain()
    ensures forall i :: 0 <= i < |"questions"| ==> IsPlain("questions"[i])
  {
    var key := "questions";
    assert forall i :: 0 <= i < |key| ==> 'a' <= key[i] <= 'z';
  }

  // ----- the chapter name -----

  /** `basename(path).replace(".pdf", "").replace("_", " ")`: a chapter name never
      holds an underscore or a slash. */
  function ChapterName(path: string): (name: string)
    ensures '_' !in name
    ensures '/' !in name
  {
    var stem := ReplaceAll(PosixPath.Basename(path), ".pdf", "");
    ReplaceCharRemoves(stem, '_', ' ');
    ReplaceKeepsAbsent(PosixPath.Basename(path), ".pdf", "", '/');
    ReplaceKeepsAbsent(stem, "_", " ", '/');
    ReplaceAll(stem, "_", " ")
  }

  /** Appending ".pdf" to a name that does not contain it, then removing every
      ".pdf", gives the name back (".pdf" cannot overlap itself). */
  lemma {:induction false} RemovePdfSuffix(stem: string)
    requires !Occurs(stem, ".pdf")
    ensures ReplaceAll(stem + ".pdf", ".pdf", "") == stem
    decreases |stem|
  {
    var s := stem + ".pdf";
    if |stem| == 0 {
      assert s == ".pdf";
      assert s[4..] == "";
    } else {
      assert !StartsWith(s, ".pdf") by {
        if |stem| >= 4 {
          assert s[..4] == stem[..4];
        } else {
          assert s[|stem|] == '.';
        }
      }
      assert s[1..] == stem[1..] + ".pdf";
      RemovePdfSuffix(stem[1..]);
      assert [s[0]] + stem[1..] == stem;
    }
  }

  /** For `dir/stem.pdf`, the chapter name is the stem with each underscore turned
      into a space. */
  lemma ChapterNameOfPdf(dir: string, stem: string)
    requires '/' !in stem && !Occurs(stem, ".pdf")
    ensures ChapterName(dir + "/" + stem + ".pdf")
         == seq(|stem|, i requires 0 <= i < |stem| => if stem[i] == '_' then ' ' else stem[i])
  {
    var name := stem + ".pdf";
    assert '/' !in name by {
      assert forall i :: 0 <= i < |name| ==> name[i] == (if i < |stem| then stem[i] else ".pdf"[i - |stem|]);
    }
    assert dir + "/" + stem + ".pdf" == dir + "/" + name;
    PosixPath.BasenameOfJoin(dir, name);
    RemovePdfSuffix(stem);
    ReplaceCharIsMap(stem, '_', ' ');
  }

  /** A bare `stem.pdf`, with no folder, is named the same way: `basename` of a
      path without a slash is the path itself. */
  lemma ChapterNameOfBarePdf(stem: string)
    requires '/' !in stem && !Occurs(stem, ".pdf")
    ensures ChapterName(stem + ".pdf")
         == seq(|stem|, i requires 0 <= i < |stem| => if stem[i] == '_' then ' ' else stem[i])
  {
    var name := stem + ".pdf";
    assert '/' !in name by {
      assert forall i :: 0 <= i < |name| ==> name[i] == (if i < |stem| then stem[i] else ".pdf"[i - |stem|]);
    }
    var b := PosixPath.Basename(name);
    assert b == name;
    RemovePdfSuffix(stem);
    ReplaceCharIsMap(stem, '_', ' ');
  }

  /** The chapter processed by the script's entry point, "chapters/chapter_1.pdf",
      is named "chapter 1". The folder and stem are parameters fixed by the
      requires, so that the solver does not evaluate the whole chain on a literal. */
  lemma FirstChapterName(dir: string, stem: string)
    requires dir == "chapters" && stem == "chapter_1"
    ensures ChapterName(dir + "/" + stem + ".pdf") == "chapter 1"
  {
    assert '/' !in stem && !Occurs(stem, ".pdf") by {
      assert forall i :: 0 <= i < |stem| ==> stem[i] != '/' && stem[i] != '.';
      NoDotNoPdf(stem);
    }
    ChapterNameOfPdf(dir, stem);
    var m := seq(|stem|, i requires 0 <= i < |stem| => if stem[i] == '_' then ' ' else stem[i]);
    assert m == "chapter 1" by {
      assert |m| == 9;
      assert forall i :: 0 <= i < 9 ==> m[i] == "chapter 1"[i];
    }
  }

  /** A name without a dot cannot contain ".pdf". */
  lemma {:induction false} NoDotNoPdf(s: string)
    requires '.' !in s
    ensures !Occurs(s, ".pdf")
    decreases |s|
  {
    if |s| > 0 {
      assert s[..|s|][0] == s[0];
      NoDotNoPdf(s[1..]);
    }
  }

  // ----- processing one chapter -----

  const ChapterKey: string := "chapter"

  /** `q["chapter"] = name` applied to one question: a dict gains or updates
      "chapter" and keeps its keys in order; anything else is left as it is (the
      loop that applies this raises first, see `TagChapter`). */
  function WithChapter(q: Value, name: string): (r: Value)
    ensures !q.Obj? ==> r == q
    ensures q.Obj? ==>
      && r.Obj? && Get(r.fields, ChapterKey) == Some(Str(name))
      && |q.fields| <= |r.fields| <= |q.fields| + 1
      && forall i :: 0 <= i < |q.fields| ==> r.fields[i].0 == q.fields[i].0
  {
    match q
    case Obj(fields) => Obj(Put(fields, ChapterKey, Str(name)))
    case _ => q
  }

  /** Each question of a list, tagged, in order. */
  function TagAll(qs: seq<Value>, name: string): (r: seq<Value>)
    ensures |r| == |qs|
    ensures forall i :: 0 <= i < |qs| ==> r[i] == WithChapter(qs[i], name)
    decreases |qs|
  {
    if |qs| == 0 then [] else [WithChapter(qs[0], name)] + TagAll(qs[1..], name)
  }

  /** The tagging loop `for q in questions: q["chapter"] = name`, preceded by
      `len(questions)`. It raises (`None`) unless every element the loop visits is
      a dict; a list comes back with each question tagged in place; an empty dict
      or empty string, which the loop never enters, comes back unchanged. */
  function TagChapter(questions: Value, name: string): (r: Option<Value>)
    ensures r.Some? <==>
      (Iterate(questions).Success? &&
       forall i :: 0 <= i < |Iterate(questions).value| ==> Iterate(questions).value[i].Obj?)
    ensures r.Some? && questions.Arr? ==>
      r.value.Arr? && |r.value.items| == |questions.items| &&
      forall i :: 0 <= i < |questions.items| ==> r.value.items[i] == WithChapter(questions.items[i], name)
    ensures r.Some? && !questions.Arr? ==> r.value == questions
  {
    match Iterate(questions)
    case Failure(_) => None
    case Success(items) =>
      if exists i :: 0 <= i < |items| && !items[i].Obj? then None
      else match questions
        case Arr(qs) => Some(Arr(TagAll(qs, name)))
        case _ => Some(questions)
  }

  /** A tagged question carries the chapter name, keeps every other field, and
      keeps its fields in their original order. */
  lemma TaggedQuestion(fields: seq<(string, Value)>, name: string, key: string)
    ensures forall i :: 0 <= i < |fields| ==> WithChapter(Obj(fields), name).fields[i].0 == fields[i].0
    ensures Get(WithChapter(Obj(fields), name).fields, ChapterKey) == Some(Str(name))
    ensures key != ChapterKey ==> Get(WithChapter(Obj(fields), name).fields, key) == Get(fields, key)
  {
    if key != ChapterKey {
      PutKeepsOthers(fields, ChapterKey, Str(name), key);
    }
  }

  /** What `process_chapter` returned, and how many model calls it made. */
  datatype ChapterResult = ChapterResult(questions: Value, requests: nat)

  /** `process_chapter`. `extracted` is what the PDF extractor returned (`None`:
      it raised). Any failure is caught and yields the empty list. */
  function ProcessChapter(path: string, extracted: Option<string>,
                          call: nat -> Attempt, decode: string -> Option<Value>): (r: ChapterResult)
    ensures extracted.None? ==> r == ChapterResult(Arr([]), 0)
    ensures extracted.Some? && IsBlank(extracted.value) ==> r == ChapterResult(Arr([]), 0)
    ensures r.requests <= MaxRetries
    ensures extracted.Some? && !IsBlank(extracted.value) ==>
      r.requests == MakeClaudeRequest(call).calls &&
      var g := GenerateQuestions(call, decode);
      (g.result.Failure? ==> r.questions == Arr([])) &&
      (g.result.Success? && TagChapter(g.result.value, ChapterName(path)).None? ==> r.questions == Arr([])) &&
      (g.result.Success? && TagChapter(g.result.value, ChapterName(path)).Some? ==>
         r.questions == TagChapter(g.result.value, ChapterName(path)).value)
  {
    var name := ChapterName(path);
    match extracted
    case None => ChapterResult(Arr([]), 0)
    case Some(text) =>
      if Strip(text) == "" then ChapterResult(Arr([]), 0)
      else
        var g := GenerateQuestions(call, decode);
        match g.result
        case Failure(_) => ChapterResult(Arr([]), g.request.calls)
        case Success(qs) =>
          match TagChapter(qs, name)
          case None => ChapterResult(Arr([]), g.request.calls)
          case Some(tagged) => ChapterResult(tagged, g.request.calls)
  }

  /** When the model's reply decodes to a value whose "questions" entry is a list
      of dicts, the chapter processor returns a list of the same length and order
      in which question `i` is the reply's question `i` with "chapter" set to the
      chapter name. */
  lemma ProcessChapterTagsEveryQuestion(path: string, text: string, call: nat -> Attempt,
                                        decode: string -> Option<Value>, data: Value, items: seq<Value>)
    requires !IsBlank(text)
    requires MakeClaudeRequest(call).last.Returned?
    requires var reply := ResponseText(MakeClaudeRequest(call).last.response);
      reply.Success? && decode(reply.value) == Some(data)
    requires Subscript(data, QuestionsKey) == Success(Arr(items))
    requires forall i :: 0 <= i < |items| ==> items[i].Obj?
    ensures var r := ProcessChapter(path, Some(text), call, decode).questions;
      r.Arr? && |r.items| == |items| &&
      forall i :: 0 <= i < |items| ==>
        r.items[i].Obj? &&
        Get(r.items[i].fields, ChapterKey) == Some(Str(ChapterName(path))) &&
        r.items[i] == WithChapter(items[i], ChapterName(path))
  {
    assert GenerateQuestions(call, decode).result == Success(Arr(items));
    ProcessChapterOfList(path, text, call, decode, items);
    TagAllCarriesName(items, ChapterName(path));
  }

  /** The chapter processor returns the model's list with every question tagged. */
  lemma ProcessChapterOfList(path: string, text: string, call: nat -> Attempt,
                             decode: string -> Option<Value>, items: seq<Value>)
    requires !IsBlank(text)
    requires GenerateQuestions(call, decode).result == Success(Arr(items))
    requires forall i :: 0 <= i < |items| ==> items[i].Obj?
    ensures ProcessChapter(path, Some(text), call, decode).questions == Arr(TagAll(items, ChapterName(path)))
  {
    var name := ChapterName(path);
    TagChapterOfList(items, name);
    var g := GenerateQuestions(call, decode);
    assert g.result.Success? && TagChapter(g.result.value, name) == Some(Arr(TagAll(items, name)));
  }

  /** The tagging loop over a list of dicts tags each of them. */
  lemma TagChapterOfList(items: seq<Value>, name: string)
    requires forall i :: 0 <= i < |items| ==> items[i].Obj?
    ensures TagChapter(Arr(items), name) == Some(Arr(TagAll(items, name)))
  {
  }

  /** Tagging a list of dicts gives every one of them the chapter name. */
  lemma TagAllCarriesName(items: seq<Value>, name: string)
    requires forall i :: 0 <= i < |items| ==> items[i].Obj?
    ensures forall i :: 0 <= i < |items| ==>
      TagAll(items, name)[i].Obj? && Get(TagAll(items, name)[i].fields, ChapterKey) == Some(Str(name))
  {
    var r := TagAll(items, name);
    forall i | 0 <= i < |items|
      ensures r[i].Obj? && Get(r[i].fields, ChapterKey) == Some(Str(name))
    {
      TaggedQuestion(items[i].fields, name, ChapterKey);
    }
  }
}
