# cscs-quiz-generator, modelled in Dafny

The quiz generator turns textbook chapters into a narrated quiz video in three
stages:

- `trivia_questions.py` asks a language model for multiple-choice questions about
  one chapter and tags each question with the chapter's name;
- `eleven_labs_tts.py` renders a speech script per question and writes one audio
  file per question;
- `process_video.py` merges the audio files through an ffmpeg concat manifest and
  lays two captions per question over a background video.

This project models the deterministic core of those three files as pure Dafny
functions and proves what they promise. Every outside service becomes an input:

- the language-model endpoint is `call: nat -> Attempt` (what the k-th call did);
- `json.loads` is `decode: string -> Option<Value>` (`None` is a decoding error);
- the PDF extractor is the `Option<string>` it produced;
- speech synthesis and the file write are `synthesized: nat -> bool`, indexed by
  question number;
- the download, the folder listing, ffmpeg, ffprobe, the questions file and
  moviepy are the `Tools` record of `ProcessVideo`.

Modules:

- `Results`: `Option` and `Result`.
- `Strings`: the `str` operations used (`strip`, `replace`, `join`, `str(n)`),
  and a one-character `split` that reads a join back.
- `PosixPath`: `os.path.join` and `basename`.
- `Json`: decoded values with Python's dict lookup, assignment, subscripting,
  iteration, `str()` and `repr()`.
- `TriviaQuestions`, `ElevenLabsTts` and `ProcessVideo`: one module per source
  file.

Two facts about the code shape the model of `process_questions`:

- `asyncio.gather` returns the per-question results in the order the tasks were
  passed, whatever order they finish in;
- the error `gather` propagates is that of the first malformed question in input
  order, because `format_tts_text` runs synchronously at the start of each task.

A caption records what its text is made from (`ProcessVideo.CaptionText`: the
question and its position, or the options dict); `ProcessVideo.Rendered` gives
the exact string the f-strings of process_video.py:98-99 build.

## Model

| member | source | states |
|---|---|---|
| TriviaQuestions.RetryFrom | trivia_questions.py:73-86 | From attempt `a` on: every call before the last raised, the last call returned or was the third, and the waits are `2**a, 2**(a+1), …`, one per failure followed by another attempt |
| TriviaQuestions.MakeClaudeRequest | trivia_questions.py:72-86 | At most three calls; the first call that returns ends the loop with its response; a raised final attempt means three calls were made; the waits are a prefix of `[1, 2]` |
| TriviaQuestions.SucceedsAfterFailures | trivia_questions.py:73-86 | `f < 3` failures followed by a success return that success after exactly `f` waits and `f + 1` calls |
| TriviaQuestions.ExhaustedRetriesReraise | trivia_questions.py:84-86 | Three failures re-raise the third, after waits of 1 s and 2 s, with no fourth call |
| TriviaQuestions.Message | trivia_questions.py:65-68 | The raised message starts with "Error generating questions: " exactly when the error is not the JSON parse failure, and a wrapped error's text follows that prefix unchanged |
| TriviaQuestions.MessagesDistinct | trivia_questions.py:65-68 | A wrapped generation error always starts with "Error generating questions: " and the parse error never does |
| TriviaQuestions.ResponseText | trivia_questions.py:63 | `response.content[0].text` is the first block's text when that block is a text block; an empty content raises `IndexError` and a non-text first block raises `AttributeError` |
| TriviaQuestions.GenerateQuestions | trivia_questions.py:60-68 | The request is exactly the retried request whatever the decoder does; the result is the parse error exactly when the reply fails to decode or the last raised error was a JSON decoding error; it succeeds exactly when the decoded reply has a "questions" entry, and its value is that entry; any other raised error is wrapped as a generation error with its text |
| TriviaQuestions.ParseErrorNotRetried | trivia_questions.py:60-66 | A first reply that fails to decode gives the parse error after one call and no wait |
| TriviaQuestions.ExhaustedRetriesWrapped | trivia_questions.py:67-68 | Three raised attempts, the last not a JSON decoding error, are reported as a generation error carrying the last failure's text, starting "Error generating questions: " |
| TriviaQuestions.ExhaustedRetriesDecodeError | trivia_questions.py:65-66 | Three raised attempts whose last is a JSON decoding error give "Failed to parse Claude's response as JSON" |
| TriviaQuestions.MissingQuestionsKey | trivia_questions.py:63-68 | A decoded dict without "questions" yields the generation error `'questions'` (the quoted key, as `str(KeyError)` writes it) |
| TriviaQuestions.InterpretMissingKey | trivia_questions.py:63-68 | The classification of a final reply whose decoded dict lacks "questions" is a generation error with the `KeyError`'s text |
| TriviaQuestions.QuestionsKeyText | trivia_questions.py:64 | `str()` of the `KeyError` for "questions" is `'questions'` |
| TriviaQuestions.ChapterName | trivia_questions.py:91 | A chapter name never holds an underscore or a slash |
| TriviaQuestions.RemovePdfSuffix | trivia_questions.py:91 | Removing every ".pdf" from `stem + ".pdf"` gives `stem` back when `stem` has no ".pdf" |
| TriviaQuestions.ChapterNameOfPdf | trivia_questions.py:91 | The chapter name of `dir/stem.pdf` is `stem` with each underscore replaced by a space |
| TriviaQuestions.ChapterNameOfBarePdf | trivia_questions.py:91 | The chapter name of a bare `stem.pdf`, with no folder, is `stem` with each underscore replaced by a space |
| TriviaQuestions.FirstChapterName | trivia_questions.py:117 | "chapters/chapter_1.pdf" is named "chapter 1" |
| TriviaQuestions.NoDotNoPdf | trivia_questions.py:91 | A name without a dot contains no ".pdf" |
| TriviaQuestions.WithChapter | trivia_questions.py:104 | `q["chapter"] = name` on a dict stores the name under "chapter", keeps the existing keys in their order and adds at most one key; anything else is left as it is |
| TriviaQuestions.TagAll | trivia_questions.py:103-104 | Tagging a list keeps its length and tags element `i` in place |
| TriviaQuestions.TagChapter | trivia_questions.py:100-106 | The tagging loop completes exactly when every element it visits is a dict; a list comes back tagged element by element; an empty dict or string comes back unchanged |
| TriviaQuestions.TaggedQuestion | trivia_questions.py:104 | A tagged question carries "chapter" = the chapter name, keeps every other field's value, and keeps its keys in order |
| TriviaQuestions.TagChapterOfList | trivia_questions.py:103-106 | The loop over a list of dicts returns the list with every element tagged |
| TriviaQuestions.TagAllCarriesName | trivia_questions.py:103-104 | Every tagged dict of a list has "chapter" set to the chapter name |
| TriviaQuestions.ProcessChapter | trivia_questions.py:88-110 | No extracted text, blank text, a failed generation or a failed tagging yield the empty list; otherwise the tagged questions; at most three model calls, none for blank text |
| TriviaQuestions.ProcessChapterOfList | trivia_questions.py:99-106 | For a list of dicts, the chapter processor returns that list with every question tagged |
| TriviaQuestions.ProcessChapterTagsEveryQuestion | trivia_questions.py:63-106 | When the model's reply decodes to a value whose "questions" entry is a list of dicts, the chapter's result has that list's length and order, and question `i` is the reply's question `i` with "chapter" set to the chapter name |
| ElevenLabsTts.IntroFor | eleven_labs_tts.py:50-57 | The four named difficulties get their own sentence; any other hashable value gets the fallback; a list or dict difficulty raises |
| ElevenLabsTts.IntroIdentifiesDifficulty | eleven_labs_tts.py:50-57 | The intro determines the difficulty whenever the difficulty is one of the four named ones |
| ElevenLabsTts.Slots | eleven_labs_tts.py:60-86 | Each part of the template sits in the rendered text at its offset, the offsets growing part by part |
| ElevenLabsTts.OptionsLayout | eleven_labs_tts.py:66-75 | Inside the options block, "A) …", "B) …", "C) …" and "D) …" occur at strictly increasing positions |
| ElevenLabsTts.AnnouncementLayout | eleven_labs_tts.py:75-81 | After option D come the five-second break, then "Time's up!", then "The correct answer is {answer}.", in that order, ending the block |
| ElevenLabsTts.Script | eleven_labs_tts.py:60-86 | The script starts with the intro and ends with the explanation |
| ElevenLabsTts.ScriptLayout | eleven_labs_tts.py:60-86 | The script starts with the intro and ends with the explanation; the question, the options block and the answer announcement lie in between, in that order |
| ElevenLabsTts.FormatTtsText | eleven_labs_tts.py:47-88 | Formatting succeeds exactly for a question record with all fields; the result is the template filled with the intro and the fields; a dict without "difficulty" raises `KeyError('difficulty')` |
| ElevenLabsTts.AudioFileNameLayout | eleven_labs_tts.py:100 | The file name starts with "Question {index} - ", ends with "{difficulty}.mp3" and is relative |
| ElevenLabsTts.AudioPath | eleven_labs_tts.py:100-101 | The output path is the file name directly under the output folder, and ends in ".mp3" |
| ElevenLabsTts.AudioPathsDistinct | eleven_labs_tts.py:100-101 | Two questions share an output path only if they share index and difficulty |
| ElevenLabsTts.ThirdHardQuestionPath | eleven_labs_tts.py:100-101 | Question 3 of difficulty "Hard" goes to "audio_output/Question 3 - Hard.mp3" |
| ElevenLabsTts.GenerateAudio | eleven_labs_tts.py:90-124 | A malformed question raises the formatting error; a well-formed one yields its path when synthesis succeeds and `None` when it fails |
| ElevenLabsTts.Queue | eleven_labs_tts.py:133-136 | The queueing loop completes exactly when every question has a "difficulty" |
| ElevenLabsTts.PathOf | eleven_labs_tts.py:133-135 | Question `i` (0-based) goes to the file numbered `i + 1` and named by its difficulty, directly under the output folder; the path is never empty |
| ElevenLabsTts.Tasks | eleven_labs_tts.py:132-136 | One task per question, in input order: task `i` raises exactly when question `i` is malformed, with that question's formatting error, and otherwise returns the outcome of the file numbered `i + 1` |
| ElevenLabsTts.Gather | eleven_labs_tts.py:139 | Gathering raises exactly when some task raised, and then with the first such task's error in input order; otherwise the results are the tasks' values in input order |
| ElevenLabsTts.Successes | eleven_labs_tts.py:140 | The filter never lengthens the list |
| ElevenLabsTts.SuccessesMembers | eleven_labs_tts.py:140 | A path is kept exactly when it is a non-empty result |
| ElevenLabsTts.SuccessesAppend | eleven_labs_tts.py:140 | Filtering distributes over concatenation, so order is kept |
| ElevenLabsTts.SuccessesAllPresent | eleven_labs_tts.py:140 | With no missing result, every path is kept, in order |
| ElevenLabsTts.SuccessesGap | eleven_labs_tts.py:140 | A missing result contributes nothing |
| ElevenLabsTts.SuccessesSkipOne | eleven_labs_tts.py:140 | Dropping the one missing result of an otherwise complete list keeps all other paths in order |
| ElevenLabsTts.ProcessQuestions | eleven_labs_tts.py:126-143 | The run raises exactly when some question is malformed; otherwise it returns at most one path per question |
| ElevenLabsTts.ProcessedResults | eleven_labs_tts.py:139-143 | A successful run returns the filtered gathered results |
| ElevenLabsTts.GatheredOutcomes | eleven_labs_tts.py:133-139 | With every question well formed, gathering succeeds with each question's outcome in its place |
| ElevenLabsTts.OutcomePaths | eleven_labs_tts.py:120-140 | Filtering the per-question outcomes keeps a path exactly when it is the file of a question whose synthesis succeeded |
| ElevenLabsTts.ProcessedPaths | eleven_labs_tts.py:126-143 | A path is returned exactly when it is the file of a question whose synthesis succeeded |
| ElevenLabsTts.AllSynthesized | eleven_labs_tts.py:126-143 | When every synthesis succeeds, the files of questions 1 to N are returned in input order |
| ElevenLabsTts.OneSynthesisFails | eleven_labs_tts.py:122-143 | When only question `k` fails to synthesize, the other N - 1 files are returned in order |
| ElevenLabsTts.OutcomesSkipOne | eleven_labs_tts.py:120-124 | Per-question outcomes with one failed synthesis filter down to every path but that question's |
| ProcessVideo.Mp3Entries | process_video.py:167-168 | The filter keeps only names ending in ".mp3", never more names than were listed |
| ProcessVideo.SelectMp3 | process_video.py:165-169 | The selection is the ".mp3" entries in listing order, each joined under the audio folder, and every selected path ends in ".mp3" |
| ProcessVideo.SelectMp3Members | process_video.py:165-169 | A path is selected exactly when it is the folder joined with a listed ".mp3" entry |
| ProcessVideo.SelectMp3Empty | process_video.py:165-172 | The selection is empty exactly when no entry ends in ".mp3" |
| ProcessVideo.SelectMp3KeepsAbsent | process_video.py:165-169 | A character in neither the folder nor any entry (the slash aside) is in no selected path |
| ProcessVideo.ManifestLine | process_video.py:65 | A manifest line is the path plus the fixed `file '…'` wrapping, and holds a line break exactly when the path does |
| ProcessVideo.ManifestEnds | process_video.py:62-65 | The manifest is empty exactly when there are no files; otherwise it opens with the first file's line and closes with the last file's, line break included |
| ProcessVideo.ManifestLineParses | process_video.py:65 | A manifest line gives back the path it names |
| ProcessVideo.ManifestIsJoin | process_video.py:62-65 | The manifest is its lines joined by line breaks, with a final line break |
| ProcessVideo.ManifestRoundTrip | process_video.py:62-65 | Read back line by line, the manifest has exactly one line per file, in order, each naming its file, and nothing after the last line break |
| ProcessVideo.ManifestNamesEveryMp3 | process_video.py:62-65 | Every ".mp3" entry of the folder is named by some manifest line |
| ProcessVideo.OptionLines | process_video.py:99 | One options line per entry of the options dict |
| ProcessVideo.OptionsCaptionText | process_video.py:99 | The options caption is empty for an empty dict; otherwise it opens with the first entry's line and closes with the last entry's |
| ProcessVideo.OptionsCaptionLines | process_video.py:99 | The options caption splits back into exactly the "{key}) {value}" lines, in dict order, with no trailing line break |
| ProcessVideo.QuestionCaptionLayout | process_video.py:98 | The question caption opens with "Question {i + 1}:" and a line break, and closes with the question's text |
| ProcessVideo.QuestionCaptionInjective | process_video.py:98 | The question caption determines the question's number and its text |
| ProcessVideo.NumberedLineInjective | process_video.py:98 | "Question {n}:" followed by a line break and a text determines `n` and the text |
| ProcessVideo.QuestionCaptions | process_video.py:98-123 | One question gives its question caption, centred, then its options caption at height 250, both lasting 38 s from the same start; the question must be a dict with "question" and an "options" dict |
| ProcessVideo.CaptionLoop | process_video.py:96-124 | The loop from question `i` on gives two captions per remaining question |
| ProcessVideo.CaptionLoopSucceeds | process_video.py:96-124 | The loop finishes exactly when every remaining question has a "question" and an "options" dict |
| ProcessVideo.CaptionLoopStep | process_video.py:123-124 | One turn appends question `i`'s pair and advances the clock by 39 s |
| ProcessVideo.ClockAfterSlots | process_video.py:124 | `k` turns advance the clock by `39 * k` seconds |
| ProcessVideo.CaptionLoopSuffix | process_video.py:96-124 | After `k` questions the caption list continues as the loop started `k` questions later, `k` slots later |
| ProcessVideo.CaptionLoopPair | process_video.py:96-124 | Captions `2k` and `2k + 1` are question `k`'s pair |
| ProcessVideo.CaptionLoopFirstError | process_video.py:96-99 | The first malformed question decides the error the loop raises |
| ProcessVideo.CaptionSchedule | process_video.py:91-124 | Caption `k` starts at `39 * (k / 2)`, lasts 38 s, is centred for even `k` and at height 250 for odd `k` |
| ProcessVideo.CaptionsDisjoint | process_video.py:110-124 | A question's two captions show together, and they end before the next question's captions begin |
| ProcessVideo.CaptionsOfList | process_video.py:91-124 | For a list of questions there are exactly `2N` captions: question `j`'s question caption and options caption at positions `2j` and `2j + 1`, starting at `39 * j` s, rendered as lines 98-99 format them |
| ProcessVideo.Captions | process_video.py:96-124 | A questions file that cannot be iterated fails with the iteration's error; otherwise the captions exist exactly when every question has a "question" and an "options" dict, two per question |
| ProcessVideo.Items | process_video.py:99 | `.items()` succeeds exactly on a dict and yields its entries in order; on any other value it raises an `AttributeError` saying the object has no attribute 'items' |
| ProcessVideo.CreateFinalVideo | process_video.py:82-147 | The video is created exactly when the clips open, every question yields its captions and rendering succeeds; a caption failure re-raises its error text |
| ProcessVideo.Run | process_video.py:149-196 | A failed download ends the run at once; the manifest write is attempted exactly when the folder can be read and holds an ".mp3" entry, and it names the selection; a successful run has passed every earlier step and returns the captions |
| ProcessVideo.NoMp3Aborts | process_video.py:165-172 | A folder without ".mp3" entries stops the run with "No MP3 files found in audio folder" before any merge |
| ProcessVideo.AudioFolder | process_video.py:20 | The audio folder is "audio_output" directly under the working directory |
| ProcessVideo.AudioFolderNoBreak | process_video.py:20 | The audio folder holds a line break only if the working directory does |
| ProcessVideo.RunManifest | process_video.py:165-177 | A readable folder listing an ".mp3" entry makes the run attempt to write the manifest of the selection |
| ProcessVideo.RunManifestNamesMp3 | process_video.py:165-177 | Such a run's manifest names every ".mp3" entry of the folder |
| ProcessVideo.RunSucceeds | process_video.py:149-193 | With every outside step succeeding and a list of well-formed questions, the run ends with two captions per question |
| PosixPath.Join | process_video.py:166 | `os.path.join`: the result ends with the second part; an absolute second part replaces the first; otherwise exactly one slash separates them |
| PosixPath.JoinInjective | eleven_labs_tts.py:101 | Distinct relative names under one folder give distinct paths |
| PosixPath.JoinKeepsAbsent | process_video.py:166 | A character in neither part, the slash aside, is not in the join |
| PosixPath.Basename | trivia_questions.py:91 | `os.path.basename`: the longest slash-free suffix |
| PosixPath.BasenameOfJoin | trivia_questions.py:91 | The base name of `dir/name` is `name` when `name` holds no slash |
| Strings.ReplaceAll | trivia_questions.py:91 | A text without the pattern comes back unchanged; a text starting with the pattern starts with the replacement afterwards |
| Strings.ReplaceCharIsMap | trivia_questions.py:91 | Replacing one character by another maps each character independently |
| Strings.ReplaceCharRemoves | trivia_questions.py:91 | After replacing "_" by " " no "_" remains |
| Strings.ReplaceKeepsAbsent | trivia_questions.py:91 | `replace` introduces no character absent from the text and the replacement |
| Strings.LStrip | trivia_questions.py:95 | `lstrip` drops exactly a leading run of whitespace |
| Strings.RStrip | trivia_questions.py:95 | `rstrip` drops exactly a trailing run of whitespace |
| Strings.Strip | trivia_questions.py:95 | `not text.strip()` holds exactly when the text is all whitespace; a non-empty strip neither starts nor ends with whitespace and is no longer than the text |
| Strings.LStripBlank | trivia_questions.py:95 | An all-whitespace text strips to nothing |
| Strings.JoinEnds | process_video.py:99 | A join of no parts is empty; otherwise it opens with the first part and closes with the last |
| Strings.Split | process_video.py:99 | The reader used to state the round-trip of this line's join: a one-character split never yields an empty list |
| Strings.SplitJoin | process_video.py:99 | Splitting a line-break join recovers its lines when no line holds a line break |
| Strings.ConcatAppend | eleven_labs_tts.py:60-86 | Concatenation of parts splits at any index |
| Strings.PartAt | eleven_labs_tts.py:60-86 | Each part sits in the concatenation between its offset and the next |
| Strings.NatToString | eleven_labs_tts.py:100 | `str(n)` is never empty and starts with "0" only for 0 |
| Strings.NatToStringRoundTrip | eleven_labs_tts.py:100 | `str(n)` writes at least one digit, only digits, and reads back as `n` |
| Strings.NatPrefixUnique | eleven_labs_tts.py:100 | Two numbers each followed by a non-digit text are equal texts only if the numbers and the texts are equal |
| Strings.NumberedTextInjective | eleven_labs_tts.py:100 | A text of prefix, number, separator, text and suffix determines the number and the text |
| Json.Subscript | trivia_questions.py:64 | `v[key]` succeeds exactly on a dict holding the key, with that key's value; a dict without it raises `KeyError(key)` and anything else raises `TypeError` |
| Json.GetFindsKey | trivia_questions.py:64 | A lookup finds a value exactly when some entry has the key |
| Json.Iterate | process_video.py:96 | Iteration succeeds exactly on lists, dicts and strings, giving a list's items, a dict's keys, a string's characters; anything else raises `TypeError` |
| Json.IterateVisitsKeys | trivia_questions.py:103 | Iterating a dict visits exactly its keys |
| Json.SubscriptAfterPut | trivia_questions.py:104 | After `q[key] = v`, `q[key]` is `v` |
| Json.Show | process_video.py:98 | `str(v)` in an f-string: a string as it is, anything else as its repr, never empty |
| Json.Repr | trivia_questions.py:68 | `repr` is never empty; a list is bracketed, a dict braced, a string quoted with the same quote at both ends |
| Json.Put | trivia_questions.py:104 | Item assignment keeps every key in place, appends a new key at the end, and stores the value |
| Json.PutKeepsOthers | trivia_questions.py:104 | Assigning one key leaves every other key's value as it was |
| Json.EscapePlain | trivia_questions.py:68 | `repr` writes a text free of quotes, backslashes and line breaks unchanged |
| Json.QuoteReprPlain | trivia_questions.py:68 | `repr` of such a text is the text in single quotes |
| Json.KeyErrorText | trivia_questions.py:68 | `str()` of a `KeyError` for a plain key is the key in single quotes |

## Left out

- The model endpoint, speech synthesis, the PDF extractor, `json.loads`,
  yt-dlp, ffmpeg, ffprobe and moviepy are inputs, not models: what they return
  is whatever the caller supplies.
- The prompt text, the model parameters and the voice identifier sent to the
  services (trivia_questions.py:30-58, 76-81; eleven_labs_tts.py:104-109) are not
  modelled, since nothing in the core depends on them.
- Real sleeping is replaced by the list of delays.
- `asyncio` scheduling and the per-call `asyncio.Lock` (eleven_labs_tts.py:115) are
  left out. Gathering is modelled as an order-preserving collection whose
  failure is the first malformed question's.
- `os.makedirs` (eleven_labs_tts.py:93, process_video.py:156-157) is left out:
  creating a folder is assumed to succeed.
- All console printing is left out. The printed lines at
  trivia_questions.py:98 and 100 cannot raise on the modelled paths; `len`
  at line 100 is covered by the tagging loop's failure cases.
- The temporary-file cleanup in the `finally` block (process_video.py:197-210)
  is left out. It swallows the errors of `os.remove` and `os.rmdir`, but the
  `os.listdir` call at line 201 sits outside any `try`: its failure would escape
  `run()`, and `ProcessVideo.Run`'s report cannot express that case.
- The ffprobe duration read and its float parse (process_video.py:181-184) are
  modelled only as "succeeded or raised with this text", since floating point
  is out of scope.
- The trimming of the composition to the audio duration
  (process_video.py:127) is left out for the same reason.
- moviepy compositing, fonts, the caption width and the rendering are left out
  (process_video.py:102-142). A clip library that rejects the `TextClip` or
  `set_position` calls would fail every run at the first question, and that is
  not modelled.
- `os.path.abspath` (process_video.py:64) is treated as the identity, because the
  paths passed to it are already built from the absolute working directory.
- ProcessVideo.Run: the working directory `cwd` is assumed to be absolute and
  normalised, as `os.getcwd()` returns it; the model does not check this, and
  the identity treatment of `os.path.abspath` above rests on it.
- `repr` escapes only backslashes, the quote in use, `\n`, `\r` and `\t`; other
  non-printable characters are written as themselves.
- Floating-point JSON numbers are not part of `Json.Value`.
- The module-level `main()` functions (trivia_questions.py:112-141,
  eleven_labs_tts.py:145-174) and the call to the undefined `main()` at
  process_video.py:219 are left out; only the chapter name of the first entry
  point is stated, as `TriviaQuestions.FirstChapterName`.
- The constructors are left out except for the audio folder
  (process_video.py:20). `CSCSTrivia.__init__` (trivia_questions.py:11-14) and
  `CSCSTTSGenerator.__init__` (eleven_labs_tts.py:10 onwards) load environment
  variables and build the service clients. `VideoProcessor.__init__`
  (process_video.py:14-26) only joins folder and file paths under
  `os.getcwd()`; of these, only the audio folder is used by the modelled steps.
- ProcessVideo.ParseManifestLine: it is a reader written for this model that
  takes everything between `file '` and the final `'`. The source writes each
  path inside single quotes without escaping (process_video.py:65), so ffmpeg's
  own concat reader would read a path containing `'` differently;
  `ManifestRoundTrip` and `RunManifestNamesMp3` hold for this reader only.
- ElevenLabsTts.ProcessQuestions: the questions are a list. The source applies
  `len` and `enumerate` (eleven_labs_tts.py:127-133) to whatever the JSON file
  held; a dict or string there is not modelled, and neither is the `TypeError`
  that indexing its items with `'difficulty'` would raise at line 134.
- `extract_text_from_pdf` (trivia_questions.py:16-25) is the `extracted`
  input. It already strips its text, so `process_chapter`'s second strip is
  modelled on the text as given.
- ProcessVideo.CaptionLoop: the schedule (start `39 * k`, 38 s, placement) is not
  in its own contract; `CaptionSchedule`, `CaptionsOfList` and
  `CaptionsDisjoint` state it.
- ElevenLabsTts.Successes: its contract states only the length bound; the kept
  elements and their order are stated by `SuccessesMembers`, `SuccessesAppend`
  and `SuccessesAllPresent`.
