/** The video stage: choosing the narration files, the ffmpeg concat manifest that
    merges them, the caption schedule laid over the background video, and the
    order in which the pipeline gives up. Downloading, ffmpeg, ffprobe and the
    moviepy rendering are outcome inputs. */
module ProcessVideo {
  import opened Results
  import opened Strings
  import opened Json
  import PosixPath

  // ----- choosing the audio files -----

  const Mp3Extension: string := ".mp3"
  const AudioFolderName: string := "audio_output"

  /** The listed entries whose names end in ".mp3", in listing order. */
  function Mp3Entries(entries: seq<string>): (names: seq<string>)
    ensures |names| <= |entries|
    ensures forall k :: 0 <= k < |names| ==> EndsWith(names[k], Mp3Extension)
    decreases |entries|
  {
    if |entries| == 0 then []
    else (if EndsWith(entries[0], Mp3Extension) then [entries[0]] else []) + Mp3Entries(entries[1..])
  }

  /** `[os.path.join(folder, f) for f in entries if f.endswith(".mp3")]`: the
      ".mp3" entries, in listing order, each joined under the folder. */
  function SelectMp3(folder: string, entries: seq<string>): (files: seq<string>)
    ensures |files| == |Mp3Entries(entries)|
    ensures forall k :: 0 <= k < |files| ==> files[k] == PosixPath.Join(folder, Mp3Entries(entries)[k])
    ensures forall k :: 0 <= k < |files| ==> EndsWith(files[k], Mp3Extension)
    decreases |entries|
  {
    if |entries| == 0 then []
    else
      var rest := SelectMp3(folder, entries[1..]);
      var later := Mp3Entries(entries[1..]);
      if EndsWith(entries[0], Mp3Extension) then
        var p := PosixPath.Join(folder, entries[0]);
        SuffixOfSuffix(p, entries[0], Mp3Extension);
        assert Mp3Entries(entries) == [entries[0]] + later;
        JoinedCons(folder, entries[0], later, rest);
        [p] + rest
      else
        assert Mp3Entries(entries) == later;
        rest
  }

  /** Putting a name in front of a list of names puts its join in front of
      their joins. */
  lemma JoinedCons(folder: string, f: string, names: seq<string>, paths: seq<string>)
    requires |paths| == |names|
    requires forall k :: 0 <= k < |paths| ==> paths[k] == PosixPath.Join(folder, names[k])
    ensures forall k :: 0 <= k < |paths| + 1 ==>
      ([PosixPath.Join(folder, f)] + paths)[k] == PosixPath.Join(folder, ([f] + names)[k])
  {
  }

  /** A path is selected exactly when it is the folder joined with a listed
      entry whose name ends in ".mp3". */
  lemma {:induction false} SelectMp3Members(folder: string, entries: seq<string>, p: string)
    ensures p in SelectMp3(folder, entries) <==>
      exists f :: f in entries && EndsWith(f, Mp3Extension) && p == PosixPath.Join(folder, f)
    decreases |entries|
  {
    if |entries| > 0 {
      SelectMp3Members(folder, entries[1..], p);
      assert forall f :: f in entries <==> f == entries[0] || f in entries[1..];
    }
  }

  /** The selection is empty exactly when no listed entry ends in ".mp3". */
  lemma {:induction false} SelectMp3Empty(folder: string, entries: seq<string>)
    ensures SelectMp3(folder, entries) == [] <==> forall k :: 0 <= k < |entries| ==> !EndsWith(entries[k], Mp3Extension)
    decreases |entries|
  {
    if |entries| > 0 {
      SelectMp3Empty(folder, entries[1..]);
      assert forall k :: 1 <= k < |entries| ==> entries[k] == entries[1..][k - 1];
    }
  }

  // ----- the concat manifest -----

  const ManifestLead: string := "file '"
  const ManifestTail: string := "'"

  /** `f"file '{abs_path}'"`, one manifest line without its line break: the
      path quoted, so the line holds a line break only if the path does. */
  function ManifestLine(path: string): (line: string)
    ensures |line| == |ManifestLead| + |path| + |ManifestTail|
    ensures '\n' in line <==> '\n' in path
  {
    ManifestLead + path + ManifestTail
  }

  /** The contents `merge_audio_files` writes to the list file: one line per
      audio file, in order, each ended by a line break. */
  function Manifest(paths: seq<string>): string
    decreases |paths|
  {
    if |paths| == 0 then "" else ManifestLine(paths[0]) + "\n" + Manifest(paths[1..])
  }

  /** The manifest is empty exactly when there are no files; otherwise it opens
      with the first file's line and closes with the last file's, line break
      included. */
  lemma {:induction false} ManifestEnds(paths: seq<string>)
    ensures Manifest(paths) == "" <==> paths == []
    ensures paths != [] ==>
      && StartsWith(Manifest(paths), ManifestLine(paths[0]) + "\n")
      && EndsWith(Manifest(paths), ManifestLine(paths[|paths| - 1]) + "\n")
    decreases |paths|
  {
    if |paths| > 0 {
      var head := ManifestLine(paths[0]) + "\n";
      var rest := Manifest(paths[1..]);
      var m := Manifest(paths);
      assert m == head + rest;
      assert m[..|head|] == head;
      if |paths| > 1 {
        ManifestEnds(paths[1..]);
        assert m[|m| - |rest|..] == rest;
        SuffixOfSuffix(m, rest, ManifestLine(paths[|paths| - 1]) + "\n");
      }
    }
  }

  /** The path a manifest line names, if it has the line's shape. */
  function ParseManifestLine(line: string): Option<string> {
    if |ManifestLead| + |ManifestTail| <= |line| && StartsWith(line, ManifestLead) && EndsWith(line, ManifestTail)
    then Some(line[|ManifestLead|..|line| - |ManifestTail|])
    else None
  }

  lemma ManifestLineParses(path: string)
    ensures ParseManifestLine(ManifestLine(path)) == Some(path)
  {
    var line := ManifestLine(path);
    assert line[..|ManifestLead|] == ManifestLead;
    assert line[|line| - |ManifestTail|..] == ManifestTail;
    assert line[|ManifestLead|..|line| - |ManifestTail|] == path;
  }

  /** The manifest is the lines joined by line breaks, plus a final line break. */
  lemma {:induction false} ManifestIsJoin(paths: seq<string>)
    ensures var lines := seq(|paths|, k requires 0 <= k < |paths| => ManifestLine(paths[k]));
      Manifest(paths) == Join(lines + [""], "\n")
    decreases |paths|
  {
    var lines := seq(|paths|, k requires 0 <= k < |paths| => ManifestLine(paths[k]));
    if |paths| > 0 {
      ManifestIsJoin(paths[1..]);
      var rest := seq(|paths| - 1, k requires 0 <= k < |paths| - 1 => ManifestLine(paths[1..][k]));
      assert lines[1..] == rest;
      assert (lines + [""])[1..] == rest + [""];
    }
  }

  /** Reading the manifest back line by line gives one line per path, in order,
      each naming its path, and nothing after the last line break, provided no
      path holds a line break. */
  lemma ManifestRoundTrip(paths: seq<string>)
    requires forall k :: 0 <= k < |paths| ==> '\n' !in paths[k]
    ensures var lines := Split(Manifest(paths), '\n');
      && |lines| == |paths| + 1
      && lines[|paths|] == ""
      && forall k :: 0 <= k < |paths| ==> ParseManifestLine(lines[k]) == Some(paths[k])
  {
    var lines := seq(|paths|, k requires 0 <= k < |paths| => ManifestLine(paths[k]));
    ManifestIsJoin(paths);
    forall k | 0 <= k < |lines + [""]|
      ensures '\n' !in (lines + [""])[k]
    {
      if k < |paths| {
        assert '\n' !in ManifestLead && '\n' !in ManifestTail;
        assert lines[k] == ManifestLead + paths[k] + ManifestTail;
      }
    }
    SplitJoin(lines + [""], '\n');
    forall k | 0 <= k < |paths|
      ensures ParseManifestLine(lines[k]) == Some(paths[k])
    {
      ManifestLineParses(paths[k]);
    }
  }

  // ----- the captions -----

  /** Where a caption is placed on the frame. */
  datatype Placement = Centered | CenteredAt(y: int)

  /** A text overlay: its text, start and length in seconds, and placement. */
  datatype Caption = Caption(text: CaptionText, start: int, duration: int, placement: Placement)

  /** What a caption's text is made from: the question at 0-based position
      `index`, or the entries of a question's options dict. `Rendered` gives
      the string itself. */
  datatype CaptionText = QuestionText(index: nat, question: Value) | OptionsText(options: seq<(string, Value)>)

  /** Each question owns a 39-second slot; its captions show for 38 seconds. */
  const SlotLength: int := 39
  const CaptionDuration: int := 38
  /** The vertical position of the options caption. */
  const OptionsY: int := 250

  /** `f"Question {i + 1}:\n{question}"` for the question at 0-based position `i`. */
  function QuestionCaptionText(i: nat, question: Value): string {
    QuestionCaptionLead + NatToString(i + 1) + QuestionCaptionBreak + Show(question)
  }

  /** The question caption opens with the 1-based number on a line of its own
      and closes with the question's text. */
  lemma QuestionCaptionLayout(i: nat, question: Value)
    ensures StartsWith(QuestionCaptionText(i, question), QuestionCaptionLead + NatToString(i + 1) + QuestionCaptionBreak)
    ensures EndsWith(QuestionCaptionText(i, question), Show(question))
  {
    var head := QuestionCaptionLead + NatToString(i + 1) + QuestionCaptionBreak;
    var text := QuestionCaptionText(i, question);
    assert text == head + Show(question);
    assert text[..|head|] == head;
    assert text[|text| - |Show(question)|..] == Show(question);
  }

  const QuestionCaptionLead: string := "Question "
  const QuestionCaptionBreak: string := ":\n"

  /** `f"{k}) {v}"` for each entry of the options dict, in its order. */
  function OptionLines(options: seq<(string, Value)>): (lines: seq<string>)
    ensures |lines| == |options|
  {
    seq(|options|, k requires 0 <= k < |options| => options[k].0 + ") " + Show(options[k].1))
  }

  /** The options caption: the option lines joined by line breaks, so it is
      empty for an empty dict and otherwise opens with the first entry's line
      and closes with the last entry's. */
  function OptionsCaptionText(options: seq<(string, Value)>): (text: string)
    ensures options == [] ==> text == ""
    ensures options != [] ==>
      StartsWith(text, OptionLines(options)[0]) && EndsWith(text, OptionLines(options)[|options| - 1])
  {
    JoinEnds(OptionLines(options), "\n");
    Join(OptionLines(options), "\n")
  }

  /** The string a caption shows. */
  function Rendered(t: CaptionText): string {
    match t
    case QuestionText(i, question) => QuestionCaptionText(i, question)
    case OptionsText(options) => OptionsCaptionText(options)
  }

  /** The options caption splits back into its lines when no key or value text
      holds a line break. */
  lemma OptionsCaptionLines(options: seq<(string, Value)>)
    requires |options| > 0
    requires forall k :: 0 <= k < |options| ==> '\n' !in options[k].0 && '\n' !in Show(options[k].1)
    ensures Split(OptionsCaptionText(options), '\n') == OptionLines(options)
  {
    var lines := OptionLines(options);
    forall k | 0 <= k < |lines|
      ensures '\n' !in lines[k]
    {
      assert lines[k] == options[k].0 + ") " + Show(options[k].1);
    }
    SplitJoin(lines, '\n');
  }

  /** The question caption names its question: the number and the question text
      can be read back from it. */
  lemma QuestionCaptionInjective(i: nat, j: nat, q: Value, r: Value)
    requires QuestionCaptionText(i, q) == QuestionCaptionText(j, r)
    ensures i == j && Show(q) == Show(r)
  {
    NumberedLineInjective(i + 1, j + 1, Show(q), Show(r));
  }

  /** "Question ", a number, ":" and a line break, then a text: the number and
      the text can be read back. */
  lemma NumberedLineInjective(m: nat, n: nat, a: string, b: string)
    requires QuestionCaptionLead + NatToString(m) + QuestionCaptionBreak + a
          == QuestionCaptionLead + NatToString(n) + QuestionCaptionBreak + b
    ensures m == n && a == b
  {
    assert QuestionCaptionLead + NatToString(m) + QuestionCaptionBreak + a
        == QuestionCaptionLead + NatToString(m) + QuestionCaptionBreak + a + "";
    assert QuestionCaptionLead + NatToString(n) + QuestionCaptionBreak + b
        == QuestionCaptionLead + NatToString(n) + QuestionCaptionBreak + b + "";
    assert QuestionCaptionBreak[0] == ':';
    NumberedTextInjective(QuestionCaptionLead, QuestionCaptionBreak, "", m, n, a, b);
  }

  const NoItems: string := " object has no attribute 'items'"

  /** `question['options'].items()`: a dict's entries; anything else has no `items`. */
  function Items(v: Value): (r: Result<seq<(string, Value)>, PyError>)
    ensures r.Success? <==> v.Obj?
    ensures v.Obj? ==> r.value == v.fields
    ensures r.Failure? ==> r.error.AttributeError? && EndsWith(r.error.detail, NoItems)
  {
    match v
    case Obj(fields) => Success(fields)
    case _ =>
      var detail := "'" + TypeName(v) + "'" + NoItems;
      assert detail[|detail| - |NoItems|..] == NoItems;
      Failure(AttributeError(detail))
  }

  /** The shape the caption loop needs of one question: a dict with a "question"
      and an "options" dict. */
  predicate HasCaptionFields(q: Value) {
    && q.Obj? && Get(q.fields, "question").Some?
    && Get(q.fields, "options").Some? && Get(q.fields, "options").value.Obj?
  }

  function QuestionOf(q: Value): Value
    requires HasCaptionFields(q)
  {
    Get(q.fields, "question").value
  }

  function OptionsOf(q: Value): seq<(string, Value)>
    requires HasCaptionFields(q)
  {
    Get(q.fields, "options").value.fields
  }

  /** The two captions of the question at 0-based position `i`, both starting at `time`. */
  function QuestionCaptions(q: Value, i: nat, time: int): (r: Result<seq<Caption>, PyError>)
    ensures r.Success? <==> HasCaptionFields(q)
    ensures r.Success? ==>
      r.value == [ Caption(QuestionText(i, QuestionOf(q)), time, CaptionDuration, Centered),
                   Caption(OptionsText(OptionsOf(q)), time, CaptionDuration, CenteredAt(OptionsY)) ]
  {
    var question :- Subscript(q, "question");
    var options :- Subscript(q, "options");
    var entries :- Items(options);
    Success([ Caption(QuestionText(i, question), time, CaptionDuration, Centered),
              Caption(OptionsText(entries), time, CaptionDuration, CenteredAt(OptionsY)) ])
  }

  /** The loop of `create_final_video` from question `i` on, with `current_time`
      equal to `time`: two captions per question, the clock advancing one slot
      per question; the first malformed question raises. */
  function CaptionLoop(questions: seq<Value>, i: nat, time: int): (r: Result<seq<Caption>, PyError>)
    requires i <= |questions|
    ensures r.Success? ==> |r.value| == 2 * (|questions| - i)
    decreases |questions| - i
  {
    if i == |questions| then Success([])
    else
      var here :- QuestionCaptions(questions[i], i, time);
      var rest :- CaptionLoop(questions, i + 1, time + SlotLength);
      Success(here + rest)
  }

  /** The loop finishes exactly when every question from `i` on has the fields
      the captions need. */
  lemma {:induction false} CaptionLoopSucceeds(questions: seq<Value>, i: nat, time: int)
    requires i <= |questions|
    ensures CaptionLoop(questions, i, time).Success? <==> forall k :: i <= k < |questions| ==> HasCaptionFields(questions[k])
    decreases |questions| - i
  {
    if i < |questions| {
      CaptionLoopSucceeds(questions, i + 1, time + SlotLength);
    }
  }

  /** One turn of the loop: question `i`'s pair, then the rest of the loop one
      slot later. */
  lemma CaptionLoopStep(questions: seq<Value>, i: nat, time: int)
    requires i < |questions|
    requires CaptionLoop(questions, i, time).Success?
    ensures QuestionCaptions(questions[i], i, time).Success?
    ensures CaptionLoop(questions, i + 1, time + SlotLength).Success?
    ensures CaptionLoop(questions, i, time).value
         == QuestionCaptions(questions[i], i, time).value + CaptionLoop(questions, i + 1, time + SlotLength).value
  {
  }

  /** The clock after `k` more questions, advanced one slot at a time as the loop does. */
  function ClockAfter(time: int, k: nat): int
    decreases k
  {
    if k == 0 then time else ClockAfter(time + SlotLength, k - 1)
  }

  /** Advancing `k` slots adds 39 seconds `k` times. */
  lemma {:induction false} ClockAfterSlots(time: int, k: nat)
    ensures ClockAfter(time, k) == time + SlotLength * k
    decreases k
  {
    if k > 0 {
      ClockAfterSlots(time + SlotLength, k - 1);
    }
  }

  /** After `k` questions' captions, the list goes on as the loop started `k`
      questions later with the clock advanced `k` slots. */
  lemma {:induction false} CaptionLoopSuffix(questions: seq<Value>, i: nat, time: int, k: nat)
    requires i + k <= |questions|
    requires CaptionLoop(questions, i, time).Success?
    ensures CaptionLoop(questions, i + k, ClockAfter(time, k)).Success?
    ensures CaptionLoop(questions, i, time).value[2 * k..] == CaptionLoop(questions, i + k, ClockAfter(time, k)).value
    decreases k
  {
    if k == 0 {
      assert ClockAfter(time, k) == time;
    } else {
      CaptionLoopTail(questions, i, time);
      CaptionLoopSuffix(questions, i + 1, time + SlotLength, k - 1);
      assert i + 1 + (k - 1) == i + k;
      DropTwice(CaptionLoop(questions, i, time).value, 2, 2 * (k - 1));
    }
  }

  /** After question `i`'s pair, the list goes on as the loop started one question later. */
  lemma CaptionLoopTail(questions: seq<Value>, i: nat, time: int)
    requires i < |questions|
    requires CaptionLoop(questions, i, time).Success?
    ensures CaptionLoop(questions, i + 1, time + SlotLength).Success?
    ensures CaptionLoop(questions, i, time).value[2..] == CaptionLoop(questions, i + 1, time + SlotLength).value
  {
    CaptionLoopStep(questions, i, time);
  }

  /** Question `i + k`'s two captions sit at positions `2k` and `2k + 1`: that
      question's own pair, with the clock advanced `k` slots. */
  lemma CaptionLoopPair(questions: seq<Value>, i: nat, time: int, k: nat)
    requires i + k < |questions|
    requires CaptionLoop(questions, i, time).Success?
    ensures QuestionCaptions(questions[i + k], i + k, ClockAfter(time, k)).Success?
    ensures var r := CaptionLoop(questions, i, time).value;
      var pair := QuestionCaptions(questions[i + k], i + k, ClockAfter(time, k)).value;
      r[2 * k] == pair[0] && r[2 * k + 1] == pair[1]
  {
    CaptionLoopSuffix(questions, i, time, k);
    CaptionLoopStep(questions, i + k, ClockAfter(time, k));
    var r := CaptionLoop(questions, i, time).value;
    assert r[2 * k] == r[2 * k..][0] && r[2 * k + 1] == r[2 * k..][1];
  }

  /** `create_final_video`'s caption list for the loaded questions file: iterate
      it, enumerate from 0, starting the clock at 0. A file that cannot be
      iterated fails as the iteration does; otherwise the captions exist exactly
      when every question has the fields they need, two per question. */
  function Captions(questionsData: Value): (r: Result<seq<Caption>, PyError>)
    ensures Iterate(questionsData).Failure? ==> r == Failure(Iterate(questionsData).error)
    ensures Iterate(questionsData).Success? ==>
      (r.Success? <==> forall k :: 0 <= k < |Iterate(questionsData).value| ==> HasCaptionFields(Iterate(questionsData).value[k]))
    ensures r.Success? ==> |r.value| == 2 * |Iterate(questionsData).value|
  {
    var questions :- Iterate(questionsData);
    CaptionLoopSucceeds(questions, 0, 0);
    CaptionLoop(questions, 0, 0)
  }

  /** The first malformed question decides the error the loop raises. */
  lemma {:induction false} CaptionLoopFirstError(questions: seq<Value>, i: nat, time: int, j: nat)
    requires i <= j < |questions|
    requires forall k :: i <= k < j ==> HasCaptionFields(questions[k])
    requires !HasCaptionFields(questions[j])
    ensures CaptionLoop(questions, i, time)
         == Failure(QuestionCaptions(questions[j], j, ClockAfter(time, j - i)).error)
    decreases j - i
  {
    if i < j {
      CaptionLoopFirstError(questions, i + 1, time + SlotLength, j);
    }
  }

  /** Caption `k` of a list whose clock started at `time`: question `k / 2`'s
      slot, 38 seconds long, the question caption (even `k`) centred and the
      options caption (odd `k`) at the options height. */
  predicate Scheduled(c: Caption, time: int, k: nat) {
    && c.start == time + SlotLength * (k / 2)
    && c.duration == CaptionDuration
    && c.placement == (if k % 2 == 0 then Centered else CenteredAt(OptionsY))
  }

  /** Every caption of the loop keeps the fixed schedule, whatever the texts. */
  lemma CaptionSchedule(questions: seq<Value>, time: int, k: nat)
    requires CaptionLoop(questions, 0, time).Success?
    requires k < |CaptionLoop(questions, 0, time).value|
    ensures Scheduled(CaptionLoop(questions, 0, time).value[k], time, k)
  {
    var j := k / 2;
    CaptionLoopPair(questions, 0, time, j);
    ClockAfterSlots(time, j);
    var r := CaptionLoop(questions, 0, time).value;
    var pair := QuestionCaptions(questions[j], j, ClockAfter(time, j)).value;
    if k % 2 == 0 {
      assert k == 2 * j && r[k] == pair[0];
    } else {
      assert k == 2 * j + 1 && r[k] == pair[1];
    }
  }

  /** Captions of different questions never overlap: a question's captions end
      before the next question's begin, and the two captions of one question
      show together. */
  lemma CaptionsDisjoint(questions: seq<Value>, time: int, k: nat, m: nat)
    requires CaptionLoop(questions, 0, time).Success?
    requires k < m < |CaptionLoop(questions, 0, time).value|
    ensures var r := CaptionLoop(questions, 0, time).value;
      if k / 2 == m / 2 then r[k].start == r[m].start && r[k].duration == r[m].duration
      else r[k].start + r[k].duration < r[m].start
  {
    CaptionSchedule(questions, time, k);
    CaptionSchedule(questions, time, m);
    assert k / 2 <= m / 2;
  }

  /** For a list of questions, the video's captions are two per question in
      question order: question `j`'s question caption and options caption, both
      starting at `39 * j` seconds and lasting 38 seconds. */
  lemma CaptionsOfList(items: seq<Value>, j: nat)
    requires j < |items|
    requires Captions(Arr(items)).Success?
    ensures var r := Captions(Arr(items)).value;
      && |r| == 2 * |items|
      && HasCaptionFields(items[j])
      && r[2 * j] == Caption(QuestionText(j, QuestionOf(items[j])), SlotLength * j, CaptionDuration, Centered)
      && r[2 * j + 1] == Caption(OptionsText(OptionsOf(items[j])), SlotLength * j, CaptionDuration, CenteredAt(OptionsY))
      && Rendered(r[2 * j].text) == QuestionCaptionText(j, QuestionOf(items[j]))
      && Rendered(r[2 * j + 1].text) == OptionsCaptionText(OptionsOf(items[j]))
  {
    CaptionLoopPair(items, 0, 0, j);
    ClockAfterSlots(0, j);
  }

  // ----- the pipeline -----

  /** What the outside world does during one run: whether the download produced
      the video file, the audio folder's listing (or why it could not be read),
      whether ffmpeg merged the files, whether the duration read back as a
      number, the loaded questions file (or why it could not be loaded),
      whether the video and merged audio opened, and whether rendering
      succeeded. */
  datatype Tools = Tools(
    downloaded: bool,
    listing: Result<seq<string>, string>,
    merged: bool,
    probed: Result<(), string>,
    questionsFile: Result<Value, string>,
    clipsLoaded: Result<(), string>,
    rendered: Result<(), string>)

  /** What a run leaves behind: the concat manifest, if the merge was attempted,
      and either the captions laid over the final video or the text of the
      exception that ended the run. */
  datatype RunReport = RunReport(manifest: Option<string>, outcome: Result<seq<Caption>, string>)

  const DownloadFailed: string := "\U{274C} Failed to download video"
  const NoMp3Found: string := "No MP3 files found in audio folder"
  const MergeFailed: string := "Failed to merge audio files"

  /** `self.audio_folder`: the "audio_output" folder directly under the working
      directory. */
  function AudioFolder(cwd: string): (folder: string)
    ensures folder == PosixPath.Lead(cwd) + AudioFolderName
  {
    assert AudioFolderName[0] == 'a';
    PosixPath.Join(cwd, AudioFolderName)
  }

  /** `create_final_video`: open the clips, build the captions, render. */
  function CreateFinalVideo(questionsData: Value, tools: Tools): (r: Result<seq<Caption>, string>)
    ensures r.Success? <==> tools.clipsLoaded.Success? && Captions(questionsData).Success? && tools.rendered.Success?
    ensures r.Success? ==> r.value == Captions(questionsData).value
    ensures tools.clipsLoaded.Success? && Captions(questionsData).Failure? ==> r == Failure(ErrorText(Captions(questionsData).error))
  {
    var _ :- tools.clipsLoaded;
    match Captions(questionsData)
    case Failure(e) => Failure(ErrorText(e))
    case Success(captions) =>
      var _ :- tools.rendered;
      Success(captions)
  }

  /** `VideoProcessor.run` in a working directory `cwd`: download, select the
      ".mp3" files of the audio folder, merge them through the manifest, read
      the duration, load the questions and create the video; the first step
      that fails ends the run with its message. */
  function Run(cwd: string, tools: Tools): (report: RunReport)
    ensures !tools.downloaded ==> report == RunReport(None, Failure(DownloadFailed))
    ensures report.manifest.Some? <==>
      tools.downloaded && tools.listing.Success? && SelectMp3(AudioFolder(cwd), tools.listing.value) != []
    ensures report.manifest.Some? ==>
      report.manifest.value == Manifest(SelectMp3(AudioFolder(cwd), tools.listing.value))
    ensures report.outcome.Success? ==>
      && report.manifest.Some? && tools.merged && tools.probed.Success? && tools.questionsFile.Success?
      && Captions(tools.questionsFile.value).Success?
      && report.outcome.value == Captions(tools.questionsFile.value).value
  {
    if !tools.downloaded then RunReport(None, Failure(DownloadFailed))
    else if tools.listing.Failure? then RunReport(None, Failure(tools.listing.error))
    else
      var files := SelectMp3(AudioFolder(cwd), tools.listing.value);
      if files == [] then RunReport(None, Failure(NoMp3Found))
      else
        var manifest := Some(Manifest(files));
        if !tools.merged then RunReport(manifest, Failure(MergeFailed))
        else if tools.probed.Failure? then RunReport(manifest, Failure(tools.probed.error))
        else if tools.questionsFile.Failure? then RunReport(manifest, Failure(tools.questionsFile.error))
        else RunReport(manifest, CreateFinalVideo(tools.questionsFile.value, tools))
  }

  /** A downloaded run whose audio folder holds no ".mp3" entry stops before any
      merge with "No MP3 files found in audio folder". */
  lemma NoMp3Aborts(cwd: string, tools: Tools)
    requires tools.downloaded && tools.listing.Success?
    requires forall k :: 0 <= k < |tools.listing.value| ==> !EndsWith(tools.listing.value[k], Mp3Extension)
    ensures Run(cwd, tools) == RunReport(None, Failure(NoMp3Found))
  {
    SelectMp3Empty(AudioFolder(cwd), tools.listing.value);
  }

  /** No selected path holds a character that neither the folder nor any entry
      holds, the slash aside. */
  lemma {:induction false} SelectMp3KeepsAbsent(folder: string, entries: seq<string>, c: char)
    requires c != '/' && c !in folder
    requires forall k :: 0 <= k < |entries| ==> c !in entries[k]
    ensures forall k :: 0 <= k < |SelectMp3(folder, entries)| ==> c !in SelectMp3(folder, entries)[k]
    decreases |entries|
  {
    if |entries| > 0 {
      SelectMp3KeepsAbsent(folder, entries[1..], c);
      PosixPath.JoinKeepsAbsent(folder, entries[0], c);
    }
  }

  /** Every ".mp3" entry is named, under the folder, by some line of the manifest
      built from the selection, when no entry and not the folder holds a line break. */
  lemma ManifestNamesEveryMp3(folder: string, entries: seq<string>, f: string)
    requires '\n' !in folder
    requires forall k :: 0 <= k < |entries| ==> '\n' !in entries[k]
    requires f in entries && EndsWith(f, Mp3Extension)
    ensures var lines := Split(Manifest(SelectMp3(folder, entries)), '\n');
      exists k :: 0 <= k < |lines| && ParseManifestLine(lines[k]) == Some(PosixPath.Join(folder, f))
  {
    var files := SelectMp3(folder, entries);
    var p := PosixPath.Join(folder, f);
    SelectMp3Members(folder, entries, p);
    var k :| 0 <= k < |files| && files[k] == p;
    SelectMp3KeepsAbsent(folder, entries, '\n');
    ManifestRoundTrip(files);
  }

  /** A run that gets past the download with a readable audio folder holding an
      ".mp3" entry writes a manifest that names that entry's path. */
  lemma RunManifestNamesMp3(cwd: string, tools: Tools, f: string)
    requires tools.downloaded && tools.listing.Success?
    requires forall k :: 0 <= k < |tools.listing.value| ==> '\n' !in tools.listing.value[k]
    requires '\n' !in cwd
    requires f in tools.listing.value && EndsWith(f, Mp3Extension)
    ensures Run(cwd, tools).manifest.Some?
    ensures var lines := Split(Run(cwd, tools).manifest.value, '\n');
      exists k :: 0 <= k < |lines| && ParseManifestLine(lines[k]) == Some(PosixPath.Join(AudioFolder(cwd), f))
  {
    var folder := AudioFolder(cwd);
    AudioFolderNoBreak(cwd);
    ManifestNamesEveryMp3(folder, tools.listing.value, f);
    RunManifest(cwd, tools, f);
  }

  /** The audio folder holds a line break only if the working directory does. */
  lemma AudioFolderNoBreak(cwd: string)
    requires '\n' !in cwd
    ensures '\n' !in AudioFolder(cwd)
  {
    assert '\n' !in AudioFolderName;
    PosixPath.JoinKeepsAbsent(cwd, AudioFolderName, '\n');
  }

  /** A readable folder listing an ".mp3" entry makes the run write the manifest
      of the selection. */
  lemma RunManifest(cwd: string, tools: Tools, f: string)
    requires tools.downloaded && tools.listing.Success?
    requires f in tools.listing.value && EndsWith(f, Mp3Extension)
    ensures Run(cwd, tools).manifest == Some(Manifest(SelectMp3(AudioFolder(cwd), tools.listing.value)))
  {
    var folder := AudioFolder(cwd);
    SelectMp3Members(folder, tools.listing.value, PosixPath.Join(folder, f));
  }

  /** A run in which every outside step succeeds and the questions file is a list
      of well-formed questions ends with two captions per question. */
  lemma RunSucceeds(cwd: string, tools: Tools, items: seq<Value>)
    requires tools.downloaded && tools.listing.Success?
    requires exists k :: 0 <= k < |tools.listing.value| && EndsWith(tools.listing.value[k], Mp3Extension)
    requires tools.merged && tools.probed.Success? && tools.clipsLoaded.Success? && tools.rendered.Success?
    requires tools.questionsFile == Success(Arr(items))
    requires forall k :: 0 <= k < |items| ==> HasCaptionFields(items[k])
    ensures Captions(Arr(items)).Success?
    ensures Run(cwd, tools).outcome == Success(Captions(Arr(items)).value)
    ensures |Run(cwd, tools).outcome.value| == 2 * |items|
  {
    SelectMp3Empty(AudioFolder(cwd), tools.listing.value);
  }
}
