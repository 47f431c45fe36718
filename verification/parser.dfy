/** The diff parser: scans the lines of a unified diff of the listings file
    and turns every added JSON object into a posting. An object starts at an
    added line that is exactly `{` and ends at the first recorded line that
    is `}` or `},`; objects are not counted by brace depth. Decoding the
    object text (JSON, then the posting record) is a parameter `decode`;
    a fragment it rejects makes the whole call fail, as the exception does. */
module Parser {
  import opened Wrappers
  import opened Text
  import opened Models

  datatype ParseError = UndecodableFragment(text: string)

  /** The scanner's variables between two lines: the `recording` flag, the
      object text gathered so far, and the postings decoded so far. */
  datatype Scanner = Scanner(recording: bool, buffer: seq<string>, jobs: seq<JobListing>)

  const Start := Scanner(false, [], [])

  /** The scanner looks at a line: an added line, or a context line while
      recording. Removed lines and headers are never looked at. */
  predicate Scanned(recording: bool, line: string) {
    StartsWith(line, "+") || (recording && StartsWith(line, " "))
  }

  /** `line[1:].lstrip()`: the diff marker and leading blanks removed. */
  function Content(line: string): string
    requires |line| >= 1
  {
    LStrip(line[1..])
  }

  predicate IsOpen(content: string) {
    Strip(content) == "{"
  }

  predicate IsClose(content: string) {
    Strip(content) == "}," || Strip(content) == "}"
  }

  /** The trailing-comma clean-up of the last line and the one before it. */
  function CleanLines(ls: seq<string>): seq<string> {
    if ls == [] then []
    else
      var last := ls[|ls| - 1 := RStripChar(ls[|ls| - 1], ',')];
      if |last| >= 2 then last[|last| - 2 := RStripChar(last[|last| - 2], ',')] else last
  }

  /** The clean-up keeps every line but the last two as it is; those two
      lose exactly their trailing commas. */
  lemma CleanLinesShape(ls: seq<string>)
    ensures |CleanLines(ls)| == |ls|
    ensures forall k :: 0 <= k < |ls| - 2 ==> CleanLines(ls)[k] == ls[k]
    ensures forall k :: |ls| - 2 <= k < |ls| && 0 <= k ==>
      var r := CleanLines(ls);
      && r[k] <= ls[k]
      && (r[k] == [] || r[k][|r[k]| - 1] != ',')
      && forall i :: |r[k]| <= i < |ls[k]| ==> ls[k][i] == ','
  {
  }

  /** The text handed to the decoder for a captured object: the buffer
      joined with newlines, split into lines again, cleaned, re-joined. */
  function FragmentText(buffer: seq<string>): string {
    Join(CleanLines(SplitLines(Join(buffer, "\n"))), "\n")
  }

  /** What one line does to the scanner, apart from the postings list. */
  datatype Outcome =
    | Next(recording: bool, buffer: seq<string>)   // keep scanning
    | Emit(buffer: seq<string>, job: JobListing)    // an object was decoded
    | Fail(error: ParseError)                       // the decoder rejected it

  /** One iteration of the scanning loop. */
  function Step(recording: bool, buffer: seq<string>, line: string, decode: string -> Option<JobListing>): Outcome {
    if !Scanned(recording, line) then Next(recording, buffer)
    else
      var content := Content(line);
      if IsOpen(content) && !recording then Next(true, ["{"])
      else if !recording then Next(recording, buffer)
      else
        var buffer' := buffer + [content];
        if !IsClose(content) then Next(true, buffer')
        else
          var clean := FragmentText(buffer');
          match decode(clean)
          case None => Fail(UndecodableFragment(clean))
          case Some(job) => Emit(buffer', job)
  }

  function Advance(st: Scanner, o: Outcome): Result<Scanner, ParseError> {
    match o
    case Fail(e) => Err(e)
    case Next(r, b) => Ok(Scanner(r, b, st.jobs))
    case Emit(b, j) => Ok(Scanner(false, b, st.jobs + [j]))
  }

  /** A line step: what one line does given the flag and the buffer. */
  type StepFn = (bool, seq<string>, string) -> Outcome

  function Stepper(decode: string -> Option<JobListing>): StepFn {
    (recording, buffer, line) => Step(recording, buffer, line, decode)
  }

  /** The scanning loop over the remaining lines; the first failure ends it. */
  function Scan(lines: seq<string>, st: Scanner, step: StepFn): Result<Scanner, ParseError>
    decreases |lines|
  {
    if lines == [] then Ok(st)
    else
      match Advance(st, step(st.recording, st.buffer, lines[0]))
      case Err(e) => Err(e)
      case Ok(next) => Scan(lines[1..], next, step)
  }

  function JobsOf(r: Result<Scanner, ParseError>): Result<seq<JobListing>, ParseError> {
    match r
    case Err(e) => Err(e)
    case Ok(st) => Ok(st.jobs)
  }

  /** What `parse_added_listings` returns, or the failure that escapes it. */
  function Parse(lines: seq<string>, decode: string -> Option<JobListing>): Result<seq<JobListing>, ParseError> {
    JobsOf(Scan(lines, Start, Stepper(decode)))
  }

  // ------------------------------------------------------------ the code

  /** The clean-up of a finished buffer, with its in-place edits of the
      last two lines. */
  method CleanFragment(buffer: seq<string>) returns (clean: string)
    requires |buffer| >= 1 && buffer[0] == "{"
    ensures clean == FragmentText(buffer)
  {
    var raw := Join(buffer, "\n");
    var lines := SplitLines(raw);
    lines := lines[|lines| - 1 := RStripChar(lines[|lines| - 1], ',')];
    if |lines| >= 2 {
      lines := lines[|lines| - 2 := RStripChar(lines[|lines| - 2], ',')];
    }
    clean := Join(lines, "\n");
  }

  /** `DiffParser.parse_added_listings` */
  method ParseAddedListings(diffLines: seq<string>, decode: string -> Option<JobListing>)
    returns (r: Result<seq<JobListing>, ParseError>)
    ensures r == Parse(diffLines, decode)
  {
    var buffer: seq<string> := [];
    var jobs: seq<JobListing> := [];
    var recording := false;
    for i := 0 to |diffLines|
      invariant recording ==> |buffer| >= 1 && buffer[0] == "{"
      invariant Scan(diffLines, Start, Stepper(decode)) == Scan(diffLines[i..], Scanner(recording, buffer, jobs), Stepper(decode))
    {
      var before := Scanner(recording, buffer, jobs);
      ghost var outcome := Step(recording, buffer, diffLines[i], decode);
      assert diffLines[i..][0] == diffLines[i] && diffLines[i..][1..] == diffLines[i + 1..];
      var next := ScanLine(before, diffLines[i], decode);
      if next.Err? {
        Halted(diffLines[i..], before, Stepper(decode), outcome);
        return Err(next.error);
      }
      Stepped(diffLines[i..], before, Stepper(decode), outcome, next.value);
      recording, buffer, jobs := next.value.recording, next.value.buffer, next.value.jobs;
    }
    assert diffLines[|diffLines|..] == [];
    r := Ok(jobs);
  }

  /** The body of the loop in `parse_added_listings` for one line. */
  method ScanLine(st: Scanner, line: string, decode: string -> Option<JobListing>)
    returns (r: Result<Scanner, ParseError>)
    requires st.recording ==> |st.buffer| >= 1 && st.buffer[0] == "{"
    ensures r == Advance(st, Step(st.recording, st.buffer, line, decode))
    ensures r.Ok? && r.value.recording ==> |r.value.buffer| >= 1 && r.value.buffer[0] == "{"
  {
    var recording, buffer, jobs := st.recording, st.buffer, st.jobs;
    r := Ok(st);
    if StartsWith(line, "+") || (recording && StartsWith(line, " ")) {
      var content := LStrip(line[1..]);
      if IsOpen(content) && !recording {
        CaptureStarts(buffer, line, decode);
        r := Ok(Scanner(true, ["{"], jobs));
      } else if recording {
        r := CaptureLine(st, line, decode);
      } else {
        CaptureStarts(buffer, line, decode);
      }
    } else if recording {
      StepRecording(buffer, line, decode);
    } else {
      CaptureStarts(buffer, line, decode);
    }
  }

  /** The `if recording:` block of the loop body: the line's content joins
      the capture and, on a closing line, the capture is decoded. */
  method CaptureLine(st: Scanner, line: string, decode: string -> Option<JobListing>)
    returns (r: Result<Scanner, ParseError>)
    requires st.recording && Scanned(true, line)
    requires |st.buffer| >= 1 && st.buffer[0] == "{"
    ensures r == Advance(st, Step(true, st.buffer, line, decode))
    ensures r.Ok? && r.value.recording ==> |r.value.buffer| >= 1 && r.value.buffer[0] == "{"
  {
    var content := LStrip(line[1..]);
    assert content == Content(line);
    if IsClose(content) {
      r := CloseCapture(st, line, decode);
    } else {
      StepRecording(st.buffer, line, decode);
      r := Ok(Scanner(true, st.buffer + [content], st.jobs));
    }
  }

  /** A closing line: the capture, cleaned, is decoded and appended, and
      recording stops; a fragment the decoder rejects ends the call. */
  method CloseCapture(st: Scanner, line: string, decode: string -> Option<JobListing>)
    returns (r: Result<Scanner, ParseError>)
    requires st.recording && ClosesObject(line)
    requires |st.buffer| >= 1 && st.buffer[0] == "{"
    ensures r == Advance(st, Step(true, st.buffer, line, decode))
    ensures r.Ok? ==> !r.value.recording
  {
    var buffer := st.buffer + [Content(line)];
    CaptureEnds(st.buffer, line, decode);
    var clean := CleanFragment(buffer);
    var data := decode(clean);
    if data.None? {
      return Err(UndecodableFragment(clean));
    }
    r := Ok(Scanner(false, buffer, st.jobs + [data.value]));
  }

  // ---------------------------------------------------------- properties

  /** One line taken off the front of the scan. */
  lemma Stepped(lines: seq<string>, st: Scanner, step: StepFn, o: Outcome, next: Scanner)
    requires lines != [] && step(st.recording, st.buffer, lines[0]) == o && Advance(st, o) == Ok(next)
    ensures Scan(lines, st, step) == Scan(lines[1..], next, step)
  {
  }

  /** A failing line ends the scan with its error. */
  lemma Halted(lines: seq<string>, st: Scanner, step: StepFn, o: Outcome)
    requires lines != [] && step(st.recording, st.buffer, lines[0]) == o && o.Fail?
    ensures Scan(lines, st, step) == Err(o.error)
  {
  }

  /** Running two stretches of lines one after the other. */
  lemma {:induction false} ScanConcat(a: seq<string>, b: seq<string>, st: Scanner, step: StepFn)
    ensures Scan(a + b, st, step) ==
      match Scan(a, st, step)
      case Err(e) => Err(e)
      case Ok(mid) => Scan(b, mid, step)
    decreases |a|
  {
    if a == [] {
      assert a + b == b;
    } else {
      assert (a + b)[0] == a[0];
      assert (a + b)[1..] == a[1..] + b;
      match Advance(st, step(st.recording, st.buffer, a[0]))
      case Err(e) =>
      case Ok(next) => ScanConcat(a[1..], b, next, step);
    }
  }

  function Prefixed(js: seq<JobListing>, r: Result<Scanner, ParseError>): Result<Scanner, ParseError> {
    match r
    case Err(e) => Err(e)
    case Ok(st) => Ok(st.(jobs := js + st.jobs))
  }

  /** The postings decoded so far are never read, only appended to. */
  lemma {:induction false} ScanKeepsJobs(b: seq<string>, st: Scanner, step: StepFn)
    ensures Scan(b, st, step) == Prefixed(st.jobs, Scan(b, st.(jobs := []), step))
    decreases |b|
  {
    if b == [] {
      assert st.jobs + [] == st.jobs;
    } else {
      var o := step(st.recording, st.buffer, b[0]);
      match o
      case Fail(_) =>
      case Next(r, buf) =>
        ScanKeepsJobs(b[1..], Scanner(r, buf, st.jobs), step);
      case Emit(buf, j) =>
        ScanKeepsJobs(b[1..], Scanner(false, buf, st.jobs + [j]), step);
        ScanKeepsJobs(b[1..], Scanner(false, buf, [j]), step);
        assert [] + [j] == [j];
        match Scan(b[1..], Scanner(false, buf, []), step)
        case Err(_) =>
        case Ok(fin) =>
          assert st.jobs + ([j] + fin.jobs) == (st.jobs + [j]) + fin.jobs;
    }
  }

  /** A line the scanner does not look at (a removed line, a hunk header,
      or a context line outside an object) leaves its state unchanged. */
  lemma UnscannedLineIsSkipped(recording: bool, buffer: seq<string>, line: string, decode: string -> Option<JobListing>)
    requires !Scanned(recording, line)
    ensures Step(recording, buffer, line, decode) == Next(recording, buffer)
  {
  }

  /** Removed lines never contribute: dropping one from anywhere in the
      diff does not change the result. */
  lemma RemovedLineIgnored(a: seq<string>, line: string, b: seq<string>, decode: string -> Option<JobListing>)
    requires StartsWith(line, "-")
    ensures Parse(a + [line] + b, decode) == Parse(a + b, decode)
  {
    var step := Stepper(decode);
    ScanConcat(a, [line] + b, Start, step);
    ScanConcat(a, b, Start, step);
    assert a + [line] + b == a + ([line] + b);
    match Scan(a, Start, step)
    case Err(e) =>
    case Ok(mid) =>
      assert ([line] + b)[1..] == b;
      UnscannedLineIsSkipped(mid.recording, mid.buffer, line, decode);
  }

  /** Capture starts only on an added `{` line and only while not recording. */
  lemma CaptureStarts(buffer: seq<string>, line: string, decode: string -> Option<JobListing>)
    ensures Step(false, buffer, line, decode) ==
      if StartsWith(line, "+") && IsOpen(Content(line)) then Next(true, ["{"]) else Next(false, buffer)
  {
  }

  predicate ClosesObject(line: string) {
    Scanned(true, line) && IsClose(Content(line))
  }

  /** While recording, a `}` or `},` line ends the capture: the object is
      decoded, appended, and the scanner stops recording. */
  lemma CaptureEnds(buffer: seq<string>, line: string, decode: string -> Option<JobListing>)
    requires ClosesObject(line)
    ensures var clean := FragmentText(buffer + [Content(line)]);
      Step(true, buffer, line, decode) ==
        if decode(clean).Some? then Emit(buffer + [Content(line)], decode(clean).value)
        else Fail(UndecodableFragment(clean))
  {
  }

  /** While recording, a line that closes nothing only adds its content. */
  lemma StepRecording(buffer: seq<string>, line: string, decode: string -> Option<JobListing>)
    requires !ClosesObject(line)
    ensures Step(true, buffer, line, decode)
         == Next(true, if Scanned(true, line) then buffer + [Content(line)] else buffer)
  {
  }

  /** Outside an object the stale buffer is never read. */
  lemma {:induction false} IdleBufferUnread(b: seq<string>, buf: seq<string>, js: seq<JobListing>, decode: string -> Option<JobListing>)
    ensures JobsOf(Scan(b, Scanner(false, buf, js), Stepper(decode)))
         == JobsOf(Scan(b, Scanner(false, [], js), Stepper(decode)))
    decreases |b|
  {
    if b != [] {
      CaptureStarts(buf, b[0], decode);
      CaptureStarts([], b[0], decode);
      if !(StartsWith(b[0], "+") && IsOpen(Content(b[0]))) {
        IdleBufferUnread(b[1..], buf, js, decode);
      }
    }
  }

  /** Postings come out in diff order: a diff cut where no object is open
      parses as the postings of the first part followed by those of the
      second. */
  lemma ParseConcat(a: seq<string>, b: seq<string>, decode: string -> Option<JobListing>)
    requires Scan(a, Start, Stepper(decode)).Ok? && !Scan(a, Start, Stepper(decode)).value.recording
    ensures Parse(a + b, decode) ==
      match Parse(b, decode)
      case Err(e) => Err(e)
      case Ok(ys) => Ok(Parse(a, decode).value + ys)
  {
    var mid := Scan(a, Start, Stepper(decode)).value;
    ScanConcat(a, b, Start, Stepper(decode));
    IdleBufferUnread(b, mid.buffer, mid.jobs, decode);
    ScanKeepsJobs(b, Scanner(false, [], mid.jobs), Stepper(decode));
  }

  /** A failing fragment fails the whole call, whatever follows it. */
  lemma FailureIsFinal(a: seq<string>, b: seq<string>, decode: string -> Option<JobListing>)
    requires Parse(a, decode).Err?
    ensures Parse(a + b, decode) == Parse(a, decode)
  {
    ScanConcat(a, b, Start, Stepper(decode));
  }

  /** The contents of the lines a recording scanner gathers. */
  function Captured(body: seq<string>): seq<string> {
    if body == [] then []
    else if Scanned(true, body[0]) then [Content(body[0])] + Captured(body[1..])
    else Captured(body[1..])
  }

  /** The step function records through `line` whatever the buffer. */
  ghost predicate RecordsThrough(step: StepFn, line: string) {
    forall buffer: seq<string> {:trigger step(true, buffer, line)} ::
      step(true, buffer, line) == Next(true, if Scanned(true, line) then buffer + [Content(line)] else buffer)
  }

  /** The line parser records through every line that closes nothing. */
  lemma RecordsThroughOpenLines(line: string, decode: string -> Option<JobListing>)
    requires !ClosesObject(line)
    ensures RecordsThrough(Stepper(decode), line)
  {
    forall buffer: seq<string> {
      StepRecording(buffer, line, decode);
    }
  }

  /** Recording through lines that close nothing only gathers their content. */
  lemma {:induction false} RecordThrough(body: seq<string>, buf: seq<string>, js: seq<JobListing>, step: StepFn)
    requires forall k :: 0 <= k < |body| ==> RecordsThrough(step, body[k])
    ensures Scan(body, Scanner(true, buf, js), step) == Ok(Scanner(true, buf + Captured(body), js))
    decreases |body|
  {
    if body == [] {
      assert buf + [] == buf;
    } else {
      var line := body[0];
      var next := if Scanned(true, line) then buf + [Content(line)] else buf;
      assert RecordsThrough(step, line);
      assert step(true, buf, line) == Next(true, next);
      assert Scan(body, Scanner(true, buf, js), step) == Scan(body[1..], Scanner(true, next, js), step);
      forall k | 0 <= k < |body[1..]| ensures RecordsThrough(step, body[1..][k]) {
        assert body[1..][k] == body[k + 1];
      }
      if Scanned(true, line) {
        AppendAssociates(buf, [Content(line)], Captured(body[1..]));
      }
      RecordThrough(body[1..], next, js, step);
    }
  }

  /** A run of lines none of which closes an object. */
  predicate OpenRun(body: seq<string>) {
    body == [] || (!ClosesObject(body[0]) && OpenRun(body[1..]))
  }

  lemma {:induction false} OpenRunLines(body: seq<string>)
    requires OpenRun(body)
    ensures forall k :: 0 <= k < |body| ==> !ClosesObject(body[k])
    decreases |body|
  {
    if body != [] {
      OpenRunLines(body[1..]);
      assert forall k :: 1 <= k < |body| ==> body[k] == body[1..][k - 1];
    }
  }

  /** The line parser gathers the content of a run of lines that close nothing. */
  lemma RecordThroughBody(body: seq<string>, buf: seq<string>, js: seq<JobListing>, decode: string -> Option<JobListing>)
    requires OpenRun(body)
    ensures Scan(body, Scanner(true, buf, js), Stepper(decode)) == Ok(Scanner(true, buf + Captured(body), js))
  {
    OpenRunRecords(body, decode);
    RecordThrough(body, buf, js, Stepper(decode));
  }

  /** The line parser records through each line of a run that closes nothing. */
  lemma OpenRunRecords(body: seq<string>, decode: string -> Option<JobListing>)
    requires OpenRun(body)
    ensures forall k :: 0 <= k < |body| ==> RecordsThrough(Stepper(decode), body[k])
  {
    OpenRunLines(body);
    forall k | 0 <= k < |body| ensures RecordsThrough(Stepper(decode), body[k]) {
      RecordsThroughOpenLines(body[k], decode);
    }
  }

  /** An object still open at the end of the diff yields no posting. */
  lemma UnclosedObjectDropped(a: seq<string>, open: string, body: seq<string>, decode: string -> Option<JobListing>)
    requires Scan(a, Start, Stepper(decode)).Ok? && !Scan(a, Start, Stepper(decode)).value.recording
    requires StartsWith(open, "+") && IsOpen(Content(open))
    requires OpenRun(body)
    ensures Parse(a + [open] + body, decode) == Parse(a, decode)
  {
    var mid := Scan(a, Start, Stepper(decode)).value;
    assert a + [open] + body == a + ([open] + body);
    ScanConcat(a, [open] + body, Start, Stepper(decode));
    assert ([open] + body)[1..] == body;
    CaptureStarts(mid.buffer, open, decode);
    RecordThroughBody(body, ["{"], mid.jobs, decode);
  }

  /** One object scanned from an idle start: the opening line starts the
      capture, the body is gathered, and the closing line decides. */
  lemma ScanObject(open: string, body: seq<string>, close: string, step: StepFn)
    requires step(false, [], open) == Next(true, ["{"])
    requires forall k :: 0 <= k < |body| ==> RecordsThrough(step, body[k])
    ensures Scan([open] + body + [close], Start, step)
         == Advance(Scanner(true, ["{"] + Captured(body), []), step(true, ["{"] + Captured(body), close))
  {
    var lines := [open] + body + [close];
    var gathered := ["{"] + Captured(body);
    assert lines[0] == open && lines[1..] == body + [close];
    Stepped(lines, Start, step, Next(true, ["{"]), Scanner(true, ["{"], []));
    ScanConcat(body, [close], Scanner(true, ["{"], []), step);
    RecordThrough(body, ["{"], [], step);
    ScanLast(close, Scanner(true, gathered, []), step);
  }

  /** A scan of one line is that line's step. */
  lemma ScanLast(line: string, st: Scanner, step: StepFn)
    ensures Scan([line], st, step) == Advance(st, step(st.recording, st.buffer, line))
  {
    assert [line][1..] == [];
  }

  /** One complete object: the captured lines, cleaned, are decoded into
      exactly one posting, or the call fails with that text. */
  lemma OneObject(open: string, body: seq<string>, close: string, decode: string -> Option<JobListing>)
    requires StartsWith(open, "+") && IsOpen(Content(open))
    requires OpenRun(body)
    requires ClosesObject(close)
    ensures var clean := FragmentText(["{"] + Captured(body) + [Content(close)]);
      Parse([open] + body + [close], decode) ==
        if decode(clean).Some? then Ok([decode(clean).value]) else Err(UndecodableFragment(clean))
  {
    var gathered := ["{"] + Captured(body);
    var o := Step(true, gathered, close, decode);
    ParseObject(open, body, close, decode);
    CaptureEnds(gathered, close, decode);
    Closed(Scanner(true, gathered, []), o);
  }

  /** The postings after a closing line that started from none. */
  lemma Closed(st: Scanner, o: Outcome)
    requires st.jobs == [] && !o.Next?
    ensures JobsOf(Advance(st, o)) == if o.Emit? then Ok([o.job]) else Err(o.error)
  {
    if o.Emit? {
      assert [] + [o.job] == [o.job];
    }
  }

  /** The parse of one object is the outcome of its closing line. */
  lemma ParseObject(open: string, body: seq<string>, close: string, decode: string -> Option<JobListing>)
    requires StartsWith(open, "+") && IsOpen(Content(open))
    requires OpenRun(body)
    ensures var gathered := ["{"] + Captured(body);
      Parse([open] + body + [close], decode)
        == JobsOf(Advance(Scanner(true, gathered, []), Step(true, gathered, close, decode)))
  {
    var gathered := ["{"] + Captured(body);
    var step := Stepper(decode);
    CaptureStarts([], open, decode);
    assert step(false, [], open) == Step(false, [], open, decode);
    OpenRunRecords(body, decode);
    ScanObject(open, body, close, step);
    assert step(true, gathered, close) == Step(true, gathered, close, decode);
  }

  /** For captured lines without line breaks, the decoder sees exactly the
      captured lines, newline-joined, with trailing commas removed from the
      last two. */
  lemma FragmentOfPlainLines(buffer: seq<string>)
    requires |buffer| >= 1 && buffer[|buffer| - 1] != []
    requires forall k :: 0 <= k < |buffer| ==> NoLineBreak(buffer[k])
    ensures FragmentText(buffer) == Join(CleanLines(buffer), "\n")
  {
    SplitLinesOfJoin(buffer);
  }
}
