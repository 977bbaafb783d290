/** The render use case: walking the multipart stream, classifying its parts
    into the HTML file, the stylesheet and the attachments, and running the
    renderer inside a per-request workspace that is removed on every exit.
    The multipart parser, the filesystem and the renderer enter as
    outcomes: a stream of parts ending in `io.EOF` or a read error, each
    part carrying the outcome of saving it, and the results of creating and
    opening the workspace. */
module PdfUseCase {
  import opened Wrappers
  import opened GoStrings
  import opened AppErrors
  import opened Runner

  /** The stylesheet used when the request carries none; the sandbox binds
      the configured default stylesheet at this path. */
  const DefaultStylesheetPath := "/defaults/default.css"

  const NoHtmlMessage := "No html file provided."
  const GenerationFailedMessage := "PDF generation failed."

  /** One part of the multipart body: its form name, its file name, and the
      error (if any) of saving its body into the workspace under that file
      name. */
  datatype Part = Part(formName: string, fileName: string, saveErr: Option<Err>)

  /** A part as the stream delivers it. Saving opens the part's file name
      inside the workspace root, and an empty name never opens, so a part
      without a file name (a plain form field, or a file part with an empty
      `filename`) always fails to save. */
  type StreamPart = p: Part | p.fileName != "" || p.saveErr.Some?
    witness Part("", "", Some(Eof))

  /** The three fields the ingestion loop fills. */
  datatype PartSet = PartSet(html: string, css: string, attachments: seq<string>)

  const EmptyPartSet := PartSet("", "", [])

  predicate IsAttachmentField(formName: string) {
    HasPrefix(formName, "attachment.") || HasPrefix(formName, "file.")
  }

  /** The classification switch applied to a part once it has been saved. */
  function Classify(ps: PartSet, p: Part): PartSet {
    if p.formName == "html" then ps.(html := p.fileName)
    else if p.formName == "css" then ps.(css := p.fileName)
    else if IsAttachmentField(p.formName) then ps.(attachments := ps.attachments + [p.fileName])
    else ps
  }

  /** Where the part loop stops: the fields reached, and the error that
      ended it (`None` for `io.EOF`). */
  datatype Drained = Drained(state: PartSet, stop: Option<Err>)

  /** The part loop from state `ps` over the remaining parts: a part whose
      save fails stops it with an internal error before being classified;
      after the last part the stream's end is `io.EOF` or a read error,
      which is returned as it is. */
  function Drain(ps: PartSet, parts: seq<StreamPart>, end: Err): Drained
    decreases |parts|
  {
    if parts == [] then Drained(ps, if end == Eof then None else Some(end))
    else match parts[0].saveErr
      case Some(e) => Drained(ps, Some(NewInternalError(GenericFailureMessage, Some(e))))
      case None => Drain(Classify(ps, parts[0]), parts[1..], end)
  }

  /** The checks after the loop: an HTML file is required, the stylesheet
      falls back to the default. */
  function Finish(d: Drained): Result<PartSet, Err> {
    if d.stop.Some? then Failure(d.stop.value)
    else if d.state.html == "" then Failure(NewBadRequestError(NoHtmlMessage, None))
    else if d.state.css == "" then Success(d.state.(css := DefaultStylesheetPath))
    else Success(d.state)
  }

  /** Ingestion of a whole stream, from empty fields. */
  function Ingest(parts: seq<StreamPart>, end: Err): Result<PartSet, Err> {
    Finish(Drain(EmptyPartSet, parts, end))
  }

  // ---------------------------------------------------------------------
  // Reference definitions: what the fields should hold after the stream.

  predicate NoSaveFailure(parts: seq<StreamPart>) {
    forall i :: 0 <= i < |parts| ==> parts[i].saveErr.None?
  }

  /** Part `i` is the last one named `name`. */
  predicate LastNamed(parts: seq<StreamPart>, name: string, i: int) {
    0 <= i < |parts| && parts[i].formName == name &&
    forall j :: i < j < |parts| ==> parts[j].formName != name
  }

  predicate NoneNamed(parts: seq<StreamPart>, name: string) {
    forall j :: 0 <= j < |parts| ==> parts[j].formName != name
  }

  /** The file names of the attachment parts, in stream order. */
  function AttachmentNames(parts: seq<StreamPart>): seq<string> {
    if parts == [] then []
    else (if IsAttachmentField(parts[0].formName) then [parts[0].fileName] else []) + AttachmentNames(parts[1..])
  }

  /** Classifying a stream part by part. */
  function Fold(ps: PartSet, parts: seq<StreamPart>): PartSet
    decreases |parts|
  {
    if parts == [] then ps else Fold(Classify(ps, parts[0]), parts[1..])
  }

  /** With no save failure the loop classifies every part and stops at the
      stream's end. */
  lemma {:induction false} DrainWithoutFailures(ps: PartSet, parts: seq<StreamPart>, end: Err)
    requires NoSaveFailure(parts)
    ensures Drain(ps, parts, end) == Drained(Fold(ps, parts), if end == Eof then None else Some(end))
    decreases |parts|
  {
    if parts != [] {
      DrainWithoutFailures(Classify(ps, parts[0]), parts[1..], end);
    }
  }

  /** At the first failing save, the loop stops with an internal error and
      the fields classified from the parts before it only. */
  lemma {:induction false} DrainStopsAtSaveFailure(ps: PartSet, parts: seq<StreamPart>, end: Err, k: nat)
    requires k < |parts| && parts[k].saveErr.Some? && NoSaveFailure(parts[..k])
    ensures Drain(ps, parts, end) ==
      Drained(Fold(ps, parts[..k]), Some(NewInternalError(GenericFailureMessage, parts[k].saveErr)))
    decreases k
  {
    if k > 0 {
      assert parts[1..][..k - 1] == parts[..k][1..];
      DrainStopsAtSaveFailure(Classify(ps, parts[0]), parts[1..], end, k - 1);
    }
  }

  /** The field a part name sets: `html` or `css`. */
  function Field(ps: PartSet, name: string): string {
    if name == "html" then ps.html else ps.css
  }

  /** For `html` and `css` the last part wins; with no such part the field
      keeps its value. */
  lemma {:induction false} FoldLastWins(ps: PartSet, parts: seq<StreamPart>, name: string)
    requires name == "html" || name == "css"
    ensures NoneNamed(parts, name) ==> Field(Fold(ps, parts), name) == Field(ps, name)
    ensures forall i :: LastNamed(parts, name, i) ==> Field(Fold(ps, parts), name) == parts[i].fileName
    decreases |parts|
  {
    if parts != [] {
      var rest := parts[1..];
      var ps' := Classify(ps, parts[0]);
      FoldLastWins(ps', rest, name);
      assert Fold(ps, parts) == Fold(ps', rest);
      forall i | LastNamed(parts, name, i)
        ensures Field(Fold(ps, parts), name) == parts[i].fileName
      {
        if i > 0 {
          assert LastNamed(rest, name, i - 1) by {
            forall j | i - 1 < j < |rest| ensures rest[j].formName != name {
              assert rest[j] == parts[j + 1];
            }
          }
        } else {
          assert NoneNamed(rest, name) by {
            forall j | 0 <= j < |rest| ensures rest[j].formName != name {
              assert rest[j] == parts[j + 1];
            }
          }
        }
      }
      if NoneNamed(parts, name) {
        assert NoneNamed(rest, name) by {
          forall j | 0 <= j < |rest| ensures rest[j].formName != name {
            assert rest[j] == parts[j + 1];
          }
        }
      }
    }
  }

  /** The attachments are appended in stream order, one per attachment part. */
  lemma {:induction false} FoldAttachments(ps: PartSet, parts: seq<StreamPart>)
    ensures Fold(ps, parts).attachments == ps.attachments + AttachmentNames(parts)
    decreases |parts|
  {
    if parts != [] {
      FoldAttachments(Classify(ps, parts[0]), parts[1..]);
    }
  }

  /** Every position moved one place to the right. */
  function Shift(positions: seq<nat>): (r: seq<nat>)
    ensures |r| == |positions|
    ensures forall k :: 0 <= k < |r| ==> r[k] == positions[k] + 1
  {
    seq(|positions|, k requires 0 <= k < |positions| => positions[k] + 1)
  }

  /** The positions of the attachment parts in a stream, in order. */
  function AttachmentPositions(parts: seq<StreamPart>): seq<nat>
    decreases |parts|
  {
    if parts == [] then []
    else (if IsAttachmentField(parts[0].formName) then [0] else []) + Shift(AttachmentPositions(parts[1..]))
  }

  /** The k-th attachment name is the file name of the part at the k-th
      attachment position, and there are exactly as many of each. */
  lemma {:induction false} AttachmentPositionsNames(parts: seq<StreamPart>)
    ensures |AttachmentPositions(parts)| == |AttachmentNames(parts)|
    ensures forall k :: 0 <= k < |AttachmentPositions(parts)| ==>
      AttachmentPositions(parts)[k] < |parts| &&
      IsAttachmentField(parts[AttachmentPositions(parts)[k]].formName) &&
      AttachmentNames(parts)[k] == parts[AttachmentPositions(parts)[k]].fileName
    decreases |parts|
  {
    if parts != [] {
      var tail := parts[1..];
      AttachmentPositionsNames(tail);
      var rest := AttachmentPositions(tail);
      var h := if IsAttachmentField(parts[0].formName) then 1 else 0;
      var idx := AttachmentPositions(parts);
      forall k | h <= k < |idx|
        ensures idx[k] < |parts| && IsAttachmentField(parts[idx[k]].formName) &&
                AttachmentNames(parts)[k] == parts[idx[k]].fileName
      {
        assert idx[k] == rest[k - h] + 1;
        assert tail[rest[k - h]] == parts[idx[k]];
        assert AttachmentNames(parts)[k] == AttachmentNames(tail)[k - h];
      }
    }
  }

  /** The attachment positions are strictly increasing. */
  lemma {:induction false} AttachmentPositionsIncreasing(parts: seq<StreamPart>)
    ensures forall k, l :: 0 <= k < l < |AttachmentPositions(parts)| ==>
      AttachmentPositions(parts)[k] < AttachmentPositions(parts)[l]
    decreases |parts|
  {
    if parts != [] {
      var tail := parts[1..];
      AttachmentPositionsIncreasing(tail);
      var rest := AttachmentPositions(tail);
      var h := if IsAttachmentField(parts[0].formName) then 1 else 0;
      var idx := AttachmentPositions(parts);
      forall k, l | 0 <= k < l < |idx|
        ensures idx[k] < idx[l]
      {
        assert idx[l] == rest[l - h] + 1;
        if k >= h {
          assert idx[k] == rest[k - h] + 1;
        }
      }
    }
  }

  /** Every attachment part's position is listed. */
  lemma {:induction false} AttachmentPositionsComplete(parts: seq<StreamPart>)
    ensures forall i :: 0 <= i < |parts| && IsAttachmentField(parts[i].formName) ==>
      i in AttachmentPositions(parts)
    decreases |parts|
  {
    if parts != [] {
      var tail := parts[1..];
      AttachmentPositionsComplete(tail);
      var rest := AttachmentPositions(tail);
      var h := if IsAttachmentField(parts[0].formName) then 1 else 0;
      var idx := AttachmentPositions(parts);
      forall i | 0 <= i < |parts| && IsAttachmentField(parts[i].formName)
        ensures i in idx
      {
        if i == 0 {
          assert idx[0] == 0;
        } else {
          assert tail[i - 1] == parts[i];
          var k :| 0 <= k < |rest| && rest[k] == i - 1;
          assert idx[h + k] == i;
        }
      }
    }
  }

  /** Inserting a part with any other form name anywhere changes none of the
      three fields. */
  lemma {:induction false} OtherPartsIgnored(ps: PartSet, before: seq<StreamPart>, p: StreamPart, after: seq<StreamPart>)
    requires p.formName != "html" && p.formName != "css" && !IsAttachmentField(p.formName)
    ensures Fold(ps, before + [p] + after) == Fold(ps, before + after)
    decreases |before|
  {
    if before == [] {
      assert before + [p] + after == [p] + after && before + after == after;
      assert ([p] + after)[1..] == after;
      assert Classify(ps, p) == ps;
    } else {
      assert (before + [p] + after)[1..] == before[1..] + [p] + after;
      assert (before + after)[1..] == before[1..] + after;
      OtherPartsIgnored(Classify(ps, before[0]), before[1..], p, after);
    }
  }

  /** The ingestion outcome for a stream whose parts all save and which ends
      in `io.EOF`: 400 "No html file provided." when there is no `html`
      part; otherwise the last `html` and `css` file names (every saved part
      has one), the default stylesheet when there is no `css` part, and the
      attachment file names in stream order. */
  lemma IngestComplete(parts: seq<StreamPart>)
    requires NoSaveFailure(parts)
    ensures var r := Ingest(parts, Eof);
      (NoneNamed(parts, "html") ==> r == Failure(NewBadRequestError(NoHtmlMessage, None))) &&
      (forall i :: LastNamed(parts, "html", i) ==>
         r.Success? && r.value.html == parts[i].fileName &&
         r.value.attachments == AttachmentNames(parts) &&
         (NoneNamed(parts, "css") ==> r.value.css == DefaultStylesheetPath) &&
         (forall j :: LastNamed(parts, "css", j) ==> r.value.css == parts[j].fileName))
  {
    DrainWithoutFailures(EmptyPartSet, parts, Eof);
    FoldLastWins(EmptyPartSet, parts, "html");
    FoldLastWins(EmptyPartSet, parts, "css");
    FoldAttachments(EmptyPartSet, parts);
  }

  /** A failing save ends ingestion with 500 "Failed to process request.",
      keeping the save error as the cause; parts after it are never read. */
  lemma IngestSaveFailure(parts: seq<StreamPart>, end: Err, k: nat, later: seq<StreamPart>, end2: Err)
    requires k < |parts| && parts[k].saveErr.Some? && NoSaveFailure(parts[..k])
    ensures Ingest(parts, end) == Failure(NewInternalError(GenericFailureMessage, parts[k].saveErr))
    ensures Ingest(parts[..k + 1] + later, end2) == Ingest(parts, end)
  {
    DrainStopsAtSaveFailure(EmptyPartSet, parts, end, k);
    assert (parts[..k + 1] + later)[..k] == parts[..k];
    DrainStopsAtSaveFailure(EmptyPartSet, parts[..k + 1] + later, end2, k);
  }

  /** A read error other than `io.EOF` ends ingestion with that very error. */
  lemma IngestReadError(parts: seq<StreamPart>, end: Err)
    requires NoSaveFailure(parts) && end != Eof
    ensures Ingest(parts, end) == Failure(end)
  {
    DrainWithoutFailures(EmptyPartSet, parts, end);
  }

  /** The part loop stops either at the stream's own end or with an
      internal error carrying the generic message. */
  lemma {:induction false} DrainStop(ps: PartSet, parts: seq<StreamPart>, end: Err)
    ensures var d := Drain(ps, parts, end);
      d.stop.Some? ==> d.stop.value == end ||
                       (d.stop.value.App? && d.stop.value.app.statusCode == 500 &&
                        d.stop.value.app.message == GenericFailureMessage)
    decreases |parts|
  {
    if parts != [] && parts[0].saveErr.None? {
      DrainStop(Classify(ps, parts[0]), parts[1..], end);
    }
  }

  /** Ingestion fails only with the stream's read error, a 500 carrying the
      generic message, or 400 "No html file provided.". */
  lemma IngestErrors(parts: seq<StreamPart>, end: Err)
    ensures var r := Ingest(parts, end);
      r.Failure? ==> r.error == end || r.error == NewBadRequestError(NoHtmlMessage, None) ||
                     (r.error.App? && r.error.app.statusCode == 500 && r.error.app.message == GenericFailureMessage)
  {
    DrainStop(EmptyPartSet, parts, end);
  }

  // ---------------------------------------------------------------------
  // The part reader and the part processor.

  /** The multipart reader: the parts in order, then `end` (`io.EOF` or a
      read error) once they are exhausted. */
  class PartReader {
    const parts: seq<StreamPart>
    const end: Err
    var next: nat

    ghost predicate Valid()
      reads this
    {
      next <= |parts|
    }

    /** The parts not yet returned. */
    ghost function Remaining(): seq<StreamPart>
      reads this
      requires Valid()
    {
      parts[next..]
    }

    constructor (parts: seq<StreamPart>, end: Err)
      ensures Valid() && this.parts == parts && this.end == end && next == 0
    {
      this.parts := parts;
      this.end := end;
      next := 0;
    }

    /** `NextPart`. */
    method NextPart() returns (r: Result<StreamPart, Err>)
      requires Valid()
      modifies this
      ensures Valid()
      ensures old(next) < |parts| ==> r == Success(parts[old(next)]) && next == old(next) + 1
      ensures old(next) == |parts| ==> r == Failure(end) && next == old(next)
    {
      if next < |parts| {
        r := Success(parts[next]);
        next := next + 1;
      } else {
        r := Failure(end);
      }
    }
  }

  /** `PartProcessor`: the reader and the three fields it fills. */
  class PartProcessor {
    const reader: PartReader
    var htmlFilename: string
    var cssFilename: string
    var attachmentFilenames: seq<string>

    function State(): PartSet
      reads this
    {
      PartSet(htmlFilename, cssFilename, attachmentFilenames)
    }

    constructor (reader: PartReader)
      ensures this.reader == reader && State() == EmptyPartSet
    {
      this.reader := reader;
      htmlFilename, cssFilename, attachmentFilenames := "", "", [];
    }

    /** `ProcessPart`: reads one part, saves it, then classifies it. */
    method ProcessPart() returns (err: Option<Err>)
      requires reader.Valid()
      modifies this, reader
      ensures reader.Valid()
      ensures old(reader.next) == |reader.parts| ==>
        err == Some(reader.end) && reader.next == old(reader.next) && State() == old(State())
      ensures old(reader.next) < |reader.parts| ==> reader.next == old(reader.next) + 1
      ensures old(reader.next) < |reader.parts| && reader.parts[old(reader.next)].saveErr.Some? ==>
        err == Some(NewInternalError(GenericFailureMessage, reader.parts[old(reader.next)].saveErr)) &&
        State() == old(State())
      ensures old(reader.next) < |reader.parts| && reader.parts[old(reader.next)].saveErr.None? ==>
        err == None && State() == Classify(old(State()), reader.parts[old(reader.next)])
    {
      var part := reader.NextPart();
      if part.Failure? {
        return Some(part.error);
      }
      var p := part.value;
      if p.saveErr.Some? {
        return Some(NewInternalError(GenericFailureMessage, p.saveErr));
      }
      if p.formName == "html" {
        htmlFilename := p.fileName;
      } else if p.formName == "css" {
        cssFilename := p.fileName;
      } else if HasPrefix(p.formName, "attachment.") || HasPrefix(p.formName, "file.") {
        attachmentFilenames := attachmentFilenames + [p.fileName];
      }
      return None;
    }

    /** `ProcessParts`: processes parts until `io.EOF` or the first error,
        then requires an HTML file and defaults the stylesheet. The result
        and the fields are those of `Drain` and `Finish`. */
    method ProcessParts() returns (err: Option<Err>)
      requires reader.Valid()
      modifies this, reader
      ensures reader.Valid()
      ensures var d := Drain(old(State()), old(reader.Remaining()), reader.end);
        (Finish(d).Failure? ==> err == Some(Finish(d).error) && State() == d.state) &&
        (Finish(d).Success? ==> err == None && State() == Finish(d).value)
    {
      ghost var goal := Drain(State(), reader.Remaining(), reader.end);
      while true
        invariant reader.Valid()
        invariant Drain(State(), reader.Remaining(), reader.end) == goal
        decreases |reader.parts| - reader.next
      {
        ghost var before, rest := State(), reader.Remaining();
        err := ProcessPart();
        if err == Some(Eof) {
          assert rest == [];
          break;
        }
        if err.Some? {
          assert goal == Drained(before, err);
          return;
        }
        assert rest[1..] == reader.Remaining();
      }

      if htmlFilename == "" {
        return Some(NewBadRequestError(NoHtmlMessage, None));
      }
      if cssFilename == "" {
        cssFilename := DefaultStylesheetPath;
      }
      return None;
    }
  }

  // ---------------------------------------------------------------------
  // The use case.

  /** The request made of the renderer. */
  datatype RunnerCall = RunnerCall(workDir: string, html: string, css: string, attachments: seq<string>)

  /** What `generatePDFToWriter` returns, whom it asked to render, and what
      was written to the response. */
  datatype Generation = Generation(err: Option<Err>, call: Option<RunnerCall>, written: seq<byte>)

  /** `generatePDFToWriter`, as a function of the outcomes it observes:
      creating the workspace, opening it as a root, the part stream, and
      the renderer. */
  function Generate(mkdirTemp: Result<string, Err>, openRoot: Option<Err>, parts: seq<StreamPart>, end: Err,
                    runner: RunnerCall -> RunOutcome): Generation
  {
    match mkdirTemp
    case Failure(e) => Generation(Some(NewInternalError(GenericFailureMessage, Some(e))), None, [])
    case Success(workDir) =>
      if openRoot.Some? then Generation(Some(NewInternalError(GenericFailureMessage, openRoot)), None, [])
      else match Ingest(parts, end)
        case Failure(e) => Generation(Some(e), None, [])
        case Success(ps) =>
          var call := RunnerCall(workDir, ps.html, ps.css, ps.attachments);
          var out := runner(call);
          Generation(if out.err.Some? then Some(NewInternalError(GenerationFailedMessage, out.err)) else None,
                     Some(call), out.output)
  }

  /** The part of `generatePDFToWriter` that runs once the workspace exists
      and before its deferred removal. */
  method RunInWorkspace(workDir: string, openRoot: Option<Err>, reader: PartReader,
                        runner: RunnerCall -> RunOutcome)
    returns (err: Option<Err>, call: Option<RunnerCall>, written: seq<byte>)
    requires reader.Valid() && reader.next == 0
    modifies reader
    ensures Generation(err, call, written) == Generate(Success(workDir), openRoot, reader.parts, reader.end, runner)
  {
    call, written := None, [];
    if openRoot.Some? {
      return Some(NewInternalError(GenericFailureMessage, openRoot)), call, written;
    }
    var pp := new PartProcessor(reader);
    assert reader.Remaining() == reader.parts;
    err := pp.ProcessParts();
    if err.Some? {
      return;
    }
    call := Some(RunnerCall(workDir, pp.htmlFilename, pp.cssFilename, pp.attachmentFilenames));
    var out := runner(call.value);
    written := out.output;
    if out.err.Some? {
      return Some(NewInternalError(GenerationFailedMessage, out.err)), call, written;
    }
    return None, call, written;
  }

  /** `generatePDFToWriter`: creates the workspace, schedules its removal,
      and runs the rest. Once created, the workspace is removed on every
      path: success, bad request, save or read failure, renderer failure. */
  method GeneratePDFToWriter(mkdirTemp: Result<string, Err>, openRoot: Option<Err>, reader: PartReader,
                             runner: RunnerCall -> RunOutcome)
    returns (err: Option<Err>, call: Option<RunnerCall>, written: seq<byte>,
             ghost workspaceCreated: bool, ghost workspaceRemoved: bool)
    requires reader.Valid() && reader.next == 0
    modifies reader
    ensures Generation(err, call, written) == Generate(mkdirTemp, openRoot, reader.parts, reader.end, runner)
    ensures workspaceCreated <==> mkdirTemp.Success?
    ensures workspaceCreated ==> workspaceRemoved
  {
    workspaceCreated, workspaceRemoved := false, false;
    if mkdirTemp.Failure? {
      return Some(NewInternalError(GenericFailureMessage, Some(mkdirTemp.error))), None, [],
             workspaceCreated, workspaceRemoved;
    }
    var workDir := mkdirTemp.value;
    workspaceCreated := true;
    err, call, written := RunInWorkspace(workDir, openRoot, reader, runner);
    workspaceRemoved := true;  // the deferred os.RemoveAll(workDir)
  }

  // ---------------------------------------------------------------------
  // Properties of the use case.

  /** With the workspace created and opened, a stream whose parts all save,
      which ends in `io.EOF` and has no `html` part, is answered 400 "No
      html file provided." and the renderer is never asked. */
  lemma NoHtmlNoRender(workDir: string, parts: seq<StreamPart>, runner: RunnerCall -> RunOutcome)
    requires NoSaveFailure(parts)
    requires NoneNamed(parts, "html")
    ensures Generate(Success(workDir), None, parts, Eof, runner) ==
            Generation(Some(NewBadRequestError(NoHtmlMessage, None)), None, [])
  {
    IngestComplete(parts);
  }

  /** A renderer failure becomes 500 "PDF generation failed." with the
      renderer's error as its cause; whatever it wrote stays written. */
  lemma RunnerFailureIsInternal(mkdirTemp: Result<string, Err>, openRoot: Option<Err>, parts: seq<StreamPart>, end: Err,
                                runner: RunnerCall -> RunOutcome)
    requires Generate(mkdirTemp, openRoot, parts, end, runner).call.Some?
    ensures var g := Generate(mkdirTemp, openRoot, parts, end, runner);
      var out := runner(g.call.value);
      g.written == out.output &&
      (out.err.Some? ==> g.err == Some(App(AppError(500, GenerationFailedMessage, out.err)))) &&
      (out.err.None? ==> g.err.None?)
  {
  }

  /** The renderer is asked only after ingestion succeeded, with the HTML
      file set and the stylesheet never empty. */
  lemma RenderOnlyAfterIngest(mkdirTemp: Result<string, Err>, openRoot: Option<Err>, parts: seq<StreamPart>, end: Err,
                              runner: RunnerCall -> RunOutcome)
    ensures var g := Generate(mkdirTemp, openRoot, parts, end, runner);
      g.call.Some? <==> mkdirTemp.Success? && openRoot.None? && Ingest(parts, end).Success?
    ensures var g := Generate(mkdirTemp, openRoot, parts, end, runner);
      g.call.Some? ==> g.call.value.html != "" && g.call.value.css != "" &&
                       g.call.value.workDir == mkdirTemp.value
  {
  }

  /** A stream holding only a `css` file part is rejected with 400 "No html
      file provided." and the renderer is never asked. */
  lemma CssOnlySample(workDir: string, runner: RunnerCall -> RunOutcome)
    ensures Generate(Success(workDir), None, [Part("css", "css.txt", None)], Eof, runner) ==
            Generation(Some(NewBadRequestError(NoHtmlMessage, None)), None, [])
  {
    var parts: seq<StreamPart> := [Part("css", "css.txt", None)];
    assert NoneNamed(parts, "html");
    NoHtmlNoRender(workDir, parts, runner);
  }

  /** A stream holding only an `html` file part renders that file with the
      default stylesheet and no attachments. */
  lemma HtmlOnlySample(workDir: string, runner: RunnerCall -> RunOutcome)
    ensures Generate(Success(workDir), None, [Part("html", "html.txt", None)], Eof, runner).call ==
            Some(RunnerCall(workDir, "html.txt", DefaultStylesheetPath, []))
  {
    var parts: seq<StreamPart> := [Part("html", "html.txt", None)];
    assert LastNamed(parts, "html", 0) && NoneNamed(parts, "css");
    assert !IsAttachmentField("html") by {
      assert !HasPrefix("html", "attachment.") && !HasPrefix("html", "file.");
    }
    assert AttachmentNames(parts) == [];
    IngestComplete(parts);
  }

  /** An `html` part followed by an `attachment.invoice` and a `file.terms`
      file part, in either order: the renderer receives both attachment
      names, in the order the parts arrived. */
  lemma AttachmentSample(workDir: string, runner: RunnerCall -> RunOutcome, invoiceFirst: bool)
    ensures var invoice := Part("attachment.invoice", "invoice.pdf", None);
      var terms := Part("file.terms", "terms.txt", None);
      var parts: seq<StreamPart> :=
        [Part("html", "html.txt", None)] + (if invoiceFirst then [invoice, terms] else [terms, invoice]);
      Generate(Success(workDir), None, parts, Eof, runner).call ==
      Some(RunnerCall(workDir, "html.txt", DefaultStylesheetPath,
                      if invoiceFirst then ["invoice.pdf", "terms.txt"] else ["terms.txt", "invoice.pdf"]))
  {
    var invoice := Part("attachment.invoice", "invoice.pdf", None);
    var terms := Part("file.terms", "terms.txt", None);
    var tail: seq<StreamPart> := if invoiceFirst then [invoice, terms] else [terms, invoice];
    var parts: seq<StreamPart> := [Part("html", "html.txt", None)] + tail;
    assert LastNamed(parts, "html", 0) && NoneNamed(parts, "css");
    assert !IsAttachmentField("html") by {
      assert !HasPrefix("html", "attachment.") && !HasPrefix("html", "file.");
    }
    assert HasPrefix("attachment.invoice", "attachment.") && HasPrefix("file.terms", "file.");
    assert AttachmentNames(parts) == AttachmentNames(tail) by {
      assert parts[1..] == tail;
    }
    assert IsAttachmentField(tail[0].formName) && IsAttachmentField(tail[1].formName);
    assert AttachmentNames(tail) == [tail[0].fileName, tail[1].fileName] by {
      assert tail[1..][1..] == [];
      assert AttachmentNames(tail[1..]) == [tail[1].fileName];
    }
    IngestComplete(parts);
  }

  /** A renderer that fails on an `html`-only stream gives 500 "PDF
      generation failed." with the renderer's error as the cause. */
  lemma RunnerErrorSample(workDir: string, runner: RunnerCall -> RunOutcome, boom: Err)
    requires runner(RunnerCall(workDir, "html.txt", DefaultStylesheetPath, [])).err == Some(boom)
    ensures Generate(Success(workDir), None, [Part("html", "html.txt", None)], Eof, runner).err ==
            Some(App(AppError(500, GenerationFailedMessage, Some(boom))))
  {
    HtmlOnlySample(workDir, runner);
    RunnerFailureIsInternal(Success(workDir), None, [Part("html", "html.txt", None)], Eof, runner);
  }

  /** When the request has no stylesheet, the sandbox's `--stylesheet`
      argument names exactly the path where the default stylesheet is bound. */
  lemma DefaultStylesheetIsBound(r: WeasyprintRunner, workDir: string, html: string, attachments: seq<string>)
    ensures var a := SandboxArgs(r, workDir, html, DefaultStylesheetPath, attachments);
      a[37] == DefaultStylesheetPath && a[23] == DefaultStylesheetPath && a[22] == StylesheetSource(r)
  {
    SandboxShape(r, workDir, html, DefaultStylesheetPath, attachments);
    var a := SandboxArgs(r, workDir, html, DefaultStylesheetPath, attachments);
    assert a[21..24][2] == a[23] && a[21..24][1] == a[22];
    assert a[32..38][5] == a[37];
  }
}
