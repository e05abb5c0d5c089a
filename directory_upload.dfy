/**
 * upload_directory.py: the batch uploader and its main's option parser.
 */
module DirectoryUpload {
  import opened Wrappers
  import opened Http
  import opened CliOptions
  import opened PaperUpload
  import opened Json

  // ---------------------------------------------------------------------------
  // Option parsing: a while loop over an index that consumes a recognised flag
  // together with its value, and any other token alone.

  /** The options main passes on; `delay` keeps the raw token (None: the default 1.0). */
  datatype DirectoryOptions = DirectoryOptions(field: Option<string>, topic: Option<string>, delay: Option<string>, pattern: string)

  const DefaultPattern: string := "*.pdf"

  predicate Recognised(token: string) {
    token == "--field" || token == "--topic" || token == "--delay" || token == "--pattern"
  }

  /**
   * The steps the parser takes over `args`: every token is consumed exactly
   * once and in order; only recognised flags are assigned; a skipped token is
   * either unrecognised or the last one.
   */
  function Scan(args: seq<string>): (steps: seq<Step>)
    ensures Consumed(steps) == args
    ensures forall s :: s in steps && s.Assign? ==> Recognised(s.flag)
    ensures forall k :: 0 <= k < |steps| - 1 && steps[k].Skip? ==> !Recognised(steps[k].token)
    ensures |steps| <= |args|
    decreases |args|
  {
    if args == [] then []
    else if Recognised(args[0]) && |args| >= 2 then
      var rest := Scan(args[2..]);
      ConsumedCons(Assign(args[0], args[1]), rest);
      assert args == [args[0], args[1]] + args[2..];
      [Assign(args[0], args[1])] + rest
    else
      var rest := Scan(args[1..]);
      ConsumedCons(Skip(args[0]), rest);
      assert args == [args[0]] + args[1..];
      [Skip(args[0])] + rest
  }

  /** One step of the scan at index i of argv. */
  lemma ScanFrom(argv: seq<string>, i: nat)
    requires i < |argv|
    ensures Recognised(argv[i]) && i + 1 < |argv| ==>
              Scan(argv[i..]) == [Assign(argv[i], argv[i + 1])] + Scan(argv[i + 2..])
    ensures !(Recognised(argv[i]) && i + 1 < |argv|) ==>
              Scan(argv[i..]) == [Skip(argv[i])] + Scan(argv[i + 1..])
  {
    var args := argv[i..];
    assert args[0] == argv[i];
    if i + 1 < |argv| {
      assert args[1] == argv[i + 1];
      assert args[2..] == argv[i + 2..];
    }
    assert args[1..] == argv[i + 1..];
  }

  /**
   * Moving one step from the steps still to take to those taken. Stated on its
   * own so that the parser loop does not reason about concatenation in the
   * context of its whole body.
   */
  lemma Advance(all: seq<Step>, done: seq<Step>, todo: seq<Step>, step: Step, rest: seq<Step>)
    requires all == done + todo && todo == [step] + rest
    ensures all == (done + [step]) + rest
  {
  }

  /** The options a run of steps leaves: each option's last assignment, or its default. */
  function OptionsOf(steps: seq<Step>): DirectoryOptions {
    DirectoryOptions(LastAssigned(steps, "--field"), LastAssigned(steps, "--topic"),
                     LastAssigned(steps, "--delay"), LastAssigned(steps, "--pattern").GetOr(DefaultPattern))
  }

  /** The loop body's effect of one step on the four option variables. */
  function Apply(opts: DirectoryOptions, step: Step): DirectoryOptions {
    match step
    case Skip(_) => opts
    case Assign(flag, value) =>
      if flag == "--field" then opts.(field := Some(value))
      else if flag == "--topic" then opts.(topic := Some(value))
      else if flag == "--delay" then opts.(delay := Some(value))
      else if flag == "--pattern" then opts.(pattern := value)
      else opts
  }

  lemma OptionsSnoc(steps: seq<Step>, step: Step)
    ensures OptionsOf(steps + [step]) == Apply(OptionsOf(steps), step)
  {
    LastAssignedSnoc(steps, step, "--field");
    LastAssignedSnoc(steps, step, "--topic");
    LastAssignedSnoc(steps, step, "--delay");
    LastAssignedSnoc(steps, step, "--pattern");
  }

  /**
   * Parses argv (argv[0] the script, argv[1] the directory; main has already
   * stopped with a usage message when argv is shorter). The index strictly
   * increases; each option ends up with the value of its last assignment.
   */
  method ParseOptions(argv: seq<string>) returns (opts: DirectoryOptions)
    requires |argv| >= 2
    ensures opts.field == LastAssigned(Scan(argv[2..]), "--field")
    ensures opts.topic == LastAssigned(Scan(argv[2..]), "--topic")
    ensures opts.delay == LastAssigned(Scan(argv[2..]), "--delay")
    ensures opts.pattern == LastAssigned(Scan(argv[2..]), "--pattern").GetOr(DefaultPattern)
  {
    var field, topic, delay: Option<string> := None, None, None;
    var pattern := DefaultPattern;
    ghost var done: seq<Step> := [];
    var i := 2;
    while i < |argv|
      invariant 2 <= i <= |argv|
      invariant Scan(argv[2..]) == done + Scan(argv[i..])
      invariant DirectoryOptions(field, topic, delay, pattern) == OptionsOf(done)
      decreases |argv| - i
    {
      var arg := argv[i];
      var step: Step;
      ghost var todo := Scan(argv[i..]);
      ScanFrom(argv, i);
      if arg == "--field" && i + 1 < |argv| {
        field := Some(argv[i + 1]);
        step := Assign(arg, argv[i + 1]);
        i := i + 2;
      } else if arg == "--topic" && i + 1 < |argv| {
        topic := Some(argv[i + 1]);
        step := Assign(arg, argv[i + 1]);
        i := i + 2;
      } else if arg == "--delay" && i + 1 < |argv| {
        delay := Some(argv[i + 1]);
        step := Assign(arg, argv[i + 1]);
        i := i + 2;
      } else if arg == "--pattern" && i + 1 < |argv| {
        pattern := argv[i + 1];
        step := Assign(arg, argv[i + 1]);
        i := i + 2;
      } else {
        step := Skip(arg);
        i := i + 1;
      }
      ghost var rest := Scan(argv[i..]);
      assert todo == [step] + rest;
      Advance(Scan(argv[2..]), done, todo, step, rest);
      OptionsSnoc(done, step);
      done := done + [step];
    }
    assert done == Scan(argv[2..]);
    opts := DirectoryOptions(field, topic, delay, pattern);
  }

  // ---------------------------------------------------------------------------
  // The batch: one collecting-mode upload per matched file, in order, with a
  // pause between consecutive uploads.

  /**
   * A matched file and what its upload meets: whether the file still exists
   * when it is uploaded, and the endpoint's reply.
   */
  datatype MatchedFile = MatchedFile(path: PdfPath, existsAtUpload: bool, reply: Reply<UploadBody>)

  /**
   * What the filesystem answers about the directory argument; `matched` is
   * the pattern's matches in the order `sorted` gives them.
   */
  datatype Directory = Directory(present: bool, isDir: bool, matched: seq<MatchedFile>)

  /** One entry of results["uploads"]; `paperId` is Absent when the entry has no paper_id key. */
  datatype FileRecord = FileRecord(filename: string, paperId: JsonText, status: string)

  /** The results dict; `uploads` is None when the dict has no "uploads" key. */
  datatype Summary = Summary(total: nat, success: nat, failed: nat, uploads: Option<seq<FileRecord>>)

  datatype BatchError =
    | DirectoryNotFound(directory: string)  // ValueError("Directory not found")
    | NotADirectory(directory: string)      // ValueError("Not a directory")
    | IncompleteReply(filename: string)     // result['data']['paper_id'] or ['status'] failed

  /** How the loop treats one file's result. */
  datatype Verdict = Succeeded(paperId: JsonText) | Failed | Unreadable

  /**
   * The loop's reading of one upload result: a truthy result is a success,
   * whose data.paper_id and data.status are then indexed (a null value is
   * read, a missing key raises); anything else is a failure.
   */
  function Read(outcome: Option<UploadBody>): Verdict {
    match outcome
    case Some(TruthyBody(data)) =>
      if data.Some? && !data.value.paperId.Absent? && !data.value.status.Absent? then Succeeded(data.value.paperId)
      else Unreadable
    case _ => Failed
  }

  function VerdictOf(f: MatchedFile): Verdict {
    Read(Collected(f.existsAtUpload, f.reply))
  }

  /**
   * A file succeeds exactly when its upload returned a body with a paper id
   * and a status; it fails exactly when the upload returned nothing or a falsy
   * body; every other body stops the loop.
   */
  lemma VerdictMeaning(f: MatchedFile)
    ensures VerdictOf(f).Succeeded? <==> (Collected(f.existsAtUpload, f.reply).Some? &&
                                          WellFormed(Collected(f.existsAtUpload, f.reply).value))
    ensures VerdictOf(f).Succeeded? ==> VerdictOf(f).paperId == Collected(f.existsAtUpload, f.reply).value.data.value.paperId
    ensures VerdictOf(f).Succeeded? ==> !VerdictOf(f).paperId.Absent?
    ensures VerdictOf(f).Failed? <==> Collected(f.existsAtUpload, f.reply) in {None, Some(FalsyBody)}
  {
  }

  function RecordOf(f: MatchedFile): FileRecord {
    match VerdictOf(f)
    case Succeeded(id) => FileRecord(f.path.name, id, "success")
    case _ => FileRecord(f.path.name, Absent, "failed")
  }

  /** One record per file, in file order. */
  function Records(files: seq<MatchedFile>): (r: seq<FileRecord>)
    ensures |r| == |files|
  {
    seq(|files|, k requires 0 <= k < |files| => RecordOf(files[k]))
  }

  /**
   * Each record names its file; it says "success", with a paper_id key
   * holding the reply's value (null included), exactly for a file whose upload
   * succeeded, and "failed", with no paper_id key, otherwise.
   */
  lemma RecordsDescribe(files: seq<MatchedFile>)
    ensures forall k :: 0 <= k < |files| ==> Records(files)[k].filename == files[k].path.name
    ensures forall k :: 0 <= k < |files| ==>
              (Records(files)[k].status == "success" <==> VerdictOf(files[k]).Succeeded?) &&
              (Records(files)[k].status == "success" <==> !Records(files)[k].paperId.Absent?) &&
              (Records(files)[k].status == "success" || Records(files)[k].status == "failed")
    ensures forall k :: 0 <= k < |files| && VerdictOf(files[k]).Succeeded? ==>
              Records(files)[k].paperId == VerdictOf(files[k]).paperId
  {
  }

  function Successes(files: seq<MatchedFile>): nat {
    if files == [] then 0
    else Successes(files[..|files| - 1]) + (if VerdictOf(files[|files| - 1]).Succeeded? then 1 else 0)
  }

  function Failures(files: seq<MatchedFile>): nat {
    if files == [] then 0
    else Failures(files[..|files| - 1]) + (if VerdictOf(files[|files| - 1]).Failed? then 1 else 0)
  }

  predicate Readable(files: seq<MatchedFile>) {
    forall k :: 0 <= k < |files| ==> !VerdictOf(files[k]).Unreadable?
  }

  /** The index of the first file whose result lacks a key the loop reads, or |files|. */
  function FirstUnreadable(files: seq<MatchedFile>): (k: nat)
    ensures k <= |files|
    ensures Readable(files[..k])
    ensures k < |files| ==> VerdictOf(files[k]).Unreadable?
  {
    if files == [] then 0
    else if VerdictOf(files[0]).Unreadable? then 0
    else
      var k := FirstUnreadable(files[1..]);
      assert forall j :: 1 <= j < k + 1 ==> files[j] == files[1..][j - 1];
      k + 1
  }

  /** The metadata each file is uploaded with: its stem as title, no DOI. */
  function MetadataFor(f: MatchedFile, field: Option<string>, topic: Option<string>): Metadata {
    Metadata(Some(f.path.stem), None, field, topic)
  }

  /** The request for one matched file. */
  function FileRequest(apiUrl: string, token: string, f: MatchedFile, field: Option<string>, topic: Option<string>): UploadRequest {
    RequestFor(apiUrl, token, f.path, MetadataFor(f, field, topic))
  }

  /** The requests actually sent for `files`, in order: one per file that still exists. */
  function Requests(apiUrl: string, token: string, files: seq<MatchedFile>, field: Option<string>, topic: Option<string>): (r: seq<UploadRequest>)
    ensures |r| <= |files|
  {
    if files == [] then []
    else
      var f := files[|files| - 1];
      Requests(apiUrl, token, files[..|files| - 1], field, topic)
      + (if f.existsAtUpload then [FileRequest(apiUrl, token, f, field, topic)] else [])
  }

  /** How the spec functions grow when the loop handles file i. */
  lemma Extend(apiUrl: string, token: string, files: seq<MatchedFile>, i: nat, field: Option<string>, topic: Option<string>)
    requires i < |files|
    ensures var f := files[i];
            && Successes(files[..i + 1]) == Successes(files[..i]) + (if VerdictOf(f).Succeeded? then 1 else 0)
            && Failures(files[..i + 1]) == Failures(files[..i]) + (if VerdictOf(f).Failed? then 1 else 0)
            && Records(files[..i + 1]) == Records(files[..i]) + [RecordOf(f)]
            && Requests(apiUrl, token, files[..i + 1], field, topic)
               == Requests(apiUrl, token, files[..i], field, topic)
                  + (if f.existsAtUpload then [FileRequest(apiUrl, token, f, field, topic)] else [])
  {
    assert files[..i + 1][..i] == files[..i];
  }

  /**
   * One file of the loop: the collecting-mode upload titled with the file's
   * stem, then the reading of data.paper_id and data.status from a truthy result.
   */
  method UploadFile(apiUrl: string, token: string, f: MatchedFile, field: Option<string>, topic: Option<string>)
    returns (request: Option<UploadRequest>, verdict: Verdict)
    ensures request == if f.existsAtUpload then Some(FileRequest(apiUrl, token, f, field, topic)) else None
    ensures verdict == VerdictOf(f)
  {
    var outcome;
    request, outcome := UploadCollecting(apiUrl, token, f.path, f.existsAtUpload, MetadataFor(f, field, topic), f.reply);
    verdict := Read(outcome);
  }

  /** A file the loop has read without failing lies before the first unreadable one. */
  lemma PastReadable(files: seq<MatchedFile>, i: nat)
    requires i < |files| && i <= FirstUnreadable(files) && !VerdictOf(files[i]).Unreadable?
    ensures i + 1 <= FirstUnreadable(files)
  {
  }

  /** The loop stops at the first unreadable file. */
  lemma FirstUnreadableAt(files: seq<MatchedFile>, i: nat)
    requires i <= |files| && i <= FirstUnreadable(files)
    requires i < |files| ==> VerdictOf(files[i]).Unreadable?
    ensures FirstUnreadable(files) == i
  {
    var k := FirstUnreadable(files);
    assert forall j :: 0 <= j < k ==> files[..k][j] == files[j];
  }

  /**
   * upload_directory: the directory checks come first and send nothing; an
   * empty match gives zero counts and no "uploads" key; otherwise the matched
   * files go through UploadAll.
   */
  method UploadDirectory(name: string, dir: Directory, apiUrl: string, token: string, field: Option<string>, topic: Option<string>)
    returns (result: Result<Summary, BatchError>, sent: seq<UploadRequest>, pauses: nat)
    ensures !dir.present ==> result == Err(DirectoryNotFound(name)) && sent == [] && pauses == 0
    ensures dir.present && !dir.isDir ==> result == Err(NotADirectory(name)) && sent == [] && pauses == 0
    ensures dir.present && dir.isDir && dir.matched == [] ==>
              result == Ok(Summary(0, 0, 0, None)) && sent == [] && pauses == 0
    ensures dir.present && dir.isDir && dir.matched != [] ==>
              var files := dir.matched;
              var k := FirstUnreadable(files);
              if k == |files| then
                result == Ok(Summary(|files|, Successes(files), Failures(files), Some(Records(files))))
                && sent == Requests(apiUrl, token, files, field, topic)
                && pauses == |files| - 1
              else
                result == Err(IncompleteReply(files[k].path.name))
                && sent == Requests(apiUrl, token, files[..k + 1], field, topic)
                && pauses == k
  {
    if !dir.present {
      return Err(DirectoryNotFound(name)), [], 0;
    }
    if !dir.isDir {
      return Err(NotADirectory(name)), [], 0;
    }
    if dir.matched == [] {
      return Ok(Summary(0, 0, 0, None)), [], 0;
    }
    result, sent, pauses := UploadAll(dir.matched, apiUrl, token, field, topic);
  }

  /**
   * The loop over the matched files: every file is uploaded in order, counted
   * and recorded, with a pause after every file but the last, unless a truthy
   * result lacks data.paper_id or data.status: that lookup raises and ends the
   * batch at that file.
   */
  method UploadAll(files: seq<MatchedFile>, apiUrl: string, token: string, field: Option<string>, topic: Option<string>)
    returns (result: Result<Summary, BatchError>, sent: seq<UploadRequest>, pauses: nat)
    requires files != []
    ensures var k := FirstUnreadable(files);
            if k == |files| then
              result == Ok(Summary(|files|, Successes(files), Failures(files), Some(Records(files))))
              && sent == Requests(apiUrl, token, files, field, topic)
              && pauses == |files| - 1
            else
              result == Err(IncompleteReply(files[k].path.name))
              && sent == Requests(apiUrl, token, files[..k + 1], field, topic)
              && pauses == k
  {
    sent, pauses := [], 0;
    var n := |files|;
    var success, failed := 0, 0;
    var uploads: seq<FileRecord> := [];
    var i := 0;
    while i < n
      invariant 0 <= i <= n
      invariant i <= FirstUnreadable(files)
      invariant success == Successes(files[..i]) && failed == Failures(files[..i])
      invariant uploads == Records(files[..i])
      invariant sent == Requests(apiUrl, token, files[..i], field, topic)
      invariant pauses == if i == n then n - 1 else i
    {
      var f := files[i];
      Extend(apiUrl, token, files, i, field, topic);
      var request, verdict := UploadFile(apiUrl, token, f, field, topic);
      if request.Some? {
        sent := sent + [request.value];
      }
      if verdict.Unreadable? {
        FirstUnreadableAt(files, i);
        return Err(IncompleteReply(f.path.name)), sent, pauses;
      }
      PastReadable(files, i);
      if verdict.Succeeded? {
        success := success + 1;
        uploads := uploads + [FileRecord(f.path.name, verdict.paperId, "success")];
      } else {
        failed := failed + 1;
        uploads := uploads + [FileRecord(f.path.name, Absent, "failed")];
      }
      if i + 1 < n {
        pauses := pauses + 1;
      }
      i := i + 1;
    }
    assert files[..n] == files;
    FirstUnreadableAt(files, n);
    result := Ok(Summary(n, success, failed, Some(uploads)));
  }

  // ---------------------------------------------------------------------------
  // What the batch promises, stated over the specification functions.

  /** On a batch that runs to the end, every file is counted once: success + failed == total. */
  lemma {:induction false} CountsAddUp(files: seq<MatchedFile>)
    requires Readable(files)
    ensures Successes(files) + Failures(files) == |files|
  {
    if files != [] {
      var init := files[..|files| - 1];
      assert forall j :: 0 <= j < |init| ==> init[j] == files[j];
      CountsAddUp(init);
      assert !VerdictOf(files[|files| - 1]).Unreadable?;
    }
  }

  function CountStatus(records: seq<FileRecord>, status: string): nat {
    if records == [] then 0
    else CountStatus(records[..|records| - 1], status) + (if records[|records| - 1].status == status then 1 else 0)
  }

  /** The counters agree with the records: `success` counts the "success" entries, `failed` the "failed" ones. */
  lemma {:induction false} CountersMatchRecords(files: seq<MatchedFile>)
    requires Readable(files)
    ensures CountStatus(Records(files), "success") == Successes(files)
    ensures CountStatus(Records(files), "failed") == Failures(files)
  {
    if files != [] {
      var init := files[..|files| - 1];
      assert forall j :: 0 <= j < |init| ==> init[j] == files[j];
      CountersMatchRecords(init);
      var r := Records(files);
      assert r[..|r| - 1] == Records(init);
      assert !VerdictOf(files[|files| - 1]).Unreadable?;
    }
  }

  /**
   * When every matched file is still there at upload time, exactly one
   * request is sent per file, in file order, titled with the file's stem.
   */
  lemma {:induction false} OneRequestPerFile(apiUrl: string, token: string, files: seq<MatchedFile>, field: Option<string>, topic: Option<string>)
    requires forall k :: 0 <= k < |files| ==> files[k].existsAtUpload
    ensures |Requests(apiUrl, token, files, field, topic)| == |files|
    ensures forall k :: 0 <= k < |files| ==>
              Requests(apiUrl, token, files, field, topic)[k] == FileRequest(apiUrl, token, files[k], field, topic)
  {
    if files != [] {
      var init, last := files[..|files| - 1], files[|files| - 1];
      assert forall j :: 0 <= j < |init| ==> init[j] == files[j];
      OneRequestPerFile(apiUrl, token, init, field, topic);
      var r, ri := Requests(apiUrl, token, files, field, topic), Requests(apiUrl, token, init, field, topic);
      assert r == ri + [FileRequest(apiUrl, token, last, field, topic)];
    }
  }

  /** main's exit status after the batch: 1 when some upload failed; a raised error is only printed. */
  function ExitCode(result: Result<Summary, BatchError>): int {
    if result.Ok? && result.value.failed > 0 then 1 else 0
  }

  /** For a batch that runs to the end, main exits with 0 exactly when every file was uploaded. */
  lemma ExitCodeReflectsFailures(files: seq<MatchedFile>)
    requires files != [] && Readable(files)
    ensures ExitCode(Ok(Summary(|files|, Successes(files), Failures(files), Some(Records(files))))) == 0
            <==> Successes(files) == |files|
  {
    CountsAddUp(files);
  }
}
