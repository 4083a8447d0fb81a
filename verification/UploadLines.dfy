/** What the statuses published for the helper's runs say about the lines that it printed. */
module UploadLines {
  import opened Sequences
  import opened UploadRetry

  /** The lines by which the helper tells how it went. */
  predicate IsStatusLine(line: string) {
    || line == "Uploaded"
    || line == "UploadFailure" || line == "PermissionDenied" || line == "BadMessage" || line == "NotSupportedOperation"
  }

  function StatusLines(lines: seq<string>): seq<string> {
    if lines == [] then []
    else
      var last := lines[|lines| - 1];
      StatusLines(lines[..|lines| - 1]) + if IsStatusLine(last) then [last] else []
  }

  /** The helper reports success if "Uploaded" is the last of these lines. */
  predicate EndsWithUploaded(lines: seq<string>) {
    StatusLines(lines) != [] && StatusLines(lines)[|StatusLines(lines)| - 1] == "Uploaded"
  }

  /** One status for each of `statusLines`, in order: Uploaded for "Uploaded", UploadFailure for the others. */
  predicate Tells(log: seq<LogStatus>, statusLines: seq<string>) {
    && |log| == |statusLines|
    && forall k :: 0 <= k < |log| ==> log[k] == if statusLines[k] == "Uploaded" then Uploaded else UploadFailure
  }

  lemma RecogniseTells(line: string)
    ensures Recognise(line) ==
            if !IsStatusLine(line) then [] else if line == "Uploaded" then [Uploaded] else [UploadFailure]
  {}

  lemma TellsSnoc(log: seq<LogStatus>, statusLines: seq<string>, status: LogStatus, line: string)
    requires Tells(log, statusLines) && status == if line == "Uploaded" then Uploaded else UploadFailure
    ensures Tells(log + [status], statusLines + [line])
  {}

  /** A run's statuses are the outcomes that its lines tell. */
  lemma {:induction false} RunTells(lines: seq<string>)
    ensures Tells(Recognised(lines), StatusLines(lines))
  {
    if lines == [] {
    } else {
      var init, last := lines[..|lines| - 1], lines[|lines| - 1];
      RunTells(init);
      RecogniseTells(last);
      if IsStatusLine(last) {
        TellsSnoc(Recognised(init), StatusLines(init), Recognise(last)[0], last);
      } else {
        assert StatusLines(lines) == StatusLines(init);
        assert Recognised(lines) == Recognised(init);
      }
    }
  }

  lemma SucceedsIff(lines: seq<string>)
    ensures Succeeds(lines) <==> EndsWithUploaded(lines)
  {
    RunTells(lines);
  }

  function StatusLinesOf(output: nat -> seq<string>): nat -> seq<string> {
    (j: nat) => StatusLines(output(j))
  }

  /** The status lines of the first `runs` runs, in order. */
  function AllStatusLines(output: nat -> seq<string>, runs: nat): seq<string> {
    Collect(StatusLinesOf(output), runs)
  }

  lemma TellsAppend(log: seq<LogStatus>, statusLines: seq<string>, log': seq<LogStatus>, statusLines': seq<string>)
    requires Tells(log, statusLines) && Tells(log', statusLines')
    ensures Tells(log + log', statusLines + statusLines')
  {}

  /** The loop publishes one status for each status line that its runs print, in order, and each tells how it went. */
  lemma {:induction false} LogTells(output: nat -> seq<string>, runs: nat)
    ensures Tells(Log(output, runs), AllStatusLines(output, runs))
  {
    if runs == 0 {
    } else {
      LogTells(output, runs - 1);
      RunTells(output(runs - 1));
      TellsAppend(Log(output, runs - 1), AllStatusLines(output, runs - 1),
                  Recognised(output(runs - 1)), StatusLines(output(runs - 1)));
    }
  }

  /** With one status line per run, the log has one status per run, which tells how the run went. */
  lemma OneStatusPerRun(output: nat -> seq<string>, runs: nat)
    requires forall j: nat :: j < runs ==> |StatusLines(output(j))| == 1
    ensures |Log(output, runs)| == runs
    ensures forall j: nat :: j < runs ==>
              Log(output, runs)[j] == if StatusLines(output(j))[0] == "Uploaded" then Uploaded else UploadFailure
  {
    forall j: nat | j < runs ensures |StatusLinesOf(output)(j)| == 1 {}
    CollectOneEach(StatusLinesOf(output), runs);
    LogTells(output, runs);
  }

  /** What the loop publishes ends in Uploaded exactly when the last status line of one of the runs it is allowed is
      "Uploaded". */
  lemma EndsInUploaded(maxRetries: nat, output: nat -> seq<string>, runs: nat)
    requires maxRetries <= UINT_MAX && FirstStop(maxRetries, output, runs)
    ensures Reported(Log(output, runs)) == Uploaded <==>
            exists j: nat :: (maxRetries < UINT_MAX ==> j <= maxRetries) && EndsWithUploaded(output(j))
  {
    AllowedSuccess(maxRetries, output, runs);
    forall j: nat ensures Succeeds(output(j)) <==> EndsWithUploaded(output(j)) {
      SucceedsIff(output(j));
    }
  }

  /** The loop ends exactly at the first run whose last status line is "Uploaded", or after maxRetries + 1 runs. */
  lemma RunsUntilUploaded(maxRetries: nat, output: nat -> seq<string>, runs: nat)
    requires maxRetries <= UINT_MAX && FirstStop(maxRetries, output, runs)
    ensures runs > 0 && forall j: nat :: j + 1 < runs ==> !EndsWithUploaded(output(j))
    ensures maxRetries < UINT_MAX ==> runs <= maxRetries + 1
    ensures EndsWithUploaded(output(runs - 1)) || (maxRetries < UINT_MAX && runs == maxRetries + 1)
  {
    RunsUntilStop(maxRetries, output, runs);
    forall j: nat ensures Succeeds(output(j)) <==> EndsWithUploaded(output(j)) {
      SucceedsIff(output(j));
    }
  }
}
