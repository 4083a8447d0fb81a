/** The last part of an upload: the helper script is run until it succeeds or the retries are used up. */
module UploadRetry {
  import opened Sequences

  /** LogStatusEnum, the vocabulary of OCPP 2.0.1 Part 2, use case N01. */
  datatype LogStatus =
    BadMessage | Idle | NotSupportedOperation | PermissionDenied | Uploaded | UploadFailure | Uploading | AcceptedCanceled

  const UINT_MAX: nat := UINT_RANGE - 1

  /** The statuses published for a line of the helper's output: one, or none for a line it does not know. */
  function Recognise(line: string): seq<LogStatus> {
    if line == "Uploaded" then [Uploaded]
    else if line in ["UploadFailure", "PermissionDenied", "BadMessage", "NotSupportedOperation"] then [UploadFailure]
    else []
  }

  function Recognised(lines: seq<string>): seq<LogStatus> {
    if lines == [] then [] else Recognised(lines[..|lines| - 1]) + Recognise(lines[|lines| - 1])
  }

  /** A run of the helper succeeds when Uploaded is the last status in its output. */
  predicate Succeeds(lines: seq<string>) {
    Recognised(lines) != [] && Recognised(lines)[|Recognised(lines)| - 1] == Uploaded
  }

  /** What `runs` runs of the helper publish; `output(k)` is what run `k` prints. */
  function Log(output: nat -> seq<string>, runs: nat): seq<LogStatus> {
    if runs == 0 then [] else Log(output, runs - 1) + Recognised(output(runs - 1))
  }

  /** The status that was reported last; Uploading was published before the first run. */
  function Reported(log: seq<LogStatus>): LogStatus {
    if log == [] then Uploading else log[|log| - 1]
  }

  /** The loop condition's part after `runs` runs: `retries` is a 32-bit counter that wraps around. */
  predicate Stops(maxRetries: nat, output: nat -> seq<string>, runs: nat) {
    runs > 0 && (Reported(Log(output, runs)) == Uploaded || runs % UINT_RANGE > maxRetries)
  }

  ghost predicate NoStopBefore(maxRetries: nat, output: nat -> seq<string>, runs: nat) {
    forall k: nat :: k < runs ==> !Stops(maxRetries, output, k)
  }

  ghost predicate FirstStop(maxRetries: nat, output: nat -> seq<string>, runs: nat) {
    Stops(maxRetries, output, runs) && NoStopBefore(maxRetries, output, runs)
  }

  lemma RecognisedSnoc(lines: seq<string>, line: string)
    ensures Recognised(lines + [line]) == Recognised(lines) + Recognise(line)
  {
    assert (lines + [line])[..|lines|] == lines;
  }

  /** As long as no run succeeded, the last status is not Uploaded. */
  lemma {:induction false} ReportedUploaded(output: nat -> seq<string>, runs: nat)
    requires forall j: nat :: j + 1 < runs ==> !Succeeds(output(j))
    ensures Reported(Log(output, runs)) == Uploaded <==> runs > 0 && Succeeds(output(runs - 1))
  {
    if runs == 0 {
    } else {
      ReportedUploaded(output, runs - 1);
      if runs > 1 {
        assert !Succeeds(output(runs - 2));
      }
    }
  }

  lemma StopsAtLast(maxRetries: nat, output: nat -> seq<string>)
    requires maxRetries < UINT_MAX
    ensures Stops(maxRetries, output, maxRetries + 1)
  {}

  lemma StopReason(maxRetries: nat, output: nat -> seq<string>, runs: nat)
    requires Stops(maxRetries, output, runs)
    requires forall j: nat :: j + 1 < runs ==> !Succeeds(output(j))
    ensures runs > 0 && (Succeeds(output(runs - 1)) || runs % UINT_RANGE > maxRetries)
  {
    ReportedUploaded(output, runs);
  }

  /** The loop ends at all if and only if the retries are bounded or some run succeeds. A request
      with `retries` = -1 becomes the bound UINT_MAX, which the wrapping counter never exceeds. */
  lemma TerminatesIff(maxRetries: nat, output: nat -> seq<string>)
    requires maxRetries <= UINT_MAX
    ensures (exists k: nat :: Stops(maxRetries, output, k)) <==>
            (maxRetries < UINT_MAX || exists j: nat :: Succeeds(output(j)))
  {
    if maxRetries < UINT_MAX {
      StopsAtLast(maxRetries, output);
    } else if j: nat :| Succeeds(output(j)) {
      var first := FirstSuccess(output, j);
      ReportedUploaded(output, first + 1);
      assert Stops(maxRetries, output, first + 1);
    } else {
      forall k: nat ensures !Stops(maxRetries, output, k) {
        ReportedUploaded(output, k);
      }
    }
  }

  lemma FirstSuccess(output: nat -> seq<string>, j: nat) returns (first: nat)
    requires Succeeds(output(j))
    ensures first <= j && Succeeds(output(first)) && forall i: nat :: i < first ==> !Succeeds(output(i))
  {
    first := 0;
    while !Succeeds(output(first))
      invariant first <= j && forall i: nat :: i < first ==> !Succeeds(output(i))
      decreases j - first
    {
      first := first + 1;
    }
  }

  /** `static_cast<unsigned int>` of the requested retries, an int32. */
  function AsUnsigned(retries: int): nat
    requires -0x8000_0000 <= retries < 0x8000_0000
  {
    retries % UINT_RANGE
  }

  lemma UnboundedIffMinusOne(retries: int)
    requires -0x8000_0000 <= retries < 0x8000_0000
    ensures AsUnsigned(retries) == UINT_MAX <==> retries == -1
    ensures retries >= 0 ==> AsUnsigned(retries) == retries
    ensures retries < 0 ==> AsUnsigned(retries) == retries + 0x1_0000_0000
  {}

  method ReadLine(line: string, log: seq<LogStatus>) returns (log': seq<LogStatus>)
    ensures log' == log + Recognise(line)
  {
    log' := log;
    if line == "Uploaded" {
      log' := log' + [Uploaded];
    } else if line == "UploadFailure" || line == "PermissionDenied" || line == "BadMessage" || line == "NotSupportedOperation" {
      log' := log' + [UploadFailure];
    }
  }

  /** One run of the helper: every line that is recognised is published. */
  method RunHelper(lines: seq<string>, log: seq<LogStatus>) returns (log': seq<LogStatus>)
    ensures log' == log + Recognised(lines)
  {
    log' := log;
    var i := 0;
    while i < |lines|
      invariant 0 <= i <= |lines|
      invariant log' == log + Recognised(lines[..i])
    {
      RecognisedSnoc(lines[..i], lines[i]);
      assert lines[..i + 1] == lines[..i] + [lines[i]];
      log' := ReadLine(lines[i], log');
      i := i + 1;
    }
    assert lines[..i] == lines;
  }

  /** The retry loop ends at its first stop; RunsUntilStop says where that is. */
  method Retry(maxRetries: nat, output: nat -> seq<string>) returns (runs: nat, log: seq<LogStatus>)
    requires maxRetries <= UINT_MAX
    requires maxRetries < UINT_MAX || exists j: nat :: Succeeds(output(j))
    ensures log == Log(output, runs)
    ensures FirstStop(maxRetries, output, runs)
  {
    ghost var limit := Limit(maxRetries, output);
    var completed := false;
    var retries: nat := 0;
    runs, log := 0, [];
    while !completed && retries <= maxRetries
      invariant AfterRuns(maxRetries, output, runs, retries, log, completed)
      invariant runs <= limit
      decreases limit - runs
    {
      retries, log, completed := RunOnce(maxRetries, output, runs, retries, log);
      runs := runs + 1;
    }
  }

  /** The loop's variables after `runs` runs. */
  ghost predicate AfterRuns(maxRetries: nat, output: nat -> seq<string>, runs: nat,
                            retries: nat, log: seq<LogStatus>, completed: bool)
  {
    && log == Log(output, runs) && retries == runs % UINT_RANGE
    && (completed <==> Stops(maxRetries, output, runs)) && NoStopBefore(maxRetries, output, runs)
    && (!completed ==> retries <= maxRetries)
  }

  /** The body of the loop. */
  method RunOnce(maxRetries: nat, output: nat -> seq<string>, runs: nat, retries: nat, log: seq<LogStatus>)
    returns (retries': nat, log': seq<LogStatus>, completed: bool)
    requires AfterRuns(maxRetries, output, runs, retries, log, false)
    ensures AfterRuns(maxRetries, output, runs + 1, retries', log', completed)
  {
    WrapStep(runs);
    retries' := (retries + 1) % UINT_RANGE;
    log' := RunHelper(output(runs), log);
    completed := false;
    if Reported(log') != Uploaded && retries' <= maxRetries {
      // sleep for the retry interval
    } else {
      completed := true;
    }
  }

  lemma WrapStep(runs: nat)
    ensures (runs % UINT_RANGE + 1) % UINT_RANGE == (runs + 1) % UINT_RANGE
  {}

  lemma Limit(maxRetries: nat, output: nat -> seq<string>) returns (limit: nat)
    requires maxRetries <= UINT_MAX
    requires maxRetries < UINT_MAX || exists j: nat :: Succeeds(output(j))
    ensures Stops(maxRetries, output, limit)
  {
    TerminatesIff(maxRetries, output);
    limit :| Stops(maxRetries, output, limit);
  }

  /** The loop makes min(first successful run, maxRetries + 1) runs. */
  lemma RunsUntilStop(maxRetries: nat, output: nat -> seq<string>, runs: nat)
    requires maxRetries <= UINT_MAX && FirstStop(maxRetries, output, runs)
    ensures runs > 0 && forall j: nat :: j + 1 < runs ==> !Succeeds(output(j))
    ensures maxRetries < UINT_MAX ==> runs <= maxRetries + 1
    ensures Succeeds(output(runs - 1)) || (maxRetries < UINT_MAX && runs == maxRetries + 1)
  {
    NoSuccessBefore(maxRetries, output, runs);
    StopReason(maxRetries, output, runs);
    if maxRetries < UINT_MAX {
      StopsAtLast(maxRetries, output);
    }
  }

  /** What the loop publishes ends in Uploaded exactly when one of the runs it is allowed succeeds. */
  lemma AllowedSuccess(maxRetries: nat, output: nat -> seq<string>, runs: nat)
    requires maxRetries <= UINT_MAX && FirstStop(maxRetries, output, runs)
    ensures Reported(Log(output, runs)) == Uploaded <==>
            exists j: nat :: (maxRetries < UINT_MAX ==> j <= maxRetries) && Succeeds(output(j))
  {
    RunsUntilStop(maxRetries, output, runs);
    ReportedUploaded(output, runs);
    if Succeeds(output(runs - 1)) {
      assert maxRetries < UINT_MAX ==> runs - 1 <= maxRetries;
    }
  }

  lemma {:induction false} NoSuccessBefore(maxRetries: nat, output: nat -> seq<string>, runs: nat)
    requires NoStopBefore(maxRetries, output, runs)
    ensures forall j: nat :: j + 1 < runs ==> !Succeeds(output(j))
  {
    if runs <= 1 {
    } else {
      NoSuccessBefore(maxRetries, output, runs - 1);
      ReportedUploaded(output, runs - 1);
      assert !Stops(maxRetries, output, runs - 1);
    }
  }

  lemma {:induction false} RecognisedStatuses(lines: seq<string>)
    ensures forall s :: s in Recognised(lines) ==> s == Uploaded || s == UploadFailure
  {
    if lines == [] {
    } else {
      RecognisedStatuses(lines[..|lines| - 1]);
    }
  }

  /** The backend never learns of a cancellation, nor of the helper's reason for a failure. */
  lemma {:induction false} LogStatuses(output: nat -> seq<string>, runs: nat)
    ensures forall s :: s in Log(output, runs) ==> s == Uploaded || s == UploadFailure
  {
    if runs == 0 {
    } else {
      LogStatuses(output, runs - 1);
      RecognisedStatuses(output(runs - 1));
    }
  }
}
