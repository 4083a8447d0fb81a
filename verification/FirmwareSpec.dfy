/** What the aggregator owes its backend: the firmware statuses it publishes, as a closed form
    over the reports of one update ("epoch"). No counter, flag or latch appears here. */
module FirmwareSpec {
  import opened Sequences

  /** FirmwareUpdateStatusEnum, the vocabulary of OCPP 2.0.1 Part 2, use case L01. */
  datatype Status =
    | DownloadScheduled | DownloadPaused | InstallRebooting | InstallScheduled | SignatureVerified
    | Downloaded | Idle | Installing | Installed
    | Downloading
    | DownloadFailed | InstallationFailed | InstallVerificationFailed | InvalidSignature

  /** Statuses taken over from the local board only. */
  predicate IsPassThrough(s: Status) {
    s.DownloadScheduled? || s.DownloadPaused? || s.InstallRebooting? || s.InstallScheduled? || s.SignatureVerified?
  }

  /** Statuses published once every board reported them. */
  predicate IsSummarised(s: Status) {
    s.Downloaded? || s.Idle? || s.Installing? || s.Installed?
  }

  /** Statuses that end an update. Installed is not among them. */
  predicate IsFailure(s: Status) {
    s.DownloadFailed? || s.InstallationFailed? || s.InstallVerificationFailed? || s.InvalidSignature?
  }

  datatype Report = Report(board: nat, status: Status, requestId: int)

  datatype Message = Message(status: Status, requestId: int)

  function Reports(s: Status): Report -> bool {
    (r: Report) => r.status == s
  }

  function ReportsFrom(b: nat, s: Status): Report -> bool {
    (r: Report) => r.board == b && r.status == s
  }

  function Says(s: Status): Message -> bool {
    (m: Message) => m.status == s
  }

  /** An epoch has failed once any board reported one of the four failures. */
  ghost predicate Failed(h: seq<Report>) {
    exists i :: 0 <= i < |h| && IsFailure(h[i].status)
  }

  ghost predicate Seen(h: seq<Report>, s: Status) {
    exists i :: 0 <= i < |h| && h[i].status == s
  }

  /** How often `s` was reported, as a 32-bit counter sees it. */
  function Count32(h: seq<Report>, s: Status): nat {
    Tally(h, Reports(s)) % UINT_RANGE
  }

  /** Some but not all of the `n` boards got as far as Downloaded. */
  predicate PartlyDownloaded(n: nat, h: seq<Report>) {
    0 < Count32(h, Downloaded) < n
  }

  /** What report `r` publishes when it arrives after the reports `h` of the same epoch. */
  ghost function Answer(n: nat, h: seq<Report>, r: Report): seq<Message> {
    var itself := [Message(r.status, r.requestId)];
    if Failed(h) then []
    else if IsPassThrough(r.status) then
      if r.board == 0 then itself else []
    else if IsSummarised(r.status) then
      if Count32(h + [r], r.status) == n then itself else []
    else if r.status == Downloading then
      if Seen(h, Downloading) then [] else itself
    else if r.status == InvalidSignature && PartlyDownloaded(n, h) then
      [Message(Downloaded, r.requestId)] + itself
    else itself
  }

  /** Everything published in an epoch with `n` boards. */
  ghost function Trace(n: nat, h: seq<Report>): seq<Message> {
    if h == [] then []
    else
      var before := h[..|h| - 1];
      Trace(n, before) + Answer(n, before, h[|h| - 1])
  }

  /** Everything published in a whole run. The reports of `epochs[0]` precede the first update request;
      they are ignored when the uninitialised latch `latch` happens to be set. */
  ghost function RunTrace(n: nat, latch: bool, epochs: seq<seq<Report>>): seq<Message> {
    if epochs == [] then []
    else
      var last := |epochs| - 1;
      RunTrace(n, latch, epochs[..last]) + if last == 0 && latch then [] else Trace(n, epochs[last])
  }

  lemma TraceSnoc(n: nat, h: seq<Report>, r: Report)
    ensures Trace(n, h + [r]) == Trace(n, h) + Answer(n, h, r)
  {
    assert (h + [r])[..|h|] == h;
  }

  lemma FailedSnoc(h: seq<Report>, r: Report)
    ensures Failed(h + [r]) <==> Failed(h) || IsFailure(r.status)
  {
    var g := h + [r];
    if i :| 0 <= i < |h| && IsFailure(h[i].status) {
      assert g[i] == h[i];
    }
    assert g[|h|] == r;
    if i :| 0 <= i < |g| && IsFailure(g[i].status) {
      assert i < |h| ==> g[i] == h[i];
    }
  }

  lemma SeenSnoc(h: seq<Report>, r: Report, s: Status)
    ensures Seen(h + [r], s) <==> Seen(h, s) || r.status == s
  {
    var g := h + [r];
    if i :| 0 <= i < |h| && h[i].status == s {
      assert g[i] == h[i];
    }
    assert g[|h|] == r;
  }

  lemma RunTraceSnoc(n: nat, latch: bool, past: seq<seq<Report>>, h: seq<Report>)
    ensures RunTrace(n, latch, past + [h]) == RunTrace(n, latch, past) + if past == [] && latch then [] else Trace(n, h)
  {
    assert (past + [h])[..|past|] == past;
  }

  /** What a run has published once `past` epochs are over and `h` arrived in the current one. */
  ghost function Owed(n: nat, latch: bool, past: seq<seq<Report>>, h: seq<Report>): seq<Message> {
    RunTrace(n, latch, past + [h])
  }

  lemma OwedAtStart(n: nat, latch: bool)
    ensures Owed(n, latch, [], []) == []
  {
    RunTraceSnoc(n, latch, [], []);
  }

  lemma OwedReport(n: nat, latch: bool, past: seq<seq<Report>>, h: seq<Report>, r: Report)
    ensures Owed(n, latch, past, h + [r]) == Owed(n, latch, past, h) + if past == [] && latch then [] else Answer(n, h, r)
  {
    RunTraceSnoc(n, latch, past, h);
    RunTraceSnoc(n, latch, past, h + [r]);
    TraceSnoc(n, h, r);
    Associative(RunTrace(n, latch, past), Trace(n, h), Answer(n, h, r));
  }

  lemma OwedNewEpoch(n: nat, latch: bool, past: seq<seq<Report>>, h: seq<Report>)
    ensures Owed(n, latch, past + [h], []) == Owed(n, latch, past, h)
  {
    RunTraceSnoc(n, latch, past + [h], []);
  }
}
