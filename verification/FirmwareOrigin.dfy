/** Where published messages come from: which report each of them is, and which failure ends an epoch. */
module FirmwareOrigin {
  import opened Sequences
  import opened FirmwareSpec
  import opened FirmwareLaws
  import opened FirmwareOrder

  /** `messages` are some of the reports `h`, each once and in their order: message `i` is report `origin[i]`. */
  ghost predicate Selects(origin: seq<nat>, h: seq<Report>, messages: seq<Message>) {
    && |origin| == |messages|
    && (forall i, j :: 0 <= i < j < |origin| ==> origin[i] < origin[j])
    && (forall i :: 0 <= i < |origin| ==>
          origin[i] < |h| && messages[i] == Message(h[origin[i]].status, h[origin[i]].requestId))
  }

  /** What is left to the local board is never taken from another one. */
  ghost predicate LocalOnly(origin: seq<nat>, h: seq<Report>)
    requires forall i :: 0 <= i < |origin| ==> origin[i] < |h|
  {
    forall i :: 0 <= i < |origin|
      && h[origin[i]].status in {DownloadScheduled, DownloadPaused, InstallRebooting, InstallScheduled, SignatureVerified}
      ==> h[origin[i]].board == 0
  }

  lemma SelectsSnoc(origin: seq<nat>, h: seq<Report>, messages: seq<Message>, r: Report)
    requires Selects(origin, h, messages) && LocalOnly(origin, h)
    ensures Selects(origin, h + [r], messages) && LocalOnly(origin, h + [r])
    ensures Selects(origin + [|h|], h + [r], messages + [Message(r.status, r.requestId)])
    ensures r.board == 0 || !IsPassThrough(r.status) ==> LocalOnly(origin + [|h|], h + [r])
  {
    var g := h + [r];
    forall k | 0 <= k < |h| ensures g[k] == h[k] {}
    assert g[|h|] == r;
  }

  /** Without a failure, every message is one of the reports, unchanged; no report is published twice, and none
      overtakes another. */
  lemma {:induction false} Origins(n: nat, h: seq<Report>) returns (origin: seq<nat>)
    requires !Failed(h)
    ensures Selects(origin, h, Trace(n, h)) && LocalOnly(origin, h)
  {
    if h == [] {
      origin := [];
    } else {
      var before, r := h[..|h| - 1], h[|h| - 1];
      InitLast(h);
      FailedSnoc(before, r);
      origin := Origins(n, before);
      SelectsSnoc(origin, before, Trace(n, before), r);
      if Answer(n, before, r) == [] {
        assert Trace(n, h) == Trace(n, before);
      } else {
        origin := origin + [|before|];
      }
    }
  }

  /** The Downloaded that a failure forces out, if any. */
  function ForcedOut(n: nat, h: seq<Report>, r: Report): seq<Message> {
    if r.status == InvalidSignature && 0 < Tally(h, Reports(Downloaded)) % UINT_RANGE < n
    then [Message(Downloaded, r.requestId)] else []
  }

  lemma FailureAnswer(n: nat, h: seq<Report>, r: Report)
    requires !Failed(h) && IsFailure(r.status)
    ensures Answer(n, h, r) == ForcedOut(n, h, r) + [Message(r.status, r.requestId)]
  {}

  /** A failed epoch publishes what preceded its first failure `r`, then `r` itself, unchanged. Only between them there
      may be a Downloaded, with the request id of `r`: if `r` is InvalidSignature, and the 32-bit count of Downloaded is
      positive and below N. */
  lemma FailurePublished(n: nat, g: seq<Report>) returns (h: seq<Report>, r: Report, later: seq<Report>)
    requires Failed(g)
    ensures g == h + [r] + later && !Failed(h)
    ensures r.status in {DownloadFailed, InstallationFailed, InstallVerificationFailed, InvalidSignature}
    ensures Trace(n, g) ==
            Trace(n, h) + ForcedOut(n, h, r) + [Message(r.status, r.requestId)]
  {
    h, r, later := FirstFailure(g);
    FailedSnoc(h, r);
    TraceExtends(n, h + [r], later);
    TraceSnoc(n, h, r);
    FailureAnswer(n, h, r);
    Associative(Trace(n, h), ForcedOut(n, h, r), [Message(r.status, r.requestId)]);
  }
}
