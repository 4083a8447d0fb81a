/** The order of the milestones Downloaded, Installing and Installed, from the boards' reports to the published trace. */
module FirmwareOrder {
  import opened Sequences
  import opened FirmwareSpec
  import opened FirmwareLaws

  predicate IsMilestone(s: Status) {
    s.Downloaded? || s.Installing? || s.Installed?
  }

  function Rank(s: Status): nat
    requires IsMilestone(s)
  {
    match s
    case Downloaded => 0
    case Installing => 1
    case Installed => 2
  }

  const MILESTONES: seq<Status> := [Downloaded, Installing, Installed]

  /** Each board reports each milestone at most once and in their order. It may skip some. */
  ghost predicate Ascending(h: seq<Report>) {
    forall i, j :: 0 <= i < j < |h| && h[i].board == h[j].board && IsMilestone(h[i].status) && IsMilestone(h[j].status) ==>
      Rank(h[i].status) < Rank(h[j].status)
  }

  /** The milestones of a trace, in the order of their publication. */
  function Milestones(t: seq<Message>): (m: seq<Status>)
    ensures forall i :: 0 <= i < |m| ==> IsMilestone(m[i])
  {
    if t == [] then []
    else
      var s := t[|t| - 1].status;
      Milestones(t[..|t| - 1]) + if IsMilestone(s) then [s] else []
  }

  /** Strictly increasing: in order, and none twice. */
  predicate Ordered(m: seq<Status>)
    requires forall i :: 0 <= i < |m| ==> IsMilestone(m[i])
  {
    forall i, j :: 0 <= i < j < |m| ==> Rank(m[i]) < Rank(m[j])
  }

  lemma {:induction false} MilestonesAppend(t: seq<Message>, u: seq<Message>)
    ensures Milestones(t + u) == Milestones(t) + Milestones(u)
  {
    if u == [] {
      assert t + u == t;
    } else {
      MilestonesAppend(t, u[..|u| - 1]);
      assert (t + u)[..|t + u| - 1] == t + u[..|u| - 1];
    }
  }

  lemma MilestonesOne(m: Message)
    ensures Milestones([m]) == if IsMilestone(m.status) then [m.status] else []
  {
    assert [m][..0] == [];
  }

  lemma AscendingPrefix(h: seq<Report>, r: Report)
    requires Ascending(h + [r])
    ensures Ascending(h)
    ensures forall s :: IsMilestone(s) && IsMilestone(r.status) && Rank(s) >= Rank(r.status) ==> r.board !in Boards(h, s)
  {
    var g := h + [r];
    forall i | 0 <= i < |h| ensures g[i] == h[i] {}
    assert g[|h|] == r;
  }

  lemma AscendingOnce(h: seq<Report>, s: Status)
    requires Ascending(h) && IsMilestone(s)
    ensures OncePerBoard(h, s)
  {}

  /** Those of the milestones that are chosen, in their order. */
  function Chosen(downloaded: bool, installing: bool, installed: bool): (m: seq<Status>)
    ensures forall i :: 0 <= i < |m| ==> IsMilestone(m[i])
    ensures Ordered(m)
  {
    if downloaded then
      if installing then if installed then MILESTONES else [Downloaded, Installing]
      else if installed then [Downloaded, Installed] else [Downloaded]
    else
      if installing then if installed then [Installing, Installed] else [Installing]
      else if installed then [Installed] else []
  }

  /** The milestones that all boards have reported, in their order. */
  ghost function Completed(n: nat, h: seq<Report>): (m: seq<Status>)
    ensures forall i :: 0 <= i < |m| ==> IsMilestone(m[i])
    ensures Ordered(m)
  {
    Chosen(AllReported(n, h, Downloaded), AllReported(n, h, Installing), AllReported(n, h, Installed))
  }

  lemma AllReportedOther(n: nat, h: seq<Report>, r: Report, s: Status)
    requires r.status != s
    ensures AllReported(n, h + [r], s) == AllReported(n, h, s)
  {
    BoardsSnoc(h, r, s);
  }

  /** When a report completes a milestone, no board set of that milestone or a later one was complete before. */
  lemma CompletesNext(n: nat, h: seq<Report>, r: Report, s: Status)
    requires r.board < n && Ascending(h + [r]) && IsMilestone(r.status) && IsMilestone(s)
    ensures Rank(s) >= Rank(r.status) ==> !AllReported(n, h, s)
    ensures s != r.status ==> AllReported(n, h + [r], s) == AllReported(n, h, s)
  {
    AscendingPrefix(h, r);
    if s != r.status {
      AllReportedOther(n, h, r, s);
    }
  }

  lemma CompletedAfter(n: nat, h: seq<Report>, r: Report)
    requires r.board < n && Ascending(h + [r]) && IsMilestone(r.status)
    ensures Completed(n, h + [r]) == Completed(n, h) + if AllReported(n, h + [r], r.status) then [r.status] else []
  {
    CompletesNext(n, h, r, Downloaded);
    CompletesNext(n, h, r, Installing);
    CompletesNext(n, h, r, Installed);
  }

  /** A milestone is completed before any later one. */
  lemma CompletedMilestone(n: nat, h: seq<Report>, r: Report)
    requires 0 < n < UINT_RANGE && FromBoards(n, h + [r]) && Ascending(h + [r]) && !Failed(h) && IsMilestone(r.status)
    ensures Completed(n, h + [r]) == Completed(n, h) + Milestones(Answer(n, h, r))
  {
    assert (h + [r])[|h|] == r;
    CompletedAfter(n, h, r);
    AscendingOnce(h + [r], r.status);
    BarrierMoment(n, h, r);
    MilestonesOne(Message(r.status, r.requestId));
  }

  lemma CompletedOther(n: nat, h: seq<Report>, r: Report)
    requires !Failed(h + [r]) && !IsMilestone(r.status)
    ensures Completed(n, h + [r]) == Completed(n, h)
    ensures Milestones(Answer(n, h, r)) == []
  {
    FailedSnoc(h, r);
    AllReportedOther(n, h, r, Downloaded);
    AllReportedOther(n, h, r, Installing);
    AllReportedOther(n, h, r, Installed);
    MilestonesOne(Message(r.status, r.requestId));
  }

  lemma NothingCompleted(n: nat)
    requires 0 < n
    ensures Completed(n, []) == []
  {
    forall s ensures !AllReported(n, [], s) {
      assert 0 !in Boards([], s);
    }
  }

  /** Until a failure, the published milestones are exactly those that all boards have reported, in their order. */
  lemma {:induction false} MilestonesCompleted(n: nat, h: seq<Report>)
    requires 0 < n < UINT_RANGE && FromBoards(n, h) && Ascending(h) && !Failed(h)
    ensures Milestones(Trace(n, h)) == Completed(n, h)
    ensures Ordered(Milestones(Trace(n, h)))
  {
    if h == [] {
      NothingCompleted(n);
    } else {
      var before, r := h[..|h| - 1], h[|h| - 1];
      InitLast(h);
      FailedSnoc(before, r);
      AscendingPrefix(before, r);
      MilestonesCompleted(n, before);
      MilestonesAppend(Trace(n, before), Answer(n, before, r));
      if IsMilestone(r.status) {
        CompletedMilestone(n, before, r);
      } else {
        CompletedOther(n, before, r);
      }
    }
  }

  // ---------- failures ----------

  /** InvalidSignature forces out a Downloaded that not all boards have reported. */
  predicate ForcesDownloaded(n: nat, h: seq<Report>, r: Report) {
    r.status == InvalidSignature && PartlyDownloaded(n, h)
  }

  lemma FailureMilestones(n: nat, h: seq<Report>, r: Report)
    requires !Failed(h) && IsFailure(r.status)
    ensures Milestones(Answer(n, h, r)) == if ForcesDownloaded(n, h, r) then [Downloaded] else []
  {
    var itself := Message(r.status, r.requestId);
    MilestonesOne(itself);
    if ForcesDownloaded(n, h, r) {
      var forced := Message(Downloaded, r.requestId);
      MilestonesOne(forced);
      MilestonesAppend([forced], [itself]);
    }
  }

  lemma ForcedOrder(installing: bool, installed: bool)
    ensures Ordered(Chosen(false, installing, installed) + [Downloaded]) <==> !installing && !installed
  {
    var m := Chosen(false, installing, installed) + [Downloaded];
    if installing || installed {
      assert Rank(m[0]) > Rank(m[|m| - 1]);
    }
  }

  lemma PartlyIsIncomplete(n: nat, h: seq<Report>)
    requires n < UINT_RANGE && FromBoards(n, h) && Ascending(h) && PartlyDownloaded(n, h)
    ensures !AllReported(n, h, Downloaded)
  {
    AscendingOnce(h, Downloaded);
    TallyIsComplete(n, h, Downloaded);
  }

  lemma MilestonesWithFailure(n: nat, h: seq<Report>, r: Report)
    requires 0 < n < UINT_RANGE && FromBoards(n, h) && Ascending(h) && !Failed(h) && IsFailure(r.status)
    ensures Milestones(Trace(n, h + [r])) == Completed(n, h) + if ForcesDownloaded(n, h, r) then [Downloaded] else []
  {
    TraceSnoc(n, h, r);
    MilestonesCompleted(n, h);
    FailureMilestones(n, h, r);
    MilestonesAppend(Trace(n, h), Answer(n, h, r));
  }

  /** A failure breaks the order exactly when it forces out Downloaded after all boards reported a later milestone. */
  lemma FailureOrder(n: nat, h: seq<Report>, r: Report)
    requires 0 < n < UINT_RANGE && FromBoards(n, h) && Ascending(h) && !Failed(h) && IsFailure(r.status)
    ensures Ordered(Milestones(Trace(n, h + [r]))) <==>
            !(ForcesDownloaded(n, h, r) && (AllReported(n, h, Installing) || AllReported(n, h, Installed)))
  {
    MilestonesWithFailure(n, h, r);
    if ForcesDownloaded(n, h, r) {
      PartlyIsIncomplete(n, h);
      ForcedOrder(AllReported(n, h, Installing), AllReported(n, h, Installed));
    } else {
      assert Completed(n, h) + [] == Completed(n, h);
    }
  }

  lemma {:induction false} FirstFailure(g: seq<Report>) returns (h: seq<Report>, r: Report, later: seq<Report>)
    requires Failed(g)
    ensures g == h + [r] + later && !Failed(h) && IsFailure(r.status)
  {
    var before, last := g[..|g| - 1], g[|g| - 1];
    InitLast(g);
    FailedSnoc(before, last);
    if !Failed(before) {
      h, r, later := before, last, [];
    } else {
      h, r, later := FirstFailure(before);
      later := later + [last];
      Associative(h + [r], later[..|later| - 1], [last]);
    }
  }

  /** A failed epoch: its first failure `r` decides. The published milestones are out of order if and only if `r` is
      InvalidSignature, some but not all boards had reported Downloaded, and all had reported Installing or
      all had reported Installed. */
  lemma OrderBrokenIff(n: nat, g: seq<Report>) returns (h: seq<Report>, r: Report, later: seq<Report>)
    requires 0 < n < UINT_RANGE && FromBoards(n, g) && Ascending(g) && Failed(g)
    ensures g == h + [r] + later && !Failed(h) && IsFailure(r.status)
    ensures !Ordered(Milestones(Trace(n, g))) <==>
            r.status == InvalidSignature && PartlyDownloaded(n, h)
            && (AllReported(n, h, Installing) || AllReported(n, h, Installed))
  {
    h, r, later := FirstFailure(g);
    FailedSnoc(h, r);
    TraceExtends(n, h + [r], later);
    forall i | 0 <= i < |h| ensures h[i] == g[i] {}
    FailureOrder(n, h, r);
  }

  /** Such an epoch: board 0 skips Downloaded, so that the other board's Downloaded is forced out after Installing. */
  lemma OrderCanBreak(id: int)
    ensures var h := [Report(0, Installing, id), Report(1, Downloaded, id), Report(1, Installing, id)];
            var r := Report(0, InvalidSignature, id);
            && Ascending(h + [r])
            && Milestones(Trace(2, h + [r])) == [Installing, Downloaded]
            && !Ordered(Milestones(Trace(2, h + [r])))
  {
    var h := [Report(0, Installing, id), Report(1, Downloaded, id), Report(1, Installing, id)];
    SkippedDownloaded(id);
    MilestonesWithFailure(2, h, Report(0, InvalidSignature, id));
    var m := Milestones(Trace(2, h + [Report(0, InvalidSignature, id)]));
    assert m == [Installing, Downloaded];
    assert Rank(m[0]) > Rank(m[1]);
  }

  lemma SkippedDownloaded(id: int)
    ensures var h := [Report(0, Installing, id), Report(1, Downloaded, id), Report(1, Installing, id)];
            && FromBoards(2, h) && Ascending(h) && !Failed(h)
            && PartlyDownloaded(2, h) && Completed(2, h) == [Installing]
  {
    var h := [Report(0, Installing, id), Report(1, Downloaded, id), Report(1, Installing, id)];
    assert h[0].board == 0 && h[1].board == 1 && h[2].board == 1;
    assert Boards(h, Installing) == {0, 1} && Boards(h, Downloaded) == {1} && Boards(h, Installed) == {};
    assert 0 !in Boards(h, Downloaded) && 0 !in Boards(h, Installed);
    TallyIsBoards(h, Downloaded);
  }

  // ---------- boards that skip nothing ----------

  /** Each board reports each milestone at most once, and never one without its predecessor. */
  ghost predicate InOrder(h: seq<Report>) {
    && (forall s :: IsMilestone(s) ==> OncePerBoard(h, s))
    && (forall i :: 0 <= i < |h| && h[i].status == Installing ==> h[i].board in Boards(h[..i], Downloaded))
    && (forall i :: 0 <= i < |h| && h[i].status == Installed ==> h[i].board in Boards(h[..i], Installing))
  }

  lemma InOrderPrefix(h: seq<Report>, r: Report)
    requires InOrder(h + [r])
    ensures InOrder(h)
    ensures r.status == Installing ==> r.board in Boards(h, Downloaded)
    ensures r.status == Installed ==> r.board in Boards(h, Installing)
  {
    var g := h + [r];
    forall s | IsMilestone(s) ensures OncePerBoard(h, s) {
      OncePerBoardPrefix(h, r, s);
    }
    forall i | 0 <= i < |h| ensures g[i] == h[i] && g[..i] == h[..i] {}
    assert g[|h|] == r && g[..|h|] == h;
  }

  /** A board that is further on has passed the earlier milestones. */
  lemma BoardsAdvance(h: seq<Report>)
    requires InOrder(h)
    ensures Boards(h, Installed) <= Boards(h, Installing) <= Boards(h, Downloaded)
  {}

  lemma InOrderAscends(h: seq<Report>)
    requires InOrder(h)
    ensures Ascending(h)
  {}

  lemma CompletedIsPrefix(n: nat, h: seq<Report>)
    requires InOrder(h)
    ensures Completed(n, h) <= MILESTONES
    ensures !AllReported(n, h, Downloaded) ==> Completed(n, h) == []
  {
    BoardsAdvance(h);
    assert AllReported(n, h, Installed) ==> AllReported(n, h, Installing);
    assert AllReported(n, h, Installing) ==> AllReported(n, h, Downloaded);
  }

  lemma FailureKeepsPrefix(n: nat, h: seq<Report>, r: Report)
    requires 0 < n < UINT_RANGE && FromBoards(n, h) && InOrder(h) && !Failed(h) && IsFailure(r.status)
    ensures Milestones(Trace(n, h + [r])) <= MILESTONES
  {
    InOrderAscends(h);
    MilestonesWithFailure(n, h, r);
    CompletedIsPrefix(n, h);
    if ForcesDownloaded(n, h, r) {
      PartlyIsIncomplete(n, h);
    }
  }

  /** For such boards, whatever happens, failures included, the backend sees a prefix of the three milestones. */
  lemma OrderPreserved(n: nat, g: seq<Report>)
    requires 0 < n < UINT_RANGE && FromBoards(n, g) && InOrder(g)
    ensures Milestones(Trace(n, g)) <= MILESTONES
  {
    if !Failed(g) {
      InOrderAscends(g);
      MilestonesCompleted(n, g);
      CompletedIsPrefix(n, g);
    } else {
      var h, r, later := FirstFailure(g);
      FailedSnoc(h, r);
      TraceExtends(n, h + [r], later);
      InOrderCut(h + [r], later);
      InOrderPrefix(h, r);
      forall i | 0 <= i < |h| ensures h[i] == g[i] {}
      FailureKeepsPrefix(n, h, r);
    }
  }

  lemma {:induction false} InOrderCut(h: seq<Report>, later: seq<Report>)
    requires InOrder(h + later)
    ensures InOrder(h)
  {
    if later == [] {
      assert h + later == h;
    } else {
      var init, last := later[..|later| - 1], later[|later| - 1];
      InitLast(later);
      Associative(h, init, [last]);
      InOrderPrefix(h + init, last);
      InOrderCut(h, init);
    }
  }
}
