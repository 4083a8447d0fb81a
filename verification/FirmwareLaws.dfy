/** What the backend may rely on: laws of the traces of FirmwareSpec, for every number of boards and
    every interleaving of their reports. */
module FirmwareLaws {
  import opened Sequences
  import opened FirmwareSpec

  /** Reports come from existing boards. */
  ghost predicate FromBoards(n: nat, h: seq<Report>) {
    forall i :: 0 <= i < |h| ==> h[i].board < n
  }

  // ---------- terminal silence ----------

  lemma FailedExtends(h: seq<Report>, later: seq<Report>)
    requires Failed(h)
    ensures Failed(h + later)
  {
    var i :| 0 <= i < |h| && IsFailure(h[i].status);
    assert (h + later)[i] == h[i];
  }

  lemma TraceExtendsByOne(n: nat, h: seq<Report>, r: Report)
    ensures Trace(n, h) <= Trace(n, h + [r])
    ensures Failed(h) ==> Trace(n, h + [r]) == Trace(n, h)
  {
    TraceSnoc(n, h, r);
  }

  lemma {:induction false} TraceExtends(n: nat, h: seq<Report>, later: seq<Report>)
    ensures Trace(n, h) <= Trace(n, h + later)
    ensures Failed(h) ==> Trace(n, h + later) == Trace(n, h)
  {
    if later == [] {
      assert h + later == h;
    } else {
      var init, r := later[..|later| - 1], later[|later| - 1];
      TraceExtends(n, h, init);
      InitLast(later);
      Associative(h, init, [r]);
      TraceExtendsByOne(n, h + init, r);
      if Failed(h) {
        FailedExtends(h, init);
      }
    }
  }

  predicate EndsInFailure(t: seq<Message>) {
    t != [] && IsFailure(t[|t| - 1].status)
  }

  /** No failure in `t` is followed by anything. */
  predicate SilentAfterFailure(t: seq<Message>) {
    forall i :: 0 <= i < |t| - 1 ==> !IsFailure(t[i].status)
  }

  lemma AnswerEndsInFailure(n: nat, h: seq<Report>, r: Report)
    requires !Failed(h)
    ensures SilentAfterFailure(Answer(n, h, r))
    ensures EndsInFailure(Answer(n, h, r)) <==> IsFailure(r.status)
  {}

  lemma SilentAppend(t: seq<Message>, a: seq<Message>)
    requires SilentAfterFailure(t) && SilentAfterFailure(a) && !EndsInFailure(t)
    ensures SilentAfterFailure(t + a)
    ensures EndsInFailure(t + a) <==> EndsInFailure(a)
  {
    forall i | 0 <= i < |t + a| - 1 ensures !IsFailure((t + a)[i].status) {
      assert (t + a)[i] == if i < |t| then t[i] else a[i - |t|];
    }
  }

  /** An epoch publishes a failure exactly when one was reported, only one, and nothing after it. */
  lemma {:induction false} TerminalSilence(n: nat, h: seq<Report>)
    ensures SilentAfterFailure(Trace(n, h))
    ensures EndsInFailure(Trace(n, h)) <==> Failed(h)
  {
    if h == [] {
    } else {
      var before, r := h[..|h| - 1], h[|h| - 1];
      TerminalSilence(n, before);
      assert h == before + [r];
      FailedSnoc(before, r);
      if Failed(before) {
        assert Trace(n, h) == Trace(n, before);
      } else {
        AnswerEndsInFailure(n, before, r);
        SilentAppend(Trace(n, before), Answer(n, before, r));
      }
    }
  }

  /** A run is the concatenation of its epochs: what came before an update request does not influence
      what is published after it. */
  lemma {:induction false} EpochsIndependent(n: nat, latch: bool, past: seq<seq<Report>>, later: seq<seq<Report>>)
    requires past != []
    ensures RunTrace(n, latch, past + later) == RunTrace(n, latch, past) + RunTrace(n, false, later)
  {
    if later == [] {
      assert past + later == past;
    } else {
      var init, last := later[..|later| - 1], later[|later| - 1];
      EpochsIndependent(n, latch, past, init);
      InitLast(later);
      Associative(past, init, [last]);
      RunTraceSnoc(n, latch, past + init, last);
      RunTraceSnoc(n, false, init, last);
      Associative(RunTrace(n, latch, past), RunTrace(n, false, init), Trace(n, last));
    }
  }

  // ---------- the first epoch ----------

  /** Before the first update request nothing is published if the latch happens to be set at start-up; otherwise
      the reports are treated like those of any other epoch. */
  lemma FirstEpoch(n: nat, latch: bool, h: seq<Report>)
    ensures Owed(n, latch, [], h) == if latch then [] else Trace(n, h)
  {
    RunTraceSnoc(n, latch, [], h);
  }

  // ---------- how often each status is published ----------

  /** The closed form of the number of times `s` is published in a failure-free epoch. */
  function Multiplicity(n: nat, h: seq<Report>, s: Status): nat
    requires n < UINT_RANGE
  {
    match s
    case DownloadScheduled | DownloadPaused | InstallRebooting | InstallScheduled | SignatureVerified =>
      Tally(h, ReportsFrom(0, s))
    case Downloaded | Idle | Installing | Installed => (Tally(h, Reports(s)) + UINT_RANGE - n) / UINT_RANGE
    case Downloading => if Tally(h, Reports(s)) > 0 then 1 else 0
    case DownloadFailed | InstallationFailed | InstallVerificationFailed | InvalidSignature => 0
  }

  lemma SeenIsTally(h: seq<Report>, s: Status)
    ensures Seen(h, s) <==> Tally(h, Reports(s)) > 0
  {
    TallyPositive(h, Reports(s));
    if i :| 0 <= i < |h| && h[i].status == s {
      assert Reports(s)(h[i]);
    }
  }

  lemma AnswerTally(m: Message, s: Status)
    ensures Tally([m], Says(s)) == if m.status == s then 1 else 0
  {
    TallySnoc([], m, Says(s));
  }

  lemma MultiplicityStep(n: nat, h: seq<Report>, r: Report, s: Status)
    requires 0 < n < UINT_RANGE && !Failed(h + [r])
    ensures Multiplicity(n, h + [r], s) == Multiplicity(n, h, s) + Tally(Answer(n, h, r), Says(s))
  {
    FailedSnoc(h, r);
    TallySnoc(h, r, Reports(s));
    TallySnoc(h, r, ReportsFrom(0, s));
    SeenIsTally(h, s);
    AnswerTally(Message(r.status, r.requestId), s);
  }

  /** In a failure-free epoch every status is published as often as the closed form says. */
  lemma {:induction false} PublishedAsOftenAs(n: nat, h: seq<Report>, s: Status)
    requires 0 < n < UINT_RANGE && !Failed(h)
    ensures Tally(Trace(n, h), Says(s)) == Multiplicity(n, h, s)
  {
    if h == [] {
    } else {
      var before, r := h[..|h| - 1], h[|h| - 1];
      assert h == before + [r];
      FailedSnoc(before, r);
      PublishedAsOftenAs(n, before, s);
      MultiplicityStep(n, before, r, s);
      TallyAppend(Trace(n, before), Answer(n, before, r), Says(s));
    }
  }

  function Statuses(t: seq<Message>): (s: seq<Status>)
    ensures |s| == |t|
  {
    seq(|t|, i requires 0 <= i < |t| => t[i].status)
  }

  lemma {:induction false} StatusMultiplicity(t: seq<Message>, s: Status)
    ensures multiset(Statuses(t))[s] == Tally(t, Says(s))
  {
    if t == [] {
    } else {
      var init, m := t[..|t| - 1], t[|t| - 1];
      StatusMultiplicity(init, s);
      assert Statuses(t) == Statuses(init) + [m.status];
    }
  }

  lemma MultiplicityPermutation(n: nat, h: seq<Report>, g: seq<Report>, s: Status)
    requires n < UINT_RANGE && multiset(h) == multiset(g)
    ensures Multiplicity(n, h, s) == Multiplicity(n, g, s)
  {
    TallyPermutation(h, g, Reports(s));
    TallyPermutation(h, g, ReportsFrom(0, s));
  }

  lemma FailedPermutation(h: seq<Report>, g: seq<Report>)
    requires multiset(h) == multiset(g) && Failed(h)
    ensures Failed(g)
  {
    var i :| 0 <= i < |h| && IsFailure(h[i].status);
    assert h[i] in multiset(g);
  }

  /** Two interleavings of the same failure-free reports publish the same statuses, equally often. */
  lemma InterleavingIndependence(n: nat, h: seq<Report>, g: seq<Report>)
    requires 0 < n < UINT_RANGE && multiset(h) == multiset(g) && !Failed(h)
    ensures multiset(Statuses(Trace(n, h))) == multiset(Statuses(Trace(n, g)))
  {
    if Failed(g) {
      FailedPermutation(g, h);
    }
    forall s: Status
      ensures multiset(Statuses(Trace(n, h)))[s] == multiset(Statuses(Trace(n, g)))[s]
    {
      PublishedAsOftenAs(n, h, s);
      PublishedAsOftenAs(n, g, s);
      StatusMultiplicity(Trace(n, h), s);
      StatusMultiplicity(Trace(n, g), s);
      MultiplicityPermutation(n, h, g, s);
    }
  }

  // ---------- the barrier ----------

  /** No board reports `s` twice in `h`. */
  ghost predicate OncePerBoard(h: seq<Report>, s: Status) {
    forall i, j :: 0 <= i < j < |h| && h[i].status == s && h[j].status == s ==> h[i].board != h[j].board
  }

  ghost function Boards(h: seq<Report>, s: Status): set<nat> {
    set i | 0 <= i < |h| && h[i].status == s :: h[i].board
  }

  ghost predicate AllReported(n: nat, h: seq<Report>, s: Status) {
    forall b: nat :: b < n ==> b in Boards(h, s)
  }

  lemma BoardsSnoc(h: seq<Report>, r: Report, s: Status)
    ensures Boards(h + [r], s) == if r.status == s then Boards(h, s) + {r.board} else Boards(h, s)
  {
    var g := h + [r];
    forall b | b in Boards(h, s) ensures b in Boards(g, s) {
      var i :| 0 <= i < |h| && h[i].status == s && h[i].board == b;
      assert g[i] == h[i];
    }
    assert g[|h|] == r;
    forall b | b in Boards(g, s) ensures b in Boards(h, s) || (r.status == s && b == r.board) {
      var i :| 0 <= i < |g| && g[i].status == s && g[i].board == b;
      assert i < |h| ==> g[i] == h[i];
    }
  }

  lemma OncePerBoardPrefix(h: seq<Report>, r: Report, s: Status)
    requires OncePerBoard(h + [r], s)
    ensures OncePerBoard(h, s)
    ensures r.status == s ==> r.board !in Boards(h, s)
  {
    var g := h + [r];
    forall i | 0 <= i < |h| ensures g[i] == h[i] {}
    assert g[|h|] == r;
  }

  /** Counting reports is counting boards, as long as no board reports twice. */
  lemma {:induction false} TallyIsBoards(h: seq<Report>, s: Status)
    requires OncePerBoard(h, s)
    ensures Tally(h, Reports(s)) == |Boards(h, s)|
  {
    if h == [] {
    } else {
      var before, r := h[..|h| - 1], h[|h| - 1];
      assert h == before + [r];
      OncePerBoardPrefix(before, r, s);
      BoardsSnoc(before, r, s);
      TallyIsBoards(before, s);
    }
  }

  lemma TallyIsComplete(n: nat, h: seq<Report>, s: Status)
    requires FromBoards(n, h) && OncePerBoard(h, s)
    ensures Tally(h, Reports(s)) <= n
    ensures Tally(h, Reports(s)) == n <==> AllReported(n, h, s)
  {
    TallyIsBoards(h, s);
    Pigeonhole(n, Boards(h, s));
  }

  /** A summarised status is published by the report that completes it, and by no other. */
  lemma BarrierMoment(n: nat, h: seq<Report>, r: Report)
    requires n < UINT_RANGE && FromBoards(n, h + [r]) && IsSummarised(r.status)
    requires OncePerBoard(h + [r], r.status) && !Failed(h)
    ensures Answer(n, h, r) == if AllReported(n, h + [r], r.status) then [Message(r.status, r.requestId)] else []
    ensures !AllReported(n, h, r.status)
  {
    TallyIsComplete(n, h + [r], r.status);
    assert (h + [r])[|h|] == r;
    OncePerBoardPrefix(h, r, r.status);
  }

  /** Over a failure-free epoch: published exactly once if all boards reported it, never otherwise. */
  lemma Barrier(n: nat, h: seq<Report>, s: Status)
    requires 0 < n < UINT_RANGE && FromBoards(n, h) && IsSummarised(s) && OncePerBoard(h, s) && !Failed(h)
    ensures Tally(Trace(n, h), Says(s)) == if AllReported(n, h, s) then 1 else 0
  {
    PublishedAsOftenAs(n, h, s);
    TallyIsComplete(n, h, s);
  }

  lemma {:induction false} BoardsWithinTally(h: seq<Report>, s: Status)
    ensures |Boards(h, s)| <= Tally(h, Reports(s))
  {
    if h == [] {
      assert Boards(h, s) == {};
    } else {
      var before, r := h[..|h| - 1], h[|h| - 1];
      InitLast(h);
      BoardsSnoc(before, r, s);
      BoardsWithinTally(before, s);
    }
  }

  lemma BoardsOfFew(n: nat, h: seq<Report>, s: Status)
    requires FromBoards(n, h)
    ensures AllReported(n, h, s) ==> Tally(h, Reports(s)) >= n
  {
    BoardsWithinTally(h, s);
    Pigeonhole(n, Boards(h, s));
  }

  /** With repeated reports the barrier holds exactly as long as the count does not run ahead of the boards: if some
      board is missing, fewer than N reports were made; if none is, the counter did not wrap around to N again. */
  lemma BarrierIff(n: nat, h: seq<Report>, s: Status)
    requires 0 < n < UINT_RANGE && FromBoards(n, h) && IsSummarised(s) && !Failed(h)
    ensures Tally(Trace(n, h), Says(s)) == (if AllReported(n, h, s) then 1 else 0) <==>
            Tally(h, Reports(s)) < if AllReported(n, h, s) then n + UINT_RANGE else n
  {
    PublishedAsOftenAs(n, h, s);
    BoardsOfFew(n, h, s);
    Crossings(Tally(h, Reports(s)), n);
  }

  /** How often a count from 0 to `c` takes a value that is `n` to a 32-bit counter. */
  lemma Crossings(c: nat, n: nat)
    requires 0 < n < UINT_RANGE
    ensures (c + UINT_RANGE - n) / UINT_RANGE == 0 <==> c < n
    ensures (c + UINT_RANGE - n) / UINT_RANGE == 1 <==> n <= c < n + UINT_RANGE
  {}

  /** The barrier does fail: request ids are not compared, so a report left over from an earlier
      update stands in for a board that has not reported. */
  lemma StaleReportBreaksBarrier(stale: int, current: int)
    ensures var h := [Report(0, Downloaded, stale), Report(0, Downloaded, current)];
            Trace(2, h) == [Message(Downloaded, current)] && 1 !in Boards(h, Downloaded)
  {
    var first, second := Report(0, Downloaded, stale), Report(0, Downloaded, current);
    FirstOfTwo(first);
    assert [first] + [second] == [first, second];
    TraceSnoc(2, [first], second);
    TallySnoc([first], second, Reports(Downloaded));
  }

  lemma FirstOfTwo(r: Report)
    requires r.status == Downloaded
    ensures Trace(2, [r]) == [] && !Failed([r]) && Tally([r], Reports(Downloaded)) == 1
  {
    assert [] + [r] == [r];
    TallySnoc([], r, Reports(Downloaded));
    TraceSnoc(2, [], r);
  }

  // ---------- InvalidSignature after Downloaded ----------

  lemma WrapAround(c: nat, n: nat)
    requires 0 < n < UINT_RANGE
    ensures var published := (c + UINT_RANGE - n) / UINT_RANGE + if 0 < c % UINT_RANGE < n then 1 else 0;
            && (published > 0 <==> c > 0)
            && (published == 1 <==> 0 < c <= UINT_RANGE)
  {}

  /** The Downloaded that InvalidSignature forces out. */
  function Forced(n: nat, h: seq<Report>, r: Report): (m: seq<Message>)
    ensures Tally(m, Says(Downloaded)) == if PartlyDownloaded(n, h) then 1 else 0
  {
    AnswerTally(Message(Downloaded, r.requestId), Downloaded);
    if PartlyDownloaded(n, h) then [Message(Downloaded, r.requestId)] else []
  }

  lemma InvalidSignatureTrace(n: nat, h: seq<Report>, r: Report)
    requires !Failed(h) && r.status == InvalidSignature
    ensures Trace(n, h + [r]) == Trace(n, h) + Forced(n, h, r) + [Message(InvalidSignature, r.requestId)]
  {
    TraceSnoc(n, h, r);
    assert Answer(n, h, r) == Forced(n, h, r) + [Message(InvalidSignature, r.requestId)];
    Associative(Trace(n, h), Forced(n, h, r), [Message(InvalidSignature, r.requestId)]);
  }

  /** When the first failure is InvalidSignature, Downloaded was published before it if and only if some board
      had reported Downloaded, and exactly once if and only if the 32-bit counter had not wrapped around. */
  lemma InvalidSignatureOrder(n: nat, h: seq<Report>, r: Report) returns (shown: seq<Message>)
    requires 0 < n < UINT_RANGE && !Failed(h) && r.status == InvalidSignature
    ensures Trace(n, h + [r]) == shown + [Message(InvalidSignature, r.requestId)]
    ensures Tally(shown, Says(Downloaded)) > 0 <==> Seen(h, Downloaded)
    ensures Tally(shown, Says(Downloaded)) == 1 <==> 0 < Tally(h, Reports(Downloaded)) <= UINT_RANGE
  {
    shown := Trace(n, h) + Forced(n, h, r);
    InvalidSignatureTrace(n, h, r);
    TallyAppend(Trace(n, h), Forced(n, h, r), Says(Downloaded));
    PublishedAsOftenAs(n, h, Downloaded);
    SeenIsTally(h, Downloaded);
    WrapAround(Tally(h, Reports(Downloaded)), n);
  }

  /** If the failing board had itself reported Downloaded and no board did so twice, that is exactly once. */
  lemma InvalidSignatureAfterOwnDownloaded(n: nat, h: seq<Report>, r: Report) returns (shown: seq<Message>)
    requires 0 < n < UINT_RANGE && FromBoards(n, h) && !Failed(h) && r.status == InvalidSignature
    requires OncePerBoard(h, Downloaded) && r.board in Boards(h, Downloaded)
    ensures Trace(n, h + [r]) == shown + [Message(InvalidSignature, r.requestId)]
    ensures Tally(shown, Says(Downloaded)) == 1
  {
    shown := InvalidSignatureOrder(n, h, r);
    TallyIsComplete(n, h, Downloaded);
    var i :| 0 <= i < |h| && h[i].status == Downloaded && h[i].board == r.board;
    assert Seen(h, Downloaded);
    SeenIsTally(h, Downloaded);
  }

  /** The order the source's comment promises fails when no board reported Downloaded. */
  lemma InvalidSignatureWithoutDownloaded(n: nat, b: nat, id: int)
    requires b < n
    ensures Trace(n, [Report(b, InvalidSignature, id)]) == [Message(InvalidSignature, id)]
  {
    var r := Report(b, InvalidSignature, id);
    assert Count32([], Downloaded) == 0 && !Failed([]);
    assert Answer(n, [], r) == [Message(InvalidSignature, id)];
    assert [] + [r] == [r];
    TraceSnoc(n, [], r);
  }
}
