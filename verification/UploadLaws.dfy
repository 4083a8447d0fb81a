/** Laws of log uploads over whole runs. */
module UploadLaws {
  import opened Sequences
  import opened UploadRetry
  import opened UploadSpec

  // ---------- cancellation, rejection, and what becomes of the log type ----------

  /** A rejected request blocks its log type for good: no event frees it, and every later request of the type is
      taken for a cancellation and reaches no board. */
  lemma {:induction false} RejectedForEver(n: nat, slots: Slots, events: seq<Event>, t: string)
    requires t in slots && slots[t].Blocked? && IsHistory(n, slots, events)
    ensures t in After(n, slots, events) && After(n, slots, events)[t] == slots[t]
    ensures forall e: Event :: e.Request? && e.logType == t ==> Responds(After(n, slots, events), e) == AcceptedAsCancel
    decreases |events|
  {
    if events == [] {
    } else {
      RejectedForEver(n, Step(n, slots, events[0]), events[1..], t);
    }
  }

  /** Final feedback for upload `id`. */
  predicate IsFinalFor(e: Event, id: int) {
    e.Feedback? && e.feedbackId == id && IsFinal(e.status)
  }

  ghost predicate SomeFinalFor(events: seq<Event>, id: int) {
    exists i :: 0 <= i < |events| && IsFinalFor(events[i], id)
  }

  lemma SomeFinalForFirst(events: seq<Event>, id: int)
    requires events != []
    ensures SomeFinalFor(events, id) <==> IsFinalFor(events[0], id) || SomeFinalFor(events[1..], id)
  {
    var rest := events[1..];
    if i :| 0 <= i < |events| && IsFinalFor(events[i], id) {
      assert i > 0 ==> rest[i - 1] == events[i];
    }
    if i :| 0 <= i < |rest| && IsFinalFor(rest[i], id) {
      assert events[i + 1] == rest[i];
    }
  }

  /** A cancelled upload stays cancelled, and records no more feedback, until its worker finishes. Its record is
      lost exactly if final feedback for it comes in the meantime. */
  lemma {:induction false} CancelledUntilFinish(n: nat, slots: Slots, events: seq<Event>, t: string)
    requires t in slots && slots[t].Live? && slots[t].upload.cancelled && IsHistory(n, slots, events)
    requires Finish(t) !in events
    ensures var end, u := After(n, slots, events), slots[t].upload;
            && t in end && end[t].Live?
            && end[t].upload.(waiting := true) ==
               u.(waiting := true, discarded := u.discarded || SomeFinalFor(events, u.id))
    decreases |events|
  {
    if events == [] {
    } else {
      assert events[0] in events;
      forall e | e in events[1..] ensures e in events {}
      SomeFinalForFirst(events, slots[t].upload.id);
      CancelledUntilFinish(n, Step(n, slots, events[0]), events[1..], t);
    }
  }

  /** A second request cancels the first one; once the worker is done the type is free, and a third request is
      passed to the boards again, whatever else happened in between. */
  lemma CancelThenFresh(n: nat, slots: Slots, cancel: Event, events: seq<Event>, again: Event)
    requires cancel.Request? && cancel.logType in slots && slots[cancel.logType].Live? && Possible(n, slots, cancel)
    requires IsHistory(n, Step(n, slots, cancel), events) && Finish(cancel.logType) !in events
    requires Possible(n, After(n, Step(n, slots, cancel), events), Finish(cancel.logType))
    requires again.Request? && again.logType == cancel.logType
    ensures Responds(slots, cancel) == AcceptedAsCancel
    ensures Step(n, slots, cancel) == slots[cancel.logType := Live(slots[cancel.logType].upload.(cancelled := true))]
    ensures var before := After(n, Step(n, slots, cancel), events);
            && before[cancel.logType].upload.cancelled
            && Responds(Step(n, before, Finish(cancel.logType)), again) == if AllAccept(again.replies) then Accepted else Rejected
  {
    CancelledUntilFinish(n, Step(n, slots, cancel), events, cancel.logType);
  }

  // ---------- feedback ----------

  ghost predicate OnceEach(finals: seq<Final>) {
    forall i, j :: 0 <= i < j < |finals| ==> finals[i].board != finals[j].board
  }

  ghost predicate FinalsFromBoards(n: nat, finals: seq<Final>) {
    forall i :: 0 <= i < |finals| ==> finals[i].board < n
  }

  ghost function Heard(finals: seq<Final>): set<nat> {
    set i | 0 <= i < |finals| :: finals[i].board
  }

  ghost predicate AllHeard(n: nat, finals: seq<Final>) {
    forall b: nat :: b < n ==> b in Heard(finals)
  }

  /** There are as many feedbacks as boards heard exactly if no board repeats itself. */
  lemma {:induction false} HeardOnce(finals: seq<Final>)
    ensures |Heard(finals)| <= |finals|
    ensures |Heard(finals)| == |finals| <==> OnceEach(finals)
  {
    if finals == [] {
      assert Heard(finals) == {};
    } else {
      var init, last := finals[..|finals| - 1], finals[|finals| - 1];
      HeardOnce(init);
      assert Heard(finals) == Heard(init) + {last.board};
      OnceEachSnoc(init, last);
      assert finals == init + [last];
    }
  }

  lemma OnceEachSnoc(finals: seq<Final>, f: Final)
    ensures OnceEach(finals + [f]) <==> OnceEach(finals) && f.board !in Heard(finals)
  {
    var all := finals + [f];
    forall i | 0 <= i < |finals| ensures all[i] == finals[i] {}
    assert all[|finals|] == f;
  }

  lemma HeardFromBoards(n: nat, finals: seq<Final>)
    requires FinalsFromBoards(n, finals)
    ensures |Heard(finals)| <= n
    ensures |Heard(finals)| == n <==> AllHeard(n, finals)
  {
    Pigeonhole(n, Heard(finals));
  }

  /** With one final feedback per board, an uncancelled upload's wait is over exactly when every board has
      reported, and then it stays so because no further feedback can come. */
  lemma WaitDoneIffAllHeard(n: nat, u: Upload)
    requires n < UINT_RANGE && FinalsFromBoards(n, u.finals) && OnceEach(u.finals) && !u.cancelled
    ensures |u.finals| <= n
    ensures WaitDone(n, u) <==> AllHeard(n, u.finals)
    ensures WaitDone(n, u) ==> forall f: Final :: f.board < n ==> !OnceEach(u.finals + [f])
  {
    HeardOnce(u.finals);
    HeardFromBoards(n, u.finals);
    if WaitDone(n, u) {
      forall f: Final | f.board < n ensures !OnceEach(u.finals + [f]) {
        OnceEachSnoc(u.finals, f);
      }
    }
  }

  /** Missed: once all boards are heard, the wait is over exactly if none repeated itself, or the counter has wrapped
      around to N once more. */
  lemma MissedIff(n: nat, u: Upload)
    requires n < UINT_RANGE && FinalsFromBoards(n, u.finals) && !u.cancelled && AllHeard(n, u.finals)
    ensures WaitDone(n, u) <==> OnceEach(u.finals) || (|u.finals| > n && (|u.finals| - n) % UINT_RANGE == 0)
  {
    HeardOnce(u.finals);
    HeardFromBoards(n, u.finals);
  }

  /** Premature: when N feedbacks end the wait, some board is unheard exactly if another one repeated itself. */
  lemma PrematureIff(n: nat, u: Upload)
    requires n < UINT_RANGE && FinalsFromBoards(n, u.finals) && |u.finals| == n
    ensures WaitDone(n, u)
    ensures AllHeard(n, u.finals) <==> OnceEach(u.finals)
  {
    HeardOnce(u.finals);
    HeardFromBoards(n, u.finals);
  }

  /** The upload as it was after its first `k` feedbacks. */
  function Earlier(u: Upload, k: nat): Upload
    requires k <= |u.finals|
  {
    u.(finals := u.finals[..k])
  }

  /** After `k` feedbacks, the wait is over if and only if all boards have reported. */
  ghost predicate RightAt(n: nat, u: Upload, k: nat)
    requires k <= |u.finals|
  {
    WaitDone(n, Earlier(u, k)) <==> AllHeard(n, u.finals[..k])
  }

  lemma FewAreRight(n: nat, u: Upload, k: nat)
    requires n < UINT_RANGE && FinalsFromBoards(n, u.finals) && !u.cancelled && k <= |u.finals| && k < n
    ensures RightAt(n, u, k)
  {
    HeardOnce(u.finals[..k]);
    HeardFromBoards(n, u.finals[..k]);
  }

  /** The wait condition is right at every moment of an uncancelled upload if and only if fewer than N feedbacks
      came, or none was a repetition. */
  lemma WaitIsRightIff(n: nat, u: Upload)
    requires n < UINT_RANGE && FinalsFromBoards(n, u.finals) && !u.cancelled
    ensures (forall k: nat :: k <= |u.finals| ==> RightAt(n, u, k)) <==> |u.finals| < n || OnceEach(u.finals)
  {
    if |u.finals| < n || OnceEach(u.finals) {
      forall k: nat | k <= |u.finals| ensures RightAt(n, u, k) {
        if k < n {
          FewAreRight(n, u, k);
        } else {
          HeardOnce(u.finals);
          HeardFromBoards(n, u.finals);
          assert u.finals[..k] == u.finals;
          WaitDoneIffAllHeard(n, u);
        }
      }
    } else if RightAt(n, u, n) {
      PrematureIff(n, Earlier(u, n));
      WrongAfterAll(n, u);
    }
  }

  /** The feedback after N good ones makes the condition false although all boards have reported. */
  lemma WrongAfterAll(n: nat, u: Upload)
    requires n < UINT_RANGE && FinalsFromBoards(n, u.finals) && !u.cancelled
    requires |u.finals| >= n && AllHeard(n, u.finals[..n]) && !OnceEach(u.finals)
    ensures |u.finals| > n && !RightAt(n, u, n + 1)
  {
    var first := u.finals[..n];
    HeardOnce(first);
    HeardFromBoards(n, first);
    assert u.finals[..|u.finals|] == u.finals;
    if |u.finals| > n {
      assert u.finals[..n + 1] == first + [u.finals[n]];
      HeardMore(n, first, u.finals[n]);
    }
  }

  lemma HeardMore(n: nat, finals: seq<Final>, f: Final)
    requires AllHeard(n, finals)
    ensures AllHeard(n, finals + [f])
  {
    forall b | b in Heard(finals) ensures b in Heard(finals + [f]) {
      var i :| 0 <= i < |finals| && finals[i].board == b;
      assert (finals + [f])[i] == finals[i];
    }
  }

  /** Two boards: a repetition makes the worker miss the moment at which both have reported ... */
  lemma RepeatedFeedbackMissed(u: Upload)
    requires u.finals == [Final(0, true), Final(1, true), Final(1, true)] && !u.cancelled
    ensures !WaitDone(2, u) && AllHeard(2, u.finals)
  {
    assert u.finals[0].board == 0 && u.finals[1].board == 1;
  }

  /** ... or stand in for the board that has not reported. */
  lemma RepeatedFeedbackPremature(u: Upload)
    requires u.finals == [Final(0, true), Final(0, true)]
    ensures WaitDone(2, u) && !AllHeard(2, u.finals)
  {
    assert 1 !in Heard(u.finals);
  }

  // ---------- what the boards' feedback does to their files ----------

  /** Some feedback of board `b` for upload `id` says neither that it is at work nor that it succeeded. */
  ghost predicate SomeFailureFrom(events: seq<Event>, id: int, b: nat) {
    exists i :: 0 <= i < |events| && IsFailureFrom(events[i], id, b)
  }

  predicate IsFailureFrom(e: Event, id: int, b: nat) {
    e.Feedback? && e.board == b && e.feedbackId == id && e.status != Uploading && e.status != Idle && e.status != Uploaded
  }

  lemma SomeFailureFromFirst(events: seq<Event>, id: int, b: nat)
    requires events != []
    ensures SomeFailureFrom(events, id, b) <==> IsFailureFrom(events[0], id, b) || SomeFailureFrom(events[1..], id, b)
  {
    var rest := events[1..];
    if i :| 0 <= i < |events| && IsFailureFrom(events[i], id, b) {
      assert i > 0 ==> rest[i - 1] == events[i];
    }
    if i :| 0 <= i < |rest| && IsFailureFrom(rest[i], id, b) {
      assert events[i + 1] == rest[i];
    }
  }

  /** Neither a cancellation nor the end of the upload of type `t`. */
  predicate LeavesRunning(e: Event, t: string) {
    !(e.Request? && e.logType == t) && e != Finish(t)
  }

  lemma RunningStep(n: nat, slots: Slots, e: Event, t: string, b: nat)
    requires t in slots && slots[t].Running() && Possible(n, slots, e) && LeavesRunning(e, t)
    ensures var u, slots' := slots[t].upload, Step(n, slots, e);
            && t in slots' && slots'[t].Running() && slots'[t].upload.id == u.id && slots'[t].upload.files == u.files
            && |slots'[t].upload.finals| == |u.finals| + CountedFor(e, u.id)
            && (FailedAt(slots'[t].upload, b) <==> FailedAt(u, b) || IsFailureFrom(e, u.id, b))
  {
    var u, u' := slots[t].upload, Step(n, slots, e)[t].upload;
    if e.Feedback? && u'.finals != u.finals {
      FailedAtSnoc(u, Final(e.board, e.status.Uploaded?), b);
    } else {
      assert u'.finals == u.finals;
      assert FailedAt(u', b) <==> FailedAt(u, b);
    }
  }

  /** 1 for a status of upload `id` other than Uploading and Idle. */
  function CountedFor(e: Event, id: int): nat {
    if e.Feedback? && e.feedbackId == id && e.status != Uploading && e.status != Idle then 1 else 0
  }

  function AllCountedFor(events: seq<Event>, id: int): nat {
    if events == [] then 0 else CountedFor(events[0], id) + AllCountedFor(events[1..], id)
  }

  /** While an upload runs, every status for it but Uploading and Idle is counted, whoever it comes from; and a board's
      announced file is expected exactly as long as the board has sent no status but Uploading, Idle and Uploaded. */
  lemma {:induction false} RunningUntilCancelled(n: nat, slots: Slots, events: seq<Event>, t: string, b: nat)
    requires t in slots && slots[t].Running() && IsHistory(n, slots, events)
    requires forall i :: 0 <= i < |events| ==> LeavesRunning(events[i], t)
    ensures var u, end := slots[t].upload, After(n, slots, events);
            && t in end && end[t].Running() && end[t].upload.files == u.files
            && |end[t].upload.finals| == |u.finals| + AllCountedFor(events, u.id)
            && (FailedAt(end[t].upload, b) <==> FailedAt(u, b) || SomeFailureFrom(events, u.id, b))
    decreases |events|
  {
    if events == [] {
    } else {
      RunningStep(n, slots, events[0], t, b);
      SomeFailureFromFirst(events, slots[t].upload.id, b);
      RunningUntilCancelled(n, Step(n, slots, events[0]), events[1..], t, b);
    }
  }

  /** From its request on: a running upload expects the file that board `b` announced, unless the board has sent a
      status other than Uploading, Idle and Uploaded; then it expects none. */
  lemma FileExpectedIff(n: nat, slots: Slots, request: Event, events: seq<Event>, b: nat)
    requires request.Request? && request.logType !in slots && Possible(n, slots, request) && AllAccept(request.replies)
    requires IsHistory(n, Step(n, slots, request), events) && b < n
    requires forall i :: 0 <= i < |events| ==> LeavesRunning(events[i], request.logType)
    ensures var end := After(n, Step(n, slots, request), events);
            && request.logType in end && end[request.logType].Running()
            && FileOf(end[request.logType].upload, b) ==
               (if SomeFailureFrom(events, request.id, b) then "" else Filtered(request.replies[b].fileName))
            && |end[request.logType].upload.finals| == AllCountedFor(events, request.id)
  {
    RunningUntilCancelled(n, Step(n, slots, request), events, request.logType, b);
  }

  /** A file is passed to the helper, once and in the order of the boards, exactly if its board announced it and
      reported no failure. `boards` are the boards whose files are passed. */
  lemma {:induction false} ExpectedFiles(u: Upload, n: nat) returns (boards: seq<nat>)
    requires n <= |u.files|
    ensures |boards| == |Expected(u, n)|
    ensures forall k :: 0 <= k < |boards| ==> boards[k] < n && Expected(u, n)[k] == u.files[boards[k]]
    ensures forall j, k :: 0 <= j < k < |boards| ==> boards[j] < boards[k]
    ensures forall b: nat :: b < n ==> (b in boards <==> u.files[b] != "" && !FailedAt(u, b))
  {
    if n == 0 {
      boards := [];
    } else {
      boards := ExpectedFiles(u, n - 1);
      if FileOf(u, n - 1) != "" {
        boards := boards + [n - 1];
      }
    }
  }
}
