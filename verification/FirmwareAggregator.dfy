/** The firmware half of the SystemAggregator: counters, flags and the latch, updated in place. */
module FirmwareAggregator {
  import opened Sequences
  import opened FirmwareSpec

  /** The counter of `s`; std::map creates a missing one as 0. */
  function Counted(counter: map<Status, nat>, s: Status): nat {
    if s in counter then counter[s] else 0
  }

  /** The flag of `s`; std::map creates a missing one as false. */
  predicate Flagged(alreadyReported: map<Status, bool>, s: Status) {
    s in alreadyReported && alreadyReported[s]
  }

  /** While no failure was published, counters and flags summarise the reports `h` of the epoch. */
  ghost predicate Tracks(counter: map<Status, nat>, alreadyReported: map<Status, bool>, h: seq<Report>) {
    && (forall s :: IsSummarised(s) ==> Counted(counter, s) == Count32(h, s))
    && (forall s :: Flagged(alreadyReported, s) ==> s == Downloading)
    && (Flagged(alreadyReported, Downloading) <==> Seen(h, Downloading))
  }

  function Increment(counter: map<Status, nat>, s: Status): map<Status, nat> {
    counter[s := (Counted(counter, s) + 1) % UINT_RANGE]
  }

  lemma TracksNothing()
    ensures Tracks(map[], map[], [])
  {
    forall s ensures Count32([], s) == 0 {}
  }

  lemma Count32Snoc(h: seq<Report>, r: Report, s: Status)
    ensures Count32(h + [r], s) == (Count32(h, s) + if r.status == s then 1 else 0) % UINT_RANGE
  {
    TallySnoc(h, r, Reports(s));
  }

  lemma TracksUncounted(counter: map<Status, nat>, alreadyReported: map<Status, bool>, h: seq<Report>, r: Report)
    requires Tracks(counter, alreadyReported, h) && !IsSummarised(r.status)
    requires r.status == Downloading ==> Flagged(alreadyReported, Downloading)
    ensures Tracks(counter, alreadyReported, h + [r])
  {
    SeenSnoc(h, r, Downloading);
    forall s | IsSummarised(s) ensures Counted(counter, s) == Count32(h + [r], s) {
      Count32Snoc(h, r, s);
    }
  }

  lemma TracksSummarised(counter: map<Status, nat>, alreadyReported: map<Status, bool>, h: seq<Report>, r: Report)
    requires Tracks(counter, alreadyReported, h) && IsSummarised(r.status)
    ensures Tracks(Increment(counter, r.status), alreadyReported, h + [r])
  {
    SeenSnoc(h, r, Downloading);
    var counter' := Increment(counter, r.status);
    forall s | IsSummarised(s) ensures Counted(counter', s) == Count32(h + [r], s) {
      assert Counted(counter, s) == Count32(h, s);
      Count32Snoc(h, r, s);
    }
  }

  lemma TracksDownloading(counter: map<Status, nat>, alreadyReported: map<Status, bool>, h: seq<Report>, r: Report)
    requires Tracks(counter, alreadyReported, h) && r.status == Downloading
    ensures Tracks(counter, alreadyReported[Downloading := true], h + [r])
  {
    var alreadyReported' := alreadyReported[Downloading := true];
    forall s | Flagged(alreadyReported', s) ensures s == Downloading {
      assert s != Downloading ==> Flagged(alreadyReported, s);
    }
    SeenSnoc(h, r, Downloading);
    forall s | IsSummarised(s) ensures Counted(counter, s) == Count32(h + [r], s) {
      Count32Snoc(h, r, s);
    }
  }

  /** What the publication of a report may look like: the report itself, or Downloaded forced out by InvalidSignature. */
  predicate Echoes(messages: seq<Message>, r: Report) {
    forall m :: m in messages ==>
      m.requestId == r.requestId && (m.status == r.status || (m.status == Downloaded && r.status == InvalidSignature))
  }

  predicate EndsWith(messages: seq<Message>, m: Message) {
    messages != [] && messages[|messages| - 1] == m
  }

  lemma AnswerEchoes(n: nat, published: seq<Message>, h: seq<Report>, r: Report)
    ensures (published + Answer(n, h, r))[|published|..] == Answer(n, h, r) && Echoes(Answer(n, h, r), r)
    ensures !Failed(h) && IsFailure(r.status) ==> EndsWith(published + Answer(n, h, r), Message(r.status, r.requestId))
    ensures published + [] == published && Echoes([], r)
  {}

  class Aggregator {
    const systems: nat // the number of connected boards

    var counter: map<Status, nat>
    var alreadyReported: map<Status, bool>
    var finalReported: bool
    var published: seq<Message>

    ghost const latch: bool // what the latch, which has no initialiser, contained at start-up
    ghost var past: seq<seq<Report>> // completed epochs
    ghost var epoch: seq<Report> // reports since the last update request

    ghost predicate Muted()
      reads this
    {
      past == [] && latch
    }

    ghost predicate Valid()
      reads this
    {
      && published == Owed(systems, latch, past, epoch)
      && finalReported == (Failed(epoch) || Muted())
      && (!finalReported ==> Tracks(counter, alreadyReported, epoch))
    }

    constructor (systems: nat, uninitialised: bool)
      ensures Valid()
      ensures this.systems == systems && latch == uninitialised && past == [] && epoch == [] && published == []
    {
      this.systems := systems;
      counter, alreadyReported, finalReported := map[], map[], uninitialised;
      published := [];
      latch := uninitialised;
      past, epoch := [], [];
      OwedAtStart(systems, uninitialised);
      TracksNothing();
    }

    /** handle_update_firmware, up to the calls it then makes to the boards. */
    method HandleUpdateFirmware()
      requires Valid()
      modifies this
      ensures Valid()
      ensures past == old(past) + [old(epoch)] && epoch == [] && published == old(published)
    {
      counter := map[];
      alreadyReported := map[];
      finalReported := false;
      OwedNewEpoch(systems, latch, past, epoch);
      TracksNothing();
      past, epoch := past + [epoch], [];
    }

    /** The firmware status callback of board `r.board`. */
    method OnFirmwareUpdateStatus(r: Report)
      requires Valid() && r.board < systems
      modifies this
      ensures Valid()
      ensures past == old(past) && epoch == old(epoch) + [r]
      ensures published == old(published) + if old(Muted()) then [] else Answer(systems, old(epoch), r)
      ensures old(published) <= published && Echoes(published[|old(published)|..], r)
      ensures !old(finalReported)
              && r.status in {DownloadFailed, InstallationFailed, InstallVerificationFailed, InvalidSignature}
              ==> finalReported && EndsWith(published, Message(r.status, r.requestId))
    {
      OwedReport(systems, latch, past, epoch, r);
      FailedSnoc(epoch, r);
      AnswerEchoes(systems, published, epoch, r);
      if !finalReported {
        Classify(r);
      }
      epoch := epoch + [r];
    }

    /** The rest of the callback, once no failure has been published in this epoch. */
    method Classify(r: Report)
      requires !finalReported && !Failed(epoch) && Tracks(counter, alreadyReported, epoch)
      modifies this`counter, this`alreadyReported, this`finalReported, this`published
      ensures finalReported == IsFailure(r.status)
      ensures !finalReported ==> Tracks(counter, alreadyReported, epoch + [r])
      ensures published == old(published) + Answer(systems, epoch, r)
    {
      match r.status
      case DownloadScheduled | DownloadPaused | InstallRebooting | InstallScheduled | SignatureVerified =>
        TracksUncounted(counter, alreadyReported, epoch, r);
        if r.board == 0 {
          Publish(r.status, r.requestId);
        }
      case Downloaded | Idle | Installing | Installed =>
        Summarise(r);
      case DownloadFailed | Downloading | InstallationFailed | InstallVerificationFailed | InvalidSignature =>
        ReportOnce(r);
    }

    /** Summarised statuses: count, and publish when all reported. */
    method Summarise(r: Report)
      requires IsSummarised(r.status) && !Failed(epoch) && Tracks(counter, alreadyReported, epoch)
      modifies this`counter, this`published
      ensures Tracks(counter, alreadyReported, epoch + [r])
      ensures published == old(published) + Answer(systems, epoch, r)
    {
      TracksSummarised(counter, alreadyReported, epoch, r);
      counter := Increment(counter, r.status);
      if Counted(counter, r.status) == systems {
        Publish(r.status, r.requestId);
      }
    }

    /** Downloading and the failures: published at once, but only once; a failure sets the latch. */
    method ReportOnce(r: Report)
      requires r.status == Downloading || IsFailure(r.status)
      requires !finalReported && !Failed(epoch) && Tracks(counter, alreadyReported, epoch)
      modifies this`counter, this`alreadyReported, this`finalReported, this`published
      ensures finalReported == IsFailure(r.status)
      ensures !finalReported ==> Tracks(counter, alreadyReported, epoch + [r])
      ensures published == old(published) + Answer(systems, epoch, r)
      ensures r.status != Downloading ==> EndsWith(published, Message(r.status, r.requestId))
    {
      if r.status == Downloading {
        TracksDownloading(counter, alreadyReported, epoch, r);
        SeenSnoc(epoch, r, Downloading);
      }
      if r.status == InvalidSignature && 0 < Counted(counter, Downloaded) < systems {
        Publish(Downloaded, r.requestId);
        counter := counter[Downloaded := systems % UINT_RANGE];
      }
      if !Flagged(alreadyReported, r.status) {
        Publish(r.status, r.requestId);
        alreadyReported := alreadyReported[r.status := true];
        if r.status != Downloading {
          finalReported := true;
        }
      } else {
        TracksUncounted(counter, alreadyReported, epoch, r);
      }
    }

    method Publish(status: Status, requestId: int)
      modifies this`published
      ensures published == old(published) + [Message(status, requestId)]
    {
      published := published + [Message(status, requestId)];
    }
  }
}
