/** Log uploads seen from outside: per log type at most one upload, with the history of its feedback.
    The aggregator's two maps do not appear here. */
module UploadSpec {
  import opened Wrappers
  import opened Sequences
  import opened UploadRetry

  /** A board's final feedback: it uploaded its file, or failed in some way. */
  datatype Final = Final(board: nat, uploaded: bool)

  /** What the worker thread was given when it was started. */
  datatype Order = Order(tarball: string, location: string, maxRetries: nat, replyId: int)

  datatype Upload = Upload(
    id: int,
    order: Order,
    files: seq<string>, // the file names that the boards announced, filtered
    finals: seq<Final>, // the final feedback received while the upload was running
    cancelled: bool,
    discarded: bool,    // feedback that came after the cancellation removed the record
    waiting: bool       // the worker has begun to wait for feedback
  )

  /** The state of a log type in use. */
  datatype Slot =
    | Live(upload: Upload) // a worker is alive
    | Blocked(id: int)     // a request was rejected; there is no worker
  {
    function Id(): int {
      match this case Live(u) => u.id case Blocked(i) => i
    }

    predicate Running() {
      Live? && !upload.cancelled
    }
  }

  type Slots = map<string, Slot>

  /** A board's answer to an upload request. */
  datatype Reply = Reply(accepted: bool, fileName: string)

  datatype Event =
    | Request(logType: string, id: int, order: Order, replies: seq<Reply>)
    | Feedback(board: nat, feedbackId: int, status: LogStatus)
    | Begin(logType: string)  // the worker starts to wait
    | Finish(logType: string) // the worker's wait ends, and it runs to its end

  /** UploadLogsRequest; an absent type is OCPP 1.6. */
  datatype UploadLogsRequest = UploadLogsRequest(
    logType: Option<string>, requestId: Option<int>, location: string, retries: Option<int>
  )
  {
    /** The event that handling this request is. The random id, the generated file name and the configured
        retries are inputs. */
    function Event(randomId: int, tarball: string, defaultRetries: int, replies: seq<Reply>): Event
      requires -0x8000_0000 <= retries.ValueOr(defaultRetries) < 0x8000_0000
    {
      Request(logType.ValueOr("{undefined}"), requestId.ValueOr(randomId),
              Order(tarball, location, AsUnsigned(retries.ValueOr(defaultRetries)), requestId.ValueOr(0)), replies)
    }
  }

  datatype Response = Accepted | Rejected | AcceptedAsCancel

  predicate AllAccept(replies: seq<Reply>) {
    forall i :: 0 <= i < |replies| ==> replies[i].accepted
  }

  predicate IsFinal(status: LogStatus) {
    !status.Uploading? && !status.Idle?
  }

  // ---------- file names ----------

  /** std::filesystem::path::filename: what follows the last slash. */
  function BaseName(path: string): string {
    if path == [] || path[|path| - 1] == '/' then []
    else BaseName(path[..|path| - 1]) + [path[|path| - 1]]
  }

  /** The name under which a board's file is expected. */
  function Filtered(path: string): string {
    var name := BaseName(path);
    if name == "." || name == ".." then "" else name
  }

  lemma {:induction false} BaseNameHasNoSlash(path: string)
    ensures '/' !in BaseName(path)
    ensures '/' !in path ==> BaseName(path) == path
  {
    if path == [] || path[|path| - 1] == '/' {
    } else {
      BaseNameHasNoSlash(path[..|path| - 1]);
    }
  }

  /** What follows the last slash is kept, whatever precedes it. */
  lemma {:induction false} BaseNameAfterSlash(directory: string, name: string)
    requires '/' !in name
    ensures BaseName(directory + "/" + name) == name
  {
    var path := directory + "/" + name;
    if name == [] {
    } else {
      var init := name[..|name| - 1];
      assert path[..|path| - 1] == directory + "/" + init;
      BaseNameAfterSlash(directory, init);
      assert name == init + [name[|name| - 1]];
    }
  }

  /** A filtered name is a single path component, and not one of the two that stand for directories; a name that is
      such a component already is kept. */
  lemma FilteredIsSafe(path: string)
    ensures var name := Filtered(path);
            '/' !in name && name != "." && name != ".."
    ensures '/' !in path && path != "." && path != ".." ==> Filtered(path) == path
  {
    BaseNameHasNoSlash(path);
  }

  /** Of a path only the part after the last slash is kept, and not even that if it stands for a directory. */
  lemma FilteredAfterSlash(directory: string, name: string)
    requires '/' !in name
    ensures Filtered(directory + "/" + name) == if name == "." || name == ".." then "" else name
    ensures Filtered(".") == "" && Filtered("..") == ""
  {
    BaseNameAfterSlash(directory, name);
    BaseNameHasNoSlash(".");
    BaseNameHasNoSlash("..");
  }

  function FilteredNames(replies: seq<Reply>): (names: seq<string>)
    ensures |names| == |replies|
  {
    seq(|replies|, i requires 0 <= i < |replies| => Filtered(replies[i].fileName))
  }

  // ---------- steps ----------

  ghost predicate FreshId(slots: Slots, id: int) {
    forall t :: t in slots ==> slots[t].Id() != id
  }

  /** Request ids are unique, as the source assumes; the worker events come from existing threads. */
  ghost predicate Possible(n: nat, slots: Slots, e: Event) {
    match e
    case Request(t, id, _, replies) => |replies| == n && (t !in slots ==> FreshId(slots, id))
    case Feedback(b, _, _) => b < n
    case Begin(t) => t in slots && slots[t].Live? && !slots[t].upload.waiting
    case Finish(t) => t in slots && slots[t].Live? && slots[t].upload.waiting
  }

  function Responds(slots: Slots, e: Event): Response
    requires e.Request?
  {
    if e.logType in slots then AcceptedAsCancel
    else if AllAccept(e.replies) then Accepted
    else Rejected
  }

  function NewUpload(id: int, order: Order, replies: seq<Reply>): Upload {
    Upload(id, order, FilteredNames(replies), [], false, false, false)
  }

  function CancelledSlot(slot: Slot): Slot {
    match slot case Live(u) => Live(u.(cancelled := true)) case Blocked(_) => slot
  }

  /** A request of a new log type starts an upload or, rejected, blocks the type; any other request cancels. */
  function Requested(slots: Slots, t: string, id: int, order: Order, replies: seq<Reply>): Slots {
    if t in slots then slots[t := CancelledSlot(slots[t])]
    else slots[t := if AllAccept(replies) then Live(NewUpload(id, order, replies)) else Blocked(id)]
  }

  /** Final feedback counts for a running upload, and removes the record of one that is not running any more. */
  function FedBack(slot: Slot, b: nat, id: int, status: LogStatus): Slot {
    if !slot.Live? || slot.upload.id != id || !IsFinal(status) then slot
    else if slot.upload.cancelled then Live(slot.upload.(discarded := true))
    else Live(slot.upload.(finals := slot.upload.finals + [Final(b, status.Uploaded?)]))
  }

  ghost function Step(n: nat, slots: Slots, e: Event): Slots
    requires Possible(n, slots, e)
  {
    match e
    case Request(t, id, order, replies) => Requested(slots, t, id, order, replies)
    case Feedback(b, id, status) => map t | t in slots :: FedBack(slots[t], b, id, status)
    case Begin(t) => slots[t := Live(slots[t].upload.(waiting := true))]
    case Finish(t) => slots - {t}
  }

  ghost predicate IsHistory(n: nat, slots: Slots, events: seq<Event>)
    decreases |events|
  {
    events == [] || (Possible(n, slots, events[0]) && IsHistory(n, Step(n, slots, events[0]), events[1..]))
  }

  ghost function After(n: nat, slots: Slots, events: seq<Event>): Slots
    requires IsHistory(n, slots, events)
    decreases |events|
  {
    if events == [] then slots else After(n, Step(n, slots, events[0]), events[1..])
  }

  // ---------- what the worker goes by ----------

  /** The wait is over: feedback from all boards, as the 32-bit counter sees it, or a cancellation. */
  predicate WaitDone(n: nat, u: Upload) {
    |u.finals| % UINT_RANGE == n || u.cancelled
  }

  ghost predicate FailedAt(u: Upload, board: nat) {
    exists k :: 0 <= k < |u.finals| && u.finals[k].board == board && !u.finals[k].uploaded
  }

  lemma FailedAtSnoc(u: Upload, f: Final, b: nat)
    ensures FailedAt(u.(finals := u.finals + [f]), b) <==> FailedAt(u, b) || (f.board == b && !f.uploaded)
  {
    var u' := u.(finals := u.finals + [f]);
    if k :| 0 <= k < |u.finals| && u.finals[k].board == b && !u.finals[k].uploaded {
      assert u'.finals[k] == u.finals[k];
    }
    assert u'.finals[|u.finals|] == f;
  }

  /** The file expected from `board`, or nothing if it announced none or reported a failure. */
  ghost function FileOf(u: Upload, board: nat): string {
    if board < |u.files| && !FailedAt(u, board) then u.files[board] else ""
  }

  /** The helper's file arguments: the expected files in ascending order of the boards. */
  ghost function Expected(u: Upload, n: nat): seq<string> {
    if n == 0 then [] else Expected(u, n - 1) + if FileOf(u, n - 1) == "" then [] else [FileOf(u, n - 1)]
  }
}
