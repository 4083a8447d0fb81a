/** The log-upload half of the SystemAggregator: two maps under one mutex, updated in place by the upload
    request, by the boards' status callbacks and by the detached workers. Each method is one critical section. */
module UploadAggregator {
  import opened Wrappers
  import opened Sequences
  import opened UploadRetry
  import opened UploadSpec

  /** systemaggregator_upload_log_request. */
  datatype Record = Record(
    requestId: int,
    logType: string,
    filename: string,
    isRunning: bool,
    feedbackCount: nat,
    incoming: map<nat, string>
  )

  /** What std::map's operator[] creates for a missing key. */
  const EMPTY_RECORD := Record(0, "", "", false, 0, map[])

  datatype LogMessage = LogMessage(status: LogStatus, requestId: int)

  /** A detached thread, named by what it was started with. */
  datatype Worker = Worker(logType: string, id: int, order: Order)

  const SIZE_MAX: nat := 0xFFFF_FFFF_FFFF_FFFF

  // ---------- dispatch ----------

  /** The filtered names that the boards from `low` on announced. */
  function Announced(replies: seq<Reply>, low: nat): map<nat, string> {
    map i | low <= i < |replies| :: Filtered(replies[i].fileName)
  }

  lemma AnnouncedNext(replies: seq<Reply>, i: nat)
    requires i < |replies|
    ensures Announced(replies, i) == Announced(replies, i + 1)[i := Filtered(replies[i].fileName)]
  {}

  /** Ask boards n - 1 down to 0, until one refuses. The index is unsigned: after 0 it wraps and ends the loop.
      Satellite i - 1 is asked for the address of board i. */
  method Dispatch(n: nat, satellites: nat, replies: seq<Reply>) returns (asked: seq<nat>, incoming: map<nat, string>, ok: bool)
    requires n <= SIZE_MAX && |replies| == n && n <= satellites + 1
    ensures |asked| <= n && forall k :: 0 <= k < |asked| ==> asked[k] == n - 1 - k
    ensures forall k :: 0 <= k < |asked| - 1 ==> replies[asked[k]].accepted
    ensures ok <==> AllAccept(replies)
    ensures if ok then |asked| == n else asked != [] && !replies[asked[|asked| - 1]].accepted
    ensures incoming == Announced(replies, if ok then 0 else n - |asked| + 1)
  {
    asked, incoming, ok := [], map[], true;
    var i: nat := if n == 0 then SIZE_MAX else n - 1;
    while i < n
      invariant i == SIZE_MAX || i < n
      invariant |asked| <= n && |asked| == if i < n then n - 1 - i else n
      invariant forall k :: 0 <= k < |asked| ==> asked[k] == n - 1 - k && replies[asked[k]].accepted
      invariant incoming == Announced(replies, n - |asked|)
      decreases n - |asked|
    {
      assert i > 0 ==> i - 1 < satellites; // r_satellite[i - 1] exists
      asked := asked + [i];
      if !replies[i].accepted {
        ok := false;
        return;
      }
      AnnouncedNext(replies, i);
      incoming := incoming[i := Filtered(replies[i].fileName)];
      i := if i == 0 then SIZE_MAX else i - 1;
    }
    forall j | 0 <= j < n ensures replies[j].accepted {
      assert replies[asked[n - 1 - j]].accepted;
    }
  }

  // ---------- the maps and what they stand for ----------

  ghost function FileMap(u: Upload, n: nat): map<nat, string> {
    map i | 0 <= i < n :: FileOf(u, i)
  }

  /** What the map holds for a live upload; if the record was removed, what operator[] makes of it. */
  ghost function RecordOf(t: string, u: Upload, n: nat): Record {
    if u.discarded then EMPTY_RECORD
    else Record(u.id, t, u.order.tarball, !u.cancelled, |u.finals| % UINT_RANGE, FileMap(u, n))
  }

  /** The map from log types to ids has an entry for every type in use, with different ids. */
  ghost predicate TypesOk(types: map<string, int>, slots: Slots) {
    && types.Keys == slots.Keys
    && (forall t :: t in slots ==> types[t] == slots[t].Id())
    && (forall t, u :: t in slots && u in slots && slots[t].Id() == slots[u].Id() ==> t == u)
  }

  function Lookup(records: map<int, Record>, id: int): Record {
    if id in records then records[id] else EMPTY_RECORD
  }

  /** `r` is a possible record for slot `t`: the one of its upload, or after a rejection any that does not run. */
  ghost predicate Describes(r: Record, t: string, slot: Slot, n: nat) {
    match slot
    case Live(u) => r == RecordOf(t, u, n) && |u.files| == n && (u.discarded ==> u.cancelled)
    case Blocked(_) => !r.isRunning
  }

  /** The map of records has a fitting record for every type in use, and no other record. */
  ghost predicate RecordsOk(records: map<int, Record>, slots: Slots, n: nat) {
    && (forall t :: t in slots ==> Describes(Lookup(records, slots[t].Id()), t, slots[t], n))
    && (forall id :: id in records ==> exists t :: t in slots && slots[t].Id() == id)
  }

  ghost predicate IsWorkerOf(w: Worker, slots: Slots) {
    w.logType in slots && slots[w.logType].Live? && w.id == slots[w.logType].Id() && w.order == slots[w.logType].upload.order
  }

  /** The workers that are alive are those of the live slots, one each. */
  ghost predicate WorkersOk(alive: multiset<Worker>, slots: Slots) {
    forall w :: alive[w] == if IsWorkerOf(w, slots) then 1 else 0
  }

  lemma FileMapSnoc(u: Upload, f: Final, n: nat)
    requires f.board < n
    ensures FileMap(u.(finals := u.finals + [f]), n) ==
            if f.uploaded then FileMap(u, n) else FileMap(u, n)[f.board := ""]
  {
    forall i: nat ensures FailedAt(u.(finals := u.finals + [f]), i) <==> FailedAt(u, i) || (f.board == i && !f.uploaded) {
      FailedAtSnoc(u, f, i);
    }
  }

  lemma FileMapFresh(u: Upload, n: nat, incoming: map<nat, string>)
    requires u.finals == [] && |u.files| == n && incoming == map i | 0 <= i < n :: u.files[i]
    ensures FileMap(u, n) == incoming
  {
    forall i: nat ensures !FailedAt(u, i) {}
  }

  /** The record of a running upload after a final feedback. */
  function Noted(r: Record, board: nat, status: LogStatus): Record {
    r.(feedbackCount := (r.feedbackCount + 1) % UINT_RANGE,
       incoming := if status.Uploaded? then r.incoming else r.incoming[board := ""])
  }

  lemma CountedFeedback(records: map<int, Record>, slots: Slots, n: nat, t: string, board: nat, status: LogStatus)
    requires RecordsOk(records, slots, n) && t in slots && slots[t].Running() && board < n && IsFinal(status)
    ensures var slot := FedBack(slots[t], board, slots[t].Id(), status);
            && slot.Running() && slot.Id() == slots[t].Id()
            && Describes(Noted(Lookup(records, slot.Id()), board, status), t, slot, n)
  {
    FileMapSnoc(slots[t].upload, Final(board, status.Uploaded?), n);
  }

  /** Feedback changes at most the one slot that has its id. */
  lemma FeedbackSlot(slots: Slots, t: string, b: nat, id: int, status: LogStatus)
    requires forall x, y :: x in slots && y in slots && slots[x].Id() == slots[y].Id() ==> x == y
    requires t in slots && slots[t].Id() == id
    ensures (map x | x in slots :: FedBack(slots[x], b, id, status)) == slots[t := FedBack(slots[t], b, id, status)]
  {
    forall x | x in slots && x != t ensures FedBack(slots[x], b, id, status) == slots[x] {}
  }

  lemma FeedbackNobody(slots: Slots, b: nat, id: int, status: LogStatus)
    requires forall t :: t in slots && slots[t].Id() == id ==> !IsFinal(status)
    ensures (map x | x in slots :: FedBack(slots[x], b, id, status)) == slots
  {
    forall x | x in slots ensures FedBack(slots[x], b, id, status) == slots[x] {}
  }

  // ---------- how updates of the maps keep the relation ----------

  ghost predicate OnlyOwner(slots: Slots, t: string, id: int) {
    forall x :: x in slots && slots[x].Id() == id ==> x == t
  }

  lemma TypesSet(types: map<string, int>, slots: Slots, t: string, slot: Slot)
    requires TypesOk(types, slots) && OnlyOwner(slots, t, slot.Id())
    ensures TypesOk(types[t := slot.Id()], slots[t := slot])
  {}

  lemma TypesKept(types: map<string, int>, slots: Slots, t: string, slot: Slot)
    requires TypesOk(types, slots) && t in slots && slots[t].Id() == slot.Id()
    ensures TypesOk(types, slots[t := slot]) && OnlyOwner(slots, t, slot.Id())
  {}

  lemma SameFiles(u: Upload, v: Upload, n: nat)
    requires v.files == u.files && v.finals == u.finals
    ensures FileMap(v, n) == FileMap(u, n)
  {
    forall i: nat ensures FileOf(v, i) == FileOf(u, i) {
      assert FailedAt(v, i) <==> FailedAt(u, i);
    }
  }

  lemma TypesErase(types: map<string, int>, slots: Slots, t: string)
    requires TypesOk(types, slots)
    ensures TypesOk(types - {t}, slots - {t})
  {}

  /** Slot `t` and its record change together. */
  lemma RecordsSet(records: map<int, Record>, slots: Slots, n: nat, t: string, slot: Slot, r: Record)
    requires RecordsOk(records, slots, n) && OnlyOwner(slots, t, slot.Id()) && (t in slots ==> slots[t].Id() == slot.Id())
    requires Describes(r, t, slot, n)
    ensures RecordsOk(records[slot.Id() := r], slots[t := slot], n)
  {
    var id, slots' := slot.Id(), slots[t := slot];
    var records' := records[id := r];
    forall i | i in records' ensures exists x :: x in slots' && slots'[x].Id() == i {
      if i == id {
        assert t in slots' && slots'[t].Id() == i;
      } else {
        var x :| x in slots && slots[x].Id() == i;
        assert x in slots' && slots'[x].Id() == i;
      }
    }
  }

  lemma RecordsErase(records: map<int, Record>, slots: Slots, n: nat, t: string, slot: Slot)
    requires RecordsOk(records, slots, n) && OnlyOwner(slots, t, slot.Id()) && t in slots && slots[t].Id() == slot.Id()
    requires Describes(EMPTY_RECORD, t, slot, n)
    ensures RecordsOk(records - {slot.Id()}, slots[t := slot], n)
  {
    var slots' := slots[t := slot];
    forall i | i in records - {slot.Id()} ensures exists x :: x in slots' && slots'[x].Id() == i {
      var x :| x in slots && slots[x].Id() == i;
      assert x in slots' && slots'[x].Id() == i;
    }
  }

  lemma RecordsDrop(records: map<int, Record>, slots: Slots, n: nat, t: string)
    requires RecordsOk(records, slots, n) && t in slots && OnlyOwner(slots, t, slots[t].Id())
    ensures RecordsOk(records - {slots[t].Id()}, slots - {t}, n)
  {
    var slots' := slots - {t};
    forall i | i in records - {slots[t].Id()} ensures exists x :: x in slots' && slots'[x].Id() == i {
      var x :| x in slots && slots[x].Id() == i;
      assert x in slots' && slots'[x].Id() == i;
    }
  }

  lemma CancelledOk(records: map<int, Record>, types: map<string, int>, slots: Slots, n: nat, t: string)
    requires TypesOk(types, slots) && RecordsOk(records, slots, n) && t in slots
    ensures var slots', r := slots[t := CancelledSlot(slots[t])], Lookup(records, types[t]).(isRunning := false);
            TypesOk(types, slots') && RecordsOk(records[types[t] := r], slots', n)
  {
    var slot, r := CancelledSlot(slots[t]), Lookup(records, types[t]).(isRunning := false);
    TypesKept(types, slots, t, slot);
    if slot.Live? {
      SameFiles(slots[t].upload, slot.upload, n);
    }
    RecordsSet(records, slots, n, t, slot, r);
  }

  /** A request of a new type gets a record `r` from the boards' replies. */
  lemma RegisteredOk(records: map<int, Record>, types: map<string, int>, slots: Slots, n: nat,
                     t: string, id: int, order: Order, replies: seq<Reply>, r: Record)
    requires TypesOk(types, slots) && RecordsOk(records, slots, n)
    requires t !in slots && FreshId(slots, id) && |replies| == n && r.isRunning == AllAccept(replies)
    requires r.isRunning ==>
               r == Record(id, t, order.tarball, true, 0, Announced(replies, 0))
    ensures var slots' := Requested(slots, t, id, order, replies);
            TypesOk(types[t := id], slots') && RecordsOk(records[id := r], slots', n)
  {
    var u := NewUpload(id, order, replies);
    var slot := if r.isRunning then Live(u) else Blocked(id);
    if r.isRunning {
      FileMapFresh(u, n, r.incoming);
    }
    TypesSet(types, slots, t, slot);
    RecordsSet(records, slots, n, t, slot, r);
  }

  lemma FinishedOk(records: map<int, Record>, types: map<string, int>, slots: Slots, n: nat, w: Worker)
    requires TypesOk(types, slots) && RecordsOk(records, slots, n) && IsWorkerOf(w, slots)
    ensures TypesOk(types - {w.logType}, slots - {w.logType})
    ensures RecordsOk(records - {w.id}, slots - {w.logType}, n)
  {
    TypesKept(types, slots, w.logType, slots[w.logType]);
    TypesErase(types, slots, w.logType);
    RecordsDrop(records, slots, n, w.logType);
  }

  /** The start of the wait leaves the records alone, except that it may create an empty one. */
  lemma BegunOk(records: map<int, Record>, types: map<string, int>, slots: Slots, n: nat, t: string)
    requires TypesOk(types, slots) && RecordsOk(records, slots, n) && t in slots && slots[t].Live?
    ensures var slots' := slots[t := Live(slots[t].upload.(waiting := true))];
            && TypesOk(types, slots')
            && RecordsOk(records[slots[t].Id() := Lookup(records, slots[t].Id())], slots', n)
  {
    var slot := Live(slots[t].upload.(waiting := true));
    TypesKept(types, slots, t, slot);
    SameFiles(slots[t].upload, slot.upload, n);
    RecordsSet(records, slots, n, t, slot, Lookup(records, slot.Id()));
  }

  lemma WorkersKept(alive: multiset<Worker>, slots: Slots, t: string, slot: Slot)
    requires WorkersOk(alive, slots) && t in slots && slots[t].Live? == slot.Live?
    requires slot.Live? ==> slot.upload.id == slots[t].upload.id && slot.upload.order == slots[t].upload.order
    ensures WorkersOk(alive, slots[t := slot])
  {
    forall w ensures IsWorkerOf(w, slots[t := slot]) <==> IsWorkerOf(w, slots) {}
  }

  /** A request of a new type starts a worker exactly if all boards accept. */
  lemma WorkersRequested(alive: multiset<Worker>, slots: Slots, t: string, id: int, order: Order, replies: seq<Reply>)
    requires WorkersOk(alive, slots) && t !in slots
    ensures WorkersOk(alive + if AllAccept(replies) then multiset{Worker(t, id, order)} else multiset{},
                      Requested(slots, t, id, order, replies))
  {
    var slots' := Requested(slots, t, id, order, replies);
    forall w
      ensures IsWorkerOf(w, slots') <==> IsWorkerOf(w, slots) || (w == Worker(t, id, order) && AllAccept(replies))
    {}
  }

  lemma WorkersFinish(alive: multiset<Worker>, slots: Slots, w: Worker)
    requires WorkersOk(alive, slots) && w in alive
    ensures WorkersOk(alive - multiset{w}, slots - {w.logType})
  {
    forall v ensures IsWorkerOf(v, slots - {w.logType}) <==> v != w && IsWorkerOf(v, slots) {}
  }

  lemma WorkerIsLive(alive: multiset<Worker>, slots: Slots, w: Worker)
    requires WorkersOk(alive, slots) && w in alive
    ensures IsWorkerOf(w, slots)
  {}

  lemma NoRecordYet(records: map<int, Record>, slots: Slots, n: nat, id: int)
    requires RecordsOk(records, slots, n) && FreshId(slots, id)
    ensures Lookup(records, id) == EMPTY_RECORD
  {}

  /** The non-empty names of boards 0 to n - 1, in ascending order. */
  function NonEmpty(incoming: map<nat, string>, n: nat): seq<string> {
    if n == 0 then []
    else NonEmpty(incoming, n - 1) + if n - 1 in incoming && incoming[n - 1] != "" then [incoming[n - 1]] else []
  }

  lemma {:induction false} NonEmptyIsExpected(u: Upload, m: nat, n: nat)
    requires m <= n
    ensures NonEmpty(FileMap(u, n), m) == Expected(u, m)
  {
    if m == 0 {
    } else {
      NonEmptyIsExpected(u, m - 1, n);
    }
  }

  lemma FilesOfRecord(t: string, u: Upload, n: nat)
    ensures NonEmpty(RecordOf(t, u, n).incoming, n) == if u.discarded then [] else Expected(u, n)
  {
    NonEmptyIsExpected(u, n, n);
    NonEmptyOfNone(n);
  }

  lemma {:induction false} NonEmptyOfNone(n: nat)
    ensures NonEmpty(map[], n) == []
  {
    if n == 0 {
    } else {
      NonEmptyOfNone(n - 1);
    }
  }

  method FilesOf(incoming: map<nat, string>, n: nat) returns (files: seq<string>)
    ensures files == NonEmpty(incoming, n)
  {
    files := [];
    for i := 0 to n
      invariant files == NonEmpty(incoming, i)
    {
      if i in incoming && incoming[i] != "" {
        files := files + [incoming[i]];
      }
    }
  }

  function Tagged(log: seq<LogStatus>, id: int): (messages: seq<LogMessage>)
    ensures |messages| == |log|
    ensures forall k :: 0 <= k < |log| ==> messages[k].status == log[k] && messages[k].requestId == id
  {
    seq(|log|, k requires 0 <= k < |log| => LogMessage(log[k], id))
  }

  /** What a worker does with its record after the wait: unless cancelled, it runs the helper. */
  method RunWorker(r: Record, n: nat, order: Order, output: nat -> seq<string>)
    returns (runs: nat, log: seq<LogStatus>, arguments: seq<string>, removed: seq<string>)
    requires order.maxRetries <= UINT_MAX
    requires r.isRunning ==> order.maxRetries < UINT_MAX || exists j: nat :: Succeeds(output(j))
    ensures removed == NonEmpty(r.incoming, n) && arguments == [r.filename, order.location] + removed
    ensures if r.isRunning then FirstStop(order.maxRetries, output, runs) && log == Log(output, runs)
            else runs == 0 && log == []
  {
    var files := FilesOf(r.incoming, n);
    arguments := [r.filename, order.location] + files;
    runs, log := 0, [];
    if r.isRunning {
      runs, log := Retry(order.maxRetries, output);
    }
    removed := FilesOf(r.incoming, n);
  }

  class Aggregator {
    const systems: nat    // the number of boards
    const satellites: nat // the number of satellite interfaces

    var logUploads: map<int, Record>
    var typeToLogUploads: map<string, int>
    var published: seq<LogMessage>

    ghost var slots: Slots
    ghost var alive: multiset<Worker> // the threads that were started and have not finished, each as often as that is so

    ghost predicate Valid()
      reads this
    {
      systems <= SIZE_MAX && systems <= satellites + 1 &&
      TypesOk(typeToLogUploads, slots) && RecordsOk(logUploads, slots, systems) && WorkersOk(alive, slots)
    }

    /** At most one worker is alive per log type, and its id is the one in the type map. A log type in use without a
        worker is one whose request was rejected. */
    lemma OneWorkerPerType()
      requires Valid()
      ensures forall w :: alive[w] <= 1
      ensures forall v, w :: v in alive && w in alive && (v.logType == w.logType || v.id == w.id) ==> v == w
      ensures forall w :: w in alive ==> w.logType in typeToLogUploads && typeToLogUploads[w.logType] == w.id
      ensures forall t :: t in typeToLogUploads ==> slots[t].Blocked? || exists w :: w in alive && w.logType == t
    {
      forall t | t in typeToLogUploads && slots[t].Live? ensures exists w :: w in alive && w.logType == t {
        assert IsWorkerOf(Worker(t, slots[t].Id(), slots[t].upload.order), slots);
      }
    }

    /** A record runs if and only if its upload's worker is alive and not cancelled. */
    lemma RunningIffAliveUncancelled(id: int)
      requires Valid()
      ensures Lookup(logUploads, id).isRunning <==>
              exists w :: w in alive && w.id == id && !slots[w.logType].upload.cancelled
    {
      if Lookup(logUploads, id).isRunning {
        var t :| t in slots && slots[t].Id() == id;
        assert IsWorkerOf(Worker(t, id, slots[t].upload.order), slots);
      }
    }

    constructor (systems: nat, satellites: nat)
      requires systems <= SIZE_MAX && systems <= satellites + 1
      ensures Valid() && this.systems == systems && slots == map[] && published == [] && alive == multiset{}
    {
      this.systems, this.satellites := systems, satellites;
      logUploads, typeToLogUploads, published := map[], map[], [];
      slots, alive := map[], multiset{};
    }

    /** handle_upload_logs. `boards` are the boards that were asked, in this order. */
    method HandleUploadLogs(request: UploadLogsRequest, randomId: int, tarball: string, defaultRetries: int,
                            replies: seq<Reply>)
      returns (response: Response, boards: seq<nat>)
      requires Valid() && -0x8000_0000 <= request.retries.ValueOr(defaultRetries) < 0x8000_0000
      requires Possible(systems, slots, request.Event(randomId, tarball, defaultRetries, replies))
      modifies this
      ensures Valid() && published == old(published)
      ensures var e := request.Event(randomId, tarball, defaultRetries, replies);
              && slots == Step(systems, old(slots), e)
              && response == Responds(old(slots), e)
              && alive == old(alive) + if response.Accepted? then multiset{Worker(e.logType, e.id, e.order)} else multiset{}
      ensures response.Accepted? ==>
                alive == old(alive) + multiset{Worker(
                  request.logType.ValueOr("{undefined}"), request.requestId.ValueOr(randomId),
                  Order(tarball, request.location, AsUnsigned(request.retries.ValueOr(defaultRetries)),
                        request.requestId.ValueOr(0)))}
      ensures |boards| <= systems && forall k :: 0 <= k < |boards| ==> boards[k] == systems - 1 - k
      ensures match response
              case AcceptedAsCancel => boards == []
              case Accepted => |boards| == systems
              case Rejected => boards != [] && !replies[boards[|boards| - 1]].accepted
                               && forall k :: 0 <= k < |boards| - 1 ==> replies[boards[k]].accepted
    {
      var e := request.Event(randomId, tarball, defaultRetries, replies);
      var logType := request.logType.ValueOr("{undefined}");
      if logType in typeToLogUploads {
        Cancel(logType);
        assert Requested(old(slots), e.logType, e.id, e.order, e.replies) == slots;
        return AcceptedAsCancel, [];
      }
      var id := request.requestId.ValueOr(randomId);
      var ok;
      boards, ok := Register(logType, id, e.order, replies);
      response := if ok then Accepted else Rejected;
    }

    method Cancel(logType: string)
      requires Valid() && logType in typeToLogUploads
      modifies this`logUploads, this`slots
      ensures Valid()
      ensures var id := typeToLogUploads[logType];
              logUploads == old(logUploads)[id := old(Lookup(logUploads, id)).(isRunning := false)]
      ensures forall id, order, replies :: Requested(old(slots), logType, id, order, replies) == slots
    {
      var id := typeToLogUploads[logType];
      CancelledOk(logUploads, typeToLogUploads, slots, systems, logType);
      ghost var slot := CancelledSlot(slots[logType]);
      WorkersKept(alive, slots, logType, slot);
      logUploads := logUploads[id := Lookup(logUploads, id).(isRunning := false)];
      slots := slots[logType := slot];
    }

    /** A new upload: create its record, ask the boards, and give up if one of them refuses; otherwise start a worker. */
    method Register(logType: string, id: int, order: Order, replies: seq<Reply>) returns (boards: seq<nat>, ok: bool)
      requires Valid() && logType !in typeToLogUploads && FreshId(slots, id) && |replies| == systems
      modifies this`logUploads, this`typeToLogUploads, this`slots, this`alive
      ensures Valid() && ok == AllAccept(replies)
      ensures slots == Requested(old(slots), logType, id, order, replies)
      ensures alive == old(alive) + if ok then multiset{Worker(logType, id, order)} else multiset{}
      ensures typeToLogUploads == old(typeToLogUploads)[logType := id] && id in logUploads
      ensures logUploads == old(logUploads)[id := logUploads[id]]
      ensures var r := logUploads[id];
              && r.requestId == id && r.logType == logType && r.filename == order.tarball
              && r.isRunning == ok && r.feedbackCount == 0
              && (ok ==> r.incoming == Announced(replies, 0))
      ensures |boards| <= systems && forall k :: 0 <= k < |boards| ==> boards[k] == systems - 1 - k
      ensures forall k :: 0 <= k < |boards| - 1 ==> replies[boards[k]].accepted
      ensures if ok then |boards| == systems else boards != [] && !replies[boards[|boards| - 1]].accepted
    {
      ghost var records := logUploads;
      NoRecordYet(records, slots, systems, id);
      logUploads := logUploads[id := Lookup(logUploads, id).(requestId := id, logType := logType,
                                                             filename := order.tarball, isRunning := true)];
      typeToLogUploads := typeToLogUploads[logType := id];
      var incoming;
      boards, incoming, ok := Dispatch(systems, satellites, replies);
      logUploads := logUploads[id := logUploads[id].(incoming := incoming, isRunning := ok)];

      assert logUploads == records[id := logUploads[id]];
      Settle(records, old(typeToLogUploads), logType, id, order, replies);
    }

    ghost method Settle(records: map<int, Record>, types: map<string, int>, t: string, id: int, order: Order,
                        replies: seq<Reply>)
      requires systems <= SIZE_MAX && systems <= satellites + 1 && |replies| == systems
      requires TypesOk(types, slots) && RecordsOk(records, slots, systems) && WorkersOk(alive, slots)
      requires t !in slots && FreshId(slots, id) && id in logUploads && logUploads[id].isRunning == AllAccept(replies)
      requires AllAccept(replies) ==>
                 logUploads[id] ==
                 Record(id, t, order.tarball, true, 0, Announced(replies, 0))
      requires logUploads == records[id := logUploads[id]] && typeToLogUploads == types[t := id]
      modifies this`slots, this`alive
      ensures Valid() && slots == Requested(old(slots), t, id, order, replies)
      ensures alive == old(alive) + if AllAccept(replies) then multiset{Worker(t, id, order)} else multiset{}
    {
      RegisteredOk(records, types, slots, systems, t, id, order, replies, logUploads[id]);
      WorkersRequested(alive, slots, t, id, order, replies);
      alive := alive + if AllAccept(replies) then multiset{Worker(t, id, order)} else multiset{};
      slots := Requested(slots, t, id, order, replies);
    }

    /** The log status callback of board `board`; `wakeup` tells whether the waiting workers are notified. */
    method OnLogStatus(board: nat, id: int, status: LogStatus) returns (wakeup: bool)
      requires Valid() && board < systems
      modifies this`logUploads, this`slots
      ensures Valid()
      ensures slots == Step(systems, old(slots), Feedback(board, id, status))
      ensures wakeup <==> IsFinal(status) && exists t :: t in old(slots) && old(slots)[t].Running() && old(slots)[t].Id() == id
      ensures id !in old(logUploads) ==> logUploads == old(logUploads)
      ensures status == Uploading || status == Idle ==> !wakeup && logUploads == old(logUploads) && slots == old(slots)
      ensures status != Uploading && status != Idle ==>
                var r := old(Lookup(logUploads, id));
                && wakeup == r.isRunning
                && logUploads ==
                   if !r.isRunning then old(logUploads) - {id}
                   else old(logUploads)[id := r.(
                     feedbackCount := (r.feedbackCount + 1) % 0x1_0000_0000,
                     incoming := if status == Uploaded then r.incoming else r.incoming[board := ""])]
    {
      if status.Uploading? || status.Idle? {
        FeedbackNobody(slots, board, id, status);
        return false;
      }
      ghost var records := logUploads;
      wakeup := NoteFeedback(board, id, status);
      if wakeup {
        AcceptedFeedback(records, board, id, status);
      } else {
        IgnoredFeedback(records, board, id, status);
      }
    }

    /** The rest of the callback for final feedback: count it, and drop the record again if it does not run. */
    method NoteFeedback(board: nat, id: int, status: LogStatus) returns (wakeup: bool)
      modifies this`logUploads
      ensures var r := old(Lookup(logUploads, id));
              && wakeup == r.isRunning
              && logUploads == if r.isRunning then old(logUploads)[id := Noted(r, board, status)] else old(logUploads) - {id}
    {
      var r := Lookup(logUploads, id).(feedbackCount := (Lookup(logUploads, id).feedbackCount + 1) % UINT_RANGE);
      if !status.Uploaded? {
        r := r.(incoming := r.incoming[board := ""]);
      }
      logUploads := logUploads[id := r];
      wakeup := r.isRunning;
      if !r.isRunning {
        logUploads := logUploads - {id};
      }
    }

    ghost method IgnoredFeedback(records: map<int, Record>, board: nat, id: int, status: LogStatus)
      requires systems <= SIZE_MAX && systems <= satellites + 1 && board < systems && IsFinal(status)
      requires TypesOk(typeToLogUploads, slots) && RecordsOk(records, slots, systems) && WorkersOk(alive, slots)
      requires !Lookup(records, id).isRunning && logUploads == records - {id}
      modifies this`slots
      ensures Valid() && slots == Step(systems, old(slots), Feedback(board, id, status))
      ensures forall t :: t in old(slots) && old(slots)[t].Running() ==> old(slots)[t].Id() != id
    {
      if t :| t in slots && slots[t].Id() == id {
        var slot := FedBack(slots[t], board, id, status);
        FeedbackSlot(slots, t, board, id, status);
        TypesKept(typeToLogUploads, slots, t, slot);
        WorkersKept(alive, slots, t, slot);
        RecordsErase(records, slots, systems, t, slot);
        slots := slots[t := slot];
      } else {
        FeedbackNobody(slots, board, id, status);
        assert records - {id} == records;
      }
    }

    ghost method AcceptedFeedback(records: map<int, Record>, board: nat, id: int, status: LogStatus)
      requires systems <= SIZE_MAX && systems <= satellites + 1 && board < systems && IsFinal(status)
      requires TypesOk(typeToLogUploads, slots) && RecordsOk(records, slots, systems) && WorkersOk(alive, slots)
      requires Lookup(records, id).isRunning && logUploads == records[id := Noted(records[id], board, status)]
      modifies this`slots
      ensures Valid() && slots == Step(systems, old(slots), Feedback(board, id, status))
      ensures exists t :: t in old(slots) && old(slots)[t].Running() && old(slots)[t].Id() == id
    {
      var t :| t in slots && slots[t].Id() == id;
      var slot := FedBack(slots[t], board, id, status);
      FeedbackSlot(slots, t, board, id, status);
      CountedFeedback(records, slots, systems, t, board, status);
      TypesKept(typeToLogUploads, slots, t, slot);
      WorkersKept(alive, slots, t, slot);
      RecordsSet(records, slots, systems, t, slot, logUploads[id]);
      slots := slots[t := slot];
    }

    /** The worker `w` gets the lock for the first time: it announces the upload, and starts to wait. */
    method BeginWait(w: Worker)
      requires Valid() && w in alive && Possible(systems, slots, Begin(w.logType))
      modifies this`logUploads, this`published, this`slots
      ensures Valid()
      ensures slots == Step(systems, old(slots), Begin(w.logType))
      ensures published == old(published) + [LogMessage(Uploading, w.order.replyId)]
    {
      WorkerIsLive(alive, slots, w);
      ghost var slot := Live(slots[w.logType].upload.(waiting := true));
      BegunOk(logUploads, typeToLogUploads, slots, systems, w.logType);
      WorkersKept(alive, slots, w.logType, slot);
      published := published + [LogMessage(Uploading, w.order.replyId)];
      // the wait predicate, tested first without waiting, creates a missing record
      logUploads := logUploads[w.id := Lookup(logUploads, w.id)];
      slots := slots[w.logType := slot];
    }

    /** The worker erases both map entries, and ends. */
    method Leave(w: Worker)
      requires Valid() && w in alive
      modifies this`logUploads, this`typeToLogUploads, this`slots, this`alive
      ensures Valid()
      ensures slots == old(slots) - {w.logType} && alive == old(alive) - multiset{w}
      ensures typeToLogUploads == old(typeToLogUploads) - {w.logType} && logUploads == old(logUploads) - {w.id}
    {
      WorkerIsLive(alive, slots, w);
      FinishedOk(logUploads, typeToLogUploads, slots, systems, w);
      WorkersFinish(alive, slots, w);
      typeToLogUploads := typeToLogUploads - {w.logType};
      logUploads := logUploads - {w.id};
      slots, alive := slots - {w.logType}, alive - multiset{w};
    }

    /** The worker `w` from the end of its wait to its exit. The lock is held all the way, retries and sleeps included,
        so that nothing can cancel the upload in between. `runs` counts the runs of the helper, which gets the
        arguments `arguments`; `removed` are the incoming files deleted at the end. */
    method FinishWorker(w: Worker, timedOut: bool, output: nat -> seq<string>)
      returns (runs: nat, arguments: seq<string>, removed: seq<string>)
      requires Valid() && w in alive && Possible(systems, slots, Finish(w.logType))
      requires timedOut || WaitDone(systems, slots[w.logType].upload)
      requires w.order.maxRetries <= UINT_MAX
      requires slots[w.logType].upload.cancelled || w.order.maxRetries < UINT_MAX || exists j: nat :: Succeeds(output(j))
      modifies this
      ensures Valid()
      ensures slots == Step(systems, old(slots), Finish(w.logType)) && alive == old(alive) - multiset{w}
      ensures typeToLogUploads == old(typeToLogUploads) - {w.logType} && logUploads == old(logUploads) - {w.id}
      ensures var u := old(slots)[w.logType].upload;
              && removed == (if u.discarded then [] else Expected(u, systems))
              && arguments == [if u.discarded then "" else w.order.tarball, w.order.location] + removed
              && if u.cancelled then runs == 0 && published == old(published)
                 else
                   && FirstStop(w.order.maxRetries, output, runs)
                   && published == old(published) + Tagged(Log(output, runs), w.order.replyId)
    {
      WorkerIsLive(alive, slots, w);
      ghost var u := slots[w.logType].upload;
      var r := Lookup(logUploads, w.id); // stored by operator[] in any case
      var satisfied := r.feedbackCount == systems || !r.isRunning;
      if !satisfied {
        // the wait timed out; the source's test for a cancellation at this point cannot succeed
        assert r.isRunning;
      }
      FilesOfRecord(w.logType, u, systems);
      var log;
      runs, log, arguments, removed := RunWorker(r, systems, w.order, output);
      published := published + Tagged(log, w.order.replyId);
      Leave(w);
    }
  }
}
