/** The server side of the resumable upload of one asset, and what every run of requests and crashes keeps. */
module CiphertextStore {
  import opened Encrypt
  import opened MediaStore
  import opened Wrappers

  const MAX_CHUNK_BYTES: nat := 0x200_0000

  /** The upload columns of the asset row; also the status sent to the client. */
  datatype Row = Row(
    totalBytes: Option<nat>, received: nat, chunkBytes: Option<nat>, ivBase: Option<string>, complete: bool)

  /** The row, the stored bytes, and (for the specification) every chunk accepted so far. */
  datatype Server = Server(row: Row, disk: Disk, log: seq<Bytes>)

  /** One PUT: the declared shape counts only at offset 0. */
  datatype Request = Request(offset: nat, chunk: Bytes, ivBase: string, totalBytes: int, chunkBytes: int)

  /** Where a request is cut short: a crash, a storage error, or a lost message. */
  datatype Fault =
    | Clean
    | RequestLost
    | BeforeTruncate
    | TruncateCut(kept: set<nat>)
    | WriteCut(stored: nat)
    | ReplyLost

  /** `Lost` is no reply, or a retryable 500. */
  datatype Reply = Accepted(status: Row) | Rejected(code: nat) | Lost

  function Begin(row: Row, totalBytes: int, chunkBytes: int, ivBase: string): (Row, Option<nat>) {
    if totalBytes <= 0 || chunkBytes <= 0 || !IsIvBase(ivBase) then (row, Some(400))
    else if row.totalBytes.None? && row.received == 0 then
      (row.(totalBytes := Some(totalBytes), chunkBytes := Some(chunkBytes), ivBase := Some(ivBase)), None)
    else if row.totalBytes != Some(totalBytes) || row.chunkBytes != Some(chunkBytes) || row.ivBase != Some(ivBase)
    then (row, Some(409))
    else (row, None)
  }

  /** The status with which a chunk is turned away before anything is touched. */
  function Refusal(row: Row, offset: nat, chunk: Bytes, ivBase: string): Option<nat> {
    if chunk == [] || |chunk| > MAX_CHUNK_BYTES then Some(400)
    else if row.complete || row.totalBytes.None? || Some(ivBase) != row.ivBase || offset != row.received then Some(409)
    else if row.received + |chunk| > row.totalBytes.value then Some(400)
    else None
  }

  function Append(s: Server, offset: nat, chunk: Bytes, ivBase: string, fault: Fault): (Server, Reply) {
    var refusal := Refusal(s.row, offset, chunk, ivBase);
    if refusal.Some? then (s, Rejected(refusal.value)) else
    match fault
    case RequestLost => (s, Lost)
    case BeforeTruncate => (s, Lost)
    case TruncateCut(kept) => (s.(disk := Truncated(s.disk, offset, kept)), Lost)
    case WriteCut(stored) =>
      (s.(disk := PartlyWritten(Truncated(s.disk, offset, {}), offset, chunk, stored)), Lost)
    case _ =>
      var (disk, ok) := Written(Truncated(s.disk, offset, {}), offset, chunk);
      if !ok then (s.(disk := disk), Lost) else
      var received := s.row.received + |chunk|;
      var row := s.row.(received := received, complete := Some(received) == s.row.totalBytes);
      (Server(row, disk, s.log + [chunk]), if fault.ReplyLost? then Lost else Accepted(row))
  }

  function Put(s: Server, r: Request, fault: Fault): (Server, Reply) {
    if fault.RequestLost? then (s, Lost)
    else if r.chunk == [] then (s, Rejected(400))
    else if |r.chunk| > MAX_CHUNK_BYTES then (s, Rejected(413))
    else if r.offset == 0 then
      match Begin(s.row, r.totalBytes, r.chunkBytes, r.ivBase)
      case (_, Some(code)) => (s, Rejected(code))
      case (row, None) => Append(s.(row := row), r.offset, r.chunk, r.ivBase, fault)
    else Append(s, r.offset, r.chunk, r.ivBase, fault)
  }

  class CiphertextStore {
    var totalBytes: Option<nat>
    var received: nat
    var chunkBytes: Option<nat>
    var ivBase: Option<string>
    var complete: bool
    /** What the media store holds for the asset, in either layout. */
    var disk: Disk
    ghost var log: seq<Bytes>

    constructor (disk: Disk)
      ensures State() == Server(Row(None, 0, None, None, false), disk, [])
    {
      totalBytes, received, chunkBytes, ivBase, complete := None, 0, None, None, false;
      this.disk := disk;
      log := [];
    }

    function UploadStatus(): Row
      reads this
    {
      Row(totalBytes, received, chunkBytes, ivBase, complete)
    }

    ghost function State(): Server
      reads this
    {
      Server(UploadStatus(), disk, log)
    }

    method BeginUpload(total: int, chunk: int, base: string) returns (error: Option<nat>)
      modifies this
      ensures (UploadStatus(), error) == Begin(old(UploadStatus()), total, chunk, base)
      ensures disk == old(disk) && log == old(log)
    {
      if total <= 0 || chunk <= 0 || !IsIvBase(base) { return Some(400); }
      if totalBytes.None? && received == 0 {
        totalBytes, chunkBytes, ivBase := Some(total), Some(chunk), Some(base);
      } else {
        var status := UploadStatus();
        if status.totalBytes != Some(total) || status.chunkBytes != Some(chunk) || status.ivBase != Some(base) {
          return Some(409);
        }
      }
      return None;
    }

    method AppendChunk(offset: nat, chunk: Bytes, base: string, fault: Fault) returns (reply: Reply)
      modifies this
      ensures (State(), reply) == Append(old(State()), offset, chunk, base, fault)
    {
      if chunk == [] || |chunk| > MAX_CHUNK_BYTES { return Rejected(400); }
      var status := UploadStatus();
      if status.complete { return Rejected(409); }
      if status.totalBytes.None? { return Rejected(409); }
      if Some(base) != status.ivBase { return Rejected(409); }
      if offset != status.received { return Rejected(409); }
      if status.received + |chunk| > status.totalBytes.value { return Rejected(400); }
      if fault.RequestLost? || fault.BeforeTruncate? { return Lost; }

      if fault.TruncateCut? {
        disk := Truncated(disk, offset, fault.kept);
        return Lost;
      }
      disk := Truncated(disk, offset, {});
      if fault.WriteCut? {
        disk := PartlyWritten(disk, offset, chunk, fault.stored);
        return Lost;
      }
      var write := Written(disk, offset, chunk);
      disk := write.0;
      if !write.1 { return Lost; }

      log := log + [chunk];
      received := status.received + |chunk|;
      complete := Some(received) == status.totalBytes;
      reply := if fault.ReplyLost? then Lost else Accepted(UploadStatus());
    }

    method HandlePut(r: Request, fault: Fault) returns (reply: Reply)
      modifies this
      ensures (State(), reply) == Put(old(State()), r, fault)
    {
      hide Append, Begin;
      if fault.RequestLost? { return Lost; }
      if r.chunk == [] { return Rejected(400); }
      if |r.chunk| > MAX_CHUNK_BYTES { return Rejected(413); }
      if r.offset == 0 {
        var error := BeginUpload(r.totalBytes, r.chunkBytes, r.ivBase);
        if error.Some? {
          BeginErrorChangesNothing(old(UploadStatus()), r.totalBytes, r.chunkBytes, r.ivBase);
          return Rejected(error.value);
        }
      }
      reply := AppendChunk(r.offset, r.chunk, r.ivBase, fault);
    }
  }

  lemma BeginErrorChangesNothing(row: Row, total: int, chunk: int, base: string)
    ensures Begin(row, total, chunk, base).1.Some? ==> Begin(row, total, chunk, base).0 == row
  {
  }

  // ------------------------------------------------------------- what every step keeps

  /** The row's numbers belong together, and the stored bytes below the offset are the accepted chunks. */
  ghost predicate Inv(s: Server) {
    && NonEmpty(s.log) && Holds(s.disk, s.log)
    && |Flatten(s.log)| == s.row.received
    && (s.row.totalBytes.None? ==> s.row.received == 0 && !s.row.complete)
    && (s.row.totalBytes.Some? ==>
          && s.row.received <= s.row.totalBytes.value && s.row.totalBytes.value > 0
          && (s.row.complete <==> s.row.received == s.row.totalBytes.value))
    && (s.row.complete ==> Exact(s.disk, s.log))
  }

  lemma BeginKeeps(s: Server, total: int, chunk: int, base: string)
    requires Inv(s)
    ensures Inv(s.(row := Begin(s.row, total, chunk, base).0))
  {
    hide Flatten, Holds, Exact, NonEmpty;
  }

  /** A chunk changes the committed bytes only by being appended whole to them. */
  lemma AppendKeeps(s: Server, offset: nat, chunk: Bytes, base: string, fault: Fault)
    requires Inv(s)
    ensures Inv(Append(s, offset, chunk, base, fault).0)
    ensures
      var (t, reply) := Append(s, offset, chunk, base, fault);
      if Refusal(s.row, offset, chunk, base).None? && (fault.Clean? || fault.ReplyLost?)
      then t.log == s.log + [chunk] && (if fault.Clean? then reply == Accepted(t.row) else reply == Lost)
      else t.log == s.log && t.row == s.row && !reply.Accepted?
  {
    hide Flatten, Holds, Exact, NonEmpty, Truncated, Written, PartlyWritten;
    if Refusal(s.row, offset, chunk, base).None? {
      assert offset == |Flatten(s.log)|;
      TruncateHeals(s.disk, s.log, if fault.TruncateCut? then fault.kept else {});
      var healed := Truncated(s.disk, offset, {});
      WriteAppends(healed, s.log, chunk, if fault.WriteCut? then fault.stored else 0);
      LogGrows(s.log, chunk, Written(healed, offset, chunk).0);
    }
  }

  lemma LogGrows(log: seq<Bytes>, chunk: Bytes, d: Disk)
    requires NonEmpty(log) && chunk != []
    ensures NonEmpty(log + [chunk]) && |Flatten(log + [chunk])| == |Flatten(log)| + |chunk|
    ensures Exact(d, log + [chunk]) ==> Holds(d, log + [chunk])
  {
    hide Exact, Holds;
    FlattenAppends(log, chunk);
    if Exact(d, log + [chunk]) { ExactHolds(d, log + [chunk]); }
  }

  /** Any request with any fault: committed bytes are never lost or changed, and completion is final. */
  lemma PutKeeps(s: Server, r: Request, fault: Fault)
    requires Inv(s)
    ensures Inv(Put(s, r, fault).0)
    ensures
      var (t, reply) := Put(s, r, fault);
      && (t.log == s.log || t.log == s.log + [r.chunk])
      && (reply.Accepted? ==> t.log == s.log + [r.chunk] && reply.status == t.row)
      && (s.row.complete ==> t == s && !reply.Accepted?)
  {
    hide Inv, Append, Refusal;
    BeginKeeps(s, r.totalBytes, r.chunkBytes, r.ivBase);
    var begun := s.(row := Begin(s.row, r.totalBytes, r.chunkBytes, r.ivBase).0);
    AppendKeeps(begun, r.offset, r.chunk, r.ivBase, fault);
    AppendKeeps(s, r.offset, r.chunk, r.ivBase, fault);
    if s.row.complete { CompleteIsFinal(s, r, fault); }
  }

  lemma CompleteIsFinal(s: Server, r: Request, fault: Fault)
    requires Inv(s) && s.row.complete
    ensures Put(s, r, fault).0 == s && !Put(s, r, fault).1.Accepted?
  {
    hide Flatten, Holds, Exact, NonEmpty;
  }

  /** What a PUT must bring for its chunk to be taken, in terms of the upload as it stands. */
  predicate Fits(row: Row, r: Request) {
    && 0 < |r.chunk| <= MAX_CHUNK_BYTES && r.offset == row.received && !row.complete
    && match row.totalBytes
       case None =>
         // it begins the upload
         r.offset == 0 && r.totalBytes >= |r.chunk| && r.chunkBytes > 0 && IsIvBase(r.ivBase)
       case Some(total) =>
         // it is sealed under the key of the upload, stays within it, and at offset 0 repeats its shape
         && row.ivBase == Some(r.ivBase) && r.offset + |r.chunk| <= total
         && (r.offset == 0 ==> r.totalBytes == total && row.chunkBytes == Some(r.chunkBytes) && Shaped(r))
  }

  predicate Shaped(r: Request) {
    r.totalBytes > 0 && r.chunkBytes > 0 && IsIvBase(r.ivBase)
  }

  /** A chunk is committed, under its IV base, exactly when it fits and no fault comes before the offset is recorded. */
  lemma CommittedIff(s: Server, r: Request, fault: Fault)
    requires Inv(s)
    ensures
      var (t, reply) := Put(s, r, fault);
      && (reply.Accepted? <==> fault.Clean? && Fits(s.row, r))
      && (t.log == s.log + [r.chunk] && t.log != s.log <==> (fault.Clean? || fault.ReplyLost?) && Fits(s.row, r))
      && (t.log != s.log ==>
            && t.row.ivBase == Some(r.ivBase) && t.row.received == s.row.received + |r.chunk|
            && t.row.totalBytes.Some? && (t.row.complete <==> Some(t.row.received) == t.row.totalBytes))
  {
    hide Inv, Truncated, Written, PartlyWritten, IsIvBase, Append;
    BeginKeeps(s, r.totalBytes, r.chunkBytes, r.ivBase);
    var begun := s.(row := Begin(s.row, r.totalBytes, r.chunkBytes, r.ivBase).0);
    AppendKeeps(begun, r.offset, r.chunk, r.ivBase, fault);
    AppendKeeps(s, r.offset, r.chunk, r.ivBase, fault);
    AppendRow(begun, r.offset, r.chunk, r.ivBase, fault);
    AppendRow(s, r.offset, r.chunk, r.ivBase, fault);
    NoneReceived(s);
  }

  /** The request disagrees with the upload as it stands. */
  predicate Conflicts(row: Row, r: Request) {
    match row.totalBytes
    case None => r.offset != 0
    case Some(total) =>
      || row.complete || row.ivBase != Some(r.ivBase) || r.offset != row.received
      || (r.offset == 0 && (r.totalBytes != total || row.chunkBytes != Some(r.chunkBytes)))
  }

  /** With which status a request is turned away. */
  lemma RefusedWith(s: Server, r: Request, fault: Fault)
    requires Inv(s)
    ensures
      var reply := Put(s, r, fault).1;
      && (fault.Clean? ==> (reply.Rejected? <==> !Fits(s.row, r)))
      && (reply.Rejected? ==>
            reply.code
            == if |r.chunk| > MAX_CHUNK_BYTES then 413
               else if r.chunk == [] || (r.offset == 0 && !Shaped(r)) then 400
               else if Conflicts(s.row, r) then 409
               else 400)
  {
    hide Inv, Truncated, Written, PartlyWritten, IsIvBase;
    NoneReceived(s);
    CommittedIff(s, r, fault);
    var begun := s.(row := Begin(s.row, r.totalBytes, r.chunkBytes, r.ivBase).0);
    BeginKeeps(s, r.totalBytes, r.chunkBytes, r.ivBase);
    AppendKeeps(begun, r.offset, r.chunk, r.ivBase, fault);
    AppendKeeps(s, r.offset, r.chunk, r.ivBase, fault);
  }

  lemma NoneReceived(s: Server)
    requires Inv(s)
    ensures s.row.totalBytes.None? ==> s.row.received == 0 && !s.row.complete
  {
  }

  lemma AppendRow(s: Server, offset: nat, chunk: Bytes, base: string, fault: Fault)
    ensures
      var t := Append(s, offset, chunk, base, fault).0;
      && t.row.ivBase == s.row.ivBase && t.row.totalBytes == s.row.totalBytes && t.row.chunkBytes == s.row.chunkBytes
      && (t.log != s.log ==>
            && t.row.received == s.row.received + |chunk|
            && (t.row.complete <==> Some(t.row.received) == t.row.totalBytes))
  {
    hide Truncated, Written, PartlyWritten, Refusal;
  }

  datatype Step = Step(request: Request, fault: Fault)

  function Run(s: Server, steps: seq<Step>): Server {
    if steps == [] then s else
      var last := steps[|steps| - 1];
      Put(Run(s, steps[..|steps| - 1]), last.request, last.fault).0
  }

  /** An asset with nothing uploaded. */
  ghost predicate Fresh(s: Server) {
    s.row == Row(None, 0, None, None, false) && s.log == [] && s.disk in {File(None), Objects(map[])}
  }

  lemma {:induction false} RunKeeps(s: Server, steps: seq<Step>)
    requires Fresh(s)
    ensures Inv(Run(s, steps))
  {
    hide Put;
    if steps == [] {
      assert Inv(s);
    } else {
      var before := steps[..|steps| - 1];
      RunKeeps(s, before);
      PutKeeps(Run(s, before), steps[|steps| - 1].request, steps[|steps| - 1].fault);
    }
  }

  /** Once begun, an upload keeps its shape and its IV base. */
  lemma ShapeStays(s: Server, r: Request, fault: Fault)
    requires Inv(s) && s.row.totalBytes.Some?
    ensures
      var t := Put(s, r, fault).0;
      t.row.totalBytes == s.row.totalBytes && t.row.chunkBytes == s.row.chunkBytes && t.row.ivBase == s.row.ivBase
  {
    hide Inv, Append, IsIvBase;
    AppendRow(s, r.offset, r.chunk, r.ivBase, fault);
  }

  /** Over every run, every committed chunk came with the IV base that is recorded. */
  lemma {:induction false} OneIvBase(s: Server, steps: seq<Step>, i: nat)
    requires Fresh(s) && i < |steps|
    ensures Run(s, steps[..i + 1]).log != Run(s, steps[..i]).log ==>
      Run(s, steps).row.ivBase == Some(steps[i].request.ivBase) && Run(s, steps).row.totalBytes.Some?
    decreases |steps|
  {
    hide Put, Inv, Fresh;
    var n := |steps| - 1;
    var front, last := steps[..n], steps[n];
    RunKeeps(s, front);
    if i == n {
      assert steps[..i + 1] == steps;
      CommittedIff(Run(s, front), last.request, last.fault);
    } else {
      OneIvBase(s, front, i);
      assert front[..i + 1] == steps[..i + 1] && front[..i] == steps[..i];
      if Run(s, front).row.totalBytes.Some? { ShapeStays(Run(s, front), last.request, last.fault); }
    }
  }

  /** Once complete, the whole declared ciphertext reads back, and is the accepted chunks in order. */
  lemma CompleteReads(s: Server)
    requires Inv(s) && s.row.complete
    ensures s.row.totalBytes.Some?
    ensures Read(s.disk, s.row.totalBytes.value) == Some(Flatten(s.log))
  {
    hide Read, Exact, Holds;
    ExactReads(s.disk, s.log);
  }

  /**
   The two layouts are interchangeable: after the same requests and faults the rows are the same, and where one
   upload is complete both read back the same bytes.
   */
  lemma LayoutsAgree(file: Server, objects: Server, steps: seq<Step>)
    requires Fresh(file) && Fresh(objects)
    ensures Run(file, steps).row == Run(objects, steps).row && Run(file, steps).log == Run(objects, steps).log
    ensures
      var (f, o) := (Run(file, steps), Run(objects, steps));
      f.row.complete ==>
        f.row.totalBytes.Some? && Read(f.disk, f.row.totalBytes.value) == Read(o.disk, o.row.totalBytes.value)
  {
    hide Read, Inv, Fresh, Run;
    RunsAgree(file, objects, steps);
    RunKeeps(file, steps);
    RunKeeps(objects, steps);
    if Run(file, steps).row.complete {
      CompleteReads(Run(file, steps));
      CompleteReads(Run(objects, steps));
    }
  }

  lemma {:induction false} RunsAgree(file: Server, objects: Server, steps: seq<Step>)
    requires Fresh(file) && Fresh(objects)
    ensures Run(file, steps).row == Run(objects, steps).row && Run(file, steps).log == Run(objects, steps).log
  {
    if steps != [] {
      var before, last := steps[..|steps| - 1], steps[|steps| - 1];
      RunsAgree(file, objects, before);
      RunKeeps(file, before);
      RunKeeps(objects, before);
      PutsAgree(Run(file, before), Run(objects, before), last.request, last.fault);
    }
  }

  lemma PutsAgree(f: Server, o: Server, r: Request, fault: Fault)
    requires Inv(f) && Inv(o) && f.row == o.row && f.log == o.log
    ensures Put(f, r, fault).0.row == Put(o, r, fault).0.row && Put(f, r, fault).0.log == Put(o, r, fault).0.log
  {
    hide Inv, Truncated, Written, PartlyWritten, IsIvBase;
    var row := Begin(f.row, r.totalBytes, r.chunkBytes, r.ivBase).0;
    BeginKeeps(f, r.totalBytes, r.chunkBytes, r.ivBase);
    BeginKeeps(o, r.totalBytes, r.chunkBytes, r.ivBase);
    AppendKeeps(f.(row := row), r.offset, r.chunk, r.ivBase, fault);
    AppendKeeps(o.(row := row), r.offset, r.chunk, r.ivBase, fault);
    AppendKeeps(f, r.offset, r.chunk, r.ivBase, fault);
    AppendKeeps(o, r.offset, r.chunk, r.ivBase, fault);
  }

  // ------------------------------------------------------------- a file that does not open for update

  /** In the file layout, the write may also find the file unopenable and create it anew. */
  datatype Event = Ordinary(step: Step) | Reopened(request: Request, stored: nat)

  const EMPTY_FILE: Disk := File(Some([]))

  /** The request is turned away before it touches what is stored. */
  predicate TurnedAway(s: Server, r: Request) {
    || r.chunk == [] || |r.chunk| > MAX_CHUNK_BYTES
    || (r.offset == 0 && Begin(s.row, r.totalBytes, r.chunkBytes, r.ivBase).1.Some?)
    || Refusal(Begun(s, r).row, r.offset, r.chunk, r.ivBase).Some?
  }

  function Begun(s: Server, r: Request): Server {
    if r.offset == 0 then s.(row := Begin(s.row, r.totalBytes, r.chunkBytes, r.ivBase).0) else s
  }

  /** A PUT whose write empties the file first; of the chunk, `stored` bytes reach it. */
  function PutReopened(s: Server, r: Request, stored: nat): (Server, Reply) {
    if TurnedAway(s, r) || s.disk.Objects? then Put(s, r, Clean)
    else Put(s.(disk := EMPTY_FILE), r, if stored < |r.chunk| then WriteCut(stored) else Clean)
  }

  function After(s: Server, e: Event): Server {
    match e
    case Ordinary(step) => Put(s, step.request, step.fault).0
    case Reopened(r, stored) => PutReopened(s, r, stored).0
  }

  function EventsRun(s: Server, events: seq<Event>): Server {
    if events == [] then s else After(EventsRun(s, events[..|events| - 1]), events[|events| - 1])
  }

  /** The event hits a file with committed bytes. */
  predicate Loses(s: Server, e: Event) {
    e.Reopened? && s.disk.File? && s.row.received > 0 && !TurnedAway(s, e.request)
  }

  /** Bytes are recorded and the file is empty. */
  ghost predicate Emptied(s: Server) {
    s.disk == EMPTY_FILE && s.row.received > 0 && NonEmpty(s.log) && |Flatten(s.log)| == s.row.received
  }

  /** Committed bytes survive the emptying of the file exactly when there are none. */
  lemma EmptyingKeepsIff(s: Server, chunk: Bytes, stored: nat)
    requires Inv(s) && s.disk.File?
    ensures Holds(PartlyWritten(EMPTY_FILE, s.row.received, chunk, stored), s.log) <==> s.row.received == 0
  {
    hide Flatten, NonEmpty;
    if s.row.received > 0 { EmptyTakesNothing(s.row.received, chunk); }
  }

  lemma EmptyTakesNothing(offset: nat, chunk: Bytes)
    requires offset > 0
    ensures
      && Written(EMPTY_FILE, offset, chunk) == (EMPTY_FILE, false)
      && (forall n :: PartlyWritten(EMPTY_FILE, offset, chunk, n) == EMPTY_FILE)
      && (forall kept :: Truncated(EMPTY_FILE, offset, kept) == EMPTY_FILE)
  {
  }

  lemma EmptiedHoldsNothing(s: Server)
    requires Emptied(s)
    ensures !Holds(s.disk, s.log)
  {
    hide Flatten, NonEmpty;
  }

  /** Once emptied, no request is accepted or changes anything, whatever happens to it. */
  lemma EmptiedIsStuck(s: Server, r: Request, fault: Fault)
    requires Emptied(s)
    ensures Put(s, r, fault).0 == s && !Put(s, r, fault).1.Accepted?
  {
    hide Flatten, NonEmpty, IsIvBase;
    EmptyTakesNothing(s.row.received, r.chunk);
    hide Written, PartlyWritten, Truncated;
  }

  /** An event that hits committed bytes loses them: the file is empty, the row as before. */
  lemma LosingEmpties(s: Server, e: Event)
    requires Inv(s) && Loses(s, e)
    ensures After(s, e) == s.(disk := EMPTY_FILE) && Emptied(After(s, e))
  {
    hide Flatten, Holds, Exact, NonEmpty, IsIvBase, TurnedAway;
    var fault := if e.stored < |e.request.chunk| then WriteCut(e.stored) else Clean;
    EmptiedIsStuck(s.(disk := EMPTY_FILE), e.request, fault);
    hide Put;
  }

  lemma OtherwiseKept(s: Server, e: Event)
    requires Inv(s) && !Loses(s, e)
    ensures Inv(After(s, e))
  {
    hide Inv, Put, TurnedAway;
    match e
    case Ordinary(step) => PutKeeps(s, step.request, step.fault);
    case Reopened(r, stored) =>
      PutKeeps(s, r, Clean);
      if !TurnedAway(s, r) && s.disk.File? {
        NothingToLose(s);
        PutKeeps(s.(disk := EMPTY_FILE), r, if stored < |r.chunk| then WriteCut(stored) else Clean);
      }
  }

  lemma NothingToLose(s: Server)
    requires Inv(s) && s.row.received == 0
    ensures Inv(s.(disk := EMPTY_FILE))
  {
    if s.log != [] { FlattenPositive(s.log); }
  }

  lemma EmptiedStays(s: Server, e: Event)
    requires Emptied(s)
    ensures After(s, e) == s
  {
    hide Emptied, Put, TurnedAway;
    match e
    case Ordinary(step) => EmptiedIsStuck(s, step.request, step.fault);
    case Reopened(r, stored) =>
      EmptiedIsStuck(s, r, Clean);
      EmptiedIsStuck(s, r, if stored < |r.chunk| then WriteCut(stored) else Clean);
      assert s.disk == EMPTY_FILE by { EmptiedFile(s); }
      assert s.(disk := EMPTY_FILE) == s;
  }

  lemma EmptiedFile(s: Server)
    requires Emptied(s)
    ensures s.disk == EMPTY_FILE
  {
  }

  /** Some event of the run hit committed bytes. */
  ghost predicate LosesAt(s: Server, events: seq<Event>, i: nat)
    requires i < |events|
  {
    Loses(EventsRun(s, events[..i]), events[i])
  }

  lemma {:induction false} EventsRunIs(s: Server, events: seq<Event>)
    requires Fresh(s)
    ensures
      var t := EventsRun(s, events);
      if exists i :: 0 <= i < |events| && LosesAt(s, events, i) then Emptied(t) else Inv(t)
  {
    hide Inv, Emptied, Loses, After, Fresh;
    if events == [] {
      RunKeeps(s, []);
    } else {
      var n := |events| - 1;
      var front := events[..n];
      EventsRunIs(s, front);
      forall i | 0 <= i < n ensures LosesAt(s, events, i) == LosesAt(s, front, i) {
        assert events[..i] == front[..i];
      }
      var before := EventsRun(s, front);
      if exists i :: 0 <= i < n && LosesAt(s, front, i) {
        EmptiedStays(before, events[n]);
      } else if Loses(before, events[n]) {
        LosingEmpties(before, events[n]);
        assert LosesAt(s, events, n);
      } else {
        OtherwiseKept(before, events[n]);
      }
    }
  }

  /** Over every run the committed bytes are kept exactly when no such event hits a file that has some. */
  lemma BytesAreKeptIff(s: Server, events: seq<Event>)
    requires Fresh(s)
    ensures
      var t := EventsRun(s, events);
      Holds(t.disk, t.log) <==> forall i :: 0 <= i < |events| ==> !LosesAt(s, events, i)
  {
    hide LosesAt, Emptied, EventsRun, Holds, Fresh;
    EventsRunIs(s, events);
    var t := EventsRun(s, events);
    if i :| 0 <= i < |events| && LosesAt(s, events, i) { EmptiedHoldsNothing(t); }
  }

  lemma FirstWrite(chunk: Bytes)
    ensures Written(File(None), 0, chunk) == (File(Some(chunk)), true)
  {
    var none: Bytes := [];
    assert none[..0] + chunk + none == chunk;
  }

  /** Two bytes are declared, the first is committed, and the write of the second finds the file unopenable. */
  lemma OneByteIsLost(base: string)
    requires IsIvBase(base)
    ensures
      var s := Server(Row(None, 0, None, None, false), File(None), []);
      var first := Ordinary(Step(Request(0, [7], base, 2, 1), Clean));
      var second := Reopened(Request(1, [8], base, 2, 1), 1);
      var one, two := EventsRun(s, [first]), EventsRun(s, [first, second]);
      && one.log == [[7]] && one.disk == File(Some([7])) && one.row.received == 1
      && two.log == [[7]] && two.disk == EMPTY_FILE && two.row == one.row
  {
    hide IsIvBase;
    var s := Server(Row(None, 0, None, None, false), File(None), []);
    var first := Ordinary(Step(Request(0, [7], base, 2, 1), Clean));
    var second := Reopened(Request(1, [8], base, 2, 1), 1);
    assert [first][..0] == [] && [first, second][..1] == [first];
    assert EventsRun(s, []) == s;
    FirstWrite([7]);
    var one := After(s, first);
    assert one == EventsRun(s, [first]);
    assert After(one, second) == one.(disk := EMPTY_FILE);
  }
}
