/** The Trace client's retries over a transport that may lose anything, and the chain of updates built on it. */
module TraceClient {
  import opened Canonical
  import opened JsText
  import opened TraceLedger
  import opened TraceService
  import opened Wrappers

  const MAX_TRACE_UPDATES_PER_DATA_ID: nat := 100

  /** What happens to one attempt: a gateway may answer with any status of its own, delivered or not. */
  datatype Attempt =
    | RequestLost
    | ReplyLost
    | Gateway(code: nat, delivered: bool)
    | Delivered

  /** Statuses that reach the client as an answer of the service are 2xx and 409; a gateway gives others. */
  predicate IsFailure(code: nat) {
    code >= 300 && code != 409
  }

  /** The listed statuses besides 429 are server errors, which are retried anyway. */
  predicate Retryable(code: nat): (r: bool)
    ensures r <==> code == 429 || code >= 500
  {
    code in {429, 502, 503, 504} || code >= 500
  }

  predicate Delivers(a: Attempt) {
    a.ReplyLost? || a.Delivered? || (a.Gateway? && a.delivered)
  }

  datatype Failure = NoReply | Http(code: nat) | ConflictError | UpdateCap

  /** The first attempt that ends the loop: an answer, or a failure that is not retried. */
  predicate Final(a: Attempt) {
    a.Delivered? || (a.Gateway? && !Retryable(a.code))
  }

  /** Attempt n is made: nothing before it was final. */
  ghost predicate Made(plan: nat -> Attempt, n: nat) {
    forall i :: 0 <= i < n ==> !Final(plan(i))
  }

  /** An answer of the service comes back within the allowed attempts. */
  ghost predicate Answered(plan: nat -> Attempt, maxAttempts: nat) {
    exists n :: 0 <= n < maxAttempts && Made(plan, n) && plan(n).Delivered?
  }

  /** Some attempt reaches the service, whether or not its answer comes back. */
  ghost predicate Reached(plan: nat -> Attempt, maxAttempts: nat) {
    exists n :: 0 <= n < maxAttempts && Made(plan, n) && Delivers(plan(n))
  }

  /** A gateway answers with failures of its own; a 400 is taken to be the service's. */
  ghost predicate GatewaysFail(plan: nat -> Attempt) {
    forall n :: plan(n).Gateway? ==> IsFailure(plan(n).code) && plan(n).code != 400
  }

  /**
   `request`: one operation, sent again until something final comes back or the attempts run out. However often
   it arrives, the service ends up as it was, or exactly as after one clean delivery.
   */
  method Request(service: MockTrace, op: Op, plan: nat -> Attempt, maxAttempts: nat)
    returns (r: Result<Status, Failure>)
    requires service.Valid() && (op.Register? ==> op.source in service.env.sources)
    requires GatewaysFail(plan)
    modifies service
    ensures service.Valid()
    ensures service.ledger
            == if Reached(plan, maxAttempts) then Step(old(service.ledger), op).0 else old(service.ledger)
    ensures r.Ok? <==> Answered(plan, maxAttempts) && Step(old(service.ledger), op).1 != BadSeq
    ensures r.Ok? ==>
      var (after, status) := Step(old(service.ledger), op);
      service.ledger == after && (r.value == status || (status == Accepted && r.value == Duplicate))
    ensures r == Err(Http(400)) ==> Step(old(service.ledger), op).1 == BadSeq
    ensures r.Err? ==> r.error.NoReply? || r.error.Http?
  {
    hide Step;
    ghost var before := service.ledger;
    Redelivery(before, op);
    var lastError := NoReply;
    var attempt := 0;
    while attempt < maxAttempts
      invariant attempt <= maxAttempts
      invariant service.Valid()
      invariant Made(plan, attempt)
      invariant forall n :: 0 <= n < attempt ==> !plan(n).Delivered?
      invariant service.ledger ==
        if exists n :: 0 <= n < attempt && Delivers(plan(n)) then Step(before, op).0 else before
      invariant lastError.NoReply? || (lastError.Http? && lastError.code != 400)
    {
      var a := plan(attempt);
      if Delivers(a) {
        var status := Deliver(service, op);
        if a.Delivered? {
          if status == BadSeq { return Err(Http(400)); }
          return Ok(status);
        }
      }
      if a.Gateway? {
        if !Retryable(a.code) { return Err(Http(a.code)); }
        lastError := Http(a.code);
      } else {
        lastError := NoReply;
      }
      attempt := attempt + 1;
    }
    return Err(lastError);
  }

  /** A single-item batch. */
  method Deliver(service: MockTrace, op: Op) returns (status: Status)
    requires service.Valid() && (op.Register? ==> op.source in service.env.sources)
    modifies service
    ensures service.Valid()
    ensures (service.ledger, status) == Step(old(service.ledger), op)
  {
    OneItem(service.ledger, op);
    var code, statuses;
    if op.Register? {
      code, statuses := service.RecordsBatch([op]);
    } else {
      code, statuses := service.UpdatesBatch([op]);
      if code == 400 { return BadSeq; }
    }
    status := statuses[0];
  }

  lemma OneItem(l: Ledger, op: Op)
    ensures Run(l, [op]) == Step(l, op).0 && Statuses(l, [op]) == [Step(l, op).1]
    ensures op.Update? && !(1 <= op.slot.seqNo <= 100) ==> Step(l, op) == (l, BadSeq)
    ensures Run(l, [op][..0]) == l
  {
    assert [op][..0] == [];
  }

  /** Messages arriving one by one at a new service. */
  method Arrivals(env: Env, ops: seq<Op>) returns (service: MockTrace)
    requires EnvOk(env) && InUse(env, ops)
    ensures service.Valid() && EndsIn(env, ops, service.records)
  {
    hide Step, Shows, EnvOk, LedgerOk;
    service := new MockTrace(env);
    for i := 0 to |ops|
      invariant service.Valid() && fresh(service) && service.env == env
      invariant service.ledger == Run(EMPTY, ops[..i])
    {
      assert ops[..i + 1][..i] == ops[..i] && ops[i] in ops;
      var _ := Deliver(service, ops[i]);
    }
    assert ops[..|ops|] == ops;
  }

  datatype Registered = Registered(dataId: Text, root: Text, status: Status)

  /**
   `registerData`. Whatever the transport does, the service is as before or as after one clean delivery; success
   and conflict are those of the clean delivery, with its data id and the document's own root.
   */
  method RegisterData(service: MockTrace, sha: Text -> Text, source: Text, doc: Json, plan: nat -> Attempt,
                      maxAttempts: nat)
    returns (r: Result<Registered, Failure>)
    requires service.Valid() && source in service.env.sources && GatewaysFail(plan)
    modifies service
    ensures service.Valid()
    ensures
      var (after, status) := Step(old(service.ledger), RegisterOp(sha, source, doc));
      && service.ledger == (if Reached(plan, maxAttempts) then after else old(service.ledger))
      && (r.Ok? <==> Answered(plan, maxAttempts) && status != Conflict)
      && (r == Err(ConflictError) <==> Answered(plan, maxAttempts) && status == Conflict)
      && (r.Ok? ==> service.ledger == after)
      && (r.Ok? ==> r.value.dataId == service.env.dataIdOf(source) && r.value.root == RootOf(sha, doc))
      && (r.Ok? ==> r.value.status == status || (status == Accepted && r.value.status == Duplicate))
  {
    hide RootOf, Answered, Reached;
    var root := RootOf(sha, doc);
    var op := Register(source, sha(PayloadText(root, doc)));
    var reply := Request(service, op, plan, maxAttempts);
    if reply.Err? { return Err(reply.error); }
    if reply.value == Conflict { return Err(ConflictError); }
    r := Ok(Registered(service.env.dataIdOf(source), root, reply.value));
  }

  datatype Updated = Updated(root: Text, updateCount: nat)

  /** `updateMetadata`: the next sequence number, chained onto the previous root, never past the cap. */
  method UpdateMetadata(service: MockTrace, sha: Text -> Text, dataId: Text, doc: Json, prev: Text,
                        updateCount: nat, plan: nat -> Attempt, maxAttempts: nat)
    returns (r: Result<Updated, Failure>)
    requires service.Valid() && GatewaysFail(plan)
    modifies service
    ensures service.Valid()
    ensures updateCount >= MAX_TRACE_UPDATES_PER_DATA_ID ==>
      r == Err(UpdateCap) && service.ledger == old(service.ledger)
    ensures updateCount < MAX_TRACE_UPDATES_PER_DATA_ID ==>
      var (after, status) := Step(old(service.ledger), UpdateOp(sha, dataId, updateCount + 1, prev, doc));
      && service.ledger == (if Reached(plan, maxAttempts) then after else old(service.ledger))
      && (r.Ok? <==> Answered(plan, maxAttempts) && status != Conflict)
      && (r == Err(ConflictError) <==> Answered(plan, maxAttempts) && status == Conflict)
      && (r.Ok? ==> service.ledger == after && r.value == Updated(RootOf(sha, doc), updateCount + 1))
    // the service never answers that the sequence number is out of range
    ensures r != Err(Http(400))
  {
    hide RootOf, Answered, Reached;
    if updateCount >= MAX_TRACE_UPDATES_PER_DATA_ID { return Err(UpdateCap); }
    var root := RootOf(sha, doc);
    var op := Update(Slot(dataId, updateCount + 1), sha(EventText(prev, root, doc)));
    var reply := Request(service, op, plan, maxAttempts);
    if reply.Err? { return Err(reply.error); }
    if reply.value == Conflict { return Err(ConflictError); }
    r := Ok(Updated(root, updateCount + 1));
  }

  // ------------------------------------------------------------- a caller that feeds each result into the next call

  /**
   The service's history of a data id, for a caller that has seen n updates succeed: entries 1..n are those
   updates, each chained onto the root before it; at most one more entry is there, at n + 1, left by a call
   whose answer was lost.
   */
  ghost predicate Chained(l: Ledger, sha: Text -> Text, dataId: Text, roots: seq<Text>, docs: seq<Json>) {
    && |roots| == |docs| + 1 && |docs| <= MAX_TRACE_UPDATES_PER_DATA_ID
    && (forall s :: 1 <= s <= |docs| ==>
          roots[s] == RootOf(sha, docs[s - 1])
          && Slot(dataId, s) in l.events
          && l.events[Slot(dataId, s)] == UpdateOp(sha, dataId, s, roots[s - 1], docs[s - 1]).event)
    && (forall q :: Slot(dataId, q) in l.events ==> 1 <= q <= |docs| + 1 && q <= MAX_TRACE_UPDATES_PER_DATA_ID)
  }

  lemma ChainSurvives(
    l: Ledger, sha: Text -> Text, dataId: Text, roots: seq<Text>, docs: seq<Json>, doc: Json)
    requires Chained(l, sha, dataId, roots, docs) && |docs| < MAX_TRACE_UPDATES_PER_DATA_ID
    ensures
      var (after, status) := Step(l, UpdateOp(sha, dataId, |docs| + 1, roots[|docs|], doc));
      && Chained(after, sha, dataId, roots, docs)
      && (status != Conflict ==> Chained(after, sha, dataId, roots + [RootOf(sha, doc)], docs + [doc]))
      && Slot(dataId, |docs| + 1) in after.events && Slot(dataId, |docs| + 2) !in after.events
  {
    hide RootOf, EventText;
    var n := |docs|;
    var (after, status) := Step(l, UpdateOp(sha, dataId, n + 1, roots[n], doc));
    assert forall s :: 1 <= s <= n ==> Slot(dataId, s) != Slot(dataId, n + 1);
    if status != Conflict {
      var roots', docs' := roots + [RootOf(sha, doc)], docs + [doc];
      assert roots'[n + 1] == RootOf(sha, docs'[n]) && roots'[n] == roots[n];
      assert roots'[..n + 1] == roots && docs'[..n] == docs;
    }
  }

  datatype Call = Call(doc: Json, plan: nat -> Attempt)

  /**
   The service and a caller that feeds each returned root and count into its next update: the documents of the
   calls that succeeded, the roots they chain, and the calls that failed since the last success.
   */
  datatype Caller = Caller(
    ledger: Ledger, root: Text, updateCount: nat, roots: seq<Text>, docs: seq<Json>, failed: seq<Call>)

  /** The call is answered, and not by a conflict. */
  ghost predicate Succeeds(c: Caller, sha: Text -> Text, dataId: Text, call: Call, maxAttempts: nat) {
    && c.updateCount < MAX_TRACE_UPDATES_PER_DATA_ID && Answered(call.plan, maxAttempts)
    && Step(c.ledger, UpdateOp(sha, dataId, c.updateCount + 1, c.root, call.doc)).1 != Conflict
  }

  /** One more call: the service moves when the call reaches it, the caller when the call succeeds. */
  ghost function CallerStep(c: Caller, sha: Text -> Text, dataId: Text, call: Call, maxAttempts: nat): Caller {
    var op := UpdateOp(sha, dataId, c.updateCount + 1, c.root, call.doc);
    var sent := c.updateCount < MAX_TRACE_UPDATES_PER_DATA_ID && Reached(call.plan, maxAttempts);
    var ledger := if sent then Step(c.ledger, op).0 else c.ledger;
    if Succeeds(c, sha, dataId, call, maxAttempts) then
      var root := RootOf(sha, call.doc);
      Caller(ledger, root, c.updateCount + 1, c.roots + [root], c.docs + [call.doc], [])
    else c.(ledger := ledger, failed := c.failed + [call])
  }

  ghost function CallerOf(
    l: Ledger, sha: Text -> Text, dataId: Text, initialRoot: Text, calls: seq<Call>, maxAttempts: nat): Caller
  {
    if calls == [] then Caller(l, initialRoot, 0, [initialRoot], [], [])
    else
      var before := CallerOf(l, sha, dataId, initialRoot, calls[..|calls| - 1], maxAttempts);
      CallerStep(before, sha, dataId, calls[|calls| - 1], maxAttempts)
  }

  /** Any number of updates through any transport. */
  method UpdateAll(service: MockTrace, sha: Text -> Text, dataId: Text, initialRoot: Text, calls: seq<Call>,
                   maxAttempts: nat)
    returns (root: Text, updateCount: nat)
    requires service.Valid() && forall c :: c in calls ==> GatewaysFail(c.plan)
    modifies service
    ensures service.Valid()
    ensures
      var c := CallerOf(old(service.ledger), sha, dataId, initialRoot, calls, maxAttempts);
      service.ledger == c.ledger && root == c.root && updateCount == c.updateCount
  {
    hide RootOf, UpdateOp, Reached, Answered, Step;
    root, updateCount := initialRoot, 0;
    ghost var c := CallerOf(service.ledger, sha, dataId, initialRoot, [], maxAttempts);
    for i := 0 to |calls|
      invariant service.Valid()
      invariant c == CallerOf(old(service.ledger), sha, dataId, initialRoot, calls[..i], maxAttempts)
      invariant service.ledger == c.ledger && root == c.root && updateCount == c.updateCount
    {
      assert calls[..i + 1][..i] == calls[..i];
      c := CallerStep(c, sha, dataId, calls[i], maxAttempts);
      var r := UpdateMetadata(service, sha, dataId, calls[i].doc, root, updateCount, calls[i].plan, maxAttempts);
      if r.Ok? {
        root, updateCount := r.value.root, r.value.updateCount;
      }
    }
    assert calls[..|calls|] == calls;
  }

  /** Some of these calls reached the service. */
  ghost predicate AnyReached(calls: seq<Call>, maxAttempts: nat) {
    exists c :: c in calls && Reached(c.plan, maxAttempts)
  }

  ghost function FirstReached(calls: seq<Call>, maxAttempts: nat): Call
    requires AnyReached(calls, maxAttempts)
  {
    var front, last := calls[..|calls| - 1], calls[|calls| - 1];
    OneMoreCall(front, last, maxAttempts);
    assert calls == front + [last];
    if AnyReached(front, maxAttempts) then FirstReached(front, maxAttempts) else last
  }

  lemma OneMoreCall(calls: seq<Call>, c: Call, maxAttempts: nat)
    ensures AnyReached(calls + [c], maxAttempts) <==> AnyReached(calls, maxAttempts) || Reached(c.plan, maxAttempts)
  {
    hide Reached;
    var all := calls + [c];
    assert all[|calls|] == c && c in all && forall d :: d in calls ==> d in all;
  }

  lemma FirstReachedAppends(calls: seq<Call>, c: Call, maxAttempts: nat)
    requires AnyReached(calls + [c], maxAttempts)
    ensures FirstReached(calls + [c], maxAttempts)
            == if AnyReached(calls, maxAttempts) then FirstReached(calls, maxAttempts) else c
  {
    assert (calls + [c])[..|calls|] == calls;
  }

  /** Every entry is still there, unchanged. */
  ghost predicate KeepsEvents(l: Ledger, l': Ledger) {
    forall e :: e in l.events ==> e in l'.events && l'.events[e] == l.events[e]
  }

  /** What is true of the caller and the service after any calls. */
  ghost predicate InStep(c: Caller, sha: Text -> Text, dataId: Text, maxAttempts: nat) {
    && Chained(c.ledger, sha, dataId, c.roots, c.docs)
    && c.updateCount == |c.docs| && c.root == c.roots[|c.docs|]
    && InDoubt(c, sha, dataId, maxAttempts)
  }

  /**
   The history holds an entry beyond the caller's count exactly when a call since the last success, below the cap,
   reached the service; the entry is what the first of those calls said.
   */
  ghost predicate InDoubt(c: Caller, sha: Text -> Text, dataId: Text, maxAttempts: nat) {
    var slot := Slot(dataId, c.updateCount + 1);
    && (slot in c.ledger.events
        <==> c.updateCount < MAX_TRACE_UPDATES_PER_DATA_ID && AnyReached(c.failed, maxAttempts))
    && (slot in c.ledger.events ==>
          c.ledger.events[slot]
          == UpdateOp(sha, dataId, c.updateCount + 1, c.root, FirstReached(c.failed, maxAttempts).doc).event)
  }

  lemma StepKeepsInStep(c: Caller, sha: Text -> Text, dataId: Text, call: Call, maxAttempts: nat)
    requires InStep(c, sha, dataId, maxAttempts)
    ensures InStep(CallerStep(c, sha, dataId, call, maxAttempts), sha, dataId, maxAttempts)
    ensures KeepsEvents(c.ledger, CallerStep(c, sha, dataId, call, maxAttempts).ledger)
  {
    hide RootOf, UpdateOp, Chained, Reached, Answered, AnyReached, FirstReached, InDoubt, Step;
    if c.updateCount < MAX_TRACE_UPDATES_PER_DATA_ID {
      ChainSurvives(c.ledger, sha, dataId, c.roots, c.docs, call.doc);
      StepKeepsEvents(c.ledger, UpdateOp(sha, dataId, c.updateCount + 1, c.root, call.doc));
      StaysChained(c.ledger, sha, dataId, c.roots, c.docs);
      if Answered(call.plan, maxAttempts) { AnsweredIsReached(call.plan, maxAttempts); }
    }
    assert KeepsEvents(c.ledger, c.ledger);
    DoubtStep(c, sha, dataId, call, maxAttempts);
  }

  lemma AnsweredIsReached(plan: nat -> Attempt, maxAttempts: nat)
    requires Answered(plan, maxAttempts)
    ensures Reached(plan, maxAttempts)
  {
    hide Made;
    var n :| 0 <= n < maxAttempts && Made(plan, n) && plan(n).Delivered?;
    assert Delivers(plan(n));
  }

  lemma StaysChained(l: Ledger, sha: Text -> Text, dataId: Text, roots: seq<Text>, docs: seq<Json>)
    requires Chained(l, sha, dataId, roots, docs)
    ensures |roots| == |docs| + 1 && |docs| <= MAX_TRACE_UPDATES_PER_DATA_ID
    ensures Slot(dataId, |docs| + 2) !in l.events
    ensures |docs| == MAX_TRACE_UPDATES_PER_DATA_ID ==> Slot(dataId, |docs| + 1) !in l.events
  {
    hide RootOf, UpdateOp;
  }

  lemma StepKeepsEvents(l: Ledger, op: Op)
    ensures KeepsEvents(l, Step(l, op).0)
  {
  }

  /** An update adds its own entry, or finds the one that is there. */
  lemma UpdateEntry(l: Ledger, sha: Text -> Text, dataId: Text, seqNo: int, prev: Text, doc: Json)
    requires 1 <= seqNo <= MAX_TRACE_UPDATES_PER_DATA_ID
    ensures
      var op := UpdateOp(sha, dataId, seqNo, prev, doc);
      var after := Step(l, op).0;
      && Slot(dataId, seqNo) in after.events
      && after.events[Slot(dataId, seqNo)]
         == (if Slot(dataId, seqNo) in l.events then l.events[Slot(dataId, seqNo)] else op.event)
      && (Slot(dataId, seqNo + 1) in after.events <==> Slot(dataId, seqNo + 1) in l.events)
  {
    hide RootOf, EventText;
  }

  lemma DoubtStep(c: Caller, sha: Text -> Text, dataId: Text, call: Call, maxAttempts: nat)
    requires InStep(c, sha, dataId, maxAttempts)
    ensures InDoubt(CallerStep(c, sha, dataId, call, maxAttempts), sha, dataId, maxAttempts)
  {
    hide RootOf, UpdateOp, Chained, Reached, Answered, AnyReached, FirstReached, Step;
    StaysChained(c.ledger, sha, dataId, c.roots, c.docs);
    OneMoreCall(c.failed, call, maxAttempts);
    if AnyReached(c.failed + [call], maxAttempts) { FirstReachedAppends(c.failed, call, maxAttempts); }
    NoneReached(maxAttempts);
    if c.updateCount < MAX_TRACE_UPDATES_PER_DATA_ID {
      UpdateEntry(c.ledger, sha, dataId, c.updateCount + 1, c.root, call.doc);
    }
  }

  lemma NoneReached(maxAttempts: nat)
    ensures !AnyReached([], maxAttempts)
  {
  }

  /**
   For a caller that starts with the data id's first update: its n updates are entries 1..n, each chained to the
   root before it and n at most 100; no entry was ever overwritten; and one more entry is there exactly when one of
   the calls since the last success reached the service. So right after a success it is entries 1..n and no other.
   */
  lemma {:induction false} CallsChain(
    l: Ledger, sha: Text -> Text, dataId: Text, initialRoot: Text, calls: seq<Call>, maxAttempts: nat)
    requires forall q :: Slot(dataId, q) !in l.events
    ensures
      var c := CallerOf(l, sha, dataId, initialRoot, calls, maxAttempts);
      && InStep(c, sha, dataId, maxAttempts)
      && c.roots[0] == initialRoot && KeepsEvents(l, c.ledger)
      && |c.failed| <= |calls| && c.failed == calls[|calls| - |c.failed|..]
  {
    hide InStep, Succeeds, RootOf, UpdateOp, Reached;
    if calls == [] {
      ChainStarts(l, sha, dataId, initialRoot, maxAttempts);
    } else {
      var front := calls[..|calls| - 1];
      CallsChain(l, sha, dataId, initialRoot, front, maxAttempts);
      var c := CallerOf(l, sha, dataId, initialRoot, front, maxAttempts);
      StepKeepsInStep(c, sha, dataId, calls[|calls| - 1], maxAttempts);
      InStepHasRoots(c, sha, dataId, maxAttempts);
      assert calls == front + [calls[|calls| - 1]];
    }
  }

  lemma InStepHasRoots(c: Caller, sha: Text -> Text, dataId: Text, maxAttempts: nat)
    requires InStep(c, sha, dataId, maxAttempts)
    ensures |c.roots| == |c.docs| + 1
  {
    hide RootOf, UpdateOp, InDoubt;
  }

  lemma ChainStarts(l: Ledger, sha: Text -> Text, dataId: Text, root: Text, maxAttempts: nat)
    requires forall q :: Slot(dataId, q) !in l.events
    ensures InStep(Caller(l, root, 0, [root], [], []), sha, dataId, maxAttempts) && KeepsEvents(l, l)
  {
    NoneReached(maxAttempts);
  }

  /**
   Whether the next call succeeds: it must be answered, and what an earlier call left in doubt, if any did, must be
   the same document.
   */
  lemma NextCallSucceedsIff(
    l: Ledger, sha: Text -> Text, dataId: Text, initialRoot: Text, calls: seq<Call>, call: Call, maxAttempts: nat)
    requires Injective(sha) && forall q :: Slot(dataId, q) !in l.events
    requires Document(call.doc) && forall c :: c in calls ==> Document(c.doc)
    ensures
      var c := CallerOf(l, sha, dataId, initialRoot, calls, maxAttempts);
      c.updateCount < MAX_TRACE_UPDATES_PER_DATA_ID ==>
        (Succeeds(c, sha, dataId, call, maxAttempts)
         <==> Answered(call.plan, maxAttempts)
              && (AnyReached(c.failed, maxAttempts) ==> Same(FirstReached(c.failed, maxAttempts).doc, call.doc)))
  {
    hide RootOf, UpdateOp, Chained, Reached, Answered, AnyReached, FirstReached, Injective, Document, Same, CallerOf;
    CallsChain(l, sha, dataId, initialRoot, calls, maxAttempts);
    var c := CallerOf(l, sha, dataId, initialRoot, calls, maxAttempts);
    var slot := Slot(dataId, c.updateCount + 1);
    if c.updateCount < MAX_TRACE_UPDATES_PER_DATA_ID {
      if slot in c.ledger.events {
        var first := FirstReached(c.failed, maxAttempts);
        FirstReachedIn(c.failed, maxAttempts);
        assert first in calls;
        DuplicateMeansSame(c.ledger, sha, slot, c.root, first.doc, c.root, call.doc);
      } else {
        NewIsAccepted(c.ledger, sha, slot, c.root, call.doc);
      }
    }
  }

  lemma {:induction false} FirstReachedIn(calls: seq<Call>, maxAttempts: nat)
    requires AnyReached(calls, maxAttempts)
    ensures FirstReached(calls, maxAttempts) in calls
  {
    hide Reached;
    if AnyReached(calls[..|calls| - 1], maxAttempts) { FirstReachedIn(calls[..|calls| - 1], maxAttempts); }
  }

  lemma NewIsAccepted(l: Ledger, sha: Text -> Text, slot: Slot, prev: Text, doc: Json)
    requires 1 <= slot.seqNo <= 100 && slot !in l.events
    ensures Step(l, UpdateOp(sha, slot.dataId, slot.seqNo, prev, doc)).1 == Accepted
  {
    hide RootOf, EventText;
  }

  const LOST: nat -> Attempt := _ => ReplyLost
  const CLEAN: nat -> Attempt := _ => Delivered

  /**
   A lost reply: the caller still counts no update, the service holds one. After that, a call through a clean
   transport succeeds exactly when it repeats the document.
   */
  lemma LostReplyLeavesEntry(
    l: Ledger, sha: Text -> Text, dataId: Text, initialRoot: Text, doc: Json, next: Json, maxAttempts: nat)
    requires Injective(sha) && forall q :: Slot(dataId, q) !in l.events
    requires Document(doc) && Document(next) && maxAttempts > 0
    ensures
      var c := CallerOf(l, sha, dataId, initialRoot, [Call(doc, LOST)], maxAttempts);
      && c.updateCount == 0 && c.root == initialRoot && Slot(dataId, 1) in c.ledger.events
      && (Succeeds(c, sha, dataId, Call(next, CLEAN), maxAttempts) <==> Same(doc, next))
  {
    hide Chained, Injective, Document, Same, RootOf, UpdateOp, CallerOf, Succeeds, Reached, Answered, FirstReached;
    var call := Call(doc, LOST);
    Transports(maxAttempts);
    OneLostCall(l, sha, dataId, initialRoot, doc, maxAttempts);
    assert call in [call];
    CallsChain(l, sha, dataId, initialRoot, [call], maxAttempts);
    NextCallSucceedsIff(l, sha, dataId, initialRoot, [call], Call(next, CLEAN), maxAttempts);
    FirstReachedIn([call], maxAttempts);
  }

  lemma Transports(maxAttempts: nat)
    requires maxAttempts > 0
    ensures Reached(LOST, maxAttempts) && !Answered(LOST, maxAttempts) && Answered(CLEAN, maxAttempts)
  {
    assert Made(LOST, 0) && Delivers(LOST(0));
    assert Made(CLEAN, 0) && CLEAN(0).Delivered?;
  }

  lemma OneLostCall(l: Ledger, sha: Text -> Text, dataId: Text, initialRoot: Text, doc: Json, maxAttempts: nat)
    requires !Answered(LOST, maxAttempts)
    ensures
      var c := CallerOf(l, sha, dataId, initialRoot, [Call(doc, LOST)], maxAttempts);
      c.updateCount == 0 && c.root == initialRoot && c.failed == [Call(doc, LOST)]
  {
    hide RootOf, UpdateOp, Reached, Answered, Step;
    assert [Call(doc, LOST)][..0] == [];
  }
}
