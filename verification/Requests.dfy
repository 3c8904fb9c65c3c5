/** Submissions to data requests: the submission table, the event log, and what keeps them in step. */
module Requests {
  import opened EventLog
  import opened Wrappers

  datatype Review = Pending | AcceptedReview | RejectedReview

  datatype Submission = Submission(request: string, asset: string, status: Review)

  datatype DataRequest = DataRequest(
    owner: string, open: bool, preset: string, kycRequired: bool, deadline: Option<int>)

  /** The tables other parts of the program keep, as a call finds them. */
  datatype World = World(
    now: int, kycVerified: set<string>, owners: map<string, string>, activeListings: set<Listing>)

  datatype Listing = Listing(asset: string, preset: string)

  datatype Tables = Tables(
    requests: map<string, DataRequest>, submissions: map<string, Submission>, events: seq<Event>)

  datatype RequestError =
    | NotFound | Closed | DeadlinePassed | KycRequired | NotEligible | AlreadySubmitted
    | NothingToWithdraw | NothingToReview | NothingToClose

  function SubmitKey(id: string): string { "submit:" + id }
  function WithdrawKey(id: string): string { "submit-withdraw:" + id }
  function ReviewKey(id: string): string { "review:" + id }

  /** Why a submission is turned away, in the order the checks are made. */
  function SubmitRefusal(t: Tables, w: World, creator: string, request: string, asset: string): Option<RequestError> {
    if request !in t.requests then Some(NotFound) else
      var r := t.requests[request];
      if !r.open then Some(Closed)
      else if r.deadline.Some? && r.deadline.value <= w.now then Some(DeadlinePassed)
      else if r.kycRequired && creator !in w.kycVerified then Some(KycRequired)
      else if !(asset in w.owners && w.owners[asset] == creator && Listing(asset, r.preset) in w.activeListings)
      then Some(NotEligible)
      else if exists s :: s in t.submissions && t.submissions[s].request == request && t.submissions[s].asset == asset
      then Some(AlreadySubmitted)
      else None
  }

  /** `submitAsset`; `id` is the new row's generated id. */
  function Submit(t: Tables, w: World, creator: string, request: string, asset: string, id: string)
    : (Tables, Option<RequestError>)
  {
    var refusal := SubmitRefusal(t, w, creator, request, asset);
    if refusal.Some? then (t, refusal)
    else (t.(submissions := t.submissions[id := Submission(request, asset, Pending)],
             events := Append(t.events, asset, Submitted(id, request), Some(SubmitKey(id)))), None)
  }

  /** The pending submission a creator may withdraw. */
  predicate Withdrawable(t: Tables, w: World, creator: string, request: string, asset: string, id: string) {
    && id in t.submissions && t.submissions[id] == Submission(request, asset, Pending)
    && asset in w.owners && w.owners[asset] == creator
  }

  /** `withdrawSubmission`, given the row that its WHERE clause selects. */
  function Withdraw(t: Tables, request: string, asset: string, id: string): Tables {
    t.(submissions := t.submissions - {id},
       events := Append(t.events, asset, Withdrawn(id, request), Some(WithdrawKey(id))))
  }

  predicate Reviewable(t: Tables, requester: string, id: string) {
    && id in t.submissions && t.submissions[id].status == Pending
    && t.submissions[id].request in t.requests && t.requests[t.submissions[id].request].owner == requester
  }

  /** `reviewSubmission`. */
  function ReviewSubmission(t: Tables, requester: string, id: string, accepted: bool)
    : (Tables, Option<RequestError>)
  {
    if !Reviewable(t, requester, id) then (t, Some(NothingToReview)) else
      var s := t.submissions[id];
      (t.(submissions := t.submissions[id := s.(status := if accepted then AcceptedReview else RejectedReview)],
          events := Append(t.events, s.asset, Reviewed(id, s.request, accepted), Some(ReviewKey(id)))), None)
  }

  /** `closeRequest`. */
  function Close(t: Tables, requester: string, request: string): (Tables, Option<RequestError>) {
    if request in t.requests && t.requests[request].owner == requester && t.requests[request].open
    then (t.(requests := t.requests[request := t.requests[request].(open := false)]), None)
    else (t, Some(NothingToClose))
  }

  // ------------------------------------------------------------- the log as the source of truth

  function ReplayStep(m: map<string, Submission>, e: Event): map<string, Submission> {
    match e.action
    case Submitted(id, request) => m[id := Submission(request, e.asset, Pending)]
    case Withdrawn(id, _) => m - {id}
    case Reviewed(id, _, accepted) =>
      if id in m then m[id := m[id].(status := if accepted then AcceptedReview else RejectedReview)] else m
    case Other(_) => m
  }

  /** The submissions that the log says there are. */
  function Replay(events: seq<Event>): map<string, Submission> {
    if events == [] then map[] else ReplayStep(Replay(events[..|events| - 1]), events[|events| - 1])
  }

  /** The key of each submission event names its own submission; no other event uses such a key. */
  ghost predicate Keyed(e: Event) {
    match e.action
    case Submitted(id, _) => e.key == Some(SubmitKey(id))
    case Withdrawn(id, _) => e.key == Some(WithdrawKey(id))
    case Reviewed(id, _, _) => e.key == Some(ReviewKey(id))
    case Other(_) => e.key.Some? ==> ForeignKey(e.key.value)
  }

  ghost predicate ForeignKey(key: string) {
    forall id :: key != SubmitKey(id) && key != WithdrawKey(id) && key != ReviewKey(id)
  }

  predicate Mentions(e: Event, id: string) {
    match e.action
    case Submitted(s, _) => s == id
    case Withdrawn(s, _) => s == id
    case Reviewed(s, _, _) => s == id
    case Other(_) => false
  }

  /** An id that no row and no event has ever had. */
  ghost predicate Unused(t: Tables, id: string) {
    id !in t.submissions && forall e :: e in t.events ==> !Mentions(e, id)
  }

  ghost predicate Unique(t: Tables) {
    forall i, j :: i in t.submissions && j in t.submissions ==>
      i == j || t.submissions[i].request != t.submissions[j].request || t.submissions[i].asset != t.submissions[j].asset
  }

  /** A pending submission has been neither withdrawn nor reviewed. */
  ghost predicate PendingIsOpen(t: Tables) {
    forall e, id :: e in t.events && id in t.submissions && t.submissions[id].status == Pending && Mentions(e, id) ==>
      e.action.Submitted?
  }

  ghost predicate Inv(t: Tables) {
    && Replay(t.events) == t.submissions
    && Numbered(t.events)
    && Unique(t)
    && (forall e :: e in t.events ==> Keyed(e))
    && PendingIsOpen(t)
  }

  lemma KeysAreDistinct(a: string, b: string)
    ensures SubmitKey(a) == SubmitKey(b) <==> a == b
    ensures WithdrawKey(a) == WithdrawKey(b) <==> a == b
    ensures ReviewKey(a) == ReviewKey(b) <==> a == b
    ensures SubmitKey(a) != WithdrawKey(b) && SubmitKey(a) != ReviewKey(b) && WithdrawKey(a) != ReviewKey(b)
  {
    assert SubmitKey(a)[7..] == a && SubmitKey(b)[7..] == b;
    assert WithdrawKey(a)[16..] == a && WithdrawKey(b)[16..] == b;
    assert ReviewKey(a)[7..] == a && ReviewKey(b)[7..] == b;
    assert SubmitKey(a)[6] == ':' && WithdrawKey(b)[6] == '-';
    assert SubmitKey(a)[0] == 's' && WithdrawKey(a)[0] == 's' && ReviewKey(b)[0] == 'r';
  }

  /** Only the event of the same kind for the same submission can hold a submission key. */
  lemma KeyHolder(e: Event, id: string)
    requires Keyed(e)
    ensures e.key == Some(SubmitKey(id)) ==> e.action.Submitted? && Mentions(e, id)
    ensures e.key == Some(WithdrawKey(id)) ==> e.action.Withdrawn? && Mentions(e, id)
    ensures e.key == Some(ReviewKey(id)) ==> e.action.Reviewed? && Mentions(e, id)
  {
    hide SubmitKey, WithdrawKey, ReviewKey;
    match e.action
    case Submitted(s, _) => KeysAreDistinct(s, id);
    case Withdrawn(s, _) => KeysAreDistinct(s, id); KeysAreDistinct(id, s);
    case Reviewed(s, _, _) => KeysAreDistinct(id, s);
    case Other(_) =>
  }

  /** A key nobody holds: the event is appended, and everything about the log carries over. */
  lemma EventAppended(t: Tables, asset: string, action: Action, key: Option<string>)
    requires Inv(t) && !Taken(t.events, asset, key)
    ensures
      var events := Append(t.events, asset, action, key);
      var e := Event(asset, MaxSeq(t.events, asset) + 1, action, key);
      && events == t.events + [e]
      && Numbered(events) && Replay(events) == ReplayStep(t.submissions, e)
      && (Keyed(e) ==> forall x :: x in events ==> Keyed(x))
  {
    hide Numbered, ReplayStep, Keyed;
    AppendKeepsNumbering(t.events, asset, action, key);
    var e := Event(asset, MaxSeq(t.events, asset) + 1, action, key);
    assert (t.events + [e])[..|t.events|] == t.events;
  }

  lemma SubmitKeyIsFree(t: Tables, asset: string, id: string)
    requires (forall e :: e in t.events ==> Keyed(e)) && Unused(t, id)
    ensures !Taken(t.events, asset, Some(SubmitKey(id)))
  {
    hide Keyed, SubmitKey;
    forall e | e in t.events { KeyHolder(e, id); }
  }

  lemma DecisionKeysAreFree(t: Tables, asset: string, id: string)
    requires (forall e :: e in t.events ==> Keyed(e)) && PendingIsOpen(t)
    requires id in t.submissions && t.submissions[id].status == Pending
    ensures !Taken(t.events, asset, Some(WithdrawKey(id))) && !Taken(t.events, asset, Some(ReviewKey(id)))
  {
    hide Keyed, WithdrawKey, ReviewKey;
    forall e | e in t.events { KeyHolder(e, id); }
  }

  /** A submission adds one row and one event; idempotency never swallows it. */
  lemma SubmitKeeps(t: Tables, w: World, creator: string, request: string, asset: string, id: string)
    requires Inv(t) && Unused(t, id)
    ensures
      var (t', error) := Submit(t, w, creator, request, asset, id);
      && Inv(t')
      && (error.Some? ==> t' == t)
      && (error.None? ==>
            && |t'.events| == |t.events| + 1
            && t'.submissions == t.submissions[id := Submission(request, asset, Pending)])
  {
    hide Replay, Numbered, Taken, Append, SubmitKey;
    if SubmitRefusal(t, w, creator, request, asset).None? {
      SubmitKeyIsFree(t, asset, id);
      EventAppended(t, asset, Submitted(id, request), Some(SubmitKey(id)));
    }
  }

  lemma WithdrawKeeps(t: Tables, w: World, creator: string, request: string, asset: string, id: string)
    requires Inv(t) && Withdrawable(t, w, creator, request, asset, id)
    ensures
      var t' := Withdraw(t, request, asset, id);
      Inv(t') && |t'.events| == |t.events| + 1 && t'.submissions == t.submissions - {id}
  {
    hide Replay, Numbered, Taken, Append, WithdrawKey;
    DecisionKeysAreFree(t, asset, id);
    EventAppended(t, asset, Withdrawn(id, request), Some(WithdrawKey(id)));
  }

  lemma ReviewKeeps(t: Tables, requester: string, id: string, accepted: bool)
    requires Inv(t)
    ensures
      var (t', error) := ReviewSubmission(t, requester, id, accepted);
      && Inv(t')
      && (error.Some? ==> t' == t)
      && (error.None? ==>
            && |t'.events| == |t.events| + 1 && t'.submissions.Keys == t.submissions.Keys
            && forall s :: s in t.submissions && s != id ==> t'.submissions[s] == t.submissions[s])
  {
    hide Replay, Numbered, Taken, Append, ReviewKey;
    if Reviewable(t, requester, id) {
      var s := t.submissions[id];
      DecisionKeysAreFree(t, s.asset, id);
      EventAppended(t, s.asset, Reviewed(id, s.request, accepted), Some(ReviewKey(id)));
    }
  }

  lemma OtherEventKeeps(t: Tables, asset: string, name: string, key: Option<string>)
    requires Inv(t) && (key.Some? ==> ForeignKey(key.value))
    ensures Inv(t.(events := Append(t.events, asset, Other(name), key)))
  {
    hide Replay, Numbered, Taken, SubmitKey, WithdrawKey, ReviewKey;
    if !Taken(t.events, asset, key) { EventAppended(t, asset, Other(name), key); }
  }

  // ------------------------------------------------------------- the service, table by table

  class RequestService {
    var requests: map<string, DataRequest>
    var submissions: map<string, Submission>
    var events: seq<Event>

    constructor ()
      ensures State() == Tables(map[], map[], []) && Inv(State())
    {
      requests, submissions, events := map[], map[], [];
    }

    function State(): Tables
      reads this
    {
      Tables(requests, submissions, events)
    }

    /** `appendEvent`: inserts under the next number, or finds the event that already holds the key. */
    method AppendEvent(asset: string, action: Action, key: Option<string>)
      modifies this`events
      ensures events == Append(old(events), asset, action, key)
    {
      var highest := 0;
      var conflict := false;
      for i := 0 to |events|
        invariant highest == MaxSeq(events[..i], asset)
        invariant conflict <==> Taken(events[..i], asset, key)
      {
        assert events[..i + 1] == events[..i] + [events[i]] && events[..i + 1][..i] == events[..i];
        assert Taken(events[..i + 1], asset, key) <==>
               Taken(events[..i], asset, key) || (key.Some? && events[i].asset == asset && events[i].key == key);
        if events[i].asset == asset {
          if events[i].seqNo > highest { highest := events[i].seqNo; }
          if key.Some? && events[i].key == key { conflict := true; }
        }
      }
      assert events[..|events|] == events;
      if !conflict { events := events + [Event(asset, highest + 1, action, key)]; }
    }

    method SubmitAsset(w: World, creator: string, request: string, asset: string, id: string)
      returns (error: Option<RequestError>)
      requires Inv(State()) && Unused(State(), id)
      modifies this
      ensures (State(), error) == Submit(old(State()), w, creator, request, asset, id)
      ensures Inv(State())
    {
      hide Inv, Append, SubmitKey;
      SubmitKeeps(State(), w, creator, request, asset, id);
      if request !in requests { return Some(NotFound); }
      var r := requests[request];
      if !r.open { return Some(Closed); }
      if r.deadline.Some? && r.deadline.value <= w.now { return Some(DeadlinePassed); }
      if r.kycRequired {
        if creator !in w.kycVerified { return Some(KycRequired); }
      }
      if !(asset in w.owners && w.owners[asset] == creator && Listing(asset, r.preset) in w.activeListings) {
        return Some(NotEligible);
      }
      if exists s :: s in submissions && submissions[s].request == request && submissions[s].asset == asset {
        return Some(AlreadySubmitted);
      }
      submissions := submissions[id := Submission(request, asset, Pending)];
      AppendEvent(asset, Submitted(id, request), Some(SubmitKey(id)));
      return None;
    }

    method WithdrawSubmission(w: World, creator: string, request: string, asset: string)
      returns (error: Option<RequestError>)
      requires Inv(State())
      modifies this
      ensures Inv(State())
      ensures error.Some? ==>
        State() == old(State()) && forall id :: !Withdrawable(old(State()), w, creator, request, asset, id)
      ensures error.None? ==>
        exists id :: Withdrawable(old(State()), w, creator, request, asset, id)
                     && State() == Withdraw(old(State()), request, asset, id)
    {
      hide Inv, Append, WithdrawKey;
      var ids := set id | id in submissions && Withdrawable(State(), w, creator, request, asset, id);
      if ids == {} {
        assert forall id :: Withdrawable(State(), w, creator, request, asset, id) ==> id in ids;
        return Some(NothingToWithdraw);
      }
      var id :| id in ids;
      WithdrawKeeps(State(), w, creator, request, asset, id);
      submissions := submissions - {id};
      AppendEvent(asset, Withdrawn(id, request), Some(WithdrawKey(id)));
      return None;
    }

    method Review(requester: string, id: string, accepted: bool) returns (error: Option<RequestError>)
      requires Inv(State())
      modifies this
      ensures (State(), error) == ReviewSubmission(old(State()), requester, id, accepted)
      ensures Inv(State())
    {
      hide Inv, Append, ReviewKey;
      ReviewKeeps(State(), requester, id, accepted);
      if !Reviewable(State(), requester, id) { return Some(NothingToReview); }
      var s := submissions[id];
      submissions := submissions[id := s.(status := if accepted then AcceptedReview else RejectedReview)];
      AppendEvent(s.asset, Reviewed(id, s.request, accepted), Some(ReviewKey(id)));
      return None;
    }

    method CloseRequest(requester: string, request: string) returns (error: Option<RequestError>)
      requires Inv(State())
      modifies this
      ensures (State(), error) == Close(old(State()), requester, request)
      ensures Inv(State()) && submissions == old(submissions) && events == old(events)
    {
      if request in requests && requests[request].owner == requester && requests[request].open {
        requests := requests[request := requests[request].(open := false)];
        return None;
      }
      return Some(NothingToClose);
    }
  }

  // ------------------------------------------------------------- every run

  datatype Step =
    | Open(id: string, brief: DataRequest)
    | SubmitStep(w: World, creator: string, request: string, asset: string, id: string)
    | WithdrawStep(w: World, creator: string, request: string, asset: string, id: string)
    | ReviewStep(requester: string, id: string, accepted: bool)
    | CloseStep(requester: string, request: string)
    | OtherEvent(asset: string, name: string, key: Option<string>)

  /** What the database guarantees of a step: generated ids are new; the row withdrawn is one that matches. */
  ghost predicate Possible(t: Tables, s: Step) {
    match s
    case Open(id, _) => id !in t.requests
    case SubmitStep(_, _, _, _, id) => Unused(t, id)
    case WithdrawStep(w, creator, request, asset, id) => Withdrawable(t, w, creator, request, asset, id)
    case OtherEvent(_, _, key) => key.Some? ==> ForeignKey(key.value)
    case _ => true
  }

  function Next(t: Tables, s: Step): Tables {
    match s
    case Open(id, brief) => t.(requests := t.requests[id := brief])
    case SubmitStep(w, creator, request, asset, id) => Submit(t, w, creator, request, asset, id).0
    case WithdrawStep(_, _, request, asset, id) => Withdraw(t, request, asset, id)
    case ReviewStep(requester, id, accepted) => ReviewSubmission(t, requester, id, accepted).0
    case CloseStep(requester, request) => Close(t, requester, request).0
    case OtherEvent(asset, name, key) => t.(events := Append(t.events, asset, Other(name), key))
  }

  function Run(t: Tables, steps: seq<Step>): Tables {
    if steps == [] then t else Next(Run(t, steps[..|steps| - 1]), steps[|steps| - 1])
  }

  ghost predicate PossibleRun(t: Tables, steps: seq<Step>) {
    steps == []
    || (PossibleRun(t, steps[..|steps| - 1]) && Possible(Run(t, steps[..|steps| - 1]), steps[|steps| - 1]))
  }

  lemma NextKeeps(t: Tables, s: Step)
    requires Inv(t) && Possible(t, s)
    ensures Inv(Next(t, s))
  {
    hide Submit, Withdraw, ReviewSubmission, Append, Unused, Withdrawable, ForeignKey, Replay, Numbered, Keyed;
    match s
    case SubmitStep(w, creator, request, asset, id) => SubmitKeeps(t, w, creator, request, asset, id);
    case WithdrawStep(w, creator, request, asset, id) => WithdrawKeeps(t, w, creator, request, asset, id);
    case ReviewStep(requester, id, accepted) => ReviewKeeps(t, requester, id, accepted);
    case OtherEvent(asset, name, key) => OtherEventKeeps(t, asset, name, key);
    case _ =>
  }

  /** A decision is final. */
  lemma DecisionStays(t: Tables, s: Step, id: string)
    requires Inv(t) && Possible(t, s) && id in t.submissions && t.submissions[id].status != Pending
    ensures id in Next(t, s).submissions && Next(t, s).submissions[id] == t.submissions[id]
  {
    hide Inv, Append, SubmitRefusal;
  }

  /** In every run from empty tables the invariant holds, so the log replays to the table and is numbered 1..n. */
  lemma {:induction false} RunKeeps(t: Tables, steps: seq<Step>)
    requires Inv(t) && PossibleRun(t, steps)
    ensures Inv(Run(t, steps))
  {
    hide Inv, Possible, Next;
    if steps != [] {
      RunKeeps(t, steps[..|steps| - 1]);
      NextKeeps(Run(t, steps[..|steps| - 1]), steps[|steps| - 1]);
    }
  }

  lemma {:induction false} DecisionsAreFinal(t: Tables, steps: seq<Step>, id: string)
    requires Inv(t) && PossibleRun(t, steps) && id in t.submissions && t.submissions[id].status != Pending
    ensures id in Run(t, steps).submissions && Run(t, steps).submissions[id] == t.submissions[id]
  {
    hide Inv, Possible, Next;
    if steps != [] {
      var front := steps[..|steps| - 1];
      DecisionsAreFinal(t, front, id);
      RunKeeps(t, front);
      DecisionStays(Run(t, front), steps[|steps| - 1], id);
    }
  }

  /** The conditions under which a creator may submit an asset to a request. */
  predicate MaySubmit(t: Tables, w: World, creator: string, request: string, asset: string) {
    && request in t.requests
    && var r := t.requests[request];
       && r.open && (r.deadline.None? || w.now < r.deadline.value)
       && (r.kycRequired ==> creator in w.kycVerified)
       && asset in w.owners && w.owners[asset] == creator && Listing(asset, r.preset) in w.activeListings
       && forall s :: s in t.submissions ==> t.submissions[s].request != request || t.submissions[s].asset != asset
  }

  /** What a step did to one submission, and who may have done it. */
  lemma ChangesAreAllowed(t: Tables, s: Step, id: string)
    requires Inv(t) && Possible(t, s)
    ensures
      var u := Next(t, s);
      && (id !in t.submissions && id in u.submissions ==>
            && s.SubmitStep? && s.id == id && MaySubmit(t, s.w, s.creator, s.request, s.asset)
            && u.submissions[id] == Submission(s.request, s.asset, Pending))
      && (id in t.submissions && id !in u.submissions ==>
            && s.WithdrawStep? && s.id == id && t.submissions[id] == Submission(s.request, s.asset, Pending)
            && s.asset in s.w.owners && s.w.owners[s.asset] == s.creator)
      && (id in t.submissions && id in u.submissions && t.submissions[id] != u.submissions[id] ==>
            && s.ReviewStep? && s.id == id && t.submissions[id].status == Pending
            && t.submissions[id].request in t.requests
            && t.requests[t.submissions[id].request].owner == s.requester
            && u.submissions[id]
               == t.submissions[id].(status := if s.accepted then AcceptedReview else RejectedReview))
  {
    hide Append, Inv, Keyed, Numbered;
  }

  /** A submission is taken exactly under these conditions. */
  lemma SubmittedIff(t: Tables, w: World, creator: string, request: string, asset: string, id: string)
    ensures Submit(t, w, creator, request, asset, id).1.None? <==> MaySubmit(t, w, creator, request, asset)
  {
    hide Append;
  }

  /** Only its owner closes a request, and nothing opens it again. */
  lemma ClosingIsTheOwners(t: Tables, s: Step, request: string)
    requires Possible(t, s) && request in t.requests
    ensures request in Next(t, s).requests
    ensures !t.requests[request].open ==> Next(t, s).requests[request] == t.requests[request]
    ensures Next(t, s).requests[request] != t.requests[request] ==>
      s == CloseStep(t.requests[request].owner, request) && !Next(t, s).requests[request].open
  {
    hide Append;
  }

  /** In no run does a closed request gain a submission. */
  lemma {:induction false} ClosedGainsNothing(t: Tables, steps: seq<Step>, request: string, id: string)
    requires Inv(t) && PossibleRun(t, steps) && request in t.requests && !t.requests[request].open
    ensures
      var u := Run(t, steps);
      && request in u.requests && u.requests[request] == t.requests[request]
      && (id in u.submissions && u.submissions[id].request == request ==>
            id in t.submissions && t.submissions[id].request == request)
  {
    hide Inv, Possible, Next, MaySubmit;
    if steps != [] {
      var front, last := steps[..|steps| - 1], steps[|steps| - 1];
      ClosedGainsNothing(t, front, request, id);
      RunKeeps(t, front);
      ChangesAreAllowed(Run(t, front), last, id);
      ClosingIsTheOwners(Run(t, front), last, request);
      ClosedRefuses(Run(t, front), last, request);
    }
  }

  lemma ClosedRefuses(t: Tables, s: Step, request: string)
    requires request in t.requests && !t.requests[request].open
    ensures s.SubmitStep? && s.request == request ==> !MaySubmit(t, s.w, s.creator, request, s.asset)
  {
  }

  /** What a reader of the tables relies on, after any run from empty tables. */
  lemma LogAndTableAgree(steps: seq<Step>, asset: string)
    requires PossibleRun(Tables(map[], map[], []), steps)
    ensures
      var t := Run(Tables(map[], map[], []), steps);
      && Replay(t.events) == t.submissions
      && (forall i :: 0 <= i < |ListEvents(t.events, asset)| ==> ListEvents(t.events, asset)[i].seqNo == i + 1)
      && Unique(t)
  {
    hide Replay, Run, PossibleRun, Keyed, PendingIsOpen;
    assert Inv(Tables(map[], map[], [])) by { EmptyTables(); }
    RunKeeps(Tables(map[], map[], []), steps);
  }

  lemma EmptyTables()
    ensures Inv(Tables(map[], map[], []))
  {
  }
}
