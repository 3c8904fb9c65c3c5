/** The labeling queue: enqueueing, claiming, running and finishing jobs under any interleaving. */
module LabelJobs {
  import opened Canonical
  import opened JsText
  import opened PreferencePair
  import opened Wrappers

  datatype JobState = AwaitingModel | Queued | Running | Done | Failed

  /** A `label_job` row; the fingerprint is the pair a preference job is about. */
  datatype Job = Job(asset: string, jobType: string, state: JobState, fingerprint: Option<Text>, createdAt: int)

  const PREFERENCE: string := "text_pairwise_preference"

  /**
   The job table in insertion order, the `preference_pair` rows by job, and for the specification the claims made
   so far and the runs under way (whether each has recorded its pair yet).
   */
  datatype Queue = Queue(rows: seq<Job>, pairs: seq<nat>, claims: seq<nat>, active: map<nat, bool>)

  predicate Unfinished(j: Job) {
    j.state.AwaitingModel? || j.state.Queued? || j.state.Running?
  }

  predicate UnfinishedOf(j: Job, asset: string, jobType: string) {
    Unfinished(j) && j.asset == asset && j.jobType == jobType
  }

  function Promoted(j: Job): Job {
    if j.state.AwaitingModel? then j.(state := Queued) else j
  }

  /** `enqueueJob`: at most one unfinished row per asset and type; a parked one is promoted once configured. */
  function Enqueued(rows: seq<Job>, asset: string, jobType: string, configured: bool, now: int): seq<Job> {
    if !exists j :: j in rows && UnfinishedOf(j, asset, jobType) then
      rows + [Job(asset, jobType, if configured then Queued else AwaitingModel, None, now)]
    else if configured then
      seq(|rows|, i requires 0 <= i < |rows| =>
        if rows[i].asset == asset && rows[i].jobType == jobType then Promoted(rows[i]) else rows[i])
    else rows
  }

  predicate UnfinishedPair(j: Job, asset: string, fingerprint: Text) {
    UnfinishedOf(j, asset, PREFERENCE) && j.fingerprint == Some(fingerprint)
  }

  /** The first row the duplicate check of a preference job finds. */
  function FirstPair(rows: seq<Job>, asset: string, fingerprint: Text): (first: Option<nat>)
    ensures first.None? ==> forall j :: j in rows ==> !UnfinishedPair(j, asset, fingerprint)
    ensures first.Some? ==> first.value < |rows| && UnfinishedPair(rows[first.value], asset, fingerprint)
  {
    if rows == [] then None else
      var front, last := rows[..|rows| - 1], rows[|rows| - 1];
      assert rows == front + [last];
      match FirstPair(front, asset, fingerprint)
      case Some(i) => Some(i)
      case None => if UnfinishedPair(last, asset, fingerprint) then Some(|rows| - 1) else None
  }

  /** `enqueuePreferenceJob`: the same, per asset and pair. */
  function EnqueuedPair(rows: seq<Job>, asset: string, fingerprint: Text, configured: bool, now: int): seq<Job> {
    match FirstPair(rows, asset, fingerprint)
    case None => rows + [Job(asset, PREFERENCE, if configured then Queued else AwaitingModel, Some(fingerprint), now)]
    case Some(i) => if configured then rows[i := Promoted(rows[i])] else rows
  }

  /** The row the claiming statement may take: queued, and none older is. */
  predicate Claimable(rows: seq<Job>, asset: string, jobType: string, i: nat) {
    && i < |rows| && QueuedOf(rows[i], asset, jobType)
    && forall k :: 0 <= k < |rows| && QueuedOf(rows[k], asset, jobType) ==> rows[i].createdAt <= rows[k].createdAt
  }

  predicate QueuedOf(j: Job, asset: string, jobType: string) {
    j.state.Queued? && j.asset == asset && j.jobType == jobType
  }

  function Claim(q: Queue, i: nat): Queue
    requires i < |q.rows|
  {
    q.(rows := q.rows[i := q.rows[i].(state := Running)], claims := q.claims + [i], active := q.active[i := false])
  }

  /** `persistPreferencePair`: ON CONFLICT (job_id) DO NOTHING. */
  function Persist(q: Queue, i: nat): Queue {
    q.(pairs := if i in q.pairs then q.pairs else q.pairs + [i], active := q.active[i := true])
  }

  function Finish(q: Queue, i: nat, ok: bool): Queue
    requires i < |q.rows|
  {
    q.(rows := q.rows[i := q.rows[i].(state := if ok then Done else Failed)], active := q.active - {i})
  }

  // ------------------------------------------------------------- what every step keeps

  /** What must differ between two unfinished rows. */
  predicate SameWork(a: Job, b: Job) {
    a.asset == b.asset && a.jobType == b.jobType && (a.jobType == PREFERENCE ==> a.fingerprint == b.fingerprint)
  }

  ghost predicate OneUnfinished(rows: seq<Job>) {
    forall i, k :: 0 <= i < k < |rows| && Unfinished(rows[i]) && Unfinished(rows[k]) ==> !SameWork(rows[i], rows[k])
  }

  ghost predicate NoRepeat(s: seq<nat>) {
    forall i, k :: 0 <= i < k < |s| ==> s[i] != s[k]
  }

  predicate Started(j: Job) {
    j.state.Running? || j.state.Done? || j.state.Failed?
  }

  /** The claims are exactly the started rows, each once; the active runs are exactly the running rows. */
  ghost predicate ClaimsAgree(q: Queue) {
    && NoRepeat(q.claims)
    && (forall i: nat :: i in q.claims <==> i < |q.rows| && Started(q.rows[i]))
    && (forall i: nat :: i in q.active <==> i < |q.rows| && q.rows[i].state.Running?)
  }

  /** One pair at most per job, recorded by a run of that job. */
  ghost predicate PairsAgree(q: Queue) {
    && NoRepeat(q.pairs)
    && (forall i :: i in q.pairs ==> i in q.claims)
    && (forall i :: i in q.active && i in q.pairs ==> q.active[i])
  }

  ghost predicate Inv(q: Queue) {
    OneUnfinished(q.rows) && ClaimsAgree(q) && PairsAgree(q)
  }

  /** Rows changed only between parked and queued, or added unfinished, leave claims and pairs alone. */
  lemma ParkedRowsDoNotMatter(q: Queue, rows: seq<Job>)
    requires ClaimsAgree(q) && PairsAgree(q) && |rows| >= |q.rows|
    requires forall i :: 0 <= i < |q.rows| ==>
      rows[i] == q.rows[i] || (q.rows[i].state.AwaitingModel? && rows[i] == q.rows[i].(state := Queued))
    requires forall i :: |q.rows| <= i < |rows| ==> !Started(rows[i])
    ensures ClaimsAgree(q.(rows := rows)) && PairsAgree(q.(rows := rows))
  {
  }

  lemma EnqueueKeeps(q: Queue, asset: string, jobType: string, configured: bool, now: int)
    requires Inv(q)
    ensures Inv(q.(rows := Enqueued(q.rows, asset, jobType, configured, now)))
  {
    hide ClaimsAgree, PairsAgree;
    var rows := Enqueued(q.rows, asset, jobType, configured, now);
    ParkedRowsDoNotMatter(q, rows);
    if !exists j :: j in q.rows && UnfinishedOf(j, asset, jobType) {
      forall i | 0 <= i < |q.rows| && Unfinished(q.rows[i])
        ensures !SameWork(q.rows[i], rows[|q.rows|])
      {
        assert q.rows[i] in q.rows;
      }
    }
  }

  lemma EnqueuePairKeeps(q: Queue, asset: string, fingerprint: Text, configured: bool, now: int)
    requires Inv(q)
    ensures Inv(q.(rows := EnqueuedPair(q.rows, asset, fingerprint, configured, now)))
  {
    hide ClaimsAgree, PairsAgree;
    var rows := EnqueuedPair(q.rows, asset, fingerprint, configured, now);
    ParkedRowsDoNotMatter(q, rows);
    if FirstPair(q.rows, asset, fingerprint).None? {
      forall i | 0 <= i < |q.rows| && Unfinished(q.rows[i])
        ensures !SameWork(q.rows[i], rows[|q.rows|])
      {
        assert q.rows[i] in q.rows;
      }
    }
  }

  /** The claimed row was never claimed before. */
  lemma ClaimKeeps(q: Queue, asset: string, jobType: string, i: nat)
    requires Inv(q) && Claimable(q.rows, asset, jobType, i)
    ensures i !in q.claims && Inv(Claim(q, i))
  {
    var t := Claim(q, i);
    assert i !in q.claims && i !in q.pairs;
    assert forall k: nat :: k in t.claims <==> k in q.claims || k == i;
  }

  /** A run records its pair without meeting the conflict clause. */
  lemma PersistKeeps(q: Queue, i: nat)
    requires Inv(q) && i in q.active && !q.active[i]
    ensures i !in q.pairs && Inv(Persist(q, i))
  {
    var t := Persist(q, i);
    assert forall k: nat :: k in t.pairs <==> k in q.pairs || k == i;
  }

  lemma FinishKeeps(q: Queue, i: nat, ok: bool)
    requires Inv(q) && i in q.active
    ensures i < |q.rows| && Inv(Finish(q, i, ok))
  {
  }

  // ------------------------------------------------------------- one row per pair

  /** After a pair is enqueued, some unfinished row of the asset is about it. */
  lemma EnqueuedIsFound(rows: seq<Job>, asset: string, fingerprint: Text, configured: bool, now: int)
    ensures exists j :: j in EnqueuedPair(rows, asset, fingerprint, configured, now)
                        && UnfinishedPair(j, asset, fingerprint)
  {
    var after := EnqueuedPair(rows, asset, fingerprint, configured, now);
    match FirstPair(rows, asset, fingerprint)
    case None => assert after[|rows|] in after && UnfinishedPair(after[|rows|], asset, fingerprint);
    case Some(i) => assert after[i] in after && UnfinishedPair(after[i], asset, fingerprint);
  }

  /** A pair whose fingerprint differs leaves the search for this one as it was. */
  lemma OtherPairStaysAbsent(
    rows: seq<Job>, asset: string, fingerprint: Text, other: Text, configured: bool, now: int)
    requires fingerprint != other && FirstPair(rows, asset, other).None?
    ensures FirstPair(EnqueuedPair(rows, asset, fingerprint, configured, now), asset, other).None?
  {
    var after := EnqueuedPair(rows, asset, fingerprint, configured, now);
    forall j | j in after ensures !UnfinishedPair(j, asset, other) {
      var k :| 0 <= k < |after| && after[k] == j;
      assert k < |rows| ==> rows[k] in rows && j.fingerprint == rows[k].fingerprint;
    }
  }

  /** Once its labeler is configured, enqueueing leaves no row of the type parked, and work to do. */
  lemma ConfiguredIsQueued(rows: seq<Job>, asset: string, jobType: string, now: int)
    ensures
      var after := Enqueued(rows, asset, jobType, true, now);
      && (forall j :: j in after && j.asset == asset && j.jobType == jobType ==> !j.state.AwaitingModel?)
      && (exists j :: j in after && UnfinishedOf(j, asset, jobType))
      && forall i :: 0 <= i < |rows| && (rows[i].asset != asset || rows[i].jobType != jobType) ==> after[i] == rows[i]
  {
    var after := Enqueued(rows, asset, jobType, true, now);
    if j :| j in rows && UnfinishedOf(j, asset, jobType) {
      var i :| 0 <= i < |rows| && rows[i] == j;
      assert after[i] in after && UnfinishedOf(after[i], asset, jobType);
    } else {
      assert after[|rows|] in after;
      forall j | j in after && j.asset == asset && j.jobType == jobType ensures !j.state.AwaitingModel? {
        var i :| 0 <= i < |after| && after[i] == j;
        if i < |rows| { assert rows[i] in rows && !UnfinishedOf(rows[i], asset, jobType); }
      }
    }
  }

  /** The same for a pair: one unfinished row is about it, and it is not parked. */
  lemma ConfiguredPairIsQueued(rows: seq<Job>, asset: string, fingerprint: Text, now: int)
    requires OneUnfinished(rows)
    ensures
      var after := EnqueuedPair(rows, asset, fingerprint, true, now);
      && (exists j :: j in after && UnfinishedPair(j, asset, fingerprint))
      && forall j :: j in after && UnfinishedPair(j, asset, fingerprint) ==> !j.state.AwaitingModel?
  {
    var after := EnqueuedPair(rows, asset, fingerprint, true, now);
    EnqueuedIsFound(rows, asset, fingerprint, true, now);
    forall j | j in after && UnfinishedPair(j, asset, fingerprint) ensures !j.state.AwaitingModel? {
      var k :| 0 <= k < |after| && after[k] == j;
      match FirstPair(rows, asset, fingerprint)
      case None =>
      case Some(i) =>
        if k != i { assert SameWork(rows[i], rows[k]) && SameWork(rows[k], rows[i]); }
    }
  }

  /** Without a labeler, enqueueing at most parks one row, and changes none. */
  lemma UnconfiguredIsParked(rows: seq<Job>, asset: string, jobType: string, now: int)
    ensures
      var after := Enqueued(rows, asset, jobType, false, now);
      after == rows || after == rows + [Job(asset, jobType, AwaitingModel, None, now)]
  {
  }

  /**
   Two enqueues of new pairs for one asset, whether a jury is configured or not, leave one row exactly when they
   are the same prompt and candidates, in either order; else they leave two.
   */
  lemma SamePairOneRow(rows: seq<Job>, asset: string, sha: Text -> Text, p: Pair, q: Pair,
                       configured: bool, now: int, later: bool, moment: int)
    requires Injective(sha)
    requires FirstPair(rows, asset, Fingerprint(sha, p)).None? && FirstPair(rows, asset, Fingerprint(sha, q)).None?
    ensures
      var one := EnqueuedPair(rows, asset, Fingerprint(sha, p), configured, now);
      var two := EnqueuedPair(one, asset, Fingerprint(sha, q), later, moment);
      |two| == |rows| + if SamePair(p, q) then 1 else 2
  {
    hide Fingerprint, Injective, UnfinishedPair;
    FingerprintIff(sha, p, q);
    EnqueuedIsFound(rows, asset, Fingerprint(sha, p), configured, now);
    if !SamePair(p, q) {
      OtherPairStaysAbsent(rows, asset, Fingerprint(sha, p), Fingerprint(sha, q), configured, now);
    }
  }

  // ------------------------------------------------------------- every interleaving

  datatype Step =
    | Enqueue(asset: string, jobType: string, configured: bool, now: int)
    | EnqueuePair(asset: string, fingerprint: Text, configured: bool, now: int)
    | ClaimStep(asset: string, jobType: string, row: nat)
    | PersistStep(row: nat)
    | FinishStep(row: nat, ok: bool)

  /** A run persists at most once, and only a run under way persists or finishes. */
  ghost predicate Possible(q: Queue, s: Step) {
    match s
    case ClaimStep(asset, jobType, row) => Claimable(q.rows, asset, jobType, row)
    case PersistStep(row) => row in q.active && !q.active[row] && row < |q.rows| && q.rows[row].jobType == PREFERENCE
    case FinishStep(row, _) => row in q.active && row < |q.rows|
    case _ => true
  }

  ghost function Next(q: Queue, s: Step): Queue
    requires Possible(q, s)
  {
    match s
    case Enqueue(asset, jobType, configured, now) => q.(rows := Enqueued(q.rows, asset, jobType, configured, now))
    case EnqueuePair(asset, fingerprint, configured, now) =>
      q.(rows := EnqueuedPair(q.rows, asset, fingerprint, configured, now))
    case ClaimStep(_, _, row) => Claim(q, row)
    case PersistStep(row) => Persist(q, row)
    case FinishStep(row, ok) => Finish(q, row, ok)
  }

  /** The queue after a run of steps, if every step was possible where it was taken. */
  ghost function Run(steps: seq<Step>): Option<Queue> {
    if steps == [] then Some(Queue([], [], [], map[])) else
      match Run(steps[..|steps| - 1])
      case None => None
      case Some(q) => if Possible(q, steps[|steps| - 1]) then Some(Next(q, steps[|steps| - 1])) else None
  }

  lemma NextKeeps(q: Queue, s: Step)
    requires Inv(q) && Possible(q, s)
    ensures Inv(Next(q, s))
  {
    hide Inv, Claim, Persist, Finish, Enqueued, EnqueuedPair, Claimable;
    match s
    case Enqueue(asset, jobType, configured, now) => EnqueueKeeps(q, asset, jobType, configured, now);
    case EnqueuePair(asset, fingerprint, configured, now) => EnqueuePairKeeps(q, asset, fingerprint, configured, now);
    case ClaimStep(asset, jobType, row) => ClaimKeeps(q, asset, jobType, row);
    case PersistStep(row) => PersistKeeps(q, row);
    case FinishStep(row, ok) => FinishKeeps(q, row, ok);
  }

  /** In every interleaving, each row is claimed at most once, unfinished work is not doubled, pairs are single. */
  lemma {:induction false} RunKeeps(steps: seq<Step>)
    ensures Run(steps).Some? ==> Inv(Run(steps).value)
  {
    hide Inv, Next, Possible;
    if steps == [] {
      NothingQueued();
    } else {
      var front := steps[..|steps| - 1];
      RunKeeps(front);
      if Run(front).Some? && Possible(Run(front).value, steps[|steps| - 1]) {
        NextKeeps(Run(front).value, steps[|steps| - 1]);
      }
    }
  }

  lemma NothingQueued()
    ensures Inv(Queue([], [], [], map[]))
  {
  }

  // ------------------------------------------------------------- the registry's statements on the table

  class LabelQueue {
    var rows: seq<Job>
    var pairs: seq<nat>
    ghost var claims: seq<nat>
    ghost var active: map<nat, bool>

    constructor ()
      ensures State() == Queue([], [], [], map[]) && Inv(State())
    {
      rows, pairs, claims, active := [], [], [], map[];
    }

    ghost function State(): Queue
      reads this
    {
      Queue(rows, pairs, claims, active)
    }

    method EnqueueJob(asset: string, jobType: string, configured: bool, now: int) returns (state: JobState)
      requires Inv(State())
      modifies this`rows
      ensures rows == Enqueued(old(rows), asset, jobType, configured, now) && Inv(State())
      ensures state == if configured then Queued else AwaitingModel
    {
      hide Inv;
      EnqueueKeeps(State(), asset, jobType, configured, now);
      state := if configured then Queued else AwaitingModel;
      if !exists j :: j in rows && UnfinishedOf(j, asset, jobType) {
        rows := rows + [Job(asset, jobType, state, None, now)];
      } else if state == Queued {
        var before := rows;
        for i := 0 to |rows|
          invariant |rows| == |before|
          invariant forall k :: 0 <= k < i ==>
            rows[k]
            == if before[k].asset == asset && before[k].jobType == jobType then Promoted(before[k]) else before[k]
          invariant forall k :: i <= k < |rows| ==> rows[k] == before[k]
        {
          if rows[i].asset == asset && rows[i].jobType == jobType && rows[i].state == AwaitingModel {
            rows := rows[i := rows[i].(state := Queued)];
          }
        }
      }
    }

    method EnqueuePreferenceJob(asset: string, fingerprint: Text, configured: bool, now: int)
      returns (state: JobState)
      requires Inv(State())
      modifies this`rows
      ensures rows == EnqueuedPair(old(rows), asset, fingerprint, configured, now) && Inv(State())
      ensures state == if configured then Queued else AwaitingModel
    {
      hide Inv;
      EnqueuePairKeeps(State(), asset, fingerprint, configured, now);
      state := if configured then Queued else AwaitingModel;
      var existing := FirstPair(rows, asset, fingerprint);
      if existing.None? {
        rows := rows + [Job(asset, PREFERENCE, state, Some(fingerprint), now)];
      } else if state == Queued {
        var i := existing.value;
        if rows[i].state == AwaitingModel { rows := rows[i := rows[i].(state := Queued)]; }
      }
    }

    /** The sub-select of the claim: the oldest queued row of the type for the asset. */
    method OldestQueued(asset: string, jobType: string) returns (oldest: Option<nat>)
      ensures oldest.Some? ==> Claimable(rows, asset, jobType, oldest.value)
      ensures oldest.None? ==> forall i :: 0 <= i < |rows| ==> !QueuedOf(rows[i], asset, jobType)
    {
      oldest := None;
      for i := 0 to |rows|
        invariant oldest.Some? ==>
          && oldest.value < i && QueuedOf(rows[oldest.value], asset, jobType)
          && forall k :: 0 <= k < i && QueuedOf(rows[k], asset, jobType) ==>
               rows[oldest.value].createdAt <= rows[k].createdAt
        invariant oldest.None? ==> forall k :: 0 <= k < i ==> !QueuedOf(rows[k], asset, jobType)
      {
        if QueuedOf(rows[i], asset, jobType) && (oldest.None? || rows[i].createdAt < rows[oldest.value].createdAt) {
          oldest := Some(i);
        }
      }
    }

    /** `runJob`, with what the labeler does: whether it records a pair, and whether it throws. */
    method RunJob(asset: string, jobType: string, records: bool, throws: bool) returns (claimed: Option<nat>)
      requires Inv(State()) && (records ==> jobType == PREFERENCE)
      modifies this
      ensures Inv(State())
      ensures claimed.None? ==>
        State() == old(State()) && forall i :: 0 <= i < |rows| ==> !QueuedOf(rows[i], asset, jobType)
      ensures claimed.Some? ==>
        && Claimable(old(rows), asset, jobType, claimed.value) && claimed.value !in old(claims)
        && rows == old(rows)[claimed.value := old(rows)[claimed.value].(state := if throws then Failed else Done)]
        && pairs == (if records then old(pairs) + [claimed.value] else old(pairs))
    {
      hide Inv, Claimable;
      claimed := OldestQueued(asset, jobType);
      if claimed.None? { return; }
      var i := claimed.value;
      ClaimKeeps(State(), asset, jobType, i);
      ClaimIsActive(State(), asset, jobType, i);
      rows := rows[i := rows[i].(state := Running)];
      claims, active := claims + [i], active[i := false];
      if records {
        PersistKeeps(State(), i);
        if i !in pairs { pairs := pairs + [i]; }
        active := active[i := true];
      }
      FinishKeeps(State(), i, !throws);
      rows := rows[i := rows[i].(state := if throws then Failed else Done)];
      active := active - {i};
    }
  }

  lemma ClaimIsActive(q: Queue, asset: string, jobType: string, i: nat)
    requires Claimable(q.rows, asset, jobType, i)
    ensures i < |q.rows|
  {
  }
}
