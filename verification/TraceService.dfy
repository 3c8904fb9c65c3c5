/** The Trace service simulator: one map of records, keyed by provider and source record or by bare data id. */
module TraceService {
  import opened JsText
  import opened TraceLedger

  const COLON: Unit := 0x3a
  const DATA_ID: Text := [0x64, 0x61, 0x74, 0x61, 0x5f, 0x69, 0x64]

  /**
   One provider. `dataIdOf` is the deterministic data id of a source record; `sources` are the source records
   in use, over which the shortened hash behind it is assumed not to collide.
   */
  datatype Env = Env(provider: Text, dataIdOf: Text -> Text, sources: set<Text>)

  ghost predicate EnvOk(env: Env) {
    && COLON !in env.provider && env.provider != DATA_ID
    && forall s, t :: s in env.sources && t in env.sources && env.dataIdOf(s) == env.dataIdOf(t) ==> s == t
  }

  lemma KeyWords()
    ensures IsWord([COLON], ":") && IsWord(DATA_ID, "data_id")
  {
  }

  /** `${provider}:${source_record_id}`. */
  function RecordKey(env: Env, source: Text): Text {
    env.provider + [COLON] + source
  }

  /** `data_id:${dataId}`, for updates that arrive before their registration. */
  function SyntheticKey(dataId: Text): Text {
    DATA_ID + [COLON] + dataId
  }

  lemma KeysDiffer(env: Env, source: Text, dataId: Text)
    requires EnvOk(env)
    ensures RecordKey(env, source) != SyntheticKey(dataId)
  {
    var a, b := RecordKey(env, source), SyntheticKey(dataId);
    var p, n, m := env.provider, |env.provider|, |DATA_ID|;
    if n < m {
      assert a[n] == COLON && b[n] == DATA_ID[n] != COLON;
    } else if n > m {
      assert p[m] in p;
      assert a[m] == p[m] != COLON && b[m] == COLON;
    } else {
      assert a[..n] == p && b[..n] == DATA_ID;
    }
  }

  lemma KeysInjective(env: Env)
    ensures forall s, t :: RecordKey(env, s) == RecordKey(env, t) ==> s == t
    ensures forall s, t :: SyntheticKey(s) == SyntheticKey(t) ==> s == t
  {
    forall s, t | RecordKey(env, s) == RecordKey(env, t)
      ensures s == t
    {
      var n := |env.provider| + 1;
      assert RecordKey(env, s)[n..] == s && RecordKey(env, t)[n..] == t;
    }
    forall s, t | SyntheticKey(s) == SyntheticKey(t)
      ensures s == t
    {
      var n := |DATA_ID| + 1;
      assert SyntheticKey(s)[n..] == s && SyntheticKey(t)[n..] == t;
    }
  }

  datatype StoredRecord = StoredRecord(dataId: Text, payloadHash: Text, updates: map<int, Text>)

  // ------------------------------------------------------------- the records a ledger stands for

  function History(l: Ledger, dataId: Text): map<int, Text> {
    map q: int | 1 <= q <= 100 && Slot(dataId, q) in l.events :: l.events[Slot(dataId, q)]
  }

  predicate Registered(env: Env, l: Ledger, dataId: Text) {
    exists s :: s in l.payloads && env.dataIdOf(s) == dataId
  }

  /** Data ids that have updates but no registration yet. */
  function Orphans(env: Env, l: Ledger): set<Text> {
    set e | e in l.events && !Registered(env, l, e.dataId) :: e.dataId
  }

  ghost predicate LedgerOk(env: Env, l: Ledger) {
    && l.payloads.Keys <= env.sources
    && forall e :: e in l.events ==> 1 <= e.seqNo <= 100
  }

  ghost predicate ShowsRegistered(env: Env, l: Ledger, r: map<Text, StoredRecord>) {
    forall s :: s in l.payloads ==>
      RecordKey(env, s) in r
      && r[RecordKey(env, s)] == StoredRecord(env.dataIdOf(s), l.payloads[s], History(l, env.dataIdOf(s)))
  }

  ghost predicate ShowsOrphans(env: Env, l: Ledger, r: map<Text, StoredRecord>) {
    forall d :: d in Orphans(env, l) ==>
      SyntheticKey(d) in r && r[SyntheticKey(d)] == StoredRecord(d, [], History(l, d))
  }

  ghost predicate ShowsNothingElse(env: Env, l: Ledger, r: map<Text, StoredRecord>) {
    forall k :: k in r ==>
      (exists s :: s in l.payloads && k == RecordKey(env, s))
      || (exists d :: d in Orphans(env, l) && k == SyntheticKey(d))
  }

  /** r is the record map of the ledger: one record for every registration, one for every orphan, no other. */
  ghost predicate Shows(env: Env, l: Ledger, r: map<Text, StoredRecord>) {
    ShowsRegistered(env, l, r) && ShowsOrphans(env, l, r) && ShowsNothingElse(env, l, r)
  }

  /** No two records ever share a data id. */
  lemma DataIdsAreUnique(env: Env, l: Ledger, r: map<Text, StoredRecord>, j: Text, k: Text)
    requires EnvOk(env) && LedgerOk(env, l) && Shows(env, l, r)
    requires j in r && k in r && r[j].dataId == r[k].dataId
    ensures j == k
  {
    hide RecordKey, SyntheticKey, History;
    forall s, d | s in l.payloads && d in Orphans(env, l)
      ensures env.dataIdOf(s) != d
    {
      var e :| e in l.events && !Registered(env, l, e.dataId) && e.dataId == d;
    }
  }

  lemma EventsInRange(l: Ledger, op: Op)
    requires forall e :: e in l.events ==> 1 <= e.seqNo <= 100
    ensures forall e :: e in Step(l, op).0.events ==> 1 <= e.seqNo <= 100
  {
  }

  // ------------------------------------------------------------- one item of each kind

  /** A new registration: the record an early update left behind is adopted under the record's own key. */
  function RegisteredAt(env: Env, r: map<Text, StoredRecord>, source: Text, payload: Text): map<Text, StoredRecord>
    requires RecordKey(env, source) !in r
  {
    var dataId := env.dataIdOf(source);
    var early := SyntheticKey(dataId);
    if early in r then r[RecordKey(env, source) := r[early].(payloadHash := payload)] - {early}
    else r[RecordKey(env, source) := StoredRecord(dataId, payload, map[])]
  }

  lemma HistoryOfUnknown(env: Env, l: Ledger, dataId: Text)
    requires dataId !in Orphans(env, l) && !Registered(env, l, dataId)
    ensures History(l, dataId) == map[]
  {
    forall e | e in l.events
      ensures e.dataId != dataId
    {
      assert e.dataId in Orphans(env, l) || Registered(env, l, e.dataId);
    }
  }

  /** The two keys an operation on a source record may meet. */
  lemma KeysPresent(env: Env, l: Ledger, r: map<Text, StoredRecord>, source: Text, dataId: Text)
    requires EnvOk(env) && Shows(env, l, r)
    ensures RecordKey(env, source) in r <==> source in l.payloads
    ensures SyntheticKey(dataId) in r <==> dataId in Orphans(env, l)
  {
    hide RecordKey, SyntheticKey, History, Orphans;
    KeysInjective(env);
    forall d { KeysDiffer(env, source, d); }
    forall s { KeysDiffer(env, s, dataId); }
  }

  lemma OrphansAfter(env: Env, l: Ledger, source: Text, payload: Text)
    ensures
      var l' := l.(payloads := l.payloads[source := payload]);
      Orphans(env, l') == Orphans(env, l) - {env.dataIdOf(source)}
  {
    var l' := l.(payloads := l.payloads[source := payload]);
    forall d
      ensures Registered(env, l', d) <==> Registered(env, l, d) || d == env.dataIdOf(source)
    {
      assert source in l'.payloads;
      if Registered(env, l, d) {
        var s :| s in l.payloads && env.dataIdOf(s) == d;
        assert s in l'.payloads;
      }
    }
  }

  lemma RegistrationShows(env: Env, l: Ledger, r: map<Text, StoredRecord>, source: Text, payload: Text)
    requires EnvOk(env) && LedgerOk(env, l) && Shows(env, l, r)
    requires source in env.sources && source !in l.payloads
    ensures RecordKey(env, source) !in r
    ensures Shows(env, l.(payloads := l.payloads[source := payload]), RegisteredAt(env, r, source, payload))
  {
    hide RecordKey, SyntheticKey, Orphans, Registered, ShowsRegistered, ShowsOrphans, ShowsNothingElse;
    var dataId, l' := env.dataIdOf(source), l.(payloads := l.payloads[source := payload]);
    KeysPresent(env, l, r, source, dataId);
    OrphansAfter(env, l, source, payload);
    if dataId !in Orphans(env, l) {
      SourceUnregistered(env, l, source);
      HistoryOfUnknown(env, l, dataId);
    }
    RegistrationShowsRegistered(env, l, r, source, payload);
    RegistrationShowsOrphans(env, l, r, source, payload);
    RegistrationShowsNothingElse(env, l, r, source, payload);
  }

  lemma SourceUnregistered(env: Env, l: Ledger, source: Text)
    requires EnvOk(env) && LedgerOk(env, l) && source in env.sources && source !in l.payloads
    ensures !Registered(env, l, env.dataIdOf(source))
  {
  }

  lemma RegistrationShowsRegistered(
    env: Env, l: Ledger, r: map<Text, StoredRecord>, source: Text, payload: Text)
    requires EnvOk(env) && RecordKey(env, source) !in r && source !in l.payloads && Shows(env, l, r)
    requires
      var d := env.dataIdOf(source);
      if SyntheticKey(d) in r then d in Orphans(env, l) else History(l, d) == map[]
    ensures
      ShowsRegistered(env, l.(payloads := l.payloads[source := payload]), RegisteredAt(env, r, source, payload))
  {
    hide RecordKey, SyntheticKey, Orphans, RegisteredAt, History;
    var l', r' := l.(payloads := l.payloads[source := payload]), RegisteredAt(env, r, source, payload);
    HistoryIgnoresPayloads(l, source, payload);
    forall s | s in l'.payloads
      ensures RecordKey(env, s) in r'
      ensures r'[RecordKey(env, s)] == StoredRecord(env.dataIdOf(s), l'.payloads[s], History(l', env.dataIdOf(s)))
    {
      if s == source {
        NewRecord(env, l, r, source, payload);
      } else {
        OtherRecord(env, r, source, payload, s);
      }
    }
  }

  lemma HistoryIgnoresPayloads(l: Ledger, source: Text, payload: Text)
    ensures forall d :: History(l.(payloads := l.payloads[source := payload]), d) == History(l, d)
  {
  }

  lemma NewRecord(env: Env, l: Ledger, r: map<Text, StoredRecord>, source: Text, payload: Text)
    requires EnvOk(env) && RecordKey(env, source) !in r && ShowsOrphans(env, l, r)
    requires
      var d := env.dataIdOf(source);
      if SyntheticKey(d) in r then d in Orphans(env, l) else History(l, d) == map[]
    ensures
      var d := env.dataIdOf(source);
      var r' := RegisteredAt(env, r, source, payload);
      RecordKey(env, source) in r' && r'[RecordKey(env, source)] == StoredRecord(d, payload, History(l, d))
  {
    hide RecordKey, SyntheticKey, Orphans, History;
    KeysDiffer(env, source, env.dataIdOf(source));
  }

  lemma OtherRecord(env: Env, r: map<Text, StoredRecord>, source: Text, payload: Text, s: Text)
    requires EnvOk(env) && RecordKey(env, source) !in r && RecordKey(env, s) in r
    ensures
      var r' := RegisteredAt(env, r, source, payload);
      RecordKey(env, s) in r' && r'[RecordKey(env, s)] == r[RecordKey(env, s)]
  {
    hide RecordKey, SyntheticKey;
    KeysDiffer(env, s, env.dataIdOf(source));
  }

  lemma RegistrationShowsOrphans(env: Env, l: Ledger, r: map<Text, StoredRecord>, source: Text, payload: Text)
    requires EnvOk(env) && RecordKey(env, source) !in r && ShowsOrphans(env, l, r)
    ensures
      ShowsOrphans(env, l.(payloads := l.payloads[source := payload]), RegisteredAt(env, r, source, payload))
  {
    hide RecordKey, SyntheticKey, Orphans;
    OrphansAfter(env, l, source, payload);
    KeysInjective(env);
    forall d { KeysDiffer(env, source, d); }
  }

  lemma RegistrationShowsNothingElse(env: Env, l: Ledger, r: map<Text, StoredRecord>, source: Text, payload: Text)
    requires EnvOk(env) && RecordKey(env, source) !in r && ShowsNothingElse(env, l, r)
    requires SyntheticKey(env.dataIdOf(source)) !in r ==> env.dataIdOf(source) !in Orphans(env, l)
    ensures
      ShowsNothingElse(env, l.(payloads := l.payloads[source := payload]), RegisteredAt(env, r, source, payload))
  {
    hide RecordKey, SyntheticKey, Orphans;
    var l', r' := l.(payloads := l.payloads[source := payload]), RegisteredAt(env, r, source, payload);
    OrphansAfter(env, l, source, payload);
    forall k | k in r'
      ensures (exists s :: s in l'.payloads && k == RecordKey(env, s))
              || (exists d :: d in Orphans(env, l') && k == SyntheticKey(d))
    {
      if k == RecordKey(env, source) {
        assert source in l'.payloads;
      } else if s :| s in l.payloads && k == RecordKey(env, s) {
        assert s in l'.payloads;
      } else {
        var d :| d in Orphans(env, l) && k == SyntheticKey(d);
        assert d in Orphans(env, l');
      }
    }
  }

  /** Where the record of a data id is found: the lookup by data id, then by synthetic key. */
  ghost predicate FoundAt(r: map<Text, StoredRecord>, dataId: Text, key: Text) {
    if exists k :: k in r && r[k].dataId == dataId then key in r && r[key].dataId == dataId
    else key == SyntheticKey(dataId)
  }

  /** An accepted update: entered in the record found, or in a new one under the synthetic key. */
  function UpdatedAt(r: map<Text, StoredRecord>, key: Text, slot: Slot, event: Text): map<Text, StoredRecord> {
    var record := if key in r then r[key] else StoredRecord(slot.dataId, [], map[]);
    r[key := record.(updates := record.updates[slot.seqNo := event])]
  }

  /** Finding a record by data id finds its whole history, and nothing is found exactly where nothing arrived. */
  lemma FoundHistory(env: Env, l: Ledger, r: map<Text, StoredRecord>, dataId: Text, key: Text)
    requires EnvOk(env) && LedgerOk(env, l) && Shows(env, l, r) && FoundAt(r, dataId, key)
    ensures key in r ==> r[key].dataId == dataId && r[key].updates == History(l, dataId)
    ensures key !in r ==> key == SyntheticKey(dataId) && !Registered(env, l, dataId)
    ensures key !in r ==> dataId !in Orphans(env, l) && History(l, dataId) == map[]
    ensures key == SyntheticKey(dataId)
            || exists s :: s in l.payloads && env.dataIdOf(s) == dataId && key == RecordKey(env, s)
    ensures Registered(env, l, dataId) ==> key != SyntheticKey(dataId)
  {
    hide RecordKey, SyntheticKey, History, Orphans;
    KeysInjective(env);
    KeysPresent(env, l, r, [], dataId);
    if k :| k in r && r[k].dataId == dataId {
      assert key in r && r[key].dataId == dataId;
    } else {
      forall s | s in l.payloads
        ensures env.dataIdOf(s) != dataId
      {
        assert r[RecordKey(env, s)].dataId == env.dataIdOf(s);
      }
      HistoryOfUnknown(env, l, dataId);
    }
    if Registered(env, l, dataId) {
      var s :| s in l.payloads && env.dataIdOf(s) == dataId;
      KeysDiffer(env, s, dataId);
      assert RecordKey(env, s) in r && r[RecordKey(env, s)].dataId == dataId;
      OrphansAreUnregistered(env, l, dataId);
    }
  }

  lemma OrphansAreUnregistered(env: Env, l: Ledger, dataId: Text)
    ensures dataId in Orphans(env, l) ==> !Registered(env, l, dataId)
  {
  }

  lemma OrphansAfterUpdate(env: Env, l: Ledger, slot: Slot, event: Text)
    ensures
      var l' := l.(events := l.events[slot := event]);
      Orphans(env, l') == if Registered(env, l, slot.dataId) then Orphans(env, l) else Orphans(env, l) + {slot.dataId}
  {
    var l' := l.(events := l.events[slot := event]);
    assert forall d :: Registered(env, l', d) <==> Registered(env, l, d);
    assert slot in l'.events;
    assert forall e :: e in l.events ==> e in l'.events;
  }

  lemma HistoryAfterUpdate(l: Ledger, slot: Slot, event: Text, dataId: Text)
    requires 1 <= slot.seqNo <= 100
    ensures
      History(l.(events := l.events[slot := event]), dataId)
      == if dataId == slot.dataId then History(l, dataId)[slot.seqNo := event] else History(l, dataId)
  {
  }

  lemma UpdateShows(env: Env, l: Ledger, r: map<Text, StoredRecord>, key: Text, slot: Slot, event: Text)
    requires EnvOk(env) && LedgerOk(env, l) && Shows(env, l, r) && FoundAt(r, slot.dataId, key)
    requires 1 <= slot.seqNo <= 100
    ensures Shows(env, l.(events := l.events[slot := event]), UpdatedAt(r, key, slot, event))
  {
    hide FoundAt, Shows, Orphans, Registered, UpdatedAt;
    FoundHistory(env, l, r, slot.dataId, key);
    UpdateShowsRegistered(env, l, r, key, slot, event);
    UpdateShowsOrphans(env, l, r, key, slot, event);
    UpdateShowsNothingElse(env, l, r, key, slot, event);
    assert Shows(env, l.(events := l.events[slot := event]), UpdatedAt(r, key, slot, event)) by {
      ShowsAll(env, l.(events := l.events[slot := event]), UpdatedAt(r, key, slot, event));
    }
  }

  lemma ShowsAll(env: Env, l: Ledger, r: map<Text, StoredRecord>)
    requires ShowsRegistered(env, l, r) && ShowsOrphans(env, l, r) && ShowsNothingElse(env, l, r)
    ensures Shows(env, l, r)
  {
  }

  lemma UpdateShowsRegistered(env: Env, l: Ledger, r: map<Text, StoredRecord>, key: Text, slot: Slot, event: Text)
    requires EnvOk(env) && LedgerOk(env, l) && Shows(env, l, r) && FoundAt(r, slot.dataId, key)
    requires 1 <= slot.seqNo <= 100
    ensures ShowsRegistered(env, l.(events := l.events[slot := event]), UpdatedAt(r, key, slot, event))
  {
    hide RecordKey, SyntheticKey, History, Orphans, FoundAt;
    var l' := l.(events := l.events[slot := event]);
    FoundHistory(env, l, r, slot.dataId, key);
    KeysInjective(env);
    forall s | s in l'.payloads
      ensures RecordKey(env, s) in UpdatedAt(r, key, slot, event)
      ensures UpdatedAt(r, key, slot, event)[RecordKey(env, s)]
              == StoredRecord(env.dataIdOf(s), l'.payloads[s], History(l', env.dataIdOf(s)))
    {
      HistoryAfterUpdate(l, slot, event, env.dataIdOf(s));
      KeysDiffer(env, s, slot.dataId);
      assert r[RecordKey(env, s)].dataId == env.dataIdOf(s);
      if env.dataIdOf(s) == slot.dataId { assert Registered(env, l, slot.dataId); }
    }
  }

  lemma UpdateShowsOrphans(env: Env, l: Ledger, r: map<Text, StoredRecord>, key: Text, slot: Slot, event: Text)
    requires EnvOk(env) && LedgerOk(env, l) && Shows(env, l, r) && FoundAt(r, slot.dataId, key)
    requires 1 <= slot.seqNo <= 100
    ensures ShowsOrphans(env, l.(events := l.events[slot := event]), UpdatedAt(r, key, slot, event))
  {
    hide RecordKey, SyntheticKey, History, Orphans, FoundAt;
    var l' := l.(events := l.events[slot := event]);
    FoundHistory(env, l, r, slot.dataId, key);
    OrphansAfterUpdate(env, l, slot, event);
    KeysInjective(env);
    forall d | d in Orphans(env, l')
      ensures SyntheticKey(d) in UpdatedAt(r, key, slot, event)
      ensures UpdatedAt(r, key, slot, event)[SyntheticKey(d)] == StoredRecord(d, [], History(l', d))
    {
      HistoryAfterUpdate(l, slot, event, d);
      OrphansAreUnregistered(env, l', d);
      forall s { KeysDiffer(env, s, d); }
    }
  }

  lemma UpdateShowsNothingElse(env: Env, l: Ledger, r: map<Text, StoredRecord>, key: Text, slot: Slot, event: Text)
    requires EnvOk(env) && LedgerOk(env, l) && Shows(env, l, r) && FoundAt(r, slot.dataId, key)
    ensures ShowsNothingElse(env, l.(events := l.events[slot := event]), UpdatedAt(r, key, slot, event))
  {
    hide RecordKey, SyntheticKey, History, Orphans, FoundAt;
    var l' := l.(events := l.events[slot := event]);
    FoundHistory(env, l, r, slot.dataId, key);
    OrphansAfterUpdate(env, l, slot, event);
    forall k | k in UpdatedAt(r, key, slot, event)
      ensures (exists s :: s in l'.payloads && k == RecordKey(env, s))
              || (exists d :: d in Orphans(env, l') && k == SyntheticKey(d))
    {
      if s :| s in l.payloads && k == RecordKey(env, s) {
        assert s in l'.payloads;
      } else if k in r {
        var d :| d in Orphans(env, l) && k == SyntheticKey(d);
        assert d in Orphans(env, l');
      } else {
        assert slot.dataId in Orphans(env, l');
      }
    }
  }

  lemma NothingShows(env: Env)
    ensures Shows(env, EMPTY, map[])
  {
  }

  // ------------------------------------------------------------- arrival order, on the records themselves

  lemma SameLedgerSameRecords(env: Env, l: Ledger, r: map<Text, StoredRecord>, q: map<Text, StoredRecord>)
    requires Shows(env, l, r) && Shows(env, l, q)
    ensures r == q
  {
    hide RecordKey, SyntheticKey, History, Orphans;
    forall k
      ensures k in r <==> k in q
      ensures k in r ==> r[k] == q[k]
    {
    }
  }

  /** Different ledgers show different records. */
  lemma SameRecordsSameLedger(env: Env, l: Ledger, m: Ledger, r: map<Text, StoredRecord>)
    requires EnvOk(env) && LedgerOk(env, l) && LedgerOk(env, m) && Shows(env, l, r) && Shows(env, m, r)
    ensures l == m
  {
    hide RecordKey, SyntheticKey, History, Orphans, LedgerOk;
    forall s
      ensures s in l.payloads <==> s in m.payloads
      ensures s in l.payloads ==> l.payloads[s] == m.payloads[s]
    {
      KeysPresent(env, l, r, s, []);
      KeysPresent(env, m, r, s, []);
    }
    assert l.payloads == m.payloads;
    forall e | e in l.events || e in m.events
      ensures e in l.events && e in m.events && l.events[e] == m.events[e]
    {
      SameHistory(env, l, m, r, e.dataId);
      InRange(env, l, e);
      InRange(env, m, e);
      HistoryHas(l, e);
      HistoryHas(m, e);
    }
    assert l.events == m.events;
  }

  lemma InRange(env: Env, l: Ledger, e: Slot)
    requires LedgerOk(env, l)
    ensures e in l.events ==> 1 <= e.seqNo <= 100
  {
  }

  lemma SameHistory(env: Env, l: Ledger, m: Ledger, r: map<Text, StoredRecord>, dataId: Text)
    requires EnvOk(env) && Shows(env, l, r) && Shows(env, m, r) && l.payloads == m.payloads
    ensures History(l, dataId) == History(m, dataId)
  {
    hide RecordKey, SyntheticKey, History, Orphans;
    if s :| s in l.payloads && env.dataIdOf(s) == dataId {
      assert r[RecordKey(env, s)].updates == History(l, dataId);
    } else {
      KeysPresent(env, l, r, [], dataId);
      KeysPresent(env, m, r, [], dataId);
      if dataId !in Orphans(env, l) {
        HistoryOfUnknown(env, l, dataId);
        HistoryOfUnknown(env, m, dataId);
      }
    }
  }

  /** The messages concern source records in use. */
  ghost predicate InUse(env: Env, ops: seq<Op>) {
    forall op :: op in ops && op.Register? ==> op.source in env.sources
  }

  /** These records are what the messages, arriving in this order, leave behind. */
  ghost predicate EndsIn(env: Env, ops: seq<Op>, r: map<Text, StoredRecord>) {
    Shows(env, Run(EMPTY, ops), r)
  }

  lemma {:induction false} RunIsOk(env: Env, ops: seq<Op>)
    requires InUse(env, ops)
    ensures LedgerOk(env, Run(EMPTY, ops))
  {
    if ops != [] {
      var front := ops[..|ops| - 1];
      assert ops[|ops| - 1] in ops && forall op :: op in front ==> op in ops;
      RunIsOk(env, front);
    }
  }

  lemma {:induction false} Shown(env: Env, ops: seq<Op>) returns (r: map<Text, StoredRecord>)
    requires EnvOk(env) && InUse(env, ops)
    ensures EndsIn(env, ops, r)
  {
    hide Shows, RegisteredAt, UpdatedAt, FoundAt, LedgerOk, EnvOk;
    if ops == [] {
      NothingShows(env);
      return map[];
    }
    var front, last := ops[..|ops| - 1], ops[|ops| - 1];
    assert last in ops && forall op :: op in front ==> op in ops;
    r := Shown(env, front);
    RunIsOk(env, front);
    var l := Run(EMPTY, front);
    match last
    case Register(source, payload) =>
      if source !in l.payloads {
        RegistrationShows(env, l, r, source, payload);
        r := RegisteredAt(env, r, source, payload);
      }
    case Update(slot, event) =>
      if 1 <= slot.seqNo <= 100 && slot !in l.events {
        var key := Find(r, slot.dataId);
        UpdateShows(env, l, r, key, slot, event);
        r := UpdatedAt(r, key, slot, event);
      }
  }

  lemma Find(r: map<Text, StoredRecord>, dataId: Text) returns (key: Text)
    ensures FoundAt(r, dataId, key)
  {
    if k :| k in r && r[k].dataId == dataId { key := k; } else { key := SyntheticKey(dataId); }
  }

  /**
   Every arrival order of the same messages, repeats included, ends in the same records exactly when no source
   record and no sequence number in range is given two contents.
   */
  lemma RecordsIgnoreArrivalIff(env: Env, ops: seq<Op>)
    requires EnvOk(env) && InUse(env, ops)
    ensures (forall other, r, q ::
               SameMessages(ops, other) && EndsIn(env, ops, r) && EndsIn(env, other, q) ==> r == q)
       <==> Consistent(ops)
  {
    hide Shows, Run, Consistent, InUse, LedgerOk, EnvOk;
    if Consistent(ops) {
      forall other, r, q | SameMessages(ops, other) && EndsIn(env, ops, r) && EndsIn(env, other, q)
        ensures r == q
      {
        ConsistentArrivalsAgree(ops, other);
        SameLedgerSameRecords(env, Run(EMPTY, ops), r, q);
      }
    } else {
      ArrivalOrderIsIrrelevantIff(ops);
      var other :| SameMessages(ops, other) && Run(EMPTY, other) != Run(EMPTY, ops);
      assert InUse(env, other) by { StillInUse(env, ops, other); }
      var r := Shown(env, ops);
      var q := Shown(env, other);
      if r == q {
        RunIsOk(env, ops);
        RunIsOk(env, other);
        SameRecordsSameLedger(env, Run(EMPTY, ops), Run(EMPTY, other), r);
      }
    }
  }

  lemma StillInUse(env: Env, ops: seq<Op>, other: seq<Op>)
    requires InUse(env, ops) && SameMessages(ops, other)
    ensures InUse(env, other)
  {
  }

  function Statuses(l: Ledger, ops: seq<Op>): seq<Status> {
    if ops == [] then []
    else Statuses(l, ops[..|ops| - 1]) + [Step(Run(l, ops[..|ops| - 1]), ops[|ops| - 1]).1]
  }

  lemma NothingRun(l: Ledger, ops: seq<Op>)
    ensures Run(l, ops[..0]) == l && Statuses(l, ops[..0]) == []
  {
  }

  lemma OneMoreRun(l: Ledger, ops: seq<Op>, i: nat)
    requires i < |ops|
    ensures Run(l, ops[..i + 1]) == Step(Run(l, ops[..i]), ops[i]).0
    ensures Statuses(l, ops[..i + 1]) == Statuses(l, ops[..i]) + [Step(Run(l, ops[..i]), ops[i]).1]
  {
    assert ops[..i + 1][..i] == ops[..i];
  }

  class MockTrace {
    const env: Env
    var records: map<Text, StoredRecord>
    /** The two tables this map of records stands for. */
    ghost var ledger: Ledger

    ghost predicate Valid()
      reads this
    {
      EnvOk(env) && LedgerOk(env, ledger) && Shows(env, ledger, records)
    }

    constructor (env: Env)
      requires EnvOk(env)
      ensures Valid() && ledger == EMPTY && this.env == env
    {
      this.env := env;
      records := map[];
      ledger := EMPTY;
      NothingShows(env);
    }

    method RegisterItem(source: Text, payload: Text) returns (status: Status)
      requires Valid() && source in env.sources
      modifies this
      ensures Valid() && (ledger, status) == Step(old(ledger), Register(source, payload))
    {
      hide RecordKey, SyntheticKey, Shows, RegisteredAt;
      var key := RecordKey(env, source);
      ghost var dataId := env.dataIdOf(source);
      KeysPresent(env, ledger, records, source, dataId);
      if key !in records {
        RegistrationShows(env, ledger, records, source, payload);
        var early := SyntheticKey(env.dataIdOf(source));
        ghost var before := records;
        if early in records {
          var preRegistered := records[early];
          records := records[key := preRegistered.(payloadHash := payload)];
          records := records - {early};
        } else {
          records := records[key := StoredRecord(env.dataIdOf(source), payload, map[])];
        }
        AdoptionIs(env, before, source, payload);
        ledger := ledger.(payloads := ledger.payloads[source := payload]);
        status := Accepted;
      } else {
        RecordShown(env, ledger, records, source);
        status := if records[key].payloadHash == payload then Duplicate else Conflict;
      }
    }

    /** `/records:batch`. */
    method RecordsBatch(ops: seq<Op>) returns (code: nat, statuses: seq<Status>)
      requires Valid() && forall op :: op in ops ==> op.Register? && op.source in env.sources
      modifies this
      ensures Valid()
      ensures ledger == Run(old(ledger), ops) && statuses == Statuses(old(ledger), ops)
      ensures code == if Conflict in statuses then 409 else 202
    {
      hide Shows;
      statuses := [];
      var conflicts := 0;
      for i := 0 to |ops|
        invariant Valid()
        invariant ledger == Run(old(ledger), ops[..i]) && statuses == Statuses(old(ledger), ops[..i])
        invariant conflicts > 0 <==> Conflict in statuses
        invariant conflicts >= 0
      {
        assert ops[..i + 1][..i] == ops[..i];
        var status := RegisterItem(ops[i].source, ops[i].payload);
        if status == Conflict { conflicts := conflicts + 1; }
        statuses := statuses + [status];
      }
      assert ops[..|ops|] == ops;
      code := if conflicts > 0 then 409 else 202;
    }

    /** The index by data id that a batch of updates starts from. */
    ghost predicate Indexes(byDataId: map<Text, Text>)
      reads this
    {
      && (forall k :: k in records ==> records[k].dataId in byDataId && byDataId[records[k].dataId] == k)
      && (forall d :: d in byDataId ==> byDataId[d] in records && records[byDataId[d]].dataId == d)
    }

    method IndexByDataId() returns (byDataId: map<Text, Text>)
      requires Valid()
      ensures Indexes(byDataId)
    {
      hide Shows;
      forall j, k | j in records && k in records && records[j].dataId == records[k].dataId
        ensures j == k
      {
        DataIdsAreUnique(env, ledger, records, j, k);
      }
      byDataId := map k | k in records :: records[k].dataId := k;
    }

    method UpdateItem(slot: Slot, event: Text, byDataId: map<Text, Text>)
      returns (status: Status, index: map<Text, Text>)
      requires Valid() && Indexes(byDataId) && 1 <= slot.seqNo <= 100
      modifies this
      ensures Valid() && (ledger, status) == Step(old(ledger), Update(slot, event))
      ensures Indexes(index)
    {
      hide RecordKey, SyntheticKey, Shows, History, Orphans, Registered;
      index := byDataId;
      var key := if slot.dataId in index then index[slot.dataId] else SyntheticKey(slot.dataId);
      assert FoundAt(records, slot.dataId, key);
      FoundHistory(env, ledger, records, slot.dataId, key);
      var record := if key in records then records[key] else StoredRecord(slot.dataId, [], map[]);
      index := index[slot.dataId := key];
      HistoryHas(ledger, slot);
      if slot.seqNo !in record.updates {
        UpdateShows(env, ledger, records, key, slot, event);
        EventsInRange(ledger, Update(slot, event));
        records := records[key := record.(updates := record.updates[slot.seqNo := event])];
        ledger := ledger.(events := ledger.events[slot := event]);
        status := Accepted;
      } else {
        status := if record.updates[slot.seqNo] == event then Duplicate else Conflict;
      }
    }

    /** `/metadata-updates:batch`. A sequence number out of range stops the batch; what came before it stays. */
    method UpdatesBatch(ops: seq<Op>) returns (code: nat, statuses: seq<Status>)
      requires Valid() && forall op :: op in ops ==> op.Update?
      modifies this
      ensures Valid()
      ensures
        if code == 400 then
          |statuses| < |ops| && !(1 <= ops[|statuses|].slot.seqNo <= 100)
          && (forall i :: 0 <= i < |statuses| ==> 1 <= ops[i].slot.seqNo <= 100)
          && ledger == Run(old(ledger), ops[..|statuses|])
          && statuses == Statuses(old(ledger), ops[..|statuses|])
        else
          ledger == Run(old(ledger), ops) && statuses == Statuses(old(ledger), ops)
          && code == if Conflict in statuses then 409 else 202
      ensures code == 400 <==> exists i :: 0 <= i < |ops| && !(1 <= ops[i].slot.seqNo <= 100)
    {
      hide Shows, Run, Statuses, Indexes, LedgerOk, EnvOk;
      statuses := [];
      var conflicts := 0;
      var byDataId := IndexByDataId();
      NothingRun(ledger, ops);
      for i := 0 to |ops|
        invariant Valid() && Indexes(byDataId) && |statuses| == i
        invariant forall k :: 0 <= k < i ==> 1 <= ops[k].slot.seqNo <= 100
        invariant ledger == Run(old(ledger), ops[..i]) && statuses == Statuses(old(ledger), ops[..i])
        invariant conflicts > 0 <==> Conflict in statuses
        invariant conflicts >= 0
      {
        OneMoreRun(old(ledger), ops, i);
        var slot := ops[i].slot;
        if slot.seqNo < 1 || slot.seqNo > 100 { return 400, statuses; }
        var status;
        status, byDataId := UpdateItem(slot, ops[i].event, byDataId);
        if status == Conflict { conflicts := conflicts + 1; }
        statuses := statuses + [status];
      }
      assert ops[..|ops|] == ops;
      code := if conflicts > 0 then 409 else 202;
    }
  }

  lemma AdoptionIs(env: Env, r: map<Text, StoredRecord>, source: Text, payload: Text)
    requires RecordKey(env, source) !in r
    ensures
      var early := SyntheticKey(env.dataIdOf(source));
      RegisteredAt(env, r, source, payload)
      == if early in r then r[RecordKey(env, source) := r[early].(payloadHash := payload)] - {early}
         else r[RecordKey(env, source) := StoredRecord(env.dataIdOf(source), payload, map[])]
  {
  }

  lemma RecordShown(env: Env, l: Ledger, r: map<Text, StoredRecord>, source: Text)
    requires Shows(env, l, r) && source in l.payloads
    ensures RecordKey(env, source) in r && r[RecordKey(env, source)].payloadHash == l.payloads[source]
  {
  }

  lemma HistoryHas(l: Ledger, slot: Slot)
    requires 1 <= slot.seqNo <= 100
    ensures slot.seqNo in History(l, slot.dataId) <==> slot in l.events
    ensures slot in l.events ==> History(l, slot.dataId)[slot.seqNo] == l.events[slot]
  {
  }
}
