/**
 What the Trace service amounts to: two tables in which the first writer wins. One holds the payload of each
 registered source record, the other the content of each (data id, seq) update.
 */
module TraceLedger {
  import opened Canonical
  import opened JsText

  /** Registration of a source record, or one metadata update; contents are hashes. */
  datatype Op =
    | Register(source: Text, payload: Text)
    | Update(slot: Slot, event: Text)

  /** The place of an update in the history of a data id. */
  datatype Slot = Slot(dataId: Text, seqNo: int)

  datatype Status = Accepted | Duplicate | Conflict | BadSeq

  datatype Ledger = Ledger(payloads: map<Text, Text>, events: map<Slot, Text>)

  const EMPTY: Ledger := Ledger(map[], map[])

  function Settle(known: Text, given: Text): Status {
    if known == given then Duplicate else Conflict
  }

  function Step(l: Ledger, op: Op): (Ledger, Status) {
    match op
    case Register(source, payload) =>
      if source in l.payloads then (l, Settle(l.payloads[source], payload))
      else (l.(payloads := l.payloads[source := payload]), Accepted)
    case Update(slot, event) =>
      if slot.seqNo < 1 || slot.seqNo > 100 then (l, BadSeq)
      else if slot in l.events then (l, Settle(l.events[slot], event))
      else (l.(events := l.events[slot := event]), Accepted)
  }

  function Run(l: Ledger, ops: seq<Op>): Ledger {
    if ops == [] then l else Step(Run(l, ops[..|ops| - 1]), ops[|ops| - 1]).0
  }

  /** Delivering an operation again changes nothing, and says so. */
  lemma Redelivery(l: Ledger, op: Op)
    ensures
      var (after, status) := Step(l, op);
      Step(after, op) == (after, if status == Accepted then Duplicate else status)
  {
  }

  /** Nothing once accepted is ever changed. */
  lemma {:induction false} AcceptedStays(l: Ledger, ops: seq<Op>)
    ensures forall s :: s in l.payloads ==> s in Run(l, ops).payloads && Run(l, ops).payloads[s] == l.payloads[s]
    ensures forall e :: e in l.events ==> e in Run(l, ops).events && Run(l, ops).events[e] == l.events[e]
  {
    if ops != [] { AcceptedStays(l, ops[..|ops| - 1]); }
  }

  // ------------------------------------------------------------- arrival order

  /** Two different contents for one source record, or for one sequence number in range. */
  predicate Contradict(a: Op, b: Op) {
    a != b && match (a, b)
    case (Register(s, _), Register(t, _)) => s == t
    case (Update(s, _), Update(t, _)) => s == t && 1 <= s.seqNo <= 100
    case _ => false
  }

  /** No source record is given two payloads, no sequence number two contents. */
  ghost predicate Consistent(ops: seq<Op>) {
    forall a, b :: a in ops && b in ops ==> !Contradict(a, b)
  }

  /** The tables of a consistent run hold exactly what was sent. */
  ghost predicate Holds(l: Ledger, ops: seq<Op>) {
    && (forall s, p :: (s in l.payloads && l.payloads[s] == p) <==> Register(s, p) in ops)
    && (forall s, e :: (s in l.events && l.events[s] == e) <==> Update(s, e) in ops && 1 <= s.seqNo <= 100)
  }

  lemma ConsistentFront(ops: seq<Op>)
    requires ops != [] && Consistent(ops)
    ensures Consistent(ops[..|ops| - 1])
  {
    assert forall a :: a in ops[..|ops| - 1] ==> a in ops;
  }

  lemma {:induction false} RunHolds(ops: seq<Op>)
    requires Consistent(ops)
    ensures Holds(Run(EMPTY, ops), ops)
  {
    if ops != [] {
      var front, last := ops[..|ops| - 1], ops[|ops| - 1];
      ConsistentFront(ops);
      RunHolds(front);
      StepHolds(Run(EMPTY, front), front, last);
      assert ops == front + [last];
    }
  }

  lemma StepHolds(l: Ledger, ops: seq<Op>, op: Op)
    requires Holds(l, ops) && Consistent(ops + [op])
    ensures Holds(Step(l, op).0, ops + [op])
  {
    var all, t := ops + [op], Step(l, op).0;
    assert forall a :: a in all <==> a in ops || a == op;
    assert op in all;
    forall s, p
      ensures (s in t.payloads && t.payloads[s] == p) <==> Register(s, p) in all
    {
      PayloadSettled(l, ops, op, s);
      assert Register(s, p) in all <==> Register(s, p) in ops || Register(s, p) == op;
    }
    forall s, e
      ensures (s in t.events && t.events[s] == e) <==> Update(s, e) in all && 1 <= s.seqNo <= 100
    {
      EventSettled(l, ops, op, s);
      assert Update(s, e) in all <==> Update(s, e) in ops || Update(s, e) == op;
    }
  }

  /** A source record that is known already is sent again only with its payload. */
  lemma PayloadSettled(l: Ledger, ops: seq<Op>, op: Op, s: Text)
    requires Holds(l, ops) && Consistent(ops + [op])
    ensures op.Register? && op.source == s && s in l.payloads ==> op == Register(s, l.payloads[s])
  {
    if op.Register? && op.source == s && s in l.payloads {
      var known := Register(s, l.payloads[s]);
      assert known in ops;
      assert known in ops + [op] && op in ops + [op];
      assert !Contradict(op, known);
    }
  }

  lemma EventSettled(l: Ledger, ops: seq<Op>, op: Op, s: Slot)
    requires Holds(l, ops) && Consistent(ops + [op])
    ensures op.Update? && op.slot == s && s in l.events ==> op == Update(s, l.events[s]) && 1 <= s.seqNo <= 100
  {
    if op.Update? && op.slot == s && s in l.events {
      var known := Update(s, l.events[s]);
      assert known in ops;
      assert known in ops + [op] && op in ops + [op];
      assert !Contradict(op, known);
    }
  }

  /** The same messages, in any order and with any repeats. */
  ghost predicate SameMessages(a: seq<Op>, b: seq<Op>) {
    forall op :: op in a <==> op in b
  }

  lemma ConsistentArrivalsAgree(a: seq<Op>, b: seq<Op>)
    requires Consistent(a) && SameMessages(a, b)
    ensures Run(EMPTY, a) == Run(EMPTY, b)
  {
    hide Run, Contradict;
    assert Consistent(b);
    RunHolds(a);
    RunHolds(b);
    HeldLedgersAgree(Run(EMPTY, a), Run(EMPTY, b), a, b);
  }

  lemma HeldLedgersAgree(l: Ledger, m: Ledger, a: seq<Op>, b: seq<Op>)
    requires Holds(l, a) && Holds(m, b) && forall op :: op in a <==> op in b
    ensures l == m
  {
    forall s
      ensures s in l.payloads <==> s in m.payloads
      ensures s in l.payloads ==> l.payloads[s] == m.payloads[s]
    {
      if s in l.payloads { assert Register(s, l.payloads[s]) in a; }
      if s in m.payloads { assert Register(s, m.payloads[s]) in b; }
    }
    forall s
      ensures s in l.events <==> s in m.events
      ensures s in l.events ==> l.events[s] == m.events[s]
    {
      if s in l.events { assert Update(s, l.events[s]) in a; }
      if s in m.events { assert Update(s, m.events[s]) in b; }
    }
    assert l.payloads == m.payloads;
    assert l.events == m.events;
  }

  lemma {:induction false} RunAfterFirst(l: Ledger, op: Op, ops: seq<Op>)
    ensures Run(l, [op] + ops) == Run(Step(l, op).0, ops)
  {
    if ops == [] {
      assert [op] + ops == [op] && [op][..0] == [];
    } else {
      RunAfterFirst(l, op, ops[..|ops| - 1]);
      assert ([op] + ops)[..|ops|] == [op] + ops[..|ops| - 1];
    }
  }

  /** Of two contradicting messages, the one that arrives first shows in the tables. */
  lemma ContradictionShows(ops: seq<Op>, x: Op, y: Op)
    requires x in ops && y in ops && Contradict(x, y)
    ensures SameMessages(ops, [x] + ops) && SameMessages(ops, [y] + ops)
    ensures Run(EMPTY, [x] + ops) != Run(EMPTY, [y] + ops)
  {
    hide Run;
    RunAfterFirst(EMPTY, x, ops);
    RunAfterFirst(EMPTY, y, ops);
    AcceptedStays(Step(EMPTY, x).0, ops);
    AcceptedStays(Step(EMPTY, y).0, ops);
    if x.Update? {
      assert Run(EMPTY, [x] + ops).events[x.slot] == x.event;
      assert Run(EMPTY, [y] + ops).events[x.slot] == y.event;
    } else {
      assert Run(EMPTY, [x] + ops).payloads[x.source] == x.payload;
      assert Run(EMPTY, [y] + ops).payloads[x.source] == y.payload;
    }
  }

  /** Every arrival of the same messages, repeats included, leaves the same tables exactly when none contradict. */
  lemma ArrivalOrderIsIrrelevantIff(ops: seq<Op>)
    ensures (forall other :: SameMessages(ops, other) ==> Run(EMPTY, other) == Run(EMPTY, ops)) <==> Consistent(ops)
  {
    hide Run, Contradict, SameMessages;
    if Consistent(ops) {
      forall other | SameMessages(ops, other) ensures Run(EMPTY, other) == Run(EMPTY, ops) {
        ConsistentArrivalsAgree(ops, other);
      }
    } else {
      var x, y :| x in ops && y in ops && Contradict(x, y);
      ContradictionShows(ops, x, y);
    }
  }

  // ------------------------------------------------------------- what the hashes commit to

  const ROOT_KEY: Text := [0x72, 0x6f, 0x6f, 0x74]
  const JSON_KEY: Text := [0x6a, 0x73, 0x6f, 0x6e]
  const PREV_KEY: Text := [0x70, 0x72, 0x65, 0x76]
  const REF_PREFIX: Text := [0x73, 0x68, 0x61, 0x32, 0x35, 0x36, 0x3a]

  lemma KeyWords()
    ensures IsWord(ROOT_KEY, "root") && IsWord(JSON_KEY, "json") && IsWord(PREV_KEY, "prev")
    ensures IsWord(REF_PREFIX, "sha256:")
  {
  }

  /** `metadataRoot`: "sha256:" and the hash of the canonical document. */
  function RootOf(sha: Text -> Text, doc: Json): Text {
    REF_PREFIX + sha(Canon(doc))
  }

  function PayloadText(root: Text, doc: Json): Text {
    Canon(Obj([Field(ROOT_KEY, Str(root)), Field(JSON_KEY, doc)]))
  }

  function EventText(prev: Text, root: Text, doc: Json): Text {
    Canon(Obj([Field(PREV_KEY, Str(prev)), Field(ROOT_KEY, Str(root)), Field(JSON_KEY, doc)]))
  }

  function RegisterOp(sha: Text -> Text, source: Text, doc: Json): Op {
    Register(source, sha(PayloadText(RootOf(sha, doc), doc)))
  }

  function UpdateOp(sha: Text -> Text, dataId: Text, seqNo: int, prev: Text, doc: Json): Op {
    Update(Slot(dataId, seqNo), sha(EventText(prev, RootOf(sha, doc), doc)))
  }

  lemma OneTextOneMembership(a: seq<Field<Json>>, b: seq<Field<Json>>)
    requires WellFormedFields(a) && WellFormedFields(b)
    ensures Canon(Obj(a)) == Canon(Obj(b)) <==> SameMembers(NormFields(a), NormFields(b))
  {
    hide Within, Covers, NormFields, WellFormedFields, Canon;
    CanonIdentifies(Obj(a), Obj(b));
    SameFieldsAreSameMembers(a, b);
  }

  ghost predicate Document(doc: Json) {
    doc.Obj? && WellFormed(doc)
  }

  lemma EventFieldsWellFormed(prev: Text, root: Text, doc: Json)
    requires Document(doc)
    ensures
      var e := [Field(PREV_KEY, Str(prev)), Field(ROOT_KEY, Str(root)), Field(JSON_KEY, doc)];
      WellFormedFields(e)
      && NormFields(e) == [Field(PREV_KEY, Str(prev)), Field(ROOT_KEY, Str(root)), Field(JSON_KEY, Norm(doc))]
  {
    hide Norm, WellFormed, WellFormedFields, NormFields;
    StrIsItself(prev);
    StrIsItself(root);
    assert ROOT_KEY[0] != JSON_KEY[0] && PREV_KEY[0] != JSON_KEY[0] && PREV_KEY[0] != ROOT_KEY[0];
    var one := [Field(JSON_KEY, doc)];
    var two := [Field(ROOT_KEY, Str(root))] + one;
    OneField(JSON_KEY, doc);
    OneMoreField(ROOT_KEY, Str(root), one);
    OneMoreField(PREV_KEY, Str(prev), two);
    assert [Field(PREV_KEY, Str(prev))] + two
           == [Field(PREV_KEY, Str(prev)), Field(ROOT_KEY, Str(root)), Field(JSON_KEY, doc)];
  }

  lemma RootsIdentify(sha: Text -> Text, doc: Json, other: Json)
    requires Injective(sha) && Document(doc) && Document(other)
    ensures RootOf(sha, doc) == RootOf(sha, other) <==> Same(doc, other)
  {
    hide Canon, Same, WellFormed;
    CanonIdentifies(doc, other);
    assert REF_PREFIX + sha(Canon(doc)) == REF_PREFIX + sha(Canon(other)) ==>
      (REF_PREFIX + sha(Canon(doc)))[|REF_PREFIX|..] == (REF_PREFIX + sha(Canon(other)))[|REF_PREFIX|..];
  }

  /** A second registration of a source record is a duplicate exactly when its document is the same. */
  lemma DuplicateRegistration(l: Ledger, sha: Text -> Text, source: Text, doc: Json, doc': Json)
    requires Injective(sha) && Document(doc) && Document(doc')
    requires source in l.payloads && l.payloads[source] == RegisterOp(sha, source, doc).payload
    ensures Step(l, RegisterOp(sha, source, doc')).1 == if Same(doc, doc') then Duplicate else Conflict
  {
    hide Canon, Same, WellFormed, WellFormedFields, Norm, NormFields, SameMembers, RootOf;
    var root, root' := RootOf(sha, doc), RootOf(sha, doc');
    PayloadFieldsWellFormed(root, doc);
    PayloadFieldsWellFormed(root', doc');
    OneTextOneMembership(PayloadFields(root, doc), PayloadFields(root', doc'));
    RootsIdentify(sha, doc, doc');
    SameIsSameNorm(doc, doc');
    PayloadMembers(root, Norm(doc), root', Norm(doc'));
    assert sha(PayloadText(root, doc)) == sha(PayloadText(root', doc'))
           <==> PayloadText(root, doc) == PayloadText(root', doc');
  }

  function PayloadFields(root: Text, doc: Json): seq<Field<Json>> {
    [Field(ROOT_KEY, Str(root)), Field(JSON_KEY, doc)]
  }

  lemma PayloadFieldsWellFormed(root: Text, doc: Json)
    requires Document(doc)
    ensures WellFormedFields(PayloadFields(root, doc))
    ensures NormFields(PayloadFields(root, doc)) == PayloadFields(root, Norm(doc))
  {
    hide Norm, WellFormed, WellFormedFields, NormFields;
    assert ROOT_KEY[0] != JSON_KEY[0];
    StrIsItself(root);
    OneField(JSON_KEY, doc);
    OneMoreField(ROOT_KEY, Str(root), [Field(JSON_KEY, doc)]);
    assert [Field(ROOT_KEY, Str(root))] + [Field(JSON_KEY, doc)] == PayloadFields(root, doc);
  }

  lemma PayloadMembers(r: Text, d: Json, r': Text, d': Json)
    ensures SameMembers(PayloadFields(r, d), PayloadFields(r', d')) <==> r == r' && d == d'
  {
    var a, b := PayloadFields(r, d), PayloadFields(r', d');
    assert ROOT_KEY[0] != JSON_KEY[0];
    if SameMembers(a, b) {
      assert a[0] in a && a[1] in a;
      assert a[0] in b && a[1] in b;
    }
  }

  /** A second update for a taken sequence number is a duplicate exactly when it says the same thing. */
  lemma DuplicateMeansSame(l: Ledger, sha: Text -> Text, slot: Slot, prev: Text, doc: Json, prev': Text, doc': Json)
    requires Injective(sha) && Document(doc) && Document(doc') && 1 <= slot.seqNo <= 100
    requires slot in l.events && l.events[slot] == UpdateOp(sha, slot.dataId, slot.seqNo, prev, doc).event
    ensures Step(l, UpdateOp(sha, slot.dataId, slot.seqNo, prev', doc')).1
            == if prev == prev' && Same(doc, doc') then Duplicate else Conflict
  {
    hide Canon, Same, WellFormed, WellFormedFields, Norm, NormFields, SameMembers, RootOf;
    var root, root' := RootOf(sha, doc), RootOf(sha, doc');
    var a := [Field(PREV_KEY, Str(prev)), Field(ROOT_KEY, Str(root)), Field(JSON_KEY, doc)];
    var b := [Field(PREV_KEY, Str(prev')), Field(ROOT_KEY, Str(root')), Field(JSON_KEY, doc')];
    EventFieldsWellFormed(prev, root, doc);
    EventFieldsWellFormed(prev', root', doc');
    OneTextOneMembership(a, b);
    RootsIdentify(sha, doc, doc');
    SameIsSameNorm(doc, doc');
    EventMembers(prev, root, Norm(doc), prev', root', Norm(doc'));
    assert sha(EventText(prev, root, doc)) == sha(EventText(prev', root', doc'))
           <==> EventText(prev, root, doc) == EventText(prev', root', doc');
  }

  lemma EventMembers(p: Text, r: Text, d: Json, p': Text, r': Text, d': Json)
    ensures
      SameMembers([Field(PREV_KEY, Str(p)), Field(ROOT_KEY, Str(r)), Field(JSON_KEY, d)],
                  [Field(PREV_KEY, Str(p')), Field(ROOT_KEY, Str(r')), Field(JSON_KEY, d')])
      <==> p == p' && r == r' && d == d'
  {
    var a := [Field(PREV_KEY, Str(p)), Field(ROOT_KEY, Str(r)), Field(JSON_KEY, d)];
    var b := [Field(PREV_KEY, Str(p')), Field(ROOT_KEY, Str(r')), Field(JSON_KEY, d')];
    assert PREV_KEY[0] != ROOT_KEY[0] && PREV_KEY[0] != JSON_KEY[0] && ROOT_KEY[0] != JSON_KEY[0];
    if SameMembers(a, b) {
      assert a[0] in a && a[1] in a && a[2] in a;
      assert a[0] in b && a[1] in b && a[2] in b;
    }
  }
}
