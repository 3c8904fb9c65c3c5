/**
 Where ciphertext lives. Both layouts offer the same three operations on one asset's bytes: truncate at an
 offset, write a chunk at an offset, read everything back. `Disk` says what each operation does to what is
 stored, crash leftovers included; the store classes are proved to do exactly that.
 */
module MediaStore {
  import opened Encrypt
  import opened Wrappers

  /** What is stored for one asset: one byte file, or one object per chunk keyed by its offset. */
  datatype Disk = File(bytes: Option<Bytes>) | Objects(parts: map<nat, Bytes>)

  function Content(d: Disk): Bytes
    requires d.File?
  {
    if d.bytes.None? then [] else d.bytes.value
  }

  /** Truncation that a crash may cut short, leaving the objects at the offsets in `kept`. */
  function Truncated(d: Disk, offset: nat, kept: set<nat>): Disk {
    match d
    case File(bytes) => if |Content(d)| > offset then File(Some(Content(d)[..offset])) else d
    case Objects(parts) => Objects(map o | o in parts && (o < offset || o in kept) :: parts[o])
  }

  /** A chunk over the bytes at `offset`; the file layout refuses to leave a gap. */
  function Written(d: Disk, offset: nat, chunk: Bytes): (Disk, bool) {
    match d
    case File(_) =>
      var b := Content(d);
      if |b| < offset then (File(Some(b)), false)
      else (File(Some(b[..offset] + chunk + (if offset + |chunk| < |b| then b[offset + |chunk|..] else []))), true)
    case Objects(parts) => (Objects(parts[offset := chunk]), true)
  }

  /** A write cut short after n bytes; an object is either put whole or not at all. */
  function PartlyWritten(d: Disk, offset: nat, chunk: Bytes, n: nat): Disk {
    if n >= |chunk| then Written(d, offset, chunk).0
    else if d.File? then Written(d, offset, chunk[..n]).0
    else d
  }

  /** In the file layout a write puts the chunk at its offset and touches no other byte; it never leaves a gap. */
  lemma WriteTouchesOnly(b: Bytes, offset: nat, chunk: Bytes, i: nat)
    ensures
      var (d, ok) := Written(File(Some(b)), offset, chunk);
      && ok == (offset <= |b|)
      && (!ok ==> d == File(Some(b)))
      && (ok ==>
            && d.bytes.Some? && |d.bytes.value| == (if offset + |chunk| > |b| then offset + |chunk| else |b|)
            && (i < |d.bytes.value| ==>
                  d.bytes.value[i] == if offset <= i < offset + |chunk| then chunk[i - offset] else b[i]))
  {
  }

  // ------------------------------------------------------------- reading back

  ghost function Least(s: set<nat>): (m: nat)
    requires s != {}
    ensures m in s && forall x :: x in s ==> m <= x
  {
    var x :| x in s;
    if s == {x} then x else
      var m := Least(s - {x});
      assert forall y :: y in s ==> y == x || y in s - {x};
      if m < x then m else x
  }

  /** The elements of a set in increasing order. */
  ghost function Ascending(s: set<nat>): seq<nat> {
    if s == {} then [] else [Least(s)] + Ascending(s - {Least(s)})
  }

  ghost predicate Increasing(s: seq<nat>) {
    forall i, j :: 0 <= i < j < |s| ==> s[i] < s[j]
  }

  ghost predicate Lists(q: seq<nat>, s: set<nat>) {
    Increasing(q) && (forall i :: 0 <= i < |q| ==> q[i] in s) && forall x :: x in s ==> x in q
  }

  lemma ListHead(q: seq<nat>, s: set<nat>)
    requires Lists(q, s) && q != []
    ensures s != {} && q[0] == Least(s) && Lists(q[1..], s - {q[0]})
  {
    assert q[0] in s;
    var i :| 0 <= i < |q| && q[i] == Least(s);
    assert i > 0 ==> q[0] < q[i];
    forall x | x in s - {q[0]}
      ensures x in q[1..]
    {
      var k :| 0 <= k < |q| && q[k] == x;
      assert q[1..][k - 1] == x;
    }
  }

  lemma {:induction false} AscendingIsUnique(q: seq<nat>, s: set<nat>)
    requires Lists(q, s)
    ensures q == Ascending(s)
  {
    if q != [] {
      ListHead(q, s);
      AscendingIsUnique(q[1..], s - {q[0]});
    }
  }

  lemma {:induction false} AscendingHas(s: set<nat>)
    ensures Lists(Ascending(s), s)
    decreases |s|
  {
    if s != {} {
      AscendingHas(s - {Least(s)});
      ListPrepended(Ascending(s - {Least(s)}), s);
    }
  }

  lemma ListPrepended(rest: seq<nat>, s: set<nat>)
    requires s != {} && Lists(rest, s - {Least(s)})
    ensures Lists([Least(s)] + rest, s)
  {
    var q := [Least(s)] + rest;
    forall i | 0 < i < |q|
      ensures q[i] in s && q[0] < q[i]
    {
      assert q[i] == rest[i - 1] && rest[i - 1] in s - {Least(s)};
    }
    forall x | x in s
      ensures x in q
    {
      assert x == q[0] || x in s - {Least(s)};
    }
  }

  lemma AscendingAppends(s: set<nat>, x: nat)
    requires forall y :: y in s ==> y < x
    ensures Ascending(s + {x}) == Ascending(s) + [x]
  {
    hide Ascending;
    AscendingHas(s);
    AscendingIsUnique(Ascending(s) + [x], s + {x});
  }

  /** Parts read in order, each starting where the last one ended and none past the expected total. */
  function Walked(parts: map<nat, Bytes>, offsets: seq<nat>, expected: nat): Option<Bytes>
    requires forall o :: o in offsets ==> o in parts
  {
    if offsets == [] then Some([]) else
      var last := offsets[|offsets| - 1];
      match Walked(parts, offsets[..|offsets| - 1], expected)
      case None => None
      case Some(out) =>
        if last != |out| || |out| + |parts[last]| > expected then None else Some(out + parts[last])
  }

  ghost function Read(d: Disk, expected: nat): Option<Bytes> {
    match d
    case File(bytes) => if bytes.Some? && |bytes.value| == expected then bytes else None
    case Objects(parts) =>
      AscendingHas(parts.Keys);
      var out := Walked(parts, Ascending(parts.Keys), expected);
      if out.Some? && |out.value| == expected then out else None
  }

  // ------------------------------------------------------------- a log of chunks, as each layout stores it

  /** Every chunk under the offset where it starts. */
  function PartsOf(log: seq<Bytes>): map<nat, Bytes> {
    if log == [] then map[] else PartsOf(log[..|log| - 1])[|Flatten(log[..|log| - 1])| := log[|log| - 1]]
  }

  ghost predicate NonEmpty(log: seq<Bytes>) {
    forall i :: 0 <= i < |log| ==> log[i] != []
  }

  /** The bytes below the log's length are the log; anything may follow them. */
  ghost predicate Holds(d: Disk, log: seq<Bytes>) {
    match d
    case File(_) => Flatten(log) <= Content(d)
    case Objects(parts) => PartsOf(log) == map o | o in parts && o < |Flatten(log)| :: parts[o]
  }

  /** Nothing follows them. */
  ghost predicate Exact(d: Disk, log: seq<Bytes>) {
    match d
    case File(bytes) => Flatten(log) == Content(d) && (log != [] ==> bytes.Some?)
    case Objects(parts) => PartsOf(log) == parts
  }

  lemma {:induction false} PartsBelow(log: seq<Bytes>)
    requires NonEmpty(log)
    ensures forall o :: o in PartsOf(log) ==> o < |Flatten(log)|
  {
    if log != [] { PartsBelow(log[..|log| - 1]); }
  }

  lemma PartsAppend(log: seq<Bytes>, c: Bytes)
    ensures PartsOf(log + [c]) == PartsOf(log)[|Flatten(log)| := c]
  {
    assert (log + [c])[..|log|] == log;
  }

  lemma ExactHolds(d: Disk, log: seq<Bytes>)
    requires NonEmpty(log) && Exact(d, log)
    ensures Holds(d, log)
  {
    hide PartsOf, Flatten;
    PartsBelow(log);
  }

  /** Truncating at the log's end, however far it gets, keeps the log; done completely it leaves only the log. */
  lemma TruncateHeals(d: Disk, log: seq<Bytes>, kept: set<nat>)
    requires NonEmpty(log) && Holds(d, log)
    ensures Holds(Truncated(d, |Flatten(log)|, kept), log)
    ensures Exact(Truncated(d, |Flatten(log)|, {}), log)
  {
    hide PartsOf, Flatten;
    var n := |Flatten(log)|;
    if d.Objects? {
      assert PartsOf(log) == Truncated(d, n, {}).parts;
      assert PartsOf(log) == map o | o in Truncated(d, n, kept).parts && o < n :: Truncated(d, n, kept).parts[o];
    } else if log != [] {
      FlattenPositive(log);
    }
  }

  lemma FlattenPositive(log: seq<Bytes>)
    requires NonEmpty(log) && log != []
    ensures Flatten(log) != []
  {
    assert log[|log| - 1] != [];
  }

  /** Writing a chunk at the log's end appends it to the log; cut short, it leaves the log as it was. */
  lemma WriteAppends(d: Disk, log: seq<Bytes>, c: Bytes, n: nat)
    requires NonEmpty(log) && c != [] && Exact(d, log)
    ensures Written(d, |Flatten(log)|, c).1
    ensures Exact(Written(d, |Flatten(log)|, c).0, log + [c])
    ensures Holds(PartlyWritten(d, |Flatten(log)|, c, n), log)
  {
    hide PartsOf, Flatten;
    FlattenAppends(log, c);
    PartsAppend(log, c);
    PartsBelow(log);
    if d.Objects? {
      assert PartsOf(log) == map o | o in PartsOf(log + [c]) && o < |Flatten(log)| :: PartsOf(log + [c])[o];
    }
  }

  /** In both layouts, an exact log reads back as its bytes. */
  lemma ExactReads(d: Disk, log: seq<Bytes>)
    requires NonEmpty(log) && log != [] && Exact(d, log)
    ensures Read(d, |Flatten(log)|) == Some(Flatten(log))
  {
    hide Walked, PartsOf, Flatten, Ascending;
    if d.Objects? {
      AscendingHas(d.parts.Keys);
      WalkedLog(log, |Flatten(log)|);
    }
  }

  /** The parts at these offsets, in order. */
  function PartsAt(parts: map<nat, Bytes>, offsets: seq<nat>): (log: seq<Bytes>)
    requires forall o :: o in offsets ==> o in parts
    ensures |log| == |offsets| && forall i :: 0 <= i < |log| ==> log[i] == parts[offsets[i]]
  {
    seq(|offsets|, i requires 0 <= i < |offsets| => parts[offsets[i]])
  }

  /** A walk succeeds only over parts that lie end to end, within the expected total. */
  lemma {:induction false} WalkedTiles(parts: map<nat, Bytes>, offsets: seq<nat>, expected: nat)
    requires (forall o :: o in offsets ==> o in parts) && Increasing(offsets)
    requires Walked(parts, offsets, expected).Some?
    ensures
      var log := PartsAt(parts, offsets);
      && Flatten(log) == Walked(parts, offsets, expected).value
      && (forall o :: o in PartsOf(log) <==> o in offsets)
      && (forall o :: o in offsets ==> PartsOf(log)[o] == parts[o])
  {
    hide Flatten, PartsOf;
    if offsets == [] {
      EmptyLog();
    } else {
      var front, last := offsets[..|offsets| - 1], offsets[|offsets| - 1];
      assert offsets == front + [last];
      WalkedTiles(parts, front, expected);
      assert PartsAt(parts, offsets) == PartsAt(parts, front) + [parts[last]];
      FlattenAppends(PartsAt(parts, front), parts[last]);
      PartsAppend(PartsAt(parts, front), parts[last]);
    }
  }

  lemma EmptyLog()
    ensures Flatten([]) == [] && PartsOf([]) == map[]
  {
  }

  /**
   Reading succeeds exactly when what is stored is the whole: the file has the expected length; the parts, none of
   them empty, lie end to end from 0 to the expected length. A gap, an overlap or a wrong total is an error.
   */
  lemma ReadIff(d: Disk, expected: nat, b: Bytes)
    requires d.Objects? ==> forall o :: o in d.parts ==> d.parts[o] != []
    ensures d.File? ==> (Read(d, expected) == Some(b) <==> d.bytes == Some(b) && |b| == expected)
    ensures d.Objects? ==>
      (Read(d, expected) == Some(b)
       <==> |b| == expected && exists log :: NonEmpty(log) && PartsOf(log) == d.parts && Flatten(log) == b)
  {
    hide Walked, PartsOf, Flatten, Ascending;
    if d.Objects? {
      var offsets := Ascending(d.parts.Keys);
      AscendingHas(d.parts.Keys);
      if Read(d, expected) == Some(b) {
        WalkedTiles(d.parts, offsets, expected);
        var log := PartsAt(d.parts, offsets);
        assert PartsOf(log) == d.parts;
        assert NonEmpty(log);
      }
      if log :| NonEmpty(log) && PartsOf(log) == d.parts && Flatten(log) == b {
        if |b| == expected { WalkedLog(log, expected); }
      }
    }
  }

  lemma {:induction false} WalkedLog(log: seq<Bytes>, expected: nat)
    requires NonEmpty(log) && |Flatten(log)| <= expected
    ensures forall o :: o in Ascending(PartsOf(log).Keys) ==> o in PartsOf(log)
    ensures Walked(PartsOf(log), Ascending(PartsOf(log).Keys), expected) == Some(Flatten(log))
  {
    AscendingHas(PartsOf(log).Keys);
    if log != [] {
      var front, c := log[..|log| - 1], log[|log| - 1];
      WalkedLog(front, expected);
      PartsBelow(front);
      var parts, before, end := PartsOf(log), PartsOf(front), |Flatten(front)|;
      assert parts.Keys == before.Keys + {end};
      AscendingAppends(before.Keys, end);
      AscendingHas(before.Keys);
      WalkedAgrees(parts, before, Ascending(before.Keys), expected);
      var offsets := Ascending(parts.Keys);
      assert offsets[..|offsets| - 1] == Ascending(before.Keys);
    }
  }

  lemma {:induction false} WalkedAgrees(p: map<nat, Bytes>, q: map<nat, Bytes>, offsets: seq<nat>, expected: nat)
    requires forall o :: o in offsets ==> o in p && o in q && p[o] == q[o]
    ensures Walked(p, offsets, expected) == Walked(q, offsets, expected)
  {
    if offsets != [] { WalkedAgrees(p, q, offsets[..|offsets| - 1], expected); }
  }
}
