/** The append-only event log of assets, with per-asset sequence numbers and idempotency keys. */
module EventLog {
  import opened Wrappers

  /** What an event records; the submission actions carry the submission and its request. */
  datatype Action =
    | Submitted(submission: string, request: string)
    | Withdrawn(submission: string, request: string)
    | Reviewed(submission: string, request: string, accepted: bool)
    | Other(name: string)

  datatype Event = Event(asset: string, seqNo: nat, action: Action, key: Option<string>)

  /** `COALESCE(MAX(seq), 0)` over the asset's events. */
  function MaxSeq(events: seq<Event>, asset: string): nat {
    if events == [] then 0 else
      var rest, last := MaxSeq(events[..|events| - 1], asset), events[|events| - 1];
      if last.asset == asset && last.seqNo > rest then last.seqNo else rest
  }

  /** `ON CONFLICT (asset_id, idempotency_key)`: a missing key conflicts with nothing. */
  predicate Taken(events: seq<Event>, asset: string, key: Option<string>) {
    key.Some? && exists e :: e in events && e.asset == asset && e.key == key
  }

  /** `appendEvent`. */
  function Append(events: seq<Event>, asset: string, action: Action, key: Option<string>): seq<Event> {
    if Taken(events, asset, key) then events
    else events + [Event(asset, MaxSeq(events, asset) + 1, action, key)]
  }

  /** `listEvents`: one asset's events in sequence order. */
  function ListEvents(events: seq<Event>, asset: string): seq<Event> {
    if events == [] then [] else
      var rest, last := ListEvents(events[..|events| - 1], asset), events[|events| - 1];
      if last.asset == asset then rest + [last] else rest
  }

  /** Every asset's events are numbered 1, 2, 3, ... without a gap. */
  ghost predicate Numbered(events: seq<Event>) {
    forall asset: string, i ::
      0 <= i < |ListEvents(events, asset)| ==> ListEvents(events, asset)[i].seqNo == i + 1
  }

  lemma {:induction false} MaxIsCount(events: seq<Event>, asset: string)
    requires forall i :: 0 <= i < |ListEvents(events, asset)| ==> ListEvents(events, asset)[i].seqNo == i + 1
    ensures MaxSeq(events, asset) == |ListEvents(events, asset)|
  {
    if events != [] {
      var front, all := ListEvents(events[..|events| - 1], asset), ListEvents(events, asset);
      assert forall i :: 0 <= i < |front| ==> all[i] == front[i];
      MaxIsCount(events[..|events| - 1], asset);
      var last := events[|events| - 1];
      assert last.asset == asset ==> all[|front|] == last;
    }
  }

  /** Appending keeps the numbering, of this asset and of every other. */
  lemma AppendKeepsNumbering(events: seq<Event>, asset: string, action: Action, key: Option<string>)
    requires Numbered(events)
    ensures Numbered(Append(events, asset, action, key))
  {
    if !Taken(events, asset, key) {
      var e := Event(asset, MaxSeq(events, asset) + 1, action, key);
      assert (events + [e])[..|events|] == events;
      MaxIsCount(events, asset);
      forall a: string, i | 0 <= i < |ListEvents(events + [e], a)|
        ensures ListEvents(events + [e], a)[i].seqNo == i + 1
      {
        assert ListEvents(events + [e], a) == if a == asset then ListEvents(events, a) + [e] else ListEvents(events, a);
        if i < |ListEvents(events, a)| { assert ListEvents(events, a)[i].seqNo == i + 1; }
      }
    }
  }
}
