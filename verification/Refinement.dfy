/** The two consumers of the event log are the same projection: run side by side on any records,
    they accept and reject the same ones and never disagree on a topic or a subscription. */
module Refinement {
  import opened Wrappers
  import opened State
  import opened Consolidation
  import opened HubProjection
  import Revisions
  import Snapshots

  predicate NulFreeRecord(p: Payload) {
    Decode(p).Some? ==> NulFree(Decode(p).value)
  }

  ghost predicate Agree(h: Hub, c: Consolidator)
    reads h, h.Values.Keys, c
  {
    h.Valid() && c.Valid() && NulFreeKeys(c.Flatten()) && h.Projected() == Projected(c.Flatten())
  }

  // What records do to a state; one that is not accepted does nothing.
  function AfterRecord(p: Projection, record: Payload): Projection {
    if Applies(record) then Step(p, Decode(record).value) else p
  }

  function AfterRecords(p: Projection, records: seq<Payload>): Projection {
    if records == [] then p
    else AfterRecord(AfterRecords(p, records[..|records| - 1]), records[|records| - 1])
  }

  function FlatAfterRecord(f: Flat, record: Payload): Flat {
    if Applies(record) then FlatStep(f, Decode(record).value) else f
  }

  function FlatAfterRecords(f: Flat, records: seq<Payload>): Flat {
    if records == [] then f
    else FlatAfterRecord(FlatAfterRecords(f, records[..|records| - 1]), records[|records| - 1])
  }

  lemma {:induction false} FlatRecordsRefine(f: Flat, records: seq<Payload>)
    requires KeysMatch(f) && NulFreeKeys(f)
    requires forall i :: 0 <= i < |records| ==> NulFreeRecord(records[i])
    ensures KeysMatch(FlatAfterRecords(f, records)) && NulFreeKeys(FlatAfterRecords(f, records))
    ensures Projected(FlatAfterRecords(f, records)) == AfterRecords(Projected(f), records)
    decreases |records|
  {
    if records != [] {
      var n := |records| - 1;
      FlatRecordsRefine(f, records[..n]);
      if Applies(records[n]) {
        FlatStepKeysMatch(FlatAfterRecords(f, records[..n]), Decode(records[n]).value);
        FlatStepRefines(FlatAfterRecords(f, records[..n]), Decode(records[n]).value);
      }
    }
  }

  function Verdicts(records: seq<Payload>): seq<bool> {
    if records == [] then [] else Verdicts(records[..|records| - 1]) + [Applies(records[|records| - 1])]
  }

  method LockstepOne(h: Hub, c: Consolidator, record: Payload) returns (byHub: bool, byConsolidator: bool)
    requires h.Valid() && c.Valid()
    modifies h`topics, h`subscribers, h`Contents, h`Values, h.Values.Keys, c`topics, c`subscriptions
    ensures h.Valid() && c.Valid() && fresh(h.Values.Keys - old(h.Values.Keys))
    ensures byHub == byConsolidator == Applies(record)
    ensures h.Projected() == AfterRecord(old(h.Projected()), record)
    ensures c.Flatten() == FlatAfterRecord(old(c.Flatten()), record)
  {
    byHub := h.ApplyEvent(record);
    byConsolidator := c.ApplyEvent(record);
  }

  // Record by record, each in its own form of the state.
  method ApplyBoth(h: Hub, c: Consolidator, records: seq<Payload>) returns (byHub: seq<bool>, byConsolidator: seq<bool>)
    requires h.Valid() && c.Valid()
    modifies h`topics, h`subscribers, h`Contents, h`Values, h.Values.Keys, c`topics, c`subscriptions
    ensures h.Valid() && c.Valid() && fresh(h.Values.Keys - old(h.Values.Keys))
    ensures byHub == byConsolidator == Verdicts(records)
    ensures h.Projected() == AfterRecords(old(h.Projected()), records)
    ensures c.Flatten() == FlatAfterRecords(old(c.Flatten()), records)
    decreases |records|
  {
    if records == [] {
      return [], [];
    }
    var n := |records| - 1;
    byHub, byConsolidator := ApplyBoth(h, c, records[..n]);
    var left, right := LockstepOne(h, c, records[n]);
    byHub, byConsolidator := byHub + [left], byConsolidator + [right];
  }

  /** Over any records, from one abstract state on: the same ones are accepted, and the states stay
      one. */
  method Lockstep(h: Hub, c: Consolidator, records: seq<Payload>) returns (byHub: seq<bool>, byConsolidator: seq<bool>)
    requires Agree(h, c)
    requires forall i :: 0 <= i < |records| ==> NulFreeRecord(records[i])
    modifies h`topics, h`subscribers, h`Contents, h`Values, h.Values.Keys, c`topics, c`subscriptions
    ensures Agree(h, c)
    ensures byHub == byConsolidator == Verdicts(records)
    ensures h.Projected() == AfterRecords(old(h.Projected()), records)
  {
    FlatRecordsRefine(c.Flatten(), records);
    byHub, byConsolidator := ApplyBoth(h, c, records);
  }

  method LoadHub(serverID: string, snapshot: Snapshot) returns (h: Hub, ok: bool)
    ensures h.Valid() && fresh(h) && fresh(h.Values.Keys)
    ensures ok == Snapshots.AllAccepted(Snapshots.LoadEvents(snapshot))
    ensures ok ==> h.Projected() == Fold(Snapshots.LoadEvents(snapshot), EMPTY)
  {
    h := new Hub(serverID);
    assert h.Projected() == EMPTY by {
      assert h.Projected().subscriptions == map[];
    }
    ok := h.ApplySnapshot(snapshot);
  }

  method LoadConsolidator(snapshot: Snapshot) returns (c: Consolidator, ok: bool)
    requires 0 <= snapshot.revision <= Revisions.MAX_REVISION
    requires AllNulFree(Snapshots.LoadEvents(snapshot))
    ensures c.Valid() && fresh(c)
    ensures ok == Snapshots.AllAccepted(Snapshots.LoadEvents(snapshot))
    ensures ok ==> NulFreeKeys(c.Flatten()) && Projected(c.Flatten()) == Fold(Snapshots.LoadEvents(snapshot), EMPTY)
  {
    c := new Consolidator(snapshot.revision);
    var none := Flat(map[], map[]);
    FlatFoldRefines(Snapshots.LoadEvents(snapshot), none);
    assert Projected(none) == EMPTY;
    ok := c.Restore(snapshot);
  }

  // Both load a snapshot to the same projection, or neither loads it.
  method LoadBoth(serverID: string, snapshot: Snapshot) returns (h: Hub, c: Consolidator, ok: bool)
    requires 0 <= snapshot.revision <= Revisions.MAX_REVISION
    requires AllNulFree(Snapshots.LoadEvents(snapshot))
    ensures ok == Snapshots.AllAccepted(Snapshots.LoadEvents(snapshot))
    ensures ok ==> Agree(h, c) && h.Projected() == Fold(Snapshots.LoadEvents(snapshot), EMPTY)
  {
    var restored;
    h, ok := LoadHub(serverID, snapshot);
    c, restored := LoadConsolidator(snapshot);
  }
}
