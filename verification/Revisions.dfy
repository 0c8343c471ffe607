/** Snapshot revisions. The snapshot topic has several partitions and keeps old records, so a load
    reads every snapshot it can find, in no particular order, and keeps the greatest revision. */
module Revisions {
  import opened Wrappers
  import opened State

  const MAX_REVISION := 0xFFFF_FFFF_FFFF_FFFF
  const NO_SNAPSHOT := Snapshot(0, [], [])

  function Retain(found: Option<Snapshot>, candidate: Snapshot): Option<Snapshot> {
    if found.None? || candidate.revision > found.value.revision then Some(candidate) else found
  }

  function Newest(read: seq<Snapshot>): Option<Snapshot> {
    if read == [] then None else Retain(Newest(read[..|read| - 1]), read[|read| - 1])
  }

  function Loaded(read: seq<Snapshot>): Snapshot {
    match Newest(read)
    case Some(s) => s
    case None => NO_SNAPSHOT
  }

  lemma {:induction false} NewestIsGreatest(read: seq<Snapshot>)
    ensures Newest(read).None? <==> read == []
    ensures Newest(read).Some? ==>
              Newest(read).value in read && forall s :: s in read ==> s.revision <= Newest(read).value.revision
    decreases |read|
  {
    if read != [] {
      var earlier := read[..|read| - 1];
      NewestIsGreatest(earlier);
      assert forall s :: s in read ==> s in earlier || s == read[|read| - 1];
    }
  }

  predicate FirstGreatest(read: seq<Snapshot>, i: nat) {
    && i < |read| && Newest(read) == Some(read[i])
    && forall j :: 0 <= j < i ==> read[j].revision < read[i].revision
  }

  // Of several with the greatest revision, the one read first.
  lemma {:induction false} NewestIsFirst(read: seq<Snapshot>) returns (i: nat)
    requires read != []
    ensures FirstGreatest(read, i)
    decreases |read|
  {
    var n := |read| - 1;
    i := n;
    if n > 0 {
      i := NewestIsFirst(read[..n]);
      assert forall j :: 0 <= j < n ==> read[..n][j] == read[j];
      if read[n].revision > read[i].revision {
        NewestIsGreatest(read[..n]);
        assert forall j :: 0 <= j < n ==> read[j] in read[..n];
        i := n;
      }
    }
  }

  predicate Increasing(published: seq<Snapshot>) {
    forall i, j :: 0 <= i < j < |published| ==> published[i].revision < published[j].revision
  }

  /** Whatever the partitions deliver, in any order, with repetitions or without the snapshots
      retention has removed: the load returns the one published last. */
  lemma LoadReturnsLast(published: seq<Snapshot>, read: seq<Snapshot>)
    requires Increasing(published)
    requires forall s :: s in read ==> s in published
    requires published != [] ==> published[|published| - 1] in read
    ensures Loaded(read) == if published == [] then NO_SNAPSHOT else published[|published| - 1]
  {
    NewestIsGreatest(read);
  }

  /** A load returns the last snapshot published exactly when it read that one. */
  lemma LoadFindsLastExactly(published: seq<Snapshot>, read: seq<Snapshot>)
    requires Increasing(published) && published != [] && published[|published| - 1].revision > 0
    requires forall s :: s in read ==> s in published
    ensures Loaded(read) == published[|published| - 1] <==> published[|published| - 1] in read
  {
    NewestIsGreatest(read);
    if published[|published| - 1] in read {
      LoadReturnsLast(published, read);
    }
  }

  /** And only then does the process that loaded it go on with a revision above all others. */
  lemma NextExceedsExactly(published: seq<Snapshot>, read: seq<Snapshot>)
    requires Increasing(published) && published != []
    requires forall i :: 0 <= i < |published| ==> 0 < published[i].revision < MAX_REVISION
    requires forall s :: s in read ==> s in published
    ensures (forall s :: s in published ==> Next(Loaded(read).revision) > s.revision) <==>
            published[|published| - 1] in read
  {
    var last := published[|published| - 1];
    NewestIsGreatest(read);
    LoadFindsLastExactly(published, read);
    assert last in published;
    if last !in read {
      assert Loaded(read).revision < last.revision;
    }
  }

  // The increment of consumeEvent, on an unsigned 64-bit integer.
  function Next(revision: int): int {
    (revision + 1) % (MAX_REVISION + 1)
  }

  /** The snapshot published next is the one a load returns exactly when the revision was not
      already the largest; no check guards the increment, which then wraps around to 0. */
  lemma NextIsNewestExactly(published: seq<Snapshot>, next: Snapshot, read: seq<Snapshot>)
    requires Increasing(published) && published != []
    requires forall i :: 0 <= i < |published| ==> 0 < published[i].revision <= MAX_REVISION
    requires next.revision == Next(published[|published| - 1].revision)
    requires forall s :: s in read <==> s in published + [next]
    ensures Increasing(published + [next]) <==> published[|published| - 1].revision < MAX_REVISION
    ensures Loaded(read) == next <==> published[|published| - 1].revision < MAX_REVISION
  {
    var last := published[|published| - 1];
    NewestIsGreatest(read);
    assert next in read && last in read by {
      assert (published + [next])[|published|] == next && (published + [next])[|published| - 1] == last;
    }
    if last.revision < MAX_REVISION {
      assert next.revision == last.revision + 1;
      LoadReturnsLast(published + [next], read);
    } else {
      assert next.revision == 0;
      assert (published + [next])[|published| - 1].revision > (published + [next])[|published|].revision;
    }
  }

  // The revision after the largest is 0, and a load goes on returning the old snapshot.
  lemma WrappedIsNotLoaded(topics: seq<Registration>)
    ensures var last, next := Snapshot(MAX_REVISION, [], []), Snapshot(0, topics, []);
            next.revision == Next(last.revision) && Loaded([last, next]) == last
  {
    var last, next := Snapshot(MAX_REVISION, [], []), Snapshot(0, topics, []);
    assert [last, next][..1] == [last] && [last][..0] == [];
    assert Newest([last]) == Some(last);
  }

  // ---- LoadSnapshot ----

  // A record of the snapshot topic (or of another), its JSON read if it can be.
  datatype Record = Record(ours: bool, value: Option<Snapshot>)

  datatype Poll = Failure | Records(records: seq<Record>)

  datatype Outcome = Latest(snapshot: Snapshot) | Error | Waiting

  predicate Readable(r: Record) {
    r.ours ==> r.value.Some?
  }

  predicate AllReadable(rs: seq<Record>) {
    forall i :: 0 <= i < |rs| ==> Readable(rs[i])
  }

  // A poll that brings records and no error.
  predicate Brings(p: Poll) {
    p.Records? && p.records != [] && AllReadable(p.records)
  }

  predicate AllBring(polls: seq<Poll>) {
    forall i :: 0 <= i < |polls| ==> Brings(polls[i])
  }

  function SnapshotsIn(rs: seq<Record>): seq<Snapshot>
    requires AllReadable(rs)
  {
    if rs == [] then []
    else
      var r := rs[|rs| - 1];
      SnapshotsIn(rs[..|rs| - 1]) + if r.ours then [r.value.value] else []
  }

  function Received(polls: seq<Poll>): seq<Snapshot>
    requires AllBring(polls)
  {
    if polls == [] then [] else Received(polls[..|polls| - 1]) + SnapshotsIn(polls[|polls| - 1].records)
  }

  // The first poll without a record comes after n polls with some.
  predicate FirstEmpty(polls: seq<Poll>, n: int) {
    0 <= n < |polls| && polls[n] == Records([]) && AllBring(polls[..n])
  }

  lemma NewestNext(read: seq<Snapshot>, s: Snapshot)
    ensures Newest(read + [s]) == Retain(Newest(read), s)
  {
    assert (read + [s])[..|read|] == read;
  }

  lemma ReceivedNext(read: seq<Snapshot>, rs: seq<Record>, i: nat)
    requires i < |rs| && AllReadable(rs[..i]) && Readable(rs[i])
    ensures AllReadable(rs[..i + 1])
    ensures Newest(read + SnapshotsIn(rs[..i + 1])) ==
            var found := Newest(read + SnapshotsIn(rs[..i]));
            if rs[i].ours then Retain(found, rs[i].value.value) else found
  {
    assert rs[..i + 1][..i] == rs[..i];
    var before := read + SnapshotsIn(rs[..i]);
    if rs[i].ours {
      var s := rs[i].value.value;
      NewestNext(before, s);
      assert read + SnapshotsIn(rs[..i + 1]) == before + [s];
    } else {
      assert SnapshotsIn(rs[..i + 1]) == SnapshotsIn(rs[..i]);
    }
  }

  // The records of one poll.
  method RetainAll(rs: seq<Record>, before: Option<Snapshot>, ghost read: seq<Snapshot>)
    returns (found: Option<Snapshot>, ok: bool)
    requires before == Newest(read)
    ensures ok <==> AllReadable(rs)
    ensures ok ==> found == Newest(read + SnapshotsIn(rs))
  {
    found := before;
    var i := 0;
    assert read + SnapshotsIn(rs[..0]) == read;
    while i < |rs|
      invariant 0 <= i <= |rs|
      invariant AllReadable(rs[..i])
      invariant found == Newest(read + SnapshotsIn(rs[..i]))
    {
      if !Readable(rs[i]) {
        return found, false;
      }
      ReceivedNext(read, rs, i);
      if rs[i].ours {
        found := Retain(found, rs[i].value.value);
      }
      i := i + 1;
    }
    assert rs[..i] == rs;
    return found, true;
  }

  /** Polls until one brings nothing. `polls` is what the broker has answered so far; while every
      answer brings records, the load waits for the next. */
  method LoadSnapshot(polls: seq<Poll>) returns (r: Outcome)
    ensures r.Latest? <==> exists n :: FirstEmpty(polls, n)
    ensures forall n :: FirstEmpty(polls, n) ==> r == Latest(Loaded(Received(polls[..n])))
    ensures r.Waiting? <==> AllBring(polls)
  {
    var found: Option<Snapshot> := None;
    var i := 0;
    while i < |polls|
      invariant 0 <= i <= |polls|
      invariant AllBring(polls[..i])
      invariant found == Newest(Received(polls[..i]))
    {
      OnlyHere(polls, i);
      if polls[i].Failure? {
        return Error;
      }
      if polls[i].records == [] {
        return Latest(if found.Some? then found.value else NO_SNAPSHOT);
      }
      var ok;
      found, ok := RetainAll(polls[i].records, found, Received(polls[..i]));
      if !ok {
        return Error;
      }
      assert polls[..i + 1][..i] == polls[..i];
      i := i + 1;
    }
    assert polls[..i] == polls;
    return Waiting;
  }

  lemma {:induction false} SnapshotsInHolds(rs: seq<Record>, s: Snapshot)
    requires AllReadable(rs)
    ensures s in SnapshotsIn(rs) <==> exists r {:trigger r in rs} :: r in rs && r.ours && r.value == Some(s)
    decreases |rs|
  {
    if rs != [] {
      var n := |rs| - 1;
      SnapshotsInHolds(rs[..n], s);
      assert forall r :: r in rs <==> r in rs[..n] || r == rs[n];
      assert rs[n] in rs && Readable(rs[n]);
      assert s in SnapshotsIn(rs) <==> s in SnapshotsIn(rs[..n]) || (rs[n].ours && rs[n].value == Some(s));
    }
  }

  // Poll i brought s in a record of the snapshot topic.
  predicate Brought(polls: seq<Poll>, i: int, s: Snapshot) {
    0 <= i < |polls| && polls[i].Records? && exists r {:trigger r in polls[i].records} ::
      r in polls[i].records && r.ours && r.value == Some(s)
  }

  lemma BroughtBefore(polls: seq<Poll>, n: nat, s: Snapshot)
    requires n <= |polls|
    ensures forall i {:trigger Brought(polls, i, s)} {:trigger Brought(polls[..n], i, s)} ::
              i < n ==> Brought(polls[..n], i, s) == Brought(polls, i, s)
  {}

  predicate BroughtByAny(polls: seq<Poll>, s: Snapshot) {
    exists i {:trigger Brought(polls, i, s)} :: 0 <= i < |polls| && Brought(polls, i, s)
  }

  lemma BroughtNext(polls: seq<Poll>, s: Snapshot)
    requires polls != []
    ensures BroughtByAny(polls, s) <==> BroughtByAny(polls[..|polls| - 1], s) || Brought(polls, |polls| - 1, s)
  {
    BroughtBefore(polls, |polls| - 1, s);
  }

  lemma LastBrought(polls: seq<Poll>, s: Snapshot)
    requires AllBring(polls) && polls != []
    ensures Brought(polls, |polls| - 1, s) <==> s in SnapshotsIn(polls[|polls| - 1].records)
  {
    SnapshotsInHolds(polls[|polls| - 1].records, s);
  }

  lemma {:induction false} ReceivedHolds(polls: seq<Poll>, s: Snapshot)
    requires AllBring(polls)
    ensures s in Received(polls) <==> BroughtByAny(polls, s)
    decreases |polls|
  {
    if polls != [] {
      var n := |polls| - 1;
      ReceivedHolds(polls[..n], s);
      LastBrought(polls, s);
      BroughtNext(polls, s);
    }
  }

  /** The load ends at the first poll that brings nothing, whatever partitions are still unread: it
      returns the snapshot published last exactly when one of the polls before brought that. */
  lemma EmptyPollDecides(published: seq<Snapshot>, polls: seq<Poll>, n: nat)
    requires FirstEmpty(polls, n)
    requires Increasing(published) && published != [] && published[|published| - 1].revision > 0
    requires forall s :: s in Received(polls[..n]) ==> s in published
    ensures Loaded(Received(polls[..n])) == published[|published| - 1] <==>
            exists i {:trigger Brought(polls, i, published[|published| - 1])} ::
              i < n && Brought(polls, i, published[|published| - 1])
  {
    var last := published[|published| - 1];
    LoadFindsLastExactly(published, Received(polls[..n]));
    ReceivedHolds(polls[..n], last);
    BroughtBefore(polls, n, last);
  }

  /** So a snapshot can be missed: the partition first asked brings nothing, the next poll would have
      brought the only snapshot published, and the load returns none. */
  lemma SnapshotIsMissed(s: Snapshot)
    requires s.revision > 0
    ensures var polls := [Records([]), Records([Record(true, Some(s))])];
            FirstEmpty(polls, 0) && Brought(polls, 1, s) && Loaded(Received(polls[..0])) == NO_SNAPSHOT != s
  {
    assert Record(true, Some(s)) in [Record(true, Some(s))];
  }

  // A poll that brings nothing, or fails, decides the load.
  lemma OnlyHere(polls: seq<Poll>, i: nat)
    requires i < |polls| && AllBring(polls[..i])
    ensures forall n {:trigger FirstEmpty(polls, n)} :: FirstEmpty(polls, n) ==> n >= i && (n > i ==> Brings(polls[i]))
    ensures FirstEmpty(polls, i) <==> polls[i] == Records([])
    ensures !Brings(polls[i]) ==> !AllBring(polls)
  {
    assert forall n :: 0 <= n < i ==> polls[..i][n] == polls[n];
    forall n | FirstEmpty(polls, n)
      ensures n >= i && (n > i ==> Brings(polls[i]))
    {
      if n > i {
        assert polls[..n][i] == polls[i];
      }
    }
  }
}
