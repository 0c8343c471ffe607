/** One event log, one consolidator and one hub, started and crashed at any time. The consolidator
    restores the newest stored snapshot and replays the retained log over it, publishing a snapshot
    after every event; the hub fetches a snapshot from a serving consolidator, then captures the
    log end, replays up to it and tails on. No snapshot says which offset it belongs to. */
module Bootstrap {
  import opened Wrappers
  import opened State
  import opened Snapshots
  import Convergence
  import Revisions

  // A consumer of the event log; base and from are history, held is its projection.
  datatype Reader = Reader(base: Projection, from: nat, pos: nat, held: Projection)

  datatype Consolidator =
    | Down
    | Restored(restored: Projection, base: nat, revision: int)
    | CatchingUp(reader: Reader, end: nat, revision: int)
    | Serving(reader: Reader, revision: int)

  datatype Hub =
    | Stopped
    | Fetched(fetched: Projection, taken: nat)
    | Replaying(reader: Reader, end: nat, taken: nat)
    | Live(reader: Reader)

  // A published snapshot, with the state it lists and the offset after its last event.
  datatype Stored = Stored(snapshot: Snapshot, held: Projection, pos: nat)

  datatype System = System(
    log: seq<Event>,
    start: nat,                 // events before it are no longer retained
    published: seq<Stored>,
    reached: nat,               // how far any consolidator has read
    consolidator: Consolidator,
    hub: Hub)

  datatype Action =
    | Append(e: Event)
    | Trim(to: nat)
    | LoadSnapshot(read: seq<Snapshot>, base: nat)
    | BeginCatchUp
    | Consolidate(snapshot: Snapshot)
    | BeginServing
    | ConsolidatorCrash
    | Fetch(snapshot: Snapshot)
    | BeginReplay
    | Apply
    | GoLive
    | HubCrash

  function SnapshotsOf(published: seq<Stored>): seq<Snapshot> {
    seq(|published|, i requires 0 <= i < |published| => published[i].snapshot)
  }

  function Last(published: seq<Stored>): Stored {
    if published == [] then Stored(Revisions.NO_SNAPSHOT, EMPTY, 0) else published[|published| - 1]
  }

  // eventsOffset, which stays 0 until the first record is handled.
  function Cursor(r: Reader): nat {
    if r.pos == r.from then 0 else r.pos
  }

  predicate Runs(c: Consolidator) {
    c.CatchingUp? || c.Serving?
  }

  predicate Reads(h: Hub) {
    h.Replaying? || h.Live?
  }

  // Retention does not overtake a running process.
  predicate MayTrim(s: System, to: nat) {
    && s.start <= to <= |s.log|
    && (s.consolidator.Restored? ==> to <= s.consolidator.base)
    && (Runs(s.consolidator) ==> to <= s.consolidator.reader.pos)
    && (s.hub.Fetched? ==> to <= s.hub.taken)
    && (Reads(s.hub) ==> to <= s.hub.reader.pos)
  }

  // What a load may return: the newest of the published snapshots it read, whichever these were,
  // taken at offset `base`; or, having read none, the empty state at offset 0.
  predicate Finds(s: System, read: seq<Snapshot>, base: nat) {
    && (forall x :: x in read ==> x in SnapshotsOf(s.published))
    && if read == [] then base == 0
       else exists i {:trigger s.published[i]} :: 0 <= i < |s.published| &&
              s.published[i].snapshot == Revisions.Loaded(read) && s.published[i].pos == base
  }

  predicate HasNext(s: System, r: Reader, end: Option<nat>) {
    r.pos < |s.log| && (end.Some? ==> r.pos < end.value)
  }

  function ReadOne(s: System, r: Reader): Reader
    requires r.pos < |s.log|
  {
    r.(pos := r.pos + 1, held := Step(r.held, s.log[r.pos]))
  }

  predicate MayConsolidate(s: System) {
    && Runs(s.consolidator)
    && HasNext(s, s.consolidator.reader, if s.consolidator.CatchingUp? then Some(s.consolidator.end) else None)
    && s.consolidator.revision < Revisions.MAX_REVISION
  }

  ghost predicate Enabled(s: System, a: Action) {
    match a
    case Append(e) => Accepted(e)
    case Trim(to) => MayTrim(s, to)
    case LoadSnapshot(read, base) =>
      // The log is still retained from where the snapshot was taken.
      s.consolidator.Down? && Finds(s, read, base) && s.start <= base
    case BeginCatchUp => s.consolidator.Restored?
    case Consolidate(snapshot) =>
      && MayConsolidate(s)
      && Canonical(ReadOne(s, s.consolidator.reader).held, Revisions.Next(s.consolidator.revision), snapshot)
    case BeginServing => s.consolidator.CatchingUp? && Cursor(s.consolidator.reader) >= s.consolidator.end
    case ConsolidatorCrash => true
    case Fetch(snapshot) =>
      && s.hub.Stopped? && s.consolidator.Serving?
      && Canonical(s.consolidator.reader.held, s.consolidator.revision, snapshot)
    case BeginReplay => s.hub.Fetched?
    case Apply => Reads(s.hub) && HasNext(s, s.hub.reader, if s.hub.Replaying? then Some(s.hub.end) else None)
    case GoLive => s.hub.Replaying? && Cursor(s.hub.reader) >= s.hub.end
    case HubCrash => true
  }

  function Consolidated(s: System, snapshot: Snapshot): System
    requires MayConsolidate(s)
  {
    var c := s.consolidator;
    var r := ReadOne(s, c.reader);
    s.(consolidator := c.(reader := r, revision := Revisions.Next(c.revision)),
       published := s.published + [Stored(snapshot, r.held, r.pos)],
       reached := if r.pos > s.reached then r.pos else s.reached)
  }

  ghost function Do(s: System, a: Action): System
    requires Enabled(s, a)
  {
    match a
    case Append(e) => s.(log := s.log + [e])
    case Trim(to) => s.(start := to)
    case LoadSnapshot(read, base) =>
      var loaded := Revisions.Loaded(read);
      s.(consolidator := Restored(Fold(LoadEvents(loaded), EMPTY), base, loaded.revision))
    case BeginCatchUp =>
      var held := s.consolidator.restored;
      s.(consolidator := CatchingUp(Reader(held, s.start, s.start, held), |s.log|, s.consolidator.revision))
    case Consolidate(snapshot) => Consolidated(s, snapshot)
    case BeginServing => s.(consolidator := Serving(s.consolidator.reader, s.consolidator.revision))
    case ConsolidatorCrash => s.(consolidator := Down)
    case Fetch(snapshot) => s.(hub := Fetched(Fold(LoadEvents(snapshot), EMPTY), s.consolidator.reader.pos))
    case BeginReplay =>
      var held := s.hub.fetched;
      s.(hub := Replaying(Reader(held, s.start, s.start, held), |s.log|, s.hub.taken))
    case Apply => s.(hub := s.hub.(reader := ReadOne(s, s.hub.reader)))
    case GoLive => s.(hub := Live(s.hub.reader))
    case HubCrash => s.(hub := Stopped)
  }

  // ---- What a snapshot is good for ----

  // A replay from j over p is the state of the first n events once it gets there.
  predicate Covers(log: seq<Event>, j: nat, p: Projection, n: nat) {
    j <= n <= |log| && Fold(log[j..n], p) == Fold(log[..n], EMPTY)
  }

  ghost predicate CoversFrom(log: seq<Event>, start: nat, pos: nat, p: Projection, n: nat) {
    pos <= n <= |log| && forall j {:trigger Covers(log, j, p, n)} :: start <= j <= pos ==> Covers(log, j, p, n)
  }

  lemma CoversLater(log: seq<Event>, j: nat, p: Projection, n: nat, m: nat)
    requires Covers(log, j, p, n) && n <= m <= |log|
    ensures Covers(log, j, p, m)
  {
    FoldConcat(log[j..n], log[n..m], p);
    FoldConcat(log[..n], log[n..m], EMPTY);
    assert log[j..n] + log[n..m] == log[j..m] && log[..n] + log[n..m] == log[..m];
  }

  lemma CoversGrows(log: seq<Event>, e: Event, j: nat, p: Projection, n: nat)
    requires Covers(log, j, p, n)
    ensures Covers(log + [e], j, p, n)
  {
    assert (log + [e])[j..n] == log[j..n] && (log + [e])[..n] == log[..n];
  }

  lemma CoversFromGrows(log: seq<Event>, e: Event, start: nat, pos: nat, p: Projection, n: nat)
    requires CoversFrom(log, start, pos, p, n)
    ensures CoversFrom(log + [e], start, pos, p, n)
  {
    forall j: nat | start <= j <= pos
      ensures Covers(log + [e], j, p, n)
    {
      CoversGrows(log, e, j, p, n);
    }
  }

  // A consumer that began at a good base is at any moment a good base itself, for any restart
  // from where it began or later: replaying its events again changes nothing.
  lemma CoversAgain(log: seq<Event>, r: Reader, start: nat, n: nat)
    requires r.from <= start <= r.pos <= n
    requires Covers(log, r.from, r.base, n)
    requires r.held == Fold(log[r.from..r.pos], r.base)
    ensures CoversFrom(log, start, r.pos, r.held, n)
  {
    forall j: nat | start <= j <= r.pos
      ensures Covers(log, j, r.held, n)
    {
      CoversAgainFrom(log, r, j, n);
    }
  }

  lemma CoversAgainFrom(log: seq<Event>, r: Reader, j: nat, n: nat)
    requires r.from <= j <= r.pos <= n
    requires Covers(log, r.from, r.base, n)
    requires r.held == Fold(log[r.from..r.pos], r.base)
    ensures Covers(log, j, r.held, n)
  {
    var a, b, c := log[r.from..j], log[j..r.pos], log[r.pos..n];
    assert log[r.from..r.pos] == a + b && log[j..n] == b + c && log[r.from..n] == a + b + c;
    FoldConcat(a, b, r.base);
    FoldConcat(b, c, r.held);
    FoldConcat(a + b, c, r.base);
    Convergence.ReplayIsIdempotent(b, Fold(a, r.base));
  }

  lemma CoversSelf(log: seq<Event>, start: nat, pos: nat)
    requires pos <= |log|
    ensures CoversFrom(log, start, pos, Fold(log[..pos], EMPTY), pos)
  {
    forall j: nat | start <= j <= pos
      ensures Covers(log, j, Fold(log[..pos], EMPTY), pos)
    {
      assert log[..pos][j..] == log[j..pos] && log[..pos][..pos] == log[..pos];
      Convergence.RetainedSuffix(log[..pos], j, pos);
    }
  }

  // ---- The invariant ----

  predicate ReaderOk(log: seq<Event>, start: nat, r: Reader) {
    && r.from <= start <= r.pos <= |log|
    && r.held == Fold(log[r.from..r.pos], r.base)
    && WellFormed(r.held)
  }

  predicate UpTo(log: seq<Event>, p: Projection, pos: nat) {
    pos <= |log| && p == Fold(log[..pos], EMPTY)
  }

  // A published snapshot is a good base for any replay from where it was taken or before.
  ghost predicate StoredOk(log: seq<Event>, start: nat, reached: nat, x: Stored) {
    && WellFormed(x.held) && Canonical(x.held, x.snapshot.revision, x.snapshot)
    && 0 <= x.snapshot.revision <= Revisions.MAX_REVISION
    && CoversFrom(log, start, x.pos, x.held, reached)
  }

  ghost predicate PublishedOk(s: System) {
    && s.start <= |s.log| && s.reached <= |s.log|
    && forall i {:trigger s.published[i]} :: 0 <= i < |s.published| ==>
         StoredOk(s.log, s.start, s.reached, s.published[i])
  }

  ghost predicate ConsolidatorOk(s: System) {
    match s.consolidator
    case Down => true
    case Restored(held, base, revision) =>
      && s.start <= base && CoversFrom(s.log, s.start, base, held, s.reached) && WellFormed(held)
      && 0 <= revision <= Revisions.MAX_REVISION
    case CatchingUp(r, end, revision) =>
      && ReaderOk(s.log, s.start, r) && Covers(s.log, r.from, r.base, s.reached)
      && r.pos <= s.reached <= end <= |s.log| && 0 <= revision <= Revisions.MAX_REVISION
    case Serving(r, revision) =>
      && ReaderOk(s.log, s.start, r) && Covers(s.log, r.from, r.base, s.reached)
      && r.pos == s.reached && 0 <= revision <= Revisions.MAX_REVISION
  }

  predicate HubOk(s: System) {
    match s.hub
    case Stopped => true
    case Fetched(held, taken) => s.start <= taken && UpTo(s.log, held, taken) && WellFormed(held)
    case Replaying(r, end, taken) =>
      ReaderOk(s.log, s.start, r) && r.from <= taken <= end <= |s.log| && r.pos <= end && UpTo(s.log, r.base, taken)
    case Live(r) => s.start <= r.pos && UpTo(s.log, r.held, r.pos) && WellFormed(r.held)
  }

  ghost predicate Inv(s: System) {
    PublishedOk(s) && ConsolidatorOk(s) && HubOk(s)
  }

  lemma ReadOneOk(s: System, r: Reader)
    requires ReaderOk(s.log, s.start, r) && r.pos < |s.log|
    ensures ReaderOk(s.log, s.start, ReadOne(s, r))
  {
    FoldNext(s.log[r.from..r.pos], s.log[r.pos], r.base);
    assert s.log[r.from..r.pos] + [s.log[r.pos]] == s.log[r.from..r.pos + 1];
    StepWellFormed(r.held, s.log[r.pos]);
  }

  lemma UpToNext(s: System, r: Reader)
    requires r.pos < |s.log| && UpTo(s.log, r.held, r.pos)
    ensures UpTo(s.log, ReadOne(s, r).held, r.pos + 1)
  {
    FoldNext(s.log[..r.pos], s.log[r.pos], EMPTY);
    assert s.log[..r.pos] + [s.log[r.pos]] == s.log[..r.pos + 1];
  }

  lemma ReaderOkGrows(log: seq<Event>, e: Event, start: nat, r: Reader)
    requires ReaderOk(log, start, r)
    ensures ReaderOk(log + [e], start, r)
  {
    assert (log + [e])[r.from..r.pos] == log[r.from..r.pos];
  }

  lemma UpToGrows(log: seq<Event>, e: Event, p: Projection, pos: nat)
    requires UpTo(log, p, pos)
    ensures UpTo(log + [e], p, pos)
  {
    assert (log + [e])[..pos] == log[..pos];
  }

  lemma StoredGrows(log: seq<Event>, e: Event, start: nat, reached: nat, x: Stored)
    requires StoredOk(log, start, reached, x)
    ensures StoredOk(log + [e], start, reached, x)
  {
    CoversFromGrows(log, e, start, x.pos, x.held, reached);
  }

  lemma AppendInv(s: System, e: Event)
    requires Inv(s) && Enabled(s, Append(e))
    ensures Inv(Do(s, Append(e)))
  {
    if s.consolidator.Restored? {
      CoversFromGrows(s.log, e, s.start, s.consolidator.base, s.consolidator.restored, s.reached);
    }
    if Runs(s.consolidator) {
      var r := s.consolidator.reader;
      ReaderOkGrows(s.log, e, s.start, r);
      CoversGrows(s.log, e, r.from, r.base, s.reached);
    }
    match s.hub {
      case Stopped =>
      case Fetched(held, taken) => UpToGrows(s.log, e, held, taken);
      case Replaying(r, _, taken) =>
        ReaderOkGrows(s.log, e, s.start, r);
        UpToGrows(s.log, e, r.base, taken);
      case Live(r) => UpToGrows(s.log, e, r.held, r.pos);
    }
    forall i | 0 <= i < |s.published|
      ensures StoredOk(s.log + [e], s.start, s.reached, s.published[i])
    {
      StoredGrows(s.log, e, s.start, s.reached, s.published[i]);
    }
  }

  lemma TrimInv(s: System, to: nat)
    requires Inv(s) && MayTrim(s, to)
    ensures Inv(s.(start := to))
  {
    forall i | 0 <= i < |s.published|
      ensures StoredOk(s.log, to, s.reached, s.published[i])
    {}
  }

  lemma LoadInv(s: System, read: seq<Snapshot>, base: nat)
    requires Inv(s) && Enabled(s, LoadSnapshot(read, base))
    ensures Inv(Do(s, LoadSnapshot(read, base)))
  {
    if read == [] {
      LoadRebuilds(EMPTY, Revisions.NO_SNAPSHOT);
      forall j: nat | s.start <= j <= 0
        ensures Covers(s.log, j, EMPTY, s.reached)
      {
        assert s.log[0..s.reached] == s.log[..s.reached];
      }
    } else {
      var i :| 0 <= i < |s.published| &&
               s.published[i].snapshot == Revisions.Loaded(read) && s.published[i].pos == base;
      StoredLoads(s, s.published[i]);
    }
  }

  lemma StoredLoads(s: System, x: Stored)
    requires StoredOk(s.log, s.start, s.reached, x)
    ensures Fold(LoadEvents(x.snapshot), EMPTY) == x.held
  {
    LoadRebuilds(x.held, x.snapshot);
  }

  lemma BeginCatchUpInv(s: System)
    requires Inv(s) && s.consolidator.Restored?
    ensures Inv(Do(s, BeginCatchUp))
  {
    assert Covers(s.log, s.start, s.consolidator.restored, s.reached);
    assert s.log[s.start..s.start] == [];
  }

  lemma ConsolidateReads(s: System, snapshot: Snapshot)
    requires Inv(s) && Enabled(s, Consolidate(snapshot))
    ensures var s' := Consolidated(s, snapshot);
            var r := s'.consolidator.reader;
            && ReaderOk(s.log, s.start, r) && Covers(s.log, r.from, r.base, s'.reached)
            && r.pos <= s'.reached && CoversFrom(s.log, s.start, r.pos, r.held, s'.reached)
  {
    var s' := Consolidated(s, snapshot);
    var r := s.consolidator.reader;
    ReadOneOk(s, r);
    CoversLater(s.log, r.from, r.base, s.reached, s'.reached);
    CoversAgain(s.log, s'.consolidator.reader, s.start, s'.reached);
  }

  lemma {:induction false} ConsolidateInv(s: System, snapshot: Snapshot)
    requires Inv(s) && Enabled(s, Consolidate(snapshot))
    ensures Inv(Do(s, Consolidate(snapshot)))
  {
    var s' := Do(s, Consolidate(snapshot));
    ConsolidateReads(s, snapshot);
    forall i | 0 <= i < |s'.published|
      ensures StoredOk(s.log, s.start, s'.reached, s'.published[i])
    {
      if i < |s.published| {
        StoredLater(s.log, s.start, s.reached, s.published[i], s'.reached);
      }
    }
  }

  lemma StoredLater(log: seq<Event>, start: nat, n: nat, x: Stored, m: nat)
    requires StoredOk(log, start, n, x) && n <= m <= |log|
    ensures StoredOk(log, start, m, x)
  {
    forall j: nat | start <= j <= x.pos
      ensures Covers(log, j, x.held, m)
    {
      CoversLater(log, j, x.held, n, m);
    }
  }

  // Its end is beyond whatever was read before, so the replay has caught up with the log.
  lemma CaughtUp(s: System)
    requires ConsolidatorOk(s) && s.consolidator.CatchingUp?
    requires Cursor(s.consolidator.reader) >= s.consolidator.end
    ensures s.consolidator.reader.pos == s.reached == s.consolidator.end
  {}

  lemma ServingHolds(s: System)
    requires ConsolidatorOk(s) && s.consolidator.Serving?
    ensures UpTo(s.log, s.consolidator.reader.held, s.consolidator.reader.pos)
  {}

  lemma FetchInv(s: System, snapshot: Snapshot)
    requires Inv(s) && Enabled(s, Fetch(snapshot))
    ensures Inv(Do(s, Fetch(snapshot)))
    ensures Do(s, Fetch(snapshot)).hub.fetched == s.consolidator.reader.held
  {
    ServingHolds(s);
    LoadRebuilds(s.consolidator.reader.held, snapshot);
  }

  lemma BeginReplayInv(s: System)
    requires Inv(s) && s.hub.Fetched?
    ensures Inv(Do(s, BeginReplay))
  {
    assert s.log[s.start..s.start] == [];
  }

  lemma ApplyInv(s: System)
    requires Inv(s) && Enabled(s, Apply)
    ensures Inv(Do(s, Apply))
  {
    var r := s.hub.reader;
    if s.hub.Replaying? {
      ReadOneOk(s, r);
    } else {
      UpToNext(s, r);
      StepWellFormed(r.held, s.log[r.pos]);
    }
  }

  lemma GoLiveInv(s: System)
    requires Inv(s) && Enabled(s, GoLive)
    ensures Inv(Do(s, GoLive))
    ensures s.hub.reader.pos == s.hub.end && UpTo(s.log, s.hub.reader.held, s.hub.end)
  {
    var r := s.hub.reader;
    CoversSelf(s.log, r.from, s.hub.taken);
    assert Covers(s.log, r.from, r.base, s.hub.taken);
    CoversLater(s.log, r.from, r.base, s.hub.taken, s.hub.end);
  }

  lemma DoInv(s: System)
    requires Inv(s)
    ensures forall a {:trigger Enabled(s, a)} :: Enabled(s, a) ==> Inv(Do(s, a))
  {
    forall a | Enabled(s, a)
      ensures Inv(Do(s, a))
    {
      match a {
        case Append(e) => AppendInv(s, e);
        case Trim(to) => TrimInv(s, to);
        case LoadSnapshot(read, base) => LoadInv(s, read, base);
        case BeginCatchUp => BeginCatchUpInv(s);
        case Consolidate(snapshot) => ConsolidateInv(s, snapshot);
        case BeginServing => CaughtUp(s);
        case ConsolidatorCrash =>
        case Fetch(snapshot) => FetchInv(s, snapshot);
        case BeginReplay => BeginReplayInv(s);
        case Apply => ApplyInv(s);
        case GoLive => GoLiveInv(s);
        case HubCrash =>
      }
    }
  }

  // ---- Runs ----

  predicate Init(s: System) {
    s == System([], 0, [], 0, Down, Stopped)
  }

  ghost predicate IsRun(trace: seq<System>, actions: seq<Action>) {
    && |trace| == |actions| + 1 && Init(trace[0])
    && forall n {:trigger actions[n]} :: 0 <= n < |actions| ==>
         Enabled(trace[n], actions[n]) && trace[n + 1] == Do(trace[n], actions[n])
  }

  lemma InitInv(s: System)
    requires Init(s)
    ensures Inv(s)
  {
    assert s.log[..0] == [] && s.log[0..0] == [];
  }

  lemma {:induction false} RunInv(trace: seq<System>, actions: seq<Action>, n: nat)
    requires IsRun(trace, actions) && n < |trace|
    ensures forall i {:trigger trace[i]} :: 0 <= i <= n ==> Inv(trace[i])
    decreases n
  {
    if n == 0 {
      InitInv(trace[0]);
    } else {
      RunInv(trace, actions, n - 1);
      DoInv(trace[n - 1]);
      assert Enabled(trace[n - 1], actions[n - 1]);
    }
  }

  /** Bootstrap of a hub. When its replay ends it stands exactly at the captured end, and from then
      on, after every tailed event, its projection is the fold of the log up to its position. */
  lemma HubFollowsLog(trace: seq<System>, actions: seq<Action>, n: nat)
    requires IsRun(trace, actions) && n < |trace|
    ensures trace[n].hub.Live? ==> UpTo(trace[n].log, trace[n].hub.reader.held, trace[n].hub.reader.pos)
    ensures n < |actions| && actions[n].GoLive? ==>
              && UpTo(trace[n].log, trace[n].hub.reader.held, trace[n].hub.end)
              && trace[n].hub.reader.pos == trace[n].hub.end
  {
    RunInv(trace, actions, n);
    if n < |actions| && actions[n].GoLive? {
      GoLiveInv(trace[n]);
    }
  }

  /** Crash recovery in the running system: a serving consolidator holds the fold of the log up to
      its position, which is as far as any of its predecessors got, or further. */
  lemma ConsolidatorFollowsLog(trace: seq<System>, actions: seq<Action>, n: nat)
    requires IsRun(trace, actions) && n < |trace|
    ensures trace[n].consolidator.Serving? ==>
              && UpTo(trace[n].log, trace[n].consolidator.reader.held, trace[n].consolidator.reader.pos)
              && trace[n].consolidator.reader.pos == trace[n].reached
  {
    RunInv(trace, actions, n);
  }

  // ---- Revisions ----

  ghost predicate RevisionsOk(s: System) {
    var last := Last(s.published).snapshot.revision;
    && Revisions.Increasing(SnapshotsOf(s.published)) && 0 <= last
    && (s.published != [] ==> last > 0)
    && (!s.consolidator.Down? ==> s.consolidator.revision == last)
  }

  // A load that has read the last published snapshot, among whatever else.
  predicate ReadsLast(s: System, a: Action) {
    a.LoadSnapshot? && s.published != [] ==> Last(s.published).snapshot in a.read
  }

  lemma PublishIncreases(published: seq<Stored>, next: Stored)
    requires Revisions.Increasing(SnapshotsOf(published))
    requires 0 <= Last(published).snapshot.revision < next.snapshot.revision
    ensures Revisions.Increasing(SnapshotsOf(published + [next]))
  {
    var all := SnapshotsOf(published);
    assert SnapshotsOf(published + [next]) == all + [next.snapshot];
    assert published != [] ==> all[|all| - 1] == Last(published).snapshot;
  }

  lemma RevisionsAfterLoad(s: System, read: seq<Snapshot>, base: nat)
    requires RevisionsOk(s) && Finds(s, read, base) && (s.published != [] ==> Last(s.published).snapshot in read)
    ensures Revisions.Loaded(read).revision == Last(s.published).snapshot.revision
  {
    LastOf(s.published);
    Revisions.LoadReturnsLast(SnapshotsOf(s.published), read);
  }

  lemma RevisionsAfter(s: System, a: Action)
    requires RevisionsOk(s) && Enabled(s, a) && ReadsLast(s, a)
    ensures RevisionsOk(Do(s, a))
  {
    if a.LoadSnapshot? {
      RevisionsAfterLoad(s, a.read, a.base);
    }
    if a.Consolidate? {
      var r := ReadOne(s, s.consolidator.reader);
      PublishIncreases(s.published, Stored(a.snapshot, r.held, r.pos));
    }
  }

  lemma LastOf(published: seq<Stored>)
    ensures var all := SnapshotsOf(published);
            |all| == |published| && (all != [] ==> all[|all| - 1] == Last(published).snapshot)
  {}

  lemma {:induction false} RunRevisions(trace: seq<System>, actions: seq<Action>, n: nat)
    requires IsRun(trace, actions) && n < |trace|
    requires forall i {:trigger actions[i]} :: 0 <= i < n ==> ReadsLast(trace[i], actions[i])
    ensures forall i {:trigger trace[i]} :: 0 <= i <= n ==> RevisionsOk(trace[i])
    decreases n
  {
    if n > 0 {
      RunRevisions(trace, actions, n - 1);
      RevisionsAfter(trace[n - 1], actions[n - 1]);
    }
  }

  /** As long as every load has read the last published snapshot, revisions strictly increase over
      events, crashes and restarts; and the next load returns that snapshot, and its state, exactly
      when it reads it too. */
  lemma LoadsTheLastPublished(trace: seq<System>, actions: seq<Action>, n: nat, read: seq<Snapshot>)
    requires IsRun(trace, actions) && n < |trace| && trace[n].published != []
    requires forall i {:trigger actions[i]} :: 0 <= i < n ==> ReadsLast(trace[i], actions[i])
    requires forall x :: x in read ==> x in SnapshotsOf(trace[n].published)
    ensures Revisions.Increasing(SnapshotsOf(trace[n].published))
    ensures Revisions.Loaded(read) == Last(trace[n].published).snapshot <==> Last(trace[n].published).snapshot in read
    ensures Last(trace[n].published).snapshot in read ==>
              Fold(LoadEvents(Revisions.Loaded(read)), EMPTY) == Last(trace[n].published).held
  {
    var s := trace[n];
    RunInv(trace, actions, n);
    RunRevisions(trace, actions, n);
    LastOf(s.published);
    Revisions.LoadFindsLastExactly(SnapshotsOf(s.published), read);
    StoredLoads(s, s.published[|s.published| - 1]);
  }
}
