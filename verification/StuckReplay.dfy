/** Which replays end, the consolidator's and a hub's: all but those that begin when retention has
    removed the whole of a log whose end is above 0. There the cursor stays 0 for good. */
module StuckReplay {
  import opened Wrappers
  import opened State
  import opened Snapshots
  import opened Bootstrap
  import Revisions

  // A cursor still below the end, and no record below the end left to move it.
  predicate Stuck(s: System) {
    && s.consolidator.CatchingUp?
    && Cursor(s.consolidator.reader) < s.consolidator.end <= s.consolidator.reader.pos
  }

  /** A consolidator starts a replay it cannot finish exactly when retention has removed the whole of
      a log that was not empty. */
  lemma StuckExactly(s: System)
    requires Inv(s) && s.consolidator.Restored?
    ensures Stuck(Do(s, BeginCatchUp)) <==> s.start == |s.log| > 0
  {}

  lemma StuckStays(s: System, a: Action)
    requires Stuck(s) && Enabled(s, a) && !a.ConsolidatorCrash?
    ensures !a.BeginServing? && Stuck(Do(s, a))
  {}

  /** It never serves, whatever is appended later, until it is stopped. */
  lemma {:induction false} StuckForGood(trace: seq<System>, actions: seq<Action>, m: nat, n: nat)
    requires IsRun(trace, actions) && m <= n < |trace| && Stuck(trace[m])
    requires forall i {:trigger actions[i]} :: m <= i < n ==> !actions[i].ConsolidatorCrash?
    ensures forall i {:trigger trace[i]} :: m <= i <= n ==> Stuck(trace[i])
    ensures forall i {:trigger actions[i]} :: m <= i < n ==> !actions[i].BeginServing?
    decreases n
  {
    if n > m {
      StuckForGood(trace, actions, m, n - 1);
      StuckStays(trace[n - 1], actions[n - 1]);
    }
  }

  // The same for a hub.
  predicate HubStuck(s: System) {
    s.hub.Replaying? && Cursor(s.hub.reader) < s.hub.end <= s.hub.reader.pos
  }

  /** A hub starts a replay it cannot finish in exactly the same case, whatever its snapshot held. */
  lemma HubStuckExactly(s: System)
    requires Inv(s) && s.hub.Fetched?
    ensures HubStuck(Do(s, BeginReplay)) <==> s.start == |s.log| > 0
  {}

  lemma HubStuckStays(s: System, a: Action)
    requires HubStuck(s) && Enabled(s, a) && !a.HubCrash?
    ensures !a.GoLive? && HubStuck(Do(s, a))
  {}

  /** It never goes live, whatever is appended later, until it is stopped. */
  lemma {:induction false} HubStuckForGood(trace: seq<System>, actions: seq<Action>, m: nat, n: nat)
    requires IsRun(trace, actions) && m <= n < |trace| && HubStuck(trace[m])
    requires forall i {:trigger actions[i]} :: m <= i < n ==> !actions[i].HubCrash?
    ensures forall i {:trigger trace[i]} :: m <= i <= n ==> HubStuck(trace[i])
    ensures forall i {:trigger actions[i]} :: m <= i < n ==> !actions[i].GoLive?
    decreases n
  {
    if n > m {
      HubStuckForGood(trace, actions, m, n - 1);
      HubStuckStays(trace[n - 1], actions[n - 1]);
    }
  }

  // ---- Any other replay ends ----

  ghost predicate Path(s: System, actions: seq<Action>, last: System)
    decreases |actions|
  {
    if actions == [] then s == last
    else Enabled(s, actions[0]) && Path(Do(s, actions[0]), actions[1..], last)
  }

  lemma PathFurther(s: System, a: Action, actions: seq<Action>, last: System)
    requires Enabled(s, a) && Path(Do(s, a), actions, last)
    ensures Path(s, [a] + actions, last)
  {
    assert ([a] + actions)[1..] == actions;
  }

  // The replaying consolidator serves by its own steps: the n events up to its end consolidated, and
  // the end of it.
  ghost predicate Serves(s: System, actions: seq<Action>, last: System, n: nat)
    requires s.consolidator.CatchingUp?
  {
    && Path(s, actions, last) && |actions| == n + 1 && actions[n].BeginServing?
    && (forall i {:trigger actions[i]} :: 0 <= i < n ==> actions[i].Consolidate?)
    && last.consolidator.Serving? && last.consolidator.reader.pos == s.consolidator.end
  }

  ghost predicate ServesAfter(s: System, n: int)
    requires s.consolidator.CatchingUp?
  {
    0 <= n && exists actions, last {:trigger Serves(s, actions, last, n)} :: Serves(s, actions, last, n)
  }

  // The replay has one more event to read, or is done.
  lemma ReplayGoesOn(s: System)
    requires Inv(s) && s.consolidator.CatchingUp? && !Stuck(s)
    ensures var c := s.consolidator;
            if c.reader.pos < c.end then MayConsolidate(s) || c.revision == Revisions.MAX_REVISION
            else Enabled(s, BeginServing) && c.reader.pos == c.end
  {}

  // The step reads one event more, and changes nothing else that matters here.
  ghost predicate ReadsOne(s: System, a: Action) {
    && Runs(s.consolidator) && a.Consolidate? && Enabled(s, a) && Inv(Do(s, a)) && !Stuck(Do(s, a))
    && Do(s, a).log == s.log
    && var c, c' := s.consolidator, Do(s, a).consolidator;
       && c'.CatchingUp? == c.CatchingUp? && c'.Serving? == c.Serving? && (c.CatchingUp? ==> c'.end == c.end)
       && c'.reader.pos == c.reader.pos + 1 && c'.revision == c.revision + 1
  }

  lemma ConsolidateOne(s: System)
    requires Inv(s) && MayConsolidate(s)
    ensures exists a {:trigger ReadsOne(s, a)} :: ReadsOne(s, a)
  {
    var c := s.consolidator;
    StepWellFormed(c.reader.held, s.log[c.reader.pos]);
    CanonicalExists(ReadOne(s, c.reader).held, Revisions.Next(c.revision));
    var snapshot :| Canonical(ReadOne(s, c.reader).held, Revisions.Next(c.revision), snapshot);
    DoInv(s);
    assert Enabled(s, Consolidate(snapshot));
    assert ReadsOne(s, Consolidate(snapshot));
  }

  lemma ServesOneMore(s: System, a: Action, next: System, n: nat)
    requires s.consolidator.CatchingUp? && LeavesLess(s, a, next, n) && ServesAfter(next, n)
    ensures ServesAfter(s, n + 1)
  {
    var actions, last :| Serves(next, actions, last, n);
    PathFurther(s, a, actions, last);
    assert Serves(s, [a] + actions, last, n + 1);
  }

  // n events are left to read, and revisions enough for them.
  ghost predicate Left(s: System, n: nat) {
    && Inv(s) && s.consolidator.CatchingUp? && !Stuck(s)
    && s.consolidator.end - s.consolidator.reader.pos == n && s.consolidator.revision + n <= Revisions.MAX_REVISION
  }

  ghost predicate LeavesLess(s: System, a: Action, next: System, n: nat) {
    ReadsOne(s, a) && next == Do(s, a) && Left(next, n)
  }

  lemma OneLess(s: System, n: nat)
    requires Left(s, n + 1)
    ensures exists a, next {:trigger LeavesLess(s, a, next, n)} :: LeavesLess(s, a, next, n)
  {
    ReplayGoesOn(s);
    ConsolidateOne(s);
    var a :| ReadsOne(s, a);
    assert LeavesLess(s, a, Do(s, a), n);
  }

  lemma ServesAtOnce(s: System)
    requires Left(s, 0)
    ensures ServesAfter(s, 0)
  {
    ReplayGoesOn(s);
    assert Serves(s, [BeginServing], Do(s, BeginServing), 0);
  }

  lemma {:induction false} ServesAfterAll(s: System, n: nat)
    requires Left(s, n)
    ensures ServesAfter(s, n)
    decreases n
  {
    if n > 0 {
      OneLess(s, n - 1);
      var a, next :| LeavesLess(s, a, next, n - 1);
      ServesAfterAll(next, n - 1);
      ServesOneMore(s, a, next, n - 1);
    } else {
      ServesAtOnce(s);
    }
  }

  /** From any moment of a replay that is not stuck, the consolidator serves after reading each event
      below the captured end once; none, where the log is empty. */
  lemma ReplayEnds(s: System)
    requires Inv(s) && s.consolidator.CatchingUp? && !Stuck(s)
    requires s.consolidator.revision + s.consolidator.end - s.consolidator.reader.pos <= Revisions.MAX_REVISION
    ensures ServesAfter(s, s.consolidator.end - s.consolidator.reader.pos)
  {
    ReplayGoesOn(s);
    ServesAfterAll(s, s.consolidator.end - s.consolidator.reader.pos);
  }

  // A hub reads without publishing, so nothing bounds it.
  ghost predicate GoesLive(s: System, actions: seq<Action>, last: System, n: nat)
    requires s.hub.Replaying?
  {
    && Path(s, actions, last) && |actions| == n + 1 && actions[n].GoLive?
    && (forall i {:trigger actions[i]} :: 0 <= i < n ==> actions[i].Apply?)
    && last.hub.Live? && last.hub.reader.pos == s.hub.end
  }

  ghost predicate LiveAfter(s: System, n: int)
    requires s.hub.Replaying?
  {
    0 <= n && exists actions, last {:trigger GoesLive(s, actions, last, n)} :: GoesLive(s, actions, last, n)
  }

  lemma HubGoesOn(s: System)
    requires Inv(s) && s.hub.Replaying? && !HubStuck(s)
    ensures if s.hub.reader.pos < s.hub.end then Enabled(s, Apply)
            else Enabled(s, GoLive) && s.hub.reader.pos == s.hub.end
    ensures s.hub.reader.pos < s.hub.end ==> !HubStuck(Do(s, Apply))
  {}

  lemma LiveOneMore(s: System, n: nat)
    requires s.hub.Replaying? && Enabled(s, Apply) && LiveAfter(Do(s, Apply), n)
    ensures LiveAfter(s, n + 1)
  {
    var actions, last :| GoesLive(Do(s, Apply), actions, last, n);
    PathFurther(s, Apply, actions, last);
    assert GoesLive(s, [Apply] + actions, last, n + 1);
  }

  /** The same for a hub: from any moment of a replay that is not stuck it goes live, after reading
      each event below the captured end once. */
  lemma {:induction false} HubReplayEnds(s: System)
    requires Inv(s) && s.hub.Replaying? && !HubStuck(s)
    ensures LiveAfter(s, s.hub.end - s.hub.reader.pos)
    decreases s.hub.end - s.hub.reader.pos
  {
    var n := s.hub.end - s.hub.reader.pos;
    HubGoesOn(s);
    if s.hub.reader.pos < s.hub.end {
      DoInv(s);
      HubReplayEnds(Do(s, Apply));
      LiveOneMore(s, n - 1);
    } else {
      assert GoesLive(s, [GoLive], Do(s, GoLive), 0);
    }
  }

  predicate NoCrash(actions: seq<Action>) {
    forall i {:trigger actions[i]} :: 0 <= i < |actions| ==> !actions[i].ConsolidatorCrash? && !actions[i].HubCrash?
  }

  lemma {:induction false} StuckPath(s: System, actions: seq<Action>, last: System)
    requires Path(s, actions, last) && NoCrash(actions)
    ensures Stuck(s) ==> last.consolidator.CatchingUp?
    ensures HubStuck(s) ==> last.hub.Replaying?
    decreases |actions|
  {
    if actions != [] {
      var a := actions[0];
      if Stuck(s) {
        StuckStays(s, a);
      }
      if HubStuck(s) {
        HubStuckStays(s, a);
      }
      StuckPath(Do(s, a), actions[1..], last);
    }
  }

  // The consolidator can serve, or the hub go live, without a crash on the way.
  ghost predicate CanServe(s: System) {
    exists actions, last {:trigger Path(s, actions, last)} ::
      Path(s, actions, last) && NoCrash(actions) && last.consolidator.Serving?
  }

  ghost predicate CanGoLive(s: System) {
    exists actions, last {:trigger Path(s, actions, last)} ::
      Path(s, actions, last) && NoCrash(actions) && last.hub.Live?
  }

  /** Startup, exactly: a consolidator that has restored its state gets to serve if and only if the log
      is empty from the start or some record of it is still retained. */
  lemma StartFinishesExactly(s: System)
    requires Inv(s) && s.consolidator.Restored?
    requires s.consolidator.revision + |s.log| - s.start <= Revisions.MAX_REVISION
    ensures CanServe(Do(s, BeginCatchUp)) <==> s.log == [] || s.start < |s.log|
  {
    var begun := Do(s, BeginCatchUp);
    StuckExactly(s);
    BeginCatchUpInv(s);
    if Stuck(begun) {
      forall actions, last | Path(begun, actions, last) && NoCrash(actions)
        ensures !last.consolidator.Serving?
      {
        StuckPath(begun, actions, last);
      }
    } else {
      ReplayEnds(begun);
      var actions, last :| Serves(begun, actions, last, |s.log| - s.start);
      assert Path(begun, actions, last);
    }
  }

  /** And a hub that has fetched its snapshot gets to go live in exactly the same cases. */
  lemma HubStartFinishesExactly(s: System)
    requires Inv(s) && s.hub.Fetched?
    ensures CanGoLive(Do(s, BeginReplay)) <==> s.log == [] || s.start < |s.log|
  {
    var begun := Do(s, BeginReplay);
    HubStuckExactly(s);
    BeginReplayInv(s);
    if HubStuck(begun) {
      forall actions, last | Path(begun, actions, last) && NoCrash(actions)
        ensures !last.hub.Live?
      {
        StuckPath(begun, actions, last);
      }
    } else {
      HubReplayEnds(begun);
      var actions, last :| GoesLive(begun, actions, last, |s.log| - s.start);
      assert Path(begun, actions, last);
    }
  }

  // By the hub's own steps to a state that holds the whole of the log as it is.
  ghost predicate HubTails(s: System, actions: seq<Action>, last: System) {
    && Path(s, actions, last) && (forall i {:trigger actions[i]} :: 0 <= i < |actions| ==> actions[i].Apply?)
    && last.hub.Live? && last.log == s.log && last.hub.reader.held == Fold(s.log, EMPTY)
  }

  /** A live hub catches up with the log by its own steps, and then holds the state of the whole of
      it. */
  lemma {:induction false} HubCatchesUp(s: System)
    requires Inv(s) && s.hub.Live?
    ensures exists actions, last {:trigger HubTails(s, actions, last)} :: HubTails(s, actions, last)
    decreases |s.log| - s.hub.reader.pos
  {
    if s.hub.reader.pos < |s.log| {
      DoInv(s);
      HubCatchesUp(Do(s, Apply));
      var actions, last :| HubTails(Do(s, Apply), actions, last);
      PathFurther(s, Apply, actions, last);
      assert HubTails(s, [Apply] + actions, last);
    } else {
      assert s.log[..|s.log|] == s.log;
      assert HubTails(s, [], s);
    }
  }

  ghost predicate ConsolidatorTails(s: System, actions: seq<Action>, last: System) {
    && Path(s, actions, last) && (forall i {:trigger actions[i]} :: 0 <= i < |actions| ==> actions[i].Consolidate?)
    && last.consolidator.Serving? && last.log == s.log && last.consolidator.reader.held == Fold(s.log, EMPTY)
  }

  /** And so does a serving consolidator, as long as there are revisions left. */
  lemma {:induction false} ConsolidatorCatchesUp(s: System)
    requires Inv(s) && s.consolidator.Serving?
    requires s.consolidator.revision + |s.log| - s.consolidator.reader.pos <= Revisions.MAX_REVISION
    ensures exists actions, last {:trigger ConsolidatorTails(s, actions, last)} :: ConsolidatorTails(s, actions, last)
    decreases |s.log| - s.consolidator.reader.pos
  {
    if s.consolidator.reader.pos < |s.log| {
      ConsolidateOne(s);
      var a :| ReadsOne(s, a);
      ConsolidatorCatchesUp(Do(s, a));
      var actions, last :| ConsolidatorTails(Do(s, a), actions, last);
      PathFurther(s, a, actions, last);
      assert ConsolidatorTails(s, [a] + actions, last);
    } else {
      ServingHolds(s);
      assert s.log[..|s.log|] == s.log;
      assert ConsolidatorTails(s, [], s);
    }
  }

  // ---- Recovery ----

  predicate Harmless(b: Action, c: Action) {
    !b.ConsolidatorCrash? && !b.HubCrash? && !c.ConsolidatorCrash? && !c.HubCrash?
  }

  // A crash, two more steps, and what comes after them.
  ghost predicate ComesBack(s: System, crash: Action, actions: seq<Action>, last: System) {
    Path(s, [crash] + actions, last) && NoCrash(actions)
  }

  lemma PathThree(s: System, a: Action, down: System, b: Action, loaded: System, c: Action, begun: System,
                  rest: seq<Action>, last: System)
    requires Enabled(s, a) && Do(s, a) == down && Enabled(down, b) && Do(down, b) == loaded
    requires Enabled(loaded, c) && Do(loaded, c) == begun
    requires Path(begun, rest, last) && NoCrash(rest) && Harmless(b, c)
    ensures ComesBack(s, a, [b, c] + rest, last)
  {
    PathFurther(loaded, c, rest, last);
    PathFurther(down, b, [c] + rest, last);
    assert [b] + ([c] + rest) == [b, c] + rest;
    PathFurther(s, a, [b, c] + rest, last);
  }

  ghost predicate Fetches(down: System, fetch: Action) {
    && fetch.Fetch? && Enabled(down, fetch)
    && Do(down, fetch).hub.Fetched? && CanGoLive(Do(Do(down, fetch), BeginReplay))
  }

  lemma HubRestarts(s: System, down: System)
    requires Inv(s) && s.consolidator.Serving? && down == s.(hub := Stopped) && (s.log == [] || s.start < |s.log|)
    ensures exists fetch {:trigger Fetches(down, fetch)} :: Fetches(down, fetch)
  {
    var c := s.consolidator;
    CanonicalExists(c.reader.held, c.revision);
    var snapshot :| Canonical(c.reader.held, c.revision, snapshot);
    FetchInv(down, snapshot);
    HubStartFinishesExactly(Do(down, Fetch(snapshot)));
    assert Fetches(down, Fetch(snapshot));
  }

  ghost predicate LiveAgain(s: System) {
    exists actions, last {:trigger ComesBack(s, HubCrash, actions, last)} ::
      ComesBack(s, HubCrash, actions, last) && last.hub.Live?
  }

  lemma FetchLeads(s: System, down: System, fetch: Action)
    requires Fetches(down, fetch) && down == s.(hub := Stopped)
    ensures LiveAgain(s)
  {
    var fetched := Do(down, fetch);
    var begun := Do(fetched, BeginReplay);
    var rest, last :| Path(begun, rest, last) && NoCrash(rest) && last.hub.Live?;
    PathThree(s, HubCrash, down, fetch, fetched, BeginReplay, begun, rest, last);
  }

  /** Recovery: whatever a hub was doing, it can crash, fetch a snapshot, replay and go live again, as
      long as some record of the log is retained or there is none. */
  lemma HubRecovers(s: System)
    requires Inv(s) && s.consolidator.Serving? && (s.log == [] || s.start < |s.log|)
    ensures LiveAgain(s)
  {
    var down := s.(hub := Stopped);
    HubRestarts(s, down);
    var fetch :| Fetches(down, fetch);
    FetchLeads(s, down, fetch);
  }

  lemma LastIsFound(s: System)
    requires s.published != []
    ensures Finds(s, [Last(s.published).snapshot], Last(s.published).pos)
    ensures Revisions.Loaded([Last(s.published).snapshot]) == Last(s.published).snapshot
  {
    var x := Last(s.published).snapshot;
    assert [x][..0] == [] && Revisions.Newest([x]) == Some(x);
    assert SnapshotsOf(s.published)[|s.published| - 1] == x;
    assert s.published[|s.published| - 1] == Last(s.published);
  }

  ghost predicate Loads(down: System, load: Action) {
    && load.LoadSnapshot? && Enabled(down, load)
    && Do(down, load).consolidator.Restored? && CanServe(Do(Do(down, load), BeginCatchUp))
  }

  lemma ConsolidatorRestarts(s: System, down: System)
    requires Inv(s) && s.published != [] && s.start <= Last(s.published).pos && down == s.(consolidator := Down)
    requires s.log == [] || s.start < |s.log|
    requires Last(s.published).snapshot.revision + |s.log| - s.start <= Revisions.MAX_REVISION
    ensures exists load {:trigger Loads(down, load)} :: Loads(down, load)
  {
    var newest := Last(s.published);
    var load := LoadSnapshot([newest.snapshot], newest.pos);
    LastIsFound(down);
    LoadInv(down, [newest.snapshot], newest.pos);
    StartFinishesExactly(Do(down, load));
    assert Loads(down, load);
  }

  ghost predicate ServesAgain(s: System) {
    exists actions, last {:trigger ComesBack(s, ConsolidatorCrash, actions, last)} ::
      ComesBack(s, ConsolidatorCrash, actions, last) && last.consolidator.Serving?
  }

  lemma LoadLeads(s: System, down: System, load: Action)
    requires Loads(down, load) && down == s.(consolidator := Down)
    ensures ServesAgain(s)
  {
    var loaded := Do(down, load);
    var begun := Do(loaded, BeginCatchUp);
    var rest, last :| Path(begun, rest, last) && NoCrash(rest) && last.consolidator.Serving?;
    PathThree(s, ConsolidatorCrash, down, load, loaded, BeginCatchUp, begun, rest, last);
  }

  /** And whatever a consolidator was doing, it can crash, load the snapshot published last, replay and
      serve again, as long as the log is retained from there. */
  lemma ConsolidatorRecovers(s: System)
    requires Inv(s) && s.published != [] && s.start <= Last(s.published).pos
    requires s.log == [] || s.start < |s.log|
    requires Last(s.published).snapshot.revision + |s.log| - s.start <= Revisions.MAX_REVISION
    ensures ServesAgain(s)
  {
    var down := s.(consolidator := Down);
    ConsolidatorRestarts(s, down);
    var load :| Loads(down, load);
    LoadLeads(s, down, load);
  }

  // ---- Such runs exist ----

  lemma OneTopic(r: Registration)
    requires AcceptedRegistration(r)
    ensures Canonical(Step(EMPTY, Register(r)), 1, Snapshot(1, [r], []))
  {}

  ghost predicate Reachable(s: System) {
    exists trace, actions {:trigger IsRun(trace, actions)} :: IsRun(trace, actions) && trace[|actions|] == s
  }

  lemma Reaches(s: System, a: Action, next: System)
    requires Reachable(s) && Enabled(s, a) && Do(s, a) == next
    ensures Reachable(next)
  {
    var trace, actions :| IsRun(trace, actions) && trace[|actions|] == s;
    var longer := trace + [next];
    assert IsRun(longer, actions + [a]);
    assert longer[|actions + [a]|] == next;
  }

  // One event, consolidated by a first life and then trimmed away.
  function Trimmed(r: Registration): System {
    var p := Step(EMPTY, Register(r));
    System([Register(r)], 1, [Stored(Snapshot(1, [r], []), p, 1)], 1, Serving(Reader(EMPTY, 0, 1, p), 1), Stopped)
  }

  lemma NothingPublished(s: System)
    requires s.consolidator.Down? && s.start == 0
    ensures Enabled(s, LoadSnapshot([], 0))
    ensures Do(s, LoadSnapshot([], 0)) == s.(consolidator := Restored(EMPTY, 0, 0))
  {
    LoadRebuilds(EMPTY, Revisions.NO_SNAPSHOT);
  }

  lemma FirstStart(r: Registration)
    requires AcceptedRegistration(r)
    ensures Reachable(System([Register(r)], 0, [], 0, CatchingUp(Reader(EMPTY, 0, 0, EMPTY), 1, 0), Stopped))
  {
    var s0 := System([], 0, [], 0, Down, Stopped);
    var s1 := s0.(log := [Register(r)]);
    var s2 := s1.(consolidator := Restored(EMPTY, 0, 0));
    var s3 := s2.(consolidator := CatchingUp(Reader(EMPTY, 0, 0, EMPTY), 1, 0));
    NothingPublished(s1);
    var none: seq<Action> := [];
    assert IsRun([s0], none) && [s0][|none|] == s0;
    Reaches(s0, Append(Register(r)), s1);
    Reaches(s1, LoadSnapshot([], 0), s2);
    Reaches(s2, BeginCatchUp, s3);
  }

  lemma FirstLife(r: Registration)
    requires AcceptedRegistration(r)
    ensures Reachable(Trimmed(r))
  {
    OneTopic(r);
    FirstStart(r);
    var s3 := System([Register(r)], 0, [], 0, CatchingUp(Reader(EMPTY, 0, 0, EMPTY), 1, 0), Stopped);
    var s5 := Trimmed(r).(start := 0);
    var s4 := s5.(consolidator := CatchingUp(s5.consolidator.reader, 1, 1));
    Reaches(s3, Consolidate(Snapshot(1, [r], [])), s4);
    Reaches(s4, BeginServing, s5);
    Reaches(s5, Trim(1), Trimmed(r));
  }

  /** It is reached: the first life ends, and a second one starts. */
  lemma TrimmedLogIsStuck(r: Registration)
    requires AcceptedRegistration(r)
    ensures exists s {:trigger Reachable(s)} :: Reachable(s) && Stuck(s)
  {
    var x := Snapshot(1, [r], []);
    FirstLife(r);
    var s7 := Trimmed(r).(consolidator := Down);
    var held := Fold(LoadEvents(x), EMPTY);
    var s8 := s7.(consolidator := Restored(held, 1, 1));
    var s9 := s7.(consolidator := CatchingUp(Reader(held, 1, 1, held), 1, 1));
    assert [x][..0] == [] && Revisions.Newest([x]) == Some(x);
    assert SnapshotsOf(s7.published) == [x];
    assert s7.published[0].snapshot == x;
    Reaches(Trimmed(r), ConsolidatorCrash, s7);
    Reaches(s7, LoadSnapshot([x], 1), s8);
    Reaches(s8, BeginCatchUp, s9);
  }

  /** A hub that starts after that first life was trimmed away replays for ever, although its snapshot
      is up to date. */
  lemma TrimmedLogStopsHub(r: Registration)
    requires AcceptedRegistration(r)
    ensures exists s {:trigger Reachable(s)} ::
              Reachable(s) && HubStuck(s) && s.hub.reader.held == Fold(s.log, EMPTY)
  {
    var x := Snapshot(1, [r], []);
    FirstLife(r);
    OneTopic(r);
    var held := Step(EMPTY, Register(r));
    LoadRebuilds(held, x);
    assert Fold([Register(r)], EMPTY) == held by {
      assert [Register(r)][..0] == [];
    }
    var fetched := Trimmed(r).(hub := Fetched(held, 1));
    var replaying := Trimmed(r).(hub := Replaying(Reader(held, 1, 1, held), 1, 1));
    Reaches(Trimmed(r), Fetch(x), fetched);
    Reaches(fetched, BeginReplay, replaying);
  }
}
