/** Snapshots carry no log offset, so every restart replays events that its snapshot may already
    contain. The projection still comes out right, because any sequence of state events, applied
    to any projection, does nothing more the second time. */
module Convergence {
  import opened Wrappers
  import opened State

  predicate Resets(e: Event, k: Key) {
    Accepted(e) &&
    match e
    case Deregister(d) => d.topic == k.topic
    case Unsubscribe(u) => Key(u.topic, u.callback) == k
    case _ => false
  }

  predicate Subscribes(e: Event, k: Key) {
    Accepted(e) && e.Subscribe? && KeyOf(e.subscription) == k
  }

  predicate Stales(e: Event, k: Key, s: Subscription) {
    Accepted(e) && e.MarkStale? && KeyOf(e.stale) == k && SameLease(s, e.stale)
  }

  function StepEntry(e: Event, k: Key, entry: Option<Subscription>): Option<Subscription> {
    if Resets(e, k) then None
    else if Subscribes(e, k) then Some(Subscribed(entry, e.subscription))
    else if entry.Some? && Stales(e, k, entry.value) then Some(entry.value.(status := STALE))
    else entry
  }

  function Entry(p: Projection, k: Key): Option<Subscription> {
    Lookup(p.subscriptions, k)
  }

  // Keys do not influence one another: each evolves by the events about it alone.
  lemma StepAtKey(p: Projection, e: Event, k: Key)
    ensures Entry(Step(p, e), k) == StepEntry(e, k, Entry(p, k))
  {}

  predicate AboutTopic(e: Event, topic: string) {
    Accepted(e) &&
    ((e.Register? && e.registration.topic == topic) || (e.Deregister? && e.deregistration.topic == topic))
  }

  function TopicAfter(e: Event): Option<Registration> {
    if e.Register? then Some(e.registration) else None
  }

  lemma StepAtTopic(p: Projection, e: Event, topic: string)
    ensures Lookup(Step(p, e).topics, topic) ==
            if AboutTopic(e, topic) then TopicAfter(e) else Lookup(p.topics, topic)
  {}

  lemma SameEverywhere(p: Projection, q: Projection)
    requires forall k :: Entry(p, k) == Entry(q, k)
    requires forall t :: Lookup(p.topics, t) == Lookup(q.topics, t)
    ensures p == q
  {
    forall k
      ensures k in p.subscriptions <==> k in q.subscriptions
      ensures k in p.subscriptions ==> p.subscriptions[k] == q.subscriptions[k]
    {
      assert Entry(p, k) == Entry(q, k);
    }
    forall t
      ensures t in p.topics <==> t in q.topics
      ensures t in p.topics ==> p.topics[t] == q.topics[t]
    {
      assert Lookup(p.topics, t) == Lookup(q.topics, t);
    }
    assert p.subscriptions == q.subscriptions && p.topics == q.topics;
  }

  // ---- What a log does to one key, summarised ----

  predicate HasReset(log: seq<Event>, k: Key) {
    exists i :: 0 <= i < |log| && Resets(log[i], k)
  }

  function FirstSubscribe(log: seq<Event>, k: Key): Option<Subscription> {
    if log == [] then None
    else
      var earlier := FirstSubscribe(log[..|log| - 1], k);
      var e := log[|log| - 1];
      if earlier.Some? || !Subscribes(e, k) then earlier else Some(e.subscription)
  }

  // The status left by the last event that sets one, for an entry with the identity of s.
  function LastStatus(log: seq<Event>, k: Key, s: Subscription, initial: string): string {
    if log == [] then initial
    else
      var e := log[|log| - 1];
      if Subscribes(e, k) then ""
      else if Stales(e, k, s) then STALE
      else LastStatus(log[..|log| - 1], k, s, initial)
  }

  function Summary(log: seq<Event>, k: Key, entry: Option<Subscription>): Option<Subscription> {
    match entry
    case Some(s) => Some(s.(status := LastStatus(log, k, s, s.status)))
    case None =>
      match FirstSubscribe(log, k)
      case None => None
      case Some(s) => Some(s.(status := LastStatus(log, k, s, s.status)))
  }

  lemma {:induction false} FoldWithoutReset(log: seq<Event>, k: Key, p: Projection)
    requires !HasReset(log, k)
    ensures Entry(Fold(log, p), k) == Summary(log, k, Entry(p, k))
    decreases |log|
  {
    if log != [] {
      var shorter := log[..|log| - 1];
      var e := log[|log| - 1];
      assert forall i :: 0 <= i < |shorter| ==> shorter[i] == log[i];
      assert !HasReset(shorter, k) && !Resets(e, k);
      FoldWithoutReset(shorter, k, p);
      StepAtKey(Fold(shorter, p), e, k);
    }
  }

  lemma {:induction false} ResetForgets(log: seq<Event>, k: Key, p: Projection, q: Projection)
    requires HasReset(log, k)
    ensures Entry(Fold(log, p), k) == Entry(Fold(log, q), k)
    decreases |log|
  {
    var shorter := log[..|log| - 1];
    var e := log[|log| - 1];
    StepAtKey(Fold(shorter, p), e, k);
    StepAtKey(Fold(shorter, q), e, k);
    if !Resets(e, k) {
      var i :| 0 <= i < |log| && Resets(log[i], k);
      assert shorter[i] == log[i];
      ResetForgets(shorter, k, p, q);
    }
  }

  // t stands for s under another status.
  lemma {:induction false} LastStatusOverwrites(log: seq<Event>, k: Key, s: Subscription, t: Subscription,
                                                  initial: string)
    requires SameLease(s, t)
    ensures LastStatus(log, k, t, LastStatus(log, k, s, initial)) == LastStatus(log, k, s, initial)
    decreases |log|
  {
    if log != [] {
      LastStatusOverwrites(log[..|log| - 1], k, s, t, initial);
    }
  }

  lemma SummaryTwice(log: seq<Event>, k: Key, entry: Option<Subscription>)
    ensures Summary(log, k, Summary(log, k, entry)) == Summary(log, k, entry)
  {
    match Summary(log, k, entry)
    case None =>
    case Some(after) =>
      var s := if entry.Some? then entry.value else FirstSubscribe(log, k).value;
      LastStatusOverwrites(log, k, s, after, s.status);
  }

  lemma {:induction false} FoldTopic(log: seq<Event>, topic: string, p: Projection, q: Projection)
    ensures (forall i :: 0 <= i < |log| ==> !AboutTopic(log[i], topic)) ==>
              Lookup(Fold(log, p).topics, topic) == Lookup(p.topics, topic)
    ensures (exists i :: 0 <= i < |log| && AboutTopic(log[i], topic)) ==>
              Lookup(Fold(log, p).topics, topic) == Lookup(Fold(log, q).topics, topic)
    decreases |log|
  {
    if log != [] {
      var shorter := log[..|log| - 1];
      var e := log[|log| - 1];
      FoldTopic(shorter, topic, p, q);
      StepAtTopic(Fold(shorter, p), e, topic);
      StepAtTopic(Fold(shorter, q), e, topic);
      if !AboutTopic(e, topic) && exists i :: 0 <= i < |log| && AboutTopic(log[i], topic) {
        var i :| 0 <= i < |log| && AboutTopic(log[i], topic);
        assert shorter[i] == log[i];
      }
    }
  }

  // ---- Convergence ----

  /** Replaying a log over its own result changes nothing, whatever it started from. */
  lemma {:induction false} ReplayIsIdempotent(log: seq<Event>, p: Projection)
    ensures Fold(log, Fold(log, p)) == Fold(log, p)
  {
    var once := Fold(log, p);
    var twice := Fold(log, once);
    forall k
      ensures Entry(twice, k) == Entry(once, k)
    {
      if HasReset(log, k) {
        ResetForgets(log, k, once, p);
      } else {
        FoldWithoutReset(log, k, p);
        FoldWithoutReset(log, k, once);
        SummaryTwice(log, k, Entry(p, k));
      }
    }
    forall t
      ensures Lookup(twice.topics, t) == Lookup(once.topics, t)
    {
      FoldTopic(log, t, once, p);
    }
    SameEverywhere(twice, once);
  }

  /** A full replay absorbs whatever an interrupted replay of the same log did before it. */
  lemma {:induction false} PrefixAbsorbed(log: seq<Event>, k: nat, p: Projection)
    requires k <= |log|
    ensures Fold(log, Fold(log[..k], p)) == Fold(log, p)
  {
    var started := Fold(log[..k], p);
    assert log[0..] == log && log[0..k] == log[..k];
    FoldSplit(log, 0, k, started);
    FoldSplit(log, 0, k, p);
    ReplayIsIdempotent(log[..k], p);
  }

  /** A snapshot taken after k events, with the log retained from j <= k on, is brought to the
      state of the whole log. */
  lemma {:induction false} RetainedSuffix(log: seq<Event>, j: nat, k: nat)
    requires j <= k <= |log|
    ensures Fold(log[j..], Fold(log[..k], EMPTY)) == Fold(log, EMPTY)
  {
    var taken := Fold(log[..k], EMPTY);
    var segment := log[j..k];
    FoldSplit(log, j, k, taken);
    FoldSplit(log, j, k, EMPTY);
    ReplayIsIdempotent(segment, Fold(log[..j], EMPTY));
    assert log[0..] == log && log[0..k] == log[..k];
    FoldSplit(log, 0, k, EMPTY);
  }

  // Registers a different topic at position k than everywhere else.
  function GapLog(n: nat, k: nat): seq<Event> {
    seq(n, i => Register(Registration(REGISTER, if i == k then "gap" else "other", "")))
  }

  lemma {:induction false} OnlyOtherTopics(log: seq<Event>, p: Projection)
    requires "gap" !in p.topics
    requires forall i :: 0 <= i < |log| ==> log[i] == Register(Registration(REGISTER, "other", ""))
    ensures "gap" !in Fold(log, p).topics
    decreases |log|
  {
    if log != [] {
      OnlyOtherTopics(log[..|log| - 1], p);
    }
  }

  // Whether the topic registered at position `at` alone is there after the first k events.
  lemma GapSeen(log: seq<Event>, at: nat, k: nat)
    requires at < |log| && k <= |log| && log == GapLog(|log|, at)
    ensures "gap" in Fold(log[..k], EMPTY).topics <==> at < k
  {
    if k <= at {
      OnlyOtherTopics(log[..k], EMPTY);
    } else {
      var front := log[..at + 1];
      assert front[|front| - 1] == log[at];
      GapTopicStays(log[at + 1..k], Fold(front, EMPTY));
      FoldConcat(front, log[at + 1..k], EMPTY);
      assert front + log[at + 1..k] == log[..k];
    }
  }

  /** Replaying log[j..e] over a snapshot taken after k events reaches the state after e events, for
      every log, exactly when the log was retained from no later than the snapshot (j <= k), and
      the end was captured no earlier (k <= e). */
  lemma ReplayReachesExactly(j: nat, k: nat, e: nat, n: nat)
    requires j <= e <= n && k <= n
    ensures j <= k <= e <==>
            forall log: seq<Event> | |log| == n :: Fold(log[j..e], Fold(log[..k], EMPTY)) == Fold(log[..e], EMPTY)
  {
    if j <= k <= e {
      forall log: seq<Event> | |log| == n
        ensures Fold(log[j..e], Fold(log[..k], EMPTY)) == Fold(log[..e], EMPTY)
      {
        RetainedSuffix(log[..e], j, k);
        assert log[..e][j..] == log[j..e] && log[..e][..k] == log[..k];
      }
    } else if k < j {
      var log := GapLog(n, k);
      GapSeen(log, k, k);
      GapSeen(log, k, e);
      OnlyOtherTopics(log[j..e], Fold(log[..k], EMPTY));
    } else {
      var log := GapLog(n, k - 1);
      GapSeen(log, k - 1, k);
      GapSeen(log, k - 1, e);
      GapTopicStays(log[j..e], Fold(log[..k], EMPTY));
    }
  }

  lemma {:induction false} GapTopicStays(log: seq<Event>, p: Projection)
    requires "gap" in p.topics
    requires forall i :: 0 <= i < |log| ==> log[i].Register?
    ensures "gap" in Fold(log, p).topics
    decreases |log|
  {
    if log != [] {
      GapTopicStays(log[..|log| - 1], p);
    }
  }

  /** One earlier life of a consolidator: it found the log retained from `start`, applied it up to
      `stop` on top of the newest snapshot, and left that as the newest snapshot. */
  datatype Run = Run(start: nat, stop: nat)

  function AfterRuns(log: seq<Event>, runs: seq<Run>): Projection
    requires forall i :: 0 <= i < |runs| ==> runs[i].start <= runs[i].stop <= |log|
  {
    if runs == [] then EMPTY
    else
      var last := runs[|runs| - 1];
      Fold(log[last.start..last.stop], AfterRuns(log, runs[..|runs| - 1]))
  }

  // Retention only moves forward, and never past where the previous life stopped.
  predicate NoGap(runs: seq<Run>, start: nat) {
    if runs == [] then start == 0
    else
      var last := runs[|runs| - 1];
      NoGap(runs[..|runs| - 1], last.start) && last.start <= start <= last.stop
  }

  /** Crash recovery. However many earlier lives there were, and wherever each one stopped, a
      restart that replays the retained log reaches the state of the whole log. */
  lemma {:induction false} RecoveryConverges(log: seq<Event>, runs: seq<Run>, start: nat)
    requires forall i :: 0 <= i < |runs| ==> runs[i].start <= runs[i].stop <= |log|
    requires NoGap(runs, start)
    ensures start <= |log| && Fold(log[start..], AfterRuns(log, runs)) == Fold(log, EMPTY)
    decreases |runs|
  {
    if runs == [] {
      assert log[0..] == log;
    } else {
      var earlier := runs[..|runs| - 1];
      var last := runs[|runs| - 1];
      var p := AfterRuns(log, earlier);
      RecoveryConverges(log, earlier, last.start);
      var a, b := log[last.start..start], log[start..last.stop];
      FoldSplit(log, start, last.stop, AfterRuns(log, runs));
      assert log[last.start..last.stop] == a + b;
      FoldConcat(a, b, p);
      ReplayIsIdempotent(b, Fold(a, p));
      FoldSplit(log, last.start, last.stop, p);
    }
  }

  // The same with the log fully retained: every life replays from offset 0.
  lemma FullLogRecovery(log: seq<Event>, stops: seq<nat>)
    requires forall i :: 0 <= i < |stops| ==> stops[i] <= |log|
    ensures Fold(log, AfterRuns(log, seq(|stops|, i requires 0 <= i < |stops| => Run(0, stops[i])))) == Fold(log, EMPTY)
  {
    var runs := seq(|stops|, i requires 0 <= i < |stops| => Run(0, stops[i]));
    FullLogHasNoGap(runs);
    RecoveryConverges(log, runs, 0);
    assert log[0..] == log;
  }

  lemma {:induction false} FullLogHasNoGap(runs: seq<Run>)
    requires forall i :: 0 <= i < |runs| ==> runs[i].start == 0
    ensures NoGap(runs, 0)
    decreases |runs|
  {
    if runs != [] {
      FullLogHasNoGap(runs[..|runs| - 1]);
    }
  }

  /** Why this is not obvious: a snapshot published in the middle of a replay can be the state of
      no prefix of the log. */
  lemma MidReplayMatchesNoPrefix(s: Subscription, r: Registration)
    requires AcceptedSubscription(s) && AcceptedRegistration(r)
    ensures var log := [Subscribe(s), MarkStale(s.(status := STALE)), Register(r)];
            forall k | 0 <= k <= 3 :: AfterRuns(log, [Run(0, 3), Run(0, 1)]) != Fold(log[..k], EMPTY)
  {
    var log := [Subscribe(s), MarkStale(s.(status := STALE)), Register(r)];
    var runs := [Run(0, 3), Run(0, 1)];
    var key := KeyOf(s);
    FoldPrefixes(log);
    var first := [Run(0, 3)];
    assert log[0..3] == log[..3] && log[0..1] == log[..1];
    assert first[..0] == [] && AfterRuns(log, first[..0]) == EMPTY;
    var p3 := AfterRuns(log, first);
    assert p3 == Fold(log[..3], EMPTY);
    assert runs[..1] == first;
    assert log[..1][..0] == [] && Fold(log[..1][..0], p3) == p3;
    var restarted := Step(p3, log[0]);
    assert AfterRuns(log, runs) == Fold(log[..1], p3) == restarted;
    // Active again, as after one event, but already with the topic of the third.
    assert restarted.subscriptions[key].status == "" && r.topic in restarted.topics;
  }

  lemma FoldPrefixes(log: seq<Event>)
    requires |log| == 3
    ensures Fold(log[..0], EMPTY) == EMPTY
    ensures Fold(log[..1], EMPTY) == Step(EMPTY, log[0])
    ensures Fold(log[..2], EMPTY) == Step(Step(EMPTY, log[0]), log[1])
    ensures Fold(log[..3], EMPTY) == Step(Step(Step(EMPTY, log[0]), log[1]), log[2])
  {
    assert log[..1][..0] == [] && log[..2][..1] == log[..1] && log[..3][..2] == log[..2];
  }
}
