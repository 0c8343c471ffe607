/** Snapshots of a projection, and the events a process applies to load one. */
module Snapshots {
  import opened State
  import opened Ordering

  const TOPIC_KEY: Registration -> Key := (r: Registration) => Key(r.topic, "")
  const SUBSCRIPTION_KEY: Subscription -> Key := (s: Subscription) => KeyOf(s)

  function RegisterAll(topics: seq<Registration>): seq<Event> {
    if topics == [] then [] else RegisterAll(topics[..|topics| - 1]) + [Register(topics[|topics| - 1])]
  }

  // A stale entry is subscribed first and marked afterwards.
  function LoadEntry(s: Subscription): seq<Event> {
    if s.status == "" then [Subscribe(s)] else [Subscribe(s.(status := "")), MarkStale(s)]
  }

  function LoadAll(subscriptions: seq<Subscription>): seq<Event> {
    if subscriptions == [] then []
    else LoadAll(subscriptions[..|subscriptions| - 1]) + LoadEntry(subscriptions[|subscriptions| - 1])
  }

  // What restore and applySnapshot apply, in order.
  function LoadEvents(s: Snapshot): seq<Event> {
    RegisterAll(s.topics) + LoadAll(s.subscriptions)
  }

  predicate AllAccepted(log: seq<Event>) {
    forall i :: 0 <= i < |log| ==> Accepted(log[i])
  }

  lemma {:induction false} RegistersEach(topics: seq<Registration>)
    ensures forall r :: r in topics ==> Register(r) in RegisterAll(topics)
    decreases |topics|
  {
    if topics != [] {
      RegistersEach(topics[..|topics| - 1]);
      assert topics == topics[..|topics| - 1] + [topics[|topics| - 1]];
    }
  }

  lemma {:induction false} LoadsEach(subscriptions: seq<Subscription>)
    ensures forall s, e :: s in subscriptions && e in LoadEntry(s) ==> e in LoadAll(subscriptions)
    decreases |subscriptions|
  {
    if subscriptions != [] {
      LoadsEach(subscriptions[..|subscriptions| - 1]);
      assert subscriptions == subscriptions[..|subscriptions| - 1] + [subscriptions[|subscriptions| - 1]];
    }
  }

  lemma RejectedTopic(topics: seq<Registration>, i: nat)
    requires i < |topics| && !AcceptedRegistration(topics[i])
    ensures !AllAccepted(RegisterAll(topics))
  {
    RegistersEach(topics);
    assert topics[i] in topics;
    assert Register(topics[i]) in RegisterAll(topics);
  }

  lemma RegisterAllNext(topics: seq<Registration>, i: nat)
    requires i < |topics|
    ensures RegisterAll(topics[..i + 1]) == RegisterAll(topics[..i]) + [Register(topics[i])]
    ensures AllAccepted(RegisterAll(topics[..i])) && AcceptedRegistration(topics[i]) ==>
              AllAccepted(RegisterAll(topics[..i + 1]))
  {
    assert topics[..i + 1][..i] == topics[..i];
  }

  lemma {:induction false} RejectedEntry(subscriptions: seq<Subscription>, j: nat)
    requires j < |subscriptions| && !AllAccepted(LoadEntry(subscriptions[j]))
    ensures !AllAccepted(LoadAll(subscriptions))
  {
    LoadsEach(subscriptions);
    assert subscriptions[j] in subscriptions;
    var i :| 0 <= i < |LoadEntry(subscriptions[j])| && !Accepted(LoadEntry(subscriptions[j])[i]);
    assert LoadEntry(subscriptions[j])[i] in LoadAll(subscriptions);
  }

  lemma LoadAllNext(subscriptions: seq<Subscription>, j: nat)
    requires j < |subscriptions|
    ensures LoadAll(subscriptions[..j + 1]) == LoadAll(subscriptions[..j]) + LoadEntry(subscriptions[j])
    ensures AllAccepted(LoadAll(subscriptions[..j])) && AllAccepted(LoadEntry(subscriptions[j])) ==>
              AllAccepted(LoadAll(subscriptions[..j + 1]))
  {
    assert subscriptions[..j + 1][..j] == subscriptions[..j];
  }

  lemma FoldOne(e: Event, p: Projection)
    ensures Fold([e], p) == Step(p, e)
  {
    assert [e][..0] == [];
  }

  lemma FoldTwo(e: Event, f: Event, p: Projection)
    ensures Fold([e, f], p) == Step(Step(p, e), f)
  {
    FoldOne(e, p);
    assert [e, f][..1] == [e];
  }

  lemma FoldLoadEntry(s: Subscription, p: Projection)
    ensures var subscribed := Step(p, Subscribe(s.(status := "")));
            Fold(LoadEntry(s), p) == if s.status == "" then subscribed else Step(subscribed, MarkStale(s))
    ensures AllAccepted(LoadEntry(s)) <==>
            Accepted(Subscribe(s.(status := ""))) && (s.status != "" ==> Accepted(MarkStale(s)))
  {
    var first := Subscribe(s.(status := ""));
    if s.status == "" {
      assert s.(status := "") == s && LoadEntry(s) == [first];
      FoldOne(first, p);
    } else {
      FoldTwo(first, MarkStale(s), p);
      assert LoadEntry(s)[0] == first && LoadEntry(s)[1] == MarkStale(s);
    }
  }

  lemma AcceptedParts(s: Snapshot)
    ensures AllAccepted(LoadEvents(s)) <==> AllAccepted(RegisterAll(s.topics)) && AllAccepted(LoadAll(s.subscriptions))
  {
    var a, b := RegisterAll(s.topics), LoadAll(s.subscriptions);
    assert forall i :: 0 <= i < |a| ==> LoadEvents(s)[i] == a[i];
    assert forall i :: 0 <= i < |b| ==> LoadEvents(s)[|a| + i] == b[i];
  }

  // The snapshot lists each topic and each subscription of p once, in some order.
  ghost predicate Lists(p: Projection, s: Snapshot) {
    && DistinctKeys(s.topics, TOPIC_KEY)
    && DistinctKeys(s.subscriptions, SUBSCRIPTION_KEY)
    && (forall r :: r in s.topics <==> r.topic in p.topics && p.topics[r.topic] == r)
    && (forall e :: e in s.subscriptions <==> KeyOf(e) in p.subscriptions && p.subscriptions[KeyOf(e)] == e)
  }

  // What snapshotLocked promises: the same bytes for the same state.
  ghost predicate Canonical(p: Projection, revision: int, s: Snapshot) {
    && s.revision == revision
    && Lists(p, s)
    && Sorted(s.topics, TOPIC_KEY)
    && Sorted(s.subscriptions, SUBSCRIPTION_KEY)
  }

  /** Its topics come by name, its subscriptions by topic and then callback, each in ascending order. */
  lemma CanonicalOrder(p: Projection, revision: int, s: Snapshot, i: nat, j: nat)
    requires Canonical(p, revision, s) && i < j
    ensures j < |s.topics| ==> StringLess(s.topics[i].topic, s.topics[j].topic)
    ensures j < |s.subscriptions| ==>
              var v, w := s.subscriptions[i].verified, s.subscriptions[j].verified;
              StringLess(v.topic, w.topic) || (v.topic == w.topic && StringLess(v.callback, w.callback))
  {
    assert j < |s.topics| ==> KeyLess(TOPIC_KEY(s.topics[i]), TOPIC_KEY(s.topics[j]));
    assert j < |s.subscriptions| ==>
        KeyLess(SUBSCRIPTION_KEY(s.subscriptions[i]), SUBSCRIPTION_KEY(s.subscriptions[j]));
  }

  /** A projection has one canonical snapshot, whatever order its maps were walked in. */
  lemma CanonicalUnique(p: Projection, revision: int, s: Snapshot, t: Snapshot)
    requires Canonical(p, revision, s) && Canonical(p, revision, t)
    ensures s == t
  {
    SortedUnique(s.topics, t.topics, TOPIC_KEY);
    SortedUnique(s.subscriptions, t.subscriptions, SUBSCRIPTION_KEY);
  }

  // The values of a map in some order.
  lemma {:induction false} Listed<K, V(!new)>(m: map<K, V>, key: V -> Key, name: V -> K) returns (list: seq<V>)
    requires forall k {:trigger m[k]} :: k in m ==> name(m[k]) == k
    requires forall v, w {:trigger key(v), key(w)} :: key(v) == key(w) ==> name(v) == name(w)
    ensures DistinctKeys(list, key)
    ensures forall v {:trigger v in list} :: v in list <==> name(v) in m && m[name(v)] == v
    decreases |m|
  {
    if m == map[] {
      list := [];
    } else {
      var k :| k in m;
      var rest := map l | l in m && l != k :: m[l];
      assert rest.Keys == m.Keys - {k};
      var before := Listed(rest, key, name);
      assert forall i :: 0 <= i < |before| ==> before[i] in before;
      list := before + [m[k]];
    }
  }

  /** And it has one. */
  lemma CanonicalExists(p: Projection, revision: int)
    requires WellFormed(p)
    ensures exists s {:trigger Canonical(p, revision, s)} :: Canonical(p, revision, s)
  {
    var topics := Listed(p.topics, TOPIC_KEY, (r: Registration) => r.topic);
    var subscriptions := Listed(p.subscriptions, SUBSCRIPTION_KEY, (s: Subscription) => KeyOf(s));
    SortSliceSorts(topics, TOPIC_KEY);
    SortSliceSorts(subscriptions, SUBSCRIPTION_KEY);
    SortedAreDistinct(SortSlice(topics, TOPIC_KEY), TOPIC_KEY);
    SortedAreDistinct(SortSlice(subscriptions, SUBSCRIPTION_KEY), SUBSCRIPTION_KEY);
    var s := Snapshot(revision, SortSlice(topics, TOPIC_KEY), SortSlice(subscriptions, SUBSCRIPTION_KEY));
    assert Canonical(p, revision, s);
  }

  function TopicMap(topics: seq<Registration>): map<string, Registration> {
    if topics == [] then map[]
    else TopicMap(topics[..|topics| - 1])[topics[|topics| - 1].topic := topics[|topics| - 1]]
  }

  function EntryMap(subscriptions: seq<Subscription>): map<Key, Subscription> {
    if subscriptions == [] then map[]
    else
      var last := subscriptions[|subscriptions| - 1];
      EntryMap(subscriptions[..|subscriptions| - 1])[KeyOf(last) := last]
  }

  lemma {:induction false} TopicMapContents(topics: seq<Registration>)
    requires DistinctKeys(topics, TOPIC_KEY)
    ensures forall r :: r in topics ==> r.topic in TopicMap(topics) && TopicMap(topics)[r.topic] == r
    ensures forall t :: t in TopicMap(topics) ==> TopicMap(topics)[t] in topics && TopicMap(topics)[t].topic == t
    decreases |topics|
  {
    if topics != [] {
      var n := |topics| - 1;
      TopicMapContents(topics[..n]);
      assert topics == topics[..n] + [topics[n]];
      forall r | r in topics[..n]
        ensures r.topic != topics[n].topic
      {
        var i :| 0 <= i < n && topics[i] == r;
        assert TOPIC_KEY(topics[i]) != TOPIC_KEY(topics[n]);
      }
    }
  }

  lemma LastKeyIsNew(subscriptions: seq<Subscription>)
    requires DistinctKeys(subscriptions, SUBSCRIPTION_KEY) && subscriptions != []
    ensures forall s :: s in subscriptions[..|subscriptions| - 1] ==>
              KeyOf(s) != KeyOf(subscriptions[|subscriptions| - 1])
  {}

  lemma {:induction false} EntryMapContents(subscriptions: seq<Subscription>)
    requires DistinctKeys(subscriptions, SUBSCRIPTION_KEY)
    ensures forall s :: s in subscriptions ==>
              KeyOf(s) in EntryMap(subscriptions) && EntryMap(subscriptions)[KeyOf(s)] == s
    ensures forall k :: k in EntryMap(subscriptions) ==>
              EntryMap(subscriptions)[k] in subscriptions && KeyOf(EntryMap(subscriptions)[k]) == k
    decreases |subscriptions|
  {
    if subscriptions != [] {
      var n := |subscriptions| - 1;
      EntryMapContents(subscriptions[..n]);
      assert subscriptions == subscriptions[..n] + [subscriptions[n]];
      LastKeyIsNew(subscriptions);
    }
  }

  lemma {:induction false} RegisterAllBuilds(topics: seq<Registration>, p: Projection)
    requires forall i :: 0 <= i < |topics| ==> AcceptedRegistration(topics[i])
    ensures AllAccepted(RegisterAll(topics))
    ensures Fold(RegisterAll(topics), p) == p.(topics := p.topics + TopicMap(topics))
    decreases |topics|
  {
    if topics != [] {
      var n := |topics| - 1;
      RegisterAllBuilds(topics[..n], p);
      var log := RegisterAll(topics);
      assert log[..|log| - 1] == RegisterAll(topics[..n]);
      assert Fold(log, p) == Step(Fold(RegisterAll(topics[..n]), p), Register(topics[n]));
      assert (p.topics + TopicMap(topics[..n]))[topics[n].topic := topics[n]] == p.topics + TopicMap(topics);
    }
  }

  predicate Loadable(s: Subscription) {
    AcceptedSubscription(s.(status := "")) && (s.status == "" || s.status == STALE)
  }

  lemma LoadEntryAdds(s: Subscription, p: Projection)
    requires Loadable(s) && KeyOf(s) !in p.subscriptions
    ensures AllAccepted(LoadEntry(s))
    ensures Fold(LoadEntry(s), p) == p.(subscriptions := p.subscriptions[KeyOf(s) := s])
  {
    var active := s.(status := "");
    var added := Step(p, Subscribe(active));
    assert [Subscribe(active)][..0] == [];
    assert Fold([Subscribe(active)], p) == added;
    if s.status == STALE {
      assert LoadEntry(s)[..1] == [Subscribe(active)];
      var marked := Step(added, MarkStale(s));
      assert marked.subscriptions == p.subscriptions[KeyOf(s) := s];
    }
  }

  lemma {:induction false} LoadAllBuilds(subscriptions: seq<Subscription>, p: Projection)
    requires forall i :: 0 <= i < |subscriptions| ==> Loadable(subscriptions[i])
    requires DistinctKeys(subscriptions, SUBSCRIPTION_KEY)
    requires p.subscriptions == map[]
    ensures AllAccepted(LoadAll(subscriptions))
    ensures Fold(LoadAll(subscriptions), p) == p.(subscriptions := EntryMap(subscriptions))
    decreases |subscriptions|
  {
    if subscriptions != [] {
      var n := |subscriptions| - 1;
      var s := subscriptions[n];
      var earlier := subscriptions[..n];
      LoadAllBuilds(earlier, p);
      EntryMapContents(earlier);
      LastKeyIsNew(subscriptions);
      LoadEntryAdds(s, Fold(LoadAll(earlier), p));
      FoldConcat(LoadAll(earlier), LoadEntry(s), p);
    }
  }

  lemma ListedTopics(p: Projection, s: Snapshot)
    requires WellFormed(p) && Lists(p, s)
    ensures forall i :: 0 <= i < |s.topics| ==> AcceptedRegistration(s.topics[i])
    ensures TopicMap(s.topics) == p.topics
  {
    forall i | 0 <= i < |s.topics|
      ensures AcceptedRegistration(s.topics[i])
    {
      assert s.topics[i] in s.topics;
    }
    TopicMapContents(s.topics);
    assert forall t :: t in p.topics ==> p.topics[t] in s.topics;
  }

  lemma ListedSubscriptions(p: Projection, s: Snapshot)
    requires WellFormed(p) && Lists(p, s)
    ensures forall i :: 0 <= i < |s.subscriptions| ==> Loadable(s.subscriptions[i])
    ensures EntryMap(s.subscriptions) == p.subscriptions
  {
    forall i | 0 <= i < |s.subscriptions|
      ensures Loadable(s.subscriptions[i])
    {
      assert s.subscriptions[i] in s.subscriptions;
    }
    EntryMapContents(s.subscriptions);
    assert forall k :: k in p.subscriptions ==> p.subscriptions[k] in s.subscriptions;
  }

  /** Loading a snapshot of a reachable projection succeeds and rebuilds it, stale entries
      included, in whatever order the snapshot lists it. */
  lemma LoadRebuilds(p: Projection, s: Snapshot)
    requires WellFormed(p) && Lists(p, s)
    ensures AllAccepted(LoadEvents(s))
    ensures Fold(LoadEvents(s), EMPTY) == p
  {
    ListedTopics(p, s);
    ListedSubscriptions(p, s);
    RegisterAllBuilds(s.topics, EMPTY);
    var registered := Fold(RegisterAll(s.topics), EMPTY);
    assert registered.topics == p.topics && registered.subscriptions == map[];
    LoadAllBuilds(s.subscriptions, registered);
    FoldConcat(RegisterAll(s.topics), LoadAll(s.subscriptions), EMPTY);
  }
}
