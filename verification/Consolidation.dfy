/** The consolidator: one flat map of subscriptions under the key `topic\0callback`, changed in
    place by each state event, and published whole after each one. */
module Consolidation {
  import opened Wrappers
  import opened State
  import opened Ordering
  import opened Snapshots
  import Convergence
  import Revisions

  datatype Flat = Flat(topics: map<string, Registration>, subscriptions: map<string, Subscription>)

  function SubscriptionKey(topic: string, callback: string): string {
    topic + "\0" + callback
  }

  function FlatKey(s: Subscription): string {
    SubscriptionKey(s.verified.topic, s.verified.callback)
  }

  function RemoveFlatTopic(m: map<string, Subscription>, topic: string): map<string, Subscription> {
    map key | key in m && m[key].verified.topic != topic :: m[key]
  }

  // The consolidator's own reading of one event.
  function FlatStep(f: Flat, e: Event): Flat {
    if !Accepted(e) then f
    else
      match e
      case Register(r) => f.(topics := f.topics[r.topic := r])
      case Deregister(d) => Flat(f.topics - {d.topic}, RemoveFlatTopic(f.subscriptions, d.topic))
      case Subscribe(s) =>
        f.(subscriptions := f.subscriptions[FlatKey(s) := Subscribed(Lookup(f.subscriptions, FlatKey(s)), s)])
      case MarkStale(s) =>
        if FlatKey(s) !in f.subscriptions then f
        else f.(subscriptions := f.subscriptions[FlatKey(s) := Staled(f.subscriptions[FlatKey(s)], s)])
      case Unsubscribe(u) => f.(subscriptions := f.subscriptions - {SubscriptionKey(u.topic, u.callback)})
  }

  function FlatFold(log: seq<Event>, f: Flat): Flat {
    if log == [] then f else FlatStep(FlatFold(log[..|log| - 1], f), log[|log| - 1])
  }

  // Every key is the key of its value.
  predicate KeysMatch(f: Flat) {
    && (forall t :: t in f.topics ==> f.topics[t].topic == t)
    && (forall key :: key in f.subscriptions ==>
          key == FlatKey(f.subscriptions[key]) &&
          (f.subscriptions[key].status == "" || f.subscriptions[key].status == STALE))
  }

  lemma FlatStepKeysMatch(f: Flat, e: Event)
    requires KeysMatch(f)
    ensures KeysMatch(FlatStep(f, e))
  {}

  // What the flat map stands for.
  function Projected(f: Flat): Projection
    requires KeysMatch(f)
  {
    var keys := set key | key in f.subscriptions :: KeyOf(f.subscriptions[key]);
    Projection(f.topics, map k | k in keys :: f.subscriptions[SubscriptionKey(k.topic, k.callback)])
  }

  // ---- The key ----

  lemma {:induction false} KeyInjective(topic: string, callback: string, topic': string, callback': string)
    requires '\0' !in topic && '\0' !in topic'
    requires SubscriptionKey(topic, callback) == SubscriptionKey(topic', callback')
    ensures topic == topic' && callback == callback'
  {
    var key := SubscriptionKey(topic, callback);
    assert key == SubscriptionKey(topic', callback');
    assert key[|topic|] == '\0' && key[|topic'|] == '\0';
    assert forall i :: 0 <= i < |topic| ==> key[i] == topic[i];
    assert forall i :: 0 <= i < |topic'| ==> key[i] == topic'[i];
    assert |topic| == |topic'|;
    assert key[..|topic|] == topic && key[..|topic'|] == topic';
    assert key[|topic| + 1..] == callback && key[|topic'| + 1..] == callback';
  }

  /** A topic never shares a key with a NUL-free topic other than itself, exactly when it is
      NUL-free. (`url.Parse` rejects a topic with a control character before it gets here.) */
  lemma KeyInjectiveExactly(topic: string)
    ensures '\0' !in topic <==>
            forall callback, topic', callback' ::
              '\0' !in topic' && SubscriptionKey(topic, callback) == SubscriptionKey(topic', callback') ==>
              topic == topic' && callback == callback'
  {
    if '\0' !in topic {
      forall callback, topic', callback' |
        '\0' !in topic' && SubscriptionKey(topic, callback) == SubscriptionKey(topic', callback')
        ensures topic == topic' && callback == callback'
      {
        KeyInjective(topic, callback, topic', callback');
      }
    } else {
      var i :| 0 <= i < |topic| && topic[i] == '\0';
      var (front, back) := SplitAtNul(topic, i);
      assert SubscriptionKey(topic, "c") == SubscriptionKey(front, back + "\0" + "c") by {
        assert topic + "\0" + "c" == front + "\0" + (back + "\0" + "c");
      }
    }
  }

  function SplitAtNul(s: string, i: nat): (r: (string, string))
    requires i < |s| && s[i] == '\0'
    ensures '\0' !in r.0 && s == r.0 + "\0" + r.1
  {
    if s[0] == '\0' then ("", s[1..])
    else
      var (front, back) := SplitAtNul(s[1..], i - 1);
      assert s == [s[0]] + s[1..];
      ([s[0]] + front, back)
  }

  // No key is made of a topic with a NUL byte; registrations and deregistrations make none.
  predicate NulFree(e: Event) {
    match e
    case Register(_) => true
    case Deregister(_) => true
    case Subscribe(s) => '\0' !in s.verified.topic
    case MarkStale(s) => '\0' !in s.verified.topic
    case Unsubscribe(u) => '\0' !in u.topic
  }

  predicate NulFreeKeys(f: Flat) {
    forall key :: key in f.subscriptions ==> '\0' !in f.subscriptions[key].verified.topic
  }

  lemma EntryIsFlatEntry(f: Flat, k: Key)
    requires KeysMatch(f) && NulFreeKeys(f) && '\0' !in k.topic
    ensures Lookup(Projected(f).subscriptions, k) == Lookup(f.subscriptions, SubscriptionKey(k.topic, k.callback))
  {
    var key := SubscriptionKey(k.topic, k.callback);
    if key in f.subscriptions {
      var v := f.subscriptions[key].verified;
      KeyInjective(v.topic, v.callback, k.topic, k.callback);
    }
  }

  lemma NulTopicsAbsent(f: Flat, k: Key)
    requires KeysMatch(f) && NulFreeKeys(f) && '\0' in k.topic
    ensures k !in Projected(f).subscriptions
  {}

  lemma FlatEntryAfter(f: Flat, e: Event, k: Key)
    requires KeysMatch(f) && NulFreeKeys(f) && NulFree(e) && '\0' !in k.topic
    ensures Lookup(FlatStep(f, e).subscriptions, SubscriptionKey(k.topic, k.callback)) ==
            Convergence.StepEntry(e, k, Lookup(f.subscriptions, SubscriptionKey(k.topic, k.callback)))
  {
    var key := SubscriptionKey(k.topic, k.callback);
    if key in f.subscriptions {
      var v := f.subscriptions[key].verified;
      KeyInjective(v.topic, v.callback, k.topic, k.callback);
    }
    match e
    case Register(_) =>
    case Deregister(_) =>
    case Subscribe(s) =>
      if FlatKey(s) == key {
        KeyInjective(s.verified.topic, s.verified.callback, k.topic, k.callback);
      }
    case MarkStale(s) =>
      if FlatKey(s) == key {
        KeyInjective(s.verified.topic, s.verified.callback, k.topic, k.callback);
      }
    case Unsubscribe(u) =>
      if SubscriptionKey(u.topic, u.callback) == key {
        KeyInjective(u.topic, u.callback, k.topic, k.callback);
      }
  }

  lemma EntryRefines(f: Flat, e: Event, k: Key)
    requires KeysMatch(f) && NulFreeKeys(f) && NulFree(e)
    requires KeysMatch(FlatStep(f, e)) && NulFreeKeys(FlatStep(f, e))
    ensures Convergence.Entry(Projected(FlatStep(f, e)), k) == Convergence.Entry(Step(Projected(f), e), k)
  {
    var after := FlatStep(f, e);
    Convergence.StepAtKey(Projected(f), e, k);
    if '\0' in k.topic {
      NulTopicsAbsent(f, k);
      NulTopicsAbsent(after, k);
      assert !Convergence.Subscribes(e, k);
    } else {
      EntryIsFlatEntry(f, k);
      EntryIsFlatEntry(after, k);
      FlatEntryAfter(f, e, k);
    }
  }

  lemma StaysNulFree(f: Flat, e: Event)
    requires KeysMatch(f) && NulFreeKeys(f) && NulFree(e)
    ensures NulFreeKeys(FlatStep(f, e))
  {}

  /** The flat map refines the projection: on every event whose topic has no NUL byte. */
  lemma FlatStepRefines(f: Flat, e: Event)
    requires KeysMatch(f) && NulFreeKeys(f) && NulFree(e)
    ensures Projected(FlatStep(f, e)) == Step(Projected(f), e) && NulFreeKeys(FlatStep(f, e))
  {
    FlatStepKeysMatch(f, e);
    var after := FlatStep(f, e);
    StaysNulFree(f, e);
    forall k
      ensures Convergence.Entry(Projected(after), k) == Convergence.Entry(Step(Projected(f), e), k)
    {
      EntryRefines(f, e, k);
    }
    Convergence.SameEverywhere(Projected(after), Step(Projected(f), e));
  }

  lemma FlatFoldNext(log: seq<Event>, e: Event, f: Flat)
    ensures FlatFold(log + [e], f) == FlatStep(FlatFold(log, f), e)
  {
    assert (log + [e])[..|log|] == log;
  }

  lemma {:induction false} FlatFoldConcat(a: seq<Event>, b: seq<Event>, f: Flat)
    ensures FlatFold(a + b, f) == FlatFold(b, FlatFold(a, f))
    decreases |b|
  {
    if b == [] {
      assert a + b == a;
    } else {
      var c := b[..|b| - 1];
      FlatFoldConcat(a, c, f);
      assert (a + b)[..|a + b| - 1] == a + c;
    }
  }

  lemma {:induction false} FlatFoldRefines(log: seq<Event>, f: Flat)
    requires KeysMatch(f) && NulFreeKeys(f) && forall i :: 0 <= i < |log| ==> NulFree(log[i])
    ensures KeysMatch(FlatFold(log, f)) && NulFreeKeys(FlatFold(log, f))
    ensures Projected(FlatFold(log, f)) == Fold(log, Projected(f))
    decreases |log|
  {
    if log != [] {
      FlatFoldRefines(log[..|log| - 1], f);
      FlatStepKeysMatch(FlatFold(log[..|log| - 1], f), log[|log| - 1]);
      FlatStepRefines(FlatFold(log[..|log| - 1], f), log[|log| - 1]);
    }
  }

  // With a NUL byte in a topic the refinement breaks: the second subscription is lost.
  lemma NulTopicsCollide(s: Subscription, t: Subscription)
    requires AcceptedSubscription(s) && AcceptedSubscription(t)
    requires s.verified.topic == "a\0b" && s.verified.callback == "c"
    requires t.verified.topic == "a" && t.verified.callback == "b\0c"
    ensures var flat := FlatStep(FlatStep(Flat(map[], map[]), Subscribe(s)), Subscribe(t));
            var p := Step(Step(EMPTY, Subscribe(s)), Subscribe(t));
            && |flat.subscriptions| == 1
            && KeyOf(s) in p.subscriptions && KeyOf(t) in p.subscriptions && KeyOf(s) != KeyOf(t)
  {
    assert FlatKey(s) == FlatKey(t);
  }

  // ---- The process ----

  datatype Consumed =
    | Consolidated(snapshot: Snapshot)
    | Rejected
    | Exhausted
    | NotPersisted(snapshot: Snapshot)

  predicate Applies(p: Payload) {
    Decode(p).Some? && Accepted(Decode(p).value)
  }

  predicate AllApply(ps: seq<Payload>) {
    forall i :: 0 <= i < |ps| ==> Applies(ps[i])
  }

  function EventsOf(ps: seq<Payload>): seq<Event>
    requires AllApply(ps)
  {
    if ps == [] then [] else EventsOf(ps[..|ps| - 1]) + [Decode(ps[|ps| - 1]).value]
  }

  predicate AllTrue(bs: seq<bool>) {
    forall i :: 0 <= i < |bs| ==> bs[i]
  }

  lemma AllTrueNext(bs: seq<bool>, i: nat)
    requires i < |bs| && AllTrue(bs[..i]) && bs[i]
    ensures AllTrue(bs[..i + 1])
  {}

  lemma EventsNext(ps: seq<Payload>, i: nat)
    requires i < |ps| && AllApply(ps[..i]) && Applies(ps[i])
    ensures AllApply(ps[..i + 1])
    ensures EventsOf(ps[..i + 1]) == EventsOf(ps[..i]) + [Decode(ps[i]).value]
  {
    assert ps[..i + 1][..i] == ps[..i];
  }

  lemma RestoredTopic(list: seq<Registration>, i: nat, f: Flat)
    requires i < |list| && AllAccepted(RegisterAll(list[..i])) && AcceptedRegistration(list[i])
    ensures AllAccepted(RegisterAll(list[..i + 1]))
    ensures FlatFold(RegisterAll(list[..i + 1]), f) == FlatStep(FlatFold(RegisterAll(list[..i]), f), Register(list[i]))
  {
    RegisterAllNext(list, i);
    FlatFoldNext(RegisterAll(list[..i]), Register(list[i]), f);
  }

  // The subscriptions of a topic are deleted, but for those at the keys still pending.
  function Without(subscriptions: map<string, Subscription>, topic: string, pending: set<string>):
    map<string, Subscription>
  {
    map key | key in subscriptions && (key in pending || subscriptions[key].verified.topic != topic) ::
      subscriptions[key]
  }

  lemma WithoutNext(subscriptions: map<string, Subscription>, topic: string, pending: set<string>, key: string)
    requires pending <= subscriptions.Keys && key in pending
    ensures var left := Without(subscriptions, topic, pending);
            && key in left && left[key] == subscriptions[key]
            && Without(subscriptions, topic, pending - {key}) ==
               (if subscriptions[key].verified.topic == topic then left - {key} else left)
  {}

  lemma WithoutAll(subscriptions: map<string, Subscription>, topic: string)
    ensures Without(subscriptions, topic, subscriptions.Keys) == subscriptions
    ensures Without(subscriptions, topic, {}) == RemoveFlatTopic(subscriptions, topic)
  {}

  class Consolidator {
    var topics: map<string, Registration>
    var subscriptions: map<string, Subscription>
    var revision: int

    constructor (revision: int)
      requires 0 <= revision <= Revisions.MAX_REVISION
      ensures Valid() && Flatten() == Flat(map[], map[]) && this.revision == revision
    {
      topics := map[];
      subscriptions := map[];
      this.revision := revision;
    }

    ghost predicate Valid()
      reads this
    {
      KeysMatch(Flatten()) && 0 <= revision <= Revisions.MAX_REVISION
    }

    function Flatten(): Flat
      reads this
    {
      Flat(topics, subscriptions)
    }

    method ApplyTopicRegistration(r: Registration) returns (ok: bool)
      requires Valid()
      modifies this`topics
      ensures Valid() && ok == Accepted(Register(r))
      ensures Flatten() == FlatStep(old(Flatten()), Register(r))
    {
      if r.mode != REGISTER || r.topic == "" {
        return false;
      }
      topics := topics[r.topic := r];
      return true;
    }

    method ApplyTopicDeregistration(d: Deregistration) returns (ok: bool)
      requires Valid()
      modifies this`topics, this`subscriptions
      ensures Valid() && ok == Accepted(Deregister(d))
      ensures Flatten() == FlatStep(old(Flatten()), Deregister(d))
    {
      if d.mode != DEREGISTER || d.topic == "" {
        return false;
      }
      topics := topics - {d.topic};
      WithoutAll(subscriptions, d.topic);
      var pending := subscriptions.Keys;
      while pending != {}
        invariant topics == old(topics) - {d.topic}
        invariant pending <= old(subscriptions).Keys
        invariant subscriptions == Without(old(subscriptions), d.topic, pending)
        decreases pending
      {
        var key :| key in pending;
        WithoutNext(old(subscriptions), d.topic, pending, key);
        pending := pending - {key};
        if subscriptions[key].verified.topic == d.topic {
          subscriptions := subscriptions - {key};
        }
      }
      return true;
    }

    method ApplySubscription(s: Subscription) returns (ok: bool)
      requires Valid()
      modifies this`subscriptions
      ensures Valid() && ok == Accepted(Subscribe(s))
      ensures Flatten() == FlatStep(old(Flatten()), Subscribe(s))
    {
      if !AcceptedSubscription(s) {
        return false;
      }
      var key := SubscriptionKey(s.verified.topic, s.verified.callback);
      var stored := s;
      if key in subscriptions {
        if subscriptions[key].status != STALE {
          assert subscriptions[key := subscriptions[key]] == subscriptions;
          return true;
        }
        stored := subscriptions[key].(status := "");
      }
      subscriptions := subscriptions[key := stored];
      return true;
    }

    method ApplyStaleSubscription(s: Subscription) returns (ok: bool)
      requires Valid()
      modifies this`subscriptions
      ensures Valid() && ok == Accepted(MarkStale(s))
      ensures Flatten() == FlatStep(old(Flatten()), MarkStale(s))
    {
      if !AcceptedStale(s) {
        return false;
      }
      var key := SubscriptionKey(s.verified.topic, s.verified.callback);
      if key in subscriptions {
        assert subscriptions[key := subscriptions[key]] == subscriptions;
        if subscriptions[key].serverID == s.serverID &&
           subscriptions[key].verified.leaseStartedAt == s.verified.leaseStartedAt {
          subscriptions := subscriptions[key := subscriptions[key].(status := STALE)];
        }
      }
      return true;
    }

    method ApplyUnsubscription(u: Unsubscription) returns (ok: bool)
      requires Valid()
      modifies this`subscriptions
      ensures Valid() && ok == Accepted(Unsubscribe(u))
      ensures Flatten() == FlatStep(old(Flatten()), Unsubscribe(u))
    {
      if u.mode != UNSUBSCRIBE || u.topic == "" || u.callback == "" {
        return false;
      }
      subscriptions := subscriptions - {SubscriptionKey(u.topic, u.callback)};
      return true;
    }

    // The dispatch of state.ApplyEvent to this consumer.
    method ApplyEvent(payload: Payload) returns (ok: bool)
      requires Valid()
      modifies this`topics, this`subscriptions
      ensures Valid()
      ensures ok == Applies(payload)
      ensures Flatten() == if ok then FlatStep(old(Flatten()), Decode(payload).value) else old(Flatten())
    {
      match Decode(payload) {
        case None => ok := false;
        case Some(Register(r)) => ok := ApplyTopicRegistration(r);
        case Some(Deregister(d)) => ok := ApplyTopicDeregistration(d);
        case Some(Subscribe(s)) => ok := ApplySubscription(s);
        case Some(MarkStale(s)) => ok := ApplyStaleSubscription(s);
        case Some(Unsubscribe(u)) => ok := ApplyUnsubscription(u);
      }
    }

    // One turn of restore's second loop.
    method RestoreSubscription(s: Subscription) returns (ok: bool)
      requires Valid()
      modifies this`subscriptions
      ensures Valid() && ok == AllAccepted(LoadEntry(s))
      ensures ok ==> Flatten() == FlatFold(LoadEntry(s), old(Flatten()))
    {
      var status := s.status;
      ghost var first := Subscribe(s.(status := ""));
      assert LoadEntry(s)[0] == first;
      assert [first][..0] == [];
      ok := ApplySubscription(s.(status := ""));
      assert ok ==> Flatten() == FlatFold([first], old(Flatten()));
      if ok && status != "" {
        assert LoadEntry(s)[1] == MarkStale(s) && LoadEntry(s)[..1] == [first];
        ok := ApplyStaleSubscription(s);
      }
    }

    method RestoreTopics(list: seq<Registration>) returns (ok: bool)
      requires Valid()
      modifies this`topics
      ensures Valid() && ok == AllAccepted(RegisterAll(list))
      ensures ok ==> Flatten() == FlatFold(RegisterAll(list), old(Flatten()))
    {
      var i := 0;
      while i < |list|
        invariant Valid() && 0 <= i <= |list|
        invariant AllAccepted(RegisterAll(list[..i]))
        invariant subscriptions == old(subscriptions)
        invariant Flatten() == FlatFold(RegisterAll(list[..i]), old(Flatten()))
      {
        ok := ApplyTopicRegistration(list[i]);
        if !ok {
          RejectedTopic(list, i);
          return;
        }
        RestoredTopic(list, i, old(Flatten()));
        i := i + 1;
      }
      assert list[..i] == list;
      return true;
    }

    method RestoreSubscriptions(list: seq<Subscription>) returns (ok: bool)
      requires Valid()
      modifies this`subscriptions
      ensures Valid() && ok == AllAccepted(LoadAll(list))
      ensures ok ==> Flatten() == FlatFold(LoadAll(list), old(Flatten()))
    {
      var j := 0;
      while j < |list|
        invariant Valid() && 0 <= j <= |list|
        invariant AllAccepted(LoadAll(list[..j]))
        invariant topics == old(topics)
        invariant Flatten() == FlatFold(LoadAll(list[..j]), old(Flatten()))
      {
        ok := RestoreSubscription(list[j]);
        if !ok {
          RejectedEntry(list, j);
          return;
        }
        LoadAllNext(list, j);
        FlatFoldConcat(LoadAll(list[..j]), LoadEntry(list[j]), old(Flatten()));
        j := j + 1;
      }
      assert list[..j] == list;
      return true;
    }

    // restore: the topics first, then the subscriptions.
    method Restore(snapshot: Snapshot) returns (ok: bool)
      requires Valid()
      modifies this`topics, this`subscriptions
      ensures Valid() && ok == AllAccepted(LoadEvents(snapshot))
      ensures ok ==> Flatten() == FlatFold(LoadEvents(snapshot), old(Flatten()))
    {
      AcceptedParts(snapshot);
      FlatFoldConcat(RegisterAll(snapshot.topics), LoadAll(snapshot.subscriptions), Flatten());
      ok := RestoreTopics(snapshot.topics);
      if ok {
        ok := RestoreSubscriptions(snapshot.subscriptions);
      }
    }

    // snapshotLocked: the maps are walked in any order, and the lists are sorted.
    method SnapshotLocked() returns (s: Snapshot)
      requires Valid()
      ensures Canonical(Projected(Flatten()), revision, s)
    {
      var list := ListTopics();
      var entries := ListSubscriptions();
      SortSliceSorts(list, TOPIC_KEY);
      SortSliceSorts(entries, SUBSCRIPTION_KEY);
      SortedAreDistinct(SortSlice(list, TOPIC_KEY), TOPIC_KEY);
      SortedAreDistinct(SortSlice(entries, SUBSCRIPTION_KEY), SUBSCRIPTION_KEY);
      s := Snapshot(revision, SortSlice(list, TOPIC_KEY), SortSlice(entries, SUBSCRIPTION_KEY));
    }

    method ListTopics() returns (list: seq<Registration>)
      requires Valid()
      ensures DistinctKeys(list, TOPIC_KEY)
      ensures forall r :: r in list <==> r.topic in topics && topics[r.topic] == r
    {
      list := [];
      var pending := topics.Keys;
      while pending != {}
        invariant pending <= topics.Keys
        invariant DistinctKeys(list, TOPIC_KEY)
        invariant forall r :: r in list <==> r.topic in topics.Keys - pending && topics[r.topic] == r
        decreases pending
      {
        var topic :| topic in pending;
        pending := pending - {topic};
        assert forall i :: 0 <= i < |list| ==> list[i] in list;
        list := list + [topics[topic]];
      }
    }

    method ListSubscriptions() returns (list: seq<Subscription>)
      requires Valid()
      ensures DistinctKeys(list, SUBSCRIPTION_KEY)
      ensures forall s :: s in list <==> FlatKey(s) in subscriptions && subscriptions[FlatKey(s)] == s
    {
      list := [];
      var pending := subscriptions.Keys;
      while pending != {}
        invariant pending <= subscriptions.Keys
        invariant DistinctKeys(list, SUBSCRIPTION_KEY)
        invariant forall s :: s in list <==>
                    FlatKey(s) in subscriptions.Keys - pending && subscriptions[FlatKey(s)] == s
        decreases pending
      {
        var key :| key in pending;
        pending := pending - {key};
        assert forall i :: 0 <= i < |list| ==> list[i] in list;
        list := list + [subscriptions[key]];
      }
    }

    // consumeEvent; `acknowledged` is whether the broker takes the snapshot.
    method ConsumeEvent(payload: Payload, acknowledged: bool) returns (r: Consumed)
      requires Valid()
      modifies this
      ensures Valid()
      ensures r.Consolidated? || r.NotPersisted? <==> Applies(payload)
      ensures r.Consolidated? || r.NotPersisted? ==>
                && r.Consolidated? == acknowledged
                && Flatten() == FlatStep(old(Flatten()), Decode(payload).value)
                && revision == Revisions.Next(old(revision))
                && Canonical(Projected(Flatten()), revision, r.snapshot)
      ensures r.Rejected? || r.Exhausted? ==>
                && Flatten() == old(Flatten()) && revision == old(revision)
                && r.Exhausted? == (revision == Revisions.MAX_REVISION)
    {
      var applied := ApplyEvent(payload);
      if !applied {
        if revision == Revisions.MAX_REVISION {
          return Exhausted;
        }
        return Rejected;
      }
      revision := Revisions.Next(revision);
      var snapshot := SnapshotLocked();
      return if acknowledged then Consolidated(snapshot) else NotPersisted(snapshot);
    }

    // The events New replays, as far as the first failure.
    method Replay(retained: seq<Payload>, acknowledged: seq<bool>) returns (ok: bool)
      requires Valid() && |acknowledged| == |retained|
      modifies this
      ensures Valid()
      ensures ok <==> AllApply(retained) && AllTrue(acknowledged)
      ensures ok ==> Flatten() == FlatFold(EventsOf(retained), old(Flatten()))
    {
      var i := 0;
      while i < |retained|
        invariant Valid() && 0 <= i <= |retained|
        invariant AllApply(retained[..i]) && AllTrue(acknowledged[..i])
        invariant Flatten() == FlatFold(EventsOf(retained[..i]), old(Flatten()))
      {
        var r := ConsumeEvent(retained[i], acknowledged[i]);
        if !r.Consolidated? {
          assert !(Applies(retained[i]) && acknowledged[i]);
          return false;
        }
        EventsNext(retained, i);
        AllTrueNext(acknowledged, i);
        FlatFoldNext(EventsOf(retained[..i]), Decode(retained[i]).value, old(Flatten()));
        i := i + 1;
      }
      assert retained[..i] == retained && acknowledged[..i] == acknowledged;
      return true;
    }
  }

  /** New: restore the newest snapshot, then replay the retained events. Nothing else of the
      snapshot's history is known here, not even the offset it was taken at. */
  method Start(snapshot: Snapshot, retained: seq<Payload>, acknowledged: seq<bool>)
    returns (c: Consolidator, ok: bool)
    requires 0 <= snapshot.revision <= Revisions.MAX_REVISION
    requires |acknowledged| == |retained|
    ensures c.Valid()
    ensures ok <==> AllAccepted(LoadEvents(snapshot)) && AllApply(retained) && AllTrue(acknowledged)
    ensures ok ==> c.Flatten() == FlatFold(LoadEvents(snapshot) + EventsOf(retained), Flat(map[], map[]))
  {
    c := new Consolidator(snapshot.revision);
    ok := c.Restore(snapshot);
    if ok {
      ok := c.Replay(retained, acknowledged);
      if ok {
        FlatFoldConcat(LoadEvents(snapshot), EventsOf(retained), Flat(map[], map[]));
      }
    }
  }

  predicate AllNulFree(log: seq<Event>) {
    forall i :: 0 <= i < |log| ==> NulFree(log[i])
  }

  /** Crash recovery of the process: started on any canonical snapshot its predecessors left, and on the
      log retained since, it ends in the state of the whole log. */
  lemma {:induction false} RestartReachesLog(log: seq<Event>, runs: seq<Convergence.Run>, start: nat,
                                               snapshot: Snapshot)
    requires forall i :: 0 <= i < |runs| ==> runs[i].start <= runs[i].stop <= |log|
    requires Convergence.NoGap(runs, start) && start <= |log|
    requires Lists(Convergence.AfterRuns(log, runs), snapshot)
    requires AllNulFree(log)
    ensures AllAccepted(LoadEvents(snapshot))
    ensures var flat := FlatFold(LoadEvents(snapshot) + log[start..], Flat(map[], map[]));
            KeysMatch(flat) && Projected(flat) == Fold(log, EMPTY)
  {
    var p := Convergence.AfterRuns(log, runs);
    AfterRunsReachable(log, runs);
    LoadRebuilds(p, snapshot);
    LoadNulFree(p, snapshot);
    var all := LoadEvents(snapshot) + log[start..];
    assert AllNulFree(all);
    assert Projected(Flat(map[], map[])) == EMPTY;
    FlatFoldRefines(all, Flat(map[], map[]));
    FoldConcat(LoadEvents(snapshot), log[start..], EMPTY);
    Convergence.RecoveryConverges(log, runs, start);
  }

  predicate NulFreeProjection(p: Projection) {
    forall k :: k in p.subscriptions ==> '\0' !in k.topic
  }

  lemma StepNulFree(p: Projection, e: Event)
    requires NulFreeProjection(p) && NulFree(e)
    ensures NulFreeProjection(Step(p, e))
  {}

  lemma {:induction false} FoldNulFree(log: seq<Event>, p: Projection)
    requires WellFormed(p) && NulFreeProjection(p) && AllNulFree(log)
    ensures WellFormed(Fold(log, p)) && NulFreeProjection(Fold(log, p))
    decreases |log|
  {
    if log != [] {
      FoldNulFree(log[..|log| - 1], p);
      StepWellFormed(Fold(log[..|log| - 1], p), log[|log| - 1]);
      StepNulFree(Fold(log[..|log| - 1], p), log[|log| - 1]);
    }
  }

  lemma {:induction false} AfterRunsReachable(log: seq<Event>, runs: seq<Convergence.Run>)
    requires forall i :: 0 <= i < |runs| ==> runs[i].start <= runs[i].stop <= |log|
    requires AllNulFree(log)
    ensures WellFormed(Convergence.AfterRuns(log, runs)) && NulFreeProjection(Convergence.AfterRuns(log, runs))
    decreases |runs|
  {
    if runs != [] {
      var last := runs[|runs| - 1];
      AfterRunsReachable(log, runs[..|runs| - 1]);
      FoldNulFree(log[last.start..last.stop], Convergence.AfterRuns(log, runs[..|runs| - 1]));
    }
  }

  lemma {:induction false} RegisterAllNulFree(topics: seq<Registration>)
    ensures AllNulFree(RegisterAll(topics))
    decreases |topics|
  {
    if topics != [] {
      RegisterAllNulFree(topics[..|topics| - 1]);
    }
  }

  lemma {:induction false} LoadAllNulFree(subscriptions: seq<Subscription>)
    requires forall i :: 0 <= i < |subscriptions| ==> '\0' !in subscriptions[i].verified.topic
    ensures AllNulFree(LoadAll(subscriptions))
    decreases |subscriptions|
  {
    if subscriptions != [] {
      LoadAllNulFree(subscriptions[..|subscriptions| - 1]);
    }
  }

  lemma LoadNulFree(p: Projection, s: Snapshot)
    requires WellFormed(p) && NulFreeProjection(p) && Lists(p, s)
    ensures AllNulFree(LoadEvents(s))
  {
    assert forall i :: 0 <= i < |s.subscriptions| ==> s.subscriptions[i] in s.subscriptions;
    RegisterAllNulFree(s.topics);
    LoadAllNulFree(s.subscriptions);
  }
}
