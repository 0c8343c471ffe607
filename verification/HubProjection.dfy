/** The hub's own projection of the state events: nested maps of pointers, each stored
    subscription carrying its delivery worker's cancel function. One thread runs here; the
    interleaving of the startup scan with the event thread is in module Workers. */
module HubProjection {
  import opened Wrappers
  import opened State
  import opened Snapshots
  import opened Groups
  import Nested

  class StoredSubscription {
    const verified: Verified
    const serverID: string
    const groupID := GroupKey(verified)
    var status: string
    // Whether the cancel function is set, and whether it was called.
    var cancel: bool
    var cancelled: bool

    constructor (verified: Verified, serverID: string)
      ensures this.verified == verified && this.serverID == serverID
      ensures status == "" && !cancel && !cancelled
    {
      this.verified := verified;
      this.serverID := serverID;
      status := "";
      cancel := false;
      cancelled := false;
    }

    function Value(): Subscription
      reads this`status
    {
      Subscription(verified, serverID, status)
    }
  }

  predicate KeepsGroup(before: Option<StoredSubscription>, after: Option<StoredSubscription>) {
    before.Some? ==> after.Some? && after.value.groupID == before.value.groupID
  }

  type Pointers = map<string, map<string, StoredSubscription>>

  // The pointer maps have the shape of the value maps, and every object stands for its value.
  ghost predicate Tied(pointers: Pointers, values: map<StoredSubscription, Subscription>,
                       entries: map<string, map<string, Subscription>>)
  {
    && pointers.Keys == entries.Keys
    && forall t {:trigger TiedInner(t, pointers[t], values, entries[t])} :: t in pointers ==>
         TiedInner(t, pointers[t], values, entries[t])
  }

  ghost predicate TiedInner(topic: string, inner: map<string, StoredSubscription>,
                            values: map<StoredSubscription, Subscription>, entries: map<string, Subscription>)
  {
    && inner.Keys == entries.Keys
    && forall c {:trigger values[inner[c]]} {:trigger entries[c]} :: c in inner ==>
         inner[c] in values && values[inner[c]] == entries[c] && KeyOf(entries[c]) == Key(topic, c)
  }

  function InnerOf(pointers: Pointers, topic: string): map<string, StoredSubscription> {
    if topic in pointers then pointers[topic] else map[]
  }

  lemma TiedGet(pointers: Pointers, values: map<StoredSubscription, Subscription>, m: Nested.Maps, k: Key)
    requires Tied(pointers, values, m.subscribers)
    ensures k.callback in InnerOf(pointers, k.topic) <==> Nested.Get(m, k).Some?
    ensures k.callback in InnerOf(pointers, k.topic) ==>
              InnerOf(pointers, k.topic)[k.callback] in values &&
              values[InnerOf(pointers, k.topic)[k.callback]] == Nested.Get(m, k).value
  {
    if k.topic in pointers {
      assert TiedInner(k.topic, pointers[k.topic], values, m.subscribers[k.topic]);
    }
  }

  lemma TiedRemoveTopic(pointers: Pointers, values: map<StoredSubscription, Subscription>,
                        entries: map<string, map<string, Subscription>>, topic: string)
    requires Tied(pointers, values, entries)
    ensures Tied(pointers - {topic}, values, entries - {topic})
  {
    forall t | t in pointers - {topic}
      ensures TiedInner(t, pointers[t], values, entries[t])
    {}
  }

  // A new object takes the place of an entry.
  lemma TiedPut(pointers: Pointers, values: map<StoredSubscription, Subscription>, m: Nested.Maps,
                s: StoredSubscription, v: Subscription)
    requires Tied(pointers, values, m.subscribers) && s !in values
    ensures var k := KeyOf(v);
            Tied(pointers[k.topic := InnerOf(pointers, k.topic)[k.callback := s]], values[s := v],
                 Nested.Put(m, v).subscribers)
  {
    var k := KeyOf(v);
    var inner := InnerOf(pointers, k.topic)[k.callback := s];
    var pointers' := pointers[k.topic := inner];
    var entries' := Nested.Put(m, v).subscribers;
    forall t | t in pointers'
      ensures TiedInner(t, pointers'[t], values[s := v], entries'[t])
    {
      if t in pointers {
        assert TiedInner(t, pointers[t], values, m.subscribers[t]);
      }
    }
  }

  // An object's value changes in place.
  lemma TiedUpdate(pointers: Pointers, values: map<StoredSubscription, Subscription>, m: Nested.Maps, k: Key,
                   v: Subscription)
    requires Tied(pointers, values, m.subscribers) && Nested.Get(m, k).Some? && KeyOf(v) == k
    requires k.topic in pointers && k.callback in pointers[k.topic]
    ensures Tied(pointers, values[pointers[k.topic][k.callback] := v], Nested.Put(m, v).subscribers)
  {
    var s := pointers[k.topic][k.callback];
    var entries' := Nested.Put(m, v).subscribers;
    assert TiedInner(k.topic, pointers[k.topic], values, m.subscribers[k.topic]);
    forall t | t in pointers
      ensures TiedInner(t, pointers[t], values[s := v], entries'[t])
    {
      assert TiedInner(t, pointers[t], values, m.subscribers[t]);
      forall c | c in pointers[t]
        ensures values[s := v][pointers[t][c]] == entries'[t][c]
      {
        if pointers[t][c] == s {
          assert Key(t, c) == k;
        }
      }
    }
  }

  lemma TiedRemove(pointers: Pointers, values: map<StoredSubscription, Subscription>, m: Nested.Maps, u: Unsubscription)
    requires Tied(pointers, values, m.subscribers) && AcceptedUnsubscription(u)
    ensures var rest := InnerOf(pointers, u.topic) - {u.callback};
            Tied(if rest == map[] then pointers - {u.topic} else pointers[u.topic := rest], values,
                 Nested.Step(m, Unsubscribe(u)).subscribers)
  {
    var rest := InnerOf(pointers, u.topic) - {u.callback};
    var after := Nested.Inner(m, u.topic) - {u.callback};
    if u.topic in pointers {
      assert TiedInner(u.topic, pointers[u.topic], values, m.subscribers[u.topic]);
    }
    assert rest.Keys == after.Keys;
    assert rest == map[] <==> after == map[] by {
      assert rest == map[] <==> rest.Keys == {};
      assert after == map[] <==> after.Keys == {};
    }
    if rest == map[] {
      TiedRemoveTopic(pointers, values, m.subscribers, u.topic);
    } else {
      assert TiedInner(u.topic, rest, values, after);
      var pointers' := pointers[u.topic := rest];
      var entries' := m.subscribers[u.topic := after];
      forall t | t in pointers'
        ensures TiedInner(t, pointers'[t], values, entries'[t])
      {
        if t != u.topic {
          assert TiedInner(t, pointers[t], values, m.subscribers[t]);
        }
      }
    }
  }

  // A snapshot's events, its two lists one after the other.
  lemma SnapshotParts(snapshot: Snapshot, p: Projection)
    ensures AllAccepted(LoadEvents(snapshot)) <==>
            AllAccepted(RegisterAll(snapshot.topics)) && AllAccepted(LoadAll(snapshot.subscriptions))
    ensures Fold(LoadEvents(snapshot), p) ==
            Fold(LoadAll(snapshot.subscriptions), Fold(RegisterAll(snapshot.topics), p))
  {
    AcceptedParts(snapshot);
    FoldConcat(RegisterAll(snapshot.topics), LoadAll(snapshot.subscriptions), p);
  }

  class Hub {
    const serverID: string
    var topics: map<string, Registration>
    var subscribers: Pointers
    var replaying: bool
    // h.ctx was cancelled.
    var shutdown: bool
    // The maps with every pointer replaced by what it points to.
    ghost var Contents: Nested.Maps
    ghost var Values: map<StoredSubscription, Subscription>

    constructor (serverID: string)
      ensures this.serverID == serverID && replaying && !shutdown && Values == map[]
      ensures Valid() && Contents == Nested.Maps(map[], map[])
    {
      this.serverID := serverID;
      topics := map[];
      subscribers := map[];
      replaying := true;
      shutdown := false;
      Contents := Nested.Maps(map[], map[]);
      Values := map[];
    }

    ghost predicate Valid()
      reads this, Values.Keys
    {
      && Contents.topics == topics
      && Tied(subscribers, Values, Contents.subscribers)
      && Nested.Valid(Contents)
      && forall s :: s in Values ==> s.Value() == Values[s]
    }

    function Find(topic: string, callback: string): Option<StoredSubscription>
      reads this
    {
      if topic in subscribers && callback in subscribers[topic] then Some(subscribers[topic][callback]) else None
    }

    method ApplyTopicRegistration(r: Registration) returns (ok: bool)
      requires Valid()
      modifies this`topics, this`Contents
      ensures Valid() && ok == Accepted(Register(r))
      ensures Contents == Nested.Step(old(Contents), Register(r))
    {
      Nested.StepValid(Contents, Register(r));
      if r.mode != REGISTER || r.topic == "" {
        return false;
      }
      topics := topics[r.topic := r];
      Contents := Nested.Step(Contents, Register(r));
      return true;
    }

    method ApplyTopicDeregistration(d: Deregistration) returns (ok: bool)
      requires Valid()
      modifies this`topics, this`subscribers, this`Contents, Values.Keys`cancelled
      ensures Valid() && ok == Accepted(Deregister(d))
      ensures Contents == Nested.Step(old(Contents), Deregister(d))
      // Exactly the workers of the removed entries are cancelled.
      ensures forall s :: s in Values ==>
                s.cancelled == (old(s.cancelled) ||
                                (ok && s.cancel && old(Find(d.topic, s.verified.callback)) == Some(s)))
    {
      Nested.StepValid(Contents, Deregister(d));
      if d.mode != DEREGISTER || d.topic == "" {
        return false;
      }
      var byCallback := InnerOf(subscribers, d.topic);
      assert d.topic in subscribers ==> TiedInner(d.topic, byCallback, Values, Contents.subscribers[d.topic]);
      TiedRemoveTopic(subscribers, Values, Contents.subscribers, d.topic);
      topics := topics - {d.topic};
      subscribers := subscribers - {d.topic};
      Contents := Nested.Step(Contents, Deregister(d));
      CancelAll(byCallback, Values.Keys);
      return true;
    }

    // The loop after the lock is released.
    static method CancelAll(byCallback: map<string, StoredSubscription>, ghost repr: set<StoredSubscription>)
      requires forall c :: c in byCallback ==> byCallback[c] in repr && byCallback[c].verified.callback == c
      modifies repr`cancelled
      ensures forall s :: s in repr ==>
                s.cancelled == (old(s.cancelled) ||
                                (s.cancel && s.verified.callback in byCallback && byCallback[s.verified.callback] == s))
    {
      var pending := byCallback.Keys;
      while pending != {}
        invariant pending <= byCallback.Keys
        invariant forall s :: s in repr ==>
                    s.cancelled == (old(s.cancelled) ||
                                    (s.cancel && s.verified.callback in byCallback.Keys - pending &&
                                     byCallback[s.verified.callback] == s))
        decreases pending
      {
        var c :| c in pending;
        pending := pending - {c};
        if byCallback[c].cancel {
          byCallback[c].cancelled := true;
        }
      }
    }

    method ApplySubscription(s: Subscription) returns (ok: bool)
      requires Valid()
      modifies this`subscribers, this`Contents, this`Values
      ensures Valid() && ok == Accepted(Subscribe(s))
      ensures Contents == Nested.Step(old(Contents), Subscribe(s))
      ensures forall o :: o in old(Values) ==> o in Values
      // Only a new object gets a worker, and only when this server owns it, replay is over and the
      // hub is not shut down.
      ensures forall o :: o in Values && o !in old(Values) ==>
                fresh(o) && !o.cancelled && o.cancel == (!replaying && !shutdown && o.serverID == serverID)
      // A known subscription, revived or not, stays with its consumer group.
      ensures KeepsGroup(old(Find(s.verified.topic, s.verified.callback)), Find(s.verified.topic, s.verified.callback))
    {
      if !AcceptedSubscription(s) {
        return false;
      }
      var stored := StoreSubscription(s);
      if stored.Some? && !replaying {
        StartWorker(stored.value);
      }
      return true;
    }

    // The part of ApplySubscription under the lock: the object it stores, if any.
    method StoreSubscription(s: Subscription) returns (r: Option<StoredSubscription>)
      requires Valid() && AcceptedSubscription(s)
      modifies this`subscribers, this`Contents, this`Values
      ensures Valid() && Contents == Nested.Step(old(Contents), Subscribe(s))
      ensures r.None? ==> Values == old(Values)
      ensures r.Some? ==>
                && fresh(r.value) && r.value.status == "" && !r.value.cancel && !r.value.cancelled
                && Find(r.value.verified.topic, r.value.verified.callback) == r
                && Values == old(Values)[r.value := r.value.Value()]
      ensures KeepsGroup(old(Find(s.verified.topic, s.verified.callback)), Find(s.verified.topic, s.verified.callback))
    {
      var verified := s.verified;
      var owner := s.serverID;
      var byCallback := InnerOf(subscribers, verified.topic);
      TiedGet(subscribers, Values, Contents, KeyOf(s));
      if verified.callback in byCallback {
        var existing := byCallback[verified.callback];
        Nested.GetValid(Contents, KeyOf(s));
        if existing.status != STALE {
          Nested.PutSame(Contents, KeyOf(s));
          return None;
        }
        verified := existing.verified;
        owner := existing.serverID;
      }
      var stored := new StoredSubscription(verified, owner);
      Place(stored);
      return Some(stored);
    }

    // byCallback[callback] = stored, the inner map being made if there is none.
    method Place(stored: StoredSubscription)
      requires Valid() && stored !in Values && stored.status == ""
      modifies this`subscribers, this`Contents, this`Values
      ensures Valid() && Contents == Nested.Put(old(Contents), stored.Value())
      ensures Values == old(Values)[stored := stored.Value()]
      ensures Find(stored.verified.topic, stored.verified.callback) == Some(stored)
    {
      var verified := stored.verified;
      TiedPut(subscribers, Values, Contents, stored, stored.Value());
      Nested.PutValid(Contents, stored.Value());
      var byCallback := InnerOf(subscribers, verified.topic);
      subscribers := subscribers[verified.topic := byCallback[verified.callback := stored]];
      Contents := Nested.Put(Contents, stored.Value());
      Values := Values[stored := stored.Value()];
    }

    // startSubscriptionWorker, as far as it decides whether a worker starts.
    method StartWorker(stored: StoredSubscription)
      modifies stored`cancel
      ensures stored.cancel == (old(stored.cancel) ||
                                (Find(stored.verified.topic, stored.verified.callback) == Some(stored) &&
                                 stored.serverID == serverID && stored.status != STALE && !shutdown))
    {
      var current := Find(stored.verified.topic, stored.verified.callback);
      if current != Some(stored) || stored.serverID != serverID || stored.status == STALE || stored.cancel ||
         shutdown {
        return;
      }
      stored.cancel := true;
    }

    method ApplyStaleSubscription(s: Subscription) returns (ok: bool)
      requires Valid()
      modifies this`Contents, this`Values, Values.Keys
      ensures Valid() && ok == Accepted(MarkStale(s)) && Values.Keys == old(Values).Keys
      ensures Contents == Nested.Step(old(Contents), MarkStale(s))
      // A matching entry loses its worker, and nothing happens to the others.
      ensures forall o :: o in Values ==>
                if ok && Find(s.verified.topic, s.verified.callback) == Some(o) && SameLease(old(o.Value()), s)
                then !o.cancel && o.cancelled == old(o.cancelled || o.cancel)
                else o.cancel == old(o.cancel) && o.cancelled == old(o.cancelled)
    {
      if !AcceptedStale(s) {
        return false;
      }
      TiedGet(subscribers, Values, Contents, KeyOf(s));
      var found := Find(s.verified.topic, s.verified.callback);
      if found.None? {
        return true;
      }
      var stored := found.value;
      if stored.serverID != s.serverID || stored.verified.leaseStartedAt != s.verified.leaseStartedAt {
        Nested.PutSame(Contents, KeyOf(s));
        return true;
      }
      Nested.GetValid(Contents, KeyOf(s));
      Stale(stored);
      return true;
    }

    // The entry under the lock is marked, and its worker cancelled after the lock is released.
    method Stale(stored: StoredSubscription)
      requires Valid() && Find(stored.verified.topic, stored.verified.callback) == Some(stored) && stored in Values
      modifies this`Contents, this`Values, stored
      ensures Valid() && Values.Keys == old(Values).Keys
      ensures Contents == Nested.Put(old(Contents), old(stored.Value()).(status := STALE))
      ensures !stored.cancel && stored.cancelled == old(stored.cancelled || stored.cancel)
    {
      var k := Key(stored.verified.topic, stored.verified.callback);
      TiedGet(subscribers, Values, Contents, k);
      stored.status := STALE;
      TiedUpdate(subscribers, Values, Contents, k, stored.Value());
      Nested.PutValid(Contents, stored.Value());
      Contents := Nested.Put(Contents, stored.Value());
      Values := Values[stored := stored.Value()];
      var cancel := stored.cancel;
      stored.cancel := false;
      if cancel {
        stored.cancelled := true;
      }
    }

    method ApplyUnsubscription(u: Unsubscription) returns (ok: bool)
      requires Valid()
      modifies this`subscribers, this`Contents, Values.Keys`cancelled
      ensures Valid() && ok == Accepted(Unsubscribe(u))
      ensures Contents == Nested.Step(old(Contents), Unsubscribe(u))
      ensures forall o :: o in Values ==>
                o.cancelled == (old(o.cancelled) || (ok && o.cancel && old(Find(u.topic, u.callback)) == Some(o)))
    {
      Nested.StepValid(Contents, Unsubscribe(u));
      if u.mode != UNSUBSCRIBE || u.topic == "" || u.callback == "" {
        return false;
      }
      var stored := Find(u.topic, u.callback);
      TiedGet(subscribers, Values, Contents, Key(u.topic, u.callback));
      TiedRemove(subscribers, Values, Contents, u);
      var byCallback := InnerOf(subscribers, u.topic) - {u.callback};
      subscribers := if byCallback == map[] then subscribers - {u.topic} else subscribers[u.topic := byCallback];
      Contents := Nested.Step(Contents, Unsubscribe(u));
      if stored.Some? && stored.value.cancel {
        stored.value.cancelled := true;
      }
      return true;
    }

    // What the pointer maps mean.
    ghost function Projected(): Projection
      reads this
    {
      Nested.Projected(Contents)
    }

    // The dispatch of state.ApplyEvent to this consumer.
    method ApplyEvent(payload: Payload) returns (ok: bool)
      requires Valid()
      modifies this`topics, this`subscribers, this`Contents, this`Values, Values.Keys
      ensures Valid() && fresh(Values.Keys - old(Values.Keys))
      ensures ok <==> Decode(payload).Some? && Accepted(Decode(payload).value)
      ensures Projected() == if ok then Step(old(Projected()), Decode(payload).value) else old(Projected())
    {
      var decoded := Decode(payload);
      if decoded.None? {
        return false;
      }
      ok := Apply(decoded.value);
    }

    method Apply(e: Event) returns (ok: bool)
      requires Valid()
      modifies this`topics, this`subscribers, this`Contents, this`Values, Values.Keys
      ensures Valid() && fresh(Values.Keys - old(Values.Keys))
      ensures ok == Accepted(e) && Projected() == Step(old(Projected()), e)
    {
      Nested.StepRefines(Contents, e);
      match e {
        case Register(r) => ok := ApplyTopicRegistration(r);
        case Deregister(d) => ok := ApplyTopicDeregistration(d);
        case Subscribe(s) => ok := ApplySubscription(s);
        case MarkStale(s) => ok := ApplyStaleSubscription(s);
        case Unsubscribe(u) => ok := ApplyUnsubscription(u);
      }
    }

    method LoadTopics(list: seq<Registration>) returns (ok: bool)
      requires Valid()
      modifies this`topics, this`Contents
      ensures Valid() && ok == AllAccepted(RegisterAll(list))
      ensures ok ==> Projected() == Fold(RegisterAll(list), old(Projected()))
    {
      var i := 0;
      while i < |list|
        invariant Valid() && 0 <= i <= |list|
        invariant AllAccepted(RegisterAll(list[..i]))
        invariant Projected() == Fold(RegisterAll(list[..i]), old(Projected()))
      {
        Nested.StepRefines(Contents, Register(list[i]));
        ok := ApplyTopicRegistration(list[i]);
        if !ok {
          RejectedTopic(list, i);
          return;
        }
        RegisterAllNext(list, i);
        FoldNext(RegisterAll(list[..i]), Register(list[i]), old(Projected()));
        i := i + 1;
      }
      assert list[..i] == list;
      return true;
    }

    // One turn of applySnapshot's second loop.
    method LoadSubscription(s: Subscription) returns (ok: bool)
      requires Valid()
      modifies this`topics, this`subscribers, this`Contents, this`Values, Values.Keys
      ensures Valid() && fresh(Values.Keys - old(Values.Keys))
      ensures ok == AllAccepted(LoadEntry(s))
      ensures ok ==> Projected() == Fold(LoadEntry(s), old(Projected()))
    {
      FoldLoadEntry(s, Projected());
      var status := s.status;
      ok := Apply(Subscribe(s.(status := "")));
      if ok && status != "" {
        ok := Apply(MarkStale(s));
      }
    }

    method LoadSubscriptions(list: seq<Subscription>) returns (ok: bool)
      requires Valid()
      modifies this`topics, this`subscribers, this`Contents, this`Values, Values.Keys
      ensures Valid() && fresh(Values.Keys - old(Values.Keys))
      ensures ok == AllAccepted(LoadAll(list))
      ensures ok ==> Projected() == Fold(LoadAll(list), old(Projected()))
    {
      var j := 0;
      while j < |list|
        invariant Valid() && 0 <= j <= |list|
        invariant fresh(Values.Keys - old(Values.Keys))
        invariant AllAccepted(LoadAll(list[..j]))
        invariant Projected() == Fold(LoadAll(list[..j]), old(Projected()))
      {
        ok := LoadSubscription(list[j]);
        if !ok {
          RejectedEntry(list, j);
          return;
        }
        LoadAllNext(list, j);
        FoldConcat(LoadAll(list[..j]), LoadEntry(list[j]), old(Projected()));
        j := j + 1;
      }
      assert list[..j] == list;
      return true;
    }

    // applySnapshot: the same events, in the same order, as the consolidator's restore.
    method ApplySnapshot(snapshot: Snapshot) returns (ok: bool)
      requires Valid()
      modifies this`topics, this`subscribers, this`Contents, this`Values, Values.Keys
      ensures Valid() && fresh(Values.Keys - old(Values.Keys))
      ensures ok == AllAccepted(LoadEvents(snapshot))
      ensures ok ==> Projected() == Fold(LoadEvents(snapshot), old(Projected()))
    {
      ghost var before := Projected();
      SnapshotParts(snapshot, before);
      ok := LoadTopics(snapshot.topics);
      if ok {
        ok := LoadSubscriptions(snapshot.subscriptions);
      }
    }
  }
}
