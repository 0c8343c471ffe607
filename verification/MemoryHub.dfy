/** The in-memory hub: nested maps of versioned subscriptions, changed in place under one lock. */
module MemoryHub {
  import opened Wrappers
  import opened State
  import opened Generations
  import Int64
  import Lease

  type Inner = map<string, Stored>

  // An inner map is dropped with its last entry.
  predicate InnerOk(topic: string, inner: Inner) {
    inner != map[] && forall c {:trigger inner[c]} :: c in inner ==> StoredKey(inner[c]) == Key(topic, c)
  }

  function InnerOf(nested: map<string, Inner>, topic: string): Inner {
    if topic in nested then nested[topic] else map[]
  }

  ghost predicate Tied(nested: map<string, Inner>, entries: map<Key, Stored>) {
    && (forall t {:trigger InnerOk(t, nested[t])} :: t in nested ==> InnerOk(t, nested[t]))
    && (forall k {:trigger Lookup(entries, k)} :: Lookup(entries, k) == Lookup(InnerOf(nested, k.topic), k.callback))
  }

  // An inner map as it is after a deletion from it.
  function Collapse(nested: map<string, Inner>, topic: string, inner: Inner): map<string, Inner> {
    if inner == map[] then nested - {topic} else nested[topic := inner]
  }

  lemma TiedCollapse(nested: map<string, Inner>, entries: map<Key, Stored>, topic: string, inner: Inner,
                     entries': map<Key, Stored>)
    requires Tied(nested, entries)
    requires forall c {:trigger inner[c]} :: c in inner ==> StoredKey(inner[c]) == Key(topic, c)
    requires forall k {:trigger Lookup(entries', k)} ::
               Lookup(entries', k) == if k.topic == topic then Lookup(inner, k.callback) else Lookup(entries, k)
    ensures Tied(Collapse(nested, topic, inner), entries')
  {
    var nested' := Collapse(nested, topic, inner);
    forall t | t in nested'
      ensures InnerOk(t, nested'[t])
    {
      assert t != topic ==> InnerOk(t, nested[t]);
    }
    forall k
      ensures Lookup(entries', k) == Lookup(InnerOf(nested', k.topic), k.callback)
    {
      assert Lookup(entries, k) == Lookup(InnerOf(nested, k.topic), k.callback);
    }
  }

  lemma TiedHas(nested: map<string, Inner>, entries: map<Key, Stored>, k: Key)
    requires Tied(nested, entries)
    ensures k in entries <==> k.callback in InnerOf(nested, k.topic)
    ensures k in entries ==> entries[k] == InnerOf(nested, k.topic)[k.callback] && StoredKey(entries[k]) == k
  {
    assert Lookup(entries, k) == Lookup(InnerOf(nested, k.topic), k.callback);
    if k.topic in nested {
      assert InnerOk(k.topic, nested[k.topic]);
    }
  }

  // The unexpired entries among `seen`, each once.
  predicate Collected(before: Inner, seen: set<string>, now: int, active: seq<Stored>) {
    && (forall s {:trigger s in active} :: s in active ==>
          var c := s.subscription.callback; c in seen && c in before && before[c] == s && s.expiresAt > now)
    && (forall c {:trigger before[c]} :: c in seen && c in before && before[c].expiresAt > now ==> before[c] in active)
    && (forall i, j {:trigger active[i], active[j]} :: 0 <= i < j < |active| ==>
          active[i].subscription.callback != active[j].subscription.callback)
  }

  lemma CollectedNext(before: Inner, seen: set<string>, now: int, active: seq<Stored>, c: string)
    requires Collected(before, seen, now, active) && c in before && c !in seen && before[c].subscription.callback == c
    ensures Collected(before, seen + {c}, now, if before[c].expiresAt <= now then active else active + [before[c]])
  {
    assert forall i :: 0 <= i < |active| ==> active[i] in active;
  }

  // The walk over one inner map, in any order, deleting from it on the way.
  method SweepInner(before: Inner, now: int) returns (byCallback: Inner, active: seq<Stored>)
    requires forall c :: c in before ==> before[c].subscription.callback == c
    ensures byCallback == map c | c in before && before[c].expiresAt > now :: before[c]
    ensures Collected(before, before.Keys, now, active)
  {
    byCallback := before;
    var pending := byCallback.Keys;
    active := [];
    while pending != {}
      invariant pending <= before.Keys
      invariant byCallback == map c | c in before && (c in pending || before[c].expiresAt > now) :: before[c]
      invariant Collected(before, before.Keys - pending, now, active)
      decreases pending
    {
      var callback :| callback in pending;
      CollectedNext(before, before.Keys - pending, now, active, callback);
      assert before.Keys - pending + {callback} == before.Keys - (pending - {callback});
      pending := pending - {callback};
      var stored := byCallback[callback];
      if stored.expiresAt <= now {
        byCallback := byCallback - {callback};
      } else {
        active := active + [stored];
      }
    }
    assert before.Keys - pending == before.Keys;
  }

  datatype Outcome = Done | Denied | BadLease

  class Hub {
    var topics: map<string, Registration>
    var subscriptions: map<string, Inner>
    var nextVersion: nat
    // What the nested maps hold.
    ghost var Entries: map<Key, Stored>

    constructor ()
      ensures Valid() && Contents() == Memory(map[], map[], 0)
    {
      topics := map[];
      subscriptions := map[];
      nextVersion := 0;
      Entries := map[];
    }

    ghost predicate Valid()
      reads this
    {
      Tied(subscriptions, Entries) && nextVersion < VERSIONS
    }

    ghost function Contents(): Memory
      reads this
    {
      Memory(topics, Entries, nextVersion)
    }

    method OnRegisterTopic(r: Registration) returns (o: Outcome)
      requires Valid()
      modifies this`topics
      ensures Valid() && o == if r.topic in old(topics) then Denied else Done
      ensures Contents() == Registered(old(Contents()), r)
    {
      if r.topic in topics {
        return Denied;
      }
      topics := topics[r.topic := r];
      return Done;
    }

    method OnDeregisterTopic(topic: string) returns (o: Outcome)
      requires Valid()
      modifies this
      ensures Valid() && o == if topic in old(topics) then Done else Denied
      ensures Contents() == Deregistered(old(Contents()), topic)
      ensures forall k :: Lookup(Entries, k) == if o.Done? && k.topic == topic then None else Lookup(old(Entries), k)
    {
      if topic !in topics {
        return Denied;
      }
      topics := topics - {topic};
      ghost var after := map k | k in Entries && k.topic != topic :: Entries[k];
      TiedCollapse(subscriptions, Entries, topic, map[], after);
      subscriptions := subscriptions - {topic};
      Entries := after;
      return Done;
    }

    // Passes exactly when the verified request, were it to follow at once, would be stored; a
    // subscription that is there already does not matter.
    method OnSubscriptionValidation(topic: string) returns (o: Outcome)
      requires Valid()
      ensures o.Done? || o.Denied?
      ensures forall v: Verified, e: int {:trigger Renewed(Contents(), v, e)} :: v.topic == topic ==>
                (o.Done? <==> Renewed(Contents(), v, e) != Contents())
    {
      return if topic in topics then Done else Denied;
    }

    method OnSubscriptionVerified(v: Verified) returns (o: Outcome)
      requires Valid()
      modifies this
      ensures Valid()
      ensures o.BadLease? <==> Lease.AppLease(v.effectiveLeaseSeconds).None?
      ensures o.BadLease? ==> Contents() == old(Contents())
      ensures !o.BadLease? ==>
                var lease := Int64.Multiply(Lease.AppLease(v.effectiveLeaseSeconds).value, Lease.SECOND);
                && Contents() == Renewed(old(Contents()), v, v.leaseStartedAt + lease)
                && o == if v.topic in topics then Done else Denied
      // It lives for as many seconds as were granted, from its lease start on; no other is touched.
      ensures o.Done? && Int64.Parse(v.effectiveLeaseSeconds).value <= 9_223_372_036 ==>
                && Key(v.topic, v.callback) in Entries && Entries[Key(v.topic, v.callback)].subscription == v
                && Entries[Key(v.topic, v.callback)].expiresAt ==
                   v.leaseStartedAt + Int64.Parse(v.effectiveLeaseSeconds).value * 1_000_000_000
      ensures forall k :: k != Key(v.topic, v.callback) ==> Lookup(Entries, k) == Lookup(old(Entries), k)
    {
      var lease := Lease.AppLease(v.effectiveLeaseSeconds);
      if lease.None? {
        return BadLease;
      }
      if v.topic !in topics {
        return Denied;
      }
      nextVersion := (nextVersion + 1) % VERSIONS;
      var stored := Stored(v, v.leaseStartedAt + Int64.Multiply(lease.value, Lease.SECOND), nextVersion);
      var byCallback := InnerOf(subscriptions, v.topic)[v.callback := stored];
      TiedPut(subscriptions, Entries, stored);
      subscriptions := subscriptions[v.topic := byCallback];
      Entries := Entries[StoredKey(stored) := stored];
      return Done;
    }

    method OnUnsubscriptionValidation(topic: string, callback: string) returns (o: Outcome)
      requires Valid()
      ensures o == if topic in topics && Key(topic, callback) in Entries then Done else Denied
    {
      TiedHas(subscriptions, Entries, Key(topic, callback));
      if topic !in topics {
        return Denied;
      }
      return if callback in InnerOf(subscriptions, topic) then Done else Denied;
    }

    method OnUnsubscriptionVerified(topic: string, callback: string)
      requires Valid()
      modifies this`subscriptions, this`Entries
      ensures Valid()
      ensures Contents() == Without(old(Contents()), Key(topic, callback))
    {
      var byCallback := InnerOf(subscriptions, topic) - {callback};
      TiedDelete(subscriptions, Entries, Key(topic, callback));
      Entries := Entries - {Key(topic, callback)};
      subscriptions := if byCallback == map[] then subscriptions - {topic} else subscriptions[topic := byCallback];
    }

    /** Deletes the expired subscriptions of a topic while it collects the others. */
    method ActiveSubscriptions(topic: string, now: int) returns (active: seq<Stored>)
      requires Valid()
      modifies this`subscriptions, this`Entries
      ensures Valid()
      ensures Contents() == Swept(old(Contents()), topic, now)
      ensures forall s :: s in active <==> s in Active(old(Contents()), topic, now)
      ensures forall i, j :: 0 <= i < j < |active| ==> StoredKey(active[i]) != StoredKey(active[j])
    {
      var before := InnerOf(subscriptions, topic);
      ValuesUnder(subscriptions, Entries, topic);
      var byCallback;
      byCallback, active := SweepInner(before, now);
      TiedSweep(subscriptions, Entries, topic, now, byCallback);
      SameActive(Contents(), before, topic, now, active);
      Entries := Swept(Contents(), topic, now).entries;
      subscriptions := if byCallback == map[] then subscriptions - {topic} else subscriptions[topic := byCallback];
    }

    method RemoveSubscription(topic: string, callback: string, version: nat)
      requires Valid()
      modifies this`subscriptions, this`Entries
      ensures Valid()
      ensures Contents() == Removed(old(Contents()), Key(topic, callback), version)
    {
      var byCallback := InnerOf(subscriptions, topic);
      TiedHas(subscriptions, Entries, Key(topic, callback));
      TiedDelete(subscriptions, Entries, Key(topic, callback));
      TiedUnchanged(subscriptions, Entries, topic);
      if callback in byCallback && byCallback[callback].version == version {
        byCallback := byCallback - {callback};
        Entries := Entries - {Key(topic, callback)};
      }
      subscriptions := if byCallback == map[] then subscriptions - {topic} else subscriptions[topic := byCallback];
    }

    method HasSubscription(topic: string, callback: string, now: int) returns (r: bool)
      requires Valid()
      ensures r == (Key(topic, callback) in Entries && Entries[Key(topic, callback)].expiresAt > now)
    {
      TiedHas(subscriptions, Entries, Key(topic, callback));
      var byCallback := InnerOf(subscriptions, topic);
      return callback in byCallback && byCallback[callback].expiresAt > now;
    }
  }

  lemma TiedPut(nested: map<string, Inner>, entries: map<Key, Stored>, s: Stored)
    requires Tied(nested, entries)
    ensures var k := StoredKey(s);
            Tied(Collapse(nested, k.topic, InnerOf(nested, k.topic)[k.callback := s]), entries[k := s])
    ensures var k := StoredKey(s); InnerOf(nested, k.topic)[k.callback := s] != map[]
  {
    var k := StoredKey(s);
    var inner := InnerOf(nested, k.topic)[k.callback := s];
    assert k.callback in inner;
    forall l
      ensures Lookup(entries[k := s], l) == if l.topic == k.topic then Lookup(inner, l.callback) else Lookup(entries, l)
    {
      assert Lookup(entries, l) == Lookup(InnerOf(nested, l.topic), l.callback);
    }
    assert k.topic in nested ==> InnerOk(k.topic, nested[k.topic]);
    TiedCollapse(nested, entries, k.topic, inner, entries[k := s]);
  }

  lemma TiedDelete(nested: map<string, Inner>, entries: map<Key, Stored>, k: Key)
    requires Tied(nested, entries)
    ensures Tied(Collapse(nested, k.topic, InnerOf(nested, k.topic) - {k.callback}), entries - {k})
  {
    var inner := InnerOf(nested, k.topic) - {k.callback};
    forall l
      ensures Lookup(entries - {k}, l) == if l.topic == k.topic then Lookup(inner, l.callback) else Lookup(entries, l)
    {
      assert Lookup(entries, l) == Lookup(InnerOf(nested, l.topic), l.callback);
    }
    assert k.topic in nested ==> InnerOk(k.topic, nested[k.topic]);
    TiedCollapse(nested, entries, k.topic, inner, entries - {k});
  }

  lemma TiedUnchanged(nested: map<string, Inner>, entries: map<Key, Stored>, topic: string)
    requires Tied(nested, entries)
    ensures Collapse(nested, topic, InnerOf(nested, topic)) == nested
  {
    assert topic in nested ==> InnerOk(topic, nested[topic]);
  }

  lemma AllTiedHas(nested: map<string, Inner>, entries: map<Key, Stored>, topic: string)
    requires Tied(nested, entries)
    ensures forall c {:trigger InnerOf(nested, topic)[c]} :: c in InnerOf(nested, topic) ==>
              StoredKey(InnerOf(nested, topic)[c]) == Key(topic, c)
  {
    assert topic in nested ==> InnerOk(topic, nested[topic]);
  }

  lemma ValuesUnder(nested: map<string, Inner>, entries: map<Key, Stored>, topic: string)
    requires Tied(nested, entries)
    ensures var inner := InnerOf(nested, topic);
            && (forall c :: c in inner <==> Key(topic, c) in entries)
            && (forall c :: c in inner ==> inner[c] == entries[Key(topic, c)] && StoredKey(inner[c]) == Key(topic, c))
  {
    forall c
      ensures c in InnerOf(nested, topic) <==> Key(topic, c) in entries
      ensures c in InnerOf(nested, topic) ==>
                InnerOf(nested, topic)[c] == entries[Key(topic, c)] &&
                StoredKey(InnerOf(nested, topic)[c]) == Key(topic, c)
    {
      TiedHas(nested, entries, Key(topic, c));
    }
  }

  lemma TiedSweep(nested: map<string, Inner>, entries: map<Key, Stored>, topic: string, now: int, inner: Inner)
    requires Tied(nested, entries)
    requires var before := InnerOf(nested, topic);
             inner == map c | c in before && before[c].expiresAt > now :: before[c]
    ensures var after := map k | k in entries && !(k.topic == topic && entries[k].expiresAt <= now) :: entries[k];
            Tied(Collapse(nested, topic, inner), after)
  {
    var after := map k | k in entries && !(k.topic == topic && entries[k].expiresAt <= now) :: entries[k];
    forall l
      ensures Lookup(after, l) == if l.topic == topic then Lookup(inner, l.callback) else Lookup(entries, l)
    {
      TiedHas(nested, entries, l);
    }
    AllTiedHas(nested, entries, topic);
    TiedCollapse(nested, entries, topic, inner, after);
  }

  lemma SameActive(m: Memory, before: Inner, topic: string, now: int, active: seq<Stored>)
    requires forall c :: c in before <==> Key(topic, c) in m.entries
    requires forall c :: c in before ==> before[c] == m.entries[Key(topic, c)] && StoredKey(before[c]) == Key(topic, c)
    requires Collected(before, before.Keys, now, active)
    ensures forall s :: s in active <==> s in Active(m, topic, now)
  {
    forall s
      ensures s in active <==> s in Active(m, topic, now)
    {
      if s in active {
        assert Key(topic, s.subscription.callback) in m.entries;
      }
      if s in Active(m, topic, now) {
        var k :| k in m.entries && k.topic == topic && m.entries[k].expiresAt > now && m.entries[k] == s;
        assert k == Key(topic, k.callback) && k.callback in before;
      }
    }
  }
}
