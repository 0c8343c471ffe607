/** The hub's maps as values: topic to callback to subscription, an inner map being dropped with
    its last entry. */
module Nested {
  import opened Wrappers
  import opened State
  import Convergence

  datatype Maps = Maps(topics: map<string, Registration>, subscribers: map<string, map<string, Subscription>>)

  function Inner(m: Maps, topic: string): map<string, Subscription> {
    if topic in m.subscribers then m.subscribers[topic] else map[]
  }

  function Get(m: Maps, k: Key): Option<Subscription> {
    Lookup(Inner(m, k.topic), k.callback)
  }

  function Put(m: Maps, s: Subscription): Maps {
    var v := s.verified;
    m.(subscribers := m.subscribers[v.topic := Inner(m, v.topic)[v.callback := s]])
  }

  // The hub's own reading of one event.
  function Step(m: Maps, e: Event): Maps {
    if !Accepted(e) then m
    else
      match e
      case Register(r) => m.(topics := m.topics[r.topic := r])
      case Deregister(d) => Maps(m.topics - {d.topic}, m.subscribers - {d.topic})
      case Subscribe(s) => Put(m, Subscribed(Get(m, KeyOf(s)), s))
      case MarkStale(s) => if Get(m, KeyOf(s)).None? then m else Put(m, Staled(Get(m, KeyOf(s)).value, s))
      case Unsubscribe(u) =>
        var rest := Inner(m, u.topic) - {u.callback};
        if rest == map[] then m.(subscribers := m.subscribers - {u.topic})
        else m.(subscribers := m.subscribers[u.topic := rest])
  }

  predicate InnerValid(topic: string, inner: map<string, Subscription>) {
    && inner != map[]
    && forall c {:trigger KeyOf(inner[c])} :: c in inner ==>
         KeyOf(inner[c]) == Key(topic, c) && (inner[c].status == "" || inner[c].status == STALE)
  }

  predicate Valid(m: Maps) {
    forall t {:trigger InnerValid(t, m.subscribers[t])} :: t in m.subscribers ==> InnerValid(t, m.subscribers[t])
  }

  lemma PutValid(m: Maps, s: Subscription)
    requires Valid(m) && (s.status == "" || s.status == STALE)
    ensures Valid(Put(m, s))
  {
    var v := s.verified;
    assert v.topic in m.subscribers ==> InnerValid(v.topic, m.subscribers[v.topic]);
    var inner := Inner(m, v.topic)[v.callback := s];
    assert v.callback in inner;
    assert InnerValid(v.topic, inner);
  }

  lemma StepValid(m: Maps, e: Event)
    requires Valid(m)
    ensures Valid(Step(m, e))
  {
    if Accepted(e) {
      match e
      case Register(_) =>
      case Deregister(_) =>
      case Subscribe(s) =>
        if Get(m, KeyOf(s)).Some? {
          GetValid(m, KeyOf(s));
        }
        PutValid(m, Subscribed(Get(m, KeyOf(s)), s));
      case MarkStale(s) =>
        if Get(m, KeyOf(s)).Some? {
          GetValid(m, KeyOf(s));
          PutValid(m, Staled(Get(m, KeyOf(s)).value, s));
        }
      case Unsubscribe(u) =>
        var inner := Inner(m, u.topic);
        var rest := inner - {u.callback};
        assert u.topic in m.subscribers ==> InnerValid(u.topic, inner);
        assert forall c :: c in rest ==> rest[c] == inner[c] && KeyOf(inner[c]) == Key(u.topic, c);
        assert rest != map[] ==> InnerValid(u.topic, rest);
    }
  }

  lemma GetValid(m: Maps, k: Key)
    requires Valid(m) && Get(m, k).Some?
    ensures KeyOf(Get(m, k).value) == k
    ensures Get(m, k).value.status == "" || Get(m, k).value.status == STALE
  {
    assert InnerValid(k.topic, m.subscribers[k.topic]);
  }

  function Projected(m: Maps): Projection {
    var keys := set t, c | t in m.subscribers && c in m.subscribers[t] :: Key(t, c);
    Projection(m.topics, map k | k in keys :: m.subscribers[k.topic][k.callback])
  }

  lemma EntryIsGet(m: Maps, k: Key)
    ensures Convergence.Entry(Projected(m), k) == Get(m, k)
  {}

  lemma PutSame(m: Maps, k: Key)
    requires Valid(m) && Get(m, k).Some?
    ensures Put(m, Get(m, k).value) == m
  {
    GetValid(m, k);
    var inner := m.subscribers[k.topic];
    assert inner[k.callback := inner[k.callback]] == inner;
    assert m.subscribers[k.topic := inner] == m.subscribers;
  }

  lemma GetAfterPut(m: Maps, s: Subscription, k: Key)
    ensures Get(Put(m, s), k) == if KeyOf(s) == k then Some(s) else Get(m, k)
  {}

  lemma GetAfter(m: Maps, e: Event, k: Key)
    requires Valid(m)
    ensures Get(Step(m, e), k) == Convergence.StepEntry(e, k, Get(m, k))
  {
    if Accepted(e) {
      match e
      case Register(_) =>
      case Deregister(_) =>
      case Subscribe(s) =>
        if Get(m, KeyOf(s)).Some? {
          GetValid(m, KeyOf(s));
        }
        GetAfterPut(m, Subscribed(Get(m, KeyOf(s)), s), k);
      case MarkStale(s) =>
        if Get(m, KeyOf(s)).Some? {
          GetValid(m, KeyOf(s));
          GetAfterPut(m, Staled(Get(m, KeyOf(s)).value, s), k);
        }
      case Unsubscribe(_) =>
    }
  }

  /** The nested maps refine the projection on every event. */
  lemma StepRefines(m: Maps, e: Event)
    requires Valid(m)
    ensures Valid(Step(m, e)) && Projected(Step(m, e)) == State.Step(Projected(m), e)
  {
    StepValid(m, e);
    forall k
      ensures Convergence.Entry(Projected(Step(m, e)), k) == Convergence.Entry(State.Step(Projected(m), e), k)
    {
      Convergence.StepAtKey(Projected(m), e, k);
      EntryIsGet(m, k);
      EntryIsGet(Step(m, e), k);
      GetAfter(m, e, k);
    }
    Convergence.SameEverywhere(Projected(Step(m, e)), State.Step(Projected(m), e));
  }
}
