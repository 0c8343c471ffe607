/** The Kafka example's state events, their dispatch, and the projection both the consolidator
    and every hub build from them. Events are decoded records; a time is an integer, 0 being
    Go's zero time. */
module State {
  import opened Wrappers
  import Int64

  const SUBSCRIBE := "subscribe"
  const UNSUBSCRIBE := "unsubscribe"
  const REGISTER := "register"
  const DEREGISTER := "deregister"
  const STALE := "stale"
  const ZERO_TIME := 0

  datatype Registration = Registration(mode: string, topic: string, contentType: string)

  datatype Deregistration = Deregistration(mode: string, topic: string)

  datatype Verified = Verified(
    hub: string,
    mode: string,
    topic: string,
    callback: string,
    leaseSeconds: string,
    secret: string,
    parameters: map<string, seq<string>>,
    effectiveLeaseSeconds: string,
    leaseStartedAt: int)

  datatype Subscription = Subscription(verified: Verified, serverID: string, status: string)

  datatype Unsubscription = Unsubscription(
    mode: string,
    topic: string,
    callback: string,
    secret: string,
    parameters: map<string, seq<string>>)

  datatype Event =
    | Register(registration: Registration)
    | Deregister(deregistration: Deregistration)
    | Subscribe(subscription: Subscription)
    | MarkStale(stale: Subscription)
    | Unsubscribe(unsubscription: Unsubscription)

  datatype Snapshot = Snapshot(revision: int, topics: seq<Registration>, subscriptions: seq<Subscription>)

  // One record of the event log, its JSON already read; absent members are empty or zero.
  datatype Payload =
    | Malformed
    | Payload(mode: string, status: string, topic: string, contentType: string, callback: string,
              hub: string, leaseSeconds: string, secret: string, parameters: map<string, seq<string>>,
              effectiveLeaseSeconds: string, leaseStartedAt: int, serverID: string)
  {
    function AsSubscription(): Subscription
      requires Payload?
    {
      Subscription(
        Verified(hub, mode, topic, callback, leaseSeconds, secret, parameters, effectiveLeaseSeconds, leaseStartedAt),
        serverID, status)
    }
  }

  // The dispatch of ApplyEvent: a status decides first, the mode next.
  function Decode(p: Payload): Option<Event> {
    if p.Malformed? then None
    else if p.status != "" then
      if p.mode != SUBSCRIBE || p.status != STALE then None else Some(MarkStale(p.AsSubscription()))
    else if p.mode == REGISTER then Some(Register(Registration(p.mode, p.topic, p.contentType)))
    else if p.mode == DEREGISTER then Some(Deregister(Deregistration(p.mode, p.topic)))
    else if p.mode == SUBSCRIBE then Some(Subscribe(p.AsSubscription()))
    else if p.mode == UNSUBSCRIBE then
      Some(Unsubscribe(Unsubscription(p.mode, p.topic, p.callback, p.secret, p.parameters)))
    else None
  }

  // The subscription has every member of the flat record under its own name.
  predicate Mirrors(s: Subscription, p: Payload)
    requires p.Payload?
  {
    var v := s.verified;
    && v.hub == p.hub && v.mode == p.mode && v.topic == p.topic && v.callback == p.callback
    && v.leaseSeconds == p.leaseSeconds && v.secret == p.secret && v.parameters == p.parameters
    && v.effectiveLeaseSeconds == p.effectiveLeaseSeconds && v.leaseStartedAt == p.leaseStartedAt
    && s.serverID == p.serverID && s.status == p.status
  }

  /** Which records the dispatch takes for what, and what it hands on. */
  lemma DecodedFields(p: Payload)
    requires p.Payload?
    ensures match Decode(p)
            case Some(Register(r)) =>
              p.mode == "register" && p.status == "" && r == Registration("register", p.topic, p.contentType)
            case Some(Deregister(d)) =>
              p.mode == "deregister" && p.status == "" && d == Deregistration("deregister", p.topic)
            case Some(Subscribe(s)) => p.mode == "subscribe" && p.status == "" && Mirrors(s, p)
            case Some(MarkStale(s)) => p.mode == "subscribe" && p.status == "stale" && Mirrors(s, p)
            case Some(Unsubscribe(u)) =>
              && p.mode == "unsubscribe" && p.status == ""
              && u == Unsubscription("unsubscribe", p.topic, p.callback, p.secret, p.parameters)
            case None =>
              && (p.status == "" ==> p.mode !in {"register", "deregister", "subscribe", "unsubscribe"})
              && (p.status == "stale" ==> p.mode != "subscribe")
  {}

  // The flat records the hub's broker publishes, without an envelope.
  function Encode(e: Event): Payload {
    match e
    case Register(r) => Payload(r.mode, "", r.topic, r.contentType, "", "", "", "", map[], "", ZERO_TIME, "")
    case Deregister(d) => Payload(d.mode, "", d.topic, "", "", "", "", "", map[], "", ZERO_TIME, "")
    case Subscribe(s) => EncodeSubscription(s)
    case MarkStale(s) => EncodeSubscription(s)
    case Unsubscribe(u) =>
      Payload(u.mode, "", u.topic, "", u.callback, "", "", u.secret, u.parameters, "", ZERO_TIME, "")
  }

  function EncodeSubscription(s: Subscription): Payload {
    var v := s.verified;
    Payload(v.mode, s.status, v.topic, "", v.callback, v.hub, v.leaseSeconds, v.secret, v.parameters,
            v.effectiveLeaseSeconds, v.leaseStartedAt, s.serverID)
  }

  predicate AcceptedRegistration(r: Registration) {
    r.mode == REGISTER && r.topic != ""
  }

  predicate AcceptedDeregistration(d: Deregistration) {
    d.mode == DEREGISTER && d.topic != ""
  }

  predicate PositiveLease(lease: string) {
    match Int64.Parse(lease)
    case Some(seconds) => seconds > 0
    case None => false
  }

  predicate AcceptedSubscription(s: Subscription) {
    var v := s.verified;
    PositiveLease(v.effectiveLeaseSeconds) && v.mode == SUBSCRIBE && v.topic != "" && v.callback != "" &&
    v.hub != "" && v.leaseStartedAt != ZERO_TIME && s.serverID != "" && s.status == ""
  }

  predicate AcceptedStale(s: Subscription) {
    s.status == STALE && s.verified.mode == SUBSCRIBE && s.verified.topic != "" && s.verified.callback != "" &&
    s.serverID != ""
  }

  predicate AcceptedUnsubscription(u: Unsubscription) {
    u.mode == UNSUBSCRIBE && u.topic != "" && u.callback != ""
  }

  // The checks at the head of the five Apply functions.
  predicate Accepted(e: Event) {
    match e
    case Register(r) => AcceptedRegistration(r)
    case Deregister(d) => AcceptedDeregistration(d)
    case Subscribe(s) => AcceptedSubscription(s)
    case MarkStale(s) => AcceptedStale(s)
    case Unsubscribe(u) => AcceptedUnsubscription(u)
  }

  // Every event a consumer accepts survives the flat record format, so no envelope is needed.
  lemma DecodeEncode(e: Event)
    ensures Accepted(e) ==> Decode(Encode(e)) == Some(e)
  {}

  datatype Key = Key(topic: string, callback: string)

  function KeyOf(s: Subscription): Key {
    Key(s.verified.topic, s.verified.callback)
  }

  /** What an event log means: the registered topics and the subscription of every
      topic and callback. */
  datatype Projection = Projection(topics: map<string, Registration>, subscriptions: map<Key, Subscription>)

  const EMPTY := Projection(map[], map[])

  predicate SameLease(s: Subscription, t: Subscription) {
    s.serverID == t.serverID && s.verified.leaseStartedAt == t.verified.leaseStartedAt
  }

  // The first subscription wins; a later one only revives a stale entry, under its old identity.
  function Subscribed(found: Option<Subscription>, s: Subscription): Subscription {
    match found
    case None => s
    case Some(existing) => existing.(status := "")
  }

  function Staled(existing: Subscription, s: Subscription): Subscription {
    if SameLease(existing, s) then existing.(status := STALE) else existing
  }

  function Lookup<K, V>(m: map<K, V>, k: K): Option<V> {
    if k in m then Some(m[k]) else None
  }

  function RemoveTopic(m: map<Key, Subscription>, topic: string): map<Key, Subscription> {
    map k | k in m && k.topic != topic :: m[k]
  }

  function Step(p: Projection, e: Event): Projection {
    if !Accepted(e) then p
    else
      match e
      case Register(r) => p.(topics := p.topics[r.topic := r])
      case Deregister(d) =>
        Projection(p.topics - {d.topic}, RemoveTopic(p.subscriptions, d.topic))
      case Subscribe(s) =>
        p.(subscriptions := p.subscriptions[KeyOf(s) := Subscribed(Lookup(p.subscriptions, KeyOf(s)), s)])
      case MarkStale(s) =>
        if KeyOf(s) !in p.subscriptions then p
        else p.(subscriptions := p.subscriptions[KeyOf(s) := Staled(p.subscriptions[KeyOf(s)], s)])
      case Unsubscribe(u) => p.(subscriptions := p.subscriptions - {Key(u.topic, u.callback)})
  }

  function Fold(log: seq<Event>, p: Projection): Projection {
    if log == [] then p else Step(Fold(log[..|log| - 1], p), log[|log| - 1])
  }

  lemma FoldNext(log: seq<Event>, e: Event, p: Projection)
    ensures Fold(log + [e], p) == Step(Fold(log, p), e)
  {
    assert (log + [e])[..|log|] == log;
  }

  lemma {:induction false} FoldConcat(a: seq<Event>, b: seq<Event>, p: Projection)
    ensures Fold(a + b, p) == Fold(b, Fold(a, p))
    decreases |b|
  {
    if b == [] {
      assert a + b == a;
    } else {
      var c := b[..|b| - 1];
      FoldConcat(a, c, p);
      assert (a + b)[..|a + b| - 1] == a + c;
    }
  }

  lemma FoldSplit(log: seq<Event>, j: nat, k: nat, p: Projection)
    requires j <= k <= |log|
    ensures Fold(log[j..], p) == Fold(log[k..], Fold(log[j..k], p))
    ensures Fold(log[..k], p) == Fold(log[j..k], Fold(log[..j], p))
  {
    FoldConcat(log[j..k], log[k..], p);
    assert log[j..k] + log[k..] == log[j..];
    FoldConcat(log[..j], log[j..k], p);
    assert log[..j] + log[j..k] == log[..k];
  }

  // The facts every reachable projection has: keys match values, and values are what the
  // Apply functions accepted.
  predicate WellFormed(p: Projection) {
    && (forall t :: t in p.topics ==> p.topics[t].topic == t && AcceptedRegistration(p.topics[t]))
    && (forall k :: k in p.subscriptions ==>
          && KeyOf(p.subscriptions[k]) == k
          && AcceptedSubscription(p.subscriptions[k].(status := ""))
          && (p.subscriptions[k].status == "" || p.subscriptions[k].status == STALE))
  }

  lemma StepWellFormed(p: Projection, e: Event)
    requires WellFormed(p)
    ensures WellFormed(Step(p, e))
  {}

  lemma {:induction false} FoldWellFormed(log: seq<Event>, p: Projection)
    requires WellFormed(p)
    ensures WellFormed(Fold(log, p))
    decreases |log|
  {
    if log != [] {
      FoldWellFormed(log[..|log| - 1], p);
      StepWellFormed(Fold(log[..|log| - 1], p), log[|log| - 1]);
    }
  }
}
