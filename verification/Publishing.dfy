/** What a hub publishes, and why every consumer accepts it: the events of verified requests and of
    failed deliveries, decided on the hub's own projection of the log. */
module Publishing {
  import opened Wrappers
  import opened State
  import Int64
  import Lease

  datatype Outcome = BadLease | Denied | Published(event: Event)

  function Stored(p: Projection, topic: string, callback: string): Option<Subscription> {
    Lookup(p.subscriptions, Key(topic, callback))
  }

  function OnRegisterTopic(p: Projection, r: Registration): Outcome {
    if r.topic in p.topics then Denied else Published(Register(r))
  }

  function OnDeregisterTopic(p: Projection, d: Deregistration): Outcome {
    if d.topic !in p.topics then Denied else Published(Deregister(d))
  }

  // Whether the validation callback lets a subscription pass.
  predicate SubscriptionValid(p: Projection, topic: string, callback: string) {
    && topic in p.topics
    && var stored := Stored(p, topic, callback); stored.None? || stored.value.status == STALE
  }

  // A stale subscription is revived under its old identity and owner.
  function OnSubscriptionVerified(p: Projection, me: string, v: Verified): Outcome {
    if Lease.AppLease(v.effectiveLeaseSeconds).None? then BadLease
    else if v.topic !in p.topics then Denied
    else
      match Stored(p, v.topic, v.callback)
      case None => Published(Subscribe(Subscription(v, me, "")))
      case Some(existing) =>
        if existing.status != STALE then Denied
        else Published(Subscribe(Subscription(existing.verified, existing.serverID, "")))
  }

  // A worker whose delivery failed for good.
  function StaleReport(s: Subscription): Event {
    MarkStale(Subscription(s.verified, s.serverID, STALE))
  }

  // And one that was answered 410.
  function GoneReport(s: Subscription): Event {
    Unsubscribe(Unsubscription(UNSUBSCRIBE, s.verified.topic, s.verified.callback, "", map[]))
  }

  // ---- What the handler hands over ----

  // A verified subscription, its lease granted from what was asked.
  predicate HandedOver(c: Lease.Config, asked: string, v: Verified) {
    && Lease.Normal(c) && Lease.AcceptedLease(asked)
    && Int64.Parse(v.effectiveLeaseSeconds) == Some(Lease.GrantedSeconds(c, asked))
    && v.mode == "subscribe" && v.topic != "" && v.callback != "" && v.hub != "" && v.leaseStartedAt != 0
  }

  // No field that identifies what an accepted event is about is missing.
  lemma NothingMissing(e: Event)
    requires Accepted(e)
    ensures match e
            case Register(r) => r.mode == "register" && r.topic != ""
            case Deregister(d) => d.mode == "deregister" && d.topic != ""
            case Subscribe(s) =>
              && Lease.AppLease(s.verified.effectiveLeaseSeconds).Some? && s.verified.mode == "subscribe"
              && s.verified.topic != "" && s.verified.callback != "" && s.verified.hub != ""
              && s.verified.leaseStartedAt != 0 && s.serverID != "" && s.status == ""
            case MarkStale(s) =>
              && s.verified.mode == "subscribe" && s.verified.topic != "" && s.verified.callback != ""
              && s.serverID != "" && s.status == "stale"
            case Unsubscribe(u) => u.mode == "unsubscribe" && u.topic != "" && u.callback != ""
  {}

  /** A consumer accepts whatever lease the handler granted. */
  lemma GrantedIsAccepted(s: Subscription, c: Lease.Config, asked: string)
    requires HandedOver(c, asked, s.verified) && s.serverID != "" && s.status == ""
    ensures Accepted(Subscribe(s))
  {}

  // A record survives the log when its flat form decodes to it again.
  predicate Survives(e: Event) {
    Accepted(e) && Decode(Encode(e)) == Some(e)
  }

  /** A verified subscription, on any reachable projection: it is never rejected for its lease; it is
      published exactly when its validation would pass; and every consumer in that state then accepts
      the event, and has the subscription active, with the old identity and owner if it was stale. */
  lemma VerifiedSubscriptionArrives(p: Projection, me: string, v: Verified, c: Lease.Config, asked: string)
    requires WellFormed(p) && me != "" && HandedOver(c, asked, v)
    ensures var o := OnSubscriptionVerified(p, me, v);
            && !o.BadLease? && (o.Published? <==> SubscriptionValid(p, v.topic, v.callback))
            && (o.Published? ==>
                  && Survives(o.event)
                  && Stored(Step(p, o.event), v.topic, v.callback) ==
                     match Stored(p, v.topic, v.callback)
                     case None => Some(Subscription(v, me, ""))
                     case Some(existing) => Some(existing.(status := "")))
  {
    var stored := Stored(p, v.topic, v.callback);
    if stored.Some? {
      assert KeyOf(stored.value) == Key(v.topic, v.callback);
    }
  }

  /** The report of a failed or dismissed worker, for any subscription stored in a reachable projection:
      every consumer in that state accepts it, and marks the subscription stale or removes it. */
  lemma ReportsArrive(p: Projection, k: Key)
    requires WellFormed(p) && k in p.subscriptions
    ensures var s := p.subscriptions[k];
            && Survives(StaleReport(s)) && Survives(GoneReport(s))
            && Stored(Step(p, StaleReport(s)), k.topic, k.callback) == Some(s.(status := "stale"))
            && Stored(Step(p, GoneReport(s)), k.topic, k.callback) == None
  {}

  /** A registration or deregistration is published exactly when it changes which topics are registered,
      and every consumer accepts it. */
  lemma TopicEventsArrive(p: Projection, r: Registration, d: Deregistration)
    requires r.mode == "register" && r.topic != "" && d.mode == "deregister" && d.topic != ""
    ensures OnRegisterTopic(p, r) ==
            if Step(p, Register(r)).topics.Keys != p.topics.Keys then Published(Register(r)) else Denied
    ensures OnDeregisterTopic(p, d) ==
            if Step(p, Deregister(d)).topics.Keys != p.topics.Keys then Published(Deregister(d)) else Denied
    ensures Survives(Register(r)) && Survives(Deregister(d))
  {
    assert r.topic in Step(p, Register(r)).topics.Keys && d.topic !in Step(p, Deregister(d)).topics.Keys;
    assert r.topic in p.topics ==> Step(p, Register(r)).topics.Keys == p.topics.Keys;
    assert d.topic !in p.topics ==> Step(p, Deregister(d)).topics.Keys == p.topics.Keys;
  }
}
