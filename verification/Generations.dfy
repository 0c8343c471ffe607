/** Generations of the in-memory hub's subscriptions. A delivery job carries a copy of the
    subscription it is for; by the time its subscriber answers 410, that subscription may have been
    renewed, removed, or removed and created again. The version tells. */
module Generations {
  import opened State

  const VERSIONS := 0x1_0000_0000_0000_0000

  datatype Stored = Stored(subscription: Verified, expiresAt: int, version: nat)

  datatype Memory = Memory(topics: map<string, Registration>, entries: map<Key, Stored>, nextVersion: nat)

  function StoredKey(s: Stored): Key {
    Key(s.subscription.topic, s.subscription.callback)
  }

  // The increment of a uint64.
  function Next(version: nat): nat {
    (version + 1) % VERSIONS
  }

  function Registered(m: Memory, r: Registration): Memory {
    if r.topic in m.topics then m else m.(topics := m.topics[r.topic := r])
  }

  function Deregistered(m: Memory, topic: string): Memory {
    if topic !in m.topics then m
    else m.(topics := m.topics - {topic}, entries := map k | k in m.entries && k.topic != topic :: m.entries[k])
  }

  function Renewed(m: Memory, v: Verified, expiresAt: int): Memory {
    if v.topic !in m.topics then m
    else
      var s := Stored(v, expiresAt, Next(m.nextVersion));
      m.(entries := m.entries[StoredKey(s) := s], nextVersion := s.version)
  }

  function Without(m: Memory, k: Key): Memory {
    m.(entries := m.entries - {k})
  }

  function Swept(m: Memory, topic: string, now: int): Memory {
    m.(entries := map k | k in m.entries && !(k.topic == topic && m.entries[k].expiresAt <= now) :: m.entries[k])
  }

  function Active(m: Memory, topic: string, now: int): set<Stored> {
    set k | k in m.entries && k.topic == topic && m.entries[k].expiresAt > now :: m.entries[k]
  }

  function Removed(m: Memory, k: Key, version: nat): Memory {
    if k in m.entries && m.entries[k].version == version then Without(m, k) else m
  }

  // ---- Interleavings ----

  // jobs holds every delivery job ever dispatched; any of them may still be under way.
  datatype System = System(memory: Memory, jobs: set<Stored>)

  datatype Action =
    | Register(r: Registration)
    | Deregister(topic: string)
    | Verify(v: Verified, expiresAt: int)
    | Unsubscribe(k: Key)
    | Dispatch(topic: string, now: int)
    | Answer410(job: Stored)

  predicate Enabled(s: System, a: Action) {
    a.Answer410? ==> a.job in s.jobs
  }

  function Do(s: System, a: Action): System {
    match a
    case Register(r) => s.(memory := Registered(s.memory, r))
    case Deregister(topic) => s.(memory := Deregistered(s.memory, topic))
    case Verify(v, expiresAt) => s.(memory := Renewed(s.memory, v, expiresAt))
    case Unsubscribe(k) => s.(memory := Without(s.memory, k))
    case Dispatch(topic, now) => System(Swept(s.memory, topic, now), s.jobs + Active(s.memory, topic, now))
    case Answer410(job) => s.(memory := Removed(s.memory, StoredKey(job), job.version))
  }

  predicate EntriesOk(m: Memory) {
    && (forall k {:trigger m.entries[k]} :: k in m.entries ==>
          StoredKey(m.entries[k]) == k && k.topic in m.topics && 1 <= m.entries[k].version <= m.nextVersion)
    && (forall k, l {:trigger m.entries[k], m.entries[l]} ::
          k in m.entries && l in m.entries && m.entries[k].version == m.entries[l].version ==> k == l)
  }

  // An entry with the version of a job is the entry the job was made for.
  predicate JobOk(m: Memory, job: Stored) {
    && job.version <= m.nextVersion
    && forall k {:trigger m.entries[k]} :: k in m.entries && m.entries[k].version == job.version ==> m.entries[k] == job
  }

  predicate Inv(s: System) {
    EntriesOk(s.memory) && forall job {:trigger JobOk(s.memory, job)} :: job in s.jobs ==> JobOk(s.memory, job)
  }

  lemma RenewedOk(m: Memory, v: Verified, expiresAt: int)
    requires EntriesOk(m) && m.nextVersion + 1 < VERSIONS
    ensures EntriesOk(Renewed(m, v, expiresAt))
    ensures m.nextVersion <= Renewed(m, v, expiresAt).nextVersion <= m.nextVersion + 1
  {}

  // Entries only go away, and no topic they need does.
  lemma FewerOk(m: Memory, m': Memory)
    requires EntriesOk(m) && m'.nextVersion == m.nextVersion
    requires forall k :: k in m'.entries ==> k in m.entries && m'.entries[k] == m.entries[k] && k.topic in m'.topics
    ensures EntriesOk(m')
  {}

  lemma EntriesAfter(s: System, a: Action)
    requires EntriesOk(s.memory) && s.memory.nextVersion + 1 < VERSIONS
    ensures EntriesOk(Do(s, a).memory)
    ensures s.memory.nextVersion <= Do(s, a).memory.nextVersion <= s.memory.nextVersion + 1
  {
    if a.Verify? {
      RenewedOk(s.memory, a.v, a.expiresAt);
    } else {
      FewerOk(s.memory, Do(s, a).memory);
    }
  }

  lemma JobAfter(s: System, a: Action, job: Stored)
    requires JobOk(s.memory, job) && s.memory.nextVersion + 1 < VERSIONS
    ensures JobOk(Do(s, a).memory, job)
  {}

  lemma DoInv(s: System, a: Action)
    requires Inv(s) && s.memory.nextVersion + 1 < VERSIONS
    ensures Inv(Do(s, a))
  {
    EntriesAfter(s, a);
    forall job | job in Do(s, a).jobs
      ensures JobOk(Do(s, a).memory, job)
    {
      if job !in s.jobs {
        assert JobOk(s.memory, job);
      }
      JobAfter(s, a, job);
    }
  }

  // Fewer steps than there are versions, so that no version is used twice.
  ghost predicate IsRun(trace: seq<System>, actions: seq<Action>) {
    && |trace| == |actions| + 1 < VERSIONS && trace[0] == System(Memory(map[], map[], 0), {})
    && forall n {:trigger actions[n]} :: 0 <= n < |actions| ==>
         Enabled(trace[n], actions[n]) && trace[n + 1] == Do(trace[n], actions[n])
  }

  /** In every interleaving: versions are unique and none is above nextVersion, and only registered
      topics have subscriptions. */
  lemma {:induction false} VersionsUnique(trace: seq<System>, actions: seq<Action>, n: nat)
    requires IsRun(trace, actions) && n < |trace|
    ensures forall i {:trigger trace[i]} :: 0 <= i <= n ==> Inv(trace[i]) && trace[i].memory.nextVersion <= i
    decreases n
  {
    if n > 0 {
      VersionsUnique(trace, actions, n - 1);
      DoInv(trace[n - 1], actions[n - 1]);
      EntriesAfter(trace[n - 1], actions[n - 1]);
    }
  }

  /** A 410 removes something exactly when what the job was made for is still stored, unchanged; and
      then it removes that and nothing else. */
  lemma GoneRemovesExactly(trace: seq<System>, actions: seq<Action>, n: nat)
    requires IsRun(trace, actions) && n < |actions| && actions[n].Answer410?
    ensures var job, before, after := actions[n].job, trace[n].memory, trace[n + 1].memory;
            after == (if StoredKey(job) in before.entries && before.entries[StoredKey(job)] == job
                      then Without(before, StoredKey(job)) else before)
  {
    VersionsUnique(trace, actions, n);
    assert Enabled(trace[n], actions[n]);
    assert JobOk(trace[n].memory, actions[n].job);
  }

  // The entry under the job's key, if any, is younger than the job.
  predicate Outlived(m: Memory, job: Stored) {
    job.version <= m.nextVersion &&
    (StoredKey(job) in m.entries ==> m.entries[StoredKey(job)].version > job.version)
  }

  lemma StaysOutlived(s: System, a: Action, job: Stored)
    requires EntriesOk(s.memory) && s.memory.nextVersion + 1 < VERSIONS && Outlived(s.memory, job)
    ensures Outlived(Do(s, a).memory, job)
  {}

  lemma {:induction false} OutlivedForGood(trace: seq<System>, actions: seq<Action>, m: nat, n: nat, job: Stored)
    requires IsRun(trace, actions) && m <= n < |trace| && Outlived(trace[m].memory, job)
    ensures Outlived(trace[n].memory, job)
    decreases n
  {
    if n > m {
      OutlivedForGood(trace, actions, m, n - 1, job);
      VersionsUnique(trace, actions, n - 1);
      StaysOutlived(trace[n - 1], actions[n - 1], job);
    }
  }

  /** A renewal is protected from the deliveries dispatched before it: however late the 410 of an
      older job arrives, and whatever happened in between, it leaves everything as it is. */
  lemma RenewalSurvives(trace: seq<System>, actions: seq<Action>, renewed: nat, answered: nat)
    requires IsRun(trace, actions) && renewed < answered < |actions|
    requires actions[answered].Answer410? && actions[answered].job in trace[renewed].jobs
    requires actions[renewed].Verify? && actions[renewed].v.topic in trace[renewed].memory.topics
    requires Key(actions[renewed].v.topic, actions[renewed].v.callback) == StoredKey(actions[answered].job)
    ensures trace[answered + 1] == trace[answered]
  {
    var job := actions[answered].job;
    VersionsUnique(trace, actions, renewed);
    assert JobOk(trace[renewed].memory, job);
    assert trace[renewed + 1] == Do(trace[renewed], actions[renewed]);
    OutlivedForGood(trace, actions, renewed + 1, answered, job);
  }

  // ---- What a run says, without the maps ----

  // The step stores x under k.
  predicate Makes(s: System, a: Action, k: Key, x: Stored) {
    && a.Verify? && k == Key(a.v.topic, a.v.callback) && k.topic in s.memory.topics
    && x.subscription == a.v && x.expiresAt == a.expiresAt && x.version == s.memory.nextVersion + 1
  }

  // The step ends the life of x under k: its topic goes, it is unsubscribed or renewed, found expired
  // by a delivery, or a subscriber answers 410 to a delivery that was made for it.
  predicate Ends(s: System, a: Action, k: Key, x: Stored) {
    match a
    case Register(_) => false
    case Deregister(topic) => topic == k.topic
    case Verify(v, _) => k == Key(v.topic, v.callback)
    case Unsubscribe(l) => l == k
    case Dispatch(topic, now) => topic == k.topic && x.expiresAt <= now
    case Answer410(job) => job == x
  }

  predicate Holds(m: Memory, k: Key, x: Stored) {
    k in m.entries && m.entries[k] == x
  }

  lemma HoldsAfter(s: System, a: Action, k: Key, x: Stored)
    requires Inv(s) && s.memory.nextVersion + 1 < VERSIONS && Enabled(s, a)
    ensures Holds(Do(s, a).memory, k, x) <==> Makes(s, a, k, x) || (Holds(s.memory, k, x) && !Ends(s, a, k, x))
  {
    if a.Answer410? {
      assert JobOk(s.memory, a.job);
    }
  }

  // Made at m, and not ended up to n.
  predicate LivesSince(trace: seq<System>, actions: seq<Action>, m: nat, n: nat, k: Key, x: Stored)
    requires |trace| == |actions| + 1 && n <= |actions|
  {
    && m < n && Makes(trace[m], actions[m], k, x)
    && forall i {:trigger actions[i]} :: m < i < n ==> !Ends(trace[i], actions[i], k, x)
  }

  ghost predicate Lives(trace: seq<System>, actions: seq<Action>, n: nat, k: Key, x: Stored)
    requires |trace| == |actions| + 1 && n <= |actions|
  {
    exists m: nat {:trigger LivesSince(trace, actions, m, n, k, x)} :: LivesSince(trace, actions, m, n, k, x)
  }

  /** A subscription is stored exactly when a verified request made it, for a topic registered at that
      time, and nothing has ended it since. */
  lemma {:induction false} EntryHistory(trace: seq<System>, actions: seq<Action>, n: nat, k: Key, x: Stored)
    requires IsRun(trace, actions) && n < |trace|
    ensures Holds(trace[n].memory, k, x) <==> Lives(trace, actions, n, k, x)
    decreases n
  {
    if n > 0 {
      EntryHistory(trace, actions, n - 1, k, x);
      VersionsUnique(trace, actions, n - 1);
      assert Enabled(trace[n - 1], actions[n - 1]) && trace[n] == Do(trace[n - 1], actions[n - 1]);
      HoldsAfter(trace[n - 1], actions[n - 1], k, x);
      LivesLonger(trace, actions, n, k, x);
    }
  }

  lemma LivesLonger(trace: seq<System>, actions: seq<Action>, n: nat, k: Key, x: Stored)
    requires |trace| == |actions| + 1 && 0 < n <= |actions|
    ensures Lives(trace, actions, n, k, x) <==>
            Makes(trace[n - 1], actions[n - 1], k, x) ||
            (Lives(trace, actions, n - 1, k, x) && !Ends(trace[n - 1], actions[n - 1], k, x))
  {
    if Makes(trace[n - 1], actions[n - 1], k, x) {
      assert LivesSince(trace, actions, n - 1, n, k, x);
    } else if Lives(trace, actions, n, k, x) {
      var m: nat :| LivesSince(trace, actions, m, n, k, x);
      assert LivesSince(trace, actions, m, n - 1, k, x);
    } else if Lives(trace, actions, n - 1, k, x) && !Ends(trace[n - 1], actions[n - 1], k, x) {
      var m: nat :| LivesSince(trace, actions, m, n - 1, k, x);
      assert LivesSince(trace, actions, m, n, k, x);
    }
  }

  predicate RegisteredSince(actions: seq<Action>, m: nat, n: nat, topic: string)
    requires n <= |actions|
  {
    && m < n && actions[m].Register? && actions[m].r.topic == topic
    && forall i {:trigger actions[i]} :: m < i < n ==> !(actions[i].Deregister? && actions[i].topic == topic)
  }

  lemma RegisteredLonger(actions: seq<Action>, m: nat, n: nat, topic: string)
    requires 0 < n <= |actions| && !(actions[n - 1].Register? && actions[n - 1].r.topic == topic)
    ensures RegisteredSince(actions, m, n, topic) <==>
            RegisteredSince(actions, m, n - 1, topic) &&
            !(actions[n - 1].Deregister? && actions[n - 1].topic == topic)
  {}

  /** A topic is registered exactly when it was, and was not deregistered since. */
  lemma {:induction false} TopicHistory(trace: seq<System>, actions: seq<Action>, n: nat, topic: string)
    requires IsRun(trace, actions) && n < |trace|
    ensures topic in trace[n].memory.topics <==>
            exists m: nat {:trigger RegisteredSince(actions, m, n, topic)} :: RegisteredSince(actions, m, n, topic)
    decreases n
  {
    if n > 0 {
      TopicHistory(trace, actions, n - 1, topic);
      var a := actions[n - 1];
      assert trace[n] == Do(trace[n - 1], a);
      if a.Register? && a.r.topic == topic {
        assert RegisteredSince(actions, n - 1, n, topic);
      } else if topic in trace[n].memory.topics {
        var m: nat :| RegisteredSince(actions, m, n - 1, topic);
        RegisteredLonger(actions, m, n, topic);
      } else {
        forall m: nat
          ensures !RegisteredSince(actions, m, n, topic)
        {
          RegisteredLonger(actions, m, n, topic);
        }
      }
    }
  }

  // A delivery for the topic of x, made while x was stored and not expired.
  predicate DispatchedAt(trace: seq<System>, actions: seq<Action>, i: nat, x: Stored)
    requires |trace| == |actions| + 1
  {
    && i < |actions| && actions[i].Dispatch? && actions[i].topic == x.subscription.topic
    && Holds(trace[i].memory, StoredKey(x), x) && actions[i].now < x.expiresAt
  }

  /** A delivery job exists exactly when its subscription was stored and not expired when the content was
      dispatched. */
  lemma {:induction false} JobHistory(trace: seq<System>, actions: seq<Action>, n: nat, x: Stored)
    requires IsRun(trace, actions) && n < |trace|
    ensures x in trace[n].jobs <==>
            exists i: nat {:trigger DispatchedAt(trace, actions, i, x)} :: i < n && DispatchedAt(trace, actions, i, x)
    decreases n
  {
    if n > 0 {
      JobHistory(trace, actions, n - 1, x);
      VersionsUnique(trace, actions, n - 1);
      DispatchedBy(trace[n - 1], actions[n - 1], x);
      assert trace[n] == Do(trace[n - 1], actions[n - 1]);
      assert x in trace[n].jobs <==> x in trace[n - 1].jobs || DispatchedAt(trace, actions, n - 1, x);
    }
  }

  lemma DispatchedBy(s: System, a: Action, x: Stored)
    requires EntriesOk(s.memory)
    ensures x in Do(s, a).jobs <==>
            x in s.jobs ||
            (a.Dispatch? && a.topic == x.subscription.topic && Holds(s.memory, StoredKey(x), x) && a.now < x.expiresAt)
  {
    if a.Dispatch? && x in Active(s.memory, a.topic, a.now) {
      var k :| k in s.memory.entries && s.memory.entries[k] == x && k.topic == a.topic && x.expiresAt > a.now;
      assert k == StoredKey(x);
    }
  }
}
