/** Delivery workers under concurrency. Two threads run after replay: the startup scan, and the
    event thread applying tailed events. Each acts in steps no larger than one hold of the lock:
    a worker is started, or a cancel function called, only after the lock was released, and the
    other thread may run in between. */
module Workers {
  import opened Wrappers
  import opened State
  import Convergence

  // One stored subscription object; ids stand for pointers.
  datatype Obj = Obj(
    entry: Subscription,
    cancel: bool,     // the cancel function is set
    starts: nat,      // workers started for this object
    cancelled: bool)  // its cancel function was called

  datatype Thread =
    | Idle
    | Starting(id: nat)             // ApplySubscription, before startSubscriptionWorker
    | Revoking(id: nat)             // ApplyStaleSubscription, holding the cancel function it took
    | Cancelling(ids: set<nat>)     // deregistration and unsubscription, entries already removed

  datatype Scan = NotBegun | Scanning(pending: set<nat>) | Finished

  datatype Hub = Hub(
    me: string,
    topics: map<string, Registration>,
    objs: map<nat, Obj>,
    current: map<Key, nat>,
    thread: Thread,
    scan: Scan,
    shutdown: bool,
    ended: set<nat>,  // objects whose worker has returned, for whatever reason
    nextId: nat)

  datatype Action =
    | ApplyEvent(e: Event)
    | ThreadStep(id: nat)
    | BeginScan
    | ScanStep(id: nat)
    | EndScan
    | WorkerEnds(id: nat)
    | Shutdown

  function Status(h: Hub, id: nat): string
    requires id in h.objs
  {
    h.objs[id].entry.status
  }

  predicate IsCurrent(h: Hub, id: nat)
    requires id in h.objs
  {
    var k := KeyOf(h.objs[id].entry);
    k in h.current && h.current[k] == id
  }

  // The condition startSubscriptionWorker checks again under the lock.
  predicate MayStart(h: Hub, id: nat)
    requires id in h.objs
  {
    IsCurrent(h, id) && h.objs[id].entry.serverID == h.me && Status(h, id) != STALE && !h.objs[id].cancel && !h.shutdown
  }

  function Start(h: Hub, id: nat): Hub
    requires id in h.objs
  {
    if MayStart(h, id)
    then h.(objs := h.objs[id := h.objs[id].(cancel := true, starts := h.objs[id].starts + 1)])
    else h
  }

  function Cancel(h: Hub, id: nat): Hub
    requires id in h.objs
  {
    h.(objs := h.objs[id := h.objs[id].(cancelled := true)])
  }

  function OfTopic(h: Hub, topic: string): set<nat> {
    set k | k in h.current && k.topic == topic :: h.current[k]
  }

  // The parts of the Apply functions under the lock.
  function AfterDeregister(h: Hub, topic: string): Hub {
    h.(topics := h.topics - {topic},
       current := map k | k in h.current && k.topic != topic :: h.current[k],
       thread := Cancelling(OfTopic(h, topic)))
  }

  function AfterSubscribe(h: Hub, s: Subscription): Hub
    requires Shape(h)
  {
    var k := KeyOf(s);
    if k in h.current && Status(h, h.current[k]) != STALE then h
    else
      var found := if k in h.current then Some(h.objs[h.current[k]].entry) else None;
      h.(objs := h.objs[h.nextId := Obj(Subscribed(found, s), false, 0, false)],
         current := h.current[k := h.nextId],
         thread := Starting(h.nextId),
         nextId := h.nextId + 1)
  }

  function AfterStale(h: Hub, s: Subscription): Hub
    requires Shape(h)
  {
    var k := KeyOf(s);
    if k !in h.current || !SameLease(h.objs[h.current[k]].entry, s) then h
    else
      var id := h.current[k];
      var o := h.objs[id];
      h.(objs := h.objs[id := o.(entry := o.entry.(status := STALE), cancel := false)],
         thread := if o.cancel then Revoking(id) else Idle)
  }

  function AfterUnsubscribe(h: Hub, k: Key): Hub {
    if k !in h.current then h
    else h.(current := h.current - {k}, thread := Cancelling({h.current[k]}))
  }

  function Locked(h: Hub, e: Event): Hub
    requires Shape(h)
  {
    if !Accepted(e) then h
    else
      match e
      case Register(r) => h.(topics := h.topics[r.topic := r])
      case Deregister(d) => AfterDeregister(h, d.topic)
      case Subscribe(s) => AfterSubscribe(h, s)
      case MarkStale(s) => AfterStale(h, s)
      case Unsubscribe(u) => AfterUnsubscribe(h, Key(u.topic, u.callback))
  }

  predicate Enabled(h: Hub, a: Action) {
    match a
    case ApplyEvent(_) => h.thread.Idle?
    case ThreadStep(id) =>
      (match h.thread
       case Idle => false
       case Starting(id') => id == id'
       case Revoking(id') => id == id'
       case Cancelling(ids) => id in ids || ids == {})
    case BeginScan => h.scan.NotBegun?
    case ScanStep(id) => h.scan.Scanning? && id in h.scan.pending
    case EndScan => h.scan == Scanning({})
    case WorkerEnds(id) => id in h.objs && h.objs[id].starts > 0 && id !in h.ended
    case Shutdown => true
  }

  // What the event thread does next, after releasing the lock.
  function StepThread(h: Hub, id: nat): Hub
    requires Shape(h) && Enabled(h, ThreadStep(id))
  {
    match h.thread
    case Starting(_) => Start(h, id).(thread := Idle)
    case Revoking(_) => Cancel(h, id).(thread := Idle)
    case Cancelling(ids) => if ids == {} then h.(thread := Idle) else CancelOne(h, ids, id)
  }

  function CancelOne(h: Hub, ids: set<nat>, id: nat): Hub
    requires id in h.objs
  {
    (if h.objs[id].cancel then Cancel(h, id) else h).(thread := Cancelling(ids - {id}))
  }

  function Do(h: Hub, a: Action): Hub
    requires Shape(h) && Enabled(h, a)
  {
    match a
    case ApplyEvent(e) => Locked(h, e)
    case ThreadStep(id) => StepThread(h, id)
    case BeginScan => h.(scan := Scanning(set id | id in h.current.Values && Status(h, id) != STALE))
    case ScanStep(id) => Start(h, id).(scan := Scanning(h.scan.pending - {id}))
    case EndScan => h.(scan := Finished)
    case WorkerEnds(id) => h.(ended := h.ended + {id})
    case Shutdown => h.(shutdown := true)
  }

  function InProgress(t: Thread): set<nat> {
    match t
    case Idle => {}
    case Starting(id) => {id}
    case Revoking(id) => {id}
    case Cancelling(ids) => ids
  }

  // Every id in use names an object, and every current object sits under its own key.
  predicate Shape(h: Hub) {
    && (forall id {:trigger h.objs[id]} :: id in h.objs ==> id < h.nextId)
    && (forall k {:trigger h.current[k]} :: k in h.current ==>
          h.current[k] in h.objs && KeyOf(h.objs[h.current[k]].entry) == k)
    && h.ended <= h.objs.Keys
    && InProgress(h.thread) <= h.objs.Keys
    && (h.scan.Scanning? ==> h.scan.pending <= h.objs.Keys)
  }

  // One object's story: at most one worker, and none once it is cancelled, stale or removed.
  predicate Story(h: Hub, id: nat)
    requires id in h.objs
  {
    var o := h.objs[id];
    && o.starts <= 1
    && (o.cancel ==> o.starts == 1)
    && (o.cancelled ==> o.starts == 1)
    && (o.starts == 1 ==> o.entry.serverID == h.me)
    && (o.entry.status == "" || o.entry.status == STALE)
    && (o.entry.status == STALE ==> !o.cancel)
    // A started worker that is not cancelled either serves its entry or is about to be cancelled.
    && (o.starts == 1 && o.entry.status == STALE ==> o.cancelled || h.thread == Revoking(id))
    && (o.starts == 1 && o.entry.status != STALE ==> o.cancel)
    && (o.starts == 1 && o.entry.status != STALE && !IsCurrent(h, id) ==>
          o.cancelled || (h.thread.Cancelling? && id in h.thread.ids))
    && (o.cancelled ==> o.entry.status == STALE || !IsCurrent(h, id))
  }

  // An entry that should have a worker and has none yet will still be visited.
  predicate Awaited(h: Hub, id: nat)
    requires id in h.objs
  {
    var o := h.objs[id];
    IsCurrent(h, id) && o.entry.serverID == h.me && o.entry.status != STALE && !o.cancel && !h.shutdown ==>
      h.scan.NotBegun? || (h.scan.Scanning? && id in h.scan.pending) || h.thread == Starting(id)
  }

  predicate Inv(h: Hub) {
    && Shape(h)
    && (forall id {:trigger Story(h, id)} :: id in h.objs ==> Story(h, id))
    && (forall id {:trigger Awaited(h, id)} :: id in h.objs ==> Awaited(h, id))
    && (h.thread.Revoking? ==> h.objs[h.thread.id].starts == 1 && Status(h, h.thread.id) == STALE)
    && (h.thread.Cancelling? ==> forall id :: id in h.thread.ids ==> !IsCurrent(h, id))
  }

  // The moment replay is over: a projection, and no worker yet.
  predicate Init(h: Hub) {
    && Shape(h) && h.thread.Idle? && h.scan.NotBegun? && !h.shutdown && h.ended == {}
    && forall id :: id in h.objs ==>
         var o := h.objs[id];
         !o.cancel && !o.cancelled && o.starts == 0 && (o.entry.status == "" || o.entry.status == STALE)
  }

  lemma InitInv(h: Hub)
    requires Init(h)
    ensures Inv(h)
  {}

  // ---- Each step, one object at a time ----

  lemma DeregisterInv(h: Hub, topic: string)
    requires Inv(h) && h.thread.Idle?
    ensures Inv(AfterDeregister(h, topic))
  {
    var h' := AfterDeregister(h, topic);
    forall id | id in h'.objs
      ensures Story(h', id) && Awaited(h', id)
    {
      assert Story(h, id) && Awaited(h, id);
    }
  }

  lemma SubscribeInv(h: Hub, s: Subscription)
    requires Inv(h) && h.thread.Idle? && s.status == ""
    ensures Inv(AfterSubscribe(h, s))
  {
    var h' := AfterSubscribe(h, s);
    forall id | id in h'.objs
      ensures Story(h', id) && Awaited(h', id)
    {
      if id in h.objs {
        assert Story(h, id) && Awaited(h, id);
      }
    }
  }

  lemma StaleInv(h: Hub, s: Subscription)
    requires Inv(h) && h.thread.Idle?
    ensures Inv(AfterStale(h, s))
  {
    var h' := AfterStale(h, s);
    forall id | id in h'.objs
      ensures Story(h', id) && Awaited(h', id)
    {
      assert Story(h, id) && Awaited(h, id);
    }
    if h'.thread.Revoking? {
      assert Story(h, h'.thread.id);
    }
  }

  lemma UnsubscribeInv(h: Hub, k: Key)
    requires Inv(h) && h.thread.Idle?
    ensures Inv(AfterUnsubscribe(h, k))
  {
    var h' := AfterUnsubscribe(h, k);
    forall id | id in h'.objs
      ensures Story(h', id) && Awaited(h', id)
    {
      assert Story(h, id) && Awaited(h, id);
    }
  }

  lemma RegisterInv(h: Hub, r: Registration)
    requires Inv(h)
    ensures Inv(h.(topics := h.topics[r.topic := r]))
  {
    var h' := h.(topics := h.topics[r.topic := r]);
    forall id | id in h'.objs
      ensures Story(h', id) && Awaited(h', id)
    {
      assert Story(h, id) && Awaited(h, id);
    }
  }

  lemma LockedInv(h: Hub, e: Event)
    requires Inv(h) && h.thread.Idle?
    ensures Inv(Locked(h, e))
  {
    if Accepted(e) {
      match e
      case Register(r) => RegisterInv(h, r);
      case Deregister(d) => DeregisterInv(h, d.topic);
      case Subscribe(s) => SubscribeInv(h, s);
      case MarkStale(s) => StaleInv(h, s);
      case Unsubscribe(u) => UnsubscribeInv(h, Key(u.topic, u.callback));
    }
  }

  lemma StartInv(h: Hub, id: nat)
    requires Inv(h) && id in h.objs
    ensures Inv(Start(h, id)) && !MayStart(Start(h, id), id)
  {
    forall i | i in h.objs
      ensures Story(Start(h, id), i) && Awaited(Start(h, id), i)
    {
      assert Story(h, i) && Awaited(h, i);
    }
    assert Story(h, id);
    if h.thread.Revoking? {
      assert Story(h, h.thread.id);
    }
  }

  lemma RevokeInv(h: Hub, id: nat)
    requires Inv(h) && h.thread == Revoking(id)
    ensures Inv(Cancel(h, id).(thread := Idle))
  {
    var h' := Cancel(h, id).(thread := Idle);
    forall i | i in h.objs
      ensures Story(h', i) && Awaited(h', i)
    {
      assert Story(h, i) && Awaited(h, i);
    }
  }

  lemma CancelOneObjects(h: Hub, ids: set<nat>, id: nat)
    requires Inv(h) && h.thread == Cancelling(ids) && id in ids
    ensures var h' := CancelOne(h, ids, id);
            forall i {:trigger Story(h', i)} {:trigger Awaited(h', i)} :: i in h.objs ==> Story(h', i) && Awaited(h', i)
  {
    forall i | i in h.objs
      ensures Story(CancelOne(h, ids, id), i) && Awaited(CancelOne(h, ids, id), i)
    {
      assert Story(h, i) && Awaited(h, i);
    }
  }

  lemma CancelOneInv(h: Hub, ids: set<nat>, id: nat)
    requires Inv(h) && h.thread == Cancelling(ids) && id in ids
    ensures Inv(CancelOne(h, ids, id))
  {
    var h' := CancelOne(h, ids, id);
    assert h'.current == h.current && h'.objs.Keys == h.objs.Keys && h'.thread == Cancelling(ids - {id});
    CancelOneObjects(h, ids, id);
  }

  lemma FinishInv(h: Hub)
    requires Inv(h) && h.thread == Cancelling({})
    ensures Inv(h.(thread := Idle))
  {
    forall i | i in h.objs
      ensures Story(h.(thread := Idle), i) && Awaited(h.(thread := Idle), i)
    {
      assert Story(h, i) && Awaited(h, i);
    }
  }

  lemma StartingStepInv(h: Hub, id: nat)
    requires Inv(h) && h.thread == Starting(id)
    ensures Inv(Start(h, id).(thread := Idle))
  {
    StartInv(h, id);
    var started := Start(h, id);
    forall i | i in started.objs
      ensures Story(started.(thread := Idle), i) && Awaited(started.(thread := Idle), i)
    {
      assert Story(started, i) && Awaited(started, i);
    }
  }

  lemma ThreadStepInv(h: Hub, id: nat)
    requires Inv(h) && Enabled(h, ThreadStep(id))
    ensures Inv(StepThread(h, id))
  {
    match h.thread
    case Starting(_) => StartingStepInv(h, id);
    case Revoking(_) => RevokeInv(h, id);
    case Cancelling(ids) =>
      if ids == {} {
        FinishInv(h);
      } else {
        CancelOneInv(h, ids, id);
      }
  }

  predicate IsQuiet(a: Action) {
    a.BeginScan? || a.EndScan? || a.WorkerEnds? || a.Shutdown?
  }

  function Visited(h: Hub, id: nat): Hub
    requires h.scan.Scanning?
  {
    h.(scan := Scanning(h.scan.pending - {id}))
  }

  lemma VisitedInv(h: Hub, id: nat)
    requires Inv(h) && id in h.objs && h.scan.Scanning? && !MayStart(h, id)
    ensures Inv(Visited(h, id))
  {
    forall i | i in h.objs
      ensures Story(Visited(h, id), i) && Awaited(Visited(h, id), i)
    {
      assert Story(h, i) && Awaited(h, i);
    }
  }

  lemma ScanStepInv(h: Hub, id: nat)
    requires Inv(h) && Enabled(h, ScanStep(id))
    ensures Inv(Do(h, ScanStep(id)))
  {
    StartInv(h, id);
    VisitedInv(Start(h, id), id);
  }

  lemma QuietInv(h: Hub, a: Action)
    requires Inv(h) && Enabled(h, a) && IsQuiet(a)
    ensures Inv(Do(h, a))
  {
    forall i | i in h.objs
      ensures Story(Do(h, a), i) && Awaited(Do(h, a), i)
    {
      assert Story(h, i) && Awaited(h, i);
    }
  }

  lemma DoInv(h: Hub)
    requires Inv(h)
    ensures forall a {:trigger Enabled(h, a)} :: Enabled(h, a) ==> Inv(Do(h, a))
  {
    forall a | Enabled(h, a)
      ensures Inv(Do(h, a))
    {
      match a {
        case ApplyEvent(e) => LockedInv(h, e);
        case ThreadStep(id) => ThreadStepInv(h, id);
        case ScanStep(id) => ScanStepInv(h, id);
        case _ => QuietInv(h, a);
      }
    }
  }

  // ---- Runs ----

  ghost predicate IsRun(trace: seq<Hub>, actions: seq<Action>) {
    && |trace| == |actions| + 1
    && Init(trace[0])
    && forall n {:trigger actions[n]} :: 0 <= n < |actions| ==>
         Shape(trace[n]) && Enabled(trace[n], actions[n]) && trace[n + 1] == Do(trace[n], actions[n])
  }

  lemma {:induction false} RunInv(trace: seq<Hub>, actions: seq<Action>, n: nat)
    requires IsRun(trace, actions) && n < |trace|
    ensures forall i {:trigger trace[i]} :: 0 <= i <= n ==> Inv(trace[i])
    decreases n
  {
    if n == 0 {
      InitInv(trace[0]);
    } else {
      RunInv(trace, actions, n - 1);
      DoInv(trace[n - 1]);
      assert Enabled(trace[n - 1], actions[n - 1]);
    }
  }

  // Started, not told to stop, and not returned by itself.
  predicate Running(h: Hub, id: nat)
    requires id in h.objs
  {
    h.objs[id].starts > 0 && !h.objs[id].cancelled && id !in h.ended
  }

  predicate Owned(h: Hub, id: nat)
    requires id in h.objs
  {
    h.objs[id].entry.serverID == h.me && Status(h, id) != STALE
  }

  /** Safety, in every run, at every moment: no object ever gets two workers, only its owner runs
      one, and a worker whose entry was removed or went stale has ended, is cancelled, or is about
      to be by the event thread. */
  lemma AtMostOneWorker(trace: seq<Hub>, actions: seq<Action>, n: nat, id: nat)
    requires IsRun(trace, actions) && n < |trace| && id in trace[n].objs
    ensures trace[n].objs[id].starts <= 1
    ensures Running(trace[n], id) ==> trace[n].objs[id].entry.serverID == trace[n].me
    ensures Running(trace[n], id) && (!IsCurrent(trace[n], id) || Status(trace[n], id) == STALE) ==>
              id in InProgress(trace[n].thread)
  {
    RunInv(trace, actions, n);
    assert Story(trace[n], id);
  }

  // Cancel is set on exactly the entries this server owns that are not stale; each of those was given
  // its one worker, which is running unless it has ended by itself; and no other worker is running.
  predicate Served(h: Hub) {
    && (forall k {:trigger h.current[k]} :: k in h.current ==>
          var id := h.current[k];
          && id in h.objs && h.objs[id].cancel == Owned(h, id)
          && (Owned(h, id) ==> h.objs[id].starts == 1)
          && Running(h, id) == (Owned(h, id) && id !in h.ended))
    && (forall id :: id in h.objs && Running(h, id) ==> IsCurrent(h, id))
  }

  lemma ServedAtRest(h: Hub)
    requires Inv(h) && h.scan.Finished? && h.thread.Idle? && !h.shutdown
    ensures Served(h)
  {
    forall id | id in h.objs
      ensures Story(h, id) && Awaited(h, id)
    {}
    forall k | k in h.current
      ensures var id := h.current[k];
              && h.objs[id].cancel == Owned(h, id)
              && (Owned(h, id) ==> h.objs[id].starts == 1)
              && Running(h, id) == (Owned(h, id) && id !in h.ended)
    {
      assert Story(h, h.current[k]) && Awaited(h, h.current[k]);
    }
  }

  /** Completeness: once the scan is over and no apply is mid-flight, exactly the owned entries that are
      not stale are served. */
  lemma ExactlyOwnedEntriesServed(trace: seq<Hub>, actions: seq<Action>, n: nat)
    requires IsRun(trace, actions) && n < |trace|
    requires trace[n].scan.Finished? && trace[n].thread.Idle? && !trace[n].shutdown
    ensures Served(trace[n])
  {
    RunInv(trace, actions, n);
    ServedAtRest(trace[n]);
  }

  // ---- Workers that end by themselves ----

  // The object no longer asks for a worker, and never will again: recovery makes a new one.
  predicate Settled(h: Hub, id: nat)
    requires id in h.objs
  {
    !IsCurrent(h, id) || Status(h, id) == STALE
  }

  // The stale event of its lease, or a reset of its key. A failed worker reports the first, and one
  // that was answered 410 an unsubscription, which is among the second.
  predicate Settles(s: Subscription, e: Event) {
    Convergence.Resets(e, KeyOf(s)) || Convergence.Stales(e, KeyOf(s), s)
  }

  lemma SettlesExactly(h: Hub, e: Event, id: nat)
    requires Inv(h) && h.thread.Idle? && id in h.objs
    ensures id in Locked(h, e).objs && SameLease(Locked(h, e).objs[id].entry, h.objs[id].entry)
    ensures KeyOf(Locked(h, e).objs[id].entry) == KeyOf(h.objs[id].entry)
    ensures Settled(Locked(h, e), id) <==> Settled(h, id) || Settles(h.objs[id].entry, e)
  {
    assert Story(h, id);
    if Accepted(e) {
      match e
      case Register(_) =>
      case Deregister(d) => SettledByDeregister(h, d.topic, id);
      case Subscribe(s) => SettledBySubscribe(h, s, id);
      case MarkStale(s) => SettledByStale(h, s, id);
      case Unsubscribe(u) => SettledByUnsubscribe(h, Key(u.topic, u.callback), id);
    }
  }

  lemma SettledByDeregister(h: Hub, topic: string, id: nat)
    requires Shape(h) && id in h.objs
    ensures AfterDeregister(h, topic).objs == h.objs
    ensures Settled(AfterDeregister(h, topic), id) <==> Settled(h, id) || KeyOf(h.objs[id].entry).topic == topic
  {}

  lemma SettledBySubscribe(h: Hub, s: Subscription, id: nat)
    requires Shape(h) && id in h.objs
    ensures id in AfterSubscribe(h, s).objs && AfterSubscribe(h, s).objs[id] == h.objs[id]
    ensures Settled(AfterSubscribe(h, s), id) <==> Settled(h, id)
  {}

  lemma SettledByStale(h: Hub, s: Subscription, id: nat)
    requires Shape(h) && id in h.objs
    ensures id in AfterStale(h, s).objs && AfterStale(h, s).objs[id].entry.verified == h.objs[id].entry.verified
    ensures AfterStale(h, s).objs[id].entry.serverID == h.objs[id].entry.serverID
    ensures Settled(AfterStale(h, s), id) <==>
            Settled(h, id) || (KeyOf(s) == KeyOf(h.objs[id].entry) && SameLease(h.objs[id].entry, s))
  {}

  lemma SettledByUnsubscribe(h: Hub, k: Key, id: nat)
    requires Shape(h) && id in h.objs
    ensures AfterUnsubscribe(h, k).objs == h.objs
    ensures Settled(AfterUnsubscribe(h, k), id) <==> Settled(h, id) || KeyOf(h.objs[id].entry) == k
  {}

  predicate SettlingStep(h: Hub, a: Action, id: nat) {
    a.ApplyEvent? && id in h.objs && Settles(h.objs[id].entry, a.e)
  }

  lemma SettledAfter(h: Hub, a: Action, id: nat)
    requires Inv(h) && Enabled(h, a) && id in h.objs
    ensures id in Do(h, a).objs && SameLease(Do(h, a).objs[id].entry, h.objs[id].entry)
    ensures Settled(Do(h, a), id) <==> Settled(h, id) || SettlingStep(h, a, id)
  {
    if a.ApplyEvent? {
      SettlesExactly(h, a.e, id);
    } else {
      KeepsEntries(h, a, id);
    }
  }

  // An event that settles the object is applied from position m up to n.
  predicate Settling(trace: seq<Hub>, actions: seq<Action>, m: nat, n: nat, id: nat)
    requires n <= |trace| && n <= |actions|
  {
    exists i {:trigger actions[i]} :: m <= i < n && SettlingStep(trace[i], actions[i], id)
  }

  /** An entry whose worker has returned is left without one for exactly as long as no event settles
      it: its own stale or unsubscribe event, or another that removes it. Where publishing that
      event fails, nothing else in the process does. */
  lemma {:induction false} UnservedUntilSettled(trace: seq<Hub>, actions: seq<Action>, m: nat, n: nat, id: nat)
    requires IsRun(trace, actions) && m <= n < |trace| && id in trace[m].ended && id in trace[m].objs
    requires !Settled(trace[m], id)
    ensures id in trace[n].objs && !Running(trace[n], id)
    ensures Settled(trace[n], id) <==> Settling(trace, actions, m, n, id)
    decreases n
  {
    EndedStays(trace, actions, m, n, id);
    if n > m {
      UnservedUntilSettled(trace, actions, m, n - 1, id);
      SettlingExtends(trace, actions, m, n - 1, id);
      SettledAt(trace, actions, n - 1, id);
    }
  }

  lemma SettledAt(trace: seq<Hub>, actions: seq<Action>, n: nat, id: nat)
    requires IsRun(trace, actions) && n < |actions| && id in trace[n].objs
    ensures id in trace[n + 1].objs
    ensures Settled(trace[n + 1], id) <==> Settled(trace[n], id) || SettlingStep(trace[n], actions[n], id)
  {
    RunInv(trace, actions, n);
    SettledAfter(trace[n], actions[n], id);
  }

  lemma SettlingExtends(trace: seq<Hub>, actions: seq<Action>, m: nat, n: nat, id: nat)
    requires m <= n < |trace| && n < |actions|
    ensures Settling(trace, actions, m, n + 1, id) <==>
            Settling(trace, actions, m, n, id) || SettlingStep(trace[n], actions[n], id)
  {}

  lemma {:induction false} EndedStays(trace: seq<Hub>, actions: seq<Action>, m: nat, n: nat, id: nat)
    requires IsRun(trace, actions) && m <= n < |trace| && id in trace[m].ended
    ensures id in trace[n].ended
    decreases n
  {
    if n > m {
      EndedStays(trace, actions, m, n - 1, id);
      EndedGrows(trace[n - 1], actions[n - 1]);
    }
  }

  lemma EndedGrows(h: Hub, a: Action)
    requires Shape(h) && Enabled(h, a)
    ensures h.ended <= Do(h, a).ended
  {}

  lemma {:induction false} SettledForGood(trace: seq<Hub>, actions: seq<Action>, m: nat, n: nat, id: nat)
    requires IsRun(trace, actions) && m < n < |trace| && SettlingStep(trace[m], actions[m], id)
    ensures id in trace[n].objs && Settled(trace[n], id)
    decreases n
  {
    RunInv(trace, actions, n - 1);
    if n > m + 1 {
      SettledForGood(trace, actions, m, n - 1, id);
    }
    SettledAfter(trace[n - 1], actions[n - 1], id);
  }

  /** Once the reports of all ended workers have been applied as well, a worker is running on exactly
      the owned entries that are not stale. */
  lemma AllReportedAllServed(trace: seq<Hub>, actions: seq<Action>, n: nat)
    requires IsRun(trace, actions) && n < |trace|
    requires trace[n].scan.Finished? && trace[n].thread.Idle? && !trace[n].shutdown
    requires forall id :: id in trace[n].ended ==> Settling(trace, actions, 0, n, id)
    ensures var h := trace[n];
            forall k {:trigger h.current[k]} :: k in h.current ==>
              h.current[k] in h.objs && Running(h, h.current[k]) == Owned(h, h.current[k])
  {
    var h := trace[n];
    RunInv(trace, actions, n);
    ExactlyOwnedEntriesServed(trace, actions, n);
    forall k | k in h.current
      ensures Running(h, h.current[k]) == Owned(h, h.current[k])
    {
      var id := h.current[k];
      if id in h.ended {
        var m :| 0 <= m < n && SettlingStep(trace[m], actions[m], id);
        SettledForGood(trace, actions, m, n, id);
      }
    }
  }

  // ---- What the maps mean, while the threads interleave ----

  function Projected(h: Hub): Projection {
    Projection(h.topics, map k | k in h.current && h.current[k] in h.objs :: h.objs[h.current[k]].entry)
  }

  function At(h: Hub, k: Key): Option<Subscription> {
    if k in h.current && h.current[k] in h.objs then Some(h.objs[h.current[k]].entry) else None
  }

  lemma AtAfterSubscribe(h: Hub, s: Subscription, k: Key)
    requires Inv(h)
    ensures At(AfterSubscribe(h, s), k) == if k == KeyOf(s) then Some(Subscribed(At(h, k), s)) else At(h, k)
  {
    if k in h.current {
      assert Story(h, h.current[k]);
    }
  }

  lemma AtAfterStale(h: Hub, s: Subscription, k: Key)
    requires Inv(h)
    ensures At(AfterStale(h, s), k) ==
            if k == KeyOf(s) && At(h, k).Some? then Some(Staled(At(h, k).value, s)) else At(h, k)
  {}

  lemma LockedEntry(h: Hub, e: Event, k: Key)
    requires Inv(h) && h.thread.Idle?
    ensures At(Locked(h, e), k) == Convergence.StepEntry(e, k, At(h, k))
  {
    if Accepted(e) {
      match e
      case Subscribe(s) => AtAfterSubscribe(h, s, k);
      case MarkStale(s) => AtAfterStale(h, s, k);
      case _ =>
    }
  }

  lemma ProjectedAt(h: Hub, k: Key)
    ensures Convergence.Entry(Projected(h), k) == At(h, k)
  {}

  lemma {:induction false} LockedIsStep(h: Hub, e: Event)
    requires Inv(h) && h.thread.Idle?
    ensures Projected(Locked(h, e)) == Step(Projected(h), e)
  {
    forall k
      ensures Convergence.Entry(Projected(Locked(h, e)), k) == Convergence.Entry(Step(Projected(h), e), k)
    {
      Convergence.StepAtKey(Projected(h), e, k);
      LockedEntry(h, e, k);
      ProjectedAt(h, k);
      ProjectedAt(Locked(h, e), k);
    }
    Convergence.SameEverywhere(Projected(Locked(h, e)), Step(Projected(h), e));
  }

  function EventsIn(actions: seq<Action>): seq<Event> {
    if actions == [] then []
    else
      var earlier := EventsIn(actions[..|actions| - 1]);
      match actions[|actions| - 1]
      case ApplyEvent(e) => earlier + [e]
      case _ => earlier
  }

  function AfterAction(p: Projection, a: Action): Projection {
    if a.ApplyEvent? then Step(p, a.e) else p
  }

  lemma FoldEventsNext(actions: seq<Action>, n: nat, p: Projection)
    requires n < |actions|
    ensures Fold(EventsIn(actions[..n + 1]), p) == AfterAction(Fold(EventsIn(actions[..n]), p), actions[n])
  {
    assert actions[..n + 1][..n] == actions[..n];
    if actions[n].ApplyEvent? {
      FoldNext(EventsIn(actions[..n]), actions[n].e, p);
    }
  }

  /** The hub's projection is the fold of the events applied so far, whatever the scan, the
      worker starts and the cancellations do in between. */
  lemma {:induction false} ProjectionUnaffected(trace: seq<Hub>, actions: seq<Action>, n: nat)
    requires IsRun(trace, actions) && n < |trace|
    ensures Projected(trace[n]) == Fold(EventsIn(actions[..n]), Projected(trace[0]))
    decreases n
  {
    if n == 0 {
      RunInv(trace, actions, 0);
    } else {
      ProjectionUnaffected(trace, actions, n - 1);
      RunInv(trace, actions, n - 1);
      ProjectionStep(trace[n - 1], actions[n - 1]);
      FoldEventsNext(actions, n - 1, Projected(trace[0]));
    }
  }

  lemma ProjectionStep(h: Hub, a: Action)
    requires Inv(h) && Enabled(h, a)
    ensures Projected(Do(h, a)) == AfterAction(Projected(h), a)
  {
    if a.ApplyEvent? {
      LockedIsStep(h, a.e);
    } else {
      SameProjection(h, a);
    }
  }

  lemma StartKeepsEntries(h: Hub, id: nat, i: nat)
    requires id in h.objs && i in h.objs
    ensures Start(h, id).topics == h.topics && Start(h, id).current == h.current
    ensures i in Start(h, id).objs && Start(h, id).objs[i].entry == h.objs[i].entry
  {}

  lemma KeepsEntries(h: Hub, a: Action, id: nat)
    requires Shape(h) && Enabled(h, a) && !a.ApplyEvent? && id in h.objs
    ensures Do(h, a).topics == h.topics && Do(h, a).current == h.current
    ensures id in Do(h, a).objs && Do(h, a).objs[id].entry == h.objs[id].entry
  {
    match a
    case ThreadStep(i) =>
      if h.thread.Starting? {
        StartKeepsEntries(h, i, id);
      }
    case ScanStep(i) => StartKeepsEntries(h, i, id);
    case _ =>
  }

  lemma SameMaps(h: Hub, a: Action)
    requires Shape(h) && Enabled(h, a) && !a.ApplyEvent?
    ensures Do(h, a).topics == h.topics && Do(h, a).current == h.current
  {}

  lemma SameAt(h: Hub, a: Action, k: Key)
    requires Shape(h) && Enabled(h, a) && !a.ApplyEvent?
    ensures At(Do(h, a), k) == At(h, k)
  {
    SameMaps(h, a);
    if k in h.current {
      KeepsEntries(h, a, h.current[k]);
    }
  }

  lemma {:induction false} SameProjection(h: Hub, a: Action)
    requires Inv(h) && Enabled(h, a) && !a.ApplyEvent?
    ensures Projected(Do(h, a)) == Projected(h)
  {
    forall k
      ensures Convergence.Entry(Projected(Do(h, a)), k) == Convergence.Entry(Projected(h), k)
    {
      ProjectedAt(h, k);
      ProjectedAt(Do(h, a), k);
      SameAt(h, a, k);
    }
    SameMaps(h, a);
    Convergence.SameEverywhere(Projected(Do(h, a)), Projected(h));
  }
}
