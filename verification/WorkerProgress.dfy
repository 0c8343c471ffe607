/** From any moment on, the hub's own steps bring its delivery workers to rest: the event thread
    finishes what it has begun, the scan goes through, and then every owned entry has its worker. */
module WorkerProgress {
  import opened State
  import opened Workers

  // The two threads' own steps, no event applied and no worker ending.
  predicate OwnStep(a: Action) {
    a.ThreadStep? || a.BeginScan? || a.ScanStep? || a.EndScan?
  }

  ghost predicate Path(h: Hub, actions: seq<Action>, last: Hub)
    decreases |actions|
  {
    if actions == [] then h == last
    else
      && OwnStep(actions[0]) && Shape(h) && Enabled(h, actions[0])
      && Path(Do(h, actions[0]), actions[1..], last)
  }

  lemma PathFurther(h: Hub, a: Action, actions: seq<Action>, last: Hub)
    requires OwnStep(a) && Shape(h) && Enabled(h, a) && Path(Do(h, a), actions, last)
    ensures Path(h, [a] + actions, last)
  {
    assert ([a] + actions)[1..] == actions;
  }

  function ThreadRank(t: Thread): nat {
    match t
    case Idle => 0
    case Starting(_) => 1
    case Revoking(_) => 1
    case Cancelling(ids) => |ids| + 1
  }

  function ScanRank(s: Scan): nat {
    match s
    case NotBegun => 1
    case Scanning(pending) => |pending| + 1
    case Finished => 0
  }

  // One of: the thread is busy, the scan has not begun, it is under way.
  function Phase(h: Hub): nat {
    if !h.thread.Idle? then 2 else if h.scan.NotBegun? then 1 else 0
  }

  function Rank(h: Hub): nat {
    if h.thread.Idle? then ScanRank(h.scan) else ThreadRank(h.thread)
  }

  predicate Nearer(h': Hub, h: Hub) {
    Phase(h') < Phase(h) || (Phase(h') == Phase(h) && Rank(h') < Rank(h))
  }

  // Nothing but threads and workers is different.
  predicate SameEntries(h: Hub, h': Hub) {
    h'.topics == h.topics && h'.current == h.current && h'.shutdown == h.shutdown && h'.ended == h.ended
  }

  ghost predicate BringsNearer(h: Hub, a: Action)
    requires Shape(h)
  {
    OwnStep(a) && Enabled(h, a) && Nearer(Do(h, a), h) && SameEntries(h, Do(h, a))
  }

  lemma ThreadStepNearer(h: Hub, id: nat)
    requires Shape(h) && Enabled(h, ThreadStep(id))
    ensures Nearer(Do(h, ThreadStep(id)), h)
    ensures SameEntries(h, Do(h, ThreadStep(id)))
  {}

  // The event thread finishes first.
  lemma ThreadGoesOn(h: Hub)
    requires Inv(h) && !h.thread.Idle?
    ensures exists a {:trigger BringsNearer(h, a)} :: BringsNearer(h, a)
  {
    var id := 0;
    match h.thread {
      case Starting(i) => id := i;
      case Revoking(i) => id := i;
      case Cancelling(ids) =>
        if i :| i in ids {
          id := i;
        } else {
          assert ids == {};
        }
    }
    ThreadStepNearer(h, id);
    assert BringsNearer(h, ThreadStep(id));
  }

  lemma ScanGoesOn(h: Hub)
    requires Inv(h) && h.thread.Idle? && !h.scan.Finished?
    ensures exists a {:trigger BringsNearer(h, a)} :: BringsNearer(h, a)
  {
    match h.scan
    case NotBegun => assert BringsNearer(h, BeginScan);
    case Scanning(pending) =>
      if id :| id in pending {
        assert BringsNearer(h, ScanStep(id));
      } else {
        assert pending == {} && BringsNearer(h, EndScan);
      }
  }

  // All that was begun is finished, any event can be applied next, and exactly the owned entries are
  // served.
  ghost predicate RestsAt(h: Hub, actions: seq<Action>, last: Hub) {
    && Path(h, actions, last) && Inv(last) && last.thread.Idle? && last.scan.Finished? && SameEntries(h, last)
    && (!h.shutdown ==> Served(last)) && forall e {:trigger ApplyEvent(e)} :: Enabled(last, ApplyEvent(e))
  }

  lemma RestsFurther(h: Hub, a: Action, actions: seq<Action>, last: Hub)
    requires Shape(h) && BringsNearer(h, a) && RestsAt(Do(h, a), actions, last)
    ensures exists longer {:trigger RestsAt(h, longer, last)} :: RestsAt(h, longer, last)
  {
    PathFurther(h, a, actions, last);
    assert RestsAt(h, [a] + actions, last);
  }

  // A worker can return by itself at any time, and the hub be shut down.
  lemma EndsAnyTime(h: Hub, id: nat)
    requires Inv(h) && id in h.objs
    ensures Running(h, id) ==> Enabled(h, WorkerEnds(id)) && !Running(Do(h, WorkerEnds(id)), id)
    ensures Enabled(h, Shutdown) && Do(h, Shutdown).shutdown
  {}

  // Workers started for the object so far.
  function StartsOf(h: Hub, id: nat): nat {
    if id in h.objs then h.objs[id].starts else 0
  }

  lemma NoStartByEvent(h: Hub, e: Event, id: nat)
    requires Shape(h)
    ensures Locked(h, e).shutdown == h.shutdown && StartsOf(Locked(h, e), id) == StartsOf(h, id)
  {}

  lemma NoStartNow(h: Hub, a: Action, id: nat)
    requires Shape(h) && Enabled(h, a) && h.shutdown
    ensures Do(h, a).shutdown && StartsOf(Do(h, a), id) == StartsOf(h, id)
  {
    match a
    case ApplyEvent(e) => NoStartByEvent(h, e, id);
    case ThreadStep(i) =>
      if h.thread.Starting? {
        assert Start(h, i) == h;
      }
    case ScanStep(i) => assert Start(h, i) == h;
    case _ =>
  }

  /** Once the hub is shut down no worker starts any more, neither from the scan nor for an event. */
  lemma {:induction false} NoStartAfterShutdown(trace: seq<Hub>, actions: seq<Action>, m: nat, n: nat, id: nat)
    requires IsRun(trace, actions) && m <= n < |trace| && trace[m].shutdown
    ensures trace[n].shutdown && StartsOf(trace[n], id) == StartsOf(trace[m], id)
    decreases n
  {
    if n > m {
      NoStartAfterShutdown(trace, actions, m, n - 1, id);
      RunInv(trace, actions, n - 1);
      NoStartNow(trace[n - 1], actions[n - 1], id);
    }
  }

  /** Whatever is under way, and whichever thread is slower: the two threads come to rest by their own
      steps; and then, unless the hub is shut down, exactly the owned entries are served. */
  lemma {:induction false} ComesToRest(h: Hub)
    requires Inv(h)
    ensures exists actions, last {:trigger RestsAt(h, actions, last)} :: RestsAt(h, actions, last)
    decreases Phase(h), Rank(h)
  {
    if h.thread.Idle? && h.scan.Finished? {
      if !h.shutdown {
        ServedAtRest(h);
      }
      assert RestsAt(h, [], h);
    } else {
      if h.thread.Idle? {
        ScanGoesOn(h);
      } else {
        ThreadGoesOn(h);
      }
      var a :| BringsNearer(h, a);
      DoInv(h);
      ComesToRest(Do(h, a));
      var actions, last :| RestsAt(Do(h, a), actions, last);
      RestsFurther(h, a, actions, last);
    }
  }
}
