/** At-least-once delivery, for one topic and callback. The content log grows at its end and is
    trimmed at its start; events subscribe, mark stale, recover and remove the subscription; its
    workers start, deliver batch by batch, commit and end at any moment, be it by failure,
    cancellation or a crash. Content is an offset. */
module AtLeastOnce {
  import opened Wrappers
  import opened State
  import Convergence
  import ContentDelivery
  import Groups

  // A worker between two commits: the batch is [pos, end), and [pos, next) was delivered.
  datatype Worker = Worker(pos: nat, end: nat, next: nat)

  // One consumer group. origin is where a worker last had to start at the end of the log, and
  // [origin, reach) is what has been delivered since.
  datatype Group = Group(origin: nat, reach: nat, committed: Option<nat>, worker: Option<Worker>, delivered: seq<nat>)

  const FRESH := Group(0, 0, None, None, [])

  // The log holds the offsets [start, content).
  datatype System = System(start: nat, content: nat, entry: Option<Subscription>, groups: map<string, Group>)

  datatype Action =
    | Append
    | Trim(to: nat)
    | StateEvent(e: Event)
    | Start
    | Poll(id: string, count: nat)
    | OutOfRange(id: string)
    | Deliver(id: string)
    | Commit(id: string)
    | End(id: string)

  function At(s: System, id: string): Group {
    if id in s.groups then s.groups[id] else FRESH
  }

  function GroupId(s: Subscription): string {
    Groups.GroupKey(s.verified)
  }

  // A commit that can be resumed from; trimming may have overtaken it.
  predicate Honoured(g: Group, start: nat) {
    g.committed.Some? && start <= g.committed.value
  }

  function JumpToEnd(g: Group, content: nat): Group {
    g.(origin := content, reach := content, worker := Some(Worker(content, content, content)))
  }

  // A consumer of the group starts at its commit; without one, or with one out of range, at the
  // end of the log.
  function StartWorker(g: Group, start: nat, content: nat): Group {
    if Honoured(g, start)
    then g.(worker := Some(Worker(g.committed.value, g.committed.value, g.committed.value)))
    else JumpToEnd(g, content)
  }

  function PollBatch(g: Group, count: nat): Group
    requires g.worker.Some?
  {
    g.(worker := Some(g.worker.value.(end := g.worker.value.pos + count)))
  }

  function DeliverNext(g: Group): Group
    requires g.worker.Some?
  {
    var w := g.worker.value;
    g.(worker := Some(w.(next := w.next + 1)), delivered := g.delivered + [w.next],
       reach := if w.next < g.reach then g.reach else w.next + 1)
  }

  function CommitBatch(g: Group): Group
    requires g.worker.Some?
  {
    var w := g.worker.value;
    g.(committed := Some(w.end), worker := Some(Worker(w.end, w.end, w.end)))
  }

  function EndWorker(g: Group): Group {
    g.(worker := None)
  }

  predicate Idle(g: Group) {
    g.worker.Some? && g.worker.value.pos == g.worker.value.end
  }

  predicate Enabled(s: System, a: Action) {
    match a
    case Append => true
    case Trim(to) => s.start <= to <= s.content
    case StateEvent(e) => Accepted(e)
    case Start =>
      // The partition is assigned to one consumer of the group at a time.
      s.entry.Some? && s.entry.value.status != STALE && At(s, GroupId(s.entry.value)).worker.None?
    case Poll(id, count) =>
      && Idle(At(s, id)) && s.start <= At(s, id).worker.value.pos
      && 0 < count <= ContentDelivery.MAX_BATCH && At(s, id).worker.value.pos + count <= s.content
    case OutOfRange(id) => Idle(At(s, id)) && At(s, id).worker.value.pos < s.start
    case Deliver(id) => At(s, id).worker.Some? && At(s, id).worker.value.next < At(s, id).worker.value.end
    case Commit(id) =>
      && At(s, id).worker.Some?
      && var w := At(s, id).worker.value; w.pos < w.end == w.next
    case End(id) => At(s, id).worker.Some?
  }

  function Do(k: Key, s: System, a: Action): System
    requires Enabled(s, a)
  {
    match a
    case Append => s.(content := s.content + 1)
    case Trim(to) => s.(start := to)
    case StateEvent(e) => s.(entry := Convergence.StepEntry(e, k, s.entry))
    case Start =>
      var id := GroupId(s.entry.value);
      s.(groups := s.groups[id := StartWorker(At(s, id), s.start, s.content)])
    case Poll(id, count) => s.(groups := s.groups[id := PollBatch(At(s, id), count)])
    case OutOfRange(id) => s.(groups := s.groups[id := JumpToEnd(At(s, id), s.content)])
    case Deliver(id) => s.(groups := s.groups[id := DeliverNext(At(s, id))])
    case Commit(id) => s.(groups := s.groups[id := CommitBatch(At(s, id))])
    case End(id) => s.(groups := s.groups[id := EndWorker(At(s, id))])
  }

  // ---- One group ----

  predicate AllDelivered(g: Group, lo: nat, hi: nat) {
    forall o {:trigger o in g.delivered} :: lo <= o < hi ==> o in g.delivered
  }

  // Nothing is delivered before all that precedes it, from `lo` on, was.
  predicate InOrder(d: seq<nat>, lo: nat) {
    forall i {:trigger d[..i]} :: 0 <= i < |d| ==> forall o {:trigger o in d[..i]} :: lo <= o < d[i] ==> o in d[..i]
  }

  predicate WorkerOk(content: nat, g: Group, w: Worker) {
    && w.pos <= w.next <= w.end <= content && w.end <= w.pos + ContentDelivery.MAX_BATCH
    && w.pos == (if g.committed.Some? && g.committed.value >= g.origin then g.committed.value else g.origin)
    && w.next <= g.reach && (g.committed.None? ==> w.next == g.reach)
  }

  predicate GroupOk(start: nat, content: nat, g: Group) {
    && start <= content && g.origin <= g.reach <= content
    && (forall o {:trigger o in g.delivered} :: o in g.delivered ==> o < g.reach)
    && AllDelivered(g, g.origin, g.reach)
    && InOrder(g.delivered, g.origin)
    && (g.committed.Some? ==>
          g.committed.value <= g.reach && (g.committed.value < g.origin ==> g.committed.value < start))
    && (g.worker.Some? ==> WorkerOk(content, g, g.worker.value))
  }

  lemma JumpOk(start: nat, content: nat, g: Group)
    requires GroupOk(start, content, g) && !Honoured(g, start)
    ensures GroupOk(start, content, JumpToEnd(g, content))
  {
    forall i | 0 <= i < |g.delivered|
      ensures forall o {:trigger o in g.delivered[..i]} :: content <= o < g.delivered[i] ==> o in g.delivered[..i]
    {
      assert g.delivered[i] in g.delivered;
    }
  }

  lemma DeliverOk(start: nat, content: nat, g: Group)
    requires GroupOk(start, content, g) && g.worker.Some? && g.worker.value.next < g.worker.value.end
    ensures GroupOk(start, content, DeliverNext(g))
  {
    var d, next := g.delivered, g.worker.value.next;
    var d' := d + [next];
    assert forall o :: o in d' <==> o in d || o == next;
    forall i | 0 <= i < |d'|
      ensures forall o {:trigger o in d'[..i]} :: g.origin <= o < d'[i] ==> o in d'[..i]
    {
      assert d'[..i] == d[..i];
      assert i == |d| ==> d[..i] == d;
    }
  }

  lemma CommitOk(start: nat, content: nat, g: Group)
    requires GroupOk(start, content, g) && g.worker.Some? && g.worker.value.next == g.worker.value.end
    ensures GroupOk(start, content, CommitBatch(g))
  {}

  lemma PollOk(start: nat, content: nat, g: Group, count: nat)
    requires GroupOk(start, content, g) && Idle(g)
    requires count <= ContentDelivery.MAX_BATCH && g.worker.value.pos + count <= content
    ensures GroupOk(start, content, PollBatch(g, count))
  {}

  // The log grows at its end, or is trimmed at its start.
  lemma LogMoves(start: nat, content: nat, g: Group, start': nat, content': nat)
    requires GroupOk(start, content, g) && start <= start' <= content' && content <= content'
    ensures GroupOk(start', content', g)
  {}

  // The group a step is about.
  predicate Concerns(s: System, a: Action, id: string) {
    match a
    case Append => false
    case Trim(_) => false
    case StateEvent(_) => false
    case Start => s.entry.Some? && GroupId(s.entry.value) == id
    case _ => a.id == id
  }

  lemma OtherGroup(k: Key, s: System, a: Action, id: string)
    requires Enabled(s, a) && !Concerns(s, a, id)
    ensures At(Do(k, s, a), id) == At(s, id)
    ensures s.start <= Do(k, s, a).start && s.content <= Do(k, s, a).content
    ensures s.start <= s.content ==> Do(k, s, a).start <= Do(k, s, a).content
  {}

  lemma OwnGroup(k: Key, s: System, a: Action, id: string)
    requires Enabled(s, a) && Concerns(s, a, id) && GroupOk(s.start, s.content, At(s, id))
    ensures GroupOk(s.start, s.content, At(Do(k, s, a), id))
  {
    var g := At(s, id);
    match a
    case Start =>
      if !Honoured(g, s.start) {
        JumpOk(s.start, s.content, g);
      }
    case Poll(_, count) => PollOk(s.start, s.content, g, count);
    case OutOfRange(_) => JumpOk(s.start, s.content, g);
    case Deliver(_) => DeliverOk(s.start, s.content, g);
    case Commit(_) => CommitOk(s.start, s.content, g);
    case End(_) =>
  }

  lemma GroupAfter(k: Key, s: System, a: Action, id: string)
    requires Enabled(s, a) && GroupOk(s.start, s.content, At(s, id))
    ensures GroupOk(Do(k, s, a).start, Do(k, s, a).content, At(Do(k, s, a), id))
  {
    if Concerns(s, a, id) {
      OwnGroup(k, s, a, id);
      assert Do(k, s, a).start == s.start && Do(k, s, a).content == s.content;
    } else {
      OtherGroup(k, s, a, id);
      LogMoves(s.start, s.content, At(s, id), Do(k, s, a).start, Do(k, s, a).content);
    }
  }

  // ---- Runs ----

  ghost predicate IsRun(k: Key, trace: seq<System>, actions: seq<Action>) {
    && |trace| == |actions| + 1 && trace[0] == System(0, 0, None, map[])
    && forall n {:trigger actions[n]} :: 0 <= n < |actions| ==>
         Enabled(trace[n], actions[n]) && trace[n + 1] == Do(k, trace[n], actions[n])
  }

  lemma {:induction false} RunGroupOk(k: Key, trace: seq<System>, actions: seq<Action>, n: nat, id: string)
    requires IsRun(k, trace, actions) && n < |trace|
    ensures forall i {:trigger trace[i]} :: 0 <= i <= n ==> GroupOk(trace[i].start, trace[i].content, At(trace[i], id))
    decreases n
  {
    if n > 0 {
      RunGroupOk(k, trace, actions, n - 1, id);
      GroupAfter(k, trace[n - 1], actions[n - 1], id);
    }
  }

  /** In every run: what a group commits was delivered before, all of it from the group's origin on,
      and each record only after all its predecessors. */
  lemma CommittedWasDelivered(k: Key, trace: seq<System>, actions: seq<Action>, n: nat, id: string)
    requires IsRun(k, trace, actions) && n < |trace|
    ensures var g := At(trace[n], id);
            InOrder(g.delivered, g.origin) && (g.committed.Some? ==> AllDelivered(g, g.origin, g.committed.value))
  {
    RunGroupOk(k, trace, actions, n, id);
  }

  // A commit that trimming has not overtaken pins the origin, and only moves on.
  lemma CommitStays(k: Key, s: System, a: Action, id: string)
    requires Enabled(s, a) && GroupOk(s.start, s.content, At(s, id)) && Honoured(At(s, id), s.start)
    ensures var g, g' := At(s, id), At(Do(k, s, a), id);
            g'.committed.Some? && g'.committed.value >= g.committed.value && g'.origin == g.origin
  {}

  // From position m up to n, trimming does not overtake the group's commit.
  ghost predicate Kept(trace: seq<System>, m: nat, n: nat, id: string)
    requires n <= |trace|
  {
    forall i {:trigger trace[i]} :: m <= i < n ==> Honoured(At(trace[i], id), trace[i].start)
  }

  /** As long as trimming does not overtake the commit of a group, nothing from a committed offset c
      on is ever skipped: at any later moment, all from c to the commit, and to where its worker is,
      has been delivered. */
  lemma {:induction false} NothingSkipped(k: Key, trace: seq<System>, actions: seq<Action>, m: nat, n: nat, id: string)
    requires IsRun(k, trace, actions) && m <= n < |trace|
    requires Honoured(At(trace[m], id), trace[m].start) && Kept(trace, m, n, id)
    ensures var c, g := At(trace[m], id).committed.value, At(trace[n], id);
            && g.committed.Some? && g.committed.value >= c && g.origin <= c
            && AllDelivered(g, c, g.committed.value)
            && (g.worker.Some? ==> AllDelivered(g, c, g.worker.value.next))
    decreases n
  {
    RunGroupOk(k, trace, actions, n, id);
    if n > m {
      NothingSkipped(k, trace, actions, m, n - 1, id);
      RunGroupOk(k, trace, actions, n - 1, id);
      assert Honoured(At(trace[n - 1], id), trace[n - 1].start);
      CommitStays(k, trace[n - 1], actions[n - 1], id);
    }
  }

  predicate ResetsKey(k: Key, a: Action) {
    a.StateEvent? && Convergence.Resets(a.e, k)
  }

  /** Stale marking and recovery keep the subscription's lease start, and so its group: as long as it
      is neither unsubscribed nor its topic deregistered, a later worker is of the same group. */
  lemma {:induction false} RecoveryKeepsGroup(k: Key, trace: seq<System>, actions: seq<Action>, m: nat, n: nat)
    requires IsRun(k, trace, actions) && m <= n < |trace| && trace[m].entry.Some?
    requires forall i :: m <= i < n ==> !ResetsKey(k, actions[i])
    ensures trace[n].entry.Some? && GroupId(trace[n].entry.value) == GroupId(trace[m].entry.value)
    decreases n
  {
    if n > m {
      RecoveryKeepsGroup(k, trace, actions, m, n - 1);
      assert !ResetsKey(k, actions[n - 1]);
    }
  }

  /** The two together, for one subscription: across any number of crashes, stale markings and
      recoveries, its next worker starts at its group's last commit exactly when trimming has not
      overtaken that; and if it never did since a commit c, everything from c up to there was
      delivered. */
  lemma RecoveryResumes(k: Key, trace: seq<System>, actions: seq<Action>, m: nat, n: nat)
    requires IsRun(k, trace, actions) && m < n < |actions| && trace[m].entry.Some?
    requires At(trace[m], GroupId(trace[m].entry.value)).committed.Some?
    requires forall i :: m <= i < n ==> !ResetsKey(k, actions[i])
    requires actions[n].Start?
    ensures var id := GroupId(trace[m].entry.value);
            var c, g := At(trace[m], id).committed.value, At(trace[n + 1], id);
            && g.worker.Some?
            && (g.committed == Some(g.worker.value.pos) <==> Honoured(At(trace[n], id), trace[n].start))
            && (Kept(trace, m, n + 1, id) ==> AllDelivered(g, c, g.worker.value.pos))
  {
    var id := GroupId(trace[m].entry.value);
    RecoveryKeepsGroup(k, trace, actions, m, n);
    RunGroupOk(k, trace, actions, n, id);
    assert trace[n + 1] == Do(k, trace[n], actions[n]);
    if Kept(trace, m, n + 1, id) {
      assert Honoured(At(trace[m], id), trace[m].start);
      NothingSkipped(k, trace, actions, m, n, id);
    }
  }

  // ---- A worker catches up ----

  predicate OwnStep(a: Action, id: string) {
    (a.Poll? || a.Deliver? || a.Commit?) && a.id == id
  }

  // Steps of one group's worker alone.
  ghost predicate Path(k: Key, s: System, actions: seq<Action>, last: System, id: string)
    decreases |actions|
  {
    if actions == [] then s == last
    else
      OwnStep(actions[0], id) && Enabled(s, actions[0]) && Path(k, Do(k, s, actions[0]), actions[1..], last, id)
  }

  lemma PathFurther(k: Key, s: System, a: Action, actions: seq<Action>, last: System, id: string)
    requires OwnStep(a, id) && Enabled(s, a) && Path(k, Do(k, s, a), actions, last, id)
    ensures Path(k, s, [a] + actions, last, id)
  {
    assert ([a] + actions)[1..] == actions;
  }

  // At one offset, a batch is committed before the next is polled, and polled before it is delivered.
  function Turn(w: Worker): nat {
    if w.next < w.end then 0 else if w.pos == w.end then 1 else 2
  }

  // As much as there is, up to five records.
  function NextBatch(s: System, w: Worker): nat
    requires w.pos <= s.content
  {
    if w.pos + 5 <= s.content then 5 else s.content - w.pos
  }

  predicate InRange(s: System, id: string) {
    GroupOk(s.start, s.content, At(s, id)) && At(s, id).worker.Some? && s.start <= At(s, id).worker.value.pos
  }

  ghost predicate BringsOn(k: Key, s: System, a: Action, id: string)
    requires At(s, id).worker.Some?
  {
    && OwnStep(a, id) && Enabled(s, a) && InRange(Do(k, s, a), id)
    && Do(k, s, a).content == s.content && At(Do(k, s, a), id).origin == At(s, id).origin
    && var w, w' := At(s, id).worker.value, At(Do(k, s, a), id).worker.value;
       w'.next > w.next || (w'.next == w.next && Turn(w') < Turn(w))
  }

  lemma WorkerGoesOn(k: Key, s: System, id: string)
    requires InRange(s, id) && !(Idle(At(s, id)) && At(s, id).worker.value.pos == s.content)
    ensures exists a {:trigger BringsOn(k, s, a, id)} :: BringsOn(k, s, a, id)
  {
    var w := At(s, id).worker.value;
    var a := if w.next < w.end then Deliver(id) else if w.pos < w.end then Commit(id) else Poll(id, NextBatch(s, w));
    GroupAfter(k, s, a, id);
    assert BringsOn(k, s, a, id);
  }

  // The worker has got through the whole log, and committed what it found there.
  ghost predicate Through(k: Key, s: System, actions: seq<Action>, last: System, id: string)
    requires At(s, id).worker.Some?
  {
    && Path(k, s, actions, last, id) && last.content == s.content
    && var g := At(last, id);
       && g.worker == Some(Worker(s.content, s.content, s.content)) && g.origin == At(s, id).origin
       && AllDelivered(g, At(s, id).origin, s.content)
       && (At(s, id).worker.value.pos < s.content ==> g.committed == Some(s.content))
  }

  lemma ThroughFurther(k: Key, s: System, a: Action, actions: seq<Action>, last: System, id: string)
    requires InRange(s, id) && BringsOn(k, s, a, id) && Through(k, Do(k, s, a), actions, last, id)
    requires At(Do(k, s, a), id).worker.value.pos < s.content || a == Commit(id)
    ensures Through(k, s, [a] + actions, last, id)
  {
    PathFurther(k, s, a, actions, last, id);
  }

  /** As long as it is not trimmed away or stopped, a worker gets through the whole log by its own steps,
      and then everything from its group's origin on was delivered and committed. */
  lemma {:induction false} WorkerCatchesUp(k: Key, s: System, id: string)
    requires InRange(s, id)
    ensures exists actions, last {:trigger Through(k, s, actions, last, id)} :: Through(k, s, actions, last, id)
    decreases s.content - At(s, id).worker.value.next, Turn(At(s, id).worker.value)
  {
    if Idle(At(s, id)) && At(s, id).worker.value.pos == s.content {
      assert Through(k, s, [], s, id);
    } else {
      WorkerGoesOn(k, s, id);
      var a :| BringsOn(k, s, a, id);
      WorkerCatchesUp(k, Do(k, s, a), id);
      var actions, last :| Through(k, Do(k, s, a), actions, last, id);
      ThroughFurther(k, s, a, actions, last, id);
    }
  }

  // ---- When something is lost ----

  lemma DeliveryGrows(k: Key, s: System, a: Action, id: string, o: nat)
    requires Enabled(s, a) && GroupOk(s.start, s.content, At(s, id))
    ensures o in At(s, id).delivered ==> o in At(Do(k, s, a), id).delivered
    ensures o < At(s, id).origin && o !in At(s, id).delivered ==>
              o < At(Do(k, s, a), id).origin && o !in At(Do(k, s, a), id).delivered
  {}

  /** What was delivered stays so; and below the origin, what was not delivered never will be. */
  lemma {:induction false} SkippedForGood(k: Key, trace: seq<System>, actions: seq<Action>, m: nat, n: nat,
                                            id: string, o: nat)
    requires IsRun(k, trace, actions) && m <= n < |trace|
    ensures o in At(trace[m], id).delivered ==> o in At(trace[n], id).delivered
    ensures o < At(trace[m], id).origin && o !in At(trace[m], id).delivered ==>
              o < At(trace[n], id).origin && o !in At(trace[n], id).delivered
    decreases n
  {
    if n > m {
      SkippedForGood(k, trace, actions, m, n - 1, id, o);
      RunGroupOk(k, trace, actions, n - 1, id);
      DeliveryGrows(k, trace[n - 1], actions[n - 1], id, o);
    }
  }

  // A worker of the group committed c before position n, and then all from the origin of that time
  // up to c had been delivered.
  ghost predicate CommittedAt(trace: seq<System>, actions: seq<Action>, m: nat, id: string, c: nat)
    requires |trace| == |actions| + 1
  {
    && m < |actions| && actions[m] == Commit(id)
    && var g := At(trace[m], id); g.worker.Some? && g.worker.value.end == c && AllDelivered(g, g.origin, c)
  }

  lemma CommittedBy(k: Key, s: System, a: Action, id: string)
    requires Enabled(s, a) && GroupOk(s.start, s.content, At(s, id))
    requires At(Do(k, s, a), id).committed != At(s, id).committed
    ensures a == Commit(id)
    ensures var g := At(s, id);
            && g.worker.Some? && At(Do(k, s, a), id).committed == Some(g.worker.value.end)
            && AllDelivered(g, g.origin, g.worker.value.end)
  {}

  /** A commit stands even when a worker has jumped past it. In every run it was made by a worker of
      the group, and all from the origin of that time up to it was delivered before. */
  lemma {:induction false} CommitHasCause(k: Key, trace: seq<System>, actions: seq<Action>, n: nat, id: string)
    requires IsRun(k, trace, actions) && n < |trace| && At(trace[n], id).committed.Some?
    ensures exists m: nat :: m < n && CommittedAt(trace, actions, m, id, At(trace[n], id).committed.value)
    decreases n
  {
    if n > 0 {
      RunGroupOk(k, trace, actions, n - 1, id);
      var c := At(trace[n], id).committed.value;
      if At(trace[n - 1], id).committed == Some(c) {
        CommitHasCause(k, trace, actions, n - 1, id);
      } else {
        CommittedBy(k, trace[n - 1], actions[n - 1], id);
        assert CommittedAt(trace, actions, n - 1, id, c);
      }
    }
  }

  // Some record of [lo, hi) was not delivered.
  predicate Misses(g: Group, lo: nat, hi: nat) {
    exists o {:trigger o in g.delivered} :: lo <= o < hi && o !in g.delivered
  }

  // A jump to the end of the log loses a record for good exactly when there was one left to deliver.
  lemma JumpLosesExactly(k: Key, trace: seq<System>, actions: seq<Action>, n: nat, p: nat, id: string, lo: nat)
    requires IsRun(k, trace, actions) && n < p < |trace|
    requires At(trace[n + 1], id) == JumpToEnd(At(trace[n], id), trace[n].content)
    requires At(trace[n], id).origin <= lo <= At(trace[n], id).reach
    ensures Misses(At(trace[p], id), lo, trace[n].content) <==> At(trace[n], id).reach < trace[n].content
  {
    var g, h := At(trace[n], id), At(trace[p], id);
    RunGroupOk(k, trace, actions, n, id);
    if g.reach < trace[n].content {
      assert g.reach !in g.delivered;
      SkippedForGood(k, trace, actions, n + 1, p, id, g.reach);
      assert g.reach !in h.delivered;
    } else {
      forall o | lo <= o < trace[n].content
        ensures o in h.delivered
      {
        assert o in g.delivered;
        SkippedForGood(k, trace, actions, n, p, id, o);
      }
    }
  }

  // Between the end of its worker and the next start, a group does not change.
  lemma {:induction false} IdleBetween(k: Key, trace: seq<System>, actions: seq<Action>, m: nat, n: nat, id: string)
    requires IsRun(k, trace, actions) && m < n < |trace| && actions[m] == End(id)
    requires forall i {:trigger actions[i]} :: m < i < n ==> !Starts(trace[i], actions[i], id)
    ensures At(trace[n], id) == EndWorker(At(trace[m], id))
    decreases n
  {
    assert Enabled(trace[n - 1], actions[n - 1]) && trace[n] == Do(k, trace[n - 1], actions[n - 1]);
    if n > m + 1 {
      IdleBetween(k, trace, actions, m, n - 1, id);
      assert !Starts(trace[n - 1], actions[n - 1], id);
    }
  }

  predicate Starts(s: System, a: Action, id: string) {
    a.Start? && s.entry.Some? && GroupId(s.entry.value) == id
  }

  /** At least once, exactly. A worker ends (m), and the next one of its group starts (n). Of what the
      first had still to read or deliver, a record before the new position is never delivered, at no
      later moment p, exactly when there is no commit that trimming has left in range, and something
      in the log had not been delivered. */
  lemma RestartLosesExactly(k: Key, trace: seq<System>, actions: seq<Action>, m: nat, n: nat, p: nat, id: string)
    requires IsRun(k, trace, actions) && m < n < p < |trace|
    requires actions[m] == End(id) && Starts(trace[n], actions[n], id)
    requires forall i {:trigger actions[i]} :: m < i < n ==> !Starts(trace[i], actions[i], id)
    ensures At(trace[m], id).worker.Some? && At(trace[n + 1], id).worker.Some?
    ensures var g := At(trace[m], id);
            Misses(At(trace[p], id), g.worker.value.pos, At(trace[n + 1], id).worker.value.pos) <==>
            !Honoured(g, trace[n].start) && g.reach < trace[n].content
  {
    var g := At(trace[m], id);
    assert Enabled(trace[m], actions[m]);
    IdleBetween(k, trace, actions, m, n, id);
    RunGroupOk(k, trace, actions, m, id);
    RunGroupOk(k, trace, actions, n, id);
    assert trace[n + 1] == Do(k, trace[n], actions[n]);
    if !Honoured(g, trace[n].start) {
      JumpLosesExactly(k, trace, actions, n, p, id, g.worker.value.pos);
    }
  }

  /** A worker that trimming overtakes while it runs loses a record exactly when something had not
      been delivered, commit or not. */
  lemma OvertakenLosesExactly(k: Key, trace: seq<System>, actions: seq<Action>, n: nat, p: nat, id: string)
    requires IsRun(k, trace, actions) && n < p < |trace| && actions[n] == OutOfRange(id)
    ensures At(trace[n], id).worker.Some?
    ensures Misses(At(trace[p], id), At(trace[n], id).worker.value.pos, trace[n].content) <==>
            At(trace[n], id).reach < trace[n].content
  {
    assert Enabled(trace[n], actions[n]) && trace[n + 1] == Do(k, trace[n], actions[n]);
    RunGroupOk(k, trace, actions, n, id);
    JumpLosesExactly(k, trace, actions, n, p, id, At(trace[n], id).worker.value.pos);
  }

  // The first worker starts at offset 0, ends before it delivered the one record published since,
  // and its successor starts behind that record.
  ghost predicate LosesFirst(k: Key, trace: seq<System>, actions: seq<Action>, id: string) {
    && IsRun(k, trace, actions) && |actions| == 5 && trace[5].content == 1
    && At(trace[2], id).worker == Some(Worker(0, 0, 0))
    && At(trace[5], id) == Group(1, 1, None, Some(Worker(1, 1, 1)), [])
  }

  const READING := Group(0, 0, None, Some(Worker(0, 0, 0)), [])

  // Its states: no group at first, and then one.
  function Before(s: Option<Subscription>): System {
    System(0, 0, s, map[])
  }

  function With(s: Subscription, content: nat, g: Group): System {
    System(0, content, Some(s), map[GroupId(s) := g])
  }

  lemma FirstSteps(k: Key, s: Subscription)
    requires AcceptedSubscription(s) && KeyOf(s) == k
    ensures Enabled(Before(None), StateEvent(Subscribe(s)))
    ensures Do(k, Before(None), StateEvent(Subscribe(s))) == Before(Some(s))
    ensures Enabled(Before(Some(s)), Start) && Do(k, Before(Some(s)), Start) == With(s, 0, READING)
    ensures Do(k, With(s, 0, READING), Append) == With(s, 1, READING)
  {}

  lemma LastSteps(k: Key, s: Subscription)
    requires AcceptedSubscription(s) && KeyOf(s) == k
    ensures Enabled(With(s, 1, READING), End(GroupId(s)))
    ensures Do(k, With(s, 1, READING), End(GroupId(s))) == With(s, 1, FRESH)
    ensures Enabled(With(s, 1, FRESH), Start)
    ensures Do(k, With(s, 1, FRESH), Start) == With(s, 1, JumpToEnd(FRESH, 1))
  {}

  /** There is such a run for every subscription. */
  lemma FirstRecordLost(k: Key, s: Subscription)
    requires AcceptedSubscription(s) && KeyOf(s) == k
    ensures exists trace, actions :: LosesFirst(k, trace, actions, GroupId(s))
  {
    var id := GroupId(s);
    FirstSteps(k, s);
    LastSteps(k, s);
    var actions := [StateEvent(Subscribe(s)), Start, Append, End(id), Start];
    var trace := [Before(None), Before(Some(s)), With(s, 0, READING), With(s, 1, READING), With(s, 1, FRESH),
                  With(s, 1, JumpToEnd(FRESH, 1))];
    assert LosesFirst(k, trace, actions, id);
  }

  // The log is trimmed past a worker that has not read its one record; a poll then moves it to the end.
  ghost predicate LosesTrimmed(k: Key, trace: seq<System>, actions: seq<Action>, id: string) {
    && IsRun(k, trace, actions) && |actions| == 5 && actions[3] == Trim(1) && actions[4] == OutOfRange(id)
    && At(trace[5], id) == Group(1, 1, None, Some(Worker(1, 1, 1)), [])
  }

  lemma TrimSteps(k: Key, s: Subscription, before: System, trimmed: System)
    requires before == With(s, 1, READING) && trimmed == before.(start := 1)
    ensures Enabled(before, Trim(1)) && Do(k, before, Trim(1)) == trimmed
    ensures Enabled(trimmed, OutOfRange(GroupId(s)))
    ensures At(Do(k, trimmed, OutOfRange(GroupId(s))), GroupId(s)) == JumpToEnd(READING, 1)
  {}

  /** This happens to every subscription as well, without any worker having ended. */
  lemma TrimmedRecordLost(k: Key, s: Subscription)
    requires AcceptedSubscription(s) && KeyOf(s) == k
    ensures exists trace, actions :: LosesTrimmed(k, trace, actions, GroupId(s))
  {
    var id := GroupId(s);
    var before := With(s, 1, READING);
    var trimmed := before.(start := 1);
    FirstSteps(k, s);
    TrimSteps(k, s, before, trimmed);
    var actions := [StateEvent(Subscribe(s)), Start, Append, Trim(1), OutOfRange(id)];
    var trace := [Before(None), Before(Some(s)), With(s, 0, READING), before, trimmed,
                  Do(k, trimmed, OutOfRange(id))];
    assert LosesTrimmed(k, trace, actions, id);
  }
}
