/** The other half of the verified callbacks: a job that was run is called exactly when its intent
    was proved, and otherwise one step of its own says why not. And any job can be served. */
module VerifiedCallbacks {
  import opened Wrappers
  import opened VerificationQueue
  import Verification

  // ---- A proved job is called ----

  predicate Proved(h: Handler, j: nat) {
    j in h.validated && (j in h.marked || j in h.echoed)
  }

  // A running job is not called yet, and proved as soon as only the callback is left; a job whose
  // run is over was called exactly when it was proved.
  predicate WorkerFulfils(h: Handler, worker: Worker) {
    match worker
    case Running(j, stage) => (Proved(h, j) <==> stage.Calling?) && (stage.Validating? ==> j !in h.validated)
    case Leaving(j, ending) => ending.Ran? ==> (j in h.called <==> Proved(h, j))
    case _ => true
  }

  predicate HolderFulfils(h: Handler, w: nat, j: nat) {
    w < |h.workers| && HeldByWorker(h.workers[w], j) == 1 ==> WorkerFulfils(h, h.workers[w])
  }

  predicate EndFulfils(h: Handler, j: nat) {
    j in h.endings && h.endings[j].Ran? ==> (j in h.called <==> Proved(h, j))
  }

  ghost predicate Fulfils(h: Handler, j: nat) {
    (forall w: nat {:trigger HolderFulfils(h, w, j)} :: HolderFulfils(h, w, j)) && EndFulfils(h, j)
  }

  lemma HoldersAfterPipeline(h: Handler, a: Action, j: nat)
    requires Accounting(h) && Careful(h) && Enabled(h, a) && IsPipeline(a) && Fulfils(h, j)
    ensures forall w: nat {:trigger HolderFulfils(DoPipeline(h, a), w, j)} :: HolderFulfils(DoPipeline(h, a), w, j)
  {
    WorkerOwns(h, a.w);
    assert WorkerCareful(h, h.workers[a.w]) && HolderFulfils(h, a.w, j);
    forall w: nat | w != a.w
      ensures HolderFulfils(DoPipeline(h, a), w, j)
    {
      assert HolderFulfils(h, w, j);
    }
  }

  lemma HoldersAfterWorker(h: Handler, a: Action, j: nat)
    requires Accounting(h) && Careful(h) && Enabled(h, a) && IsWorker(a) && Fulfils(h, j)
    ensures forall w: nat {:trigger HolderFulfils(DoWorker(h, a), w, j)} :: HolderFulfils(DoWorker(h, a), w, j)
  {
    assert WorkerCareful(h, h.workers[a.w]) && HolderFulfils(h, a.w, j);
    forall w: nat | w != a.w
      ensures HolderFulfils(DoWorker(h, a), w, j)
    {
      assert HolderFulfils(h, w, j);
    }
  }

  lemma HoldersAfterRequest(h: Handler, a: Action, j: nat)
    requires Accounting(h) && Careful(h) && Enabled(h, a) && IsRequest(a) && Fulfils(h, j)
    ensures forall w: nat {:trigger HolderFulfils(DoRequest(h, a), w, j)} :: HolderFulfils(DoRequest(h, a), w, j)
  {
    forall w: nat
      ensures HolderFulfils(DoRequest(h, a), w, j)
    {
      assert HolderFulfils(h, w, j);
      if w < |h.workers| && HeldByWorker(h.workers[w], j) == 1 {
        WorkerOwns(h, w);
      }
    }
  }

  lemma HoldersAfter(h: Handler, a: Action, j: nat)
    requires Accounting(h) && Careful(h) && Enabled(h, a) && Fulfils(h, j)
    ensures forall w: nat {:trigger HolderFulfils(Do(h, a), w, j)} :: HolderFulfils(Do(h, a), w, j)
  {
    if IsPipeline(a) {
      HoldersAfterPipeline(h, a, j);
    } else if IsWorker(a) {
      HoldersAfterWorker(h, a, j);
    } else if IsRequest(a) {
      HoldersAfterRequest(h, a, j);
    } else {
      forall w: nat
        ensures HolderFulfils(DoClosing(h, a), w, j)
      {
        assert HolderFulfils(h, w, j);
      }
    }
  }

  lemma EndAfterPipeline(h: Handler, a: Action, j: nat)
    requires Accounting(h) && Enabled(h, a) && IsPipeline(a) && EndFulfils(h, j)
    ensures EndFulfils(DoPipeline(h, a), j)
  {
    WorkerOwns(h, a.w);
  }

  lemma EndAfterWorker(h: Handler, a: Action, j: nat)
    requires Enabled(h, a) && IsWorker(a) && EndFulfils(h, j) && HolderFulfils(h, a.w, j)
    ensures EndFulfils(DoWorker(h, a), j)
  {}

  lemma EndAfterRequest(h: Handler, a: Action, j: nat)
    requires Accounting(h) && Enabled(h, a) && IsRequest(a) && EndFulfils(h, j)
    ensures EndFulfils(DoRequest(h, a), j)
  {
    if a.Send? {
      AdmissionOwns(h);
    }
  }

  lemma EndAfter(h: Handler, a: Action, j: nat)
    requires Accounting(h) && Enabled(h, a) && Fulfils(h, j)
    ensures EndFulfils(Do(h, a), j)
  {
    if IsPipeline(a) {
      EndAfterPipeline(h, a, j);
    } else if IsWorker(a) {
      assert HolderFulfils(h, a.w, j);
      EndAfterWorker(h, a, j);
    } else if IsRequest(a) {
      EndAfterRequest(h, a, j);
    }
  }

  lemma {:induction false} RunFulfils(trace: seq<Handler>, actions: seq<Action>, n: nat, j: nat)
    requires IsRun(trace, actions) && n < |trace|
    ensures Fulfils(trace[n], j)
    decreases n
  {
    if n > 0 {
      RunFulfils(trace, actions, n - 1, j);
      RunInv(trace, actions, n - 1);
      assert StepAt(trace, actions, n - 1);
      EndAfter(trace[n - 1], actions[n - 1], j);
      HoldersAfter(trace[n - 1], actions[n - 1], j);
    }
  }

  /** In every run, a job that was run to its end got its one verified callback exactly when its
      validation passed and intent was proved: by the application when it was admitted, or by an
      echoed challenge. */
  lemma ProvedJobsAreCalled(trace: seq<Handler>, actions: seq<Action>, n: nat, j: nat)
    requires IsRun(trace, actions) && n < |trace| && j in trace[n].endings && trace[n].endings[j].Ran?
    ensures trace[n].called[j] ==
            if j in trace[n].validated && (j in trace[n].marked || j in trace[n].echoed) then 1 else 0
  {
    RunFulfils(trace, actions, n, j);
    CalledAtMostOnce(trace, actions, n, j);
  }

  // ---- Why a job was not called ----

  // A step that ends the run of job j without its callback: validation failed, no challenge could be
  // drawn, or the answer is no 2xx with the whole bounded challenge as its body.
  predicate Refuses(h: Handler, a: Action, j: nat) {
    IsPipeline(a) && Runs(h, a.w, j) &&
    match a
    case Validate(_, passed) => !passed
    case Draw(_, challenge) => challenge.None?
    case Hear(w, response, limit) =>
      h.workers[w].stage.Asking? &&
      !(Verification.Echoed(response, h.workers[w].stage.challenge) && |h.workers[w].stage.challenge| <= limit)
    case Call(_) => false
  }

  predicate LeavesRan(h: Handler, w: nat, j: nat) {
    w < |h.workers| && h.workers[w] == Leaving(j, Ran)
  }

  // The run of job j is over.
  ghost predicate RunOver(h: Handler, j: nat) {
    (j in h.endings && h.endings[j].Ran?) || exists w: nat {:trigger LeavesRan(h, w, j)} :: LeavesRan(h, w, j)
  }

  predicate Concludes(h: Handler, a: Action, j: nat) {
    (a.Call? && Runs(h, a.w, j)) || Refuses(h, a, j)
  }

  lemma HolderConcludes(h: Handler, a: Action, w: nat, j: nat)
    requires Careful(h) && Enabled(h, a) && LeavesRan(Do(h, a), w, j)
    ensures LeavesRan(h, w, j) || Concludes(h, a, j)
  {
    if IsPipeline(a) {
      assert WorkerCareful(h, h.workers[a.w]);
    }
  }

  lemma EndConcludes(h: Handler, a: Action, j: nat)
    requires Enabled(h, a) && j in Do(h, a).endings && Do(h, a).endings[j].Ran?
    ensures RunOver(h, j)
  {
    if a.Release? {
      assert LeavesRan(h, a.w, j) || (j in h.endings && h.endings[j].Ran?);
    }
  }

  lemma OverByStep(h: Handler, a: Action, j: nat)
    requires Careful(h) && Enabled(h, a) && RunOver(Do(h, a), j)
    ensures RunOver(h, j) || Concludes(h, a, j)
  {
    if j in Do(h, a).endings && Do(h, a).endings[j].Ran? {
      EndConcludes(h, a, j);
    } else {
      var w: nat :| LeavesRan(Do(h, a), w, j);
      HolderConcludes(h, a, w, j);
    }
  }

  lemma OverAt(trace: seq<Handler>, actions: seq<Action>, n: nat, j: nat)
    requires IsRun(trace, actions) && n < |actions| && RunOver(trace[n + 1], j)
    ensures RunOver(trace[n], j) || Concludes(trace[n], actions[n], j)
  {
    RunInv(trace, actions, n);
    assert StepAt(trace, actions, n) && Inv(trace[n]);
    OverByStep(trace[n], actions[n], j);
  }

  lemma {:induction false} OverHasCause(trace: seq<Handler>, actions: seq<Action>, n: nat, j: nat) returns (m: nat)
    requires IsRun(trace, actions) && n < |trace| && RunOver(trace[n], j)
    ensures m < n && Concludes(trace[m], actions[m], j)
    decreases n
  {
    assert n > 0;
    OverAt(trace, actions, n - 1, j);
    if RunOver(trace[n - 1], j) {
      m := OverHasCause(trace, actions, n - 1, j);
    } else {
      m := n - 1;
    }
  }

  lemma HolderStays(h: Handler, a: Action, w: nat, j: nat)
    requires Enabled(h, a) && LeavesRan(h, w, j)
    ensures LeavesRan(Do(h, a), w, j) || (j in Do(h, a).endings && Do(h, a).endings[j].Ran?)
  {}

  lemma RunningIsNotOver(h: Handler, w: nat, j: nat)
    requires Accounting(h) && Runs(h, w, j)
    ensures !RunOver(h, j)
  {
    WorkerOwns(h, w);
  }

  lemma OverStays(h: Handler, a: Action, j: nat)
    requires Accounting(h) && Enabled(h, a) && RunOver(h, j)
    ensures RunOver(Do(h, a), j)
  {
    if j in h.endings && h.endings[j].Ran? {
      EndingStays(h, a, j);
    } else {
      var w: nat :| LeavesRan(h, w, j);
      HolderStays(h, a, w, j);
    }
  }

  lemma NoCallNow(h: Handler, a: Action, j: nat)
    requires Enabled(h, a) && !(a.Call? && Runs(h, a.w, j))
    ensures Do(h, a).called[j] == h.called[j]
  {}

  lemma OverIsFinal(h: Handler, a: Action, j: nat)
    requires Accounting(h) && Enabled(h, a) && RunOver(h, j)
    ensures RunOver(Do(h, a), j) && Do(h, a).called[j] == h.called[j]
  {
    OverStays(h, a, j);
    if a.Call? && Runs(h, a.w, j) {
      RunningIsNotOver(h, a.w, j);
    }
    NoCallNow(h, a, j);
  }

  lemma RefusalEnds(h: Handler, a: Action, j: nat)
    requires Careful(h) && Enabled(h, a) && Refuses(h, a, j)
    ensures RunOver(Do(h, a), j) && Do(h, a).called[j] == 0
  {
    assert WorkerCareful(h, h.workers[a.w]);
    assert LeavesRan(Do(h, a), a.w, j);
  }

  // Over for good, and without the callback.
  ghost predicate Dismissed(h: Handler, j: nat) {
    RunOver(h, j) && h.called[j] == 0
  }

  lemma DismissedAt(trace: seq<Handler>, actions: seq<Action>, n: nat, j: nat)
    requires IsRun(trace, actions) && n < |actions|
    requires Refuses(trace[n], actions[n], j) || Dismissed(trace[n], j)
    ensures Dismissed(trace[n + 1], j)
  {
    RunInv(trace, actions, n);
    assert StepAt(trace, actions, n) && Inv(trace[n]);
    if Refuses(trace[n], actions[n], j) {
      RefusalEnds(trace[n], actions[n], j);
    } else {
      OverIsFinal(trace[n], actions[n], j);
    }
  }

  lemma {:induction false} RefusedStays(trace: seq<Handler>, actions: seq<Action>, m: nat, n: nat, j: nat)
    requires IsRun(trace, actions) && m < n < |trace| && Refuses(trace[m], actions[m], j)
    ensures Dismissed(trace[n], j)
    decreases n
  {
    if n > m + 1 {
      RefusedStays(trace, actions, m, n - 1, j);
    }
    DismissedAt(trace, actions, n - 1, j);
  }

  lemma FailureRecorded(h: Handler, a: Action, j: nat)
    requires Enabled(h, a)
    ensures j in h.failed || (a.Validate? && !a.passed && Runs(h, a.w, j)) ==> j in Do(h, a).failed
  {}

  // A failed validation is on record ever after.
  lemma {:induction false} FailureStays(trace: seq<Handler>, actions: seq<Action>, m: nat, n: nat, j: nat)
    requires IsRun(trace, actions) && m < n < |trace|
    requires actions[m].Validate? && !actions[m].passed && Runs(trace[m], actions[m].w, j)
    ensures j in trace[n].failed
    decreases n
  {
    assert StepAt(trace, actions, n - 1);
    FailureRecorded(trace[n - 1], actions[n - 1], j);
    if n > m + 1 {
      FailureStays(trace, actions, m, n - 1, j);
    }
  }

  lemma CallStays(h: Handler, a: Action, j: nat)
    requires Enabled(h, a)
    ensures h.called[j] <= Do(h, a).called[j]
    ensures a.Call? && Runs(h, a.w, j) ==> Do(h, a).called[j] > 0
  {}

  lemma {:induction false} CalledStays(trace: seq<Handler>, actions: seq<Action>, m: nat, n: nat, j: nat)
    requires IsRun(trace, actions) && m < n < |trace| && actions[m].Call? && Runs(trace[m], actions[m].w, j)
    ensures trace[n].called[j] > 0
    decreases n
  {
    assert StepAt(trace, actions, n - 1);
    CallStays(trace[n - 1], actions[n - 1], j);
    if n > m + 1 {
      CalledStays(trace, actions, m, n - 1, j);
    }
  }

  /** And the reason, in every run: a job that was run to its end was not called exactly when one step
      of its own run refused it. */
  lemma NotCalledExactly(trace: seq<Handler>, actions: seq<Action>, n: nat, j: nat)
    requires IsRun(trace, actions) && n < |trace| && j in trace[n].endings && trace[n].endings[j].Ran?
    ensures trace[n].called[j] == 0 <==>
            exists m {:trigger Refuses(trace[m], actions[m], j)} :: 0 <= m < n && Refuses(trace[m], actions[m], j)
  {
    var m := OverHasCause(trace, actions, n, j);
    if actions[m].Call? {
      CalledStays(trace, actions, m, n, j);
    }
    forall m | 0 <= m < n && Refuses(trace[m], actions[m], j)
      ensures trace[n].called[j] == 0
    {
      RefusedStays(trace, actions, m, n, j);
    }
  }

  // ---- What Close answers ----

  lemma ClosedStays(h: Handler, a: Action)
    requires Enabled(h, a) && h.closing.Closed?
    ensures Do(h, a).closing.Closed?
  {}

  lemma NilByStep(h: Handler, a: Action, c: nat)
    requires Enabled(h, a) && IsClosing(a)
    requires c < |DoClosing(h, a).closers| && DoClosing(h, a).closers[c] == Returned(false)
    ensures (c < |h.closers| && h.closers[c] == Returned(false)) || h.closing.Closed?
  {}

  lemma {:induction false} NilMeansClosed(trace: seq<Handler>, actions: seq<Action>, n: nat, c: nat)
    requires IsRun(trace, actions) && n < |trace| && c < |trace[n].closers| && trace[n].closers[c] == Returned(false)
    ensures trace[n].closing.Closed?
    decreases n
  {
    assert n > 0 && StepAt(trace, actions, n - 1);
    var h, a := trace[n - 1], actions[n - 1];
    if IsClosing(a) {
      NilByStep(h, a, c);
    } else {
      assert Do(h, a).closers == h.closers;
    }
    if c < |h.closers| && h.closers[c] == Returned(false) {
      NilMeansClosed(trace, actions, n - 1, c);
    }
    ClosedStays(h, a);
  }

  /** A call of Close that returns no error finds everything done; one that returns a deadline error
      has emptied the queue, and from its deadline on no worker has to wait, at a gate or for a
      job. */
  lemma CloseAnswersTruly(trace: seq<Handler>, actions: seq<Action>, n: nat, c: nat)
    requires IsRun(trace, actions) && n < |trace| && c < |trace[n].closers|
    ensures trace[n].closers[c] == Returned(false) ==> trace[n].closing.Closed?
    ensures trace[n].closers[c] == Returned(true) ==> trace[n].expired && trace[n].queue == []
    ensures trace[n].expired ==> forall w: nat {:trigger trace[n].workers[w]} :: w < |trace[n].workers| ==>
              && (trace[n].workers[w].AtGate? ==> Enabled(trace[n], Abandon(w)))
              && (trace[n].workers[w].Waiting? ==> Enabled(trace[n], Exit(w)))
  {
    RunInv(trace, actions, n);
    if trace[n].closers[c] == Returned(false) {
      NilMeansClosed(trace, actions, n, c);
    }
  }

  lemma BoundKept(h: Handler, a: Action)
    requires Enabled(h, a) && |h.queue| <= h.capacity
    ensures |Do(h, a).queue| <= Do(h, a).capacity
  {
    if IsPipeline(a) {
      assert DoPipeline(h, a).queue == h.queue && DoPipeline(h, a).capacity == h.capacity;
    } else if IsWorker(a) {
      assert |DoWorker(h, a).queue| <= |h.queue| && DoWorker(h, a).capacity == h.capacity;
    } else if IsClosing(a) {
      assert |DoClosing(h, a).queue| <= |h.queue| && DoClosing(h, a).capacity == h.capacity;
    }
  }

  /** The channel: in every run it holds no more jobs than its capacity. */
  lemma {:induction false} QueueIsBounded(trace: seq<Handler>, actions: seq<Action>, n: nat)
    requires IsRun(trace, actions) && n < |trace|
    ensures |trace[n].queue| <= trace[n].capacity
    decreases n
  {
    if n > 0 {
      QueueIsBounded(trace, actions, n - 1);
      assert StepAt(trace, actions, n - 1);
      BoundKept(trace[n - 1], actions[n - 1]);
    }
  }

  // So a request is refused only when the channel is full.
  lemma RefusedWhenFull(trace: seq<Handler>, actions: seq<Action>, n: nat)
    requires IsRun(trace, actions) && n < |actions| && actions[n].Refuse?
    ensures |trace[n].queue| == trace[n].capacity
  {
    QueueIsBounded(trace, actions, n);
    assert StepAt(trace, actions, n);
  }

  /** Neither admit nor Close blocks for good: a counted request is at once either sent or refused, after
      which Close can be called; and a call of Close can run into its deadline as long as it waits. */
  lemma CallsProceed(h: Handler, c: nat)
    requires Inv(h)
    ensures h.admission.Free? ==> Enabled(h, CallClose) && (h.closing.Open? ==> Enabled(h, BeginAdmit))
    ensures h.admission.Counted? ==>
              var a := if |h.queue| < h.capacity then Send(false) else Refuse;
              Enabled(h, a) && Do(h, a).admission.Free?
    ensures c < |h.closers| && h.closers[c].Selecting? ==>
              Enabled(h, Deadline(c)) && Do(h, Deadline(c)).closers[c].Draining? && Do(h, Deadline(c)).rootCancelled
  {}

  // ---- Any job can be served ----

  // Open, with nothing on its way and worker w at rest.
  predicate Ready(h: Handler, w: nat) {
    && h.closing.Open? && h.admission.Free? && h.queue == [] && h.capacity > 0
    && w < |h.workers| && h.workers[w].Waiting?
  }

  // The whole of it, if every step is enabled in turn.
  function DoAll(h: Handler, actions: seq<Action>): Option<Handler>
    decreases |actions|
  {
    if actions == [] then Some(h)
    else if Enabled(h, actions[0]) then DoAll(Do(h, actions[0]), actions[1..])
    else None
  }

  lemma DoNext(h: Handler, a: Action, rest: seq<Action>)
    requires Enabled(h, a)
    ensures DoAll(h, [a] + rest) == DoAll(Do(h, a), rest)
  {
    assert ([a] + rest)[1..] == rest;
  }

  lemma DoLast(h: Handler, a: Action)
    requires Enabled(h, a)
    ensures DoAll(h, [a]) == Some(Do(h, a))
  {
    DoNext(h, a, []);
    assert [a] + [] == [a];
  }

  lemma DoTwo(h: Handler, a: Action, b: Action)
    requires Enabled(h, a) && Enabled(Do(h, a), b)
    ensures DoAll(h, [a, b]) == Some(Do(Do(h, a), b))
  {
    DoNext(h, a, [b]);
    DoLast(Do(h, a), b);
  }

  lemma HeadFirst(first: seq<Action>, rest: seq<Action>)
    requires first != []
    ensures first + rest == [first[0]] + (first[1..] + rest)
  {}

  lemma {:induction false} DoJoin(h: Handler, first: seq<Action>, rest: seq<Action>)
    requires DoAll(h, first).Some?
    ensures DoAll(h, first + rest) == DoAll(DoAll(h, first).value, rest)
    decreases |first|
  {
    if first == [] {
      assert first + rest == rest;
    } else {
      var next := Do(h, first[0]);
      DoJoin(next, first[1..], rest);
      HeadFirst(first, rest);
      DoNext(h, first[0], first[1..] + rest);
    }
  }

  // The handler once the request for job j is sent, then answered and its gate open, then taken up.
  function Admitted(h: Handler, vouched: bool): Handler {
    var j := h.nextJob;
    h.(wg := h.wg + 1, nextJob := j + 1, queue := [j], accepted := h.accepted + {j}, toAnswer := h.toAnswer + {j},
       marked := if vouched then h.marked + {j} else h.marked)
  }

  function Opened(h: Handler, j: nat): Handler {
    h.(toAnswer := h.toAnswer - {j}, toOpen := h.toOpen - {j}, gates := h.gates + {j})
  }

  function Taken(h: Handler, w: nat, j: nat): Handler
    requires w < |h.workers|
  {
    h.(queue := [], workers := h.workers[w := Running(j, Validating)])
  }

  lemma Admits(h: Handler, w: nat, vouched: bool)
    requires Inv(h) && Ready(h, w)
    ensures DoAll(h, [BeginAdmit, Send(vouched)]) == Some(Admitted(h, vouched))
  {
    DoTwo(h, BeginAdmit, Send(vouched));
    assert h.queue + [h.nextJob] == [h.nextJob];
  }

  lemma Opens(h: Handler, j: nat)
    requires j in h.toAnswer
    ensures DoAll(h, [Respond(j), OpenGate(j)]) == Some(Opened(h, j))
  {
    DoTwo(h, Respond(j), OpenGate(j));
    assert h.toOpen + {j} - {j} == h.toOpen - {j};
  }

  lemma Enters(h: Handler, w: nat, j: nat)
    requires h.queue == [j] && j in h.gates && w < |h.workers| && h.workers[w].Waiting?
    ensures DoAll(h, [Receive(w), Enter(w)]) == Some(Taken(h, w, j))
  {
    DoTwo(h, Receive(w), Enter(w));
    assert h.workers[w := AtGate(j)][w := Running(j, Validating)] == h.workers[w := Running(j, Validating)];
  }

  lemma Validates(h: Handler, w: nat, j: nat)
    requires w < |h.workers| && h.workers[w] == Running(j, Validating)
    ensures DoAll(h, [Validate(w, true)]) ==
            Some(h.(validated := h.validated + {j},
                    workers := h.workers[w := Running(j, if j in h.marked then Calling else Drawing)]))
  {
    DoLast(h, Validate(w, true));
  }

  lemma Answers(h: Handler, w: nat, j: nat, challenge: string, limit: int)
    requires w < |h.workers| && h.workers[w] == Running(j, Drawing) && 0 < |challenge| <= limit
    ensures DoAll(h, Proof(w, false, challenge, limit)) ==
            Some(h.(echoed := h.echoed + {j}, workers := h.workers[w := Running(j, Calling)]))
  {
    var draw, hear := Draw(w, Some(challenge)), Hear(w, Verification.Answer(200, challenge), limit);
    assert Do(h, draw).workers[w] == Running(j, Asking(challenge));
    DoTwo(h, draw, hear);
    assert h.workers[w := Running(j, Asking(challenge))][w := Running(j, Calling)] ==
           h.workers[w := Running(j, Calling)];
  }

  lemma Calls(h: Handler, w: nat, j: nat)
    requires w < |h.workers| && h.workers[w] == Running(j, Calling)
    ensures DoAll(h, [Call(w), Release(w)]) ==
            Some(h.(called := h.called + multiset{j}, wg := h.wg - 1, endings := h.endings[j := Ran],
                    workers := h.workers[w := Waiting]))
  {
    DoTwo(h, Call(w), Release(w));
    assert h.workers[w := Leaving(j, Ran)][w := Waiting] == h.workers[w := Waiting];
  }

  // The application's word replaces the challenge.
  function Proof(w: nat, vouched: bool, challenge: string, limit: int): seq<Action> {
    if vouched then [] else [Draw(w, Some(challenge)), Hear(w, Verification.Answer(200, challenge), limit)]
  }

  // From the request to the verified callback.
  function Service(w: nat, j: nat, vouched: bool, challenge: string, limit: int): seq<Action> {
    [BeginAdmit, Send(vouched)] + ([Respond(j), OpenGate(j)] + ([Receive(w), Enter(w)] + ([Validate(w, true)] +
    (Proof(w, vouched, challenge, limit) + [Call(w), Release(w)]))))
  }

  predicate Served(h: Handler, w: nat, j: nat) {
    Ready(h, w) && h.called[j] == 1 && j in h.endings && h.endings[j].Ran?
  }

  ghost predicate CanBeServed(h: Handler, w: nat, vouched: bool, challenge: string, limit: int) {
    exists last: Handler {:trigger Served(last, w, h.nextJob)} ::
      DoAll(h, Service(w, h.nextJob, vouched, challenge, limit)) == Some(last) && Served(last, w, h.nextJob)
  }

  /** An open handler with a worker at rest can take on a request and carry it through to its verified
      callback, whether the application vouches for the subscriber or the subscriber echoes; and is
      then ready for the next. */
  lemma AnyJobCanBeServed(h: Handler, w: nat, vouched: bool, challenge: string, limit: int)
    requires Inv(h) && Ready(h, w) && 0 < |challenge| <= limit
    ensures CanBeServed(h, w, vouched, challenge, limit)
  {
    var j := h.nextJob;
    var proof := Proof(w, vouched, challenge, limit);
    var calling := proof + [Call(w), Release(w)];
    var run := [Validate(w, true)] + calling;
    assert j !in h.called && j !in h.marked;
    Admits(h, w, vouched);
    var h1 := Admitted(h, vouched);
    Opens(h1, j);
    var h2 := Opened(h1, j);
    Enters(h2, w, j);
    var h3 := Taken(h2, w, j);
    Validates(h3, w, j);
    var h4 := DoAll(h3, [Validate(w, true)]).value;
    if !vouched {
      Answers(h4, w, j, challenge, limit);
    }
    var h5 := DoAll(h4, proof).value;
    Calls(h5, w, j);
    DoJoin(h, [BeginAdmit, Send(vouched)], [Respond(j), OpenGate(j)] + ([Receive(w), Enter(w)] + run));
    DoJoin(h1, [Respond(j), OpenGate(j)], [Receive(w), Enter(w)] + run);
    DoJoin(h2, [Receive(w), Enter(w)], run);
    DoJoin(h3, [Validate(w, true)], calling);
    DoJoin(h4, proof, [Call(w), Release(w)]);
    assert Served(DoAll(h5, [Call(w), Release(w)]).value, w, j);
  }
}
