/** The Handler's verification queue as a protocol: requests admit jobs to a bounded channel,
    workers run them behind a gate the request opens after its 202, and Close drains. One step is
    one channel operation, WaitGroup operation or callback; anything else may run in between. */
module VerificationQueue {
  import opened Wrappers
  import Verification

  datatype Ending = Ran | Abandoned | Drained

  datatype Stage =
    | Validating
    | Drawing                       // newChallenge
    | Asking(challenge: string)     // the callback request is out
    | Calling                       // the verified callback is next

  datatype Worker =
    | Waiting                       // in the select of worker
    | AtGate(job: nat)              // received, in the select of runJob
    | Running(job: nat, stage: Stage)
    | Leaving(job: nat, ending: Ending)   // runJob has returned, Done is still to come
    | Exited

  // admissionMu is held from Add to the end of the select.
  datatype Admission = Free | Counted(job: nat)

  datatype Closing = Open | AwaitJobs | CancelRoot | AwaitWorkers | Closed

  // One call of Close.
  datatype Closer = Selecting | Draining | Holding(job: nat) | Returned(drained: bool)

  datatype Handler = Handler(
    capacity: nat,
    queue: seq<nat>,
    wg: int,                        // jobsWG
    admission: Admission,
    workers: seq<Worker>,
    closing: Closing,
    rootCancelled: bool,
    expired: bool,                  // some Close deadline expired
    closers: seq<Closer>,
    nextJob: nat,
    accepted: set<nat>,             // admit returned true
    marked: set<nat>,               // accepted with external verification
    toAnswer: set<nat>,             // 202 not yet written
    toOpen: set<nat>,               // 202 written, gate not yet open
    gates: set<nat>,                // gate open
    endings: map<nat, Ending>,
    validated: set<nat>,
    failed: set<nat>,
    echoed: set<nat>,
    called: multiset<nat>)          // verified callbacks

  datatype Action =
    | BeginAdmit
    | Send(verified: bool)
    | Refuse
    | Respond(job: nat)
    | OpenGate(job: nat)
    | Receive(w: nat)
    | Enter(w: nat)
    | Abandon(w: nat)
    | Validate(w: nat, passed: bool)
    | Draw(w: nat, challenge: Option<string>)
    | Hear(w: nat, response: Verification.Response, limit: int)
    | Call(w: nat)
    | Release(w: nat)
    | Exit(w: nat)
    | CallClose
    | JobsGone
    | CancelAll
    | WorkersGone
    | Deadline(c: nat)
    | DrainReceive(c: nat)
    | DrainDone(c: nat)
    | DrainEmpty(c: nat)
    | SeeClosed(c: nat)

  predicate Enabled(h: Handler, a: Action) {
    match a
    case BeginAdmit => h.closing.Open? && h.admission.Free?
    case Send(_) => h.admission.Counted? && |h.queue| < h.capacity
    case Refuse => h.admission.Counted? && |h.queue| >= h.capacity
    case Respond(j) => j in h.toAnswer
    case OpenGate(j) => j in h.toOpen
    case Receive(w) => w < |h.workers| && h.workers[w].Waiting? && h.queue != []
    case Enter(w) => w < |h.workers| && h.workers[w].AtGate? && h.workers[w].job in h.gates
    case Abandon(w) => w < |h.workers| && h.workers[w].AtGate? && h.rootCancelled
    case Validate(w, _) => w < |h.workers| && h.workers[w].Running? && h.workers[w].stage.Validating?
    case Draw(w, challenge) =>
      w < |h.workers| && h.workers[w].Running? && h.workers[w].stage.Drawing? &&
      (challenge.Some? ==> challenge.value != "")
    case Hear(w, _, _) => w < |h.workers| && h.workers[w].Running? && h.workers[w].stage.Asking?
    case Call(w) => w < |h.workers| && h.workers[w].Running? && h.workers[w].stage.Calling?
    case Release(w) => w < |h.workers| && h.workers[w].Leaving?
    case Exit(w) => w < |h.workers| && h.workers[w].Waiting? && h.rootCancelled
    case CallClose => h.closing.Open? ==> h.admission.Free?
    case JobsGone => h.closing.AwaitJobs? && h.wg == 0
    case CancelAll => h.closing.CancelRoot?
    case WorkersGone => h.closing.AwaitWorkers? && forall w :: 0 <= w < |h.workers| ==> h.workers[w].Exited?
    case Deadline(c) => c < |h.closers| && h.closers[c].Selecting?
    case DrainReceive(c) => c < |h.closers| && h.closers[c].Draining? && h.queue != []
    case DrainDone(c) => c < |h.closers| && h.closers[c].Holding?
    case DrainEmpty(c) => c < |h.closers| && h.closers[c].Draining? && h.queue == []
    case SeeClosed(c) => c < |h.closers| && h.closers[c].Selecting? && h.closing.Closed?
  }

  function SetWorker(h: Handler, w: nat, worker: Worker): Handler
    requires w < |h.workers|
  {
    h.(workers := h.workers[w := worker])
  }

  function SetCloser(h: Handler, c: nat, closer: Closer): Handler
    requires c < |h.closers|
  {
    h.(closers := h.closers[c := closer])
  }

  predicate IsRequest(a: Action) {
    a.BeginAdmit? || a.Send? || a.Refuse? || a.Respond? || a.OpenGate?
  }

  // The steps of one request.
  function DoRequest(h: Handler, a: Action): Handler
    requires Enabled(h, a) && IsRequest(a)
  {
    match a
    case BeginAdmit => h.(wg := h.wg + 1, admission := Counted(h.nextJob), nextJob := h.nextJob + 1)
    case Send(verified) =>
      var j := h.admission.job;
      h.(queue := h.queue + [j], admission := Free, accepted := h.accepted + {j},
         marked := if verified then h.marked + {j} else h.marked, toAnswer := h.toAnswer + {j})
    case Refuse => h.(wg := h.wg - 1, admission := Free)
    case Respond(j) => h.(toAnswer := h.toAnswer - {j}, toOpen := h.toOpen + {j})
    case OpenGate(j) => h.(toOpen := h.toOpen - {j}, gates := h.gates + {j})
  }

  predicate IsPipeline(a: Action) {
    a.Validate? || a.Draw? || a.Hear? || a.Call?
  }

  predicate Passes(a: Action) {
    a.Validate? && a.passed
  }

  // The response that answers the outstanding challenge is accepted.
  predicate Echoes(h: Handler, a: Action)
    requires Enabled(h, a) && IsPipeline(a)
  {
    a.Hear? && Verification.CallbackSucceeds(a.response, a.limit, h.workers[a.w].stage.challenge)
  }

  // Where runSubscription or runUnsubscription continues.
  function NextStage(h: Handler, a: Action): (next: Worker)
    requires Enabled(h, a) && IsPipeline(a)
    ensures next.Running? || next.Leaving?
    ensures next.job == h.workers[a.w].job
  {
    var j := h.workers[a.w].job;
    match a
    case Validate(_, passed) =>
      if !passed then Leaving(j, Ran) else Running(j, if j in h.marked then Calling else Drawing)
    case Draw(_, challenge) => if challenge.Some? then Running(j, Asking(challenge.value)) else Leaving(j, Ran)
    case Hear(_, _, _) => if Echoes(h, a) then Running(j, Calling) else Leaving(j, Ran)
    case Call(_) => Leaving(j, Ran)
  }

  function DoPipeline(h: Handler, a: Action): Handler
    requires Enabled(h, a) && IsPipeline(a)
  {
    var j := h.workers[a.w].job;
    SetWorker(h, a.w, NextStage(h, a)).(
    validated := if Passes(a) then h.validated + {j} else h.validated,
    failed := if a.Validate? && !a.passed then h.failed + {j} else h.failed,
    echoed := if Echoes(h, a) then h.echoed + {j} else h.echoed,
    called := if a.Call? then h.called + multiset{j} else h.called)
  }

  predicate IsWorker(a: Action) {
    a.Receive? || a.Enter? || a.Abandon? || a.Release? || a.Exit?
  }

  function DoWorker(h: Handler, a: Action): Handler
    requires Enabled(h, a) && IsWorker(a)
  {
    match a
    case Receive(w) => SetWorker(h, w, AtGate(h.queue[0])).(queue := h.queue[1..])
    case Enter(w) => SetWorker(h, w, Running(h.workers[w].job, Validating))
    case Abandon(w) => SetWorker(h, w, Leaving(h.workers[w].job, Abandoned))
    case Release(w) =>
      SetWorker(h, w, Waiting).(wg := h.wg - 1, endings := h.endings[h.workers[w].job := h.workers[w].ending])
    case Exit(w) => SetWorker(h, w, Exited)
  }

  predicate IsClosing(a: Action) {
    a.CallClose? || a.JobsGone? || a.CancelAll? || a.WorkersGone? || a.Deadline? || a.DrainReceive? ||
    a.DrainDone? || a.DrainEmpty? || a.SeeClosed?
  }

  function DoClosing(h: Handler, a: Action): Handler
    requires Enabled(h, a) && IsClosing(a)
  {
    match a
    case CallClose =>
      h.(closing := if h.closing.Open? then AwaitJobs else h.closing, closers := h.closers + [Selecting])
    case JobsGone => h.(closing := CancelRoot)
    case CancelAll => h.(rootCancelled := true, closing := AwaitWorkers)
    case WorkersGone => h.(closing := Closed)
    case Deadline(c) => SetCloser(h, c, Draining).(rootCancelled := true, expired := true)
    case DrainReceive(c) => SetCloser(h, c, Holding(h.queue[0])).(queue := h.queue[1..])
    case DrainDone(c) =>
      SetCloser(h, c, Draining).(wg := h.wg - 1, endings := h.endings[h.closers[c].job := Drained])
    case DrainEmpty(c) => SetCloser(h, c, Returned(true))
    case SeeClosed(c) => SetCloser(h, c, Returned(false))
  }

  function Do(h: Handler, a: Action): Handler
    requires Enabled(h, a)
  {
    if IsPipeline(a) then DoPipeline(h, a)
    else if IsWorker(a) then DoWorker(h, a)
    else if IsClosing(a) then DoClosing(h, a)
    else DoRequest(h, a)
  }

  // ---- Where every job is ----

  // Counts one job, or with j < 0 all of them.
  function Is(job: nat, j: int): nat {
    if j < 0 || job == j then 1 else 0
  }

  function HeldByWorker(w: Worker, j: int): nat {
    if w.AtGate? || w.Running? || w.Leaving? then Is(w.job, j) else 0
  }

  function HeldByCloser(c: Closer, j: int): nat {
    if c.Holding? then Is(c.job, j) else 0
  }

  function HeldByAdmission(a: Admission, j: int): nat {
    if a.Counted? then Is(a.job, j) else 0
  }

  function HeldByWorkers(ws: seq<Worker>, j: int): nat {
    if ws == [] then 0 else HeldByWorkers(ws[..|ws| - 1], j) + HeldByWorker(ws[|ws| - 1], j)
  }

  function HeldByClosers(cs: seq<Closer>, j: int): nat {
    if cs == [] then 0 else HeldByClosers(cs[..|cs| - 1], j) + HeldByCloser(cs[|cs| - 1], j)
  }

  function Queued(q: seq<nat>, j: int): nat {
    if q == [] then 0 else Is(q[0], j) + Queued(q[1..], j)
  }

  // How often job j is between its Add and its Done.
  function InFlight(h: Handler, j: int): nat {
    Queued(h.queue, j) + HeldByWorkers(h.workers, j) + HeldByClosers(h.closers, j) + HeldByAdmission(h.admission, j)
  }

  lemma {:induction false} WorkerChanges(ws: seq<Worker>, w: nat, worker: Worker, j: int)
    requires w < |ws|
    ensures HeldByWorkers(ws[w := worker], j) == HeldByWorkers(ws, j) - HeldByWorker(ws[w], j) + HeldByWorker(worker, j)
    decreases |ws|
  {
    var n := |ws| - 1;
    var changed := ws[w := worker];
    if w < n {
      WorkerChanges(ws[..n], w, worker, j);
      assert changed[..n] == ws[..n][w := worker];
    } else {
      assert changed[..n] == ws[..n];
    }
  }

  lemma {:induction false} CloserChanges(cs: seq<Closer>, c: nat, closer: Closer, j: int)
    requires c < |cs|
    ensures HeldByClosers(cs[c := closer], j) == HeldByClosers(cs, j) - HeldByCloser(cs[c], j) + HeldByCloser(closer, j)
    decreases |cs|
  {
    var n := |cs| - 1;
    var changed := cs[c := closer];
    if c < n {
      CloserChanges(cs[..n], c, closer, j);
      assert changed[..n] == cs[..n][c := closer];
    } else {
      assert changed[..n] == cs[..n];
    }
  }

  lemma {:induction false} QueueGrows(q: seq<nat>, job: nat, j: int)
    ensures Queued(q + [job], j) == Queued(q, j) + Is(job, j)
    decreases |q|
  {
    if q == [] {
      assert q + [job] == [job];
    } else {
      QueueGrows(q[1..], job, j);
      assert (q + [job])[1..] == q[1..] + [job];
    }
  }

  // Only these four steps add a job or finish one.
  function Change(h: Handler, a: Action, j: int): int
    requires Enabled(h, a)
  {
    match a
    case BeginAdmit => Is(h.nextJob, j) as int
    case Refuse => -(Is(h.admission.job, j) as int)
    case Release(w) => -(Is(h.workers[w].job, j) as int)
    case DrainDone(c) => -(Is(h.closers[c].job, j) as int)
    case _ => 0
  }

  lemma FlightOfRequest(h: Handler, a: Action, j: int)
    requires Enabled(h, a) && IsRequest(a)
    ensures InFlight(DoRequest(h, a), j) == InFlight(h, j) + Change(h, a, j)
  {
    if a.Send? {
      QueueGrows(h.queue, h.admission.job, j);
    }
  }

  lemma FlightOfWorker(h: Handler, a: Action, j: int)
    requires Enabled(h, a) && IsWorker(a)
    ensures InFlight(DoWorker(h, a), j) == InFlight(h, j) + Change(h, a, j)
  {
    WorkerChanges(h.workers, a.w, DoWorker(h, a).workers[a.w], j);
  }

  lemma FlightOfPipeline(h: Handler, a: Action, j: int)
    requires Enabled(h, a) && IsPipeline(a)
    ensures InFlight(DoPipeline(h, a), j) == InFlight(h, j)
  {
    WorkerChanges(h.workers, a.w, DoPipeline(h, a).workers[a.w], j);
  }

  lemma FlightOfClosing(h: Handler, a: Action, j: int)
    requires Enabled(h, a) && IsClosing(a)
    ensures InFlight(DoClosing(h, a), j) == InFlight(h, j) + Change(h, a, j)
  {
    match a
    case CallClose =>
      assert (h.closers + [Selecting])[..|h.closers|] == h.closers;
    case Deadline(c) => CloserChanges(h.closers, c, Draining, j);
    case DrainReceive(c) => CloserChanges(h.closers, c, Holding(h.queue[0]), j);
    case DrainDone(c) => CloserChanges(h.closers, c, Draining, j);
    case DrainEmpty(c) => CloserChanges(h.closers, c, Returned(true), j);
    case SeeClosed(c) => CloserChanges(h.closers, c, Returned(false), j);
    case _ =>
  }

  // ---- Accounting ----

  function Owed(h: Handler, j: nat): nat {
    if j in h.accepted || h.admission == Counted(j) then 1 else 0
  }

  function Ended(h: Handler, j: nat): nat {
    if j in h.endings then 1 else 0
  }

  // The WaitGroup counts the jobs in flight, and each job is in flight or ended, once.
  ghost predicate Accounting(h: Handler) {
    && h.wg == InFlight(h, -1)
    && (forall j: nat {:trigger InFlight(h, j)} :: InFlight(h, j) + Ended(h, j) == Owed(h, j))
    && (forall j :: j in h.accepted ==> j < h.nextJob)
    && (h.admission.Counted? ==> h.admission.job < h.nextJob && h.admission.job !in h.accepted)
    && (forall j :: j in h.endings ==> j in h.accepted)
  }

  lemma {:induction false} WorkerCounts(ws: seq<Worker>, w: nat, j: int)
    requires w < |ws|
    ensures HeldByWorkers(ws, j) >= HeldByWorker(ws[w], j)
    decreases |ws|
  {
    if w < |ws| - 1 {
      WorkerCounts(ws[..|ws| - 1], w, j);
    }
  }

  lemma TwoWorkersCount(ws: seq<Worker>, w: nat, v: nat, j: int)
    requires w < |ws| && v < |ws| && w != v
    ensures HeldByWorkers(ws, j) >= HeldByWorker(ws[w], j) + HeldByWorker(ws[v], j)
  {
    WorkerChanges(ws, w, Waiting, j);
    WorkerCounts(ws[w := Waiting], v, j);
  }

  lemma {:induction false} CloserCounts(cs: seq<Closer>, c: nat, j: int)
    requires c < |cs|
    ensures HeldByClosers(cs, j) >= HeldByCloser(cs[c], j)
    decreases |cs|
  {
    if c < |cs| - 1 {
      CloserCounts(cs[..|cs| - 1], c, j);
    }
  }

  lemma {:induction false} QueueCounts(q: seq<nat>, i: nat, j: int)
    requires i < |q|
    ensures Queued(q, j) >= Is(q[i], j)
    decreases i
  {
    if i > 0 {
      QueueCounts(q[1..], i - 1, j);
    }
  }

  lemma {:induction false} QueueTotal(q: seq<nat>)
    ensures Queued(q, -1) == |q|
  {
    if q != [] {
      QueueTotal(q[1..]);
    }
  }

  // A worker's job is nowhere else.
  lemma WorkerOwns(h: Handler, w: nat)
    requires Accounting(h) && w < |h.workers| && HeldByWorker(h.workers[w], -1) == 1
    ensures var j := h.workers[w].job;
            && j in h.accepted && j !in h.endings
            && (forall v :: 0 <= v < |h.workers| && v != w ==> HeldByWorker(h.workers[v], j) == 0)
            && (forall i :: 0 <= i < |h.queue| ==> h.queue[i] != j)
            && (forall c :: 0 <= c < |h.closers| ==> HeldByCloser(h.closers[c], j) == 0)
  {
    var j := h.workers[w].job;
    WorkerCounts(h.workers, w, j);
    assert InFlight(h, j) + Ended(h, j) == Owed(h, j);
    forall v | 0 <= v < |h.workers| && v != w
      ensures HeldByWorker(h.workers[v], j) == 0
    {
      TwoWorkersCount(h.workers, w, v, j);
    }
    forall i | 0 <= i < |h.queue|
      ensures h.queue[i] != j
    {
      QueueCounts(h.queue, i, j);
    }
    forall c | 0 <= c < |h.closers|
      ensures HeldByCloser(h.closers[c], j) == 0
    {
      CloserCounts(h.closers, c, j);
    }
  }

  lemma CloserOwns(h: Handler, c: nat)
    requires Accounting(h) && c < |h.closers| && h.closers[c].Holding?
    ensures h.closers[c].job in h.accepted && h.closers[c].job !in h.endings
  {
    var j := h.closers[c].job;
    CloserCounts(h.closers, c, j);
    assert InFlight(h, j) + Ended(h, j) == Owed(h, j);
  }

  lemma AdmissionOwns(h: Handler)
    requires Accounting(h) && h.admission.Counted?
    ensures h.admission.job !in h.endings
  {}

  lemma BalanceOfRequest(h: Handler, a: Action, j: nat)
    requires Accounting(h) && Enabled(h, a) && IsRequest(a)
    ensures InFlight(DoRequest(h, a), j) + Ended(DoRequest(h, a), j) == Owed(DoRequest(h, a), j)
  {
    FlightOfRequest(h, a, j);
    assert InFlight(h, j) + Ended(h, j) == Owed(h, j);
  }

  lemma AccountingOfRequest(h: Handler, a: Action)
    requires Accounting(h) && Enabled(h, a) && IsRequest(a)
    ensures Accounting(DoRequest(h, a))
  {
    FlightOfRequest(h, a, -1);
    forall j: nat
      ensures InFlight(DoRequest(h, a), j) + Ended(DoRequest(h, a), j) == Owed(DoRequest(h, a), j)
    {
      BalanceOfRequest(h, a, j);
    }
  }

  lemma AccountingOfPipeline(h: Handler, a: Action)
    requires Accounting(h) && Enabled(h, a) && IsPipeline(a)
    ensures Accounting(DoPipeline(h, a))
  {
    FlightOfPipeline(h, a, -1);
    forall j: nat
      ensures InFlight(DoPipeline(h, a), j) + Ended(h, j) == Owed(h, j)
    {
      FlightOfPipeline(h, a, j);
      assert InFlight(h, j) + Ended(h, j) == Owed(h, j);
    }
  }

  lemma BalanceOfWorker(h: Handler, a: Action, j: nat)
    requires Accounting(h) && Enabled(h, a) && IsWorker(a)
    ensures InFlight(DoWorker(h, a), j) + Ended(DoWorker(h, a), j) == Owed(DoWorker(h, a), j)
  {
    FlightOfWorker(h, a, j);
    if a.Release? {
      WorkerOwns(h, a.w);
    }
    assert InFlight(h, j) + Ended(h, j) == Owed(h, j);
  }

  lemma AccountingOfWorker(h: Handler, a: Action)
    requires Accounting(h) && Enabled(h, a) && IsWorker(a)
    ensures Accounting(DoWorker(h, a))
  {
    FlightOfWorker(h, a, -1);
    if a.Release? {
      WorkerOwns(h, a.w);
    }
    forall j: nat
      ensures InFlight(DoWorker(h, a), j) + Ended(DoWorker(h, a), j) == Owed(DoWorker(h, a), j)
    {
      BalanceOfWorker(h, a, j);
    }
  }

  lemma BalanceOfClosing(h: Handler, a: Action, j: nat)
    requires Accounting(h) && Enabled(h, a) && IsClosing(a)
    ensures InFlight(DoClosing(h, a), j) + Ended(DoClosing(h, a), j) == Owed(DoClosing(h, a), j)
  {
    FlightOfClosing(h, a, j);
    if a.DrainDone? {
      CloserOwns(h, a.c);
    }
    assert InFlight(h, j) + Ended(h, j) == Owed(h, j);
  }

  lemma AccountingOfClosing(h: Handler, a: Action)
    requires Accounting(h) && Enabled(h, a) && IsClosing(a)
    ensures Accounting(DoClosing(h, a))
  {
    FlightOfClosing(h, a, -1);
    if a.DrainDone? {
      CloserOwns(h, a.c);
    }
    forall j: nat
      ensures InFlight(DoClosing(h, a), j) + Ended(DoClosing(h, a), j) == Owed(DoClosing(h, a), j)
    {
      BalanceOfClosing(h, a, j);
    }
  }

  lemma AccountingStep(h: Handler, a: Action)
    requires Accounting(h) && Enabled(h, a)
    ensures Accounting(Do(h, a))
  {
    if IsPipeline(a) {
      AccountingOfPipeline(h, a);
    } else if IsWorker(a) {
      AccountingOfWorker(h, a);
    } else if IsClosing(a) {
      AccountingOfClosing(h, a);
    } else {
      AccountingOfRequest(h, a);
    }
  }

  // ---- Where the shutdown is ----

  predicate Drains(c: Closer) {
    c.Draining? || c.Holding?
  }

  predicate SomeDrainer(cs: seq<Closer>) {
    exists c :: 0 <= c < |cs| && Drains(cs[c])
  }

  predicate Phases(h: Handler) {
    && |h.workers| > 0 && h.capacity > 0
    && (h.closing.Open? ==> h.closers == [] && !h.rootCancelled)
    && (!h.closing.Open? ==> h.admission.Free?)
    && (h.rootCancelled ==> h.expired || h.closing.AwaitWorkers? || h.closing.Closed?)
    && (h.expired || h.closing.AwaitWorkers? || h.closing.Closed? ==> h.rootCancelled)
    && (h.closing.CancelRoot? || h.closing.AwaitWorkers? || h.closing.Closed? ==> h.wg == 0)
    && (forall w :: 0 <= w < |h.workers| && h.workers[w].Exited? ==> h.rootCancelled)
    && (h.closing.Closed? ==> forall w :: 0 <= w < |h.workers| ==> h.workers[w].Exited?)
    && (forall c :: 0 <= c < |h.closers| && (Drains(h.closers[c]) || h.closers[c] == Returned(true)) ==> h.expired)
    && (h.rootCancelled && h.queue != [] ==> SomeDrainer(h.closers))
    && (forall c :: 0 <= c < |h.closers| && h.closers[c] == Returned(true) ==> h.queue == [])
  }

  lemma QuietMeansEmpty(h: Handler)
    requires Accounting(h) && h.wg == 0
    ensures h.queue == [] && h.admission.Free?
    ensures forall w :: 0 <= w < |h.workers| ==> h.workers[w].Waiting? || h.workers[w].Exited?
    ensures forall c :: 0 <= c < |h.closers| ==> !h.closers[c].Holding?
  {
    QueueTotal(h.queue);
    forall w | 0 <= w < |h.workers|
      ensures h.workers[w].Waiting? || h.workers[w].Exited?
    {
      WorkerCounts(h.workers, w, -1);
    }
    forall c | 0 <= c < |h.closers|
      ensures !h.closers[c].Holding?
    {
      CloserCounts(h.closers, c, -1);
    }
  }

  lemma PhasesOfRequest(h: Handler, a: Action)
    requires Accounting(h) && Phases(h) && Enabled(h, a) && IsRequest(a)
    ensures Phases(DoRequest(h, a))
  {}

  lemma PhasesOfPipeline(h: Handler, a: Action)
    requires Accounting(h) && Phases(h) && Enabled(h, a) && IsPipeline(a)
    ensures Phases(DoPipeline(h, a))
  {
    if h.wg == 0 {
      QuietMeansEmpty(h);
    }
  }

  lemma PhasesOfWorker(h: Handler, a: Action)
    requires Accounting(h) && Phases(h) && Enabled(h, a) && IsWorker(a)
    ensures Phases(DoWorker(h, a))
  {
    if h.wg == 0 {
      QuietMeansEmpty(h);
    }
  }

  lemma PhasesOfClosing(h: Handler, a: Action)
    requires Accounting(h) && Phases(h) && Enabled(h, a) && IsClosing(a)
    ensures Phases(DoClosing(h, a))
  {
    if h.wg == 0 {
      QuietMeansEmpty(h);
    }
    var h' := DoClosing(h, a);
    match a
    case CallClose =>
      if SomeDrainer(h.closers) {
        var c :| 0 <= c < |h.closers| && Drains(h.closers[c]);
        assert Drains(h'.closers[c]);
      }
    case Deadline(c) => assert Drains(h'.closers[c]);
    case DrainReceive(c) => assert Drains(h'.closers[c]);
    case DrainDone(c) => assert Drains(h'.closers[c]);
    case SeeClosed(c) =>
    case _ =>
  }

  // ---- What was done to each job ----

  // Nothing yet.
  predicate Untouched(h: Handler, j: nat) {
    j !in h.validated && j !in h.failed && j !in h.echoed && j !in h.called
  }

  predicate Proven(h: Handler, j: nat) {
    j in h.gates && j in h.validated && (j in h.marked || j in h.echoed)
  }

  predicate WorkerCareful(h: Handler, worker: Worker) {
    match worker
    case AtGate(j) => Untouched(h, j)
    case Running(j, stage) =>
      j in h.gates && j !in h.failed && j !in h.called &&
      (match stage
       case Validating => j !in h.validated && j !in h.echoed
       case Drawing => j in h.validated && j !in h.marked
       case Asking(challenge) => j in h.validated && j !in h.marked && challenge != ""
       case Calling => Proven(h, j))
    case Leaving(j, ending) =>
      !ending.Drained? && (ending.Ran? ==> j in h.gates) && (ending.Abandoned? ==> j !in h.called && h.expired)
    case _ => true
  }

  predicate JobCareful(h: Handler, j: nat) {
    && (j in h.called ==> h.called[j] == 1 && Proven(h, j) && j !in h.failed)
    && (j in h.endings ==> (h.endings[j].Ran? ==> j in h.gates) && (!h.endings[j].Ran? ==> j !in h.called && h.expired))
  }

  // Every accepted job's response is unwritten, or written before its gate, or its gate is open.
  predicate GatesInOrder(h: Handler) {
    && h.toAnswer + h.toOpen + h.gates == h.accepted
    && h.toAnswer !! h.toOpen && h.toAnswer !! h.gates && h.toOpen !! h.gates
  }

  ghost predicate Careful(h: Handler) {
    && (forall i :: 0 <= i < |h.queue| ==> Untouched(h, h.queue[i]))
    && (h.admission.Counted? ==> Untouched(h, h.admission.job))
    && (forall c :: 0 <= c < |h.closers| && h.closers[c].Holding? ==> Untouched(h, h.closers[c].job))
    && (forall w {:trigger WorkerCareful(h, h.workers[w])} :: 0 <= w < |h.workers| ==> WorkerCareful(h, h.workers[w]))
    && (forall j: nat {:trigger JobCareful(h, j)} :: JobCareful(h, j))
    && h.validated <= h.accepted && h.failed <= h.accepted && h.echoed <= h.accepted && h.marked <= h.accepted
    && (forall j :: j in h.called ==> j in h.accepted)
    && GatesInOrder(h)
  }

  lemma CarefulOfRequest(h: Handler, a: Action)
    requires Accounting(h) && Phases(h) && Careful(h) && Enabled(h, a) && IsRequest(a)
    ensures Careful(DoRequest(h, a))
  {
    var h' := DoRequest(h, a);
    if h.admission.Counted? {
      AdmissionOwns(h);
    }
    forall w | 0 <= w < |h.workers|
      ensures WorkerCareful(h', h.workers[w])
    {
      assert WorkerCareful(h, h.workers[w]);
      if HeldByWorker(h.workers[w], -1) == 1 {
        WorkerOwns(h, w);
      }
    }
    forall j: nat
      ensures JobCareful(h', j)
    {
      assert JobCareful(h, j);
    }
  }

  lemma WorkersOfWorker(h: Handler, a: Action)
    requires Accounting(h) && Phases(h) && Careful(h) && Enabled(h, a) && IsWorker(a)
    ensures var h' := DoWorker(h, a);
            forall w {:trigger WorkerCareful(h', h'.workers[w])} ::
              0 <= w < |h.workers| ==> WorkerCareful(h', h'.workers[w])
  {
    assert WorkerCareful(h, h.workers[a.w]);
    if a.Abandon? && !h.expired {
      WorkerCounts(h.workers, a.w, -1);
    }
    forall w | 0 <= w < |h.workers| && w != a.w
      ensures WorkerCareful(DoWorker(h, a), h.workers[w])
    {
      assert WorkerCareful(h, h.workers[w]);
    }
  }

  lemma JobsOfWorker(h: Handler, a: Action)
    requires Accounting(h) && Phases(h) && Careful(h) && Enabled(h, a) && IsWorker(a)
    ensures forall j: nat {:trigger JobCareful(DoWorker(h, a), j)} :: JobCareful(DoWorker(h, a), j)
  {
    assert WorkerCareful(h, h.workers[a.w]);
    forall j: nat
      ensures JobCareful(DoWorker(h, a), j)
    {
      assert JobCareful(h, j);
    }
  }

  lemma CarefulOfWorker(h: Handler, a: Action)
    requires Accounting(h) && Phases(h) && Careful(h) && Enabled(h, a) && IsWorker(a)
    ensures Careful(DoWorker(h, a))
  {
    WorkersOfWorker(h, a);
    JobsOfWorker(h, a);
  }

  lemma WorkersOfPipeline(h: Handler, a: Action)
    requires Accounting(h) && Phases(h) && Careful(h) && Enabled(h, a) && IsPipeline(a)
    ensures var h' := DoPipeline(h, a);
            forall w {:trigger WorkerCareful(h', h'.workers[w])} ::
              0 <= w < |h.workers| ==> WorkerCareful(h', h'.workers[w])
  {
    WorkerOwns(h, a.w);
    assert WorkerCareful(h, h.workers[a.w]);
    forall w | 0 <= w < |h.workers| && w != a.w
      ensures WorkerCareful(DoPipeline(h, a), h.workers[w])
    {
      assert WorkerCareful(h, h.workers[w]);
    }
  }

  lemma JobsOfPipeline(h: Handler, a: Action)
    requires Accounting(h) && Phases(h) && Careful(h) && Enabled(h, a) && IsPipeline(a)
    ensures forall j: nat {:trigger JobCareful(DoPipeline(h, a), j)} :: JobCareful(DoPipeline(h, a), j)
  {
    WorkerOwns(h, a.w);
    assert WorkerCareful(h, h.workers[a.w]);
    forall j: nat
      ensures JobCareful(DoPipeline(h, a), j)
    {
      assert JobCareful(h, j);
    }
  }

  lemma CarefulOfPipeline(h: Handler, a: Action)
    requires Accounting(h) && Phases(h) && Careful(h) && Enabled(h, a) && IsPipeline(a)
    ensures Careful(DoPipeline(h, a))
  {
    WorkerOwns(h, a.w);
    WorkersOfPipeline(h, a);
    JobsOfPipeline(h, a);
  }

  lemma JobsOfClosing(h: Handler, a: Action)
    requires Phases(h) && Careful(h) && Enabled(h, a) && IsClosing(a)
    ensures forall j: nat {:trigger JobCareful(DoClosing(h, a), j)} :: JobCareful(DoClosing(h, a), j)
  {
    forall j: nat
      ensures JobCareful(DoClosing(h, a), j)
    {
      assert JobCareful(h, j);
    }
  }

  lemma CarefulOfClosing(h: Handler, a: Action)
    requires Accounting(h) && Phases(h) && Careful(h) && Enabled(h, a) && IsClosing(a)
    ensures Careful(DoClosing(h, a))
  {
    forall w | 0 <= w < |h.workers|
      ensures WorkerCareful(DoClosing(h, a), h.workers[w])
    {
      assert WorkerCareful(h, h.workers[w]);
    }
    JobsOfClosing(h, a);
  }

  // ---- Runs ----

  ghost predicate Inv(h: Handler) {
    Accounting(h) && Phases(h) && Careful(h)
  }

  // A new handler; normalizeConfig leaves at least one worker and one place in the queue.
  predicate Init(h: Handler) {
    && h.queue == [] && h.wg == 0 && h.admission.Free? && h.closing.Open? && !h.rootCancelled && !h.expired
    && h.closers == [] && |h.workers| > 0 && h.capacity > 0
    && (forall w :: 0 <= w < |h.workers| ==> h.workers[w].Waiting?)
    && h.accepted == h.marked == h.toAnswer == h.toOpen == h.gates == h.validated == h.failed == h.echoed == {}
    && h.endings == map[] && h.called == multiset{}
  }

  lemma {:induction false} IdleWorkersHoldNothing(ws: seq<Worker>, j: int)
    requires forall w :: 0 <= w < |ws| ==> ws[w].Waiting?
    ensures HeldByWorkers(ws, j) == 0
    decreases |ws|
  {
    if ws != [] {
      IdleWorkersHoldNothing(ws[..|ws| - 1], j);
    }
  }

  lemma InitInv(h: Handler)
    requires Init(h)
    ensures Inv(h)
  {
    IdleWorkersHoldNothing(h.workers, -1);
    forall j: nat
      ensures InFlight(h, j) == 0
    {
      IdleWorkersHoldNothing(h.workers, j);
    }
    assert forall w :: 0 <= w < |h.workers| ==> WorkerCareful(h, h.workers[w]);
    assert forall j: nat :: JobCareful(h, j);
  }

  lemma DoInv(h: Handler)
    requires Inv(h)
    ensures forall a {:trigger Enabled(h, a)} :: Enabled(h, a) ==> Inv(Do(h, a))
  {
    forall a | Enabled(h, a)
      ensures Inv(Do(h, a))
    {
      AccountingStep(h, a);
      if IsPipeline(a) {
        PhasesOfPipeline(h, a);
        CarefulOfPipeline(h, a);
      } else if IsWorker(a) {
        PhasesOfWorker(h, a);
        CarefulOfWorker(h, a);
      } else if IsClosing(a) {
        PhasesOfClosing(h, a);
        CarefulOfClosing(h, a);
      } else {
        PhasesOfRequest(h, a);
        CarefulOfRequest(h, a);
      }
    }
  }

  predicate StepAt(trace: seq<Handler>, actions: seq<Action>, n: nat)
    requires n < |actions| < |trace|
  {
    Enabled(trace[n], actions[n]) && trace[n + 1] == Do(trace[n], actions[n])
  }

  predicate IsRun(trace: seq<Handler>, actions: seq<Action>) {
    && |trace| == |actions| + 1 && Init(trace[0])
    && forall n {:trigger StepAt(trace, actions, n)} :: 0 <= n < |actions| ==> StepAt(trace, actions, n)
  }

  lemma {:induction false} RunInv(trace: seq<Handler>, actions: seq<Action>, n: nat)
    requires IsRun(trace, actions) && n < |trace|
    ensures forall i {:trigger trace[i]} :: 0 <= i <= n ==> Inv(trace[i])
    decreases n
  {
    if n == 0 {
      InitInv(trace[0]);
    } else {
      RunInv(trace, actions, n - 1);
      assert StepAt(trace, actions, n - 1);
      DoInv(trace[n - 1]);
      assert Inv(Do(trace[n - 1], actions[n - 1]));
    }
  }

  lemma ClosingStays(h: Handler, a: Action)
    requires Enabled(h, a) && !h.closing.Open?
    ensures !Do(h, a).closing.Open? && !a.BeginAdmit?
  {}

  /** The WaitGroup: in every run it counts exactly the jobs between Add and Done, and so is never
      negative; and no Add happens once waiting has begun. */
  lemma {:induction false} WaitGroupCounts(trace: seq<Handler>, actions: seq<Action>, n: nat)
    requires IsRun(trace, actions) && n < |trace|
    ensures trace[n].wg == InFlight(trace[n], -1) >= 0
    ensures n < |actions| && !trace[n].closing.Open? ==> !actions[n].BeginAdmit? && !trace[n + 1].closing.Open?
  {
    RunInv(trace, actions, n);
    if n < |actions| && !trace[n].closing.Open? {
      assert StepAt(trace, actions, n);
      ClosingStays(trace[n], actions[n]);
    }
  }

  /** Conservation: at any moment of any run an accepted job is in flight once or has ended, not
      both; once closed, every accepted job has ended. An ending is never written twice. */
  lemma {:induction false} EveryJobEndsOnce(trace: seq<Handler>, actions: seq<Action>, n: nat, j: nat)
    requires IsRun(trace, actions) && n < |trace| && j in trace[n].accepted
    ensures InFlight(trace[n], j) + Ended(trace[n], j) == 1
    ensures trace[n].closing.Closed? ==> j in trace[n].endings
    ensures j in trace[n].endings && n < |actions| ==>
              j in trace[n + 1].endings && trace[n + 1].endings[j] == trace[n].endings[j]
  {
    var h := trace[n];
    RunInv(trace, actions, n);
    assert InFlight(h, j) + Ended(h, j) == Owed(h, j);
    if h.closing.Closed? {
      AllGone(h, j);
    }
    if n < |actions| && j in h.endings {
      assert StepAt(trace, actions, n);
      EndingStays(h, actions[n], j);
    }
  }

  lemma EndingStays(h: Handler, a: Action, j: nat)
    requires Accounting(h) && Enabled(h, a) && j in h.endings
    ensures j in Do(h, a).endings && Do(h, a).endings[j] == h.endings[j]
  {
    if a.Release? {
      WorkerOwns(h, a.w);
      assert Do(h, a) == DoWorker(h, a);
    } else if a.DrainDone? {
      CloserOwns(h, a.c);
      assert Do(h, a) == DoClosing(h, a);
    }
  }

  lemma {:induction false} NoWorkerHolds(ws: seq<Worker>, j: int)
    requires HeldByWorkers(ws, -1) == 0
    ensures HeldByWorkers(ws, j) == 0
    decreases |ws|
  {
    if ws != [] {
      NoWorkerHolds(ws[..|ws| - 1], j);
    }
  }

  lemma {:induction false} NoCloserHolds(cs: seq<Closer>, j: int)
    requires HeldByClosers(cs, -1) == 0
    ensures HeldByClosers(cs, j) == 0
    decreases |cs|
  {
    if cs != [] {
      NoCloserHolds(cs[..|cs| - 1], j);
    }
  }

  lemma AllGone(h: Handler, j: nat)
    requires Inv(h) && h.wg == 0
    ensures InFlight(h, j) == 0
  {
    QuietMeansEmpty(h);
    NoWorkerHolds(h.workers, j);
    NoCloserHolds(h.closers, j);
  }

  /** closeDone: the queue is empty, every worker has exited and every accepted job has ended. */
  lemma ClosedMeansDone(trace: seq<Handler>, actions: seq<Action>, n: nat)
    requires IsRun(trace, actions) && n < |trace| && trace[n].closing.Closed?
    ensures trace[n].queue == [] && trace[n].wg == 0
    ensures forall w :: 0 <= w < |trace[n].workers| ==> trace[n].workers[w].Exited?
    ensures trace[n].endings.Keys == trace[n].accepted
  {
    var h := trace[n];
    RunInv(trace, actions, n);
    QuietMeansEmpty(h);
    forall j | j in h.accepted
      ensures j in h.endings
    {
      AllGone(h, j);
      assert InFlight(h, j) + Ended(h, j) == Owed(h, j);
    }
  }

  /** As long as no Close deadline has expired, every job that ended was run, and no worker is
      giving one up. */
  lemma GracefulCloseRunsEverything(trace: seq<Handler>, actions: seq<Action>, n: nat)
    requires IsRun(trace, actions) && n < |trace| && !trace[n].expired
    ensures forall j :: j in trace[n].endings ==> trace[n].endings[j] == Ran
    ensures forall w :: 0 <= w < |trace[n].workers| && trace[n].workers[w].Leaving? ==>
              trace[n].workers[w].ending == Ran
  {
    var h := trace[n];
    RunInv(trace, actions, n);
    forall j | j in h.endings
      ensures h.endings[j] == Ran
    {
      assert JobCareful(h, j);
    }
    forall w | 0 <= w < |h.workers| && h.workers[w].Leaving?
      ensures h.workers[w].ending == Ran
    {
      assert WorkerCareful(h, h.workers[w]);
    }
  }

  lemma CloserStaysDrained(h: Handler, a: Action, c: nat)
    requires Enabled(h, a) && c < |h.closers| && h.closers[c] == Returned(true)
    ensures c < |Do(h, a).closers| && Do(h, a).closers[c] == Returned(true)
  {
    if IsClosing(a) {
      assert Do(h, a) == DoClosing(h, a);
    } else {
      assert Do(h, a).closers == h.closers;
    }
  }

  /** After one deadline drain has returned, the queue stays empty for good. */
  lemma {:induction false} DrainedForGood(trace: seq<Handler>, actions: seq<Action>, m: nat, n: nat, c: nat)
    requires IsRun(trace, actions) && m <= n < |trace|
    requires c < |trace[m].closers| && trace[m].closers[c] == Returned(true)
    ensures c < |trace[n].closers| && trace[n].closers[c] == Returned(true)
    ensures trace[n].queue == []
    decreases n
  {
    if n > m {
      DrainedForGood(trace, actions, m, n - 1, c);
      assert StepAt(trace, actions, n - 1);
      CloserStaysDrained(trace[n - 1], actions[n - 1], c);
    }
    RunInv(trace, actions, n);
  }

  /** Verified callbacks, in every run: when one is called, the job's 202 was written and its gate
      opened before, its validation passed, intent was proven, and it was never called before. */
  lemma CallIsJustified(trace: seq<Handler>, actions: seq<Action>, n: nat)
    requires IsRun(trace, actions) && n < |actions| && actions[n].Call?
    ensures actions[n].w < |trace[n].workers| && trace[n].workers[actions[n].w].Running?
    ensures var h, j := trace[n], trace[n].workers[actions[n].w].job;
            && j in h.accepted && j !in h.called && j !in h.failed
            && j in h.gates && j !in h.toAnswer && j in h.validated
            && (j in h.marked || j in h.echoed)
  {
    RunInv(trace, actions, n);
    assert StepAt(trace, actions, n);
    assert WorkerCareful(trace[n], trace[n].workers[actions[n].w]);
  }

  lemma EchoArises(h: Handler, a: Action)
    requires Careful(h) && Enabled(h, a) && a.Hear?
    ensures Echoes(h, a) <==>
            Verification.Echoed(a.response, h.workers[a.w].stage.challenge) &&
            |h.workers[a.w].stage.challenge| <= a.limit
  {
    assert WorkerCareful(h, h.workers[a.w]);
    Verification.ChallengeMustBeEchoed(a.response, a.limit, h.workers[a.w].stage.challenge);
  }

  // What the words of CallIsJustified rest on: each set grows in one way.
  lemma HowFactsArise(h: Handler, a: Action, j: nat)
    requires Careful(h) && Enabled(h, a)
    ensures j in Do(h, a).gates && j !in h.gates ==> a == OpenGate(j) && j in h.toOpen
    ensures j in Do(h, a).toOpen && j !in h.toOpen ==> a == Respond(j)
    ensures j in Do(h, a).validated && j !in h.validated ==>
              a.Validate? && a.passed && h.workers[a.w].job == j
    ensures j in Do(h, a).marked && j !in h.marked ==> a == Send(true) && h.admission == Counted(j)
    ensures j in Do(h, a).echoed && j !in h.echoed ==>
              a.Hear? && h.workers[a.w].job == j &&
              Verification.Echoed(a.response, h.workers[a.w].stage.challenge)
  {
    if a.Hear? && Echoes(h, a) {
      EchoArises(h, a);
    }
  }

  predicate Runs(h: Handler, w: nat, j: nat) {
    w < |h.workers| && h.workers[w].Running? && h.workers[w].job == j
  }

  // The same, at one position of a run.
  predicate FactsHold(trace: seq<Handler>, actions: seq<Action>, n: nat, j: nat)
    requires n < |actions| < |trace|
  {
    && (j in trace[n + 1].gates && j !in trace[n].gates ==> actions[n] == OpenGate(j) && j in trace[n].toOpen)
    && (j in trace[n + 1].toOpen && j !in trace[n].toOpen ==> actions[n] == Respond(j))
    && (j in trace[n + 1].validated && j !in trace[n].validated ==>
          Passes(actions[n]) && Runs(trace[n], actions[n].w, j))
    && (j in trace[n + 1].marked && j !in trace[n].marked ==>
          actions[n] == Send(true) && trace[n].admission == Counted(j))
    && (j in trace[n + 1].echoed && j !in trace[n].echoed ==>
          actions[n].Hear? && Runs(trace[n], actions[n].w, j) && trace[n].workers[actions[n].w].stage.Asking? &&
          Verification.Echoed(actions[n].response, trace[n].workers[actions[n].w].stage.challenge))
  }

  lemma FactsAt(trace: seq<Handler>, actions: seq<Action>, n: nat)
    requires IsRun(trace, actions) && n < |actions|
    ensures forall j: nat {:trigger FactsHold(trace, actions, n, j)} :: FactsHold(trace, actions, n, j)
  {
    RunInv(trace, actions, n);
    assert StepAt(trace, actions, n);
    forall j: nat
      ensures FactsHold(trace, actions, n, j)
    {
      HowFactsArise(trace[n], actions[n], j);
    }
  }

  // A fact that holds at n and not at first came about at one position in between.
  lemma {:induction false} CameAbout(fact: seq<bool>, n: nat) returns (m: nat)
    requires n < |fact| && !fact[0] && fact[n]
    ensures m < n && !fact[m] && fact[m + 1]
    decreases n
  {
    if fact[n - 1] {
      m := CameAbout(fact, n - 1);
    } else {
      m := n - 1;
    }
  }

  lemma AskingArises(h: Handler, a: Action, w: nat, j: nat, challenge: string)
    requires Enabled(h, a) && w < |Do(h, a).workers| && Do(h, a).workers[w] == Running(j, Asking(challenge))
    ensures w < |h.workers|
    ensures h.workers[w] == Running(j, Asking(challenge)) ||
            (a == Draw(w, Some(challenge)) && h.workers[w] == Running(j, Drawing))
  {
    if IsWorker(a) {
      assert Do(h, a) == DoWorker(h, a);
    } else if !IsPipeline(a) {
      assert Do(h, a).workers == h.workers;
    }
  }

  predicate DrawsFor(trace: seq<Handler>, actions: seq<Action>, m: nat, w: nat, j: nat, challenge: string)
    requires |actions| <= |trace|
  {
    && m < |actions| && actions[m] == Draw(w, Some(challenge)) && Runs(trace[m], w, j)
    && trace[m].workers[w].stage.Drawing?
  }

  // The challenge a worker waits for is the one it drew for its job.
  lemma {:induction false} Drawn(trace: seq<Handler>, actions: seq<Action>, n: nat, w: nat, j: nat, challenge: string)
    requires IsRun(trace, actions) && n < |trace|
    requires w < |trace[n].workers| && trace[n].workers[w] == Running(j, Asking(challenge))
    ensures exists m {:trigger DrawsFor(trace, actions, m, w, j, challenge)} ::
              0 <= m < n && DrawsFor(trace, actions, m, w, j, challenge)
    decreases n
  {
    assert n > 0 && StepAt(trace, actions, n - 1);
    AskingArises(trace[n - 1], actions[n - 1], w, j, challenge);
    if trace[n - 1].workers[w] == Running(j, Asking(challenge)) {
      Drawn(trace, actions, n - 1, w, j, challenge);
    } else {
      assert DrawsFor(trace, actions, n - 1, w, j, challenge);
    }
  }

  // At m a subscriber answered what was drawn for job j at d: a 2xx, and the challenge as the body.
  predicate ProvesIntent(trace: seq<Handler>, actions: seq<Action>, d: nat, m: nat, j: nat)
    requires d < m < |actions| <= |trace|
  {
    && actions[d].Draw? && actions[d].challenge.Some? && Runs(trace[d], actions[d].w, j)
    && actions[m].Hear? && actions[m].w == actions[d].w && Runs(trace[m], actions[m].w, j)
    && Verification.Echoed(actions[m].response, actions[d].challenge.value)
  }

  lemma RunningNeedsGate(trace: seq<Handler>, actions: seq<Action>, n: nat, w: nat, j: nat)
    requires IsRun(trace, actions) && n < |trace| && Runs(trace[n], w, j)
    ensures j in trace[n].gates
    ensures trace[n].workers[w].stage.Drawing? ==> j in trace[n].validated
  {
    RunInv(trace, actions, n);
    assert WorkerCareful(trace[n], trace[n].workers[w]);
  }

  /** The order of events, for every verified callback of every run: before it its job's validation
      passed, before that its gate was opened, and before that its 202 was written. And either the
      application vouched for it when it was admitted; or, after the validation, the worker drew a
      challenge for this job, and the subscriber answered with that challenge. */
  lemma CallComesLast(trace: seq<Handler>, actions: seq<Action>, n: nat, j: nat)
    returns (answer: nat, gate: nat, validation: nat)
    requires IsRun(trace, actions) && n < |actions| && actions[n].Call? && Runs(trace[n], actions[n].w, j)
    ensures answer < gate < validation < n
    ensures actions[answer] == Respond(j) && actions[gate] == OpenGate(j)
    ensures Passes(actions[validation]) && Runs(trace[validation], actions[validation].w, j)
    ensures (exists m :: 0 <= m < n && actions[m] == Send(true) && trace[m].admission == Counted(j)) ||
            (exists d, m {:trigger actions[d], actions[m]} ::
               validation < d < m < n && ProvesIntent(trace, actions, d, m, j))
  {
    var all := |trace|;
    CallIsJustified(trace, actions, n);
    var last := n;
    if j in trace[n].marked {
      var m := CameAbout(seq(all, i requires 0 <= i < all => j in trace[i].marked), n);
      FactsAt(trace, actions, m);
      assert FactsHold(trace, actions, m, j);
    } else {
      var m := CameAbout(seq(all, i requires 0 <= i < all => j in trace[i].echoed), n);
      FactsAt(trace, actions, m);
      assert FactsHold(trace, actions, m, j);
      var challenge := trace[m].workers[actions[m].w].stage.challenge;
      Drawn(trace, actions, m, actions[m].w, j, challenge);
      last :| 0 <= last < m && DrawsFor(trace, actions, last, actions[m].w, j, challenge);
      RunningNeedsGate(trace, actions, last, actions[last].w, j);
      assert ProvesIntent(trace, actions, last, m, j);
    }
    validation := CameAbout(seq(all, i requires 0 <= i < all => j in trace[i].validated), last);
    FactsAt(trace, actions, validation);
    assert FactsHold(trace, actions, validation, j);
    RunningNeedsGate(trace, actions, validation, actions[validation].w, j);
    gate := CameAbout(seq(all, i requires 0 <= i < all => j in trace[i].gates), validation);
    FactsAt(trace, actions, gate);
    assert FactsHold(trace, actions, gate, j);
    answer := CameAbout(seq(all, i requires 0 <= i < all => j in trace[i].toOpen || j in trace[i].gates), gate);
    FactsAt(trace, actions, answer);
    assert FactsHold(trace, actions, answer, j);
  }

  /** At most one verified callback per job in any run; none for a job whose validation failed, nor
      for one that was abandoned or drained. */
  lemma CalledAtMostOnce(trace: seq<Handler>, actions: seq<Action>, n: nat, j: nat)
    requires IsRun(trace, actions) && n < |trace|
    ensures trace[n].called[j] <= 1
    ensures j in trace[n].failed ==> trace[n].called[j] == 0
    ensures j in trace[n].endings && trace[n].endings[j] != Ran ==> trace[n].called[j] == 0
  {
    RunInv(trace, actions, n);
    assert JobCareful(trace[n], j);
  }

  // ---- Progress of a shutdown ----

  function WorkerRank(w: Worker): nat {
    match w
    case AtGate(_) => 7
    case Running(_, Validating) => 6
    case Running(_, Drawing) => 5
    case Running(_, Asking(_)) => 4
    case Running(_, Calling) => 3
    case Leaving(_, _) => 2
    case Waiting => 1
    case Exited => 0
  }

  function CloserRank(c: Closer): nat {
    match c
    case Selecting => 3
    case Holding(_) => 2
    case Draining => 1
    case Returned(_) => 0
  }

  function ClosingRank(c: Closing): nat {
    match c
    case Open => 4
    case AwaitJobs => 3
    case CancelRoot => 2
    case AwaitWorkers => 1
    case Closed => 0
  }

  function WorkersRank(ws: seq<Worker>): nat {
    if ws == [] then 0 else WorkersRank(ws[..|ws| - 1]) + WorkerRank(ws[|ws| - 1])
  }

  function ClosersRank(cs: seq<Closer>): nat {
    if cs == [] then 0 else ClosersRank(cs[..|cs| - 1]) + CloserRank(cs[|cs| - 1])
  }

  // What is left to do.
  function Measure(h: Handler): nat {
    7 * |h.queue| + WorkersRank(h.workers) + ClosersRank(h.closers) + (if h.admission.Counted? then 10 else 0) +
    2 * |h.toAnswer| + |h.toOpen| + ClosingRank(h.closing)
  }

  lemma {:induction false} WorkersRankChanges(ws: seq<Worker>, w: nat, worker: Worker)
    requires w < |ws|
    ensures WorkersRank(ws[w := worker]) == WorkersRank(ws) - WorkerRank(ws[w]) + WorkerRank(worker)
    decreases |ws|
  {
    var n := |ws| - 1;
    var changed := ws[w := worker];
    if w < n {
      WorkersRankChanges(ws[..n], w, worker);
      assert changed[..n] == ws[..n][w := worker];
    } else {
      assert changed[..n] == ws[..n];
    }
  }

  lemma {:induction false} ClosersRankChanges(cs: seq<Closer>, c: nat, closer: Closer)
    requires c < |cs|
    ensures ClosersRank(cs[c := closer]) == ClosersRank(cs) - CloserRank(cs[c]) + CloserRank(closer)
    decreases |cs|
  {
    var n := |cs| - 1;
    var changed := cs[c := closer];
    if c < n {
      ClosersRankChanges(cs[..n], c, closer);
      assert changed[..n] == cs[..n][c := closer];
    } else {
      assert changed[..n] == cs[..n];
    }
  }

  lemma MeasureOfRequest(h: Handler, a: Action)
    requires Enabled(h, a) && IsRequest(a) && !a.BeginAdmit?
    ensures Measure(DoRequest(h, a)) < Measure(h)
  {
    var h' := DoRequest(h, a);
    if a.Send? {
      assert |h'.queue| == |h.queue| + 1 && |h'.toAnswer| <= |h.toAnswer| + 1;
    } else if a.Respond? {
      assert |h'.toAnswer| == |h.toAnswer| - 1 && |h'.toOpen| <= |h.toOpen| + 1;
    } else if a.OpenGate? {
      assert |h'.toOpen| == |h.toOpen| - 1;
    }
  }

  lemma MeasureOfWorker(h: Handler, a: Action)
    requires Enabled(h, a) && IsWorker(a)
    ensures Measure(DoWorker(h, a)) < Measure(h)
  {
    WorkersRankChanges(h.workers, a.w, DoWorker(h, a).workers[a.w]);
  }

  lemma MeasureOfPipeline(h: Handler, a: Action)
    requires Enabled(h, a) && IsPipeline(a)
    ensures Measure(DoPipeline(h, a)) < Measure(h)
  {
    WorkersRankChanges(h.workers, a.w, NextStage(h, a));
  }

  lemma MeasureOfClosing(h: Handler, a: Action)
    requires Enabled(h, a) && IsClosing(a) && !a.CallClose?
    ensures Measure(DoClosing(h, a)) < Measure(h)
  {
    if !a.JobsGone? && !a.CancelAll? && !a.WorkersGone? {
      ClosersRankChanges(h.closers, a.c, DoClosing(h, a).closers[a.c]);
    }
  }

  /** Every step but a new request and a new call of Close brings the handler nearer to rest. */
  lemma MeasureDecreases(h: Handler, a: Action)
    requires Enabled(h, a) && !a.BeginAdmit? && !a.CallClose?
    ensures Measure(Do(h, a)) < Measure(h)
  {
    if IsPipeline(a) {
      MeasureOfPipeline(h, a);
    } else if IsWorker(a) {
      MeasureOfWorker(h, a);
    } else if IsClosing(a) {
      MeasureOfClosing(h, a);
    } else {
      MeasureOfRequest(h, a);
    }
  }

  // Steps the handler takes by itself, once gates open and callbacks return.
  predicate Internal(a: Action) {
    !a.BeginAdmit? && !a.CallClose? && !a.Deadline?
  }

  ghost predicate CanMove(h: Handler) {
    exists a {:trigger Enabled(h, a)} :: Internal(a) && Enabled(h, a)
  }

  lemma Moves(h: Handler, a: Action)
    requires Internal(a) && Enabled(h, a)
    ensures CanMove(h)
  {}

  predicate AllReturned(h: Handler) {
    forall c :: 0 <= c < |h.closers| ==> h.closers[c].Returned?
  }

  // A call of Close is never in anything's way.
  lemma CloserSteps(h: Handler, c: nat)
    requires h.closing.Closed? && c < |h.closers| && !h.closers[c].Returned?
    ensures CanMove(h)
  {
    match h.closers[c]
    case Selecting => Moves(h, SeeClosed(c));
    case Holding(_) => Moves(h, DrainDone(c));
    case Draining => Moves(h, if h.queue == [] then DrainEmpty(c) else DrainReceive(c));
  }

  /** Until closeDone, and until every call of Close has returned, a closed handler can always take a
      step of its own. */
  lemma AlwaysAStep(h: Handler)
    requires Inv(h) && !h.closing.Open?
    ensures (h.closing.Closed? && AllReturned(h)) || CanMove(h)
  {
    if h.closing.Closed? {
      if c :| 0 <= c < |h.closers| && !h.closers[c].Returned? {
        CloserSteps(h, c);
      }
    } else if w :| 0 <= w < |h.workers| && HeldByWorker(h.workers[w], -1) == 1 {
      BusyWorkerSteps(h, w);
    } else if c :| 0 <= c < |h.closers| && h.closers[c].Holding? {
      Moves(h, DrainDone(c));
    } else if h.queue != [] {
      if w :| 0 <= w < |h.workers| && h.workers[w].Waiting? {
        Moves(h, Receive(w));
      } else {
        assert h.workers[0].Exited?;
        var c :| 0 <= c < |h.closers| && Drains(h.closers[c]);
        Moves(h, DrainReceive(c));
      }
    } else {
      NothingHeld(h);
      if h.closing.AwaitJobs? {
        Moves(h, JobsGone);
      } else if h.closing.CancelRoot? {
        Moves(h, CancelAll);
      } else if w :| 0 <= w < |h.workers| && h.workers[w].Waiting? {
        Moves(h, Exit(w));
      } else {
        Moves(h, WorkersGone);
      }
    }
  }

  lemma BusyWorkerSteps(h: Handler, w: nat)
    requires Inv(h) && w < |h.workers| && HeldByWorker(h.workers[w], -1) == 1
    ensures CanMove(h)
  {
    match h.workers[w]
    case AtGate(j) =>
      WorkerOwns(h, w);
      if j in h.gates {
        Moves(h, Enter(w));
      } else if j in h.toOpen {
        Moves(h, OpenGate(j));
      } else {
        assert j in h.toAnswer;
        Moves(h, Respond(j));
      }
    case Running(_, Validating) => Moves(h, Validate(w, true));
    case Running(_, Drawing) => Moves(h, Draw(w, None));
    case Running(_, Asking(_)) => Moves(h, Hear(w, Verification.NoAnswer, 0));
    case Running(_, Calling) => Moves(h, Call(w));
    case Leaving(_, _) => Moves(h, Release(w));
  }

  lemma {:induction false} IdleHandsHoldNothing(ws: seq<Worker>)
    requires forall w :: 0 <= w < |ws| ==> HeldByWorker(ws[w], -1) == 0
    ensures HeldByWorkers(ws, -1) == 0
    decreases |ws|
  {
    if ws != [] {
      IdleHandsHoldNothing(ws[..|ws| - 1]);
    }
  }

  lemma {:induction false} IdleClosersHoldNothing(cs: seq<Closer>)
    requires forall c :: 0 <= c < |cs| ==> !cs[c].Holding?
    ensures HeldByClosers(cs, -1) == 0
    decreases |cs|
  {
    if cs != [] {
      IdleClosersHoldNothing(cs[..|cs| - 1]);
    }
  }

  lemma NothingHeld(h: Handler)
    requires Inv(h) && !h.closing.Open? && h.queue == []
    requires forall w :: 0 <= w < |h.workers| ==> HeldByWorker(h.workers[w], -1) == 0
    requires forall c :: 0 <= c < |h.closers| ==> !h.closers[c].Holding?
    ensures h.wg == 0
  {
    IdleHandsHoldNothing(h.workers);
    IdleClosersHoldNothing(h.closers);
  }

  // A run from h to last without a call of Close.
  ghost predicate Settles(h: Handler, actions: seq<Action>, last: Handler)
    decreases |actions|
  {
    if actions == [] then h == last
    else !actions[0].CallClose? && Enabled(h, actions[0]) && Settles(Do(h, actions[0]), actions[1..], last)
  }

  /** Shutdown ends: once closed, and with no further calls of Close, a run has no more steps than the
      measure it starts with. */
  lemma {:induction false} ShutdownIsBounded(h: Handler, actions: seq<Action>, last: Handler)
    requires !h.closing.Open? && Settles(h, actions, last)
    ensures |actions| <= Measure(h)
    decreases |actions|
  {
    if actions != [] {
      ClosingStays(h, actions[0]);
      MeasureDecreases(h, actions[0]);
      ShutdownIsBounded(Do(h, actions[0]), actions[1..], last);
    }
  }

  /** And it ends well: where no step of its own is left, the handler is Closed, and every call of Close
      has returned. */
  lemma {:induction false} ShutdownCompletes(h: Handler, actions: seq<Action>, last: Handler)
    requires Inv(h) && !h.closing.Open? && Settles(h, actions, last)
    ensures (last.closing.Closed? && AllReturned(last)) || CanMove(last)
    decreases |actions|
  {
    if actions == [] {
      AlwaysAStep(h);
    } else {
      DoInv(h);
      ClosingStays(h, actions[0]);
      ShutdownCompletes(Do(h, actions[0]), actions[1..], last);
    }
  }
}
