/** Delivering content to one subscriber: the retries of one message, the messages of one batch, and
    the worker's loop over batches, which commits a batch only after all of it was delivered. */
module ContentDelivery {
  import opened Wrappers

  const MAX_BATCH := 5

  // The subscriber's answer to one delivery attempt: 2xx, 410, or anything else.
  datatype Answer = Accepted | Gone | Refused

  datatype Delivery = Delivered | SubscriptionGone | NotPersisted | Cancelled | Exhausted

  // What one message will meet: an answer for every attempt, whether the wait after attempt i ends
  // by itself, and whether the unsubscription that answers a 410 can be published.
  datatype Script = Script(answers: seq<Answer>, waits: seq<bool>, persisted: bool)

  // There is at least one attempt.
  predicate Covers(s: Script, attempts: nat) {
    attempts >= 1 && |s.answers| == attempts && |s.waits| == attempts
  }

  const DEFAULT_ATTEMPTS := 3

  // Options normalised by New.
  function Attempts(configured: int): nat {
    if configured <= 0 then DEFAULT_ATTEMPTS else configured
  }

  lemma AttemptsCover(configured: int, s: Script)
    requires |s.answers| == |s.waits| == Attempts(configured)
    ensures Covers(s, Attempts(configured))
  {}

  predicate AllCover(scripts: seq<Script>, attempts: nat) {
    forall i :: 0 <= i < |scripts| ==> Covers(scripts[i], attempts)
  }

  // The first n attempts were refused, and waited out.
  predicate StillTrying(s: Script, n: nat)
    requires n <= |s.answers| && n <= |s.waits|
  {
    forall i {:trigger s.answers[i]} {:trigger s.waits[i]} :: 0 <= i < n ==> s.answers[i].Refused? && s.waits[i]
  }

  // Attempt n + 1 is accepted, and gets made.
  predicate DeliversAfter(s: Script, n: nat) {
    n < |s.answers| && n <= |s.waits| && s.answers[n].Accepted? && StillTrying(s, n)
  }

  predicate Delivers(s: Script) {
    exists n :: 0 <= n < |s.answers| && DeliversAfter(s, n)
  }

  /** deliverContent. */
  method DeliverContent(attempts: nat, s: Script) returns (r: Delivery, tries: nat)
    requires Covers(s, attempts)
    ensures 1 <= tries <= attempts && StillTrying(s, tries - 1)
    ensures r.Delivered? <==> s.answers[tries - 1].Accepted?
    ensures r.SubscriptionGone? <==> s.answers[tries - 1].Gone? && s.persisted
    ensures r.NotPersisted? <==> s.answers[tries - 1].Gone? && !s.persisted
    ensures r.Exhausted? ==> tries == attempts && s.answers[tries - 1].Refused?
    ensures r.Cancelled? ==> tries < attempts && s.answers[tries - 1].Refused? && !s.waits[tries - 1]
    ensures r.Delivered? <==> Delivers(s)
  {
    var attempt := 1;
    while attempt <= attempts
      invariant 1 <= attempt <= attempts + 1
      invariant StillTrying(s, if attempt <= attempts then attempt - 1 else attempts - 1)
      invariant attempt > attempts ==> s.answers[attempts - 1].Refused?
    {
      match s.answers[attempt - 1] {
        case Accepted =>
          assert DeliversAfter(s, attempt - 1);
          return Delivered, attempt;
        case Gone =>
          return if s.persisted then SubscriptionGone else NotPersisted, attempt;
        case Refused =>
          if attempt < attempts && !s.waits[attempt - 1] {
            return Cancelled, attempt;
          }
      }
      attempt := attempt + 1;
    }
    return Exhausted, attempts;
  }

  predicate AllDeliver(batch: seq<Script>) {
    forall i :: 0 <= i < |batch| ==> Delivers(batch[i])
  }

  /** deliverBatch: in order, as far as the first message that is not delivered. */
  method DeliverBatch(client: bool, attempts: nat, batch: seq<Script>) returns (ok: bool, delivered: nat)
    requires AllCover(batch, attempts)
    ensures delivered <= |batch| && AllDeliver(batch[..delivered])
    ensures ok ==> delivered == |batch|
    ensures !ok && client ==> delivered < |batch| && !Delivers(batch[delivered])
    ensures !client ==> !ok && delivered == 0
  {
    delivered := 0;
    if !client {
      return false, 0;
    }
    while delivered < |batch|
      invariant delivered <= |batch| && AllDeliver(batch[..delivered])
    {
      var r, _ := DeliverContent(attempts, batch[delivered]);
      if !r.Delivered? {
        return false, delivered;
      }
      delivered := delivered + 1;
    }
    return true, delivered;
  }

  // The outcome of a commit request; a lost one was applied, but reported as failed.
  datatype Commit = Committed | Lost | Failed

  datatype Poll = Failure | Batch(messages: seq<string>, scripts: seq<Script>, client: bool, commit: Commit)

  datatype Outcome = PollFailed | DeliveryFailed | CommitFailed | Waiting

  // What the first n polls offered.
  function Offered(polls: seq<Poll>, n: nat): seq<string>
    requires n <= |polls|
  {
    if n == 0 then []
    else Offered(polls, n - 1) + if polls[n - 1].Batch? then polls[n - 1].messages else []
  }

  predicate IsSlice(content: seq<string>, at: nat, messages: seq<string>) {
    at + |messages| <= |content| && messages == content[at..at + |messages|]
  }

  predicate BatchOk(content: seq<string>, at: nat, p: Poll, attempts: nat) {
    p.Batch? ==>
      IsSlice(content, at, p.messages) && |p.messages| == |p.scripts| <= MAX_BATCH && AllCover(p.scripts, attempts)
  }

  // The partition's content from `start` on, cut into batches of at most five.
  predicate Polled(content: seq<string>, start: nat, polls: seq<Poll>, attempts: nat) {
    && start <= |content|
    && forall i: nat {:trigger Offered(polls, i)} ::
         i < |polls| ==> BatchOk(content, start + |Offered(polls, i)|, polls[i], attempts)
  }

  // Any way of cutting the content into batches of at most five, with failures anywhere, is one.
  lemma PollsExtend(content: seq<string>, start: nat, polls: seq<Poll>, p: Poll, attempts: nat)
    ensures start <= |content| ==> Polled(content, start, [], attempts)
    ensures Polled(content, start, polls, attempts) &&
            BatchOk(content, start + |Offered(polls, |polls|)|, p, attempts) ==>
              Polled(content, start, polls + [p], attempts)
    ensures BatchOk(content, start, Poll.Failure, attempts)
  {
    forall i: nat | i <= |polls|
      ensures Offered(polls + [p], i) == Offered(polls, i)
    {
      OfferedPrefix(polls, p, i);
    }
  }

  lemma {:induction false} OfferedPrefix(polls: seq<Poll>, p: Poll, i: nat)
    requires i <= |polls|
    ensures Offered(polls + [p], i) == Offered(polls, i)
  {
    if i > 0 {
      OfferedPrefix(polls, p, i - 1);
    }
  }

  lemma FiveIsABatch(content: seq<string>, at: nat, scripts: seq<Script>, client: bool, commit: Commit, attempts: nat)
    requires |scripts| <= 5 && at + |scripts| <= |content| && AllCover(scripts, attempts)
    ensures BatchOk(content, at, Batch(content[at..at + |scripts|], scripts, client, commit), attempts)
  {}

  // A poll that ends the loop: it fails, or brings a batch with no client, with a message that the
  // subscriber does not accept, or with no clean commit.
  predicate Ends(p: Poll) {
    p.Batch? ==> p.messages != [] && (!p.client || !p.commit.Committed? || !AllDeliver(p.scripts))
  }

  predicate NoneEnds(polls: seq<Poll>, n: nat)
    requires n <= |polls|
  {
    forall i {:trigger Ends(polls[i])} :: 0 <= i < n ==> !Ends(polls[i])
  }

  // The group's commit after n polls none of which ended the loop.
  function CommittedAfter(before: Option<nat>, start: nat, polls: seq<Poll>, n: nat): Option<nat>
    requires n <= |polls|
  {
    if Offered(polls, n) == [] then before else Some(start + |Offered(polls, n)|)
  }

  // How the loop ends on poll p, whose batch begins at `at`: `count` of its messages were accepted,
  // and the commit went from `before` to `after`.
  predicate EndsWith(p: Poll, at: nat, count: nat, before: Option<nat>, after: Option<nat>, r: Outcome) {
    match p
    case Failure => r == PollFailed && count == 0 && after == before
    case Batch(_, scripts, client, commit) =>
      count <= |scripts| && AllDeliver(scripts[..count]) &&
      if !client then r == DeliveryFailed && count == 0 && after == before
      else if count < |scripts| then r == DeliveryFailed && !Delivers(scripts[count]) && after == before
      else r == CommitFailed && !commit.Committed? && after == if commit.Lost? then Some(at + count) else before
  }

  // The loop has come through the first n polls: all they offered was accepted and committed.
  predicate Through(polls: seq<Poll>, n: nat, start: nat, before: Option<nat>, delivered: seq<string>,
                    after: Option<nat>)
  {
    && n <= |polls| && NoneEnds(polls, n) && delivered == Offered(polls, n)
    && after == CommittedAfter(before, start, polls, n)
  }

  function Head(p: Poll, count: nat): seq<string>
    requires p.Batch? ==> count <= |p.messages|
  {
    if p.Batch? then p.messages[..count] else []
  }

  // The loop has come through n polls and ended on the next, `count` of whose messages were accepted.
  predicate StoppedAt(polls: seq<Poll>, n: nat, count: nat, start: nat, before: Option<nat>, delivered: seq<string>,
                      after: Option<nat>, r: Outcome)
  {
    && n < |polls| && Ends(polls[n]) && (polls[n].Batch? ==> count <= |polls[n].messages|)
    && delivered == Offered(polls, n) + Head(polls[n], count)
    && Through(polls, n, start, before, Offered(polls, n), CommittedAfter(before, start, polls, n))
    && EndsWith(polls[n], start + |Offered(polls, n)|, count, CommittedAfter(before, start, polls, n), after, r)
  }

  // So of `delivered`, all before the last poll and the first messages of its batch were accepted.
  ghost predicate Stopped(polls: seq<Poll>, start: nat, before: Option<nat>, delivered: seq<string>,
                          after: Option<nat>, r: Outcome)
  {
    exists n: nat, count: nat :: StoppedAt(polls, n, count, start, before, delivered, after, r)
  }

  lemma ThroughNext(polls: seq<Poll>, n: nat, start: nat, before: Option<nat>, delivered: seq<string>,
                    after: Option<nat>)
    requires Through(polls, n, start, before, delivered, after) && n < |polls| && !Ends(polls[n])
    requires |polls[n].messages| == |polls[n].scripts|
    ensures var messages := polls[n].messages;
            Through(polls, n + 1, start, before, delivered + messages,
                    if messages == [] then after else Some(start + |delivered| + |messages|))
  {}

  // ---- What that means for the content ----

  lemma SliceNext(content: seq<string>, start: nat, delivered: seq<string>, messages: seq<string>, count: nat)
    requires IsSlice(content, start, delivered) && IsSlice(content, start + |delivered|, messages)
    requires count <= |messages|
    ensures IsSlice(content, start, delivered + messages[..count])
  {}

  lemma {:induction false} OfferedIsSlice(content: seq<string>, start: nat, polls: seq<Poll>, attempts: nat, n: nat)
    requires Polled(content, start, polls, attempts) && n <= |polls|
    ensures IsSlice(content, start, Offered(polls, n))
  {
    if n > 0 {
      OfferedIsSlice(content, start, polls, attempts, n - 1);
      var p := polls[n - 1];
      assert BatchOk(content, start + |Offered(polls, n - 1)|, p, attempts);
      if p.Batch? {
        SliceNext(content, start, Offered(polls, n - 1), p.messages, |p.messages|);
        assert p.messages[..|p.messages|] == p.messages;
      }
    }
  }

  lemma HeadIsSlice(content: seq<string>, start: nat, polls: seq<Poll>, attempts: nat, n: nat, count: nat)
    requires Polled(content, start, polls, attempts) && n < |polls|
    requires polls[n].Batch? ==> count <= |polls[n].messages|
    ensures IsSlice(content, start, Offered(polls, n) + Head(polls[n], count))
  {
    OfferedIsSlice(content, start, polls, attempts, n);
    assert BatchOk(content, start + |Offered(polls, n)|, polls[n], attempts);
    if polls[n].Batch? {
      SliceNext(content, start, Offered(polls, n), polls[n].messages, count);
    } else {
      assert Offered(polls, n) + Head(polls[n], count) == Offered(polls, n);
    }
  }

  // Where a worker that started at `start` stands: at its group's commit, if there is one.
  function Standing(committed: Option<nat>, start: nat): nat {
    if committed.Some? then committed.value else start
  }

  // At most one batch is delivered but not committed.
  predicate WithinBatch(start: nat, delivered: seq<string>, committed: Option<nat>) {
    start <= Standing(committed, start) <= start + |delivered| <= Standing(committed, start) + MAX_BATCH
  }

  lemma StopsHere(content: seq<string>, polls: seq<Poll>, attempts: nat, n: nat, count: nat, start: nat,
                  before: Option<nat>, delivered: seq<string>, middle: Option<nat>, after: Option<nat>, r: Outcome)
    requires Polled(content, start, polls, attempts) && Through(polls, n, start, before, delivered, middle)
    requires n < |polls| && Ends(polls[n]) && (polls[n].Batch? ==> count <= |polls[n].messages|)
    requires EndsWith(polls[n], start + |delivered|, count, middle, after, r)
    requires before.Some? ==> before.value == start
    ensures var all := delivered + Head(polls[n], count);
            && IsSlice(content, start, all) && WithinBatch(start, all, after)
            && Stopped(polls, start, before, all, after, r)
  {
    HeadIsSlice(content, start, polls, attempts, n, count);
    assert BatchOk(content, start + |delivered|, polls[n], attempts);
    assert StoppedAt(polls, n, count, start, before, delivered + Head(polls[n], count), after, r);
  }

  class ConsumerGroup {
    var committed: Option<nat>

    constructor ()
      ensures committed == None
    {
      committed := None;
    }

    // One poll, whose batch begins at `at`.
    method HandlePoll(p: Poll, at: nat, attempts: nat) returns (count: nat, failed: Option<Outcome>)
      requires p.Batch? ==> |p.messages| == |p.scripts| && AllCover(p.scripts, attempts)
      modifies this
      ensures p.Batch? ==> count <= |p.messages|
      ensures failed.Some? <==> Ends(p)
      ensures failed.None? ==> committed == if p.messages == [] then old(committed) else Some(at + |p.messages|)
      ensures failed.Some? ==> EndsWith(p, at, count, old(committed), committed, failed.value)
    {
      if p.Failure? {
        return 0, Some(PollFailed);
      }
      if p.messages == [] {
        return 0, None;
      }
      var ok;
      ok, count := DeliverBatch(p.client, attempts, p.scripts);
      if !ok {
        return count, Some(DeliveryFailed);
      }
      assert p.scripts[..count] == p.scripts;
      if !p.commit.Failed? {
        committed := Some(at + count);
      }
      return count, if p.commit.Committed? then None else Some(CommitFailed);
    }

    /** ConsumeSubscription, for a worker that started at `start`. It delivers the content from there
        without a gap and in order, each message accepted by the subscriber; it commits the batches
        of which every message was accepted, and no other; and it ends on the first poll that fails,
        holds a message that is not accepted, or is not cleanly committed, and on no other. */
    method ConsumeSubscription(content: seq<string>, start: nat, polls: seq<Poll>, attempts: nat)
      returns (delivered: seq<string>, r: Outcome)
      requires Polled(content, start, polls, attempts)
      requires committed.Some? ==> committed.value == start
      modifies this
      ensures IsSlice(content, start, delivered) && WithinBatch(start, delivered, committed)
      ensures r.Waiting? <==> NoneEnds(polls, |polls|)
      ensures r.Waiting? ==> Through(polls, |polls|, start, old(committed), delivered, committed)
      ensures !r.Waiting? ==> Stopped(polls, start, old(committed), delivered, committed, r)
    {
      delivered := [];
      var i := 0;
      ghost var before := committed;
      while i < |polls|
        invariant Through(polls, i, start, before, delivered, committed)
      {
        assert BatchOk(content, start + |Offered(polls, i)|, polls[i], attempts);
        ghost var middle := committed;
        var count, failed := HandlePoll(polls[i], start + |delivered|, attempts);
        if failed.Some? {
          StopsHere(content, polls, attempts, i, count, start, before, delivered, middle, committed, failed.value);
          return delivered + Head(polls[i], count), failed.value;
        }
        ThroughNext(polls, i, start, before, delivered, middle);
        delivered := delivered + polls[i].messages;
        i := i + 1;
      }
      OfferedIsSlice(content, start, polls, attempts, i);
      return delivered, Waiting;
    }
  }
}
