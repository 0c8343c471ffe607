/** The event cursor of both Kafka adapters, which share this code: startup replay up to a captured
    log end, then tailing, over whatever batches of records the client's polls happen to bring. */
module EventCursor {
  import opened State

  datatype Record = Record(ours: bool, offset: int, value: Payload)

  datatype Poll = Failure | Records(records: seq<Record>)

  datatype Outcome = Replayed | HandlerFailed | FetchFailed | Waiting

  // Records of the event partition.
  function Count(rs: seq<Record>): nat {
    if rs == [] then 0 else Count(rs[..|rs| - 1]) + if rs[|rs| - 1].ours then 1 else 0
  }

  function CountAll(polls: seq<Poll>): nat {
    if polls == [] then 0
    else
      var last := polls[|polls| - 1];
      CountAll(polls[..|polls| - 1]) + if last.Records? then Count(last.records) else 0
  }

  // The event partition's records among rs are the next ones of the log.
  predicate Consecutive(log: seq<Payload>, rs: seq<Record>, from: nat) {
    && from + Count(rs) <= |log|
    && forall i {:trigger IsRecord(log, rs[i], from + Count(rs[..i]))} ::
         0 <= i < |rs| && rs[i].ours ==> IsRecord(log, rs[i], from + Count(rs[..i]))
  }

  predicate IsRecord(log: seq<Payload>, r: Record, offset: nat) {
    offset < |log| && r.offset == offset && r.value == log[offset]
  }

  // What a client started at offset `first` brings: the log from there, cut anywhere into polls.
  predicate Delivered(log: seq<Payload>, polls: seq<Poll>, first: nat) {
    && first <= |log|
    && forall i {:trigger PollDelivered(log, polls, first, i)} ::
         0 <= i < |polls| ==> PollDelivered(log, polls, first, i)
  }

  predicate PollDelivered(log: seq<Payload>, polls: seq<Poll>, first: nat, i: nat)
    requires i < |polls|
  {
    polls[i].Records? ==> Consecutive(log, polls[i].records, first + CountAll(polls[..i]))
  }

  // k records of the log from offset `from` on, as they are polled.
  function FetchOf(log: seq<Payload>, from: nat, k: nat): seq<Record>
    requires from + k <= |log|
  {
    seq(k, i requires 0 <= i < k => Record(true, from + i, log[from + i]))
  }

  lemma {:induction false} CountOfFetch(log: seq<Payload>, from: nat, k: nat)
    requires from + k <= |log|
    ensures Count(FetchOf(log, from, k)) == k
  {
    if k > 0 {
      CountOfFetch(log, from, k - 1);
      assert FetchOf(log, from, k)[..k - 1] == FetchOf(log, from, k - 1);
    }
  }

  lemma FetchIsNext(log: seq<Payload>, from: nat, k: nat)
    requires from + k <= |log|
    ensures Consecutive(log, FetchOf(log, from, k), from)
  {
    CountOfFetch(log, from, k);
    forall i | 0 <= i < k
      ensures Count(FetchOf(log, from, k)[..i]) == i
    {
      PrefixOfFetch(log, from, k, i);
    }
  }

  lemma PrefixOfFetch(log: seq<Payload>, from: nat, k: nat, i: nat)
    requires i <= k && from + k <= |log|
    ensures Count(FetchOf(log, from, k)[..i]) == i
  {
    assert FetchOf(log, from, k)[..i] == FetchOf(log, from, i);
    CountOfFetch(log, from, i);
  }

  // Any way of cutting the log into polls, with failures anywhere, is one a client can bring.
  lemma CutsAreDelivered(log: seq<Payload>, polls: seq<Poll>, first: nat, k: nat)
    requires polls == [] || Delivered(log, polls, first)
    requires first + CountAll(polls) + k <= |log|
    ensures Delivered(log, polls + [Failure], first)
    ensures Delivered(log, polls + [Records(FetchOf(log, first + CountAll(polls), k))], first)
  {
    FetchIsNext(log, first + CountAll(polls), k);
    DeliveredExtends(log, polls, Failure, first);
    DeliveredExtends(log, polls, Records(FetchOf(log, first + CountAll(polls), k)), first);
  }

  lemma DeliveredExtends(log: seq<Payload>, polls: seq<Poll>, p: Poll, first: nat)
    requires Delivered(log, polls, first)
    requires p.Records? ==> Consecutive(log, p.records, first + CountAll(polls))
    ensures Delivered(log, polls + [p], first)
  {
    var longer := polls + [p];
    assert longer[..|polls|] == polls;
    forall i | 0 <= i < |polls|
      ensures PollDelivered(log, longer, first, i)
    {
      assert longer[..i] == polls[..i] && PollDelivered(log, polls, first, i);
    }
  }

  // One consumer: the log, the offset its client starts at, its replay end or -1, the cursor before,
  // and the offsets at which the handler fails.
  datatype Job = Job(log: seq<Payload>, first: nat, replayEnd: int, before: nat, fails: set<int>)

  // What the handler was given, the cursor, and whether the handler failed on the last one given.
  datatype Done = Done(calls: seq<Payload>, cursor: nat, failed: bool)

  function HandleOne(job: Job, d: Done, offset: nat): Done
    requires offset < |job.log|
  {
    if d.failed || offset < d.cursor || 0 <= job.replayEnd <= offset then d
    else
      var calls := d.calls + [job.log[offset]];
      if offset in job.fails then Done(calls, d.cursor, true) else Done(calls, offset + 1, false)
  }

  // After the first n records, one at a time.
  function After(job: Job, n: nat): Done
    requires job.first + n <= |job.log|
  {
    if n == 0 then Done([], job.before, false) else HandleOne(job, After(job, n - 1), job.first + n - 1)
  }

  // ---- What that amounts to ----

  function Max(a: nat, b: nat): nat {
    if a < b then b else a
  }

  // Records below hi are read, and a replay leaves those from replayEnd on.
  function Limit(replayEnd: int, hi: nat): nat {
    if 0 <= replayEnd < hi then replayEnd else hi
  }

  function Slice(log: seq<Payload>, lo: nat, hi: nat): seq<Payload>
    requires hi <= |log|
  {
    if lo < hi then log[lo..hi] else []
  }

  predicate NoneFails(fails: set<int>, lo: nat, hi: nat) {
    forall o {:trigger o in fails} :: lo <= o < hi ==> o !in fails
  }

  // The handler was given each record between the old cursor and the replay end, once, in order
  // and with success; where there was none, the cursor did not move.
  predicate Progress(job: Job, n: nat, d: Done) {
    var lo, hi := Max(job.first, job.before), Limit(job.replayEnd, job.first + n);
    && job.first + n <= |job.log| && !d.failed
    && d.calls == Slice(job.log, lo, hi)
    && d.cursor == (if lo < hi then hi else job.before)
    && NoneFails(job.fails, lo, hi)
  }

  // The handler failed on the record at offset o: those before it are done, and the cursor is
  // where the next consumer starts with o again.
  predicate FailedAt(job: Job, o: nat, d: Done) {
    var lo := Max(job.first, job.before);
    && lo <= o < |job.log| && (job.replayEnd >= 0 ==> o < job.replayEnd) && d.failed
    && d.calls == job.log[lo..o + 1]
    && d.cursor == (if lo < o then o else job.before) && Max(job.first, d.cursor) == o
    && o in job.fails && NoneFails(job.fails, lo, o)
  }

  ghost predicate Exact(job: Job, n: nat, d: Done) {
    Progress(job, n, d) || exists o: nat {:trigger FailedAt(job, o, d)} :: FailedAt(job, o, d)
  }

  lemma SliceGrows(log: seq<Payload>, lo: nat, hi: nat)
    requires lo <= hi < |log|
    ensures log[lo..hi + 1] == log[lo..hi] + [log[hi]]
  {}

  lemma ExactNext(job: Job, n: nat, d: Done)
    requires job.first + n < |job.log| && Exact(job, n, d)
    ensures Exact(job, n + 1, HandleOne(job, d, job.first + n))
  {
    if d.failed {
      return;
    }
    var offset := job.first + n;
    var next := HandleOne(job, d, offset);
    var lo := Max(job.first, job.before);
    if lo <= offset {
      SliceGrows(job.log, lo, offset);
    }
    if next.failed {
      assert FailedAt(job, offset, next);
    } else {
      assert Progress(job, n + 1, next);
    }
  }

  /** Record by record comes to the same as: the log from the old cursor on, cut off at the replay
      end, or at the first record the handler refuses. */
  lemma {:induction false} AfterIsExact(job: Job, n: nat)
    requires job.first + n <= |job.log|
    ensures Exact(job, n, After(job, n))
    decreases n
  {
    if n > 0 {
      AfterIsExact(job, n - 1);
      ExactNext(job, n - 1, After(job, n - 1));
    }
  }

  /** A replay that has seen every record up to its end, all of them accepted, has finished exactly
      when one of them was still retained, or the cursor was beyond the end before. If retention
      has removed them all, it waits for good: later records are beyond the end, and never move
      the cursor. */
  lemma {:induction false} ReplayFinishesExactly(job: Job, n: nat)
    requires 0 <= job.replayEnd <= job.first + n <= |job.log| && !After(job, n).failed
    ensures After(job, n).cursor >= job.replayEnd <==> job.first < job.replayEnd || job.before >= job.replayEnd
  {
    AfterIsExact(job, n);
  }

  predicate NoFailure(polls: seq<Poll>) {
    forall i :: 0 <= i < |polls| ==> polls[i].Records?
  }

  lemma CountNext(rs: seq<Record>, i: nat)
    requires i < |rs|
    ensures Count(rs[..i + 1]) == Count(rs[..i]) + if rs[i].ours then 1 else 0
  {
    assert rs[..i + 1][..i] == rs[..i];
  }

  lemma {:induction false} CountOfPrefix(rs: seq<Record>, i: nat)
    requires i <= |rs|
    ensures Count(rs[..i]) <= Count(rs)
    decreases |rs| - i
  {
    if i == |rs| {
      assert rs[..i] == rs;
    } else {
      CountNext(rs, i);
      CountOfPrefix(rs, i + 1);
    }
  }

  lemma {:induction false} CountAllOfPrefix(polls: seq<Poll>, i: nat)
    requires i <= |polls|
    ensures CountAll(polls[..i]) <= CountAll(polls)
    decreases |polls| - i
  {
    if i == |polls| {
      assert polls[..i] == polls;
    } else {
      assert polls[..i + 1][..i] == polls[..i];
      CountAllOfPrefix(polls, i + 1);
    }
  }

  lemma NextPoll(log: seq<Payload>, polls: seq<Poll>, first: nat, i: nat)
    requires Delivered(log, polls, first) && i < |polls| && NoFailure(polls[..i]) && polls[i].Records?
    ensures Consecutive(log, polls[i].records, first + CountAll(polls[..i]))
    ensures CountAll(polls[..i + 1]) == CountAll(polls[..i]) + Count(polls[i].records)
    ensures NoFailure(polls[..i + 1])
  {
    assert polls[..i + 1][..i] == polls[..i];
    assert PollDelivered(log, polls, first, i);
  }

  lemma NextOfFetch(log: seq<Payload>, rs: seq<Record>, from: nat, i: nat)
    requires Consecutive(log, rs, from) && i < |rs|
    ensures from + Count(rs[..i + 1]) <= |log|
    ensures rs[i].ours ==>
              Count(rs[..i + 1]) == Count(rs[..i]) + 1 && IsRecord(log, rs[i], from + Count(rs[..i]))
    ensures !rs[i].ours ==> Count(rs[..i + 1]) == Count(rs[..i])
  {
    CountNext(rs, i);
    CountOfPrefix(rs, i + 1);
  }

  // The first poll that fails is polls[i], and n records of the log were read before it.
  predicate FailsAfter(polls: seq<Poll>, i: nat, n: nat) {
    i < |polls| && polls[i].Failure? && NoFailure(polls[..i]) && n == CountAll(polls[..i])
  }

  class KafkaBroker {
    var eventsOffset: nat

    constructor ()
      ensures eventsOffset == 0
    {
      eventsOffset := 0;
    }

    // One record; those of other partitions, before the cursor or beyond the replay end are skipped.
    method HandleRecord(ghost job: Job, r: Record, ghost n: nat, replayEnd: int, fails: set<int>, given: seq<Payload>)
      returns (calls: seq<Payload>, ok: bool)
      requires replayEnd == job.replayEnd && fails == job.fails && job.first + n <= |job.log|
      requires r.ours ==> IsRecord(job.log, r, job.first + n)
      requires Done(given, eventsOffset, false) == After(job, n)
      modifies this
      ensures Done(calls, eventsOffset, !ok) == After(job, if r.ours then n + 1 else n)
    {
      if r.ours && r.offset >= eventsOffset && !(replayEnd >= 0 && r.offset >= replayEnd) {
        if r.offset in fails {
          return given + [r.value], false;
        }
        eventsOffset := r.offset + 1;
        return given + [r.value], true;
      }
      return given, true;
    }

    // The records of one poll, after n earlier ones; `read` counts those it got through as well.
    method HandleFetch(ghost job: Job, rs: seq<Record>, ghost n: nat, replayEnd: int, fails: set<int>,
                       given: seq<Payload>)
      returns (calls: seq<Payload>, ok: bool, ghost read: nat)
      requires replayEnd == job.replayEnd && fails == job.fails
      requires Consecutive(job.log, rs, job.first + n)
      requires Done(given, eventsOffset, false) == After(job, n)
      modifies this
      ensures job.first + read <= |job.log| && (ok ==> read == n + Count(rs))
      ensures Done(calls, eventsOffset, !ok) == After(job, read)
    {
      calls, ok, read := given, true, n;
      var i := 0;
      while i < |rs| && ok
        invariant 0 <= i <= |rs|
        invariant job.first + read <= |job.log| && (ok ==> read == n + Count(rs[..i]))
        invariant Done(calls, eventsOffset, !ok) == After(job, read)
      {
        NextOfFetch(job.log, rs, job.first + n, i);
        calls, ok := HandleRecord(job, rs[i], read, replayEnd, fails, calls);
        read := if rs[i].ours then read + 1 else read;
        i := i + 1;
      }
      assert rs[..|rs|] == rs;
    }

    /** consumeEvents: polls until the replay end is reached, a handler or a fetch fails, or there is
        nothing to poll yet. `calls` is what the handler was given; AfterIsExact says what that is. */
    method Consume(ghost job: Job, polls: seq<Poll>, replayEnd: int, fails: set<int>)
      returns (calls: seq<Payload>, r: Outcome, ghost n: nat)
      requires replayEnd == job.replayEnd && fails == job.fails && eventsOffset == job.before
      requires Delivered(job.log, polls, job.first)
      modifies this
      ensures job.first + n <= |job.log| && Done(calls, eventsOffset, r.HandlerFailed?) == After(job, n)
      ensures r.Replayed? ==> eventsOffset >= replayEnd >= 0 && n <= CountAll(polls)
      ensures r.FetchFailed? ==> exists i: nat :: FailsAfter(polls, i, n)
      ensures r.Waiting? ==>
                NoFailure(polls) && n == CountAll(polls) && (polls != [] ==> !(eventsOffset >= replayEnd >= 0))
    {
      calls, n := [], 0;
      var i := 0;
      while i < |polls|
        invariant 0 <= i <= |polls|
        invariant NoFailure(polls[..i]) && n == CountAll(polls[..i]) && job.first + n <= |job.log|
        invariant Done(calls, eventsOffset, false) == After(job, n)
        invariant i > 0 ==> !(eventsOffset >= replayEnd >= 0)
      {
        if polls[i].Failure? {
          assert FailsAfter(polls, i, n);
          return calls, FetchFailed, n;
        }
        NextPoll(job.log, polls, job.first, i);
        var ok;
        calls, ok, n := HandleFetch(job, polls[i].records, n, replayEnd, fails, calls);
        if !ok {
          return calls, HandlerFailed, n;
        }
        if replayEnd >= 0 && eventsOffset >= replayEnd {
          CountAllOfPrefix(polls, i + 1);
          return calls, Replayed, n;
        }
        i := i + 1;
      }
      assert polls[..i] == polls;
      return calls, Waiting, n;
    }

    // The replay end is the log end as captured.
    method ReplayEvents(ghost job: Job, polls: seq<Poll>, replayEnd: nat, fails: set<int>)
      returns (calls: seq<Payload>, r: Outcome, ghost n: nat)
      requires replayEnd == job.replayEnd && fails == job.fails && eventsOffset == job.before
      requires Delivered(job.log, polls, job.first) && replayEnd <= |job.log|
      modifies this
      ensures job.first + n <= |job.log| && Done(calls, eventsOffset, r.HandlerFailed?) == After(job, n)
      ensures job.before >= replayEnd ==> r.Replayed? && calls == [] && n == 0
      ensures r.Replayed? ==> eventsOffset >= replayEnd && n <= CountAll(polls)
      ensures r.FetchFailed? ==> exists i: nat :: FailsAfter(polls, i, n)
      ensures r.Waiting? ==> NoFailure(polls) && n == CountAll(polls) && (polls != [] ==> eventsOffset < replayEnd)
    {
      if eventsOffset >= replayEnd {
        return [], Replayed, 0;
      }
      calls, r, n := Consume(job, polls, replayEnd, fails);
    }

    /** Replay and tailing in one process: the handler is given the retained log from the first
        record on, each record once and in order, wherever the polls were cut and however far those
        of the replay ran past its end. */
    method ReplayThenTail(ghost log: seq<Payload>, replayed: seq<Poll>, tailed: seq<Poll>, ghost start: nat,
                          ghost resumed: nat, replayEnd: nat, fails: set<int>)
      returns (calls: seq<Payload>, r: Outcome)
      requires eventsOffset == 0
      requires Delivered(log, replayed, start) && Delivered(log, tailed, resumed) && replayEnd <= |log|
      // The second client starts at the cursor, or at the first record while that is 0.
      requires resumed <= replayEnd && (replayEnd == 0 ==> resumed == start)
      modifies this
      ensures eventsOffset <= |log| && !r.Replayed?
      ensures !r.HandlerFailed? ==> calls == Slice(log, start, eventsOffset)
      ensures r.HandlerFailed? ==>
                start <= Max(start, eventsOffset) < |log| && calls == log[start..Max(start, eventsOffset) + 1] &&
                Max(start, eventsOffset) in fails
      ensures r.FetchFailed? ==> !NoFailure(replayed) || !NoFailure(tailed)
      ensures r.Waiting? ==>
                eventsOffset == Reached(start, resumed, replayEnd, CountAll(replayed), CountAll(tailed))
    {
      ghost var n;
      calls, r, n := ReplayEvents(Job(log, start, replayEnd, 0, fails), replayed, replayEnd, fails);
      AfterIsExact(Job(log, start, replayEnd, 0, fails), n);
      if r.Replayed? {
        var later;
        later, r, n := Consume(Job(log, resumed, -1, replayEnd, fails), tailed, -1, fails);
        AfterIsExact(Job(log, resumed, -1, replayEnd, fails), n);
        JoinConsumers(log, start, resumed, replayEnd, n, fails, calls, Done(later, eventsOffset, r.HandlerFailed?));
        calls := calls + later;
      }
    }
  }

  // The cursor once the polls of the replay brought `replayed` records, and those after it `tailed`:
  // a replay that got to its end is followed by the tail, and any other is still waiting.
  function Reached(start: nat, resumed: nat, end: nat, replayed: nat, tailed: nat): nat {
    if end == 0 || start < end <= start + replayed then Max(end, resumed + tailed)
    else if start < end && replayed > 0 then start + replayed
    else 0
  }

  lemma JoinConsumers(log: seq<Payload>, start: nat, resumed: nat, end: nat, n: nat, fails: set<int>,
                      calls: seq<Payload>, d: Done)
    requires start <= end <= |log| && resumed <= end && calls == Slice(log, start, end)
    requires Exact(Job(log, resumed, -1, end, fails), n, d)
    ensures start <= d.cursor <= |log|
    ensures !d.failed ==> calls + d.calls == Slice(log, start, d.cursor) && d.cursor == Max(end, resumed + n)
    ensures d.failed ==> d.cursor < |log| && calls + d.calls == log[start..d.cursor + 1] && d.cursor in fails
  {
    if d.failed {
      var o: nat :| FailedAt(Job(log, resumed, -1, end, fails), o, d);
    }
  }
}
