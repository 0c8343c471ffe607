/** What a log says, without running it: existence, identity and status of every subscription,
    and the value of every topic, read off the positions of the events. */
module History {
  import opened Wrappers
  import opened State
  import opened Convergence

  predicate ResetAfter(log: seq<Event>, k: Key, i: int) {
    exists r :: i < r < |log| && 0 <= r && Resets(log[r], k)
  }

  // Position i holds the first accepted subscribe since the last reset of k.
  predicate Establishes(log: seq<Event>, k: Key, i: nat) {
    && i < |log| && Subscribes(log[i], k) && !ResetAfter(log, k, i)
    && forall h :: 0 <= h < i && Subscribes(log[h], k) ==> ResetAfter(log[..i], k, h)
  }

  // The last of {any subscribe, matching stale} after position i is a stale.
  predicate StaleSince(log: seq<Event>, k: Key, i: nat)
    requires i < |log| && log[i].Subscribe?
  {
    exists m :: i < m < |log| && Stales(log[m], k, log[i].subscription) &&
                forall n :: m < n < |log| ==> !Subscribes(log[n], k)
  }

  lemma ResetAfterExtends(log: seq<Event>, k: Key, i: int)
    requires log != []
    ensures ResetAfter(log, k, i) <==>
            ResetAfter(log[..|log| - 1], k, i) || (i < |log| - 1 && Resets(log[|log| - 1], k))
  {
    var shorter := log[..|log| - 1];
    if ResetAfter(log, k, i) {
      var r :| i < r < |log| && 0 <= r && Resets(log[r], k);
      if r < |shorter| {
        assert Resets(shorter[r], k);
      }
    }
    if ResetAfter(shorter, k, i) {
      var r :| i < r < |shorter| && 0 <= r && Resets(shorter[r], k);
      assert Resets(log[r], k);
    }
    if i < |log| - 1 && Resets(log[|log| - 1], k) {
      assert ResetAfter(log, k, i);
    }
  }

  lemma EstablishesExtends(log: seq<Event>, k: Key, i: nat)
    requires log != [] && i < |log| - 1
    ensures Establishes(log, k, i) <==> Establishes(log[..|log| - 1], k, i) && !Resets(log[|log| - 1], k)
  {
    var shorter := log[..|log| - 1];
    ResetAfterExtends(log, k, i);
    assert shorter[..i] == log[..i];
    assert forall h :: 0 <= h < |shorter| ==> shorter[h] == log[h];
  }

  lemma StaleSinceExtends(log: seq<Event>, k: Key, i: nat)
    requires log != [] && i < |log| - 1 && log[i].Subscribe?
    ensures var e := log[|log| - 1];
            StaleSince(log, k, i) <==>
            if Subscribes(e, k) then false
            else Stales(e, k, log[i].subscription) || StaleSince(log[..|log| - 1], k, i)
  {}

  lemma {:induction false} EarliestFollowing(log: seq<Event>, k: Key, i: nat)
    requires i < |log| && Subscribes(log[i], k) && !ResetAfter(log, k, i)
    ensures exists j :: 0 <= j < |log| && Establishes(log, k, j)
    decreases i
  {
    if !Establishes(log, k, i) {
      var h :| 0 <= h < i && Subscribes(log[h], k) && !ResetAfter(log[..i], k, h);
      forall r | h < r < |log|
        ensures !Resets(log[r], k)
      {
        if r < i {
          assert log[..i][r] == log[r];
        }
      }
      EarliestFollowing(log, k, h);
    }
  }

  predicate Follows(log: seq<Event>, k: Key) {
    exists i :: 0 <= i < |log| && Subscribes(log[i], k) && !ResetAfter(log, k, i)
  }

  function ToldAt(log: seq<Event>, k: Key, i: nat): Subscription
    requires i < |log| && log[i].Subscribe?
  {
    log[i].subscription.(status := if StaleSince(log, k, i) then STALE else "")
  }

  // One more event: what it does to the positions that matter.
  lemma PositionsExtend(log: seq<Event>, k: Key, i: nat)
    requires log != [] && i < |log| - 1
    ensures var shorter, e := log[..|log| - 1], log[|log| - 1];
            && shorter[i] == log[i]
            && (Establishes(log, k, i) <==> Establishes(shorter, k, i) && !Resets(e, k))
            && (log[i].Subscribe? ==>
                  ToldAt(log, k, i) ==
                  var s := log[i].subscription;
                  if Subscribes(e, k) then s.(status := "")
                  else if Stales(e, k, s) then s.(status := STALE)
                  else ToldAt(shorter, k, i))
  {
    EstablishesExtends(log, k, i);
    if log[i].Subscribe? {
      StaleSinceExtends(log, k, i);
    }
  }

  // The last event establishes k exactly when it subscribes and nothing was there before it.
  lemma LastPosition(log: seq<Event>, k: Key)
    requires log != []
    ensures var shorter, e := log[..|log| - 1], log[|log| - 1];
            && (Establishes(log, k, |log| - 1) <==> Subscribes(e, k) && !Follows(shorter, k))
            && (Subscribes(e, k) ==> ToldAt(log, k, |log| - 1) == e.subscription.(status := ""))
  {
    var shorter := log[..|log| - 1];
    assert forall h :: 0 <= h < |shorter| ==> shorter[h] == log[h];
  }

  lemma FollowsExtends(log: seq<Event>, k: Key)
    requires log != []
    ensures var shorter, e := log[..|log| - 1], log[|log| - 1];
            Follows(log, k) <==> Subscribes(e, k) || (Follows(shorter, k) && !Resets(e, k))
  {
    var shorter, e := log[..|log| - 1], log[|log| - 1];
    if Follows(log, k) {
      var i :| 0 <= i < |log| && Subscribes(log[i], k) && !ResetAfter(log, k, i);
      ResetAfterExtends(log, k, i);
      if i < |shorter| {
        assert Subscribes(shorter[i], k);
      }
    }
    if Follows(shorter, k) && !Resets(e, k) {
      var i :| 0 <= i < |shorter| && Subscribes(shorter[i], k) && !ResetAfter(shorter, k, i);
      ResetAfterExtends(log, k, i);
      assert Subscribes(log[i], k);
    }
  }

  /** After any log, a subscription exists exactly when an accepted subscribe follows the last
      reset of its key; the first such subscribe gives everything but its status, and it is
      stale exactly when the last of {any subscribe, matching stale} since was a stale. */
  lemma {:induction false} SubscriptionHistory(log: seq<Event>, k: Key)
    ensures k in Fold(log, EMPTY).subscriptions <==> Follows(log, k)
    ensures forall i :: 0 <= i < |log| && Establishes(log, k, i) ==>
              Entry(Fold(log, EMPTY), k) == Some(ToldAt(log, k, i))
    decreases |log|
  {
    if log != [] {
      var shorter, e := log[..|log| - 1], log[|log| - 1];
      var before := Entry(Fold(shorter, EMPTY), k);
      SubscriptionHistory(shorter, k);
      StepAtKey(Fold(shorter, EMPTY), e, k);
      FollowsExtends(log, k);
      LastPosition(log, k);
      forall i | 0 <= i < |log| && Establishes(log, k, i)
        ensures Entry(Fold(log, EMPTY), k) == Some(ToldAt(log, k, i))
      {
        if i < |shorter| {
          PositionsExtend(log, k, i);
          assert before == Some(ToldAt(shorter, k, i));
        }
      }
    }
  }

  // The first conclusion above leaves no subscription untold: one of its positions establishes it.
  lemma {:induction false} EveryEntryIsTold(log: seq<Event>, k: Key)
    requires k in Fold(log, EMPTY).subscriptions
    ensures exists i :: 0 <= i < |log| && Establishes(log, k, i) &&
                        Fold(log, EMPTY).subscriptions[k] == ToldAt(log, k, i)
  {
    SubscriptionHistory(log, k);
    var i :| 0 <= i < |log| && Subscribes(log[i], k) && !ResetAfter(log, k, i);
    EarliestFollowing(log, k, i);
  }

  /** A topic's value is its last accepted registration or deregistration. */
  lemma {:induction false} TopicHistory(log: seq<Event>, topic: string)
    ensures (forall i :: 0 <= i < |log| ==> !AboutTopic(log[i], topic)) ==> topic !in Fold(log, EMPTY).topics
    ensures forall i :: 0 <= i < |log| && AboutTopic(log[i], topic) &&
                        (forall n :: i < n < |log| ==> !AboutTopic(log[n], topic)) ==>
              Lookup(Fold(log, EMPTY).topics, topic) == TopicAfter(log[i])
    decreases |log|
  {
    if log != [] {
      var shorter := log[..|log| - 1];
      TopicHistory(shorter, topic);
      StepAtTopic(Fold(shorter, EMPTY), log[|log| - 1], topic);
      assert forall h :: 0 <= h < |shorter| ==> shorter[h] == log[h];
    }
  }
}
