/** The Kafka consumer group of a subscription. Its name is a fixed prefix and a SHA-256 of the
    key built here; two groups are the same when their keys are. */
module Groups {
  import opened State
  import Int64
  import Consolidation

  function GroupKey(v: Verified): string {
    v.topic + "\0" + (v.callback + "\0" + Int64.Format(v.leaseStartedAt))
  }

  lemma {:induction false} LastNul(a: string, b: string, a': string, b': string)
    requires '\0' !in b && '\0' !in b'
    requires a + "\0" + b == a' + "\0" + b'
    ensures a == a' && b == b'
  {
    var s := a + "\0" + b;
    assert s == a' + "\0" + b';
    assert forall i :: 0 <= i < |b| ==> s[|a| + 1 + i] == b[i];
    assert forall i :: 0 <= i < |b'| ==> s[|a'| + 1 + i] == b'[i];
    assert s[|a|] == '\0' && s[|a'|] == '\0';
    assert |a| == |a'|;
    assert s[..|a|] == a && s[..|a'|] == a';
    assert s[|a| + 1..] == b && s[|a'| + 1..] == b';
  }

  /** The group identifies topic, callback and lease start: a new lease gets a new group, and a
      revived entry, which keeps its old lease start, its old one. */
  lemma GroupIdentifiesLease(v: Verified, w: Verified)
    requires '\0' !in v.topic && '\0' !in w.topic
    ensures GroupKey(v) == GroupKey(w) <==>
            v.topic == w.topic && v.callback == w.callback && v.leaseStartedAt == w.leaseStartedAt
  {
    if GroupKey(v) == GroupKey(w) {
      var rest := v.callback + "\0" + Int64.Format(v.leaseStartedAt);
      var rest' := w.callback + "\0" + Int64.Format(w.leaseStartedAt);
      assert Consolidation.SubscriptionKey(v.topic, rest) == Consolidation.SubscriptionKey(w.topic, rest');
      Consolidation.KeyInjective(v.topic, rest, w.topic, rest');
      Int64.FormatHasNoNul(v.leaseStartedAt);
      Int64.FormatHasNoNul(w.leaseStartedAt);
      LastNul(v.callback, Int64.Format(v.leaseStartedAt), w.callback, Int64.Format(w.leaseStartedAt));
      Int64.FormatInjective(v.leaseStartedAt, w.leaseStartedAt);
    }
  }
}
