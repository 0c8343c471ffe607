/** What a worker does with one admitted job: validation, proof of intent, the verified callback.
    The application's and the subscriber's answers are parameters; the result is what was done. */
module Verification {
  import opened Wrappers
  import Int64
  import Lease

  datatype Mark = Marked | Disabled | AlreadyMarked

  /** The application's one chance to vouch for the subscriber itself, while a request is handled. */
  class Controller {
    const allowed: bool
    var marked: bool

    constructor (allowed: bool)
      ensures this.allowed == allowed && !marked
    {
      this.allowed := allowed;
      marked := false;
    }

    // One compare-and-swap: of any number of calls at most the first succeeds, and none does
    // unless external verification is enabled.
    method MarkVerified() returns (r: Mark)
      modifies this`marked
      ensures r.Marked? <==> allowed && !old(marked)
      ensures r.Disabled? <==> !allowed
      ensures marked == (old(marked) || allowed)
    {
      if !allowed {
        return Disabled;
      }
      if marked {
        return AlreadyMarked;
      }
      marked := true;
      return Marked;
    }
  }

  datatype Mode = SubscribeMode | UnsubscribeMode

  datatype Job = Job(mode: Mode, leaseSeconds: string, verified: bool)

  datatype Validation = Passed | Denied(reason: string) | Failed

  // The subscriber's side of one callback request; no answer covers every transport failure.
  datatype Response = NoAnswer | Answer(status: int, body: string)

  datatype Effect =
    | StatusSent(mode: string, reason: string)
    | ChallengeSent(challenge: string, lease: Option<string>)
    | VerifiedCalled(lease: Option<string>)

  // sendCallback: an empty expectation accepts any bounded answer, any other wants a 2xx status
  // and the expected body, whole.
  predicate CallbackSucceeds(response: Response, limit: int, expected: string) {
    match response
    case NoAnswer => false
    case Answer(status, body) =>
      if |body| > limit then false
      else if expected == "" then true
      else if status < 200 || status >= 300 then false
      else body == expected
  }

  // The subscriber echoed the challenge.
  predicate Echoed(response: Response, challenge: string) {
    response.Answer? && 200 <= response.status < 300 && response.body == challenge
  }

  lemma ChallengeMustBeEchoed(response: Response, limit: int, challenge: string)
    requires challenge != ""
    ensures CallbackSucceeds(response, limit, challenge) <==> Echoed(response, challenge) && |challenge| <= limit
    // A status notification expects nothing, and any bounded answer will do.
    ensures CallbackSucceeds(response, limit, "") <==> response.Answer? && |response.body| <= limit
  {}

  predicate Proven(job: Job, challenge: Option<string>, response: Response, limit: int) {
    job.verified || (challenge.Some? && CallbackSucceeds(response, limit, challenge.value))
  }

  method HandleValidationFailure(validation: Validation, hubErrors: bool) returns (effects: seq<Effect>)
    requires !validation.Passed?
    ensures effects == if validation.Denied? then [StatusSent("denied", validation.reason)]
                       else if hubErrors then [StatusSent("hub-error", "validation failed")] else []
  {
    if validation.Denied? {
      return [StatusSent("denied", validation.reason)];
    }
    return if hubErrors then [StatusSent("hub-error", "validation failed")] else [];
  }

  function LeaseText(job: Job, text: string): Option<string> {
    if job.mode.SubscribeMode? then Some(text) else None
  }

  // The challenge, if one is needed and could be drawn.
  function Asking(job: Job, challenge: Option<string>, lease: Option<string>): seq<Effect> {
    if job.verified || challenge.None? then [] else [ChallengeSent(challenge.value, lease)]
  }

  function Reporting(callbackReturns: bool, hubErrors: bool): seq<Effect> {
    if callbackReturns || !hubErrors then [] else [StatusSent("hub-error", "verified callback failed")]
  }

  /** runSubscription and runUnsubscription, which differ in the lease alone. `challenge` is absent
      when the random source fails. `text` is the decimal lease. */
  method Run(config: Lease.Config, hubErrors: bool, job: Job, validation: Validation, challenge: Option<string>,
             response: Response, callbackReturns: bool)
    returns (effects: seq<Effect>, text: string)
    requires Lease.Normal(config)
    requires job.mode.SubscribeMode? ==> Lease.AcceptedLease(job.leaseSeconds)
    requires challenge.Some? ==> challenge.value != ""
    // The lease announced in the challenge, and handed over with the verified subscription, is the
    // one granted, whole seconds within bounds; an unsubscription has none.
    ensures job.mode.SubscribeMode? && validation.Passed? ==>
              Int64.Parse(text) == Some(Lease.GrantedSeconds(config, job.leaseSeconds))
    ensures forall e :: e in effects && !e.StatusSent? ==>
              if job.mode.UnsubscribeMode? then e.lease.None?
              else e.lease.Some? && Int64.Parse(e.lease.value) == Some(Lease.GrantedSeconds(config, job.leaseSeconds))
    // A failed validation is reported, and nothing else is done.
    ensures !validation.Passed? ==> forall e :: e in effects ==> e.StatusSent?
    ensures validation.Denied? ==> effects == [StatusSent("denied", validation.reason)]
    ensures validation.Failed? ==> effects == if hubErrors then [StatusSent("hub-error", "validation failed")] else []
    // Otherwise the verified callback runs, once and last but for its own error report, exactly
    // when intent is proven.
    ensures validation.Passed? ==>
              effects == Asking(job, challenge, LeaseText(job, text)) +
                         if Proven(job, challenge, response, config.maxCallbackBody)
                         then [VerifiedCalled(LeaseText(job, text))] + Reporting(callbackReturns, hubErrors)
                         else []
  {
    effects, text := [], "";
    if !validation.Passed? {
      effects := HandleValidationFailure(validation, hubErrors);
      return;
    }
    if job.mode.SubscribeMode? {
      text := Lease.EffectiveLease(config, job.leaseSeconds);
    }
    var lease := LeaseText(job, text);
    if !job.verified {
      if challenge.None? {
        return;
      }
      effects := effects + [ChallengeSent(challenge.value, lease)];
      if !CallbackSucceeds(response, config.maxCallbackBody, challenge.value) {
        return;
      }
    }
    effects := effects + [VerifiedCalled(lease)];
    if !callbackReturns {
      if hubErrors {
        effects := effects + [StatusSent("hub-error", "verified callback failed")];
      }
    }
  }
}
