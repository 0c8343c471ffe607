/** The path of a lease: normalizeConfig, the hub.lease_seconds form value, the clamp in
    runSubscription, and the guard both example applications put on the granted string.
    Durations are Go's: 64-bit counts of nanoseconds. */
module Lease {
  import opened Wrappers
  import Int64

  const SECOND := 1_000_000_000
  const DEFAULT_LEASE := 10 * 24 * 3600 * SECOND
  const DEFAULT_REQUEST_BODY := 65536
  const DEFAULT_CALLBACK_BODY := 4096
  const DEFAULT_VERIFICATION_TIMEOUT := 10 * SECOND
  const DEFAULT_WORKERS := 4
  const DEFAULT_QUEUE := 1024

  datatype Config = Config(
    defaultLease: int,
    maxLease: int,
    verificationTimeout: int,
    maxRequestBody: int,
    maxCallbackBody: int,
    workers: int,
    queue: int)

  datatype Error = NegativeValue | NotWholeSeconds | DefaultExceedsMax | BadLease

  predicate AnyNegative(c: Config) {
    c.defaultLease < 0 || c.maxLease < 0 || c.verificationTimeout < 0 || c.maxRequestBody < 0 ||
    c.maxCallbackBody < 0 || c.workers < 0 || c.queue < 0
  }

  function OrDefault(value: int, default: int): int {
    if value == 0 then default else value
  }

  // What every later stage relies on.
  predicate Normal(c: Config) {
    && SECOND <= c.defaultLease <= c.maxLease <= Int64.MAX
    && c.defaultLease % SECOND == 0 && c.maxLease % SECOND == 0
    && c.verificationTimeout > 0 && c.maxRequestBody > 0 && c.maxCallbackBody > 0
    && c.workers > 0 && c.queue > 0
  }

  // A configuration that already holds its own defaults is left alone.
  predicate Accepted(c: Config) {
    var default := OrDefault(c.defaultLease, DEFAULT_LEASE);
    var max := OrDefault(c.maxLease, DEFAULT_LEASE);
    !AnyNegative(c) && SECOND <= default <= max && default % SECOND == 0 && max % SECOND == 0
  }

  method NormalizeConfig(config: Config) returns (r: Result<Config, Error>)
    requires Int64.InRange(config.defaultLease) && Int64.InRange(config.maxLease)
    ensures r.Success? <==> Accepted(config)
    ensures r == Failure(NegativeValue) <==> AnyNegative(config)
    ensures config.defaultLease < 0 || config.maxLease < 0 ==> r == Failure(NegativeValue)
    ensures r.Success? ==> Normal(r.value)
    ensures Normal(config) ==> r == Success(config)
    // Ten days, ten seconds, 64 KiB, 4 KiB, four workers and 1024 places.
    ensures config == Config(0, 0, 0, 0, 0, 0, 0) ==>
              r == Success(Config(864_000_000_000_000, 864_000_000_000_000, 10_000_000_000, 65_536, 4_096, 4, 1_024))
    ensures r.Success? ==>
              && r.value.defaultLease == OrDefault(config.defaultLease, DEFAULT_LEASE)
              && r.value.maxLease == OrDefault(config.maxLease, DEFAULT_LEASE)
              && r.value.verificationTimeout == OrDefault(config.verificationTimeout, DEFAULT_VERIFICATION_TIMEOUT)
              && r.value.maxRequestBody == OrDefault(config.maxRequestBody, DEFAULT_REQUEST_BODY)
              && r.value.maxCallbackBody == OrDefault(config.maxCallbackBody, DEFAULT_CALLBACK_BODY)
              && r.value.workers == OrDefault(config.workers, DEFAULT_WORKERS)
              && r.value.queue == OrDefault(config.queue, DEFAULT_QUEUE)
  {
    if AnyNegative(config) {
      return Failure(NegativeValue);
    }
    var c := config;
    if c.defaultLease == 0 {
      c := c.(defaultLease := DEFAULT_LEASE);
    }
    if c.maxLease == 0 {
      c := c.(maxLease := DEFAULT_LEASE);
    }
    if c.defaultLease < SECOND || c.maxLease < SECOND || c.defaultLease % SECOND != 0 || c.maxLease % SECOND != 0 {
      return Failure(NotWholeSeconds);
    }
    if c.defaultLease > c.maxLease {
      return Failure(DefaultExceedsMax);
    }
    if c.maxRequestBody == 0 {
      c := c.(maxRequestBody := DEFAULT_REQUEST_BODY);
    }
    if c.maxCallbackBody == 0 {
      c := c.(maxCallbackBody := DEFAULT_CALLBACK_BODY);
    }
    if c.verificationTimeout == 0 {
      c := c.(verificationTimeout := DEFAULT_VERIFICATION_TIMEOUT);
    }
    if c.workers == 0 {
      c := c.(workers := DEFAULT_WORKERS);
    }
    if c.queue == 0 {
      c := c.(queue := DEFAULT_QUEUE);
    }
    return Success(c);
  }

  predicate AcceptedLease(leaseSeconds: string) {
    leaseSeconds == "" ||
    match Int64.Parse(leaseSeconds)
    case Some(seconds) => 0 < seconds <= Int64.MAX / SECOND
    case None => false
  }

  // The seconds a request asked for, or the configured default when it asked for none,
  // cut down to the configured maximum.
  function GrantedSeconds(c: Config, leaseSeconds: string): int
    requires AcceptedLease(leaseSeconds)
  {
    var requested := if leaseSeconds == "" then c.defaultLease / SECOND else Int64.Parse(leaseSeconds).value;
    if requested > c.maxLease / SECOND then c.maxLease / SECOND else requested
  }

  // The hub.lease_seconds part of parseSubscription; `raw` is absent when the form has no such key.
  function ParseLease(raw: Option<seq<string>>): (r: Result<string, Error>)
    ensures r.Success? ==> AcceptedLease(r.value)
    ensures raw.None? ==> r == Success("")
    ensures raw.Some? ==>
              (r.Success? <==>
               |raw.value| == 1 &&
               match Int64.Parse(raw.value[0]) case Some(n) => 1 <= n <= 9_223_372_036 case None => false)
    ensures raw.Some? && r.Success? ==> r.value == raw.value[0]
  {
    if raw.None? then Success("")
    else if |raw.value| != 1 || raw.value[0] == "" then Failure(BadLease)
    else
      match Int64.Parse(raw.value[0])
      case None => Failure(BadLease)
      case Some(seconds) =>
        if seconds <= 0 || seconds > Int64.MAX / SECOND then Failure(BadLease) else Success(raw.value[0])
  }

  // The lease arithmetic of runSubscription, in wrapping 64-bit arithmetic.
  method EffectiveLease(config: Config, leaseSeconds: string) returns (effective: string)
    requires Normal(config) && AcceptedLease(leaseSeconds)
    ensures Int64.Parse(effective) == Some(GrantedSeconds(config, leaseSeconds))
  {
    var lease := config.defaultLease;
    if leaseSeconds != "" {
      var seconds := Int64.Parse(leaseSeconds).value;
      lease := Int64.Multiply(seconds, SECOND);
      assert lease == seconds * SECOND;
    }
    if lease > config.maxLease {
      lease := config.maxLease;
    }
    effective := Int64.Format(lease / SECOND);
    Int64.ParseFormat(lease / SECOND);
  }

  // The guard at the head of both applications' OnSubscriptionVerified.
  function AppLease(effective: string): Option<int> {
    match Int64.Parse(effective)
    case Some(seconds) => if seconds <= 0 then None else Some(seconds)
    case None => None
  }

  /** The whole path, from any configuration and any form value: it fails exactly where
      normalizeConfig or parseSubscription reject, and otherwise the application receives
      n = min(requested or default, max) whole seconds, 1 <= n <= max, and its own
      `time.Duration(n) * time.Second` does not overflow. */
  method GrantLease(config: Config, raw: Option<seq<string>>) returns (granted: Option<int>, expiry: int)
    requires Int64.InRange(config.defaultLease) && Int64.InRange(config.maxLease)
    ensures granted.Some? <==> Accepted(config) && ParseLease(raw).Success?
    ensures granted.Some? ==>
              var max := OrDefault(config.maxLease, DEFAULT_LEASE) / SECOND;
              var asked := if raw.Some? then Int64.Parse(raw.value[0]).value
                           else OrDefault(config.defaultLease, DEFAULT_LEASE) / SECOND;
              && granted.value == (if asked < max then asked else max)
              && 1 <= granted.value <= max
              && expiry == granted.value * SECOND <= Int64.MAX
  {
    granted, expiry := None, 0;
    var normalized := NormalizeConfig(config);
    if normalized.Failure? {
      return;
    }
    var lease := ParseLease(raw);
    if lease.Failure? {
      return;
    }
    var effective := EffectiveLease(normalized.value, lease.value);
    granted := AppLease(effective);
    expiry := Int64.Multiply(granted.value, SECOND);
  }
}
