/**
 * `checkSupabaseHealth`: a one-row probe of the `artists` table whose
 * answer is cached in a module-level record for ten minutes.
 */
module HealthCheck {

  /** Ten minutes in milliseconds. */
  const CacheTtl: int := 10 * 60 * 1000

  /** What the probe meets: no client (which the route throws on), a throw, or an answer with or without an error. */
  datatype Probe = NoClient | Throws | Answer(hasError: bool)

  /** The health a fresh probe reports. */
  function Outcome(probe: Probe): (healthy: bool)
    ensures healthy <==> probe == Answer(false)
  {
    match probe
    case Answer(hasError) => !hasError
    case _ => false
  }

  /** The cache answers alone when it was filled (a non-zero time) less than ten minutes before `now`. */
  predicate Fresh(checkedAt: int, now: int) {
    checkedAt != 0 && now - checkedAt < CacheTtl
  }

  /** The module-level cache `{healthy, checkedAt}`. */
  class HealthCache {
    var healthy: bool
    var checkedAt: int

    /** The initial value `{healthy: false, checkedAt: 0}`. */
    constructor()
      ensures !healthy && checkedAt == 0
    {
      healthy := false;
      checkedAt := 0;
    }

    /** One call at time `now`: the cached answer while fresh, otherwise the probe's, which is then cached. */
    method Check(now: int, probe: Probe) returns (ok: bool)
      modifies this
      ensures Fresh(old(checkedAt), now) ==> ok == old(healthy) && healthy == old(healthy) && checkedAt == old(checkedAt)
      ensures !Fresh(old(checkedAt), now) ==> ok == Outcome(probe) && healthy == ok && checkedAt == now
      ensures ok == healthy
    {
      if checkedAt != 0 && now - checkedAt < CacheTtl {
        return healthy;
      }
      if probe.NoClient? || probe.Throws? {
        healthy, checkedAt := false, now;
        return false;
      }
      healthy, checkedAt := !probe.hasError, now;
      ok := !probe.hasError;
    }
  }

  /** A call that probes at a non-zero time is repeated, whatever the probe meets, by every call in the next ten minutes. */
  method RepeatWithinTtl(cache: HealthCache, now: int, later: int, probe: Probe, laterProbe: Probe)
      returns (first: bool, second: bool)
    requires !Fresh(cache.checkedAt, now)
    requires now != 0 && now <= later < now + CacheTtl
    modifies cache
    ensures first == Outcome(probe) && second == first
  {
    first := cache.Check(now, probe);
    second := cache.Check(later, laterProbe);
  }
}
