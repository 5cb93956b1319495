/** Instants, Kubernetes timestamps and the expiry shown to users.

    An instant is an integer number of nanoseconds.  Kubernetes stores timestamps in the format of
    RFC 3339 section 5.6 without the fractional seconds, so storing an instant floors it to the second. */
module KubeTime {
  type Time = int

  const SECOND: int := 1_000_000_000

  /** The timestamp that Kubernetes keeps for an instant. */
  function ToKubeTime(t: Time): (r: Time)
    ensures r % SECOND == 0 && r <= t < r + SECOND
  {
    t - t % SECOND
  }

  /** The expiry reported to users: the nearest second, half way going up. */
  function RoundTimestamp(t: Time): (r: Time)
    ensures r % SECOND == 0 && 2 * r - SECOND <= 2 * t < 2 * r + SECOND
  {
    var r := t % SECOND;
    if r + r < SECOND then t - r else t + (SECOND - r)
  }

  /** There is only one timestamp for an instant. */
  lemma KubeTimeIsUnique(t: Time, r: Time)
    requires r % SECOND == 0 && r <= t < r + SECOND
    ensures r == ToKubeTime(t)
  {
    var a, b := r / SECOND, ToKubeTime(t) / SECOND;
    assert r - ToKubeTime(t) == (a - b) * SECOND;
    assert a == b;
  }

  lemma KubeTimeMonotone(s: Time, t: Time)
    requires s <= t
    ensures ToKubeTime(s) <= ToKubeTime(t)
  {
    var a, b := ToKubeTime(s) / SECOND, ToKubeTime(t) / SECOND;
    assert ToKubeTime(t) - ToKubeTime(s) == (b - a) * SECOND;
    assert b - a >= 0;
  }

  /** What a user is told against what is stored.  The API reads its clock at `read`, the claim
      controller fills in the expiration at `sync`.  A controller no earlier than the API stores at
      most one second less than the user was told; an earlier one loses that head start as well. */
  lemma ReportedVersusStored(read: Time, sync: Time, lease: Time)
    ensures read <= sync ==> RoundTimestamp(read + lease) - ToKubeTime(sync + lease) <= SECOND
    ensures sync <= read ==>
              2 * (RoundTimestamp(read + lease) - ToKubeTime(sync + lease)) < 3 * SECOND + 2 * (read - sync)
  {
    if read <= sync { KubeTimeMonotone(read + lease, sync + lease); }
  }

  /** Both bounds are met to the nanosecond, for every lease duration. */
  lemma ReportedVersusStoredIsTight(lease: Time)
    ensures var read := SECOND / 2 - lease;
            RoundTimestamp(read + lease) - ToKubeTime(read + lease) == SECOND
    ensures var sync, read := SECOND - 1 - lease, SECOND + SECOND / 2 - lease;
            sync < read
            && 2 * (RoundTimestamp(read + lease) - ToKubeTime(sync + lease)) == 3 * SECOND + 2 * (read - sync) - 2
  {
    KubeTimeIsUnique(SECOND - 1, 0);
  }
}

/** The expiration arithmetic shared by the two claim controllers. */
module Expiration {
  import opened Prelude
  import opened KubeTime

  /** updateExpiration writes: the expiration is unset, or later than a lease taken now could be. */
  predicate Due(expiration: Option<Time>, now: Time, lease: Time) {
    expiration.None? || expiration.value > now + lease
  }

  /** The expiration after updateExpiration. */
  function Updated(expiration: Option<Time>, now: Time, lease: Time): (e: Time)
    ensures e <= now + lease
    ensures expiration.Some? ==> e <= expiration.value
    ensures now + lease - SECOND < e || (expiration.Some? && e == expiration.value)
  {
    if Due(expiration, now, lease) then ToKubeTime(now + lease) else expiration.value
  }

  predicate Expired(expiration: Time, now: Time) {
    now > expiration
  }

  /** The expiration is set and within a lease taken now. */
  predicate Kept(expiration: Option<Time>, now: Time, lease: Time) {
    expiration.Some? && expiration.value <= now + lease
  }

  /** What a pass that stamps and tests at these instants has to delete: what is past its expiration, or has
      had none within the lease and gets one that is past already when it is tested. */
  predicate Lapsed(expiration: Option<Time>, stamping: Time, testing: Time, lease: Time) {
    if Kept(expiration, stamping, lease) then expiration.value < testing else ToKubeTime(stamping + lease) < testing
  }

  /** Where the test comes no later than a second before the lease would be over, that is what is past its
      expiration and nothing else. */
  lemma LapsedIsPast(expiration: Option<Time>, stamping: Time, testing: Time, lease: Time)
    requires stamping <= testing <= stamping + lease - SECOND
    ensures Lapsed(expiration, stamping, testing, lease) <==> expiration.Some? && expiration.value < testing
  {
  }
}
