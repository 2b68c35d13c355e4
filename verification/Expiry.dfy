/** The max-age policy both the batch loop and the system model apply to an event.
 */
module Expiry {
  import opened Errors

  // maxAge is MAX_EVENT_AGE_MS, 0 when the policy is off; an event without a usable
  // timestamp never expires.
  predicate IsExpired(maxAge: int, timestamp: Option<int>, now: int) {
    maxAge > 0 && timestamp.Some? && now - timestamp.value > maxAge
  }
}
