/**
 * The record the store keeps for each alias (the private URLMapping class of
 * URLShorteningService), the time-to-live it is created with, and the two
 * tests the service applies to it: live on resolve, expired on cleanup.
 */
module Mapping {

  /** Time-to-live added to the clock when a mapping is created, in milliseconds.
      The source's comment calls it 24 hours; the constant it uses is 10. */
  const EXPIRY_TIME_MILLIS: int := 10

  /** An immutable (originalURL, expiryTime) pair; the fields are the getters. */
  datatype URLMapping = URLMapping(originalURL: string, expiryTime: int)

  /** The mapping a shorten request at time `now` stores for `originalURL`. */
  function NewMapping(originalURL: string, now: int): (m: URLMapping)
    ensures m.originalURL == originalURL
    ensures forall t :: IsLive(m, t) <==> t < now + EXPIRY_TIME_MILLIS
  {
    URLMapping(originalURL, now + EXPIRY_TIME_MILLIS)
  }

  /** The test resolve applies before handing out a target: expiry strictly in the future. */
  predicate IsLive(m: URLMapping, now: int)
  {
    m.expiryTime > now
  }

  /** The test cleanup applies before removing an entry. Together with IsLive
      it partitions the mappings at every instant. */
  predicate IsExpired(m: URLMapping, now: int): (r: bool)
    ensures r <==> !IsLive(m, now)
  {
    m.expiryTime <= now
  }

  /** Once expired, a mapping stays expired as the clock moves on. */
  lemma ExpiredStaysExpired(m: URLMapping, t: int, t': int)
    requires t <= t'
    ensures IsExpired(m, t) ==> IsExpired(m, t')
    ensures IsLive(m, t') ==> IsLive(m, t)
  {
  }
}
