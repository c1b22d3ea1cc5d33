/** The values every component shares: links, clicks, results.
    Ids stand for UUIDs; instants and durations are integers on one clock. */
module Domain {
  datatype Option<+T> = None | Some(value: T)

  datatype Error = NotFound | Gone | Conflict | Invalid | CodeExhausted | Backend

  datatype Result<+T> = Ok(value: T) | Err(error: Error)

  type Id = nat
  type Time = int

  const REDIRECT_FOUND := 302
  const REDIRECT_PERMANENT := 301

  datatype Link = Link(
    id: Id,
    tenant: Id,
    code: string,
    target: string,
    redirectType: int,
    expiresAt: Option<Time>,
    maxClicks: Option<int>,
    clickCount: int,
    createdAt: Time,
    updatedAt: Time,
    deletedAt: Option<Time>)
  {
    predicate IsExpired(now: Time) {
      expiresAt.Some? && expiresAt.value <= now
    }

    predicate IsExhausted() {
      maxClicks.Some? && clickCount >= maxClicks.value
    }

    predicate IsActive(now: Time) {
      deletedAt.None? && !IsExpired(now) && !IsExhausted()
    }
  }

  datatype Click = Click(
    link: Id,
    tenant: Id,
    at: Time,
    referrer: string,
    country: string,
    device: string)

  // From the instant of its expiry on, and from the click that reaches its limit on, a link is not active.
  lemma ActiveIff(l: Link, now: Time)
    ensures l.IsActive(now) <==>
            && l.deletedAt == None
            && (l.expiresAt == None || now < l.expiresAt.value)
            && (l.maxClicks == None || l.clickCount < l.maxClicks.value)
  {
  }

  // A link can only stop being active as time passes.
  lemma InactiveStaysInactive(l: Link, now: Time, later: Time)
    requires now <= later && !l.IsActive(now)
    ensures !l.IsActive(later)
  {
  }
}
