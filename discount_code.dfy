/** `DiscountCode.isValid` from `server/models/DiscountCode.js`. Dates are
    timestamps; a `null` `maxUses` or `endDate` is `None` (the schema default,
    meaning unlimited and never expiring). A stored `startDate` is a Date object
    and therefore truthy; `None` stands for a missing one. */
module DiscountCode {
  import opened Js

  datatype Code = Code(
    isActive: bool,
    maxUses: Option<int>,
    currentUses: int,
    startDate: Option<int>,
    endDate: Option<int>)

  /** The four guarded returns of `isValid`, with `now` the current time. */
  function IsValid(c: Code, now: int): (b: bool)
  {
    if !c.isActive then false
    else if c.maxUses.Some? && c.currentUses >= c.maxUses.value then false
    else if c.startDate.Some? && now < c.startDate.value then false
    else if c.endDate.Some? && now > c.endDate.value then false
    else true
  }

  /** A code is valid exactly when it is active, below its use limit (if any),
      not before its start and not after its end (if any). */
  lemma ValidIffAllChecksPass(c: Code, now: int)
    ensures IsValid(c, now) <==>
      && c.isActive
      && (c.maxUses.None? || c.currentUses < c.maxUses.value)
      && (c.startDate.None? || c.startDate.value <= now)
      && (c.endDate.None? || now <= c.endDate.value)
  {
  }

  /** An inactive code is never valid. */
  lemma InactiveNeverValid(c: Code, now: int)
    requires !c.isActive
    ensures !IsValid(c, now)
  {
  }

  /** A code without a use limit is never rejected for its number of uses, and a
      code without an end date is never rejected for being late. */
  lemma NullMeansUnlimited(c: Code, now: int, uses: int, later: int)
    requires c.maxUses.None? && c.endDate.None?
    requires now <= later
    ensures IsValid(c, now) ==> IsValid(c.(currentUses := uses), later)
  {
  }

  /** The start and end instants themselves are inside the validity window. */
  lemma BoundariesInclusive(c: Code)
    requires c.isActive && (c.maxUses.None? || c.currentUses < c.maxUses.value)
    ensures c.startDate.Some? && (c.endDate.None? || c.startDate.value <= c.endDate.value) ==>
      IsValid(c, c.startDate.value)
    ensures c.endDate.Some? && (c.startDate.None? || c.startDate.value <= c.endDate.value) ==>
      IsValid(c, c.endDate.value)
    ensures c.startDate.Some? ==> !IsValid(c, c.startDate.value - 1)
    ensures c.endDate.Some? ==> !IsValid(c, c.endDate.value + 1)
  {
  }

  /** More uses never make an invalid code valid, and neither does time passing
      once the end date is behind. */
  lemma InvalidStaysInvalid(c: Code, now: int, uses: int, later: int)
    requires !IsValid(c, now)
    requires uses >= c.currentUses
    requires later >= now
    requires c.endDate.Some? && now > c.endDate.value
    ensures !IsValid(c.(currentUses := uses), later)
  {
  }

  /** Using a code more never turns it from invalid to valid. */
  lemma UsesMonotone(c: Code, now: int, uses: int)
    requires uses >= c.currentUses
    ensures IsValid(c.(currentUses := uses), now) ==> IsValid(c, now)
  {
  }
}
