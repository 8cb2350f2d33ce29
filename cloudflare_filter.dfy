/**
 * The provider's own decisions that involve no remote call: which planned
 * changes it lets through (`_include_change`) and the message its
 * authentication error carries. `Change` stands for octodns's change classes.
 */
module CloudflareFilter {
  import opened Wrappers
  import opened DnsRecord
  import opened CloudflareWire

  /** A planned change: `Create` (new only), `Update` (existing and new), `Delete` (existing only). */
  datatype Change =
    | Create(desired: Record)
    | Update(existing: Record, desired: Record)
    | Delete(existing: Record)

  /** `change.record`: the new record, or the existing one for a delete. */
  function ChangeRecord(c: Change): Record {
    match c
    case Create(d) => d
    case Update(_, d) => d
    case Delete(e) => e
  }

  /** Cloudflare does not let the root NS records be managed. */
  predicate IsRootNs(r: Record) {
    r.rtype == NS && r.name == ""
  }

  /** Record data with its TTL raised to the floor, as the service would store it. */
  function Clamped(d: RecordData): (c: RecordData)
    ensures c.values == d.values && c.ttl >= MIN_TTL && c.ttl >= d.ttl
    ensures d.ttl >= MIN_TTL ==> c == d
    ensures d.ttl < MIN_TTL ==> c == RecordData(MIN_TTL, d.values)
  {
    RecordData(Max(MIN_TTL, d.ttl), d.values)
  }

  /**
   * `_include_change`: root NS changes are dropped, an update whose only
   * difference is a TTL below the floor is dropped, and every other change is
   * left to the base provider's decision `basePolicy`.
   */
  function IncludeChange(change: Change, basePolicy: bool): (r: bool)
    ensures r ==> basePolicy
    ensures IsRootNs(ChangeRecord(change)) ==> !r
    ensures change.Update? && Clamped(change.desired.data) == change.existing.data ==> !r
    ensures !IsRootNs(ChangeRecord(change)) && !(change.Update? && Clamped(change.desired.data) == change.existing.data)
      ==> r == basePolicy
  {
    if IsRootNs(ChangeRecord(change)) then false
    else if change.Update? && Clamped(change.desired.data) == change.existing.data then false
    else basePolicy
  }

  /**
   * An update that only lowers the TTL below the floor, against a record the
   * service already holds at the floor, is not planned: the service would
   * clamp it back and the change would be planned on every run.
   */
  lemma BelowFloorTtlExcluded(existing: Record, desired: Record, basePolicy: bool)
    requires desired.data.values == existing.data.values
    requires desired.data.ttl < MIN_TTL && existing.data.ttl == MIN_TTL
    ensures !IncludeChange(Update(existing, desired), basePolicy)
  {
  }

  /** A TTL change at or above the floor is left to the base decision (outside root NS). */
  lemma TtlChangeDelegated(existing: Record, desired: Record, basePolicy: bool)
    requires !IsRootNs(desired)
    requires desired.data.ttl >= MIN_TTL && desired.data.ttl != existing.data.ttl
    ensures IncludeChange(Update(existing, desired), basePolicy) == basePolicy
  {
  }

  /**
   * Lowering the TTL below the floor is still a change when the record is
   * held below the floor too (60 against 90 is planned, 60 against 120 is not).
   */
  lemma BelowFloorAgainstLowerTtl(existing: Record, desired: Record, basePolicy: bool)
    requires !IsRootNs(desired) && desired.data.ttl < MIN_TTL && existing.data.ttl < MIN_TTL
    ensures IncludeChange(Update(existing, desired), basePolicy) == basePolicy
  {
  }

  /** A change of values is left to the base decision (outside root NS). */
  lemma ValueChangeDelegated(existing: Record, desired: Record, basePolicy: bool)
    requires !IsRootNs(desired) && desired.data.values != existing.data.values
    ensures IncludeChange(Update(existing, desired), basePolicy) == basePolicy
  {
  }

  /** The response body of a 403: an optional list of errors, each with an optional message. */
  datatype ErrorEntry = ErrorEntry(message: Option<string>)
  datatype ErrorBody = ErrorBody(errors: Option<seq<ErrorEntry>>)

  const DEFAULT_AUTH_MESSAGE: string := "Authentication error"

  /**
   * `CloudflareAuthenticationError`: the first error's message, or the default
   * when the list is missing, empty, or its first entry has no message.
   */
  function AuthErrorMessage(body: ErrorBody): (m: string)
    ensures body.errors.Some? && |body.errors.value| > 0 && body.errors.value[0].message.Some? ==>
      m == body.errors.value[0].message.value
    ensures body.errors.None? || |body.errors.value| == 0 || body.errors.value[0].message.None? ==>
      m == DEFAULT_AUTH_MESSAGE
  {
    match body.errors
    case None => DEFAULT_AUTH_MESSAGE
    case Some(es) =>
      if |es| == 0 then DEFAULT_AUTH_MESSAGE
      else
        match es[0].message
        case None => DEFAULT_AUTH_MESSAGE
        case Some(msg) => msg
  }
}
