/**
  The subscription record as stored in the `subscriptions` table, with its two
  closed enumerations. Identifiers and references to other tables other than
  the record's own id are omitted; `next_bill_date` is the timestamp, in
  milliseconds, that the stored calendar date denotes.
*/
module Types {
  import opened Wrappers

  /** How often a subscription bills. */
  datatype Cadence = Daily | Weekly | Monthly | Quarterly | Annual

  datatype Status = Active | Paused | Cancelled | Trial

  datatype Subscription = Subscription(
    id: string,
    serviceName: string,
    planName: Option<string>,
    price: real,
    currency: string,
    cadence: Cadence,
    nextBillDate: int,
    status: Status,
    verified: bool)

  /** The name under which the store spells a cadence. */
  function CadenceName(c: Cadence): string
  {
    match c
    case Daily => "daily"
    case Weekly => "weekly"
    case Monthly => "monthly"
    case Quarterly => "quarterly"
    case Annual => "annual"
  }

  /** Reads a stored cadence string; `None` for any string outside the enumeration. */
  function ParseCadence(s: string): (r: Option<Cadence>)
    ensures r.Some? ==> CadenceName(r.value) == s
    ensures r.None? ==> forall c: Cadence :: CadenceName(c) != s
  {
    if s == "daily" then Some(Daily)
    else if s == "weekly" then Some(Weekly)
    else if s == "monthly" then Some(Monthly)
    else if s == "quarterly" then Some(Quarterly)
    else if s == "annual" then Some(Annual)
    else None
  }

  /** Every cadence's name reads back as that cadence. */
  lemma CadenceRoundTrip(c: Cadence)
    ensures ParseCadence(CadenceName(c)) == Some(c)
  {
    match c
    case Daily =>
    case Weekly =>
    case Monthly =>
    case Quarterly =>
    case Annual =>
  }

  function StatusName(s: Status): string
  {
    match s
    case Active => "active"
    case Paused => "paused"
    case Cancelled => "cancelled"
    case Trial => "trial"
  }

  /** Distinct statuses have distinct names, so comparing names compares statuses. */
  lemma StatusNameInjective(a: Status, b: Status)
    ensures StatusName(a) == StatusName(b) <==> a == b
  {
  }
}
