/** The order records the service receives from the store's REST API and from
    its order-created webhook, reduced to the fields the service reads. */
module Orders {
  import opened JsValues

  /** What `parseFloat(order.total)` yields: NaN, or an exact number (the
      binary floating-point rounding of the source is not modelled). */
  datatype Amount = NaN | Number(value: real)

  /** `order.date_created` as received: absent (`undefined`), `null`, the
      empty string, a string `Date` cannot parse, or one it parses to the
      given milliseconds since the epoch. */
  datatype Stamp = NoDate | NullDate | EmptyDate | BadDate | At(millis: int)

  /** `order.billing`: every field is whatever JSON value the store sent. */
  datatype Billing = Billing(
    firstName: JsValue,
    lastName: JsValue,
    email: JsValue,
    phone: JsValue,
    city: JsValue,
    state: JsValue)

  /** An order record; `billing` is `None` when the field is absent or null. */
  datatype Order = Order(id: JsValue, total: Amount, dateCreated: Stamp, billing: Option<Billing>)

  /** `parseFloat(order.total) || 0` */
  function Spent(a: Amount): real {
    if a.NaN? then 0.0 else a.value
  }

  /** A falsy `date_created`: absent, null or empty. */
  predicate FalsyStamp(d: Stamp) {
    d.NoDate? || d.NullDate? || d.EmptyDate?
  }

  /** `new Date(d || 0)` as a time value; `None` is an Invalid Date (NaN). */
  function TimeOrEpoch(d: Stamp): (t: Option<int>)
    ensures FalsyStamp(d) ==> t == Some(0)
    ensures t.None? <==> d.BadDate?
  {
    match d
    case At(ms) => Some(ms)
    case BadDate => None
    case _ => Some(0)
  }

  /** `new Date(d)` as a time value: unlike `new Date(d || 0)`, only `null`
      converts to the epoch; `undefined` and `""` are Invalid Dates. */
  function TimeOf(d: Stamp): (t: Option<int>)
    ensures t.Some? <==> d.NullDate? || d.At?
    ensures d.NullDate? ==> t == Some(0)
  {
    match d
    case At(ms) => Some(ms)
    case NullDate => Some(0)
    case _ => None
  }
}
