/** The `/customers/orders/:id` endpoint: the fetched orders whose email or
    phone equals the requested identity (ignoring case and surrounding white
    space), newest first. */
module CustomerOrders {
  import opened JsValues
  import opened Orders
  import opened Sequences

  /** `(v || "").trim()` does not throw: `v` is falsy or a string. */
  predicate Normalisable(v: JsValue) {
    !Truthy(v) || v.Str?
  }

  /** `(v || "").trim().toLowerCase()` for a normalisable `v`. */
  function Normalise(v: JsValue): string {
    if v.Str? then ToLower(Trim(v.s)) else ""
  }

  /** The filter callback runs without throwing: `o.billing` is an object
      and its email and phone are falsy or strings. */
  predicate Searchable(o: Order) {
    o.billing.Some? && Normalisable(o.billing.value.email) && Normalisable(o.billing.value.phone)
  }

  /** The filter callback: the normalised email or phone is `id`. */
  predicate Matches(o: Order, id: string) {
    o.billing.Some? && (Normalise(o.billing.value.email) == id || Normalise(o.billing.value.phone) == id)
  }

  function Matcher(id: string): Order -> bool {
    o => Matches(o, id)
  }

  /** The sort key of the comparator `new Date(b.date_created) - new
      Date(a.date_created)`: later orders rank lower, so they come first; an
      Invalid Date has no rank. */
  function NewestFirst(o: Order): Option<int> {
    var t := TimeOf(o.dateCreated);
    if t.Some? then Some(-t.value) else None
  }

  /** `decodeURIComponent(req.params.id).trim().toLowerCase()`, from the
      already decoded parameter. */
  function RequestedId(raw: string): string {
    ToLower(Trim(raw))
  }

  /** The handler body after `wc.get`: the matching orders, newest first, or
      a throw when some order has no billing object or a non-string truthy
      email or phone. */
  function FindOrders(orders: seq<Order>, raw: string): Completion<seq<Order>> {
    if forall o | o in orders :: Searchable(o)
    then Normal(SortBy(Filter(orders, Matcher(RequestedId(raw))), NewestFirst))
    else Throws
  }

  /** Trimming and lower-casing the requested identity again changes
      nothing. */
  lemma RequestedIdIdempotent(raw: string)
    ensures RequestedId(RequestedId(raw)) == RequestedId(raw)
  {
    TrimLower(Trim(raw));
    TrimIdempotent(raw);
    ToLowerIdempotent(Trim(raw));
  }

  /** The lookup ignores the case of the requested identity. */
  lemma LookupIgnoresCase(orders: seq<Order>, raw: string)
    ensures FindOrders(orders, ToLower(raw)) == FindOrders(orders, raw)
  {
    TrimLower(raw);
    ToLowerIdempotent(Trim(raw));
  }

  /** The lookup ignores white space around the requested identity, and a
      requested identity already trimmed and lower-cased is looked up as
      is. */
  lemma LookupNormalisedId(orders: seq<Order>, raw: string)
    ensures FindOrders(orders, Trim(raw)) == FindOrders(orders, raw)
    ensures FindOrders(orders, RequestedId(raw)) == FindOrders(orders, raw)
  {
    TrimIdempotent(raw);
    RequestedIdIdempotent(raw);
  }

  /** When no order makes the callback throw, the result holds exactly the
      matching orders, each as often as in the input. */
  lemma FindOrdersExact(orders: seq<Order>, raw: string)
    requires forall o | o in orders :: Searchable(o)
    ensures FindOrders(orders, raw).Normal?
    ensures var r, id := FindOrders(orders, raw).value, RequestedId(raw);
      && (forall o :: multiset(r)[o] == if Matches(o, id) then multiset(orders)[o] else 0)
      && (forall o :: o in r <==> o in orders && Matches(o, id))
  {
    var r, id := FindOrders(orders, raw).value, RequestedId(raw);
    SortMultiset(Filter(orders, Matcher(id)), NewestFirst);
    forall o ensures multiset(r)[o] == if Matches(o, id) then multiset(orders)[o] else 0 {
      FilterCount(orders, Matcher(id), o);
    }
    forall o ensures o in r <==> o in orders && Matches(o, id) {
      assert o in r <==> multiset(r)[o] > 0;
      assert o in orders <==> multiset(orders)[o] > 0;
    }
  }

  /** Sorting orders whose dates all parse puts them newest first. */
  lemma SortedNewestFirst(s: seq<Order>)
    requires forall i | 0 <= i < |s| :: TimeOf(s[i].dateCreated).Some?
    ensures forall i | 0 <= i < |SortBy(s, NewestFirst)| :: TimeOf(SortBy(s, NewestFirst)[i].dateCreated).Some?
    ensures forall i, j | 0 <= i < j < |SortBy(s, NewestFirst)| ::
      TimeOf(SortBy(s, NewestFirst)[j].dateCreated).value <= TimeOf(SortBy(s, NewestFirst)[i].dateCreated).value
  {
    SortByRank(s, NewestFirst);
    var r := SortBy(s, NewestFirst);
    forall i | 0 <= i < |r| ensures TimeOf(r[i].dateCreated).Some? {
      assert NewestFirst(r[i]).Some?;
    }
    forall i, j | 0 <= i < j < |r|
      ensures TimeOf(r[j].dateCreated).value <= TimeOf(r[i].dateCreated).value
    {
      assert NewestFirst(r[i]).value <= NewestFirst(r[j]).value;
    }
  }

  /** When every matching order's date parses, the result is ordered newest
      first; the comparator never sees the other orders. */
  lemma FindOrdersNewestFirst(orders: seq<Order>, raw: string)
    requires forall o | o in orders :: Searchable(o)
    requires forall o | o in orders && Matches(o, RequestedId(raw)) :: TimeOf(o.dateCreated).Some?
    ensures FindOrders(orders, raw).Normal?
    ensures forall i | 0 <= i < |FindOrders(orders, raw).value| ::
      TimeOf(FindOrders(orders, raw).value[i].dateCreated).Some?
    ensures forall i, j | 0 <= i < j < |FindOrders(orders, raw).value| ::
      TimeOf(FindOrders(orders, raw).value[j].dateCreated).value <= TimeOf(FindOrders(orders, raw).value[i].dateCreated).value
  {
    var matching := Filter(orders, Matcher(RequestedId(raw)));
    FilterMembers(orders, Matcher(RequestedId(raw)));
    assert forall i | 0 <= i < |matching| :: matching[i] in matching;
    SortedNewestFirst(matching);
  }

  /** When every matching order's date parses, matching orders with the same
      date keep their input order. */
  lemma FindOrdersStable(orders: seq<Order>, raw: string, v: Option<int>)
    requires forall o | o in orders :: Searchable(o)
    requires forall o | o in orders && Matches(o, RequestedId(raw)) :: TimeOf(o.dateCreated).Some?
    ensures FindOrders(orders, raw).Normal?
    ensures var matching := Filter(orders, Matcher(RequestedId(raw)));
      OfRank(FindOrders(orders, raw).value, NewestFirst, v) == OfRank(matching, NewestFirst, v)
  {
    var matching := Filter(orders, Matcher(RequestedId(raw)));
    FilterMembers(orders, Matcher(RequestedId(raw)));
    assert Ranked(matching, NewestFirst) by {
      assert forall i | 0 <= i < |matching| :: matching[i] in matching;
    }
    SortStable(matching, NewestFirst, v);
  }

  /** A blank identity finds every order whose email or phone is missing or
      blank. */
  lemma BlankIdFindsBlankContacts(orders: seq<Order>, raw: string)
    requires forall o | o in orders :: Searchable(o)
    requires Trim(raw) == ""
    ensures FindOrders(orders, raw).Normal?
    ensures forall o :: o in FindOrders(orders, raw).value <==>
      o in orders && (Normalise(o.billing.value.email) == "" || Normalise(o.billing.value.phone) == "")
  {
    FindOrdersExact(orders, raw);
    assert RequestedId(raw) == "";
  }

  /** Reading the email of an order without a billing object throws inside
      the filter, so one such order fails the whole lookup. */
  lemma MissingBillingFailsLookup(orders: seq<Order>, raw: string, i: nat)
    requires i < |orders| && orders[i].billing.None?
    ensures FindOrders(orders, raw).Throws?
  {
    assert orders[i] in orders;
  }
}
