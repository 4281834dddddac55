/** The `/customers` endpoint: one pass over the fetched orders builds a
    dictionary of customer profiles keyed by contact identity, which is then
    emitted with the spent total rounded to cents. */
module Customers {
  import opened JsValues
  import opened Orders
  import opened Sequences

  /** One entry of the `customers` dictionary. `totalSpent` is the running,
      unrounded sum during the pass and the rounded figure once emitted. */
  datatype Customer = Customer(
    id: string,
    name: string,
    email: Option<string>,
    phone: Option<string>,
    city: JsValue,
    state: JsValue,
    totalOrders: nat,
    totalSpent: real,
    lastOrderDate: Stamp)

  /** `order.billing || {}` */
  function BillingOf(o: Order): Billing {
    if o.billing.Some? then o.billing.value
    else Billing(Undefined, Undefined, Undefined, Undefined, Undefined, Undefined)
  }

  /** `v?.trim()` does not throw: `v` is nullish or a string. */
  predicate Trimmable(v: JsValue) {
    v.Undefined? || v.Null? || v.Str?
  }

  /** `v?.trim() || null` for a trimmable `v`: the trimmed text when it is
      not empty. */
  function Contact(v: JsValue): Option<string> {
    if v.Str? && Trim(v.s) != "" then Some(Trim(v.s)) else None
  }

  /** Neither contact field of the order makes `trim` throw. */
  predicate Readable(o: Order) {
    Trimmable(BillingOf(o).phone) && Trimmable(BillingOf(o).email)
  }

  predicate AllReadable(orders: seq<Order>) {
    forall o | o in orders :: Readable(o)
  }

  /** The identity key, `phone || email`: the trimmed phone when it is not
      empty, otherwise the trimmed email when that is not empty. */
  function KeyOf(o: Order): (r: Option<string>)
    ensures r.Some? ==> r.value != "" && Trim(r.value) == r.value
  {
    var b := BillingOf(o);
    TrimIdempotent(if b.phone.Str? then b.phone.s else "");
    TrimIdempotent(if b.email.Str? then b.email.s else "");
    var phone := Contact(b.phone);
    if phone.Some? then phone else Contact(b.email)
  }

  /** `${first_name || ""} ${last_name || ""}`.trim() */
  function NameOf(b: Billing): string {
    Trim(Render(Or(b.firstName, Str(""))) + " " + Render(Or(b.lastName, Str(""))))
  }

  /** How a profile stores its first order's date: `order.date_created || null`. */
  function FirstDate(d: Stamp): Stamp {
    if FalsyStamp(d) then NullDate else d
  }

  /** `new Date(d || 0) > new Date(than || 0)`; a comparison with NaN is false. */
  predicate Later(d: Stamp, than: Stamp) {
    TimeOrEpoch(d).Some? && TimeOrEpoch(than).Some? && TimeOrEpoch(d).value > TimeOrEpoch(than).value
  }

  /** The profile created by the first order seen with key `k`. */
  function Open(o: Order, k: string): (c: Customer)
    ensures c.id == k && c.totalOrders == 1 && c.totalSpent == Spent(o.total)
  {
    var b := BillingOf(o);
    Customer(k, NameOf(b), Contact(b.email), Contact(b.phone), Or(b.city, Str("")), Or(b.state, Str("")),
             1, Spent(o.total), FirstDate(o.dateCreated))
  }

  /** The profile after a later order with the same key. */
  function Merge(c: Customer, o: Order): (c': Customer)
    ensures c'.id == c.id && c'.name == c.name && c'.phone == c.phone && c'.city == c.city && c'.state == c.state
    ensures c'.totalOrders == c.totalOrders + 1 && c'.totalSpent == c.totalSpent + Spent(o.total)
  {
    var email := Contact(BillingOf(o).email);
    c.(totalOrders := c.totalOrders + 1,
       totalSpent := c.totalSpent + Spent(o.total),
       email := if email.Some? && email != c.email then email else c.email,
       lastOrderDate := if Later(o.dateCreated, c.lastOrderDate) then o.dateCreated else c.lastOrderDate)
  }

  /** The `customers` object: its own keys in insertion order and its entries. */
  datatype Book = Book(keys: seq<string>, entries: map<string, Customer>)

  /** Each key is listed once, exactly the keys with an entry are listed, and
      every entry is filed under its own id. */
  ghost predicate WellFormed(b: Book) {
    && (forall k :: multiset(b.keys)[k] == if k in b.entries then 1 else 0)
    && (forall k | k in b.entries :: b.entries[k].id == k)
  }

  /** One iteration of the `forEach` over the orders. */
  function Step(b: Book, o: Order): Book {
    match KeyOf(o)
    case None => b
    case Some(k) =>
      if k in b.entries then Book(b.keys, b.entries[k := Merge(b.entries[k], o)])
      else Book(b.keys + [k], b.entries[k := Open(o, k)])
  }

  /** The dictionary after the whole pass over `orders`. */
  function Accumulate(orders: seq<Order>): Book {
    if orders == [] then Book([], map[])
    else Step(Accumulate(orders[..|orders| - 1]), orders[|orders| - 1])
  }

  /** Every pass leaves the dictionary well formed. */
  lemma {:induction false} AccumulateWellFormed(orders: seq<Order>)
    ensures WellFormed(Accumulate(orders))
  {
    if orders != [] {
      AccumulateWellFormed(orders[..|orders| - 1]);
      StepWellFormed(Accumulate(orders[..|orders| - 1]), orders[|orders| - 1]);
    }
  }

  lemma StepWellFormed(b: Book, o: Order)
    requires WellFormed(b)
    ensures WellFormed(Step(b, o))
  {
    if KeyOf(o).Some? && KeyOf(o).value !in b.entries {
      var k := KeyOf(o).value;
      assert multiset(b.keys + [k]) == multiset(b.keys) + multiset{k};
    }
  }

  lemma AccumulateNext(orders: seq<Order>, i: nat)
    requires i < |orders|
    ensures Accumulate(orders[..i + 1]) == Step(Accumulate(orders[..i]), orders[i])
  {
    assert orders[..i + 1][..i] == orders[..i];
  }

  /** `(x).toFixed(2)` as a count of cents: the nearest whole number of
      cents, a tie going away from zero. */
  function Cents(x: real): (n: int)
    ensures x >= 0.0 ==> n as real - 0.5 <= x * 100.0 < n as real + 0.5
    ensures x < 0.0 ==> n as real - 0.5 < x * 100.0 <= n as real + 0.5
  {
    if x >= 0.0 then (x * 100.0 + 0.5).Floor else -((-x * 100.0 + 0.5).Floor)
  }

  /** `Number(x.toFixed(2))`: a whole number of cents, within half a cent of
      `x`. */
  function Round2(x: real): (r: real)
    ensures r * 100.0 == (r * 100.0).Floor as real
    ensures -0.005 <= r - x <= 0.005
  {
    var n := Cents(x);
    assert (n as real / 100.0) * 100.0 == n as real;
    n as real / 100.0
  }

  /** The emitted profile: `{ ...c, totalSpent: Number(c.totalSpent.toFixed(2)) }`. */
  function Finish(c: Customer): Customer {
    c.(totalSpent := Round2(c.totalSpent))
  }

  /** A canonical array index ("0" to "4294967294" without leading zeros):
      the own keys of an object that are enumerated first, in numeric order. */
  predicate IsArrayIndex(k: string) {
    && |k| > 0
    && (forall i | 0 <= i < |k| :: '0' <= k[i] <= '9')
    && (k[0] != '0' || |k| == 1)
    && DecimalValue(k) < 0xFFFF_FFFF
  }

  predicate IsNamedKey(k: string) {
    !IsArrayIndex(k)
  }

  function IndexRank(k: string): Option<int> {
    Some(DecimalValue(k))
  }

  /** The order in which `Object.values` visits the keys: array indices in
      ascending numeric order, then the other keys in insertion order. */
  function PropertyOrder(keys: seq<string>): seq<string> {
    SortBy(Filter(keys, IsArrayIndex), IndexRank) + Filter(keys, IsNamedKey)
  }

  /** `Object.values` visits every own key once. */
  lemma PropertyOrderPermutes(keys: seq<string>)
    ensures multiset(PropertyOrder(keys)) == multiset(keys)
  {
    var indices, named := Filter(keys, IsArrayIndex), Filter(keys, IsNamedKey);
    SortMultiset(indices, IndexRank);
    forall x ensures multiset(PropertyOrder(keys))[x] == multiset(keys)[x] {
      FilterCount(keys, IsArrayIndex, x);
      FilterCount(keys, IsNamedKey, x);
    }
  }

  /** The sorted array-index keys are array indices in ascending order. */
  lemma IndicesAscending(indices: seq<string>)
    requires forall i | 0 <= i < |indices| :: IsArrayIndex(indices[i])
    ensures forall i | 0 <= i < |SortBy(indices, IndexRank)| :: IsArrayIndex(SortBy(indices, IndexRank)[i])
    ensures forall i, j | 0 <= i < j < |SortBy(indices, IndexRank)| ::
      DecimalValue(SortBy(indices, IndexRank)[i]) <= DecimalValue(SortBy(indices, IndexRank)[j])
  {
    SortByRank(indices, IndexRank);
    SortMembers(indices, IndexRank);
  }

  /** Array-index keys come before every other key, in ascending numeric
      order; the other keys keep their insertion order. */
  lemma PropertyOrderShape(keys: seq<string>)
    ensures var r := PropertyOrder(keys);
      forall i, j | 0 <= i < j < |r| && IsArrayIndex(r[j]) :: IsArrayIndex(r[i]) && DecimalValue(r[i]) <= DecimalValue(r[j])
    ensures var r := PropertyOrder(keys);
      r[|r| - |Filter(keys, IsNamedKey)|..] == Filter(keys, IsNamedKey)
  {
    var sorted, named := SortBy(Filter(keys, IsArrayIndex), IndexRank), Filter(keys, IsNamedKey);
    var r := PropertyOrder(keys);
    assert r == sorted + named;
    FilterMembers(keys, IsArrayIndex);
    assert forall i | 0 <= i < |Filter(keys, IsArrayIndex)| :: Filter(keys, IsArrayIndex)[i] in Filter(keys, IsArrayIndex);
    IndicesAscending(Filter(keys, IsArrayIndex));
    FilterMembers(keys, IsNamedKey);
    forall t | |sorted| <= t < |r| ensures !IsArrayIndex(r[t]) {
      assert r[t] == named[t - |sorted|] && r[t] in named;
    }
    forall i, j | 0 <= i < j < |r| && IsArrayIndex(r[j])
      ensures IsArrayIndex(r[i]) && DecimalValue(r[i]) <= DecimalValue(r[j])
    {
      assert j < |sorted|;
      assert r[i] == sorted[i] && r[j] == sorted[j];
    }
  }

  /** Every key `Object.values` visits has an entry. */
  lemma OrderedKeysFiled(b: Book)
    requires WellFormed(b)
    ensures |PropertyOrder(b.keys)| == |b.keys|
    ensures forall i | 0 <= i < |PropertyOrder(b.keys)| :: PropertyOrder(b.keys)[i] in b.entries
  {
    var ks := PropertyOrder(b.keys);
    PropertyOrderPermutes(b.keys);
    assert forall i | 0 <= i < |ks| :: ks[i] in multiset(b.keys);
  }

  /** The rounded entries filed under `ks`, in that order. */
  function Profiles(entries: map<string, Customer>, ks: seq<string>): (cs: seq<Customer>)
    requires forall i | 0 <= i < |ks| :: ks[i] in entries
    ensures |cs| == |ks|
  {
    seq(|ks|, i requires 0 <= i < |ks| => Finish(entries[ks[i]]))
  }

  /** `Object.values(customerMap)` with `totalSpent` rounded to cents. */
  function Emit(b: Book): (cs: seq<Customer>)
    requires WellFormed(b)
    ensures |cs| == |b.keys|
  {
    OrderedKeysFiled(b);
    Profiles(b.entries, PropertyOrder(b.keys))
  }

  /** The `forEach` callback for one order whose contact fields can be
      trimmed: it updates the dictionary exactly as `Step` describes. */
  method VisitOrder(keys: seq<string>, customers: map<string, Customer>, order: Order)
    returns (keys': seq<string>, customers': map<string, Customer>)
    requires Readable(order)
    ensures Book(keys', customers') == Step(Book(keys, customers), order)
  {
    keys', customers' := keys, customers;
    var billing := BillingOf(order);
    var phone := Contact(billing.phone);
    var email := Contact(billing.email);
    var key := if phone.Some? then phone else email;
    assert key == KeyOf(order);
    if key.None? {
      return;
    }
    var k := key.value;
    if k !in customers {
      customers' := customers[k := Open(order, k)];
      keys' := keys + [k];
    } else {
      var c := customers[k];
      c := c.(totalOrders := c.totalOrders + 1, totalSpent := c.totalSpent + Spent(order.total));
      if email.Some? && email != c.email {
        c := c.(email := email);
      }
      if Later(order.dateCreated, c.lastOrderDate) {
        c := c.(lastOrderDate := order.dateCreated);
      }
      assert c == Merge(customers[k], order);
      customers' := customers[k := c];
    }
  }

  /** The `/customers` handler body after `wc.get`: the `forEach` pass and the
      emission. It throws (and the route answers 500) when some order's phone
      or email is a non-string value `trim` cannot be called on. */
  method AggregateCustomers(orders: seq<Order>) returns (r: Completion<seq<Customer>>)
    ensures r == if AllReadable(orders)
                 then AccumulateWellFormed(orders); Normal(Emit(Accumulate(orders)))
                 else Throws
  {
    var keys: seq<string> := [];
    var customers: map<string, Customer> := map[];
    var i := 0;
    while i < |orders|
      invariant 0 <= i <= |orders|
      invariant AllReadable(orders[..i])
      invariant Book(keys, customers) == Accumulate(orders[..i])
    {
      var order := orders[i];
      if !Readable(order) {
        assert order in orders;
        return Throws;
      }
      AccumulateNext(orders, i);
      keys, customers := VisitOrder(keys, customers, order);
      assert orders[..i + 1] == orders[..i] + [order];
      i := i + 1;
    }
    assert orders[..i] == orders;
    AccumulateWellFormed(orders);
    return Normal(Emit(Book(keys, customers)));
  }

  /** Whether an order is keyed `k`. */
  function KeyIs(k: string): Order -> bool {
    o => KeyOf(o) == Some(k)
  }

  /** The orders keyed `k`, in input order. */
  function Group(orders: seq<Order>, k: string): seq<Order> {
    Filter(orders, KeyIs(k))
  }

  /** The sum of `parseFloat(total) || 0`, added up left to right. */
  function SumSpent(g: seq<Order>): real {
    if g == [] then 0.0 else SumSpent(g[..|g| - 1]) + Spent(g[|g| - 1].total)
  }

  /** The non-empty trimmed email of the last order that has one. */
  function LastEmail(g: seq<Order>): Option<string> {
    if g == [] then None
    else
      var e := Contact(BillingOf(g[|g| - 1]).email);
      if e.Some? then e else LastEmail(g[..|g| - 1])
  }

  /** `c` is the profile of the orders `g` keyed `k` (with `spent` as its
      total): one order counted per order in `g`; name, phone, city and state
      from the first of them; the email of the last of them that has one. */
  predicate Summarises(c: Customer, k: string, g: seq<Order>, spent: real) {
    && g != []
    && c.id == k
    && c.totalOrders == |g|
    && c.totalSpent == spent
    && c.name == NameOf(BillingOf(g[0]))
    && c.phone == Contact(BillingOf(g[0]).phone)
    && c.city == Or(BillingOf(g[0]).city, Str(""))
    && c.state == Or(BillingOf(g[0]).state, Str(""))
    && c.email == LastEmail(g)
  }

  /** After the pass, exactly the keys of some order have a profile, and each
      profile summarises the orders with its key; orders of other keys, and
      orders without a key, play no part in it. */
  lemma {:induction false} AccumulateGroups(orders: seq<Order>, k: string)
    ensures k in Accumulate(orders).entries <==> Group(orders, k) != []
    ensures k in Accumulate(orders).entries ==>
      Summarises(Accumulate(orders).entries[k], k, Group(orders, k), SumSpent(Group(orders, k)))
  {
    if orders != [] {
      var init, o := orders[..|orders| - 1], orders[|orders| - 1];
      AccumulateGroups(init, k);
      var g0 := Group(init, k);
      if KeyOf(o) == Some(k) {
        var g := g0 + [o];
        assert Group(orders, k) == g;
        assert g[..|g| - 1] == g0;
        if g0 != [] {
          assert g[0] == g0[0];
        }
      } else {
        assert Group(orders, k) == g0;
      }
    }
  }

  /** The time the date comparison gives an order, `None` for NaN. */
  function TimeOfOrder(o: Order): Option<int> {
    TimeOrEpoch(o.dateCreated)
  }

  /** Order `w` of `g` is the first one whose parsable date is the largest,
      and `d` is its date as stored (the first order's through `|| null`). */
  predicate FirstLatest(d: Stamp, g: seq<Order>, w: nat)
    requires w < |g|
  {
    && TimeOfOrder(g[w]).Some?
    && d == (if w == 0 then FirstDate(g[0].dateCreated) else g[w].dateCreated)
    && (forall i | 0 <= i < |g| && TimeOfOrder(g[i]).Some? :: TimeOfOrder(g[i]).value <= TimeOfOrder(g[w]).value)
    && (forall i | 0 <= i < w && TimeOfOrder(g[i]).Some? :: TimeOfOrder(g[i]).value < TimeOfOrder(g[w]).value)
  }

  /** `d` is the date the pass keeps for the orders `g`: an unparsable first
      date is kept for good; otherwise the date of the earliest order whose
      time is the largest, a missing date counting as the epoch and an
      unparsable one never winning. */
  predicate LatestOf(d: Stamp, g: seq<Order>) {
    && g != []
    && (g[0].dateCreated.BadDate? ==> d == BadDate)
    && (!g[0].dateCreated.BadDate? ==> exists w | 0 <= w < |g| :: FirstLatest(d, g, w))
  }

  /** At most one date is the kept one. */
  lemma LatestOfUnique(d: Stamp, d': Stamp, g: seq<Order>)
    requires LatestOf(d, g) && LatestOf(d', g)
    ensures d == d'
  {
    if !g[0].dateCreated.BadDate? {
      var w :| 0 <= w < |g| && FirstLatest(d, g, w);
      var w' :| 0 <= w' < |g| && FirstLatest(d', g, w');
      assert TimeOfOrder(g[w']).value <= TimeOfOrder(g[w]).value;
      assert TimeOfOrder(g[w]).value <= TimeOfOrder(g[w']).value;
      assert w == w';
    }
  }

  /** A new profile's date is the kept date of its one order. */
  lemma OpenLatest(o: Order, k: string)
    ensures LatestOf(Open(o, k).lastOrderDate, [o])
  {
    if !o.dateCreated.BadDate? {
      assert FirstLatest(Open(o, k).lastOrderDate, [o], 0);
    }
  }

  /** The stored date compares like the winning order's own date. */
  lemma StoredTime(d: Stamp, g: seq<Order>, w: nat)
    requires w < |g| && FirstLatest(d, g, w)
    ensures TimeOrEpoch(d) == TimeOfOrder(g[w])
  {
  }

  /** Keeping the stored date unless the new one is strictly later keeps
      the kept date of the grown group. */
  lemma MergeLatest(c: Customer, g: seq<Order>, o: Order)
    requires LatestOf(c.lastOrderDate, g)
    ensures LatestOf(Merge(c, o).lastOrderDate, g + [o])
  {
    var g' := g + [o];
    var d, d' := c.lastOrderDate, Merge(c, o).lastOrderDate;
    assert g'[0] == g[0];
    assert forall i | 0 <= i < |g| :: g'[i] == g[i];
    assert g'[|g|] == o;
    if g[0].dateCreated.BadDate? {
      assert d' == d;
    } else {
      var w :| 0 <= w < |g| && FirstLatest(d, g, w);
      StoredTime(d, g, w);
      if Later(o.dateCreated, d) {
        assert d' == o.dateCreated;
        assert FirstLatest(d', g', |g|);
      } else {
        assert d' == d;
        assert FirstLatest(d', g', w);
      }
    }
  }

  /** The stored `lastOrderDate` of every profile is a latest date of its
      orders. */
  lemma {:induction false} LastOrderDateIsLatest(orders: seq<Order>, k: string)
    requires Group(orders, k) != []
    ensures k in Accumulate(orders).entries
    ensures LatestOf(Accumulate(orders).entries[k].lastOrderDate, Group(orders, k))
  {
    AccumulateGroups(orders, k);
    var init, o := orders[..|orders| - 1], orders[|orders| - 1];
    var g0 := Group(init, k);
    AccumulateGroups(init, k);
    if KeyOf(o) != Some(k) {
      assert Group(orders, k) == g0;
      LastOrderDateIsLatest(init, k);
    } else if g0 == [] {
      assert Group(orders, k) == [o];
      OpenLatest(o, k);
    } else {
      assert Group(orders, k) == g0 + [o];
      LastOrderDateIsLatest(init, k);
      MergeLatest(Accumulate(init).entries[k], g0, o);
    }
  }

  /** An order without a key changes nothing, wherever it sits in the batch. */
  lemma {:induction false} KeylessOrderIgnored(a: seq<Order>, o: Order, b: seq<Order>)
    requires KeyOf(o).None?
    ensures Accumulate(a + [o] + b) == Accumulate(a + b)
  {
    if b == [] {
      assert a + [o] + b == a + [o];
      assert (a + [o])[..|a|] == a;
      assert Accumulate(a + [o]) == Step(Accumulate(a), o);
      assert a + b == a;
    } else {
      var b', last := b[..|b| - 1], b[|b| - 1];
      KeylessOrderIgnored(a, o, b');
      var long, short := a + [o] + b, a + b;
      assert long[..|long| - 1] == a + [o] + b' && long[|long| - 1] == last;
      assert short[..|short| - 1] == a + b' && short[|short| - 1] == last;
      assert Accumulate(long) == Step(Accumulate(a + [o] + b'), last);
      assert Accumulate(short) == Step(Accumulate(a + b'), last);
    }
  }

  /** The identity keys of a sequence of profiles. */
  function Ids(cs: seq<Customer>): seq<string> {
    seq(|cs|, i requires 0 <= i < |cs| => cs[i].id)
  }

  /** The emitted profiles are the dictionary's entries, rounded, in the
      order `Object.values` visits their keys. */
  lemma EmitShape(b: Book)
    requires WellFormed(b)
    ensures Ids(Emit(b)) == PropertyOrder(b.keys)
    ensures forall i | 0 <= i < |Emit(b)| :: Emit(b)[i].id in b.entries && Emit(b)[i] == Finish(b.entries[Emit(b)[i].id])
  {
    var ks := PropertyOrder(b.keys);
    OrderedKeysFiled(b);
    var cs := Profiles(b.entries, ks);
    assert Emit(b) == cs;
    forall i | 0 <= i < |cs|
      ensures cs[i].id == ks[i]
    {
    }
    assert Ids(cs) == ks;
  }

  /** The `/customers` result holds one profile per key that some order
      carries and none for any other string. */
  lemma AggregateOnePerKey(orders: seq<Order>)
    ensures WellFormed(Accumulate(orders))
    ensures forall k :: multiset(Ids(Emit(Accumulate(orders))))[k] == if Group(orders, k) != [] then 1 else 0
  {
    AccumulateWellFormed(orders);
    var b := Accumulate(orders);
    EmitShape(b);
    PropertyOrderPermutes(b.keys);
    forall k ensures multiset(Ids(Emit(b)))[k] == if Group(orders, k) != [] then 1 else 0 {
      AccumulateGroups(orders, k);
    }
  }

  /** The emitted profile of key `k` counts, sums (rounded to cents once, at
      the end), names and dates exactly the orders with that key. */
  lemma FinishedProfile(orders: seq<Order>, k: string)
    requires k in Accumulate(orders).entries
    ensures var g := Group(orders, k);
      Summarises(Finish(Accumulate(orders).entries[k]), k, g, Round2(SumSpent(g)))
    ensures LatestOf(Finish(Accumulate(orders).entries[k]).lastOrderDate, Group(orders, k))
  {
    AccumulateGroups(orders, k);
    LastOrderDateIsLatest(orders, k);
  }

  /** Every emitted profile summarises the orders with its key. */
  lemma AggregateProfiles(orders: seq<Order>)
    ensures WellFormed(Accumulate(orders))
    ensures forall i | 0 <= i < |Emit(Accumulate(orders))| ::
      Summarises(Emit(Accumulate(orders))[i], Emit(Accumulate(orders))[i].id,
                 Group(orders, Emit(Accumulate(orders))[i].id),
                 Round2(SumSpent(Group(orders, Emit(Accumulate(orders))[i].id))))
    ensures forall i | 0 <= i < |Emit(Accumulate(orders))| ::
      LatestOf(Emit(Accumulate(orders))[i].lastOrderDate, Group(orders, Emit(Accumulate(orders))[i].id))
  {
    AccumulateWellFormed(orders);
    var b := Accumulate(orders);
    var cs := Emit(b);
    EmitShape(b);
    forall i | 0 <= i < |cs|
      ensures Summarises(cs[i], cs[i].id, Group(orders, cs[i].id), Round2(SumSpent(Group(orders, cs[i].id))))
      ensures LatestOf(cs[i].lastOrderDate, Group(orders, cs[i].id))
    {
      FinishedProfile(orders, cs[i].id);
    }
  }

  /** Two orders from the same phone, for 10.00 and then 5.25 at a later
      time (both sums are exact in binary floating point). */
  function SamePhoneOrders(d1: int, d2: int): seq<Order> {
    var b := Billing(Undefined, Undefined, Undefined, Str("+1-555"), Undefined, Undefined);
    [Order(Num(1), Number(10.0), At(d1), Some(b)), Order(Num(2), Number(5.25), At(d2), Some(b))]
  }

  lemma SamePhoneBook(d1: int, d2: int)
    ensures var os, k := SamePhoneOrders(d1, d2), "+1-555";
      Accumulate(os) == Book([k], map[k := Merge(Open(os[0], k), os[1])])
  {
    var os, k := SamePhoneOrders(d1, d2), "+1-555";
    assert Trim(k) == k;
    assert KeyOf(os[0]) == Some(k) && KeyOf(os[1]) == Some(k);
    assert os[..1][..0] == [];
    assert Accumulate(os[..1][..0]) == Book([], map[]);
    assert Accumulate(os[..1]) == Book([k], map[k := Open(os[0], k)]);
    assert os[..|os| - 1] == os[..1];
  }

  /** A lone key that is not an array index is visited alone. */
  lemma NamedKeyAlone(k: string)
    requires !IsArrayIndex(k)
    ensures PropertyOrder([k]) == [k]
  {
    assert [k][..0] == [];
    assert Filter([k], IsArrayIndex) == [];
    assert Filter([k], IsNamedKey) == [k];
  }

  /** A dictionary with one key that is not an array index emits just that
      profile. */
  lemma EmitSingle(k: string, c: Customer)
    requires c.id == k && !IsArrayIndex(k)
    ensures WellFormed(Book([k], map[k := c]))
    ensures Emit(Book([k], map[k := c])) == [Finish(c)]
  {
    var b := Book([k], map[k := c]);
    assert forall x :: multiset(b.keys)[x] == if x == k then 1 else 0;
    NamedKeyAlone(k);
    assert |Emit(b)| == 1;
  }

  /** They make one profile of two orders worth 15.25, dated by the second. */
  lemma SamePhoneExample(d1: int, d2: int)
    requires d1 < d2
    ensures WellFormed(Accumulate(SamePhoneOrders(d1, d2)))
    ensures var cs := Emit(Accumulate(SamePhoneOrders(d1, d2)));
      && |cs| == 1
      && cs[0].id == "+1-555" && cs[0].totalOrders == 2 && cs[0].totalSpent == 15.25
      && cs[0].lastOrderDate == At(d2)
  {
    var os, k := SamePhoneOrders(d1, d2), "+1-555";
    SamePhoneBook(d1, d2);
    var c := Merge(Open(os[0], k), os[1]);
    assert Later(At(d2), At(d1));
    assert c.totalOrders == 2 && c.totalSpent == 15.25 && c.lastOrderDate == At(d2);
    assert !IsArrayIndex(k);
    EmitSingle(k, c);
    assert Cents(15.25) == 1525;
  }
}
