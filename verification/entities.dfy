/** The persisted rows, the tenant-scoped store that holds them, and the remote authorities the
    services consult. Timestamps and dates are integer milliseconds; money is a real number. */
module Entities {
  import opened Wrappers

  /** A prescribed treatment plan, `order` in the store. */
  datatype Order = Order(
    orderId: int,
    clientFk: int,
    companyFk: int,
    patientFk: int,
    treatmentFk: int,
    frequency: int,              // sessions per week
    diagnosis: Option<string>,
    updatedBy: int,
    deletedAt: Option<int>)

  /** One schedulable unit of sessions under an order, `order_detail` in the store. A numeric column
      the service never wrote is `None` (a database null). */
  datatype OrderDetail = OrderDetail(
    detailId: int,
    clientFk: int,
    orderFk: int,
    professionalFk: Option<int>,  // None: pending acceptance
    startDate: int,
    finishDate: int,
    totalSessions: Option<int>,
    sessions: Option<int>,
    coinsurance: Option<real>,
    value: Option<real>,
    cost: Option<real>,
    startedAt: Option<int>,
    finishedAt: Option<int>,      // Some: finalized
    requirements: Option<string>,
    updatedBy: int)

  /** A complaint raised against an order detail, `claim` in the store. The urgency level is an
      enumeration of the generated client and is kept as its name. */
  datatype Claim = Claim(
    claimId: int,
    clientFk: int,
    detailFk: int,
    cause: string,
    urgency: string,
    reportedDate: int,
    updatedBy: int,
    deletedAt: Option<int>)

  /** The three tables, keyed by their autoincrement identities, and the next identity of each. */
  datatype Store = Store(
    orders: map<int, Order>,
    details: map<int, OrderDetail>,
    claims: map<int, Claim>,
    nextOrderId: int,
    nextDetailId: int,
    nextClaimId: int)

  /** What the database guarantees: primary keys agree with the map keys and lie below the
      sequence, and every foreign key names an existing row. */
  predicate Valid(s: Store) {
    && 0 <= s.nextOrderId && 0 <= s.nextDetailId && 0 <= s.nextClaimId
    && (forall k :: k in s.orders ==> 0 <= k < s.nextOrderId && s.orders[k].orderId == k)
    && (forall k :: k in s.details ==>
          0 <= k < s.nextDetailId && s.details[k].detailId == k && s.details[k].orderFk in s.orders)
    && (forall k :: k in s.claims ==>
          0 <= k < s.nextClaimId && s.claims[k].claimId == k && s.claims[k].detailFk in s.details)
  }

  /** The fields of an order-detail create request as they reach a service. */
  datatype DetailInput = DetailInput(
    clientFk: Field<int>,         // overwritten with the tenant
    professionalFk: Field<int>,
    startDate: int,
    finishDate: int,
    totalSessions: Field<int>,
    sessions: Field<int>,
    coinsurance: Field<real>,
    value: Field<real>,
    cost: Field<real>,
    startedAt: Field<int>,
    finishedAt: Field<int>,
    requirements: Field<string>)

  /** The row `order_detail.create({ data })` writes from the input: every field as given, a left-out
      or null one as a null column, stamped with the tenant and the actor and linked to the order. */
  function NewDetailRow(id: int, tenant: int, orderId: int, updatedBy: int, data: DetailInput): (d: OrderDetail)
    ensures d.detailId == id && d.clientFk == tenant && d.orderFk == orderId && d.updatedBy == updatedBy
    ensures d.startDate == data.startDate && d.finishDate == data.finishDate
    ensures d.professionalFk == Stored(data.professionalFk) && d.requirements == Stored(data.requirements)
    ensures d.totalSessions == Stored(data.totalSessions) && d.sessions == Stored(data.sessions)
    ensures d.coinsurance == Stored(data.coinsurance) && d.value == Stored(data.value) && d.cost == Stored(data.cost)
    ensures d.startedAt == Stored(data.startedAt) && d.finishedAt == Stored(data.finishedAt)
  {
    OrderDetail(id, tenant, orderId, Stored(data.professionalFk), data.startDate, data.finishDate,
                Stored(data.totalSessions), Stored(data.sessions), Stored(data.coinsurance), Stored(data.value),
                Stored(data.cost), Stored(data.startedAt), Stored(data.finishedAt), Stored(data.requirements), updatedBy)
  }

  /** Inserting a row under the next identity of its table. */
  function InsertDetail(s: Store, d: OrderDetail): Store {
    s.(details := s.details[d.detailId := d], nextDetailId := d.detailId + 1)
  }

  /** Overwriting the row under a key in place; no other row and no sequence moves. */
  function PutDetail(s: Store, key: int, d: OrderDetail): Store {
    s.(details := s.details[key := d])
  }

  function InsertOrder(s: Store, o: Order): Store {
    s.(orders := s.orders[o.orderId := o], nextOrderId := o.orderId + 1)
  }

  function InsertClaim(s: Store, c: Claim): Store {
    s.(claims := s.claims[c.claimId := c], nextClaimId := c.claimId + 1)
  }

  function PutClaim(s: Store, key: int, c: Claim): Store {
    s.(claims := s.claims[key := c])
  }

  /** The outcome of an operation that may write: the store afterwards and the reply. */
  datatype Step<+T> = Step(store: Store, result: Result<T>)

  /** `coordinator.validate.coordinator`: (tenant, company, treatment, patient) to the reply's
      truthiness, or None when no reply arrives. */
  type CoordinatorCheck = (int, int, int, int) -> Option<bool>

  /** A price lookup keyed on (tenant, company, treatment): `Number(response.value)`, or None when
      the call fails. */
  type PriceLookup = (int, int, int) -> Option<real>

  /** A cost lookup keyed on (tenant, company, treatment, professional). The professional is the
      request's field as it stands, because one caller sends it even when the request has none: a
      left-out one is dropped from the message, while a null one is sent as null. */
  type CostLookup = (int, int, int, Field<int>) -> Option<real>

  /** `community.find.professional` on (client, professional): true when the call completed.
      The reply itself is never inspected. */
  type RelationCheck = (int, int) -> bool

  /** A criterion on one column of a filter: no constraint, `IS NULL`, or equality. */
  datatype Match<T> = Any | IsNull | Is(v: T)

  predicate Meets<T(==)>(x: Option<T>, m: Match<T>) {
    match m
    case Any => true
    case IsNull => x.None?
    case Is(v) => x == Some(v)
  }

  predicate MeetsKey(x: int, m: Option<int>) {
    m.None? || m.value == x
  }

  /** Order-detail criteria on the five columns the handlers and services constrain. `findAll`
      forwards whatever criteria its caller sends; criteria on other columns are not modelled. */
  datatype DetailFilter = DetailFilter(
    detailId: Option<int>,
    clientFk: Option<int>,
    orderFk: Option<int>,
    professionalFk: Match<int>,
    finishedAt: Match<int>)

  const NoDetailFilter := DetailFilter(None, None, None, Any, Any)

  predicate DetailMatches(d: OrderDetail, f: DetailFilter) {
    && MeetsKey(d.detailId, f.detailId)
    && MeetsKey(d.clientFk, f.clientFk)
    && MeetsKey(d.orderFk, f.orderFk)
    && Meets(d.professionalFk, f.professionalFk)
    && Meets(d.finishedAt, f.finishedAt)
  }

  /** Claim criteria on the four columns the claim service constrains; as for details, criteria on
      other columns are not modelled. */
  datatype ClaimFilter = ClaimFilter(
    claimId: Option<int>,
    clientFk: Option<int>,
    detailFk: Option<int>,
    deletedAt: Match<int>)

  predicate ClaimMatches(c: Claim, f: ClaimFilter) {
    && MeetsKey(c.claimId, f.claimId)
    && MeetsKey(c.clientFk, f.clientFk)
    && MeetsKey(c.detailFk, f.detailFk)
    && Meets(c.deletedAt, f.deletedAt)
  }

  /** `skip`/`take` of a list query; missing means no offset and no limit. */
  datatype Page = Page(skip: Option<nat>, take: Option<nat>)
}
