/** The order-detail service: tenant-scoped creation, lookup, update, finalization, professional
    acceptance, session increment and the professional-facing queries. */
module DetailService {
  import opened Wrappers
  import opened Entities
  import Sessions
  import Query

  /** The check `validate` makes, `sessions && sessions > total_sessions` in JavaScript: a left-out,
      null or zero count never exceeds; against a left-out total every comparison is false, and a
      null total compares as 0. */
  predicate SessionsExceed(sessions: Field<int>, total: Field<int>) {
    && sessions.Given? && sessions.value != 0
    && match total
       case Given(t) => sessions.value > t
       case ExplicitNull => sessions.value > 0
       case Omitted => false
  }

  /** What passing the check means: with both counts given, the count is zero or within the total;
      a falsy count always passes; nothing exceeds a left-out total; any positive count exceeds a
      null one. */
  lemma PassingMeansWithinTotal(sessions: Field<int>, total: Field<int>)
    ensures sessions.Given? && total.Given? ==>
              (!SessionsExceed(sessions, total) <==> sessions.value == 0 || sessions.value <= total.value)
    ensures Falsy(sessions, 0) ==> !SessionsExceed(sessions, total)
    ensures total.Omitted? ==> !SessionsExceed(sessions, total)
    ensures total.ExplicitNull? ==> (SessionsExceed(sessions, total) <==> sessions.Given? && sessions.value > 0)
  {
  }

  /** A remote amount resolved on demand: the supplied field when no lookup is needed, otherwise the
      answer, and a failure when the call did not answer. */
  function Resolve(needed: bool, supplied: Field<real>, answer: Option<real>): (r: Result<Field<real>>)
    ensures !needed ==> r == Ok(supplied)
    ensures needed && answer.Some? ==> r == Ok(Given(answer.value))
    ensures needed && answer.None? ==> r == Err(Fail(Unavailable))
  {
    if !needed then Ok(supplied)
    else if answer.Some? then Ok(Given(answer.value))
    else Err(Fail(Unavailable))
  }

  predicate OwnedOrder(s: Store, tenant: int, orderId: int) {
    orderId in s.orders && s.orders[orderId].clientFk == tenant
  }

  /** The total `create` checks and writes: the supplied one when truthy, otherwise the count
      computed from the parent's frequency and the requested dates. */
  function DefaultedTotal(o: Order, input: DetailInput): Field<int> {
    if Falsy(input.totalSessions, 0) then Given(Sessions.TotalSessions(o.frequency, input.startDate, input.finishDate))
    else input.totalSessions
  }

  /** `create`: the parent order must belong to the tenant; a falsy total is computed from the
      parent's frequency; the sessions check runs; a falsy value is priced from
      `coordinator.getValue.companyHasTreatment`; a falsy cost is priced from
      `coordinator.getValue.treatmentHasProfessional` only when a professional is named. The new row
      is stamped with the tenant and the actor and linked to the order. */
  function Create(s: Store, tenant: int, orderId: int, updatedBy: int, input: DetailInput,
                  price: PriceLookup, cost: CostLookup): (r: Step<OrderDetail>)
    ensures r.result.Err? ==> r.store == s && r.result.error.status == BadRequest
    ensures !OwnedOrder(s, tenant, orderId) ==> r.result == Err(Fail(NotFound))
    ensures r.result.Ok? <==>
              && OwnedOrder(s, tenant, orderId)
              && (var o := s.orders[orderId];
                  && !SessionsExceed(input.sessions, DefaultedTotal(o, input))
                  && (Falsy(input.value, 0.0) ==> price(tenant, o.companyFk, o.treatmentFk).Some?)
                  && (Falsy(input.cost, 0.0) && !Falsy(input.professionalFk, 0) ==>
                        cost(tenant, o.companyFk, o.treatmentFk, input.professionalFk).Some?))
    ensures r.result.Ok? ==>
      var d := r.result.value;
      && d.detailId == s.nextDetailId
      && r.store == s.(details := s.details[d.detailId := d], nextDetailId := s.nextDetailId + 1)
      && d.clientFk == tenant && d.updatedBy == updatedBy && d.orderFk == orderId
      && d.professionalFk == Stored(input.professionalFk)
      && d.startDate == input.startDate && d.finishDate == input.finishDate
      && d.sessions == Stored(input.sessions) && d.coinsurance == Stored(input.coinsurance)
      && d.startedAt == Stored(input.startedAt) && d.finishedAt == Stored(input.finishedAt)
      && d.requirements == Stored(input.requirements)
      && d.totalSessions.Some?
      && (d.sessions.Some? ==> d.sessions.value == 0 || d.sessions.value <= d.totalSessions.value)
  {
    if !OwnedOrder(s, tenant, orderId) then Step(s, Err(Fail(NotFound)))
    else
      var o := s.orders[orderId];
      var total := DefaultedTotal(o, input);
      if SessionsExceed(input.sessions, total) then Step(s, Err(Fail(Invalid)))
      else
        var value := Resolve(Falsy(input.value, 0.0), input.value, price(tenant, o.companyFk, o.treatmentFk));
        var charge := Resolve(Falsy(input.cost, 0.0) && !Falsy(input.professionalFk, 0), input.cost,
                              cost(tenant, o.companyFk, o.treatmentFk, input.professionalFk));
        if value.Err? then Step(s, Err(value.error))
        else if charge.Err? then Step(s, Err(charge.error))
        else
          var data := input.(totalSessions := total, value := value.value, cost := charge.value);
          var d := NewDetailRow(s.nextDetailId, tenant, orderId, updatedBy, data);
          Step(InsertDetail(s, d), Ok(d))
  }

  /** The total is replaced only when it is falsy (left out, null or 0); a supplied non-zero total
      is kept as it is, and the computed one is not clamped to the request's bound of 31. */
  lemma CreateDefaultsTotalOnlyWhenFalsy(s: Store, tenant: int, orderId: int, updatedBy: int, input: DetailInput,
                                         price: PriceLookup, cost: CostLookup)
    requires Create(s, tenant, orderId, updatedBy, input, price, cost).result.Ok?
    ensures var d := Create(s, tenant, orderId, updatedBy, input, price, cost).result.value;
            && (!Falsy(input.totalSessions, 0) ==> d.totalSessions == Stored(input.totalSessions))
            && (Falsy(input.totalSessions, 0) ==>
                  d.totalSessions == Some(Sessions.TotalSessions(s.orders[orderId].frequency, input.startDate, input.finishDate)))
  {
  }

  /** A request over five weeks at seven sessions a week stores 35 sessions. */
  lemma ComputedTotalNotClamped()
    ensures var s := Store(map[1 := Order(1, 9, 2, 3, 4, 7, None, 5, None)], map[], map[], 2, 1, 1);
            var input := DetailInput(Omitted, Omitted, 0, 35 * Sessions.MsPerDay, ExplicitNull, Omitted, Omitted,
                                     Given(10.0), Given(4.0), Omitted, Omitted, Omitted);
            var r := Create(s, 9, 1, 5, input, (t, c, tr) => None, (t, c, tr, p) => None);
            r.result.Ok? && r.result.value.totalSessions == Some(35)
  {
    Sessions.TotalSessionsWholeWeeks(7, 0, 5);
  }

  /** A create whose non-zero count exceeds a supplied total is refused and writes nothing. */
  lemma CreateRejectsSessionsOverTotal(s: Store, tenant: int, orderId: int, updatedBy: int, input: DetailInput,
                                       price: PriceLookup, cost: CostLookup)
    requires OwnedOrder(s, tenant, orderId)
    requires !Falsy(input.totalSessions, 0) && !Falsy(input.sessions, 0)
    requires input.sessions.value > input.totalSessions.value
    ensures Create(s, tenant, orderId, updatedBy, input, price, cost) == Step(s, Err(Fail(Invalid)))
  {
  }

  /** A left-out, null or zero count always passes the sessions check: such a create fails, if at
      all, for another reason. */
  lemma CreateAdmitsFalsyCount(s: Store, tenant: int, orderId: int, updatedBy: int, input: DetailInput,
                               price: PriceLookup, cost: CostLookup)
    requires Falsy(input.sessions, 0)
    ensures Create(s, tenant, orderId, updatedBy, input, price, cost).result != Err(Fail(Invalid))
  {
  }

  /** A truthy value is persisted as given and the price authority is never consulted: any two
      price lookups give the same outcome. A falsy one is replaced by the authority's answer. */
  lemma CreatePricesOnlyFalsyValue(s: Store, tenant: int, orderId: int, updatedBy: int, input: DetailInput,
                                   price1: PriceLookup, price2: PriceLookup, cost: CostLookup)
    ensures !Falsy(input.value, 0.0) ==>
              Create(s, tenant, orderId, updatedBy, input, price1, cost) == Create(s, tenant, orderId, updatedBy, input, price2, cost)
    ensures var r := Create(s, tenant, orderId, updatedBy, input, price1, cost);
            r.result.Ok? ==>
              r.result.value.value ==
                (if Falsy(input.value, 0.0)
                 then price1(tenant, s.orders[orderId].companyFk, s.orders[orderId].treatmentFk)
                 else Stored(input.value))
  {
  }

  /** The cost authority is consulted only for a falsy cost with a named professional; otherwise the
      supplied cost is persisted and any two cost lookups give the same outcome. */
  lemma CreateCostsOnlyFalsyCostWithProfessional(s: Store, tenant: int, orderId: int, updatedBy: int, input: DetailInput,
                                                 price: PriceLookup, cost1: CostLookup, cost2: CostLookup)
    ensures !(Falsy(input.cost, 0.0) && !Falsy(input.professionalFk, 0)) ==>
              Create(s, tenant, orderId, updatedBy, input, price, cost1) == Create(s, tenant, orderId, updatedBy, input, price, cost2)
    ensures var r := Create(s, tenant, orderId, updatedBy, input, price, cost1);
            r.result.Ok? ==>
              r.result.value.cost ==
                (if Falsy(input.cost, 0.0) && !Falsy(input.professionalFk, 0)
                 then cost1(tenant, s.orders[orderId].companyFk, s.orders[orderId].treatmentFk, input.professionalFk)
                 else Stored(input.cost))
  {
  }

  lemma CreatePreservesValid(s: Store, tenant: int, orderId: int, updatedBy: int, input: DetailInput,
                             price: PriceLookup, cost: CostLookup)
    requires Valid(s)
    ensures Valid(Create(s, tenant, orderId, updatedBy, input, price, cost).store)
  {
  }

  /** `findOneByUnique`/`getProfessionalDetail` underneath: `findUniqueOrThrow` on the identity and
      the other criteria of the filter. */
  function FindUnique(s: Store, detailId: int, f: DetailFilter): (r: Result<OrderDetail>)
    ensures r.Ok? <==> detailId in s.details && DetailMatches(s.details[detailId], f)
    ensures r.Ok? ==> r.value == s.details[detailId]
    ensures r.Err? ==> r.error == Fail(NotFound)
  {
    if detailId in s.details && DetailMatches(s.details[detailId], f) then Ok(s.details[detailId])
    else Err(Fail(NotFound))
  }

  function TenantFilter(tenant: int): DetailFilter {
    NoDetailFilter.(clientFk := Some(tenant))
  }

  /** `findOneByUnique`: the tenant is written into the criteria, so another tenant's row is
      indistinguishable from a missing one. */
  function FindOne(s: Store, tenant: int, detailId: int): (r: Result<OrderDetail>)
    ensures r.Ok? <==> detailId in s.details && s.details[detailId].clientFk == tenant
    ensures r.Ok? ==> r.value == s.details[detailId]
  {
    FindUnique(s, detailId, TenantFilter(tenant))
  }

  /** The identities the sequence has handed out whose row meets `f`. */
  function Candidates(s: Store, f: DetailFilter): set<int> {
    set k | 0 <= k < s.nextDetailId && k in s.details && DetailMatches(s.details[k], f)
  }

  /** `order_detail.findMany({ where: f, skip, take })`: only stored rows meeting `f`, as many as the
      page window over the candidates holds, every candidate when unpaged; in a consistent store the
      rows are distinct, ascending by identity, and the i-th is the candidate ranked `skip + i`. */
  function ListDetails(s: Store, f: DetailFilter, page: Page): (rows: seq<OrderDetail>)
    ensures forall i :: 0 <= i < |rows| ==> DetailMatches(rows[i], f) && rows[i] in s.details.Values
    ensures |rows| == Query.Window(|Candidates(s, f)|, page)
    ensures page.skip.None? && page.take.None? ==> forall k :: k in Candidates(s, f) ==> s.details[k] in rows
    ensures Valid(s) ==> forall i, j :: 0 <= i < j < |rows| ==> rows[i].detailId < rows[j].detailId
    ensures Valid(s) ==>
              forall i :: 0 <= i < |rows| ==>
                && rows[i].detailId in Candidates(s, f)
                && Query.Rank(Candidates(s, f), rows[i].detailId) == Query.Offset(|Candidates(s, f)|, page) + i
  {
    var keep := (d: OrderDetail) => DetailMatches(d, f);
    var key := (d: OrderDetail) => d.detailId;
    assert Query.Matching(s.details, keep, s.nextDetailId) == Candidates(s, f);
    assert Valid(s) ==> Query.KeyedBy(s.details, key);
    Query.Select(s.details, keep, key, s.nextDetailId, page)
  }

  /** `findAll`: the caller's criteria with the tenant forced in, whatever the caller put there. */
  function FindAll(s: Store, tenant: int, where: DetailFilter, page: Page): (rows: seq<OrderDetail>)
    ensures forall i :: 0 <= i < |rows| ==>
              rows[i].clientFk == tenant && DetailMatches(rows[i], where.(clientFk := None)) && rows[i] in s.details.Values
    ensures |rows| == Query.Window(|Candidates(s, where.(clientFk := Some(tenant)))|, page)
    ensures page.skip.None? && page.take.None? ==>
              forall k :: (0 <= k < s.nextDetailId && k in s.details && s.details[k].clientFk == tenant
                           && DetailMatches(s.details[k], where.(clientFk := None))) ==> s.details[k] in rows
    ensures Valid(s) ==> forall i, j :: 0 <= i < j < |rows| ==> rows[i].detailId < rows[j].detailId
  {
    ListDetails(s, where.(clientFk := Some(tenant)), page)
  }

  /** `getProfessionalDetails`: the handler's criteria, with no tenant involved. */
  function FindMany(s: Store, where: DetailFilter, page: Page): (rows: seq<OrderDetail>)
    ensures forall i :: 0 <= i < |rows| ==> DetailMatches(rows[i], where) && rows[i] in s.details.Values
    ensures |rows| == Query.Window(|Candidates(s, where)|, page)
    ensures page.skip.None? && page.take.None? ==>
              forall k :: 0 <= k < s.nextDetailId && k in s.details && DetailMatches(s.details[k], where) ==> s.details[k] in rows
    ensures Valid(s) ==> forall i, j :: 0 <= i < j < |rows| ==> rows[i].detailId < rows[j].detailId
  {
    ListDetails(s, where, page)
  }

  /** The fields an update may carry: every create field, each left out (kept), null or given.
      Neither the identity nor the tenant is among them, as long as the validation pipe strips what
      the update request does not declare. */
  datatype DetailPatch = DetailPatch(
    orderFk: Field<int>,
    professionalFk: Field<int>,
    startDate: Field<int>,
    finishDate: Field<int>,
    totalSessions: Field<int>,
    sessions: Field<int>,
    coinsurance: Field<real>,
    value: Field<real>,
    cost: Field<real>,
    startedAt: Field<int>,
    finishedAt: Field<int>,
    requirements: Field<string>)

  const EmptyPatch := DetailPatch(Omitted, Omitted, Omitted, Omitted, Omitted, Omitted, Omitted, Omitted,
                                  Omitted, Omitted, Omitted, Omitted)

  /** A patch that writes null into a column the row cannot leave empty, which the store refuses. */
  predicate NullsRequiredColumn(p: DetailPatch) {
    p.orderFk.ExplicitNull? || p.startDate.ExplicitNull? || p.finishDate.ExplicitNull?
  }

  /** A patch field over a required column: a given value replaces the column. */
  function Over<T>(p: Field<T>, x: T): T {
    if p.Given? then p.value else x
  }

  /** A patch field over a nullable column: left out keeps it, null clears it, a value replaces it. */
  function OverOpt<T>(p: Field<T>, x: Option<T>): Option<T> {
    match p
    case Omitted => x
    case ExplicitNull => None
    case Given(v) => Some(v)
  }

  /** `Object.assign(row, patch)`: every field the patch carries overwrites the row's, a null one
      included. The identity, the tenant and the audit stamp are out of its reach. */
  function Patched(d: OrderDetail, p: DetailPatch): (e: OrderDetail)
    ensures e.detailId == d.detailId && e.clientFk == d.clientFk && e.updatedBy == d.updatedBy
  {
    d.(orderFk := Over(p.orderFk, d.orderFk),
       professionalFk := OverOpt(p.professionalFk, d.professionalFk),
       startDate := Over(p.startDate, d.startDate),
       finishDate := Over(p.finishDate, d.finishDate),
       totalSessions := OverOpt(p.totalSessions, d.totalSessions),
       sessions := OverOpt(p.sessions, d.sessions),
       coinsurance := OverOpt(p.coinsurance, d.coinsurance),
       value := OverOpt(p.value, d.value),
       cost := OverOpt(p.cost, d.cost),
       startedAt := OverOpt(p.startedAt, d.startedAt),
       finishedAt := OverOpt(p.finishedAt, d.finishedAt),
       requirements := OverOpt(p.requirements, d.requirements))
  }

  /** Merging is a no-op for the empty patch and applying the same patch twice is applying it once;
      a null in a nullable column clears it. */
  lemma PatchedLaws(d: OrderDetail, p: DetailPatch)
    ensures Patched(d, EmptyPatch) == d
    ensures Patched(Patched(d, p), p) == Patched(d, p)
    ensures p.finishedAt.ExplicitNull? ==> Patched(d, p).finishedAt.None?
    ensures p.professionalFk.ExplicitNull? ==> Patched(d, p).professionalFk.None?
  {
  }

  /** The data `update` writes: the patch, with the total replaced by the recomputed count when the
      stored total is 0. */
  function UpdateData(s: Store, d: OrderDetail, patch: DetailPatch): DetailPatch
    requires d.orderFk in s.orders
  {
    if d.totalSessions == Some(0)
    then patch.(totalSessions := Given(Sessions.TotalSessions(s.orders[d.orderFk].frequency, d.startDate, d.finishDate)))
    else patch
  }

  /** `update`: the row must belong to the tenant; when its stored total is 0 the total is recomputed
      from the stored dates and the parent's frequency, overriding the patch; the sessions check runs
      on the stored row merged with the patch; only the patch and the actor are written, and the
      store refuses a null in a required column or a link to a missing order. */
  function Update(s: Store, tenant: int, detailId: int, updatedBy: int, patch: DetailPatch): (r: Step<OrderDetail>)
    ensures r.result.Err? ==> r.store == s && r.result.error.status == BadRequest
    ensures (detailId !in s.details || s.details[detailId].clientFk != tenant) ==> r.result == Err(Fail(NotFound))
    ensures r.result.Ok? <==>
              && detailId in s.details && s.details[detailId].clientFk == tenant
              && s.details[detailId].orderFk in s.orders
              && !NullsRequiredColumn(patch)
              && (var e := Patched(s.details[detailId], UpdateData(s, s.details[detailId], patch));
                  !SessionsExceed(Loaded(e.sessions), Loaded(e.totalSessions)) && e.orderFk in s.orders)
    ensures r.result.Ok? ==>
      var e := r.result.value;
      && detailId in s.details && s.details[detailId].clientFk == tenant
      && (Valid(s) ==> e.detailId == detailId) && e.clientFk == tenant && e.updatedBy == updatedBy
      && r.store == s.(details := s.details[detailId := e])
      && !SessionsExceed(Loaded(e.sessions), Loaded(e.totalSessions))
      && e.orderFk in s.orders
  {
    if detailId !in s.details || s.details[detailId].clientFk != tenant then Step(s, Err(Fail(NotFound)))
    else
      var d := s.details[detailId];
      if d.orderFk !in s.orders then Step(s, Err(Fail(NotFound)))
      else
        var e := Patched(d, UpdateData(s, d, patch)).(updatedBy := updatedBy);
        if SessionsExceed(Loaded(e.sessions), Loaded(e.totalSessions)) then Step(s, Err(Fail(Invalid)))
        else if NullsRequiredColumn(patch) || e.orderFk !in s.orders then Step(s, Err(Fail(Constraint)))
        else Step(PutDetail(s, detailId, e), Ok(e))
  }

  /** Apart from the actor stamp and a recomputed zero total, the written row is the stored row
      merged with the patch; a stored total of 0 is replaced by the computed one whatever the patch
      says. */
  lemma UpdateWritesOnlyPatch(s: Store, tenant: int, detailId: int, updatedBy: int, patch: DetailPatch)
    requires Update(s, tenant, detailId, updatedBy, patch).result.Ok?
    ensures var d := s.details[detailId];
            var e := Update(s, tenant, detailId, updatedBy, patch).result.value;
            && e.(updatedBy := d.updatedBy, totalSessions := d.totalSessions)
                 == Patched(d, patch.(totalSessions := Omitted))
            && (d.totalSessions != Some(0) ==> e.totalSessions == OverOpt(patch.totalSessions, d.totalSessions))
            && (d.totalSessions == Some(0) ==>
                  e.totalSessions == Some(Sessions.TotalSessions(s.orders[d.orderFk].frequency, d.startDate, d.finishDate)))
  {
  }

  /** An update whose non-zero count exceeds the total it also carries is refused and writes nothing. */
  lemma UpdateRejectsSessionsOverTotal(s: Store, tenant: int, detailId: int, updatedBy: int, patch: DetailPatch)
    requires detailId in s.details && s.details[detailId].clientFk == tenant
    requires s.details[detailId].orderFk in s.orders && s.details[detailId].totalSessions != Some(0)
    requires patch.sessions.Given? && patch.totalSessions.Given?
    requires patch.sessions.value > patch.totalSessions.value && patch.sessions.value != 0
    ensures Update(s, tenant, detailId, updatedBy, patch) == Step(s, Err(Fail(Invalid)))
  {
  }

  /** A null finish time or professional in the patch is written: a finalized row is reopened, an
      assigned one is released. */
  lemma UpdateNullClearsColumn(s: Store, tenant: int, detailId: int, updatedBy: int, reopen: bool)
    requires Valid(s) && detailId in s.details && s.details[detailId].clientFk == tenant
    requires s.details[detailId].totalSessions != Some(0)
    requires !SessionsExceed(Loaded(s.details[detailId].sessions), Loaded(s.details[detailId].totalSessions))
    ensures var patch := if reopen then EmptyPatch.(finishedAt := ExplicitNull) else EmptyPatch.(professionalFk := ExplicitNull);
            var r := Update(s, tenant, detailId, updatedBy, patch);
            && r.result.Ok?
            && (reopen ==> r.result.value.finishedAt.None? && r.result.value.professionalFk == s.details[detailId].professionalFk)
            && (!reopen ==> r.result.value.professionalFk.None? && r.result.value.finishedAt == s.details[detailId].finishedAt)
  {
  }

  lemma UpdatePreservesValid(s: Store, tenant: int, detailId: int, updatedBy: int, patch: DetailPatch)
    requires Valid(s)
    ensures Valid(Update(s, tenant, detailId, updatedBy, patch).store)
  {
  }

  /** `finalize`: a tenant-scoped lookup; an already finished row is refused (its 404 reaches the
      caller as 400); otherwise only the finish time and the actor change. */
  function Finalize(s: Store, tenant: int, detailId: int, updatedBy: int, now: int): (r: Step<OrderDetail>)
    ensures r.result.Err? ==> r.store == s && r.result.error.status == BadRequest
    ensures r.result.Ok? <==>
              detailId in s.details && s.details[detailId].clientFk == tenant && s.details[detailId].finishedAt.None?
    ensures detailId in s.details && s.details[detailId].clientFk == tenant && s.details[detailId].finishedAt.Some? ==>
              r.result == Err(Fail(AlreadyFinished))
    ensures r.result.Ok? ==>
              && r.result.value == s.details[detailId].(finishedAt := Some(now), updatedBy := updatedBy)
              && r.store == s.(details := s.details[detailId := r.result.value])
  {
    match FindOne(s, tenant, detailId)
    case Err(e) => Step(s, Err(e))
    case Ok(d) =>
      if d.finishedAt.Some? then Step(s, Err(Fail(AlreadyFinished)))
      else
        var e := d.(finishedAt := Some(now), updatedBy := updatedBy);
        Step(PutDetail(s, detailId, e), Ok(e))
  }

  /** A second finalize of the same row always fails, whoever asks and whenever. */
  lemma FinalizeTwiceFails(s: Store, tenant: int, detailId: int, u1: int, now1: int, u2: int, now2: int)
    requires Finalize(s, tenant, detailId, u1, now1).result.Ok?
    ensures var s1 := Finalize(s, tenant, detailId, u1, now1).store;
            Finalize(s1, tenant, detailId, u2, now2) == Step(s1, Err(Fail(AlreadyFinished)))
  {
  }

  lemma FinalizePreservesValid(s: Store, tenant: int, detailId: int, updatedBy: int, now: int)
    requires Valid(s)
    ensures Valid(Finalize(s, tenant, detailId, updatedBy, now).store)
  {
  }

  predicate Pending(d: OrderDetail) {
    d.professionalFk.None? && d.finishedAt.None?
  }

  /** `accept`: only an unassigned, unfinished row (of any tenant) can be taken, and only after the
      relationship call for its client completes; the one change is the professional. */
  function Accept(s: Store, professionalId: int, detailId: int, community: RelationCheck): (r: Step<OrderDetail>)
    ensures r.result.Err? ==> r.store == s && r.result.error.status == BadRequest
    ensures r.result.Ok? <==>
              detailId in s.details && Pending(s.details[detailId]) && community(s.details[detailId].clientFk, professionalId)
    ensures r.result.Ok? ==>
              && r.result.value == s.details[detailId].(professionalFk := Some(professionalId))
              && r.store == s.(details := s.details[detailId := r.result.value])
  {
    match FindUnique(s, detailId, NoDetailFilter.(professionalFk := IsNull, finishedAt := IsNull))
    case Err(e) => Step(s, Err(e))
    case Ok(d) =>
      if !community(d.clientFk, professionalId) then Step(s, Err(Fail(Unavailable)))
      else
        var e := d.(professionalFk := Some(professionalId));
        Step(PutDetail(s, detailId, e), Ok(e))
  }

  /** Once accepted a row cannot be accepted again, by the same or any other professional. */
  lemma AcceptTwiceFails(s: Store, p1: int, p2: int, detailId: int, community: RelationCheck)
    requires Accept(s, p1, detailId, community).result.Ok?
    ensures var s1 := Accept(s, p1, detailId, community).store;
            Accept(s1, p2, detailId, community) == Step(s1, Err(Fail(NotFound)))
  {
  }

  lemma AcceptPreservesValid(s: Store, professionalId: int, detailId: int, community: RelationCheck)
    requires Valid(s)
    ensures Valid(Accept(s, professionalId, detailId, community).store)
  {
  }

  /** `addSessionDetail`: `sessions: { increment: 1 }` on the row matching the criteria. A null count
      stays null, as `NULL + 1` does; nothing bounds the count by the total. */
  function AddSession(s: Store, detailId: int, where: DetailFilter): (r: Step<OrderDetail>)
    ensures r.result.Err? ==> r.store == s && r.result.error == Fail(NotFound)
    ensures r.result.Ok? <==> detailId in s.details && DetailMatches(s.details[detailId], where)
    ensures r.result.Ok? ==>
              var d := s.details[detailId];
              && r.result.value.sessions == (if d.sessions.Some? then Some(d.sessions.value + 1) else None)
              && r.result.value.(sessions := d.sessions) == d
              && r.store == s.(details := s.details[detailId := r.result.value])
  {
    match FindUnique(s, detailId, where)
    case Err(e) => Step(s, Err(e))
    case Ok(d) =>
      var e := d.(sessions := if d.sessions.Some? then Some(d.sessions.value + 1) else None);
      Step(PutDetail(s, detailId, e), Ok(e))
  }

  lemma AddSessionPreservesValid(s: Store, detailId: int, where: DetailFilter)
    requires Valid(s)
    ensures Valid(AddSession(s, detailId, where).store)
  {
  }

  /** `findPendingOrders`: after the relationship call for (client, professional) completes, the
      client's unassigned, unfinished rows. */
  function FindPending(s: Store, clientFk: int, professionalId: int, community: RelationCheck, page: Page)
    : (r: Result<seq<OrderDetail>>)
    ensures r.Err? <==> !community(clientFk, professionalId)
    ensures r.Ok? ==>
              forall i :: 0 <= i < |r.value| ==>
                r.value[i].clientFk == clientFk && Pending(r.value[i]) && r.value[i] in s.details.Values
    ensures r.Ok? ==> |r.value| == Query.Window(|PendingOf(s, clientFk)|, page)
    ensures r.Ok? && page.skip.None? && page.take.None? ==>
              forall k :: 0 <= k < s.nextDetailId && k in s.details && s.details[k].clientFk == clientFk && Pending(s.details[k])
                ==> s.details[k] in r.value
    ensures r.Ok? && Valid(s) ==> forall i, j :: 0 <= i < j < |r.value| ==> r.value[i].detailId < r.value[j].detailId
  {
    if !community(clientFk, professionalId) then Err(Fail(Unavailable))
    else Ok(ListDetails(s, PendingFilter(clientFk), page))
  }

  function PendingFilter(clientFk: int): DetailFilter {
    NoDetailFilter.(clientFk := Some(clientFk), professionalFk := IsNull, finishedAt := IsNull)
  }

  /** The client's unassigned, unfinished identities. */
  function PendingOf(s: Store, clientFk: int): (ks: set<int>)
    ensures forall k :: k in ks <==>
              0 <= k < s.nextDetailId && k in s.details && s.details[k].clientFk == clientFk && Pending(s.details[k])
  {
    Candidates(s, PendingFilter(clientFk))
  }

  /** The rows `countByCompany` counts: unfinished, under an order of the company, of any tenant. */
  predicate OpenUnderCompany(s: Store, d: OrderDetail, companyId: int) {
    d.finishedAt.None? && d.orderFk in s.orders && s.orders[d.orderFk].companyFk == companyId
  }

  /** Which of the given identities name such a row. */
  function OpenAmong(s: Store, ks: set<int>, companyId: int): set<int> {
    set k | k in ks && k in s.details && OpenUnderCompany(s, s.details[k], companyId)
  }

  function OpenDetailsOf(s: Store, companyId: int): set<int> {
    OpenAmong(s, s.details.Keys, companyId)
  }

  /** The identities below `hi` that name such a row. */
  function OpenBelow(s: Store, hi: int, companyId: int): set<int> {
    set k | 0 <= k < hi && k in s.details && OpenUnderCompany(s, s.details[k], companyId)
  }

  lemma OpenBelowStep(s: Store, i: int, companyId: int)
    requires 0 <= i
    ensures OpenBelow(s, i + 1, companyId) ==
              OpenBelow(s, i, companyId) + (if i in s.details && OpenUnderCompany(s, s.details[i], companyId) then {i} else {})
    ensures i !in OpenBelow(s, i, companyId)
  {
  }

  /** In a valid store every identity lies below the sequence, so the scan misses no row. */
  lemma OpenBelowCoversAll(s: Store, companyId: int)
    requires Valid(s)
    ensures OpenBelow(s, s.nextDetailId, companyId) == OpenDetailsOf(s, companyId)
  {
  }

  /** `countByCompany`: the number of unfinished rows whose order belongs to the company. */
  method CountByCompany(s: Store, companyId: int) returns (n: nat)
    ensures Valid(s) ==> n == |OpenDetailsOf(s, companyId)|
  {
    var i := 0;
    n := 0;
    while i < s.nextDetailId
      invariant 0 <= i && (0 <= s.nextDetailId ==> i <= s.nextDetailId)
      invariant n == |OpenBelow(s, i, companyId)|
    {
      OpenBelowStep(s, i, companyId);
      if i in s.details && OpenUnderCompany(s, s.details[i], companyId) {
        n := n + 1;
      }
      i := i + 1;
    }
    if Valid(s) {
      OpenBelowCoversAll(s, companyId);
    }
  }
}
