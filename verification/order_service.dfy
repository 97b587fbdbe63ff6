/** The order service: an order is created after the coordinator vouches for its company, treatment
    and patient, optionally together with its first order detail. Its detail-creation path differs
    from the order-detail service's: the parent order is looked up without the tenant, defaults apply
    only to fields that are exactly 0, and the cost lookup does not need a professional. */
module OrderService {
  import opened Wrappers
  import opened Entities
  import Sessions
  import DetailService

  /** The order fields of a create request once the actor and the nested detail are split off. */
  datatype OrderInput = OrderInput(
    clientFk: Field<int>,         // overwritten with the tenant
    companyFk: int,
    patientFk: int,
    treatmentFk: int,
    frequency: int,
    diagnosis: Option<string>)

  /** The row `order.create({ data })` writes: the input, stamped with the tenant and the actor. */
  function NewOrderRow(id: int, tenant: int, updatedBy: int, data: OrderInput): (o: Order)
    ensures o.orderId == id && o.clientFk == tenant && o.updatedBy == updatedBy && o.deletedAt.None?
    ensures o.companyFk == data.companyFk && o.patientFk == data.patientFk && o.treatmentFk == data.treatmentFk
    ensures o.frequency == data.frequency && o.diagnosis == data.diagnosis
  {
    Order(id, tenant, data.companyFk, data.patientFk, data.treatmentFk, data.frequency, data.diagnosis, updatedBy, None)
  }

  /** `validateOrder`: the coordinator's reply on (tenant, company, treatment, patient) must be truthy;
      no reply at all fails too. */
  function ValidateOrder(tenant: int, data: OrderInput, coordinator: CoordinatorCheck): (r: Result<bool>)
    ensures r.Ok? <==> coordinator(tenant, data.companyFk, data.treatmentFk, data.patientFk) == Some(true)
    ensures r.Err? ==> r.error.status == BadRequest
  {
    match coordinator(tenant, data.companyFk, data.treatmentFk, data.patientFk)
    case None => Err(Fail(Unavailable))
    case Some(ok) => if ok then Ok(true) else Err(Fail(Invalid))
  }

  /** Validation looks at the company, treatment and patient alone: the frequency, the diagnosis and
      a forged `client_fk` never change its outcome. */
  lemma ValidateOrderIgnoresOtherFields(tenant: int, data: OrderInput, coordinator: CoordinatorCheck,
                                        frequency: int, diagnosis: Option<string>, forged: Field<int>)
    ensures ValidateOrder(tenant, data.(frequency := frequency, diagnosis := diagnosis, clientFk := forged), coordinator)
         == ValidateOrder(tenant, data, coordinator)
  {
  }

  /** The total the order path checks and writes: the computed count in place of a total that is
      exactly 0; a left-out or null total stays as it is. */
  function ZeroDefaultedTotal(o: Order, input: DetailInput): Field<int> {
    if input.totalSessions == Given(0) then Given(Sessions.TotalSessions(o.frequency, input.startDate, input.finishDate))
    else input.totalSessions
  }

  /** `createOrderDetail`: the parent is looked up by identity alone; a total, value or cost that is
      exactly 0 is resolved (the total computed, the value and cost from `coordinator.find.*`); a
      left-out or null one is kept, and a null total is what the sessions check compares against. The
      new row is stamped with the caller's tenant and linked. */
  function CreateOrderDetail(s: Store, tenant: int, orderId: int, updatedBy: int, input: DetailInput,
                             price: PriceLookup, cost: CostLookup): (r: Step<OrderDetail>)
    ensures r.result.Err? ==> r.store == s && r.result.error.status == BadRequest
    ensures orderId !in s.orders ==> r.result == Err(Fail(NotFound))
    ensures r.result.Ok? <==>
              && orderId in s.orders
              && (var o := s.orders[orderId];
                  && !DetailService.SessionsExceed(input.sessions, ZeroDefaultedTotal(o, input))
                  && (input.value == Given(0.0) ==> price(tenant, o.companyFk, o.treatmentFk).Some?)
                  && (input.cost == Given(0.0) ==>
                        cost(tenant, o.companyFk, o.treatmentFk, input.professionalFk).Some?))
    ensures r.result.Ok? ==>
      var d := r.result.value;
      && d.detailId == s.nextDetailId
      && r.store == s.(details := s.details[d.detailId := d], nextDetailId := s.nextDetailId + 1)
      && d.clientFk == tenant && d.updatedBy == updatedBy && d.orderFk == orderId
      && d.professionalFk == Stored(input.professionalFk) && d.sessions == Stored(input.sessions)
      && d.startDate == input.startDate && d.finishDate == input.finishDate
      && d.coinsurance == Stored(input.coinsurance) && d.requirements == Stored(input.requirements)
      && d.startedAt == Stored(input.startedAt) && d.finishedAt == Stored(input.finishedAt)
      && (d.sessions.Some? && d.totalSessions.Some? ==> d.sessions.value == 0 || d.sessions.value <= d.totalSessions.value)
  {
    if orderId !in s.orders then Step(s, Err(Fail(NotFound)))
    else
      var o := s.orders[orderId];
      var total := ZeroDefaultedTotal(o, input);
      if DetailService.SessionsExceed(input.sessions, total) then Step(s, Err(Fail(Invalid)))
      else
        var value := DetailService.Resolve(input.value == Given(0.0), input.value, price(tenant, o.companyFk, o.treatmentFk));
        var charge := DetailService.Resolve(input.cost == Given(0.0), input.cost,
                                            cost(tenant, o.companyFk, o.treatmentFk, input.professionalFk));
        if value.Err? then Step(s, Err(value.error))
        else if charge.Err? then Step(s, Err(charge.error))
        else
          var data := input.(totalSessions := total, value := value.value, cost := charge.value);
          var d := NewDetailRow(s.nextDetailId, tenant, orderId, updatedBy, data);
          Step(InsertDetail(s, d), Ok(d))
  }

  /** `createNewOrder`: nothing is written unless the coordinator vouches for the order. The order is
      then written before the nested detail is attempted, and stays written when the detail fails:
      the call reports the detail's failure over a store that already holds the order. */
  function CreateNewOrder(s: Store, tenant: int, updatedBy: int, data: OrderInput, detail: Option<DetailInput>,
                          coordinator: CoordinatorCheck, price: PriceLookup, cost: CostLookup): (r: Step<Order>)
    ensures r.result.Err? ==> r.result.error.status == BadRequest
    ensures r.result.Err? <==>
              || coordinator(tenant, data.companyFk, data.treatmentFk, data.patientFk) != Some(true)
              || (detail.Some? &&
                  CreateOrderDetail(InsertOrder(s, NewOrderRow(s.nextOrderId, tenant, updatedBy, data)), tenant,
                                    s.nextOrderId, updatedBy, detail.value, price, cost).result.Err?)
    ensures coordinator(tenant, data.companyFk, data.treatmentFk, data.patientFk) != Some(true) ==>
              r.store == s && r.result.Err?
    ensures coordinator(tenant, data.companyFk, data.treatmentFk, data.patientFk) == Some(true) ==>
              && r.store.orders == s.orders[s.nextOrderId := NewOrderRow(s.nextOrderId, tenant, updatedBy, data)]
              && r.store.nextOrderId == s.nextOrderId + 1
    ensures r.result.Ok? ==>
              && r.result.value == NewOrderRow(s.nextOrderId, tenant, updatedBy, data)
              && r.result.value.clientFk == tenant && r.result.value.updatedBy == updatedBy
              && (detail.Some? ==> r.store.nextDetailId == s.nextDetailId + 1
                                   && s.nextDetailId in r.store.details
                                   && r.store.details[s.nextDetailId].orderFk == s.nextOrderId)
    ensures detail.None? ==> r.store.details == s.details && r.store.nextDetailId == s.nextDetailId
  {
    match ValidateOrder(tenant, data, coordinator)
    case Err(e) => Step(s, Err(e))
    case Ok(_) =>
      var o := NewOrderRow(s.nextOrderId, tenant, updatedBy, data);
      var s1 := InsertOrder(s, o);
      if detail.None? then Step(s1, Ok(o))
      else
        var r := CreateOrderDetail(s1, tenant, o.orderId, updatedBy, detail.value, price, cost);
        if r.result.Err? then Step(r.store, Err(r.result.error)) else Step(r.store, Ok(o))
  }

  /** The zero-only defaulting: a left-out, null or non-zero field is persisted as given, a zero
      total is replaced by the computed count, a zero value and a zero cost by the lookups' answers,
      and the cost is looked up with whatever professional the request names, none included. */
  lemma CreateOrderDetailResolvesOnlyZeros(s: Store, tenant: int, orderId: int, updatedBy: int, input: DetailInput,
                                           price: PriceLookup, cost: CostLookup)
    requires CreateOrderDetail(s, tenant, orderId, updatedBy, input, price, cost).result.Ok?
    ensures var d := CreateOrderDetail(s, tenant, orderId, updatedBy, input, price, cost).result.value;
            var o := s.orders[orderId];
            && d.totalSessions == (if input.totalSessions == Given(0)
                                   then Some(Sessions.TotalSessions(o.frequency, input.startDate, input.finishDate))
                                   else Stored(input.totalSessions))
            && d.value == (if input.value == Given(0.0) then price(tenant, o.companyFk, o.treatmentFk) else Stored(input.value))
            && d.cost == (if input.cost == Given(0.0) then cost(tenant, o.companyFk, o.treatmentFk, input.professionalFk)
                          else Stored(input.cost))
  {
  }

  /** A value or cost other than exactly 0 never reaches the corresponding authority: any two lookups
      give the same outcome. */
  lemma CreateOrderDetailConsultsOnlyOnZero(s: Store, tenant: int, orderId: int, updatedBy: int, input: DetailInput,
                                            price1: PriceLookup, price2: PriceLookup, cost1: CostLookup, cost2: CostLookup)
    requires input.value != Given(0.0) && input.cost != Given(0.0)
    ensures CreateOrderDetail(s, tenant, orderId, updatedBy, input, price1, cost1)
         == CreateOrderDetail(s, tenant, orderId, updatedBy, input, price2, cost2)
  {
  }

  /** `validateOrderDetail` is the detail service's check: a non-zero count over a given non-zero
      total fails and writes nothing. */
  lemma CreateOrderDetailRejectsSessionsOverTotal(s: Store, tenant: int, orderId: int, updatedBy: int, input: DetailInput,
                                                  price: PriceLookup, cost: CostLookup)
    requires orderId in s.orders
    requires input.totalSessions.Given? && input.totalSessions != Given(0)
    requires input.sessions.Given? && input.sessions.value != 0 && input.sessions.value > input.totalSessions.value
    ensures CreateOrderDetail(s, tenant, orderId, updatedBy, input, price, cost) == Step(s, Err(Fail(Invalid)))
  {
  }

  /** A null total is not defaulted on this path and compares as 0: any positive count is refused,
      while the same request with the total left out passes the check. */
  lemma NullTotalRefusesPositiveCount(s: Store, tenant: int, orderId: int, updatedBy: int, input: DetailInput,
                                      price: PriceLookup, cost: CostLookup)
    requires orderId in s.orders
    requires input.sessions.Given? && input.sessions.value > 0
    ensures CreateOrderDetail(s, tenant, orderId, updatedBy, input.(totalSessions := ExplicitNull), price, cost)
         == Step(s, Err(Fail(Invalid)))
    ensures CreateOrderDetail(s, tenant, orderId, updatedBy, input.(totalSessions := Omitted), price, cost).result
         != Err(Fail(Invalid))
  {
  }

  /** When every defaulted field is given and non-zero, on an order of the caller's own, the two
      creation paths write the same row, whatever the four authorities would have said. */
  lemma CreationPathsAgreeOnFullInput(s: Store, tenant: int, orderId: int, updatedBy: int, input: DetailInput,
                                      price1: PriceLookup, cost1: CostLookup, price2: PriceLookup, cost2: CostLookup)
    requires DetailService.OwnedOrder(s, tenant, orderId)
    requires input.totalSessions.Given? && input.totalSessions.value != 0
    requires input.value.Given? && input.value.value != 0.0
    requires input.cost.Given? && input.cost.value != 0.0
    ensures CreateOrderDetail(s, tenant, orderId, updatedBy, input, price1, cost1)
         == DetailService.Create(s, tenant, orderId, updatedBy, input, price2, cost2)
  {
  }

  /** The two paths part ways on one request: an order of tenant 9 takes a detail from tenant 8 on the
      order path, stamped with tenant 8 and with its left-out total left unset, and the cost looked up
      with no professional; the detail service refuses the same request as not found. */
  lemma CreationPathsDiffer()
    ensures var s := Store(map[1 := Order(1, 9, 2, 3, 4, 2, None, 5, None)], map[], map[], 2, 1, 1);
            var input := DetailInput(Omitted, Omitted, 0, 14 * Sessions.MsPerDay, Omitted, Given(3), Omitted,
                                     Given(10.0), Given(0.0), Omitted, Omitted, Omitted);
            var price := (t: int, c: int, tr: int) => None;
            var cost := (t: int, c: int, tr: int, p: Field<int>) => if p.Omitted? then Some(6.0) else None;
            var r := CreateOrderDetail(s, 8, 1, 5, input, price, cost);
            && r.result.Ok?
            && r.result.value.clientFk == 8 && s.orders[r.result.value.orderFk].clientFk == 9
            && r.result.value.totalSessions.None?
            && r.result.value.cost == Some(6.0)
            && DetailService.Create(s, 8, 1, 5, input, price, cost) == Step(s, Err(Fail(NotFound)))
  {
  }

  /** Non-atomic creation: a vouched-for order whose nested detail fails is still stored while the
      call reports the failure. */
  lemma CreateNewOrderNotAtomic(s: Store, tenant: int, updatedBy: int, data: OrderInput, detail: DetailInput,
                                coordinator: CoordinatorCheck, price: PriceLookup, cost: CostLookup)
    requires coordinator(tenant, data.companyFk, data.treatmentFk, data.patientFk) == Some(true)
    requires detail.totalSessions.Given? && detail.totalSessions != Given(0)
    requires detail.sessions.Given? && detail.sessions.value != 0 && detail.sessions.value > detail.totalSessions.value
    ensures var r := CreateNewOrder(s, tenant, updatedBy, data, Some(detail), coordinator, price, cost);
            && r.result == Err(Fail(Invalid))
            && s.nextOrderId in r.store.orders
            && r.store.orders[s.nextOrderId].clientFk == tenant
            && r.store.details == s.details
  {
    var o := NewOrderRow(s.nextOrderId, tenant, updatedBy, data);
    CreateOrderDetailRejectsSessionsOverTotal(InsertOrder(s, o), tenant, o.orderId, updatedBy, detail, price, cost);
  }

  lemma CreateOrderDetailPreservesValid(s: Store, tenant: int, orderId: int, updatedBy: int, input: DetailInput,
                                        price: PriceLookup, cost: CostLookup)
    requires Valid(s)
    ensures Valid(CreateOrderDetail(s, tenant, orderId, updatedBy, input, price, cost).store)
  {
  }

  lemma CreateNewOrderPreservesValid(s: Store, tenant: int, updatedBy: int, data: OrderInput, detail: Option<DetailInput>,
                                     coordinator: CoordinatorCheck, price: PriceLookup, cost: CostLookup)
    requires Valid(s)
    ensures Valid(CreateNewOrder(s, tenant, updatedBy, data, detail, coordinator, price, cost).store)
  {
    if coordinator(tenant, data.companyFk, data.treatmentFk, data.patientFk) == Some(true) {
      var s1 := InsertOrder(s, NewOrderRow(s.nextOrderId, tenant, updatedBy, data));
      assert Valid(s1);
      if detail.Some? {
        CreateOrderDetailPreservesValid(s1, tenant, s.nextOrderId, updatedBy, detail.value, price, cost);
      }
    }
  }
}
