/** The order-detail message handlers, reduced to what they decide: the criteria each one builds
    before calling the service, and the fields it strips from the request. */
module DetailController {
  import opened Wrappers
  import opened Entities
  import DetailService
  import Query

  /** `limit`/`offset` of a list request. */
  datatype Pagination = Pagination(limit: Option<nat>, offset: Option<nat>)

  /** `limit` becomes `take` and `offset` becomes `skip`. */
  function ToPage(p: Pagination): (page: Page)
    ensures page.take == p.limit && page.skip == p.offset
  {
    Page(p.offset, p.limit)
  }

  /** The criteria `findAll` passes on: the caller's (or none), with `finished_at = null` forced. */
  function OpenCriteria(whereInput: Option<DetailFilter>): (f: DetailFilter)
    ensures f.finishedAt == IsNull
    ensures whereInput.Some? ==> f.(finishedAt := whereInput.value.finishedAt) == whereInput.value
    ensures whereInput.None? ==> f == NoDetailFilter.(finishedAt := IsNull)
  {
    (if whereInput.Some? then whereInput.value else NoDetailFilter).(finishedAt := IsNull)
  }

  /** `findAll`: the tenant's unfinished rows meeting the caller's other criteria, as many as the
      `offset`/`limit` window over them holds, all of them when the request does not page, distinct
      and ascending by identity in a consistent store. */
  function FindAll(s: Store, tenant: int, whereInput: Option<DetailFilter>, p: Pagination): (rows: seq<OrderDetail>)
    ensures forall i :: 0 <= i < |rows| ==>
              && rows[i].clientFk == tenant && rows[i].finishedAt.None? && rows[i] in s.details.Values
              && (whereInput.Some? ==> DetailMatches(rows[i], whereInput.value.(clientFk := None, finishedAt := Any)))
    ensures p.limit.Some? ==> |rows| <= p.limit.value
    ensures |rows| == Query.Window(|DetailService.Candidates(s, OpenCriteria(whereInput).(clientFk := Some(tenant)))|, ToPage(p))
    ensures p.limit.None? && p.offset.None? ==>
              forall k :: (0 <= k < s.nextDetailId && k in s.details && s.details[k].clientFk == tenant
                           && s.details[k].finishedAt.None?
                           && DetailMatches(s.details[k], OpenCriteria(whereInput).(clientFk := None))) ==> s.details[k] in rows
    ensures Valid(s) ==> forall i, j :: 0 <= i < j < |rows| ==> rows[i].detailId < rows[j].detailId
  {
    DetailService.FindAll(s, tenant, OpenCriteria(whereInput), ToPage(p))
  }

  /** Neither the caller's `finished_at` nor its `client_fk` has any effect, and sending no criteria
      is sending the empty ones. */
  lemma FindAllOverridesCaller(s: Store, tenant: int, where: DetailFilter, finished: Match<int>, forged: Option<int>,
                               p: Pagination)
    ensures FindAll(s, tenant, Some(where.(finishedAt := finished, clientFk := forged)), p) == FindAll(s, tenant, Some(where), p)
    ensures FindAll(s, tenant, None, p) == FindAll(s, tenant, Some(NoDetailFilter), p)
  {
    assert OpenCriteria(Some(where.(finishedAt := finished, clientFk := forged))).(clientFk := Some(tenant))
        == OpenCriteria(Some(where)).(clientFk := Some(tenant));
  }

  /** `UpdateDetailDto`: the identity and the actor travel with the fields to change. */
  datatype UpdateDetailDto = UpdateDetailDto(detailId: int, updatedBy: int, fields: DetailService.DetailPatch)

  /** `update`: the identity and the actor are split off and the rest becomes the patch, so whatever
      the request carries the row written is the one it names, under its own key. */
  function Update(s: Store, tenant: int, dto: UpdateDetailDto): (r: Step<OrderDetail>)
    ensures r.result.Ok? ==>
              && dto.detailId in s.details
              && r.store.details == s.details[dto.detailId := r.result.value]
              && r.store.details.Keys == s.details.Keys
              && (Valid(s) ==> r.result.value.detailId == dto.detailId)
              && r.result.value.updatedBy == dto.updatedBy
    ensures r.result.Err? ==> r.store == s
  {
    DetailService.Update(s, tenant, dto.detailId, dto.updatedBy, dto.fields)
  }

  /** Every other row is left as it was: an update touches the row it names and no other. */
  lemma UpdateTouchesOnlyNamedRow(s: Store, tenant: int, dto: UpdateDetailDto, k: int)
    requires k in s.details && k != dto.detailId
    ensures k in Update(s, tenant, dto).store.details
    ensures Update(s, tenant, dto).store.details[k] == s.details[k]
  {
  }

  /** The criteria a professional's own handlers use: assigned as the payload's `professional_id`
      says and not finished. The id is taken from the payload unchecked, so a missing one constrains
      nothing and a null one selects the unassigned rows. */
  function AssignedOpen(professional: Match<int>): (f: DetailFilter)
    ensures forall d :: DetailMatches(d, f) <==> Meets(d.professionalFk, professional) && d.finishedAt.None?
  {
    NoDetailFilter.(professionalFk := professional, finishedAt := IsNull)
  }

  /** `getProfessionalDetails`: the unfinished rows assigned to the professional, of any tenant, as
      many as the `offset`/`limit` window holds, distinct and ascending in a consistent store. */
  function GetProfessionalDetails(s: Store, professional: Match<int>, p: Pagination): (rows: seq<OrderDetail>)
    ensures forall i :: 0 <= i < |rows| ==>
              Meets(rows[i].professionalFk, professional) && rows[i].finishedAt.None? && rows[i] in s.details.Values
    ensures p.limit.Some? ==> |rows| <= p.limit.value
    ensures |rows| == Query.Window(|DetailService.Candidates(s, AssignedOpen(professional))|, ToPage(p))
    ensures p.limit.None? && p.offset.None? ==>
              forall k :: (0 <= k < s.nextDetailId && k in s.details && Meets(s.details[k].professionalFk, professional)
                           && s.details[k].finishedAt.None?) ==> s.details[k] in rows
    ensures Valid(s) ==> forall i, j :: 0 <= i < j < |rows| ==> rows[i].detailId < rows[j].detailId
  {
    DetailService.FindMany(s, AssignedOpen(professional), ToPage(p))
  }

  /** `getProfessionalDetail`: the row, only while it is assigned to that professional and unfinished. */
  function GetProfessionalDetail(s: Store, detailId: int, professional: Match<int>): (r: Result<OrderDetail>)
    ensures r.Ok? <==>
              detailId in s.details && Meets(s.details[detailId].professionalFk, professional)
              && s.details[detailId].finishedAt.None?
    ensures r.Ok? ==> r.value == s.details[detailId]
  {
    DetailService.FindUnique(s, detailId, AssignedOpen(professional))
  }

  /** `addSession`: one more session on the row, only while it is assigned to that professional and
      unfinished; nothing else about the row changes. */
  function AddSession(s: Store, detailId: int, professional: Match<int>): (r: Step<OrderDetail>)
    ensures r.result.Err? ==> r.store == s
    ensures r.result.Ok? <==>
              detailId in s.details && Meets(s.details[detailId].professionalFk, professional)
              && s.details[detailId].finishedAt.None?
    ensures r.result.Ok? ==>
              var d := s.details[detailId];
              && (d.sessions.Some? ==> r.result.value.sessions == Some(d.sessions.value + 1))
              && r.result.value.(sessions := d.sessions) == d
              && r.store == s.(details := s.details[detailId := r.result.value])
  {
    DetailService.AddSession(s, detailId, AssignedOpen(professional))
  }

  /** Nothing bounds the count by the total: a row whose sessions already reach the total takes
      one more. */
  lemma AddSessionIgnoresTotal(s: Store, detailId: int, professional: Match<int>)
    requires detailId in s.details
    requires Meets(s.details[detailId].professionalFk, professional) && s.details[detailId].finishedAt.None?
    requires s.details[detailId].sessions.Some? && s.details[detailId].totalSessions.Some?
    requires s.details[detailId].sessions.value == s.details[detailId].totalSessions.value
    ensures var e := AddSession(s, detailId, professional).result.value;
            e.sessions.value > e.totalSessions.value
  {
  }

  /** A payload without `professional_id` opens every unfinished row to the professional handlers,
      and one whose id is null opens the unassigned ones. */
  lemma UncheckedProfessionalReachesOthersRows(s: Store, detailId: int, someone: int)
    requires detailId in s.details && s.details[detailId].finishedAt.None?
    ensures s.details[detailId].professionalFk == Some(someone) ==>
              AddSession(s, detailId, Any).result.Ok? && GetProfessionalDetail(s, detailId, Any).Ok?
    ensures s.details[detailId].professionalFk.None? ==>
              AddSession(s, detailId, IsNull).result.Ok? && GetProfessionalDetail(s, detailId, IsNull).Ok?
  {
  }

  /** Once a row is finalized no professional can add a session to it, nor fetch it. */
  lemma FinalizedRowsClosed(s: Store, tenant: int, detailId: int, updatedBy: int, now: int, professional: Match<int>)
    requires DetailService.Finalize(s, tenant, detailId, updatedBy, now).result.Ok?
    ensures var s1 := DetailService.Finalize(s, tenant, detailId, updatedBy, now).store;
            && AddSession(s1, detailId, professional) == Step(s1, Err(Fail(NotFound)))
            && GetProfessionalDetail(s1, detailId, professional) == Err(Fail(NotFound))
  {
  }
}
