/** The claim service: tenant-scoped complaints against order details, soft-deleted by stamping
    `deleted_at`. Every criterion a caller passes has its `client_fk` overwritten with the tenant. */
module ClaimService {
  import opened Wrappers
  import opened Entities
  import Query

  /** The claim fields of a create request once the actor and the detail are split off. */
  datatype ClaimInput = ClaimInput(cause: string, urgency: string, reportedDate: int)

  /** `create`: the target detail must exist under the tenant; the claim is stamped with the tenant
      and the actor, linked to that detail, and written under the next identity. */
  function Create(s: Store, tenant: int, detailId: int, updatedBy: int, input: ClaimInput): (r: Step<Claim>)
    ensures r.result.Err? ==> r.store == s && r.result.error == Fail(NotFound)
    ensures r.result.Ok? <==> detailId in s.details && s.details[detailId].clientFk == tenant
    ensures r.result.Ok? ==>
      var c := r.result.value;
      && c.claimId == s.nextClaimId
      && c.clientFk == tenant && c.updatedBy == updatedBy && c.detailFk == detailId
      && c.cause == input.cause && c.urgency == input.urgency && c.reportedDate == input.reportedDate
      && c.deletedAt.None?
      && r.store == s.(claims := s.claims[c.claimId := c], nextClaimId := s.nextClaimId + 1)
  {
    if detailId !in s.details || s.details[detailId].clientFk != tenant then Step(s, Err(Fail(NotFound)))
    else
      var c := Claim(s.nextClaimId, tenant, detailId, input.cause, input.urgency, input.reportedDate, updatedBy, None);
      Step(InsertClaim(s, c), Ok(c))
  }

  /** The criteria a tenant-scoped call actually runs: the caller's, with the tenant written in. */
  function Scoped(tenant: int, where: ClaimFilter): (f: ClaimFilter)
    ensures f.clientFk == Some(tenant) && f.(clientFk := where.clientFk) == where
  {
    where.(clientFk := Some(tenant))
  }

  /** `findOneByUnique`: the claim under that identity, provided it belongs to the tenant and meets
      the caller's other criteria. The identity is the lookup key, so the criteria's own is unused. */
  function FindOne(s: Store, tenant: int, claimId: int, where: ClaimFilter): (r: Result<Claim>)
    ensures r.Ok? <==>
              && claimId in s.claims && s.claims[claimId].clientFk == tenant
              && ClaimMatches(s.claims[claimId], where.(claimId := None, clientFk := None))
    ensures r.Ok? ==> r.value == s.claims[claimId]
    ensures r.Err? ==> r.error == Fail(NotFound)
  {
    var f := Scoped(tenant, where).(claimId := None);
    if claimId in s.claims && ClaimMatches(s.claims[claimId], f) then Ok(s.claims[claimId]) else Err(Fail(NotFound))
  }

  /** The identities the sequence has handed out whose claim meets `f`. */
  function Candidates(s: Store, f: ClaimFilter): set<int> {
    set k | 0 <= k < s.nextClaimId && k in s.claims && ClaimMatches(s.claims[k], f)
  }

  /** `findByDetail` and `findAll` (the two share their body): the tenant's claims that meet the
      caller's criteria, as many as the page window over them holds; in a consistent store they come
      distinct and ascending by identity. */
  function FindMany(s: Store, tenant: int, where: ClaimFilter, page: Page): (rows: seq<Claim>)
    ensures forall i :: 0 <= i < |rows| ==>
              rows[i].clientFk == tenant && ClaimMatches(rows[i], where.(clientFk := None)) && rows[i] in s.claims.Values
    ensures |rows| == Query.Window(|Candidates(s, Scoped(tenant, where))|, page)
    ensures page.skip.None? && page.take.None? ==>
              forall k :: (0 <= k < s.nextClaimId && k in s.claims && s.claims[k].clientFk == tenant
                           && ClaimMatches(s.claims[k], where.(clientFk := None))) ==> s.claims[k] in rows
    ensures Valid(s) ==> forall i, j :: 0 <= i < j < |rows| ==> rows[i].claimId < rows[j].claimId
  {
    var f := Scoped(tenant, where);
    var keep := (c: Claim) => ClaimMatches(c, f);
    var key := (c: Claim) => c.claimId;
    assert Query.Matching(s.claims, keep, s.nextClaimId) == Candidates(s, f);
    assert Valid(s) ==> Query.KeyedBy(s.claims, key);
    Query.Select(s.claims, keep, key, s.nextClaimId, page)
  }

  /** Whatever `client_fk` the caller puts in the criteria, lookups answer as for the tenant. */
  lemma CallerTenantIgnored(s: Store, tenant: int, claimId: int, where: ClaimFilter, forged: Option<int>, page: Page)
    ensures FindOne(s, tenant, claimId, where.(clientFk := forged)) == FindOne(s, tenant, claimId, where)
    ensures FindMany(s, tenant, where.(clientFk := forged), page) == FindMany(s, tenant, where, page)
  {
    assert Scoped(tenant, where.(clientFk := forged)) == Scoped(tenant, where);
  }

  /** The fields an update may carry. Neither the identity nor the tenant is among them, as long as
      the validation pipe strips what the update request does not declare. */
  datatype ClaimPatch = ClaimPatch(
    detailFk: Option<int>,
    cause: Option<string>,
    urgency: Option<string>,
    reportedDate: Option<int>)

  /** `update`: the claim must belong to the tenant; the patch and the actor are written. A soft-deleted
      claim is updated like any other, and a patch naming a missing detail is refused by the store. */
  function Update(s: Store, tenant: int, claimId: int, updatedBy: int, patch: ClaimPatch): (r: Step<Claim>)
    ensures r.result.Err? ==> r.store == s && r.result.error.status == BadRequest
    ensures r.result.Ok? <==>
              && claimId in s.claims && s.claims[claimId].clientFk == tenant
              && (if patch.detailFk.Some? then patch.detailFk.value else s.claims[claimId].detailFk) in s.details
    ensures r.result.Ok? ==>
      var c := s.claims[claimId];
      var e := r.result.value;
      && e.claimId == c.claimId && e.clientFk == tenant && e.deletedAt == c.deletedAt && e.updatedBy == updatedBy
      && e.detailFk == (if patch.detailFk.Some? then patch.detailFk.value else c.detailFk)
      && e.cause == (if patch.cause.Some? then patch.cause.value else c.cause)
      && e.urgency == (if patch.urgency.Some? then patch.urgency.value else c.urgency)
      && e.reportedDate == (if patch.reportedDate.Some? then patch.reportedDate.value else c.reportedDate)
      && r.store == s.(claims := s.claims[claimId := e])
  {
    if claimId !in s.claims || s.claims[claimId].clientFk != tenant then Step(s, Err(Fail(NotFound)))
    else
      var c := s.claims[claimId];
      var e := c.(detailFk := if patch.detailFk.Some? then patch.detailFk.value else c.detailFk,
                  cause := if patch.cause.Some? then patch.cause.value else c.cause,
                  urgency := if patch.urgency.Some? then patch.urgency.value else c.urgency,
                  reportedDate := if patch.reportedDate.Some? then patch.reportedDate.value else c.reportedDate,
                  updatedBy := updatedBy);
      if e.detailFk !in s.details then Step(s, Err(Fail(Constraint)))
      else Step(PutClaim(s, claimId, e), Ok(e))
  }

  /** `delete`: the claim must belong to the tenant and not be deleted yet (that 404 reaches the caller
      as 400); the row stays, with only the deletion time and the actor changed. */
  function Delete(s: Store, tenant: int, claimId: int, updatedBy: int, now: int): (r: Step<Claim>)
    ensures r.result.Err? ==> r.store == s && r.result.error.status == BadRequest
    ensures r.result.Ok? <==>
              claimId in s.claims && s.claims[claimId].clientFk == tenant && s.claims[claimId].deletedAt.None?
    ensures claimId in s.claims && s.claims[claimId].clientFk == tenant && s.claims[claimId].deletedAt.Some? ==>
              r.result == Err(Fail(AlreadyDeleted))
    ensures r.result.Ok? ==>
              && r.result.value == s.claims[claimId].(deletedAt := Some(now), updatedBy := updatedBy)
              && r.store == s.(claims := s.claims[claimId := r.result.value])
    ensures r.store.claims.Keys == s.claims.Keys
  {
    match FindOne(s, tenant, claimId, ClaimFilter(None, None, None, Any))
    case Err(e) => Step(s, Err(e))
    case Ok(c) =>
      if c.deletedAt.Some? then Step(s, Err(Fail(AlreadyDeleted)))
      else
        var e := c.(deletedAt := Some(now), updatedBy := updatedBy);
        Step(PutClaim(s, claimId, e), Ok(e))
  }

  /** A second delete of the same claim always fails, whoever asks and whenever. */
  lemma DeleteTwiceFails(s: Store, tenant: int, claimId: int, u1: int, now1: int, u2: int, now2: int)
    requires Delete(s, tenant, claimId, u1, now1).result.Ok?
    ensures var s1 := Delete(s, tenant, claimId, u1, now1).store;
            Delete(s1, tenant, claimId, u2, now2) == Step(s1, Err(Fail(AlreadyDeleted)))
  {
  }

  /** Deletion does not stop updates: a deleted claim still takes a patch, and stays deleted. */
  lemma UpdateReachesDeletedClaims(s: Store, tenant: int, claimId: int, u1: int, now: int, u2: int, patch: ClaimPatch)
    requires Valid(s) && Delete(s, tenant, claimId, u1, now).result.Ok?
    requires patch.detailFk.None?
    ensures var s1 := Delete(s, tenant, claimId, u1, now).store;
            var r := Update(s1, tenant, claimId, u2, patch);
            r.result.Ok? && r.result.value.deletedAt == Some(now)
  {
  }

  /** Another tenant's claim is indistinguishable from a missing one to every claim operation. */
  lemma ForeignClaimsUntouchable(s: Store, tenant: int, claimId: int, updatedBy: int, now: int,
                                 where: ClaimFilter, patch: ClaimPatch)
    requires claimId in s.claims && s.claims[claimId].clientFk != tenant
    ensures FindOne(s, tenant, claimId, where) == Err(Fail(NotFound))
    ensures Update(s, tenant, claimId, updatedBy, patch) == Step(s, Err(Fail(NotFound)))
    ensures Delete(s, tenant, claimId, updatedBy, now) == Step(s, Err(Fail(NotFound)))
  {
  }

  lemma CreatePreservesValid(s: Store, tenant: int, detailId: int, updatedBy: int, input: ClaimInput)
    requires Valid(s)
    ensures Valid(Create(s, tenant, detailId, updatedBy, input).store)
  {
  }

  lemma UpdatePreservesValid(s: Store, tenant: int, claimId: int, updatedBy: int, patch: ClaimPatch)
    requires Valid(s)
    ensures Valid(Update(s, tenant, claimId, updatedBy, patch).store)
  {
  }

  lemma DeletePreservesValid(s: Store, tenant: int, claimId: int, updatedBy: int, now: int)
    requires Valid(s)
    ensures Valid(Delete(s, tenant, claimId, updatedBy, now).store)
  {
  }
}
