/** Optional values, request fields, results and the single error envelope every service operation
    reports. */
module Wrappers {

  datatype Option<+T> = None | Some(value: T)

  /** A field of a request body as JavaScript sees it: left out (`undefined`), sent as `null`, or
      given. The store keeps the first two alike, but `Object.assign`, Prisma and the comparison
      operators do not. */
  datatype Field<+T> = Omitted | ExplicitNull | Given(value: T)

  /** The column a create writes from a field: a left-out or null field leaves the column null. */
  function Stored<T>(f: Field<T>): (o: Option<T>)
    ensures o.Some? <==> f.Given?
    ensures f.Given? ==> o.value == f.value
  {
    if f.Given? then Some(f.value) else None
  }

  /** A column read back from the store, as the JavaScript value it becomes: null when unset. */
  function Loaded<T>(o: Option<T>): (f: Field<T>)
    ensures !f.Omitted?
    ensures Stored(f) == o
  {
    if o.Some? then Given(o.value) else ExplicitNull
  }

  /** Why an operation failed. The source distinguishes these only in its message text. */
  datatype Reason =
    | NotFound       // a (tenant-scoped) lookup matched no row
    | Invalid        // a business rule rejected the data (sessions over total, coordinator said no)
    | Unavailable    // a remote authority did not answer
    | AlreadyFinished
    | AlreadyDeleted
    | Constraint     // the store refused the write (a missing row referenced, a null in a required column)

  /** Every service method catches whatever it raised and rethrows it with status 400,
      so the inner 404 of finalize/delete is never what the caller sees. */
  datatype Failure = Failure(status: int, reason: Reason)

  const BadRequest := 400

  function Fail(reason: Reason): Failure {
    Failure(BadRequest, reason)
  }

  datatype Result<+T> = Ok(value: T) | Err(error: Failure)

  /** JavaScript truthiness of an optional number: left out, null and zero are falsy. */
  predicate Falsy<T(==)>(x: Field<T>, zero: T) {
    !x.Given? || x.value == zero
  }
}
