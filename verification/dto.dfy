/** The request bodies of the three create messages and the class-validator constraints on them, as
    well-formedness predicates over the decoded JSON fields. */
module Dto {
  import opened Wrappers
  import opened Entities
  import DateFormat
  import Sessions

  /** A JSON field as the validator sees it. `Absent` is `undefined`; `Other` stands for booleans,
      arrays and objects, which fail every check used here. */
  datatype Value = Absent | Null | Num(n: real) | Text(s: string) | Other

  /** A field carrying `@Type(() => Date)`, after conversion: no field, a null (which the conversion
      passes through), a `Date` whose time is not a number, or a valid instant in ms. */
  datatype DateField = NoDate | NullDate | BadDate | At(ms: int)

  const MaxId: real := 2147483647.0

  /** `@IsOptional()`: null and undefined skip the field's other checks. */
  predicate Skipped(v: Value) {
    v.Absent? || v.Null?
  }

  /** `@IsInt()`: a number with no fractional part. */
  predicate IsIntValue(v: Value) {
    v.Num? && v.n.Floor as real == v.n
  }

  /** `@IsInt() @IsPositive() @Max(2147483647)`: an identity column's range. */
  predicate IsId(v: Value) {
    IsIntValue(v) && 0.0 < v.n <= MaxId
  }

  /** `@IsInt() @Min(lo) @Max(hi)`. */
  predicate IsIntIn(v: Value, lo: real, hi: real) {
    IsIntValue(v) && lo <= v.n <= hi
  }

  /** `@Matches(/^\d{4}-\d{2}-\d{2}$/)`: only strings can match. */
  predicate IsDateText(v: Value) {
    v.Text? && DateFormat.IsDateShape(v.s)
  }

  // ---- CreateDetailDto (the order-detail service's create message) ----

  datatype CreateDetailDto = CreateDetailDto(
    clientFk: Value,
    updatedBy: Value,
    orderFk: Value,
    professionalFk: Value,
    startDate: DateField,
    finishDate: DateField,
    totalSessions: Value,
    sessions: Value,
    coinsurance: Value,
    value: Value,
    cost: Value,
    startedAt: DateField,
    finishedAt: DateField,
    requirements: Value)

  /** Every constraint of `CreateDetailDto`: optional positive 32-bit identities, two required dates,
      an optional total in 0..31, an optional non-negative integer count, optional non-negative
      amounts, optional dates and an optional text. `client_fk` carries no constraint. */
  predicate ValidCreateDetailDto(d: CreateDetailDto) {
    && (Skipped(d.updatedBy) || IsId(d.updatedBy))
    && (Skipped(d.orderFk) || IsId(d.orderFk))
    && (Skipped(d.professionalFk) || IsId(d.professionalFk))
    && d.startDate.At? && d.finishDate.At?
    && (Skipped(d.totalSessions) || IsIntIn(d.totalSessions, 0.0, 31.0))
    && (Skipped(d.sessions) || (IsIntValue(d.sessions) && d.sessions.n >= 0.0))
    && (Skipped(d.coinsurance) || (d.coinsurance.Num? && d.coinsurance.n >= 0.0))
    && (Skipped(d.value) || (d.value.Num? && d.value.n >= 0.0))
    && (Skipped(d.cost) || (d.cost.Num? && d.cost.n >= 0.0))
    && !d.startedAt.BadDate? && !d.finishedAt.BadDate?
    && (Skipped(d.requirements) || d.requirements.Text?)
  }

  /** `f` is the JSON field `v` as the service receives it: left out exactly when absent, null exactly
      when null, and given exactly when a number, with that number's value. */
  predicate CarriesInt(v: Value, f: Field<int>) {
    && (f.Omitted? <==> v.Absent?) && (f.ExplicitNull? <==> v.Null?) && (f.Given? <==> v.Num?)
    && (f.Given? ==> f.value as real == v.n)
  }

  predicate CarriesReal(v: Value, f: Field<real>) {
    && (f.Omitted? <==> v.Absent?) && (f.ExplicitNull? <==> v.Null?) && (f.Given? <==> v.Num?)
    && (f.Given? ==> f.value == v.n)
  }

  predicate CarriesText(v: Value, f: Field<string>) {
    && (f.Omitted? <==> v.Absent?) && (f.ExplicitNull? <==> v.Null?) && (f.Given? <==> v.Text?)
    && (f.Given? ==> f.value == v.s)
  }

  predicate CarriesDate(v: DateField, f: Field<int>) {
    && (f.Omitted? <==> v.NoDate?) && (f.ExplicitNull? <==> v.NullDate?) && (f.Given? <==> v.At?)
    && (f.Given? ==> f.value == v.ms)
  }

  /** How a number field reaches the service: left out, null, or the number. The values no accepted
      request carries here (texts and the like) are treated as left out. */
  function IntOf(v: Value): (f: Field<int>)
    ensures Skipped(v) || IsIntValue(v) ==> CarriesInt(v, f)
  {
    match v
    case Null => ExplicitNull
    case Num(n) => Given(n.Floor)
    case _ => Omitted
  }

  function RealOf(v: Value): (f: Field<real>)
    ensures Skipped(v) || v.Num? ==> CarriesReal(v, f)
  {
    match v
    case Null => ExplicitNull
    case Num(n) => Given(n)
    case _ => Omitted
  }

  function TextOf(v: Value): (f: Field<string>)
    ensures Skipped(v) || v.Text? ==> CarriesText(v, f)
  {
    match v
    case Null => ExplicitNull
    case Text(s) => Given(s)
    case _ => Omitted
  }

  function InstantOf(f: DateField): (g: Field<int>)
    ensures !f.BadDate? ==> CarriesDate(f, g)
  {
    match f
    case NullDate => ExplicitNull
    case At(ms) => Given(ms)
    case _ => Omitted
  }

  /** The service input a valid `CreateDetailDto` becomes once the handler splits off the actor and
      the order: every field arrives as the request sent it, so every bound of the request holds of it. */
  function DetailInputOf(d: CreateDetailDto): (input: DetailInput)
    requires ValidCreateDetailDto(d)
    ensures CarriesInt(d.professionalFk, input.professionalFk)
    ensures CarriesInt(d.totalSessions, input.totalSessions) && CarriesInt(d.sessions, input.sessions)
    ensures CarriesReal(d.coinsurance, input.coinsurance) && CarriesReal(d.value, input.value)
    ensures CarriesReal(d.cost, input.cost)
    ensures CarriesDate(d.startedAt, input.startedAt) && CarriesDate(d.finishedAt, input.finishedAt)
    ensures CarriesText(d.requirements, input.requirements)
    ensures input.startDate == d.startDate.ms && input.finishDate == d.finishDate.ms
    ensures input.professionalFk.Given? ==> 0 < input.professionalFk.value <= 2147483647
    ensures input.totalSessions.Given? ==> 0 <= input.totalSessions.value <= 31
    ensures input.sessions.Given? ==> input.sessions.value >= 0
    ensures input.coinsurance.Given? ==> input.coinsurance.value >= 0.0
    ensures input.value.Given? ==> input.value.value >= 0.0
    ensures input.cost.Given? ==> input.cost.value >= 0.0
  {
    DetailInput(IntOf(d.clientFk), IntOf(d.professionalFk), d.startDate.ms, d.finishDate.ms,
                IntOf(d.totalSessions), IntOf(d.sessions), RealOf(d.coinsurance), RealOf(d.value), RealOf(d.cost),
                InstantOf(d.startedAt), InstantOf(d.finishedAt), TextOf(d.requirements))
  }

  lemma DetailDtoExamples()
    ensures ValidCreateDetailDto(CreateDetailDto(Absent, Num(1.0), Num(2.0), Absent, At(0), At(86400000),
                                                 Num(31.0), Num(0.0), Num(0.0), Num(0.0), Num(0.0), NoDate, NoDate, Null))
    ensures !ValidCreateDetailDto(CreateDetailDto(Absent, Num(1.0), Num(2.0), Absent, NoDate, At(86400000),
                                                  Absent, Absent, Absent, Absent, Absent, NoDate, NoDate, Absent))
    ensures !ValidCreateDetailDto(CreateDetailDto(Absent, Absent, Absent, Absent, At(0), At(0),
                                                  Num(32.0), Absent, Absent, Absent, Absent, NoDate, NoDate, Absent))
    ensures !ValidCreateDetailDto(CreateDetailDto(Absent, Absent, Absent, Absent, At(0), At(0),
                                                  Absent, Num(-1.0), Absent, Absent, Absent, NoDate, NoDate, Absent))
  {
  }

  /** On a valid request the service's falsy test is exactly "omitted or 0": the bounds rule out
      every other falsy number. */
  lemma DetailInputFalsyMeansOmittedOrZero(d: CreateDetailDto)
    requires ValidCreateDetailDto(d)
    ensures Falsy(DetailInputOf(d).totalSessions, 0) <==> Skipped(d.totalSessions) || d.totalSessions == Num(0.0)
    ensures Falsy(DetailInputOf(d).value, 0.0) <==> Skipped(d.value) || d.value == Num(0.0)
  {
  }

  // ---- CreateOrderDetailDto (the order service's create message) ----

  datatype CreateOrderDetailDto = CreateOrderDetailDto(
    clientFk: Value,
    updatedBy: Value,
    orderFk: Value,
    professionalFk: Value,
    startDate: Value,
    finishDate: Value,
    totalSessions: Value,
    sessions: Value,
    coinsurance: Value,
    value: Value,
    cost: Value,
    startedAt: Value,
    finishedAt: Value,
    requirements: Value)

  /** The property initializers `= 0`: a field the body omits is 0 on the instance; an explicit null
      stays null. */
  function ZeroIfAbsent(v: Value): (w: Value)
    ensures v.Absent? ==> w == Num(0.0)
    ensures !v.Absent? ==> w == v
  {
    if v.Absent? then Num(0.0) else v
  }

  function WithDefaults(d: CreateOrderDetailDto): (e: CreateOrderDetailDto)
    ensures !e.totalSessions.Absent? && !e.sessions.Absent? && !e.coinsurance.Absent?
    ensures !e.value.Absent? && !e.cost.Absent?
  {
    d.(totalSessions := ZeroIfAbsent(d.totalSessions), sessions := ZeroIfAbsent(d.sessions),
       coinsurance := ZeroIfAbsent(d.coinsurance), value := ZeroIfAbsent(d.value), cost := ZeroIfAbsent(d.cost))
  }

  /** The constraints shared by both readings: required identities for the actor and the order, an
      optional professional, dates in `YYYY-MM-DD` shape (optional for the two instants), optional text. */
  predicate ValidOrderDetailFrame(d: CreateOrderDetailDto) {
    && IsId(d.updatedBy) && IsId(d.orderFk)
    && (Skipped(d.professionalFk) || IsId(d.professionalFk))
    && IsDateText(d.startDate) && IsDateText(d.finishDate)
    && (Skipped(d.startedAt) || IsDateText(d.startedAt))
    && (Skipped(d.finishedAt) || IsDateText(d.finishedAt))
    && (Skipped(d.requirements) || d.requirements.Text?)
  }

  /** `CreateOrderDetailDto` as written: the total, the count and the three amounts must be positive
      when present, the total at most 31. */
  predicate ValidCreateOrderDetailDto(d: CreateOrderDetailDto) {
    && ValidOrderDetailFrame(d)
    && (Skipped(d.totalSessions) || IsIntIn(d.totalSessions, 1.0, 31.0))
    && (Skipped(d.sessions) || (IsIntValue(d.sessions) && d.sessions.n > 0.0))
    && (Skipped(d.coinsurance) || (d.coinsurance.Num? && d.coinsurance.n > 0.0))
    && (Skipped(d.value) || (d.value.Num? && d.value.n > 0.0))
    && (Skipped(d.cost) || (d.cost.Num? && d.cost.n > 0.0))
  }

  /** The same constraints with `@Min(0)` in place of `@IsPositive()` on the five defaulted fields, as
      `CreateDetailDto` has them: the defaults themselves are admitted. */
  predicate ValidCreateOrderDetailDtoIntended(d: CreateOrderDetailDto) {
    && ValidOrderDetailFrame(d)
    && (Skipped(d.totalSessions) || IsIntIn(d.totalSessions, 0.0, 31.0))
    && (Skipped(d.sessions) || (IsIntValue(d.sessions) && d.sessions.n >= 0.0))
    && (Skipped(d.coinsurance) || (d.coinsurance.Num? && d.coinsurance.n >= 0.0))
    && (Skipped(d.value) || (d.value.Num? && d.value.n >= 0.0))
    && (Skipped(d.cost) || (d.cost.Num? && d.cost.n >= 0.0))
  }

  lemma OrderDetailDtoExamples()
    ensures ValidOrderDetailFrame(CreateOrderDetailDto(Absent, Num(5.0), Num(1.0), Absent, Text("2024-01-01"),
                                                       Text("2024-01-15"), Absent, Absent, Absent, Absent, Absent,
                                                       Null, Absent, Absent))
    ensures !ValidOrderDetailFrame(CreateOrderDetailDto(Absent, Num(5.0), Absent, Absent, Text("2024-01-01"),
                                                        Text("2024-01-15"), Absent, Absent, Absent, Absent, Absent,
                                                        Absent, Absent, Absent))
    ensures !ValidOrderDetailFrame(CreateOrderDetailDto(Absent, Num(5.0), Num(1.0), Absent, Text("2024-1-01"),
                                                        Text("2024-01-15"), Absent, Absent, Absent, Absent, Absent,
                                                        Absent, Absent, Absent))
  {
    assert DateFormat.IsDateShape("2024-01-01") && DateFormat.IsDateShape("2024-01-15");
  }

  /** As written, a body that omits any of the five defaulted fields is refused: the default 0 is not
      positive and `@IsOptional()` does not skip it. */
  lemma OmittedCountRejectedAsWritten(d: CreateOrderDetailDto)
    requires d.totalSessions.Absent? || d.sessions.Absent? || d.coinsurance.Absent? || d.value.Absent? || d.cost.Absent?
    ensures !ValidCreateOrderDetailDto(WithDefaults(d))
  {
  }

  /** As written, every accepted body carries a non-zero total, value and cost, so the order
      service's `=== 0` branches are unreachable through this request. */
  lemma AcceptedBodyHasNoZeros(d: CreateOrderDetailDto)
    requires ValidCreateOrderDetailDto(WithDefaults(d))
    ensures var e := WithDefaults(d);
            e.totalSessions != Num(0.0) && e.value != Num(0.0) && e.cost != Num(0.0)
  {
  }

  /** A concrete body the defaults make invalid: every required field well formed, the total omitted. */
  lemma OmittedTotalExample()
    ensures var d := CreateOrderDetailDto(Absent, Num(5.0), Num(1.0), Absent, Text("2024-01-01"), Text("2024-01-15"),
                                          Absent, Num(2.0), Num(1.0), Num(10.0), Num(4.0), Absent, Absent, Absent);
            && ValidOrderDetailFrame(d)
            && !ValidCreateOrderDetailDto(WithDefaults(d))
            && ValidCreateOrderDetailDtoIntended(WithDefaults(d))
  {
    assert DateFormat.IsDateShape("2024-01-01") && DateFormat.IsDateShape("2024-01-15");
  }

  /** The intended reading accepts a body with the five fields omitted, and they reach the service as
      0, which is what its `=== 0` branches look for. */
  lemma OmittedCountsReachServiceAsZero(d: CreateOrderDetailDto, dateOf: string -> int)
    requires ValidOrderDetailFrame(d)
    requires d.totalSessions.Absent? && d.sessions.Absent? && d.coinsurance.Absent? && d.value.Absent? && d.cost.Absent?
    ensures ValidCreateOrderDetailDtoIntended(WithDefaults(d))
    ensures var input := OrderDetailInputOf(WithDefaults(d), dateOf);
            input.totalSessions == Given(0) && input.value == Given(0.0) && input.cost == Given(0.0)
            && input.sessions == Given(0)
  {
  }

  /** Every body the intended reading accepts, with its defaults, also satisfies the written one
      once its zero fields are dropped: the two readings differ on the zeros alone. */
  lemma IntendedDiffersOnlyOnZeros(d: CreateOrderDetailDto)
    requires ValidCreateOrderDetailDtoIntended(d)
    ensures ValidCreateOrderDetailDto(d.(totalSessions := DropZero(d.totalSessions), sessions := DropZero(d.sessions),
                                         coinsurance := DropZero(d.coinsurance), value := DropZero(d.value),
                                         cost := DropZero(d.cost)))
  {
  }

  /** The as-written predicate is the stricter one. */
  lemma WrittenImpliesIntended(d: CreateOrderDetailDto)
    requires ValidCreateOrderDetailDto(d)
    ensures ValidCreateOrderDetailDtoIntended(d)
  {
  }

  function DropZero(v: Value): (w: Value)
    ensures v == Num(0.0) ==> w.Absent?
    ensures v != Num(0.0) ==> w == v
  {
    if v == Num(0.0) then Absent else v
  }

  /** A day field of the order-detail body as the service receives it, the text parsed by `dateOf`. */
  function DayOf(v: Value, dateOf: string -> int): (f: Field<int>)
    ensures Skipped(v) || v.Text? ==> CarriesDay(v, f, dateOf)
  {
    match v
    case Null => ExplicitNull
    case Text(s) => Given(dateOf(s))
    case _ => Omitted
  }

  predicate CarriesDay(v: Value, f: Field<int>, dateOf: string -> int) {
    && (f.Omitted? <==> v.Absent?) && (f.ExplicitNull? <==> v.Null?) && (f.Given? <==> v.Text?)
    && (f.Given? ==> f.value == dateOf(v.s))
  }

  /** The service input an accepted order-detail body becomes; the day strings are turned into
      instants by `dateOf`, the `Date` parsing that is not part of this model. Every field arrives as
      the body carries it, null included. */
  function OrderDetailInputOf(d: CreateOrderDetailDto, dateOf: string -> int): (input: DetailInput)
    requires ValidCreateOrderDetailDtoIntended(d)
    ensures CarriesInt(d.professionalFk, input.professionalFk)
    ensures CarriesInt(d.totalSessions, input.totalSessions) && CarriesInt(d.sessions, input.sessions)
    ensures CarriesReal(d.coinsurance, input.coinsurance) && CarriesReal(d.value, input.value)
    ensures CarriesReal(d.cost, input.cost)
    ensures CarriesDay(d.startedAt, input.startedAt, dateOf) && CarriesDay(d.finishedAt, input.finishedAt, dateOf)
    ensures CarriesText(d.requirements, input.requirements)
    ensures input.startDate == dateOf(d.startDate.s) && input.finishDate == dateOf(d.finishDate.s)
    ensures input.totalSessions.Given? ==> 0 <= input.totalSessions.value <= 31
    ensures input.sessions.Given? ==> input.sessions.value >= 0
    ensures input.value.Given? ==> input.value.value >= 0.0
    ensures input.cost.Given? ==> input.cost.value >= 0.0
    ensures input.professionalFk.Given? ==> 0 < input.professionalFk.value <= 2147483647
  {
    DetailInput(IntOf(d.clientFk), IntOf(d.professionalFk), dateOf(d.startDate.s), dateOf(d.finishDate.s),
                IntOf(d.totalSessions), IntOf(d.sessions), RealOf(d.coinsurance), RealOf(d.value), RealOf(d.cost),
                DayOf(d.startedAt, dateOf), DayOf(d.finishedAt, dateOf), TextOf(d.requirements))
  }

  // ---- CreateOrderDto (the order service's create message) ----

  datatype CreateOrderDto = CreateOrderDto(
    clientFk: Value,
    updatedBy: Value,
    companyFk: Value,
    patientFk: Value,
    treatmentFk: Value,
    frequency: Value,
    diagnosis: Value)

  /** Required positive 32-bit identities for the actor, company, patient and treatment; a weekly
      frequency that is an integer in 1..7; an optional diagnosis text; no constraint on `client_fk`. */
  predicate ValidCreateOrderDto(d: CreateOrderDto) {
    && IsId(d.updatedBy) && IsId(d.companyFk) && IsId(d.patientFk) && IsId(d.treatmentFk)
    && IsIntIn(d.frequency, 1.0, 7.0)
    && (Skipped(d.diagnosis) || d.diagnosis.Text?)
  }

  /** The frequency of an accepted order body, as the integer the session arithmetic uses. */
  function FrequencyOf(d: CreateOrderDto): (f: int)
    requires ValidCreateOrderDto(d)
    ensures 1 <= f <= 7 && f as real == d.frequency.n
  {
    d.frequency.n.Floor
  }

  /** An accepted frequency never yields a negative session count over a window that runs forwards,
      and never fewer sessions over a longer window. */
  lemma AcceptedFrequencyCountsSensibly(d: CreateOrderDto, start: int, finish: int, longerFinish: int)
    requires ValidCreateOrderDto(d)
    requires start <= finish <= longerFinish
    ensures 0 <= Sessions.TotalSessions(FrequencyOf(d), start, finish)
              <= Sessions.TotalSessions(FrequencyOf(d), start, longerFinish)
  {
    Sessions.TotalSessionsNonNegative(FrequencyOf(d), start, finish);
    Sessions.TotalSessionsMonotone(FrequencyOf(d), start, finish, start, longerFinish);
  }

  /** `client_fk` is never checked: any value, of any type, leaves validity unchanged. */
  lemma OrderClientFkUnchecked(d: CreateOrderDto, forged: Value)
    ensures ValidCreateOrderDto(d.(clientFk := forged)) == ValidCreateOrderDto(d)
  {
  }

  lemma OrderDtoExamples()
    ensures ValidCreateOrderDto(CreateOrderDto(Other, Num(1.0), Num(2.0), Num(3.0), Num(4.0), Num(7.0), Absent))
    ensures !ValidCreateOrderDto(CreateOrderDto(Absent, Num(1.0), Num(2.0), Num(3.0), Num(4.0), Num(8.0), Absent))
    ensures !ValidCreateOrderDto(CreateOrderDto(Absent, Num(1.0), Num(2.0), Num(3.0), Num(4.0), Num(2.5), Absent))
    ensures !ValidCreateOrderDto(CreateOrderDto(Absent, Num(1.0), Num(0.0), Num(3.0), Num(4.0), Num(2.0), Null))
    ensures !ValidCreateOrderDto(CreateOrderDto(Absent, Num(1.0), Num(2.0), Num(3.0), Num(2147483648.0), Num(2.0), Null))
  {
  }
}
