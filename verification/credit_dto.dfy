/** The credit-issuance request: its field constraints, checked before the
    service is reached, and its mapping to a credit entity. */
module CreditDtos {
  import opened Wrappers
  import opened Entities

  /** The request as it arrives, every field possibly null. */
  datatype CreditRequest = CreditRequest(
    creditValue: Option<Money>,
    dayFirstOfInstallment: Option<Date>,
    numberOfInstallments: Option<int>,
    customerId: Option<int>)

  /** A request that passed validation: every field present. */
  datatype CreditDto = CreditDto(
    creditValue: Money,
    dayFirstOfInstallment: Date,
    numberOfInstallments: int,
    customerId: int)

  /** One failed field constraint. */
  datatype Violation =
    | CreditValueMissing
    /** The date is absent; the property's non-null type rejects it. */
    | DayFirstMissing
    | DayFirstNotFuture
    | InstallmentsMissing
    | InstallmentsBelowMin
    | InstallmentsAboveMax
    | CustomerIdMissing

  /** The installment bounds, both inclusive. */
  const MinInstallments: int := 1
  const MaxInstallments: int := 48

  /** Every constraint the request breaks, given the current date `today`. */
  function Violations(req: CreditRequest, today: Date): (vs: set<Violation>)
    ensures CreditValueMissing in vs <==> req.creditValue.None?
    ensures DayFirstMissing in vs <==> req.dayFirstOfInstallment.None?
    ensures DayFirstNotFuture in vs <==> req.dayFirstOfInstallment.Some? && req.dayFirstOfInstallment.value <= today
    ensures InstallmentsMissing in vs <==> req.numberOfInstallments.None?
    ensures InstallmentsBelowMin in vs <==> req.numberOfInstallments.Some? && req.numberOfInstallments.value < 1
    ensures InstallmentsAboveMax in vs <==> req.numberOfInstallments.Some? && req.numberOfInstallments.value > 48
    ensures CustomerIdMissing in vs <==> req.customerId.None?
  {
    (if req.creditValue.None? then {CreditValueMissing} else {})
    + (match req.dayFirstOfInstallment
       case None => {DayFirstMissing}
       case Some(d) => if d > today then {} else {DayFirstNotFuture})
    + (match req.numberOfInstallments
       case None => {InstallmentsMissing}
       case Some(n) =>
         (if n < MinInstallments then {InstallmentsBelowMin} else {})
         + (if n > MaxInstallments then {InstallmentsAboveMax} else {}))
    + (if req.customerId.None? then {CustomerIdMissing} else {})
  }

  /** Validation: the request becomes a DTO exactly when it breaks no
      constraint, and the DTO carries the request's values. */
  function Validate(req: CreditRequest, today: Date): (r: Result<CreditDto, set<Violation>>)
    ensures r.Success? <==>
              && req.creditValue.Some?
              && req.dayFirstOfInstallment.Some? && req.dayFirstOfInstallment.value > today
              && req.numberOfInstallments.Some? && 1 <= req.numberOfInstallments.value <= 48
              && req.customerId.Some?
    ensures r.Success? ==>
              && r.value.creditValue == req.creditValue.value
              && r.value.dayFirstOfInstallment == req.dayFirstOfInstallment.value
              && r.value.numberOfInstallments == req.numberOfInstallments.value
              && r.value.customerId == req.customerId.value
    ensures r.Failure? ==> r.error != {} && r.error == Violations(req, today)
  {
    var vs := Violations(req, today);
    if vs == {} then
      Success(CreditDto(req.creditValue.value, req.dayFirstOfInstallment.value,
                        req.numberOfInstallments.value, req.customerId.value))
    else
      Failure(vs)
  }

  /** The credit entity for a DTO under a freshly generated `code`: amounts,
      date and installment count copied, status at its initial value, and a
      placeholder customer carrying only the requested customer id. */
  function ToEntity(dto: CreditDto, code: Code): (c: Credit)
    ensures c.creditCode == code
    ensures c.creditValue == dto.creditValue
    ensures c.dayFirstOfInstallment == dto.dayFirstOfInstallment
    ensures c.numberOfInstallments == dto.numberOfInstallments
    ensures c.status == InitialStatus && c.id.None?
    ensures c.customer.Some? && OwnerId(c) == Some(dto.customerId)
  {
    Credit(code, dto.creditValue, dto.dayFirstOfInstallment, dto.numberOfInstallments,
           InitialStatus, Some(Placeholder(dto.customerId)), None)
  }

  /** Distinct DTOs map to distinct credits under the same code. */
  lemma ToEntityInjective(a: CreditDto, b: CreditDto, code: Code)
    ensures ToEntity(a, code) == ToEntity(b, code) ==> a == b
  {
  }
}
