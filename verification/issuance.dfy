/** Credit issuance end to end: a request is validated, mapped to a credit
    entity, saved by the credit service and shown as a view. */
module Issuance {
  import opened Wrappers
  import opened Entities
  import CreditDtos
  import CreditService
  import CreditViews

  /** Why an issuance failed: a field constraint before the service, or a
      condition raised by the service. */
  datatype IssueError =
    | Invalid(violations: set<CreditDtos.Violation>)
    | ServiceError(error: CreditService.Error)

  /** What an issuance leaves behind: the credit store and the response. */
  datatype IssueOutcome = IssueOutcome(credits: CreditService.CreditStore,
                                       result: Result<CreditViews.CreditView, IssueError>)

  /** The issuance flow for the current date `today`, the three-month limit
      `limit` and the freshly generated credit code `code`. */
  function Issue(req: CreditDtos.CreditRequest, today: Date, limit: Date, code: Code,
                 credits: CreditService.CreditStore, customers: CreditService.CustomerStore): (r: IssueOutcome)
    // a request that fails validation never reaches the service
    ensures CreditDtos.Validate(req, today).Failure? ==>
              r == IssueOutcome(credits, Failure(Invalid(CreditDtos.Validate(req, today).error)))
    // any failure leaves the credit store as it was
    ensures r.result.Failure? ==> r.credits == credits
    // a success stores exactly one credit, shown by the returned view
    ensures r.result.Success? ==>
              && |r.credits| == |credits| + 1
              && r.credits[..|credits|] == credits
              && r.result.value == CreditViews.FromCredit(r.credits[|credits|])
              && r.result.value.creditCode == code
              && r.result.value.creditValue == req.creditValue.value
              && r.result.value.dayFirstOfInstallment == req.dayFirstOfInstallment.value
              && r.result.value.numberOfInstallments == req.numberOfInstallments.value
              && r.result.value.status == InitialStatus
              && req.customerId.Some? && req.customerId.value in customers
              && r.result.value.customerId == customers[req.customerId.value].id
  {
    match CreditDtos.Validate(req, today)
    case Failure(vs) => IssueOutcome(credits, Failure(Invalid(vs)))
    case Success(dto) =>
      var saved := CreditService.Save(credits, customers, CreditDtos.ToEntity(dto, code), limit);
      match saved.result
      case Failure(e) => IssueOutcome(saved.credits, Failure(ServiceError(e)))
      case Success(credit) => IssueOutcome(saved.credits, Success(CreditViews.FromCredit(credit)))
  }

  /** A credit built from a DTO always names a customer id, so the service
      never fails on a missing one for it. */
  lemma DtoCreditNamesCustomer(dto: CreditDtos.CreditDto, code: Code, credits: CreditService.CreditStore,
                               customers: CreditService.CustomerStore, limit: Date)
    ensures CreditService.Save(credits, customers, CreditDtos.ToEntity(dto, code), limit).result
              != Failure(CreditService.MissingCustomerId)
  {
  }

  /** Issuance succeeds exactly when the request is complete, the installment
      count lies in 1..48, the first installment falls strictly between today
      and the three-month limit, and the customer is stored; a failure never
      changes the credit store. */
  lemma IssueSucceedsIff(req: CreditDtos.CreditRequest, today: Date, limit: Date, code: Code,
                         credits: CreditService.CreditStore, customers: CreditService.CustomerStore)
    ensures var r := Issue(req, today, limit, code, credits, customers);
            r.result.Success? <==>
              && req.creditValue.Some? && req.customerId.Some?
              && req.numberOfInstallments.Some? && 1 <= req.numberOfInstallments.value <= 48
              && req.dayFirstOfInstallment.Some?
              && today < req.dayFirstOfInstallment.value < limit
              && req.customerId.value in customers
    ensures var r := Issue(req, today, limit, code, credits, customers);
            r.result.Failure? ==> r.credits == credits
  {
    var v := CreditDtos.Validate(req, today);
    if v.Success? {
      DtoCreditNamesCustomer(v.value, code, credits, customers, limit);
    }
  }

  /** A date the request layer accepts but the service rejects: later than
      the limit, the service's date error is what comes back, whether or not
      the customer exists. */
  lemma LateDateRejectedByService(req: CreditDtos.CreditRequest, today: Date, limit: Date, code: Code,
                                  credits: CreditService.CreditStore, customers: CreditService.CustomerStore)
    requires CreditDtos.Validate(req, today).Success?
    requires req.dayFirstOfInstallment.value >= limit
    ensures Issue(req, today, limit, code, credits, customers) ==
              IssueOutcome(credits, Failure(ServiceError(CreditService.DateTooLate)))
  {
  }

  /** The stored customer with id 1 used by the scenario below. */
  function ScenarioCustomer(): Customer
  {
    Customer("Gil", "teste", "28475934625", 1000, "email@teste.com", "12345", Address("cep", "Rua"), Some(1))
  }

  /** The request of the scenario below, with the first installment on `day`
      and `installments` installments. */
  function ScenarioRequest(day: Date, installments: int): CreditDtos.CreditRequest
  {
    CreditDtos.CreditRequest(Some(5000), Some(day), Some(installments), Some(1))
  }

  /** With customer 1 stored: a request for 15 installments starting two
      months from now is issued and its view shows 15 installments and
      customer 1; 49 installments are refused by validation before the
      service; a start five months from now is refused by the service. */
  lemma IssueScenario(today: Date, twoMonths: Date, limit: Date, fiveMonths: Date, code: Code,
                      credits: CreditService.CreditStore)
    requires today < twoMonths < limit <= fiveMonths
    ensures var customers := map[1 := ScenarioCustomer()];
            var r := Issue(ScenarioRequest(twoMonths, 15), today, limit, code, credits, customers);
            && r.result.Success?
            && r.result.value.numberOfInstallments == 15
            && r.result.value.customerId == Some(1)
            && r.result.value.creditValue == 5000
            && r.result.value.dayFirstOfInstallment == twoMonths
            && r.result.value.emailCustomer == Some("email@teste.com")
            && r.credits == credits + [CreditDtos.ToEntity(CreditDtos.CreditDto(5000, twoMonths, 15, 1), code)
                                         .(customer := Some(ScenarioCustomer()))]
    ensures var customers := map[1 := ScenarioCustomer()];
            var r := Issue(ScenarioRequest(twoMonths, 49), today, limit, code, credits, customers);
            r == IssueOutcome(credits, Failure(Invalid({CreditDtos.InstallmentsAboveMax})))
    ensures var customers := map[1 := ScenarioCustomer()];
            var r := Issue(ScenarioRequest(fiveMonths, 15), today, limit, code, credits, customers);
            r == IssueOutcome(credits, Failure(ServiceError(CreditService.DateTooLate)))
  {
    var vs := CreditDtos.Violations(ScenarioRequest(twoMonths, 49), today);
    assert vs == {CreditDtos.InstallmentsAboveMax};
  }
}
