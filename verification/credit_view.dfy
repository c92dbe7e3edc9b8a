/** The credit view returned to clients: a projection of a credit and of
    the owner's contact fields. */
module CreditViews {
  import opened Wrappers
  import opened Entities
  import CreditService

  /** The view; the three customer fields are null when the credit has no
      customer. */
  datatype CreditView = CreditView(
    creditCode: Code,
    creditValue: Money,
    numberOfInstallments: int,
    dayFirstOfInstallment: Date,
    status: Status,
    emailCustomer: Option<string>,
    incomeCustomer: Option<Money>,
    customerId: Option<int>)

  /** The view of a credit: the credit's own fields unchanged, the customer
      fields taken from its customer, or null when it has none. */
  function FromCredit(credit: Credit): (v: CreditView)
    ensures v.creditCode == credit.creditCode
    ensures v.creditValue == credit.creditValue
    ensures v.numberOfInstallments == credit.numberOfInstallments
    ensures v.dayFirstOfInstallment == credit.dayFirstOfInstallment
    ensures v.status == credit.status
    ensures credit.customer.None? ==> v.emailCustomer.None? && v.incomeCustomer.None? && v.customerId.None?
    ensures credit.customer.Some? ==>
              && v.emailCustomer == Some(credit.customer.value.email)
              && v.incomeCustomer == Some(credit.customer.value.income)
              && v.customerId == credit.customer.value.id
    ensures v.customerId == OwnerId(credit)
  {
    match credit.customer
    case None =>
      CreditView(credit.creditCode, credit.creditValue, credit.numberOfInstallments,
                 credit.dayFirstOfInstallment, credit.status, None, None, None)
    case Some(c) =>
      CreditView(credit.creditCode, credit.creditValue, credit.numberOfInstallments,
                 credit.dayFirstOfInstallment, credit.status, Some(c.email), Some(c.income), c.id)
  }

  /** A credit returned by the code lookup is shown only with the caller's
      own customer id. */
  lemma FoundCreditViewShowsCaller(credits: CreditService.CreditStore, customerId: int, code: Code)
    requires CreditService.FindByCreditCode(credits, customerId, code).Success?
    ensures FromCredit(CreditService.FindByCreditCode(credits, customerId, code).value).customerId == Some(customerId)
  {
  }

  /** The view of a saved credit shows the resolved customer's contact
      fields, not the placeholder's. */
  lemma SavedCreditView(credits: CreditService.CreditStore, customers: CreditService.CustomerStore,
                        credit: Credit, limit: Date)
    requires CreditService.CustomersWellFormed(customers)
    requires CreditService.Save(credits, customers, credit, limit).result.Success?
    ensures var v := FromCredit(CreditService.Save(credits, customers, credit, limit).result.value);
            var owner := customers[OwnerId(credit).value];
            && v.customerId == OwnerId(credit)
            && v.emailCustomer == Some(owner.email)
            && v.incomeCustomer == Some(owner.income)
  {
  }
}
