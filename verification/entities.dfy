/** The persisted entities the credit core works on: customers with an
    embedded address, and credits that refer to one customer. */
module Entities {
  import opened Wrappers

  /** A calendar date as a day number; only the order of dates matters. */
  type Date = int

  /** A decimal amount; the core copies amounts and never computes with them. */
  type Money = int

  /** A credit code; generated codes are opaque and compared only for equality. */
  type Code = int

  /** The stored status of a credit; no operation of the core changes it. */
  datatype Status = Pending | Accepted | Rejected

  /** The address embedded in a customer; it has no identity of its own. */
  datatype Address = Address(zipCode: string, street: string)

  /** A customer; `id` is null until the customer store assigns one. */
  datatype Customer = Customer(
    firstName: string,
    lastName: string,
    cpf: string,
    income: Money,
    email: string,
    password: string,
    address: Address,
    id: Option<int>)

  /** A credit; `customer` is a nullable reference to its owner and `id` is
      null until the credit store assigns one. */
  datatype Credit = Credit(
    creditCode: Code,
    creditValue: Money,
    dayFirstOfInstallment: Date,
    numberOfInstallments: int,
    status: Status,
    customer: Option<Customer>,
    id: Option<int>)

  /** The status a freshly built credit starts with. */
  const InitialStatus: Status := Pending

  /** The owner id of a credit as Kotlin's `credit.customer?.id` reads it:
      null when the credit has no customer or the customer has no id. */
  function OwnerId(credit: Credit): Option<int>
  {
    match credit.customer
    case None => None
    case Some(c) => c.id
  }

  /** A customer reference that carries only an id, every other field at
      its default; it stands for a customer still to be resolved. */
  function Placeholder(id: int): Customer
  {
    Customer("", "", "", 0, "", "", Address("", ""), Some(id))
  }
}
