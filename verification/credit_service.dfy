/** The credit service: issuing a credit against a stored customer, and the
    two lookups by owner and by credit code. The stores are values passed in
    and, for `Save`, passed back out. */
module CreditService {
  import opened Wrappers
  import opened Entities

  /** The conditions the service raises, one per distinguishable failure. */
  datatype Error =
    /** The first installment is not strictly before the three-month limit. */
    | DateTooLate
    /** The credit carries no customer, or a customer without an id
        (the `!!` on the customer id throws). */
    | MissingCustomerId
    /** No stored customer has this id. */
    | CustomerNotFound(id: int)
    /** No stored credit has this code. */
    | CodeNotFound(code: Code)
    /** The credit exists but belongs to another customer ("Contact Admin"). */
    | NotOwner

  /** Stored customers by id. */
  type CustomerStore = map<int, Customer>

  /** Stored credits in insertion order. */
  type CreditStore = seq<Credit>

  /** Every stored customer carries the id it is stored under. */
  predicate CustomersWellFormed(customers: CustomerStore)
  {
    forall id :: id in customers ==> customers[id].id == Some(id)
  }

  /** No two stored credits share a credit code. */
  predicate CodesUnique(credits: CreditStore)
  {
    forall i, j :: 0 <= i < j < |credits| ==> credits[i].creditCode != credits[j].creditCode
  }

  /** True when no stored credit has `code`. */
  predicate CodeFresh(credits: CreditStore, code: Code)
  {
    forall c :: c in credits ==> c.creditCode != code
  }

  /** The first-installment rule: the date must lie strictly before `limit`,
      the current date plus three months. */
  function ValidDayFirstInstallment(day: Date, limit: Date): (r: Result<bool, Error>)
    ensures r.Success? <==> day < limit
    ensures r.Success? ==> r.value
    ensures r.Failure? ==> r.error == DateTooLate
  {
    if day < limit then Success(true) else Failure(DateTooLate)
  }

  /** Customer resolution by id; fails, naming the id, when it is absent. */
  function FindCustomerById(customers: CustomerStore, id: int): (r: Result<Customer, Error>)
    ensures r.Success? <==> id in customers
    ensures r.Success? ==> r.value == customers[id]
    ensures r.Failure? ==> r.error == CustomerNotFound(id)
  {
    if id in customers then Success(customers[id]) else Failure(CustomerNotFound(id))
  }

  /** The credit store after a call together with what the call returned. */
  datatype SaveOutcome = SaveOutcome(credits: CreditStore, result: Result<Credit, Error>)

  /** Issues `credit`: checks the first-installment date, then resolves the
      customer named by the credit's customer reference, then appends the
      credit, with the resolved customer attached, to the store. */
  function Save(credits: CreditStore, customers: CustomerStore, credit: Credit, limit: Date): (r: SaveOutcome)
    // any failure leaves the credit store as it was
    ensures r.result.Failure? ==> r.credits == credits
    // the date check comes first, whatever the customer reference holds
    ensures credit.dayFirstOfInstallment >= limit ==> r.result == Failure(DateTooLate)
    ensures credit.dayFirstOfInstallment < limit && OwnerId(credit).None? ==>
              r.result == Failure(MissingCustomerId)
    ensures credit.dayFirstOfInstallment < limit && OwnerId(credit).Some? && OwnerId(credit).value !in customers ==>
              r.result == Failure(CustomerNotFound(OwnerId(credit).value))
    ensures r.result.Success? <==>
              credit.dayFirstOfInstallment < limit && OwnerId(credit).Some? && OwnerId(credit).value in customers
    // on success only the customer reference changes, and the store gains
    // exactly the returned credit
    ensures r.result.Success? ==>
              && r.result.value == credit.(customer := Some(customers[OwnerId(credit).value]))
              && r.credits == credits + [r.result.value]
  {
    match ValidDayFirstInstallment(credit.dayFirstOfInstallment, limit)
    case Failure(e) => SaveOutcome(credits, Failure(e))
    case Success(_) =>
      match OwnerId(credit)
      case None => SaveOutcome(credits, Failure(MissingCustomerId))
      case Some(id) =>
        match FindCustomerById(customers, id)
        case Failure(e) => SaveOutcome(credits, Failure(e))
        case Success(customer) =>
          var saved := credit.(customer := Some(customer));
          SaveOutcome(credits + [saved], Success(saved))
  }

  /** True when the credit's owner id is `customerId`. */
  predicate OwnedBy(credit: Credit, customerId: int)
  {
    OwnerId(credit) == Some(customerId)
  }

  /** The credits of one customer, in store order. */
  function FindAllByCustomer(credits: CreditStore, customerId: int): (r: seq<Credit>)
    ensures forall c :: c in r ==> c in credits && OwnedBy(c, customerId)
    ensures forall c :: c in credits && OwnedBy(c, customerId) ==> c in r
    ensures |r| <= |credits|
  {
    if credits == [] then []
    else
      var rest := FindAllByCustomer(credits[1..], customerId);
      if OwnedBy(credits[0], customerId) then [credits[0]] + rest else rest
  }

  /** Each credit of the customer is listed exactly as often as it is
      stored, and no other credit is listed at all. */
  lemma {:induction false} FindAllByCustomerCount(credits: CreditStore, customerId: int, c: Credit)
    ensures multiset(FindAllByCustomer(credits, customerId))[c] ==
              if OwnedBy(c, customerId) then multiset(credits)[c] else 0
  {
    if credits != [] {
      assert credits == [credits[0]] + credits[1..];
      FindAllByCustomerCount(credits[1..], customerId, c);
    }
  }

  /** The first stored credit with `code`, or null when there is none. */
  function FindByCode(credits: CreditStore, code: Code): (r: Option<Credit>)
    ensures r.Some? ==> r.value in credits && r.value.creditCode == code
    ensures r.None? <==> CodeFresh(credits, code)
  {
    if credits == [] then None
    else if credits[0].creditCode == code then Some(credits[0])
    else FindByCode(credits[1..], code)
  }

  /** The credit with `code`, returned only to its owner: an unknown code is
      a not-found error, a code owned by anyone else (or by no customer) the
      distinct access error. */
  function FindByCreditCode(credits: CreditStore, customerId: int, code: Code): (r: Result<Credit, Error>)
    ensures r == Failure(CodeNotFound(code)) <==> CodeFresh(credits, code)
    ensures r.Success? ==> r.value in credits && r.value.creditCode == code && OwnedBy(r.value, customerId)
    ensures r.Failure? && r.error == NotOwner ==>
              exists c :: c in credits && c.creditCode == code && !OwnedBy(c, customerId)
    ensures r.Success? || r == Failure(NotOwner) || r == Failure(CodeNotFound(code))
  {
    match FindByCode(credits, code)
    case None => Failure(CodeNotFound(code))
    case Some(credit) => if OwnedBy(credit, customerId) then Success(credit) else Failure(NotOwner)
  }

  /** With unique codes, the code lookup finds exactly the stored credit. */
  lemma FindByCodeUnique(credits: CreditStore, i: int)
    requires CodesUnique(credits)
    requires 0 <= i < |credits|
    ensures FindByCode(credits, credits[i].creditCode) == Some(credits[i])
  {
  }

  /** With unique codes, a stored credit is returned by code to its owner and
      to nobody else, who gets the access error rather than the credit. */
  lemma FindByCreditCodeOwnerOnly(credits: CreditStore, i: int, customerId: int)
    requires CodesUnique(credits)
    requires 0 <= i < |credits|
    ensures OwnedBy(credits[i], customerId) ==>
              FindByCreditCode(credits, customerId, credits[i].creditCode) == Success(credits[i])
    ensures !OwnedBy(credits[i], customerId) ==>
              FindByCreditCode(credits, customerId, credits[i].creditCode) == Failure(NotOwner)
  {
    FindByCodeUnique(credits, i);
  }

  /** Appending a credit appends it to its owner's list and to no other. */
  lemma {:induction false} FindAllByCustomerAppend(credits: CreditStore, credit: Credit, customerId: int)
    ensures FindAllByCustomer(credits + [credit], customerId) ==
              FindAllByCustomer(credits, customerId) + (if OwnedBy(credit, customerId) then [credit] else [])
  {
    if credits == [] {
      assert [credit][1..] == [];
    } else {
      assert (credits + [credit])[1..] == credits[1..] + [credit];
      FindAllByCustomerAppend(credits[1..], credit, customerId);
    }
  }

  /** With well-formed customers, a saved credit is owned by the customer
      its reference named. */
  lemma SaveKeepsOwner(credits: CreditStore, customers: CustomerStore, credit: Credit, limit: Date)
    requires CustomersWellFormed(customers)
    ensures Save(credits, customers, credit, limit).result.Success? ==>
              OwnerId(Save(credits, customers, credit, limit).result.value) == OwnerId(credit)
  {
  }

  /** Saving a credit with a fresh code keeps the codes unique. */
  lemma SaveKeepsCodesUnique(credits: CreditStore, customers: CustomerStore, credit: Credit, limit: Date)
    requires CodesUnique(credits)
    requires CodeFresh(credits, credit.creditCode)
    ensures CodesUnique(Save(credits, customers, credit, limit).credits)
  {
    var r := Save(credits, customers, credit, limit);
    if r.result.Success? {
      forall i, j | 0 <= i < j < |r.credits|
        ensures r.credits[i].creditCode != r.credits[j].creditCode
      {
        if j == |credits| {
          assert r.credits[i] == credits[i];
          assert credits[i] in credits;
        }
      }
    }
  }

  /** After a successful save the owner's list gains exactly the saved
      credit at its end, and every other customer's list is unchanged. */
  lemma SaveThenFindAll(credits: CreditStore, customers: CustomerStore, credit: Credit, limit: Date, customerId: int)
    requires CustomersWellFormed(customers)
    requires Save(credits, customers, credit, limit).result.Success?
    ensures var r := Save(credits, customers, credit, limit);
            FindAllByCustomer(r.credits, customerId) ==
              FindAllByCustomer(credits, customerId) +
              (if OwnerId(credit) == Some(customerId) then [r.result.value] else [])
  {
    var r := Save(credits, customers, credit, limit);
    SaveKeepsOwner(credits, customers, credit, limit);
    FindAllByCustomerAppend(credits, r.result.value, customerId);
  }

  /** After a successful save of a credit with a fresh code, the code lookup
      returns the saved credit to its owner and the access error to anyone
      else. */
  lemma SaveThenFindByCreditCode(credits: CreditStore, customers: CustomerStore, credit: Credit, limit: Date, customerId: int)
    requires CustomersWellFormed(customers)
    requires CodesUnique(credits)
    requires CodeFresh(credits, credit.creditCode)
    requires Save(credits, customers, credit, limit).result.Success?
    ensures var r := Save(credits, customers, credit, limit);
            FindByCreditCode(r.credits, customerId, credit.creditCode) ==
              if OwnerId(credit) == Some(customerId) then r.result else Failure(NotOwner)
  {
    var r := Save(credits, customers, credit, limit);
    SaveKeepsOwner(credits, customers, credit, limit);
    SaveKeepsCodesUnique(credits, customers, credit, limit);
    FindByCreditCodeOwnerOnly(r.credits, |credits|, customerId);
  }
}
