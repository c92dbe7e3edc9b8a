/** The customer-registration request: its non-empty constraints and its
    mapping to a customer entity. */
module CustomerDtos {
  import opened Wrappers
  import opened Entities

  /** The request as it arrives, every field possibly null. */
  datatype CustomerRequest = CustomerRequest(
    firstName: Option<string>,
    lastName: Option<string>,
    cpf: Option<string>,
    income: Option<Money>,
    email: Option<string>,
    password: Option<string>,
    zipCode: Option<string>,
    street: Option<string>)

  /** A request that passed validation. */
  datatype CustomerDto = CustomerDto(
    firstName: string,
    lastName: string,
    cpf: string,
    income: Money,
    email: string,
    password: string,
    zipCode: string,
    street: string)

  /** The fields of a customer request, naming the one that failed. */
  datatype Field = FirstName | LastName | Cpf | Income | Email | Password | ZipCode | Street

  /** The non-empty constraint: present and at least one character long. */
  predicate NotEmpty(s: Option<string>)
  {
    s.Some? && |s.value| > 0
  }

  /** Every field of a customer request. */
  const AllFields: set<Field> := {FirstName, LastName, Cpf, Income, Email, Password, ZipCode, Street}

  /** Whether the constraint on one field holds: income must be present,
      every other field present and non-empty. */
  predicate FieldValid(req: CustomerRequest, f: Field)
  {
    match f
    case FirstName => NotEmpty(req.firstName)
    case LastName => NotEmpty(req.lastName)
    case Cpf => NotEmpty(req.cpf)
    case Income => req.income.Some?
    case Email => NotEmpty(req.email)
    case Password => NotEmpty(req.password)
    case ZipCode => NotEmpty(req.zipCode)
    case Street => NotEmpty(req.street)
  }

  /** The fields whose constraint fails: a null income, or a text field
      that is null or empty. */
  function Violations(req: CustomerRequest): (vs: set<Field>)
    ensures FirstName in vs <==> req.firstName.None? || req.firstName.value == ""
    ensures LastName in vs <==> req.lastName.None? || req.lastName.value == ""
    ensures Cpf in vs <==> req.cpf.None? || req.cpf.value == ""
    ensures Income in vs <==> req.income.None?
    ensures Email in vs <==> req.email.None? || req.email.value == ""
    ensures Password in vs <==> req.password.None? || req.password.value == ""
    ensures ZipCode in vs <==> req.zipCode.None? || req.zipCode.value == ""
    ensures Street in vs <==> req.street.None? || req.street.value == ""
  {
    set f | f in AllFields && !FieldValid(req, f)
  }

  /** Validation: the request becomes a DTO exactly when no constraint
      fails, and the DTO's texts are then all non-empty. */
  function Validate(req: CustomerRequest): (r: Result<CustomerDto, set<Field>>)
    ensures r.Success? <==> Violations(req) == {}
    ensures r.Success? ==>
              && r.value.firstName != "" && r.value.lastName != "" && r.value.cpf != ""
              && r.value.email != "" && r.value.password != ""
              && r.value.zipCode != "" && r.value.street != ""
    ensures r.Success? ==>
              && Some(r.value.firstName) == req.firstName && Some(r.value.lastName) == req.lastName
              && Some(r.value.cpf) == req.cpf && Some(r.value.income) == req.income
              && Some(r.value.email) == req.email && Some(r.value.password) == req.password
              && Some(r.value.zipCode) == req.zipCode && Some(r.value.street) == req.street
    ensures r.Failure? ==> r.error != {} && r.error == Violations(req)
  {
    var vs := Violations(req);
    if vs == {} then
      Success(CustomerDto(req.firstName.value, req.lastName.value, req.cpf.value, req.income.value,
                          req.email.value, req.password.value, req.zipCode.value, req.street.value))
    else
      Failure(vs)
  }

  /** The customer entity for a DTO: personal fields copied, the address
      built from exactly the zip code and street, and no id yet. */
  function ToEntity(dto: CustomerDto): (c: Customer)
    ensures c.firstName == dto.firstName && c.lastName == dto.lastName && c.cpf == dto.cpf
    ensures c.income == dto.income && c.email == dto.email && c.password == dto.password
    ensures c.address == Address(dto.zipCode, dto.street)
    ensures c.id.None?
  {
    Customer(dto.firstName, dto.lastName, dto.cpf, dto.income, dto.email, dto.password,
             Address(dto.zipCode, dto.street), None)
  }

  /** The mapping loses nothing: the DTO can be read back from the entity. */
  lemma ToEntityRecoversDto(dto: CustomerDto)
    ensures var c := ToEntity(dto);
            CustomerDto(c.firstName, c.lastName, c.cpf, c.income, c.email, c.password,
                        c.address.zipCode, c.address.street) == dto
  {
  }
}
