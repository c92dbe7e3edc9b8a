# Credit issuance and lookup: a Dafny model

This project models the decision logic of a small credit-management backend. Customers are registered, and credits are issued against them:

- **Issuing a credit.** The credit service checks that the first-installment date is strictly before "today plus three months". It then resolves the customer named by the credit's placeholder customer reference against the customer store. Only after both checks does it persist the credit with the resolved customer attached.
- **Looking up credits.** The service lists every credit of one customer. It also fetches one credit by its code, but only for that credit's owner. An unknown code is a not-found error, and a code owned by someone else is a distinct "Contact Admin" error.
- **Transfer objects.** The credit and customer request objects carry declarative field constraints: installments in 1..48, a first installment in the future, non-null and non-empty fields. They map to entities by copying fields. The credit view projects a credit and its owner's contact fields.

Everything is pure. The stores are values: a `map<int, Customer>` for customers and a `seq<Credit>` in insertion order for credits. `CreditService.Save` returns the new credit store together with its result. Exceptions become a `Result` carrying a typed error (`DateTooLate`, `MissingCustomerId`, `CustomerNotFound`, `CodeNotFound`, `NotOwner`). The clock is passed in as parameters: `today`, and `limit`, which is today plus three months. Dates are day numbers.

Files:
- `wrappers.dfy`: `Option` for nullable values and `Result` for calls that may throw.
- `entities.dfy`: `Customer`, `Address`, `Credit`, `Status`, and the owner id `credit.customer?.id`.
- `credit_service.dfy`: save, the two lookups, customer resolution, and the lemmas that tie save to the lookups.
- `credit_dto.dfy`: the credit request, its constraints, validation and `ToEntity`.
- `customer_dto.dfy`: the customer request, its constraints, validation and `ToEntity`.
- `credit_view.dfy`: the credit view projection.
- `issuance.dfy`: the request → entity → save → view flow, and the scenario the controller test exercises.

Two facts about the code shape the contracts:
- `CreditDto.creditValue` carries only `@NotNull` (CreditDto.kt:13), so any value is accepted.
- `validDayFirstInstallment` uses a strict `isBefore` (CreditService.kt:45), so a date equal to the limit is rejected.

## Model

| member | source | states |
|---|---|---|
| CreditService.ValidDayFirstInstallment | src/main/kotlin/me/dio/credit/application/system/service/impl/CreditService.kt:44-47 | succeeds, returning true, exactly when the date is strictly before the limit. Otherwise it fails with the date error, so a date equal to the limit is rejected |
| CreditService.FindCustomerById | src/main/kotlin/me/dio/credit/application/system/service/impl/CreditService.kt:21 | customer resolution succeeds exactly when the id is stored, and returns the stored customer. Otherwise it fails with a not-found error naming the id |
| CreditService.Save | src/main/kotlin/me/dio/credit/application/system/service/impl/CreditService.kt:18-24 | a date at or after the limit gives the date error whatever the customer reference holds. With a good date, a null customer or customer id gives the missing-id error, and an unknown id gives customer-not-found. Any failure leaves the credit store unchanged. On success only the customer reference changes: value, date, installments and code are kept. The store gains exactly the returned credit, appended at the end |
| CreditService.FindAllByCustomer | src/main/kotlin/me/dio/credit/application/system/service/impl/CreditService.kt:27-28 | every returned credit is stored and owned by the id, and every stored credit owned by the id is returned. The result is never longer than the store. An empty result is a normal result, not an error |
| CreditService.FindAllByCustomerCount | src/main/kotlin/me/dio/credit/application/system/service/impl/CreditService.kt:27-28 | every credit owned by the id is listed exactly as often as it is stored, and every other credit not at all. So duplicates in the store are neither dropped nor multiplied, and no credit is listed more often than it is stored |
| CreditService.FindByCode | src/main/kotlin/me/dio/credit/application/system/service/impl/CreditService.kt:34-35 | the code lookup returns a stored credit carrying that code. It returns null exactly when no stored credit has the code |
| CreditService.FindByCreditCode | src/main/kotlin/me/dio/credit/application/system/service/impl/CreditService.kt:33-42 | fails with the not-found error naming the code exactly when the code is absent. A returned credit carries the code and is owned by the caller. The "Contact Admin" error arises only when a credit with the code belongs to someone else or to no customer. No other outcome exists |
| CreditService.FindByCodeUnique | src/main/kotlin/me/dio/credit/application/system/service/impl/CreditService.kt:34 | when codes are unique, looking up a stored credit's code returns that very credit |
| CreditService.FindByCreditCodeOwnerOnly | src/main/kotlin/me/dio/credit/application/system/service/impl/CreditService.kt:36 | when codes are unique, a stored credit's code yields the credit for its owner. Every other customer id, and any id when the credit has no customer, gets the access error and never the credit |
| CreditService.FindAllByCustomerAppend | src/main/kotlin/me/dio/credit/application/system/service/impl/CreditService.kt:27-28 | appending a credit to the store appends it to its owner's list, after the credits already there, and leaves every other customer's list unchanged |
| CreditService.SaveKeepsOwner | src/main/kotlin/me/dio/credit/application/system/service/impl/CreditService.kt:20-22 | when every stored customer carries its own id, the saved credit is owned by the customer id its placeholder named |
| CreditService.SaveKeepsCodesUnique | src/main/kotlin/me/dio/credit/application/system/service/impl/CreditService.kt:23 | saving a credit whose code is fresh keeps the codes in the credit store unique |
| CreditService.SaveThenFindAll | src/main/kotlin/me/dio/credit/application/system/service/impl/CreditService.kt:18-28 | after a successful save, the owner's list is the old list plus the saved credit, and every other customer's list is unchanged |
| CreditService.SaveThenFindByCreditCode | src/main/kotlin/me/dio/credit/application/system/service/impl/CreditService.kt:18-36 | after a successful save with a fresh code, looking up that code returns the saved credit to its owner and the access error to everyone else |
| CreditDtos.Violations | src/main/kotlin/me/dio/credit/application/system/dto/CreditDto.kt:12-18 | each constraint is reported exactly when it fails: a null value, null customer id or null installment count; a date that is null or not after today; an installment count below 1 or above 48 |
| CreditDtos.Validate | src/main/kotlin/me/dio/credit/application/system/dto/CreditDto.kt:12-19 | a request becomes a DTO exactly when every field is present, the installments are in 1..48 inclusive and the date is after today. The DTO carries the request's values. Otherwise validation fails with the non-empty set of violations |
| CreditDtos.ToEntity | src/main/kotlin/me/dio/credit/application/system/dto/CreditDto.kt:21-26 | value, first-installment date and installment count are copied exactly. The credit gets the fresh code and the initial status. Its customer is present and carries the requested customer id |
| CreditDtos.ToEntityInjective | src/main/kotlin/me/dio/credit/application/system/dto/CreditDto.kt:21-26 | under the same code, distinct DTOs yield distinct credits, so the mapping loses no field |
| CustomerDtos.Violations | src/main/kotlin/me/dio/credit/application/system/dto/CustomerDto.kt:12-21 | a text field is reported exactly when it is null or empty: first and last name, CPF, email, password, zip code, street. Income is reported exactly when it is null |
| CustomerDtos.Validate | src/main/kotlin/me/dio/credit/application/system/dto/CustomerDto.kt:11-22 | a request becomes a DTO exactly when no field is reported. The DTO then has every text field non-empty and carries the request's values. Otherwise validation fails with the non-empty set of failing fields |
| CustomerDtos.ToEntity | src/main/kotlin/me/dio/credit/application/system/dto/CustomerDto.kt:24-36 | names, CPF, income, email and password are copied unchanged. The address is built from exactly the zip code and street. The customer has no id yet |
| CustomerDtos.ToEntityRecoversDto | src/main/kotlin/me/dio/credit/application/system/dto/CustomerDto.kt:24-36 | the DTO can be read back field by field from the entity, so nothing is lost or swapped |
| CreditViews.FromCredit | src/main/kotlin/me/dio/credit/application/system/dto/CreditView.kt:20-29 | code, value, installment count, date and status are copied unchanged. With no customer, email, income and customer id are all null. Otherwise they are the customer's email, income and id, so the view's customer id is the credit's owner id |
| CreditViews.FoundCreditViewShowsCaller | src/main/kotlin/me/dio/credit/application/system/dto/CreditView.kt:28 | the view of a credit returned by the code lookup always shows the caller's own customer id |
| CreditViews.SavedCreditView | src/main/kotlin/me/dio/credit/application/system/dto/CreditView.kt:26-28 | the view of a saved credit shows the stored customer's id, email and income, not the placeholder's |
| Issuance.Issue | src/test/kotlin/me/dio/credit/application/system/controller/CreditResourceTest.kt:47-109 | the issuance flow: a request that fails validation is answered with its violations and never reaches the service. Any failure leaves the credit store unchanged. A success stores exactly one credit after the existing ones, and returns its view. The view has the new code, the initial status, the stored customer's id, and the request's value, first-installment date and installment count |
| Issuance.DtoCreditNamesCustomer | src/main/kotlin/me/dio/credit/application/system/dto/CreditDto.kt:25 | saving a credit built from a DTO never fails for a missing customer id |
| Issuance.IssueSucceedsIff | src/main/kotlin/me/dio/credit/application/system/service/impl/CreditService.kt:18-24 | issuance succeeds exactly when: the request is complete; installments are in 1..48; today < first installment < today plus three months; and the customer is stored. A failed issuance leaves the credit store unchanged |
| Issuance.LateDateRejectedByService | src/main/kotlin/me/dio/credit/application/system/service/impl/CreditService.kt:19 | suppose a request passes validation but its date is at or after the limit. Then the outcome is the service's date error, with the store unchanged, whether or not the customer exists |
| Issuance.IssueScenario | src/test/kotlin/me/dio/credit/application/system/controller/CreditResourceTest.kt:47-109 | with customer 1 stored, 15 installments starting two months out are issued. The view shows 15 installments, customer 1, value 5000, the requested first-installment date and the customer's email. The store gains the credit. 49 installments are refused by validation before the service. A start five months out gets the service's date error |

## Left out

- HTTP controllers, JSON (de)serialisation, status codes and the error body: these are transport and stay outside the model.
- Issuance.Issue: the request controller that chains validation, `toEntity`, `save` and `CreditView(credit)` is not modelled. That chaining is assumed from the controller test, CreditResourceTest.kt:47-109.
- The credit and customer repositories are replaced by the two store values. Store-assigned numeric ids are not modelled: a saved credit keeps a null `id`.
- CreditService.Save: duplicate credit codes are assumed never to reach save, because codes are freshly generated UUIDs. Any rejection of a duplicate code by the store is not modelled: `Save` appends it. Unique codes are the `CodesUnique` invariant, and the lemmas that need it require a fresh code.
- CreditService.Save: the source attaches the resolved customer to the caller's credit object in place. The model returns an updated copy.
- CreditService.Save: a credit that already has an id would be merged into the stored record by the repository. `Save` always appends. A credit built from a request never has an id, so this case does not arise on the issuance path.
- `CustomerService.findById` is not modelled. `CreditService.FindCustomerById` assumes it is a lookup in the customer map that fails with a not-found error naming the id when the key is absent.
- The entity classes `Credit`, `Customer` and `Status` are not modelled as written. `entities.dfy` assumes their shape and defaults: placeholder customer fields are empty strings and zero; the initial status is called `Pending`; a customer's list of credits is omitted.
- The wall clock and `plusMonths` calendar arithmetic are left out. `today` and `limit` are parameters, and dates are day numbers.
- `BigDecimal` amounts are plain integers, because the core only copies them. The 32-bit `Int` and 64-bit `Long` widths are not modelled, and neither is how out-of-range numbers are bound; installment counts that pass validation lie in 1..48 either way.
- The CPF check-digit and email format validators are library validators and are not modelled. Only the non-empty constraints are modelled.
- CreditDtos.Violations: binding the request body to the DTO is not modelled. Every DTO field has a non-null Kotlin type, so what happens to an absent field is decided by the binder, not by `@NotNull` or `@Future`. Reporting an absent field as `CreditValueMissing`, `DayFirstMissing`, `InstallmentsMissing` or `CustomerIdMissing` is a convention of the model. It makes no claim about the binder's behaviour.
- CustomerDtos.Violations: binding is not modelled here either. Reporting an absent field as a violation of that field is a convention of the model. Only the empty-string cases are the `@NotEmpty` constraints' own.
- CreditService.FindAllByCustomer: its contract states which credits are returned, not their order. How often each is returned is stated by `CreditService.FindAllByCustomerCount`. Store order is stated by `CreditService.FindAllByCustomerAppend` and `CreditService.SaveThenFindAll`.
- Customer registration (`CustomerService.save`) and the lightweight list view are outside the modelled core.
- The test's hard-coded date depends on the day the test is run, so it is not modelled.
