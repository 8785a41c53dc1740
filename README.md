# Grocery price API core, modelled in Dafny

The repository is a small Gin HTTP scaffold serving users and grocery prices.
Its logic, modelled here, is:

- the **filter-options validator** (`ValidateFilterOpts`, `ValidatePriceRange`,
  `validatePriceRange`): declarative ozzo-validation rule lists over the
  listing query (store and product ids, a price range, a sort key and a sort
  direction), with errors collected per field name;
- the **user-parameter validator** (`ValidateUserParams`): a blank-name check,
  a blank-email check and a match of the untrimmed email against
  `^[a-zA-Z0-9._%+-]+@[a-zA-Z0-9.-]+\.[a-zA-Z]{2,}$`;
- the **price stub service**: an object whose `prices` field is overwritten
  with five fixed records on every load, whatever the filter;
- the **user stub service**: an object with an append-only user list whose
  ids are the list length plus one at creation;
- the one decision of the price-listing handler: 400 on a binding or
  validation failure, otherwise 200 with the loaded records.

Modules, one per source component:

| file | module | models |
|---|---|---|
| `wrappers.dfy` | `Wrappers` | `Option` (`None` stands for Go's `nil` error) |
| `models.dfy` | `Models` | the `Price` and `User` records |
| `rules.dfy` | `Rules` | the rule semantics: `Required` rejects the zero value; `Min` and `In` accept the zero/empty value unchecked; `When(c, r)` applies `r` only if `c`; a field's rules stop at the first error (`Chain`); failing fields are stored in a map by name, a later entry for the same name replacing an earlier one (`Aggregate`, `ValidateStruct`) |
| `price_service.dfy` | `PriceServices` | `FilterOpts`, `PriceRange`, the fixed records, the `PriceService` class |
| `price_validation.dfy` | `PriceValidation` | the filter and price-range validators, with reference predicates `FilterOptsOk`/`PriceRangeOk` and failing-field sets they are proved against |
| `text.dfy` | `Text` | `strings.TrimSpace` over the white-space set of `unicode.IsSpace` |
| `user_validation.dfy` | `UserValidation` | the email pattern (an existential reading of the pattern, and a matcher proved equal to it) and `ValidateUserParams` |
| `user_service.dfy` | `UserServices` | the `UserService` class and its invariant `users[i].id == i + 1` |
| `controllers.dfy` | `Controllers` | the price-listing handler's decision |

`ValidatePriceRange` compares the bounds only when both are strictly
positive (validation/price.go:25), so `{Min: 5, Max: 0}` is accepted
(`PriceRangeBoundaries`). The user controller never calls
`ValidateUserParams`; the validator is modelled on its own.

## Model

| member | source | states |
|---|---|---|
| `Rules.Chain` | validation/price.go:12-16 | a field's rule list yields no error iff every rule passes, and otherwise the first failing rule's error |
| `Rules.Aggregate` | validation/price.go:11-17 | the error map's keys are exactly the names of the failing fields, and each holds the error of the last failing entry with that name |
| `Rules.ValidateStruct` | validation/price.go:11-17 | a struct validation succeeds iff no field fails; otherwise it is a per-field error map keyed by exactly the failing field names |
| `Rules.FieldErrorOfDistinct` | validation/price.go:11-17 | when field names are distinct, the error reported for each field is exactly the outcome of that field's own rules |
| `PriceValidation.FilterOptsFailuresEmptyIffOk` | validation/price.go:10-18 | the failing-field set is empty iff store id ≥ 1, product id ≥ 1, the range is valid and both sort fields are in their lists |
| `PriceValidation.ValidatePriceRangeVerdict` | validation/price.go:21-27 | the range passes iff Min ≥ 0, Max ≥ 0 and (both > 0 ⇒ Max ≥ Min); on failure the map names exactly the offending bounds |
| `PriceValidation.ValidatePriceRangeErrors` | validation/price.go:23-25 | a negative bound reports "no less than 0"; with both bounds positive a Max below Min reports "no less than Min"; otherwise no error for that bound |
| `PriceValidation.ValidatePriceRangeValueAgrees` | validation/price.go:30-37 | the custom rule gives the price-range verdict for any price range, and the type-test error exactly for a non-range |
| `PriceValidation.FilterOptsCheckOutcomes` | validation/price.go:12-16 | each field's rule list yields: store/product id blank iff 0, the price-range verdict, sort key/direction "not a valid value" iff outside its list |
| `PriceValidation.FilterOptsFailedNames` | validation/price.go:11-17 | the names of the failing fields are exactly the reference failing-field set |
| `PriceValidation.ValidateFilterOptsVerdict` | validation/price.go:10-18 | the filter passes iff the reference predicate holds; on failure the error map names exactly the failing fields |
| `PriceValidation.ValidateFilterOptsErrors` | validation/price.go:12-16 | per field, both directions: store_id/product_id report "cannot be blank" iff 0 (Min(1) adds nothing), price_range reports the range's own errors, sort_by/sort_order report "must be a valid value" iff outside their lists ("" allowed) |
| `PriceValidation.MissingStoreIdIsBlank` | validation/price.go:12 | a zero (missing) store id fails with store_id "cannot be blank", whatever the other fields |
| `PriceValidation.MissingProductIdIsBlank` | validation/price.go:13 | a zero (missing) product id fails with product_id "cannot be blank", whatever the other fields |
| `PriceValidation.PriceRangeBoundaries` | validation/price.go:23-25 | equal positive bounds pass, an inverted positive range fails, {a, 0} and {0, 0} pass, a negative bound fails |
| `PriceValidation.FilterOptsExamples` | validation/price_test.go:15-104 | the table's complete filter, empty-sort filter and price-range-only filter pass; an unknown sort key or direction reports "must be a valid value" |
| `PriceServices.FixedPricesWellFormed` | services/price_service.go:40-46 | five records, ids 1..5 in order (distinct, increasing), amounts ≥ 0, items Apple, Banana, Orange, Milk, Bread |
| `PriceServices.PriceService.constructor` | services/price_service.go:27-31 | a new service holds no prices |
| `PriceServices.PriceService.GetPrices` | services/price_service.go:33-35 | returns the stored prices and changes nothing |
| `PriceServices.PriceService.LoadPriceData` | services/price_service.go:37-48 | stores and returns exactly the fixed records, whatever the filter |
| `PriceServices.LoadPriceDataTwice` | services/price_service.go:37-48 | loading twice with any filters returns the same records, leaves the same state, and `GetPrices` then returns them |
| `Text.TrimLeft` | validation/user.go:10 | drops only leading white space, all of it |
| `Text.TrimRight` | validation/user.go:10 | drops only trailing white space, all of it |
| `Text.TrimSpace` | validation/user.go:10 | the result is a slice of the input with only white space outside it; it is empty iff the input is all white space; otherwise it neither starts nor ends with white space |
| `UserValidation.MatchesEmailIff` | validation/user.go:18-19 | the first-`@`/last-`.` matcher accepts exactly the strings the anchored pattern describes |
| `UserValidation.ValidateUserParams` | validation/user.go:9-24 | nil iff the name is not blank and the untrimmed email matches the pattern; a blank name is reported first whatever the email, then a blank email, then a non-matching email |
| `UserValidation.PatternEndsNotSpace` | validation/user.go:18 | a matching string neither starts nor ends with white space |
| `UserValidation.SurroundingSpaceRejected` | validation/user.go:14-21 | with a non-blank name and email, white space at either end of the email gives "invalid email format" |
| `UserValidation.PatternShape` | validation/user.go:18 | a matching string has exactly one `@`, a non-empty local part over `[a-zA-Z0-9._%+-]` before it, and ends in `.` and at least two ASCII letters |
| `UserValidation.AcceptedEmailShape` | validation/user.go:9-24 | every accepted email matches the pattern and holds exactly one `@` |
| `UserValidation.UserParamsExamples` | validation/user.go:9-24 | `("A", "a@b.com")` is accepted; `("A", " a@b.com")` is an invalid email format |
| `UserServices.UserService.constructor` | services/user_service.go:11-15 | a new service holds no users and satisfies the id invariant |
| `UserServices.UserService.GetUsers` | services/user_service.go:17-19 | returns the stored users and changes nothing |
| `UserServices.UserService.CreateUser` | services/user_service.go:21-26 | returns the user with id = old length + 1 and other fields unchanged, appends exactly it, leaves earlier entries unchanged, keeps `users[i].id == i + 1` |
| `UserServices.IdsUnique` | services/user_service.go:23-24 | under the invariant no two stored users share an id |
| `UserServices.CreateUserTwice` | services/user_service.go:21-26 | creating the same user twice stores two entries with ids n+1 and n+2: no uniqueness check |
| `UserServices.FirstTwoUsers` | services/user_service.go:21-26 | on a new service two creations get ids 1 and 2 and are listed in that order |
| `Controllers.GetPricesHandler` | controllers/price_controller.go:21-39 | a binding failure or rejected filter answers 400 (with the validator's errors) and loads nothing; an accepted filter answers 200 with the fixed records |

## Left out

- Query and JSON binding, response writing and status codes other than the
  price-listing decision go through the web framework's context, which is not
  part of this model; bound options arrive as a parameter.
- Server start-up (`main.go`) and route registration (`routes/routes.go`) are
  plumbing; the other handlers (`CreatePrice`, `GetPricesByStore`,
  `GetPricesByProduct`) echo a constant message and, for the by-store and
  by-product handlers, the path parameter; the user handlers forward to the
  user service.
- The validation library's internals (reflection, struct tags, message
  templates): each error message is a constructor of `ValidationError`.
- The regular-expression engine: only the one email pattern is modelled.
- `float64`: amounts and price-range bounds are `real`; NaN and infinities are
  not modelled.
- Go `uint` ids are `nat`: an id is a slice length plus one, which never
  reaches the `uint` bound, so there is no wrap-around to model.
- `strings.TrimSpace` works on UTF-8 bytes; strings here are sequences of
  Unicode scalar values, so invalid UTF-8 is not modelled.
- Slice aliasing: `GetPrices` and `GetUsers` return the service's own slice;
  the model returns the sequence value.
- The unsynchronised update of the user list under concurrent requests.
- Filtering and sorting by the filter options are declared but not
  implemented in the source; the model does not invent them.
- The password's omission from JSON output is serialisation behaviour.
