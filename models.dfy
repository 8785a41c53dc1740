/**
 * The two record types of the API (models/price.go, models/user.go).
 * Go's `uint` identifiers are natural numbers here; `Amount` is a
 * `float64` that is only ever compared, so it is a `real`.
 */
module Models {
  /** One price observation: which item, at which store, for how much, per which unit. */
  datatype Price = Price(id: nat, item: string, store: string, amount: real, unit: string)

  /** A registered user. The password is stored but never serialised. */
  datatype User = User(id: nat, name: string, email: string, password: string)
}
