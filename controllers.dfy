/**
 * The decision the price-listing handler makes (controllers/price_controller.go):
 * a query that does not bind, or binds to options the validator rejects, is
 * answered 400; otherwise the service loads its records and they are
 * answered 200. Binding and response writing belong to the web framework, so
 * the bound options arrive as a parameter (`None` when binding failed).
 */
module Controllers {
  import opened Wrappers
  import opened Models
  import opened Rules
  import opened PriceServices
  import opened PriceValidation

  datatype PricesResponse =
    | BadRequest(error: Option<ValidationError>)     // 400; `None` for a binding error
    | Ok(message: string, data: seq<Price>)          // 200

  method GetPricesHandler(service: PriceService, bound: Option<FilterOpts>) returns (resp: PricesResponse)
    modifies service
    ensures bound.None? ==> resp == BadRequest(None) && service.prices == old(service.prices)
    ensures bound.Some? && !FilterOptsOk(bound.value) ==>
      resp.BadRequest? && resp.error == ValidateFilterOpts(bound.value) &&
      service.prices == old(service.prices)
    ensures bound.Some? && FilterOptsOk(bound.value) ==>
      resp == Ok("Get all prices", FixedPrices()) && service.prices == FixedPrices()
  {
    if bound.None? {
      return BadRequest(None);
    }
    var opts := bound.value;
    ValidateFilterOptsVerdict(opts);
    var verdict := ValidateFilterOpts(opts);
    if verdict.Some? {
      return BadRequest(verdict);
    }
    var prices := service.LoadPriceData(opts);
    resp := Ok("Get all prices", prices);
  }

  /**
   * The controller scenarios: a query with only `product_id` (so `store_id`
   * binds to 0) is a 400 naming `store_id`; `store_id=1&product_id=1` with
   * `sort_by=amount&sort_order=asc` is a 200 with the fixed records unsorted.
   */
  method ControllerScenarios(service: PriceService)
    modifies service
  {
    var missingStore := FilterOpts(0, 1, PriceRange(0.0, 0.0), "", "");
    MissingStoreIdIsBlank(missingStore);
    var r1 := GetPricesHandler(service, Some(missingStore));
    assert r1.BadRequest? && FieldError(r1.error, "store_id") == Some(Blank);

    var sorted := FilterOpts(1, 1, PriceRange(0.0, 0.0), "amount", "asc");
    var r2 := GetPricesHandler(service, Some(sorted));
    assert r2.Ok? && r2.data[0] == Price(1, "Apple", "Store A", 0.99, "kg");
    assert |r2.data| == 5 && r2.data[4].item == "Bread";
  }
}
