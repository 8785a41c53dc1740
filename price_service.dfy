/**
 * The price stub service (services/price_service.go): the filter options a
 * request carries, and a service object whose `prices` field is overwritten
 * with a fixed list of five records on every load.
 */
module PriceServices {
  import opened Models

  /** Go's `uint32`, the type of the store and product identifiers. */
  newtype uint32 = x: int | 0 <= x < 0x1_0000_0000

  /** Bounds of a price filter; Go `float64`s that are only compared. */
  datatype PriceRange = PriceRange(min: real, max: real)

  /**
   * The query options of a price listing. A parameter absent from the query
   * binds to its zero value (0 or "").
   */
  datatype FilterOpts = FilterOpts(
    storeId: uint32,
    productId: uint32,
    priceRange: PriceRange,
    sortBy: string,
    sortOrder: string)

  /** The five records the stub loader always produces, in this order. */
  function FixedPrices(): seq<Price> {
    [ Price(1, "Apple", "Store A", 0.99, "kg"),
      Price(2, "Banana", "Store B", 0.59, "kg"),
      Price(3, "Orange", "Store A", 1.29, "kg"),
      Price(4, "Milk", "Store C", 1.49, "L"),
      Price(5, "Bread", "Store B", 2.49, "loaf") ]
  }

  /** The fixed records have ids 1..5 in order, so ids are distinct and increasing, and no amount is negative. */
  lemma FixedPricesWellFormed()
    ensures |FixedPrices()| == 5
    ensures forall i :: 0 <= i < |FixedPrices()| ==> FixedPrices()[i].id == i + 1
    ensures forall i, j :: 0 <= i < j < |FixedPrices()| ==> FixedPrices()[i].id < FixedPrices()[j].id
    ensures forall i :: 0 <= i < |FixedPrices()| ==> FixedPrices()[i].amount >= 0.0
    ensures [FixedPrices()[0].item, FixedPrices()[1].item, FixedPrices()[2].item,
             FixedPrices()[3].item, FixedPrices()[4].item] ==
            ["Apple", "Banana", "Orange", "Milk", "Bread"]
  {
  }

  class PriceService {
    var prices: seq<Price>

    /** `NewPriceService`: a service with no prices loaded yet. */
    constructor ()
      ensures prices == []
    {
      prices := [];
    }

    /** The prices loaded last; reading them changes nothing. */
    method GetPrices() returns (r: seq<Price>)
      ensures r == prices
    {
      r := prices;
    }

    /**
     * Overwrites `prices` with the fixed records and returns them. The
     * filter options are accepted but not applied: neither the records
     * nor their order depend on them.
     */
    method LoadPriceData(filterOpts: FilterOpts) returns (r: seq<Price>)
      modifies this
      ensures prices == FixedPrices()
      ensures r == prices
    {
      prices := FixedPrices();
      r := prices;
    }
  }

  /**
   * Loading twice, with any two filters, leaves the same state and returns
   * the same records both times, which `GetPrices` then reports.
   */
  method LoadPriceDataTwice(s: PriceService, first: FilterOpts, second: FilterOpts)
    returns (r1: seq<Price>, r2: seq<Price>, current: seq<Price>)
    modifies s
    ensures r1 == r2 == current == s.prices == FixedPrices()
  {
    r1 := s.LoadPriceData(first);
    var afterFirst := s.prices;
    r2 := s.LoadPriceData(second);
    assert s.prices == afterFirst;
    current := s.GetPrices();
  }
}
