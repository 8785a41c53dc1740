/**
 * The filter-options validator (validation/price.go): declarative rule
 * lists over `FilterOpts` and its nested `PriceRange`, with the verdicts
 * they produce characterised by independent reference predicates.
 */
module PriceValidation {
  import opened Wrappers
  import opened Rules
  import opened PriceServices

  const SortByValues: seq<string> := ["amount", "store", "item", ""]
  const SortOrderValues: seq<string> := ["asc", "desc", ""]

  /** The dynamic value a custom (`By`) rule receives: a price range or anything else. */
  datatype Any = AnyPriceRange(range: PriceRange) | AnyOther

  /** The three `Field(...)` entries of `ValidatePriceRange`, with their outcomes. */
  function PriceRangeChecks(r: PriceRange): seq<FieldCheck> {
    [ FieldCheck("Min", Chain([MinReal(r.min, 0.0)])),
      FieldCheck("Max", Chain([MinReal(r.max, 0.0)])),
      FieldCheck("Max", Chain([When(r.min > 0.0 && r.max > 0.0, MinReal(r.max, r.min))])) ]
  }

  /** `ValidatePriceRange`: both bounds at least 0; Max at least Min when both are positive. */
  function ValidatePriceRange(r: PriceRange): Option<ValidationError> {
    ValidateStruct(PriceRangeChecks(r))
  }

  /** `validatePriceRange`: the custom rule, which first asserts that its argument is a price range. */
  function ValidatePriceRangeValue(v: Any): Option<ValidationError> {
    match v
    case AnyPriceRange(r) => ValidatePriceRange(r)
    case AnyOther => Some(NotPriceRange)
  }

  /** The five `Field(...)` entries of `ValidateFilterOpts`, with their outcomes. */
  function FilterOptsChecks(opts: FilterOpts): seq<FieldCheck> {
    [ FieldCheck("store_id", Chain([Required(opts.storeId as int), MinInt(opts.storeId as int, 1)])),
      FieldCheck("product_id", Chain([Required(opts.productId as int), MinInt(opts.productId as int, 1)])),
      FieldCheck("price_range", Chain([ValidatePriceRangeValue(AnyPriceRange(opts.priceRange))])),
      FieldCheck("sort_by", Chain([In(opts.sortBy, SortByValues)])),
      FieldCheck("sort_order", Chain([In(opts.sortOrder, SortOrderValues)])) ]
  }

  /** `ValidateFilterOpts`: the five field rule lists, aggregated by field name. */
  function ValidateFilterOpts(opts: FilterOpts): Option<ValidationError> {
    ValidateStruct(FilterOptsChecks(opts))
  }

  // ---------------------------------------------------------------------
  // Reference definitions: what an acceptable filter is, field by field.

  predicate PriceRangeOk(r: PriceRange) {
    r.min >= 0.0 && r.max >= 0.0 && (r.min > 0.0 && r.max > 0.0 ==> r.max >= r.min)
  }

  /** The price-range fields that are out of bounds. */
  function PriceRangeFailures(r: PriceRange): set<string> {
    (if r.min < 0.0 then {"Min"} else {}) +
    (if r.max < 0.0 || (r.min > 0.0 && r.max > 0.0 && r.max < r.min) then {"Max"} else {})
  }

  predicate FilterOptsOk(opts: FilterOpts) {
    opts.storeId >= 1 && opts.productId >= 1 && PriceRangeOk(opts.priceRange) &&
    opts.sortBy in SortByValues && opts.sortOrder in SortOrderValues
  }

  /** The filter fields that are out of bounds. */
  function FilterOptsFailures(opts: FilterOpts): set<string> {
    (if opts.storeId < 1 then {"store_id"} else {}) +
    (if opts.productId < 1 then {"product_id"} else {}) +
    (if !PriceRangeOk(opts.priceRange) then {"price_range"} else {}) +
    (if opts.sortBy !in SortByValues then {"sort_by"} else {}) +
    (if opts.sortOrder !in SortOrderValues then {"sort_order"} else {})
  }

  // ---------------------------------------------------------------------
  // What the validators decide.

  /** A failing-field set is empty exactly when the options are acceptable. */
  lemma FilterOptsFailuresEmptyIffOk(opts: FilterOpts)
    ensures FilterOptsFailures(opts) == {} <==> FilterOptsOk(opts)
  {
    if FilterOptsFailures(opts) == {} {
      assert "store_id" !in FilterOptsFailures(opts);
      assert "product_id" !in FilterOptsFailures(opts);
      assert "price_range" !in FilterOptsFailures(opts);
      assert "sort_by" !in FilterOptsFailures(opts);
      assert "sort_order" !in FilterOptsFailures(opts);
    }
  }

  /**
   * The price-range verdict: accepted exactly when both bounds are
   * non-negative and, when both are positive, Max is at least Min; on
   * failure the error map names exactly the offending bounds.
   */
  lemma ValidatePriceRangeVerdict(r: PriceRange)
    ensures ValidatePriceRange(r).None? <==> PriceRangeOk(r)
    ensures ValidatePriceRange(r).Some? ==>
      ValidatePriceRange(r).value.Fields? &&
      ValidatePriceRange(r).value.errors.Keys == PriceRangeFailures(r)
  {
    var checks := PriceRangeChecks(r);
    FailedNamesOfThree(checks[0], checks[1], checks[2]);
    assert checks == [checks[0], checks[1], checks[2]];
  }

  /**
   * The error of each bound: a negative bound is "no less than 0"; with both
   * bounds positive, a Max below Min is "no less than Min"; a zero bound is
   * never compared.
   */
  lemma ValidatePriceRangeErrors(r: PriceRange)
    ensures FieldError(ValidatePriceRange(r), "Min") ==
      (if r.min < 0.0 then Some(BelowMin(0.0)) else None)
    ensures FieldError(ValidatePriceRange(r), "Max") ==
      (if r.max < 0.0 then Some(BelowMin(0.0))
       else if r.min > 0.0 && r.max > 0.0 && r.max < r.min then Some(BelowMin(r.min))
       else None)
  {
    var checks := PriceRangeChecks(r);
    ValidatePriceRangeVerdict(r);
    if ValidatePriceRange(r).Some? {
      if r.min < 0.0 { assert LastFailure(checks, 0); }
      if r.max < 0.0 { assert LastFailure(checks, 1); }
      else if r.min > 0.0 && r.max > 0.0 && r.max < r.min { assert LastFailure(checks, 2); }
    }
  }

  /** Given a price range, the custom rule gives exactly the price-range verdict; only a non-range fails its type test. */
  lemma ValidatePriceRangeValueAgrees(v: Any)
    ensures v.AnyPriceRange? ==> ValidatePriceRangeValue(v) == ValidatePriceRange(v.range)
    ensures ValidatePriceRangeValue(v) == Some(NotPriceRange) <==> v.AnyOther?
  {
    if v.AnyPriceRange? {
      ValidatePriceRangeVerdict(v.range);
    }
  }

  /** The outcome of each field's rule list, in terms of the reference definitions. */
  lemma FilterOptsCheckOutcomes(opts: FilterOpts)
    ensures |FilterOptsChecks(opts)| == 5
    ensures FilterOptsChecks(opts)[0] ==
      FieldCheck("store_id", if opts.storeId < 1 then Some(Blank) else None)
    ensures FilterOptsChecks(opts)[1] ==
      FieldCheck("product_id", if opts.productId < 1 then Some(Blank) else None)
    ensures FilterOptsChecks(opts)[2] ==
      FieldCheck("price_range", ValidatePriceRange(opts.priceRange))
    ensures FilterOptsChecks(opts)[3] ==
      FieldCheck("sort_by", if opts.sortBy in SortByValues then None else Some(NotIn))
    ensures FilterOptsChecks(opts)[4] ==
      FieldCheck("sort_order", if opts.sortOrder in SortOrderValues then None else Some(NotIn))
  {
  }

  lemma FilterOptsFailedNames(opts: FilterOpts)
    ensures FailedNames(FilterOptsChecks(opts)) == FilterOptsFailures(opts)
  {
    var checks := FilterOptsChecks(opts);
    FilterOptsCheckOutcomes(opts);
    ValidatePriceRangeVerdict(opts.priceRange);
    FailedNamesOfFive(checks[0], checks[1], checks[2], checks[3], checks[4]);
    assert checks == [checks[0], checks[1], checks[2], checks[3], checks[4]];
  }

  /**
   * The filter verdict: accepted exactly when the reference predicate holds;
   * on failure the error map names exactly the failing fields.
   */
  lemma ValidateFilterOptsVerdict(opts: FilterOpts)
    ensures ValidateFilterOpts(opts).None? <==> FilterOptsOk(opts)
    ensures ValidateFilterOpts(opts).Some? ==>
      ValidateFilterOpts(opts).value.Fields? &&
      ValidateFilterOpts(opts).value.errors.Keys == FilterOptsFailures(opts)
  {
    FilterOptsFailedNames(opts);
    FilterOptsFailuresEmptyIffOk(opts);
  }

  /**
   * The error reported for each field. An identifier of 0 (what a missing
   * parameter binds to) is "cannot be blank", the `Min(1)` rule adding
   * nothing because it skips the zero value; a sort key or direction outside
   * its list is "must be a valid value"; and the price range reports the
   * price-range verdict itself, never the type-test error.
   */
  lemma ValidateFilterOptsErrors(opts: FilterOpts)
    ensures FieldError(ValidateFilterOpts(opts), "store_id") ==
      (if opts.storeId < 1 then Some(Blank) else None)
    ensures FieldError(ValidateFilterOpts(opts), "product_id") ==
      (if opts.productId < 1 then Some(Blank) else None)
    ensures FieldError(ValidateFilterOpts(opts), "price_range") == ValidatePriceRange(opts.priceRange)
    ensures FieldError(ValidateFilterOpts(opts), "sort_by") ==
      (if opts.sortBy in SortByValues then None else Some(NotIn))
    ensures FieldError(ValidateFilterOpts(opts), "sort_order") ==
      (if opts.sortOrder in SortOrderValues then None else Some(NotIn))
  {
    var checks := FilterOptsChecks(opts);
    FilterOptsCheckOutcomes(opts);
    assert DistinctNames(checks);
    FieldErrorOfDistinct(checks, 0);
    FieldErrorOfDistinct(checks, 1);
    FieldErrorOfDistinct(checks, 2);
    FieldErrorOfDistinct(checks, 3);
    FieldErrorOfDistinct(checks, 4);
  }

  /** A missing (zero) store id is rejected with a blank-`store_id` error, whatever else the filter holds. */
  lemma MissingStoreIdIsBlank(opts: FilterOpts)
    requires opts.storeId == 0
    ensures ValidateFilterOpts(opts).Some?
    ensures FieldError(ValidateFilterOpts(opts), "store_id") == Some(Blank)
  {
    ValidateFilterOptsVerdict(opts);
    ValidateFilterOptsErrors(opts);
  }

  /** A missing (zero) product id is rejected with a blank-`product_id` error, whatever else the filter holds. */
  lemma MissingProductIdIsBlank(opts: FilterOpts)
    requires opts.productId == 0
    ensures ValidateFilterOpts(opts).Some?
    ensures FieldError(ValidateFilterOpts(opts), "product_id") == Some(Blank)
  {
    ValidateFilterOptsVerdict(opts);
    ValidateFilterOptsErrors(opts);
  }

  /**
   * The boundary cases of the range check: equal positive bounds pass, an
   * inverted positive range fails, and a zero bound switches the ordering
   * check off, so {5, 0} and {0, 0} pass; a negative bound always fails.
   */
  lemma PriceRangeBoundaries(a: real, b: real)
    requires a > 0.0
    ensures ValidatePriceRange(PriceRange(a, a)).None?
    ensures b > 0.0 && b < a ==> ValidatePriceRange(PriceRange(a, b)).Some?
    ensures ValidatePriceRange(PriceRange(a, 0.0)).None?
    ensures ValidatePriceRange(PriceRange(0.0, 0.0)).None?
    ensures b < 0.0 ==> ValidatePriceRange(PriceRange(b, a)).Some? && ValidatePriceRange(PriceRange(a, b)).Some?
  {
    ValidatePriceRangeVerdict(PriceRange(a, a));
    ValidatePriceRangeVerdict(PriceRange(a, b));
    ValidatePriceRangeVerdict(PriceRange(a, 0.0));
    ValidatePriceRangeVerdict(PriceRange(0.0, 0.0));
    ValidatePriceRangeVerdict(PriceRange(b, a));
  }

  /**
   * Cases from the validator's table: a complete filter passes, empty sort
   * fields pass, a filter with only a price range passes, and an unknown sort key or direction is "must be a valid value".
   */
  lemma FilterOptsExamples()
    ensures ValidateFilterOpts(FilterOpts(1, 1, PriceRange(0.0, 10.0), "amount", "asc")).None?
    ensures ValidateFilterOpts(FilterOpts(1, 1, PriceRange(0.0, 0.0), "", "")).None?
    ensures ValidateFilterOpts(FilterOpts(1, 1, PriceRange(1.0, 5.0), "", "")).None?
    ensures FieldError(ValidateFilterOpts(FilterOpts(1, 1, PriceRange(0.0, 0.0), "invalid", "")), "sort_by") == Some(NotIn)
    ensures FieldError(ValidateFilterOpts(FilterOpts(1, 1, PriceRange(0.0, 0.0), "", "invalid")), "sort_order") == Some(NotIn)
  {
    ValidateFilterOptsVerdict(FilterOpts(1, 1, PriceRange(0.0, 10.0), "amount", "asc"));
    ValidateFilterOptsVerdict(FilterOpts(1, 1, PriceRange(0.0, 0.0), "", ""));
    ValidateFilterOptsVerdict(FilterOpts(1, 1, PriceRange(1.0, 5.0), "", ""));
    ValidateFilterOptsErrors(FilterOpts(1, 1, PriceRange(0.0, 0.0), "invalid", ""));
    ValidateFilterOptsErrors(FilterOpts(1, 1, PriceRange(0.0, 0.0), "", "invalid"));
  }
}
