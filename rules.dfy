/**
 * The semantics of the validation rules the validators are written with
 * (ozzo-validation): each rule yields either no error or one error, the rules
 * of one field are tried in order and the first error wins, and the errors of
 * a struct are collected in a map keyed by field name.
 */
module Rules {
  import opened Wrappers

  datatype ValidationError =
    | Blank                                        // "cannot be blank"
    | BelowMin(threshold: real)                    // "must be no less than <threshold>"
    | NotIn                                        // "must be a valid value"
    | NotPriceRange                                // "must be a valid price range"
    | Fields(errors: map<string, ValidationError>) // the per-field errors of a struct

  /** `Required`: the zero value is rejected. */
  function Required(n: int): Option<ValidationError> {
    if n == 0 then Some(Blank) else None
  }

  /** `Min` on an integer: the zero value is accepted without comparing it. */
  function MinInt(n: int, threshold: int): Option<ValidationError> {
    if n == 0 || n >= threshold then None else Some(BelowMin(threshold as real))
  }

  /** `Min` on a float: the zero value is accepted without comparing it. */
  function MinReal(x: real, threshold: real): Option<ValidationError> {
    if x == 0.0 || x >= threshold then None else Some(BelowMin(threshold))
  }

  /** `In`: the empty string is accepted without looking it up. */
  function In(s: string, allowed: seq<string>): Option<ValidationError> {
    if s == "" || s in allowed then None else Some(NotIn)
  }

  /** `When(condition, rule)`: the rule applies only when the condition holds. */
  function When(condition: bool, rule: Option<ValidationError>): Option<ValidationError> {
    if condition then rule else None
  }

  /** The rules of one field, tried in order: the first error is the field's error. */
  function Chain(results: seq<Option<ValidationError>>): (r: Option<ValidationError>)
    ensures r.None? <==> forall i :: 0 <= i < |results| ==> results[i].None?
    ensures r.Some? ==>
      exists i :: 0 <= i < |results| && results[i] == r &&
        forall j :: 0 <= j < i ==> results[j].None?
  {
    if results == [] then None
    else if results[0].Some? then results[0]
    else Chain(results[1..])
  }

  /** One `Field(...)` entry of a struct validation, with the outcome of its rules. */
  datatype FieldCheck = FieldCheck(name: string, error: Option<ValidationError>)

  /** The names of the fields whose rules failed. */
  function FailedNames(checks: seq<FieldCheck>): set<string> {
    set i | 0 <= i < |checks| && checks[i].error.Some? :: checks[i].name
  }

  /** Check `i` failed and no later check of the same field failed. */
  predicate LastFailure(checks: seq<FieldCheck>, i: int) {
    0 <= i < |checks| && checks[i].error.Some? &&
    forall j :: i < j < |checks| && checks[j].name == checks[i].name ==> checks[j].error.None?
  }

  lemma FailedNamesOfSnoc(prefix: seq<FieldCheck>, last: FieldCheck)
    ensures FailedNames(prefix + [last]) ==
      FailedNames(prefix) + (if last.error.Some? then {last.name} else {})
  {
    var checks := prefix + [last];
    forall k | k in FailedNames(checks)
      ensures k in FailedNames(prefix) || (last.error.Some? && k == last.name)
    {
      var i :| 0 <= i < |checks| && checks[i].error.Some? && checks[i].name == k;
      if i < |prefix| { assert prefix[i] == checks[i]; }
    }
    forall k | k in FailedNames(prefix)
      ensures k in FailedNames(checks)
    {
      var i :| 0 <= i < |prefix| && prefix[i].error.Some? && prefix[i].name == k;
      assert checks[i] == prefix[i];
    }
    if last.error.Some? {
      assert checks[|prefix|] == last;
    }
  }

  /** The name of a check when it failed, as a set of at most one element. */
  function NameIfFailed(c: FieldCheck): set<string> {
    if c.error.Some? then {c.name} else {}
  }

  lemma FailedNamesOfThree(a: FieldCheck, b: FieldCheck, c: FieldCheck)
    ensures FailedNames([a, b, c]) == NameIfFailed(a) + NameIfFailed(b) + NameIfFailed(c)
  {
    FailedNamesOfSnoc([], a);
    FailedNamesOfSnoc([a], b);
    FailedNamesOfSnoc([a, b], c);
    assert [a] == [] + [a];
    assert [a, b] == [a] + [b];
    assert [a, b, c] == [a, b] + [c];
  }

  lemma FailedNamesOfFive(a: FieldCheck, b: FieldCheck, c: FieldCheck, d: FieldCheck, e: FieldCheck)
    ensures FailedNames([a, b, c, d, e]) ==
      NameIfFailed(a) + NameIfFailed(b) + NameIfFailed(c) + NameIfFailed(d) + NameIfFailed(e)
  {
    FailedNamesOfThree(a, b, c);
    FailedNamesOfSnoc([a, b, c], d);
    FailedNamesOfSnoc([a, b, c, d], e);
    assert [a, b, c, d] == [a, b, c] + [d];
    assert [a, b, c, d, e] == [a, b, c, d] + [e];
  }

  /**
   * The error map of a struct validation, built in field order: a failing
   * field stores its error under its name, replacing an earlier entry for
   * the same name; a passing field changes nothing.
   */
  function Aggregate(checks: seq<FieldCheck>): (m: map<string, ValidationError>)
    ensures m.Keys == FailedNames(checks)
    ensures forall i :: LastFailure(checks, i) ==> m[checks[i].name] == checks[i].error.value
  {
    if checks == [] then map[]
    else
      var prefix := checks[..|checks| - 1];
      var last := checks[|checks| - 1];
      assert checks == prefix + [last];
      FailedNamesOfSnoc(prefix, last);
      var m := Aggregate(prefix);
      assert forall i :: LastFailure(checks, i) && i < |prefix| && checks[i].name != last.name ==>
        LastFailure(prefix, i);
      if last.error.Some? then m[last.name := last.error.value] else m
  }

  /** `ValidateStruct`: no error when every field passes, otherwise the map of field errors. */
  function ValidateStruct(checks: seq<FieldCheck>): (r: Option<ValidationError>)
    ensures r.None? <==> forall i :: 0 <= i < |checks| ==> checks[i].error.None?
    ensures r.Some? ==> r.value.Fields? && r.value.errors.Keys == FailedNames(checks)
  {
    var m := Aggregate(checks);
    assert forall i :: 0 <= i < |checks| && checks[i].error.Some? ==> checks[i].name in m;
    if m == map[] then None
    else Some(Fields(m))
  }

  /** The error a struct verdict reports for the field `name`, if any. */
  function FieldError(verdict: Option<ValidationError>, name: string): Option<ValidationError> {
    match verdict
    case Some(Fields(m)) => if name in m then Some(m[name]) else None
    case _ => None
  }

  predicate DistinctNames(checks: seq<FieldCheck>) {
    forall i, j :: 0 <= i < j < |checks| ==> checks[i].name != checks[j].name
  }

  /** When no two fields share a name, each field's reported error is exactly the outcome of its own rules. */
  lemma FieldErrorOfDistinct(checks: seq<FieldCheck>, i: int)
    requires DistinctNames(checks)
    requires 0 <= i < |checks|
    ensures FieldError(ValidateStruct(checks), checks[i].name) == checks[i].error
  {
    var m := Aggregate(checks);
    if checks[i].error.Some? {
      assert LastFailure(checks, i);
    } else {
      assert forall k :: 0 <= k < |checks| && k != i ==> checks[k].name != checks[i].name;
      assert checks[i].name !in FailedNames(checks);
    }
  }
}
