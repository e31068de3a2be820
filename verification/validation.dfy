/** Input validators (src/utils/validation.js).  Container ids, Incoterms and
    HS codes are normalised and checked; weights are coerced and checked.
    The reference tables are passed in explicitly. */
module Validation {
  import opened Base
  import opened OrderedMaps
  import opened JsValues
  import opened Errors
  import opened Strings

  // ---------------------------------------------------------------- container ids

  const ContainerMessage: string := "container_id must be ISO 6346 compliant"
  const WeightMessage: string := "weight must be greater than zero"

  predicate IsUpperLetter(c: char) {
    'A' <= c <= 'Z'
  }

  /** `/^[A-Z]{4}\d{7}$/`: the shape of an ISO 6346 container number (owner
      code and category letter, six-digit serial, check digit).  The check
      digit itself is not verified. */
  predicate IsoShape(id: string) {
    && |id| == 11
    && (forall k :: 0 <= k < 4 ==> IsUpperLetter(id[k]))
    && (forall k :: 4 <= k < 11 ==> IsDigit(id[k]))
  }

  /** `validateContainerId(value)`: upper-case the value clamped to 50
      characters and demand the whole of it has the ISO 6346 shape. */
  function ValidateContainerId(v: JsValue): (r: Result<string>)
    ensures r.Ok? <==> IsoShape(Upper(ClampString(v, 50)))
    ensures r.Ok? ==> r.value == Upper(ClampString(v, 50)) && |r.value| == 11
    ensures r.Err? ==> r.error == McpError(BadInput, ContainerMessage)
  {
    var id := Upper(ClampString(v, 50));
    :- AssertOrThrow(IsoShape(id), BadInput, ContainerMessage);
    Ok(id)
  }

  /** An accepted id is accepted again, unchanged. */
  lemma ContainerIdIdempotent(v: JsValue)
    requires ValidateContainerId(v).Ok?
    ensures ValidateContainerId(Str(ValidateContainerId(v).value)) == ValidateContainerId(v)
  {
    var id := ValidateContainerId(v).value;
    assert ClampString(Str(id), 50) == id;
    assert forall k :: 0 <= k < |id| ==> ToUpperChar(id[k]) == id[k];
    assert Upper(id) == id;
  }

  /** 'abcd1234567' is normalised to 'ABCD1234567'; 'AB1C234567' is refused. */
  lemma ContainerIdExamples()
    ensures ValidateContainerId(Str("abcd1234567")) == Ok("ABCD1234567")
    ensures ValidateContainerId(Str("AB1C234567")).Err?
  {
    LowerCaseIdExample();
    MalformedIdExample();
  }

  /** A lower-case id is upper-cased and accepted. */
  lemma LowerCaseIdExample()
    ensures ValidateContainerId(Str("abcd1234567")) == Ok("ABCD1234567")
  {
    assert ClampString(Str("abcd1234567"), 50) == "abcd1234567";
    assert Upper("abcd1234567") == "ABCD1234567";
    assert IsoShape("ABCD1234567");
  }

  /** An id with a digit among its letters and one digit short is refused. */
  lemma MalformedIdExample()
    ensures ValidateContainerId(Str("AB1C234567")).Err?
  {
    assert ClampString(Str("AB1C234567"), 50) == "AB1C234567";
  }

  /** The shape at position `i`. */
  predicate IsoShapeAt(s: string, i: nat) {
    i + 11 <= |s| && IsoShape(s[i..i + 11])
  }

  /** The unanchored `/[A-Z]{4}\d{7}/.test(s)`: the shape occurs somewhere
      at or after `i`. */
  function ShapeFrom(s: string, i: nat): (r: bool)
    ensures r <==> exists j: nat :: i <= j && IsoShapeAt(s, j)
    decreases |s| - i
  {
    if i + 11 > |s| then false
    else IsoShapeAt(s, i) || ShapeFrom(s, i + 1)
  }

  /** The anchored check implies the unanchored one. */
  lemma AnchoredImpliesUnanchored(s: string)
    requires IsoShape(s)
    ensures ShapeFrom(s, 0)
  {
    assert s[0..11] == s;
    assert IsoShapeAt(s, 0);
  }

  // ---------------------------------------------------------------- Incoterms and HS codes

  /** The `reason` of a validation record; `Recognised` is written "OK". */
  datatype Reason = Recognised | Missing | UnknownIncoterm | UnknownHsCode {
    function Name(): string {
      match this
      case Recognised => "OK"
      case Missing => "MISSING"
      case UnknownIncoterm => "UNKNOWN_INCOTERM"
      case UnknownHsCode => "UNKNOWN_HS_CODE"
    }
  }

  /** `{valid, code, description, reason}`; an Incoterm record has no
      description (None). */
  datatype ValidationRecord = ValidationRecord(
    valid: bool,
    code: Option<string>,
    description: Option<string>,
    reason: Reason)

  const MissingRecord := ValidationRecord(false, None, None, Missing)

  /** `validateIncoterm(incoterm)`: never throws. */
  function ValidateIncoterm(v: JsValue, incoterms: set<string>): (r: ValidationRecord)
    ensures !Truthy(v) ==> r == MissingRecord
    ensures Truthy(v) ==>
              && r.code == Some(Upper(ClampString(v, 8)))
              && (r.valid <==> r.code.value in incoterms)
              && r.description.None?
    ensures r.valid <==> r.reason == Recognised
    ensures !r.valid ==> r.reason == (if Truthy(v) then UnknownIncoterm else Missing)
    ensures r.code.Some? ==> |r.code.value| <= 8
  {
    if !Truthy(v) then MissingRecord
    else
      var normalized := Upper(ClampString(v, 8));
      var valid := normalized in incoterms;
      ValidationRecord(valid, Some(normalized), None, if valid then Recognised else UnknownIncoterm)
  }

  /** `replace(/[^0-9]/g, '')` */
  function KeepDigits(s: string): (r: string)
    ensures AllDigits(r) && |r| <= |s|
    ensures AllDigits(s) ==> r == s
  {
    if |s| == 0 then ""
    else
      var p := KeepDigits(s[..|s| - 1]);
      var c := s[|s| - 1];
      if IsDigit(c) then p + [c] else p
  }

  /** `validateHsCode(hsCode)`: clamp to 10, strip non-digits, look the code
      up.  Never throws. */
  function ValidateHsCode(v: JsValue, hsCodes: OrderedMap<string, string>): (r: ValidationRecord)
    ensures !Truthy(v) ==> r == MissingRecord
    ensures Truthy(v) ==>
              && r.code == Some(KeepDigits(ClampString(v, 10)))
              && r.description == Get(hsCodes, r.code.value)
              && (r.valid <==> r.description.Some? && |r.description.value| > 0)
    ensures r.valid <==> r.reason == Recognised
    ensures !r.valid ==> r.reason == (if Truthy(v) then UnknownHsCode else Missing)
    ensures r.code.Some? ==> AllDigits(r.code.value) && |r.code.value| <= 10
  {
    if !Truthy(v) then MissingRecord
    else
      var normalized := KeepDigits(ClampString(v, 10));
      var description := Get(hsCodes, normalized);
      var valid := description.Some? && |description.value| > 0;
      ValidationRecord(valid, Some(normalized), description, if valid then Recognised else UnknownHsCode)
  }

  // ---------------------------------------------------------------- weights

  /** `validateWeight(weight)`: `Number(weight)` must be finite and above 0. */
  function ValidateWeight(v: JsValue): (r: Result<Number>)
    ensures r.Ok? <==> FinitePositive(ToNumber(v))
    ensures r.Ok? ==> r.value == ToNumber(v) && r.value.Decimal? && r.value.m > 0
    ensures r.Err? ==> r.error == McpError(BadInput, WeightMessage)
  {
    var numeric := ToNumber(v);
    :- AssertOrThrow(FinitePositive(numeric), BadInput, WeightMessage);
    Ok(numeric)
  }

  lemma WeightExamples()
    ensures ValidateWeight(Num(Decimal(12000, 0))) == Ok(Decimal(12000, 0))
    ensures ValidateWeight(Num(Decimal(0, 0))).Err?
    ensures ValidateWeight(Num(Infinity(false))).Err?
    ensures ValidateWeight(Num(NaN)).Err?
    ensures ValidateWeight(Undefined).Err?
    ensures ValidateWeight(Null).Err?
    ensures ValidateWeight(Str("12")) == Ok(Decimal(12, 0))
  {
    TextWeightExample();
  }

  /** The text "12" is the weight 12. */
  lemma TextWeightExample()
    ensures ValidateWeight(Str("12")) == Ok(Decimal(12, 0))
  {
    assert NatToDecimal(12) == "12";
    IntegerLiteral(12);
  }

  /** A weight written as digits is accepted exactly when it is positive
      and below the overflow bound: a longer run of digits is Infinity to
      `Number`, and Infinity is refused. */
  lemma DigitWeight(s: string)
    requires |s| >= 1 && AllDigits(s)
    ensures ValidateWeight(Str(s)).Ok? <==> 0 < DigitsValue(s) < OverflowBound
  {
    DigitsToNumber(s);
  }

  /** A weight written `0.f` is accepted exactly when f is not all zeros and
      the fraction is more than half the least subnormal double: a smaller
      one is zero to `Number`. */
  lemma FractionWeight(f: string)
    requires |f| >= 1 && AllDigits(f)
    ensures ValidateWeight(Str("0." + f)).Ok? <==>
              DigitsValue(f) > 0 && DigitsValue(f) * UnderflowScale > Pow10(|f|)
  {
    FractionLiteral(f);
    DigitsBelow(f);
  }
}
