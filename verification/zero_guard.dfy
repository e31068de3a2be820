/** The ZERO safety guard (src/security/zeroGuard.js): a high HS risk or a
    missing certification stops the operation, the risk check first. */
module ZeroGuard {
  import opened Base
  import opened OrderedMaps
  import opened JsValues
  import opened Errors

  /** 0.8, the `hsRiskStop` threshold of src/config/constants.js. */
  const Threshold: Number := Decimal(8, 1)

  const RiskMessage: string := "High HS risk requires manual review"
  const CertMessage: string := "FANR/MOIAT certification missing"

  /** `n >= 0.8` on a JavaScript number; NaN compares false. */
  predicate AtLeastThreshold(n: Number) {
    match n
    case NaN => false
    case Infinity(negative) => !negative
    case Decimal(m, e) => 10 * m >= 8 * Pow10(e)
  }

  /** `{ hsRisk, certMissing }` as the callers build it. */
  function GuardContext(hsRisk: Number, certMissing: bool): JsValue {
    Obj([("hsRisk", Num(hsRisk)), ("certMissing", Bool(certMissing))])
  }

  /** `const { hsRisk = 0, certMissing = false } = context`: a default
      applies only to an undefined property. */
  function HsRiskOf(context: JsValue): JsValue {
    var v := Prop(context, "hsRisk");
    if v.Undefined? then Num(Decimal(0, 0)) else v
  }

  function CertMissingOf(context: JsValue): JsValue {
    var v := Prop(context, "certMissing");
    if v.Undefined? then Bool(false) else v
  }

  /** `enforceZeroGuard(context = {})`.  Destructuring `null` throws a
      TypeError. */
  function EnforceZeroGuard(context: JsValue): (r: Outcome)
    ensures context.Null? ==> r.Fail? && r.error.code.None?
    ensures !context.Null? && AtLeastThreshold(ToNumber(HsRiskOf(context))) ==>
              r == Fail(McpError(HsRiskStop, RiskMessage))
    ensures !context.Null? && !AtLeastThreshold(ToNumber(HsRiskOf(context))) ==>
              r == (if Truthy(CertMissingOf(context)) then Fail(McpError(CertMissing, CertMessage)) else Pass)
  {
    if context.Null? then
      Fail(PlainError("TypeError", "Cannot destructure property 'hsRisk' of 'context' as it is null."))
    else
      var ctx := if context.Undefined? then Obj([]) else context;
      if AtLeastThreshold(ToNumber(HsRiskOf(ctx))) then Fail(McpError(HsRiskStop, RiskMessage))
      else if Truthy(CertMissingOf(ctx)) then Fail(McpError(CertMissing, CertMessage))
      else Pass
  }

  /** The guard on the context its callers build: it stops exactly when the
      risk reaches the threshold or the certification is missing, and
      HS_RISK_STOP wins when both hold. */
  lemma GuardDecision(hsRisk: Number, certMissing: bool)
    ensures (EnforceZeroGuard(GuardContext(hsRisk, certMissing)).Pass?
             <==> !AtLeastThreshold(hsRisk) && !certMissing)
    ensures AtLeastThreshold(hsRisk) ==>
              EnforceZeroGuard(GuardContext(hsRisk, certMissing)).error.code == Some(HsRiskStop)
    ensures !AtLeastThreshold(hsRisk) && certMissing ==>
              EnforceZeroGuard(GuardContext(hsRisk, certMissing)).error.code == Some(CertMissing)
  {
    var ctx := GuardContext(hsRisk, certMissing);
    var f := ctx.fields;
    assert f[1].0 != "hsRisk" by {
      assert "certMissing"[0] != "hsRisk"[0];
    }
    assert f[..1] == [("hsRisk", Num(hsRisk))];
    assert Get(f[..1], "hsRisk") == Some(Num(hsRisk));
    assert Prop(ctx, "hsRisk") == Num(hsRisk);
    assert Prop(ctx, "certMissing") == Bool(certMissing);
  }

  /** Missing fields default to a zero risk and a present certificate. */
  lemma EmptyContextPasses()
    ensures EnforceZeroGuard(Obj([])) == Pass
    ensures EnforceZeroGuard(Undefined) == Pass
  {
  }

  /** Just under the threshold passes; 0.8 itself and 0.9 stop. */
  lemma ThresholdExamples()
    ensures EnforceZeroGuard(GuardContext(Decimal(79, 2), false)) == Pass
    ensures EnforceZeroGuard(GuardContext(Decimal(8, 1), false)) == Fail(McpError(HsRiskStop, RiskMessage))
    ensures EnforceZeroGuard(GuardContext(Decimal(9, 1), false)) == Fail(McpError(HsRiskStop, RiskMessage))
  {
    GuardDecision(Decimal(79, 2), false);
    GuardDecision(Decimal(8, 1), false);
    GuardDecision(Decimal(9, 1), false);
  }
}
