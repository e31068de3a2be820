/** The `logi_master_predict` tool (src/tools/predict.js): ETA and KPI
    figures drawn deterministically from a hash of the route and weight. */
module Predict {
  import opened Base
  import opened JsValues
  import opened Errors
  import opened Strings
  import opened Hash
  import opened Validation
  import opened ToolContext

  const Name: string := "logi_master_predict"
  const Description: string := "ETA/KPI prediction (deterministic seed)"
  const InputSchema: JsValue :=
    ObjectSchema([("origin", "string"), ("destination", "string"), ("weight", "number")],
                 ["origin", "destination", "weight"])
  const RouteMessage: string := "origin/destination required"

  datatype Route = Route(origin: string, destination: string)
  datatype Drivers = Drivers(weather: string, portCongestion: string, customsDays: string)
  datatype KpiTargets = KpiTargets(onTimeRate: Number, risk: string)

  datatype PredictJson = PredictJson(
    ts: string,
    route: Route,
    cargoWeightKg: Number,
    etaDays: nat,
    confidence: Number,
    drivers: Drivers,
    kpiTargets: KpiTargets)

  /** `${origin}|${destination}|${weight}` */
  function SeedKey(origin: string, destination: string, weight: Number): string {
    origin + "|" + destination + "|" + NumberToString(weight)
  }

  /** The seed: the 32-bit hash of the key, so the same key always gives
      the same seed. */
  function Seed(origin: string, destination: string, weight: Number): (seed: nat)
    ensures seed < Modulus
  {
    HashToInt(Str(SeedKey(origin, destination, weight)))
  }

  /** The first bar of `a|b` is the one after `a` when `a` has none. */
  lemma FirstBar(a: string, b: string)
    requires '|' !in a
    ensures IndexOfChar(a + "|" + b, '|') == Some(|a|)
  {
    var s := a + "|" + b;
    assert s[|a|] == '|';
    forall j | 0 <= j < |a| ensures s[j] != '|' {
      assert s[j] == a[j];
    }
  }

  /** Three texts joined by bars come apart again when the first two hold
      no bar. */
  lemma BarJoinSeparates(a1: string, b1: string, c1: string, a2: string, b2: string, c2: string)
    requires '|' !in a1 && '|' !in b1 && '|' !in a2 && '|' !in b2
    requires a1 + "|" + b1 + "|" + c1 == a2 + "|" + b2 + "|" + c2
    ensures a1 == a2 && b1 == b2 && c1 == c2
  {
    var k := a1 + "|" + b1 + "|" + c1;
    assert k == a1 + "|" + (b1 + "|" + c1) && k == a2 + "|" + (b2 + "|" + c2);
    FirstBar(a1, b1 + "|" + c1);
    FirstBar(a2, b2 + "|" + c2);
    assert a1 == k[..|a1|] == a2;
    var rest := k[|a1| + 1..];
    assert rest == b1 + "|" + c1 && rest == b2 + "|" + c2;
    FirstBar(b1, c1);
    FirstBar(b2, c2);
    assert b1 == rest[..|b1|] == b2;
    assert c1 == rest[|b1| + 1..] == c2;
  }

  /** The key keeps the fields apart when the ports hold no bar: equal keys
      mean the same route and the same printed weight. */
  lemma SeedKeySeparates(o1: string, d1: string, w1: Number, o2: string, d2: string, w2: Number)
    requires '|' !in o1 && '|' !in d1 && '|' !in o2 && '|' !in d2
    requires SeedKey(o1, d1, w1) == SeedKey(o2, d2, w2)
    ensures o1 == o2 && d1 == d2 && NumberToString(w1) == NumberToString(w2)
  {
    BarJoinSeparates(o1, d1, NumberToString(w1), o2, d2, NumberToString(w2));
  }

  /** With a bar inside a port name two different routes share a key, and
      so a seed. */
  lemma SeedKeyAmbiguous(w: Number)
    ensures SeedKey("A|B", "C", w) == SeedKey("A", "B|C", w)
    ensures Seed("A|B", "C", w) == Seed("A", "B|C", w)
  {
    assert "A|B" + "|" + "C" == "A" + "|" + "B|C";
  }

  /** `${k}-${k + 1}` for a one-digit k. */
  function CustomsWindow(k: nat): (w: string)
    requires k < 9
    ensures w == [DigitChar(k), '-', DigitChar(k + 1)]
  {
    NatToDecimal(k) + "-" + NatToDecimal(k + 1)
  }

  /** The two windows the handler can report. */
  lemma WindowValues(k: nat)
    requires k == 2 || k == 3
    ensures CustomsWindow(k) == (if k == 2 then "2-3" else "3-4")
  {
    assert DigitChar(2) == '2' && DigitChar(3) == '3' && DigitChar(4) == '4';
  }

  /** The handler.  An empty origin or destination is BAD_INPUT even when
      the weight is unusable too, since the route is checked first. */
  function Handle(args: JsValue, ctx: Context): (r: Result<Output<PredictJson>>)
    ensures var o := ClampString(Prop(args, "origin"), 80);
            var d := ClampString(Prop(args, "destination"), 80);
            (o == "" || d == "") ==> r == Err(McpError(BadInput, RouteMessage))
    ensures var o := ClampString(Prop(args, "origin"), 80);
            var d := ClampString(Prop(args, "destination"), 80);
            o != "" && d != "" && ValidateWeight(Prop(args, "weight")).Err? ==>
              r == Err(McpError(BadInput, WeightMessage))
    ensures var o := ClampString(Prop(args, "origin"), 80);
            var d := ClampString(Prop(args, "destination"), 80);
            o != "" && d != "" && ValidateWeight(Prop(args, "weight")).Ok? ==> (r.Ok? <==> ctx.now.Some?)
    ensures r.Ok? ==>
              && FinitePositive(ToNumber(Prop(args, "weight")))
              && r.value == Prediction(ctx.now.value,
                                       Route(ClampString(Prop(args, "origin"), 80),
                                             ClampString(Prop(args, "destination"), 80)),
                                       ToNumber(Prop(args, "weight")))
  {
    var origin := ClampString(Prop(args, "origin"), 80);
    var destination := ClampString(Prop(args, "destination"), 80);
    :- AssertOrThrow(origin != "" && destination != "", BadInput, RouteMessage);
    var weight :- ValidateWeight(Prop(args, "weight"));
    var ts :- Now(ctx);
    Ok(Prediction(ts, Route(origin, destination), weight))
  }

  /** The prediction for a validated route and weight at time `ts`: every
      figure and label is fixed by the seed's residue, and the on-time
      target is 0.93. */
  function Prediction(ts: string, route: Route, weight: Number): (o: Output<PredictJson>)
    ensures var j := o.json;
            var seed := Seed(route.origin, route.destination, weight);
            && j.ts == ts && j.route == route && j.cargoWeightKg == weight
            && 7 <= j.etaDays <= 13 && j.etaDays - 7 == seed % 7
            && j.confidence == Decimal(82 + seed % 5, 2)
            && (j.drivers.weather == "MODERATE" <==> seed % 3 == 0)
            && (j.drivers.weather == "LOW" <==> seed % 3 != 0)
            && (j.drivers.portCongestion == "MEDIUM" <==> seed % 4 == 0)
            && (j.drivers.portCongestion == "LOW" <==> seed % 4 != 0)
            && j.drivers.customsDays == CustomsWindow(2 + seed % 2)
            && j.kpiTargets.onTimeRate == Decimal(93, 2)
            && (j.kpiTargets.risk == "LOW" <==> seed % 2 == 0)
            && (j.kpiTargets.risk == "MEDIUM" <==> seed % 2 == 1)
    ensures o.text == [Lit(PredictText(o.json))]
  {
    var seed := Seed(route.origin, route.destination, weight);
    var customs := 2 + seed % 2;
    WindowValues(customs);
    var json := PredictJson(
      ts, route, weight, 7 + seed % 7, Decimal(82 + seed % 5, 2),
      Drivers(if seed % 3 == 0 then "MODERATE" else "LOW",
              if seed % 4 == 0 then "MEDIUM" else "LOW",
              CustomsWindow(customs)),
      KpiTargets(Decimal(93, 2), if seed % 2 == 0 then "LOW" else "MEDIUM"));
    Output(json, [Lit(PredictText(json))])
  }

  /** The text: the ETA in days, the confidence as a whole percentage, the
      two driver labels in lower case and the customs window. */
  function PredictText(j: PredictJson): string
    requires j.confidence.Decimal? && j.confidence.m >= 0
  {
    "🚢 ETA " + NatToDecimal(j.etaDays) + "d (conf " + NatToDecimal(j.confidence.m)
    + "%)  weather:" + Lower(j.drivers.weather) + " / congestion:" + Lower(j.drivers.portCongestion)
    + " / customs:" + j.drivers.customsDays + "d"
  }

  /** A congested port always comes with a low risk target: the seed is then
      a multiple of four, hence even. */
  lemma CongestionMeansLowRisk(args: JsValue, ctx: Context)
    requires Handle(args, ctx).Ok?
    requires Handle(args, ctx).value.json.drivers.portCongestion == "MEDIUM"
    ensures Handle(args, ctx).value.json.kpiTargets.risk == "LOW"
  {
    var j := Handle(args, ctx).value.json;
    var seed := Seed(j.route.origin, j.route.destination, j.cargoWeightKg);
    FourDividesEven(seed);
  }

  lemma FourDividesEven(n: nat)
    requires n % 4 == 0
    ensures n % 2 == 0
  {
    var q := n / 4;
    assert n == 4 * q;
    assert n == 2 * (2 * q) + 0;
  }

  /** The prediction depends only on the clamped route and on the weight's
      numeric value, not on how the caller spelled it. */
  lemma SameRouteSamePrediction(a1: JsValue, a2: JsValue, c1: Context, c2: Context)
    requires Handle(a1, c1).Ok? && Handle(a2, c2).Ok?
    requires Handle(a1, c1).value.json.route == Handle(a2, c2).value.json.route
    requires ToNumber(Prop(a1, "weight")) == ToNumber(Prop(a2, "weight"))
    ensures Handle(a1, c1).value.json.(ts := "") == Handle(a2, c2).value.json.(ts := "")
  {
  }

  /** `String(weight)` drops trailing fraction zeros, so 12000 and 12000.0
      seed the same prediction. */
  lemma TrailingZeroSameSeed(origin: string, destination: string, m: int, e: nat)
    ensures Seed(origin, destination, Decimal(10 * m, e + 1)) == Seed(origin, destination, Decimal(m, e))
  {
    TrailingZeroSameString(m, e);
  }

  lemma TrailingZeroSameString(m: int, e: nat)
    ensures NumberToString(Decimal(10 * m, e + 1)) == NumberToString(Decimal(m, e))
  {
    var n := 10 * m;
    assert n % 10 == 0 && n / 10 == m;
    assert Normalize(n, e + 1) == Normalize(m, e);
  }
}
