/** The `calculate_hvdc_shipping_cost` tool (src/tools/shippingCost.js): a
    USD breakdown from a flat base, a per-kilogram charge, HVDC handling,
    insurance and two reserves. */
module ShippingCost {
  import opened Base
  import opened OrderedMaps
  import opened JsValues
  import opened Errors
  import opened Strings
  import opened Validation
  import opened ToolContext

  const Name: string := "calculate_hvdc_shipping_cost"

  const Description: string := "HVDC shipping cost calc with DEM/DET placeholders"
  const InputSchema: JsValue :=
    ObjectSchema([("equipment_type", "string"), ("weight", "number"), ("origin_port", "string"),
                    ("destination_port", "string"), ("incoterm", "string")],
                 ["equipment_type", "weight", "origin_port", "destination_port"])
  const BaseFee: nat := 15000
  /** `Math.round(base * 0.3)` */
  const HvdcHandling: nat := 4500
  const DemurrageReserve: nat := 2800
  const DetentionReserve: nat := 1800
  const Notes: seq<string> := ["Port-to-port", "HVDC handling", "Tracking", "Security"]

  datatype Route = Route(origin: string, destination: string)

  datatype Breakdown = Breakdown(
    base: nat,
    weight: nat,
    hvdcHandling: nat,
    insurance: nat,
    demurrageReserve: nat,
    detentionReserve: nat,
    total: nat)

  datatype CostJson = CostJson(
    ts: string,
    equipment: string,
    route: Route,
    weightKg: Number,
    incoterm: ValidationRecord,
    breakdown: Breakdown,
    notes: seq<string>)

  /** `Math.ceil(weightKg * 2.8)` on the exact value m / 10^e: the least
      whole number of dollars not below 14m / (5 * 10^e). */
  function WeightCost(w: Number): (c: nat)
    requires FinitePositive(w)
    ensures 14 * w.m <= 5 * Pow10(w.e) * c
    ensures c > 0 ==> 5 * Pow10(w.e) * (c - 1) < 14 * w.m
  {
    var d := 5 * Pow10(w.e);
    CeilDiv(14 * w.m, d);
    (14 * w.m + d - 1) / d
  }

  /** Rounding n / d up gives the least multiple of d not below n. */
  lemma CeilDiv(n: nat, d: nat)
    requires d > 0
    ensures var c := (n + d - 1) / d; n <= d * c && (c > 0 ==> d * (c - 1) < n)
  {
    var c := (n + d - 1) / d;
    var r := (n + d - 1) % d;
    assert n + d - 1 == d * c + r && 0 <= r < d;
  }

  /** `Math.round((base + weightCost) * 0.05)`: the whole number nearest to
      a twentieth of the amount, halves rounded up. */
  function Insurance(weightCost: nat): (r: nat)
    ensures 20 * r <= BaseFee + weightCost + 10 < 20 * r + 20
  {
    (BaseFee + weightCost + 10) / 20
  }

  /** The breakdown for a validated weight. */
  function Costs(w: Number): (b: Breakdown)
    requires FinitePositive(w)
    ensures b.base == BaseFee && b.weight == WeightCost(w) && b.insurance == Insurance(b.weight)
    ensures b.hvdcHandling == HvdcHandling
    ensures b.demurrageReserve == DemurrageReserve && b.detentionReserve == DetentionReserve
    ensures b.total == b.base + b.weight + b.hvdcHandling + b.insurance
                       + b.demurrageReserve + b.detentionReserve
    ensures b.total > b.base
  {
    var wc := WeightCost(w);
    var ins := Insurance(wc);
    Breakdown(BaseFee, wc, HvdcHandling, ins, DemurrageReserve, DetentionReserve,
              BaseFee + wc + HvdcHandling + ins + DemurrageReserve + DetentionReserve)
  }

  /** The handler.  An unusable weight is BAD_INPUT; the Incoterm defaults
      to CFR only when it is null or undefined, and its verdict is recorded,
      never thrown. */
  function Handle(args: JsValue, ctx: Context, world: World): (r: Result<Output<CostJson>>)
    ensures ValidateWeight(Prop(args, "weight")).Err? ==> r == Err(McpError(BadInput, WeightMessage))
    ensures ValidateWeight(Prop(args, "weight")).Ok? ==> (r.Ok? <==> ctx.now.Some?)
    ensures r.Ok? ==>
              var j := r.value.json;
              && j.ts == ctx.now.value
              && j.equipment == Upper(ClampString(Prop(args, "equipment_type"), 80))
              && j.route == Route(ClampString(Prop(args, "origin_port"), 80),
                                  ClampString(Prop(args, "destination_port"), 80))
              && j.weightKg == ToNumber(Prop(args, "weight")) && FinitePositive(j.weightKg)
              && j.breakdown == Costs(j.weightKg)
              && (Nullish(Prop(args, "incoterm")) ==>
                    j.incoterm == ValidateIncoterm(Str("CFR"), world.incoterms))
              && (!Nullish(Prop(args, "incoterm")) ==>
                    j.incoterm == ValidateIncoterm(Prop(args, "incoterm"), world.incoterms))
              && j.notes == Notes
    ensures r.Ok? ==>
              var t := r.value.text;
              var b := r.value.json.breakdown;
              && |t| == 11
              && t[1] == Money(Decimal(b.total, 0)) && t[3] == Money(Decimal(b.base, 0))
              && t[5] == Money(Decimal(b.weight, 0)) && t[7] == Money(Decimal(b.hvdcHandling, 0))
              && t[9] == Money(Decimal(b.insurance, 0))
  {
    var equipment := Upper(ClampString(Prop(args, "equipment_type"), 80));
    var weightKg :- ValidateWeight(Prop(args, "weight"));
    var origin := ClampString(Prop(args, "origin_port"), 80);
    var destination := ClampString(Prop(args, "destination_port"), 80);
    var incoterm := ValidateIncoterm(OrElse(Prop(args, "incoterm"), Str("CFR")), world.incoterms);
    var b := Costs(weightKg);
    var ts :- Now(ctx);
    var json := CostJson(ts, equipment, Route(origin, destination), weightKg, incoterm, b, Notes);
    Ok(Output(json, CostText(b)))
  }

  /** The text line: total, then base, weight, handling and insurance. */
  function CostText(b: Breakdown): (t: Text)
    ensures |t| == 11
    ensures t[1] == Money(Decimal(b.total, 0)) && t[3] == Money(Decimal(b.base, 0))
    ensures t[5] == Money(Decimal(b.weight, 0)) && t[7] == Money(Decimal(b.hvdcHandling, 0))
    ensures t[9] == Money(Decimal(b.insurance, 0))
  {
    [Lit("💰 Cost "), Money(Decimal(b.total, 0)),
     Lit("  ("), Money(Decimal(b.base, 0)),
     Lit(" base / "), Money(Decimal(b.weight, 0)),
     Lit(" weight / "), Money(Decimal(b.hvdcHandling, 0)),
     Lit(" hvdc / "), Money(Decimal(b.insurance, 0)),
     Lit(" ins)")]
  }

  /** `a <= b` on two finite numbers. */
  predicate AtMost(a: Number, b: Number)
    requires a.Decimal? && b.Decimal?
  {
    a.m * Pow10(b.e) <= b.m * Pow10(a.e)
  }

  lemma MulMonotone(a: int, b: int, c: nat)
    requires a <= b
    ensures a * c <= b * c
  {
  }

  lemma Scale(m: int, p: int, a: int, b: int)
    ensures (a * m) * (b * p) == (m * p) * (a * b)
  {
  }

  lemma Rotate(x: int, y: int, z: int)
    ensures (x * y) * z == (y * z) * x
  {
  }

  /** Cancelling a positive factor keeps an inequality. */
  lemma Cancel(a: int, b: int, d: nat)
    requires d > 0 && a * d <= b * d
    ensures a <= b
  {
    if a > b {
      MulMonotone(b + 1, a, d);
      assert false;
    }
  }

  /** Rounding n / d up gives at most c when n is at most c * d. */
  lemma CeilAtMost(n: int, d: nat, c: int)
    requires d > 0 && n <= c * d
    ensures (n + d - 1) / d <= c
  {
    var q := (n + d - 1) / d;
    assert q * d <= n + d - 1;
    if q > c {
      MulMonotone(c + 1, q, d);
      assert false;
    }
  }

  /** Rounding up keeps the order of the weights. */
  lemma WeightCostMonotone(w1: Number, w2: Number)
    requires FinitePositive(w1) && FinitePositive(w2) && AtMost(w1, w2)
    ensures WeightCost(w1) <= WeightCost(w2)
  {
    var p1, p2 := Pow10(w1.e), Pow10(w2.e);
    var n1, n2 := 14 * w1.m, 14 * w2.m;
    var d1, d2 := 5 * p1, 5 * p2;
    var c2 := WeightCost(w2);
    assert n2 <= d2 * c2;
    // n1 / d1 <= n2 / d2, scaled: n1 * d2 <= n2 * d1
    MulMonotone(w1.m * p2, w2.m * p1, 70);
    Scale(w1.m, p2, 14, 5);
    Scale(w2.m, p1, 14, 5);
    assert n1 * d2 <= n2 * d1;
    MulMonotone(n2, d2 * c2, d1);
    Rotate(d2, c2, d1);
    assert (d2 * c2) * d1 == (c2 * d1) * d2;
    Cancel(n1, c2 * d1, d2);
    CeilAtMost(n1, d1, c2);
  }

  /** A heavier load never costs less. */
  lemma TotalMonotone(w1: Number, w2: Number)
    requires FinitePositive(w1) && FinitePositive(w2) && AtMost(w1, w2)
    ensures Costs(w1).total <= Costs(w2).total
  {
    WeightCostMonotone(w1, w2);
  }

  /** The source's own example: 12000 kg under DAP costs 60130 in all. */
  lemma ShippingExample(args: JsValue, ctx: Context, world: World)
    requires args == Obj([("equipment_type", Str("Transformer")), ("weight", Num(Decimal(12000, 0))),
                          ("origin_port", Str("BUSAN")), ("destination_port", Str("JEBEL ALI")),
                          ("incoterm", Str("DAP"))])
    requires ctx.now.Some?
    ensures Handle(args, ctx, world).Ok?
    ensures Handle(args, ctx, world).value.json.breakdown
            == Breakdown(15000, 33600, 4500, 2430, 2800, 1800, 60130)
    ensures Handle(args, ctx, world).value.json.incoterm.code == Some("DAP")
  {
    ExampleArgs(args);
    HeavyDap(args, ctx, world);
  }

  /** Any call with 12000 kg under DAP: the breakdown is the example's,
      whatever the other arguments are. */
  lemma HeavyDap(args: JsValue, ctx: Context, world: World)
    requires Prop(args, "weight") == Num(Decimal(12000, 0))
    requires Prop(args, "incoterm") == Str("DAP")
    requires ctx.now.Some?
    ensures Handle(args, ctx, world).Ok?
    ensures Handle(args, ctx, world).value.json.breakdown
            == Breakdown(15000, 33600, 4500, 2430, 2800, 1800, 60130)
    ensures Handle(args, ctx, world).value.json.incoterm.code == Some("DAP")
  {
    ExampleCosts();
    DapCode(world.incoterms);
  }

  /** The weight and the Incoterm of the example's arguments. */
  lemma ExampleArgs(args: JsValue)
    requires args == Obj([("equipment_type", Str("Transformer")), ("weight", Num(Decimal(12000, 0))),
                          ("origin_port", Str("BUSAN")), ("destination_port", Str("JEBEL ALI")),
                          ("incoterm", Str("DAP"))])
    ensures Prop(args, "weight") == Num(Decimal(12000, 0))
    ensures Prop(args, "incoterm") == Str("DAP")
  {
    var f := args.fields;
    assert f[1].0[0] == 'w' && f[4].0[0] == 'i';
    forall j | 0 <= j < |f| && j != 1 ensures f[j].0 != f[1].0 {
      assert f[j].0[0] != 'w';
    }
    forall j | 0 <= j < |f| && j != 4 ensures f[j].0 != f[4].0 {
      assert f[j].0[0] != 'i';
    }
    GetUnique(f, 1);
    GetUnique(f, 4);
  }

  /** The breakdown for 12000 kg. */
  lemma ExampleCosts()
    ensures Costs(Decimal(12000, 0)) == Breakdown(15000, 33600, 4500, 2430, 2800, 1800, 60130)
  {
    assert WeightCost(Decimal(12000, 0)) == 33600;
    assert Insurance(33600) == 2430;
  }

  /** "DAP" is recorded as itself. */
  lemma DapCode(incoterms: set<string>)
    ensures ValidateIncoterm(Str("DAP"), incoterms).code == Some("DAP")
  {
    assert ClampString(Str("DAP"), 8) == "DAP";
    assert Upper("DAP") == "DAP";
  }
}
