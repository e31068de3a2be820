/** The legacy single-file server (logistics-server.js): its helpers and the
    if-chain of its CallTool handler, which answers the same six tool names
    with a simpler logic of its own. */
module Legacy {
  import opened Base
  import opened OrderedMaps
  import opened JsValues
  import opened Errors
  import opened Strings
  import opened Hash
  import opened InvoicePattern
  import opened Validation
  import opened ToolContext
  import opened Responses
  import ZeroGuard
  import ShippingCost
  import Predict
  import WeatherTie
  import Toolkit
  import Server

  // ------------------------------------------------------------ helpers

  /** `assert(cond, code, msg)`: a plain `Error` with a `code` property and
      no details. */
  function LegacyAssert(condition: bool, code: ErrorCode, message: string): (r: Outcome)
    ensures condition <==> r.Pass?
    ensures r.Fail? ==> r.error == Exception("Error", Some(code), message, None)
  {
    if condition then Pass else Fail(Exception("Error", Some(code), message, None))
  }

  const HighRiskMessage: string := "High HS risk"
  const MissingCertMessage: string := "Missing FANR/MOIAT"

  /** `zeroGuard({ hsRisk, certMissing })`: the risk check first. */
  function LegacyZeroGuard(hsRisk: Number, certMissing: bool): (r: Outcome)
    ensures r.Pass? <==> !ZeroGuard.AtLeastThreshold(hsRisk) && !certMissing
    ensures ZeroGuard.AtLeastThreshold(hsRisk) ==> r.error.code == Some(HsRiskStop)
    ensures !ZeroGuard.AtLeastThreshold(hsRisk) && certMissing ==> r.error.code == Some(CertMissing)
    ensures r.Fail? ==> r.error.details.None?
  {
    if ZeroGuard.AtLeastThreshold(hsRisk) then Fail(Exception("Error", Some(HsRiskStop), HighRiskMessage, None))
    else if certMissing then Fail(Exception("Error", Some(CertMissing), MissingCertMessage, None))
    else Pass
  }

  /** The constant risk the invoice branch passes never stops it. */
  lemma InvoiceGuardPasses()
    ensures LegacyZeroGuard(Decimal(2, 1), false) == Pass
  {
    assert !ZeroGuard.AtLeastThreshold(Decimal(2, 1)) by {
      assert 10 * 2 < 8 * Pow10(1);
    }
  }

  /** Reading a property of `null` arguments throws a TypeError. */
  function ReadArgs(args: JsValue, key: string): (r: Result<JsValue>)
    ensures r.Ok? <==> !args.Null?
    ensures r.Ok? ==> r.value == Prop(args, key)
    ensures r.Err? ==> r.error.code.None? && r.error.name == "TypeError"
  {
    if args.Null? then Err(PlainError("TypeError", "Cannot read properties of null (reading '" + key + "')"))
    else Ok(Prop(args, key))
  }

  // ------------------------------------------------------------ payloads

  datatype LegacyBreakdown = LegacyBreakdown(
    base: nat,
    weight: Number,
    hvdcHandling: nat,
    insurance: Number,
    total: Number)

  /** The `json` of each legacy branch; fields every input gets the same
      value for are checked by the branch contracts. */
  datatype LegacyJson =
    | HealthJson(ts: string, echo: string)
    | InvoiceJson(ts: string, file: string, invoiceNo: string, ocrConf: Number,
                  incoterm: string, net: nat, tax: nat, total: nat)
    | ContainerJson(ts: string, containerId: string, status: string, progressPct: nat,
                    port: string, terminal: string, vessel: string, voyage: string, etaUtc: string)
    | CostJson(ts: string, equipment: string, origin: string, destination: string,
               weightKg: Number, breakdown: LegacyBreakdown, notes: seq<string>)
    | PredictJson(ts: string, origin: string, destination: string, cargoWeightKg: Number,
                  etaDays: nat, confidence: Number, onTimeRate: Number, risk: string)
    | WeatherJson(ts: string, route: string, departureUtc: string, risk: string,
                  recommendation: string, optimalWindowDays: nat, backup: string)

  type LegacyOutput = Output<LegacyJson>

  // ------------------------------------------------------------ branches

  /** `health_ping`: the echo, no text. */
  function Health(args: JsValue, now: string): (r: Result<LegacyOutput>)
    ensures r.Ok? <==> !args.Null?
    ensures r.Ok? ==> r.value == Output(HealthJson(now, LegacyClampStr(Prop(args, "echo"))), [])
    ensures r.Ok? ==> |r.value.json.echo| <= 256
  {
    var echo :- ReadArgs(args, "echo");
    Ok(Output(HealthJson(now, LegacyClampStr(if Truthy(echo) then echo else Str(""))), []))
  }

  const InvoiceMessage: string := "invoice_path required"

  /** `logi_master_invoice_audit`: the extracted number and fixed figures. */
  function Invoice(args: JsValue, now: string): (r: Result<LegacyOutput>)
    ensures args.Null? ==> r.Err? && r.error.code.None?
    ensures !args.Null? && LegacyClampStr(Prop(args, "invoice_path")) == "" ==>
              r == Err(Exception("Error", Some(BadInput), InvoiceMessage, None))
    ensures r.Ok? <==> !args.Null? && LegacyClampStr(Prop(args, "invoice_path")) != ""
    ensures r.Ok? ==>
              var path := LegacyClampStr(Prop(args, "invoice_path"));
              && r.value.json == InvoiceJson(now, path, ExtractInvoiceNumber(Str(path)),
                                             Decimal(952, 3), "CFR", 125000, 0, 125000)
              && |r.value.text| == 2 && r.value.text[1] == Money(Decimal(125000, 0))
  {
    var raw :- ReadArgs(args, "invoice_path");
    var path := LegacyClampStr(raw);
    :- LegacyAssert(path != "", BadInput, InvoiceMessage);
    var invoiceNo := ExtractInvoiceNumber(Str(path));
    InvoiceGuardPasses();
    match LegacyZeroGuard(Decimal(2, 1), false)
    case Fail(e) => Err(e)
    case Pass =>
      var json := InvoiceJson(now, path, invoiceNo, Decimal(952, 3), "CFR", 125000, 0, 125000);
      var line := "📋 Invoice Audit ✔  File:" + path + "  Inv:" + invoiceNo
                  + "  OCR:95.2%  Incoterm:CFR  Total:";
      Ok(Output(json, [Lit(line), Money(Decimal(125000, 0))]))
  }

  const LegacyContainerMessage: string := "container_id must be ISO 6346"

  /** The id the container branch checks: clamped to 50 characters by the
      falsy-to-empty clamp, then upper-cased. */
  function ContainerKey(args: JsValue): string {
    Upper(LegacyClampStr(Prop(args, "container_id"), 50))
  }

  /** `check_container_status`: the unanchored shape test, then a progress
      figure from the legacy hash; the rest is fixed. */
  function Container(args: JsValue, now: string): (r: Result<LegacyOutput>)
    ensures args.Null? ==> r.Err? && r.error.code.None?
    ensures !args.Null? && !ShapeFrom(ContainerKey(args), 0) ==>
              r == Err(Exception("Error", Some(BadInput), LegacyContainerMessage, None))
    ensures r.Ok? <==> !args.Null? && ShapeFrom(ContainerKey(args), 0)
    ensures r.Ok? ==>
              var id := ContainerKey(args);
              var j := r.value.json;
              && j.ContainerJson? && j.ts == now && j.containerId == id
              && j.progressPct == 50 + Fold(id) % 41 && 50 <= j.progressPct <= 90
              && j.status == "IN_TRANSIT" && j.port == "BUSAN" && j.terminal == "T3"
              && j.vessel == "SAMSUNG DYNASTY" && j.voyage == "SD-2025-0814"
              && j.etaUtc == "2025-08-18T14:30:00Z"
    ensures r.Ok? ==>
              r.value.text == [Lit("📦 " + ContainerKey(args) + " transit " + NatToDecimal(r.value.json.progressPct)
                                   + "%  Vessel:SAMSUNG DYNASTY  ETA:2025-08-18T14:30Z")]
  {
    var raw :- ReadArgs(args, "container_id");
    var id := Upper(LegacyClampStr(raw, 50));
    :- LegacyAssert(ShapeFrom(id, 0), BadInput, LegacyContainerMessage);
    var pct := 50 + LegacyHashInt(Str(id)) % 41;
    var json := ContainerJson(now, id, "IN_TRANSIT", pct, "BUSAN", "T3", "SAMSUNG DYNASTY",
                              "SD-2025-0814", "2025-08-18T14:30:00Z");
    Ok(Output(json, [Lit("📦 " + id + " transit " + NatToDecimal(pct)
                         + "%  Vessel:SAMSUNG DYNASTY  ETA:2025-08-18T14:30Z")]))
  }

  const LegacyWeightMessage: string := "weight must be >0"

  /** `weight > 0`: the relational comparison converts the weight to a
      number, so `+Infinity` passes and NaN fails. */
  predicate Positive(n: Number) {
    match n
    case NaN => false
    case Infinity(negative) => !negative
    case Decimal(m, _) => m > 0
  }

  /** `Math.ceil(w * 2.8)` and the sums that follow it; an infinite weight
      makes the weight charge, the insurance and the total infinite. */
  function LegacyCosts(w: Number): (b: LegacyBreakdown)
    requires Positive(w)
    ensures w.Infinity? ==> b.weight == Infinity(false) && b.insurance == Infinity(false) && b.total == Infinity(false)
    ensures w.Decimal? ==>
              var c := ShippingCost.Costs(w);
              && b.weight == Decimal(c.weight, 0) && b.insurance == Decimal(c.insurance, 0)
              && b.total == Decimal(c.total - c.demurrageReserve - c.detentionReserve, 0)
    ensures b.base == ShippingCost.BaseFee && b.hvdcHandling == ShippingCost.HvdcHandling
  {
    if w.Decimal? then
      var wc := ShippingCost.WeightCost(w);
      var ins := ShippingCost.Insurance(wc);
      LegacyBreakdown(15000, Decimal(wc, 0), 4500, Decimal(ins, 0), Decimal(15000 + wc + 4500 + ins, 0))
    else LegacyBreakdown(15000, Infinity(false), 4500, Infinity(false), Infinity(false))
  }

  /** `String(v || '')` */
  function OrEmpty(v: JsValue): (s: string)
    ensures !Truthy(v) ==> s == ""
  {
    if Truthy(v) then ToStr(v) else ""
  }

  /** `calculate_hvdc_shipping_cost`: four components, no reserves, the
      equipment name neither clamped nor defaulted beyond the empty string. */
  function Cost(args: JsValue, now: string): (r: Result<LegacyOutput>)
    ensures args.Null? ==> r.Err? && r.error.code.None?
    ensures !args.Null? && !Positive(ToNumber(Prop(args, "weight"))) ==>
              r == Err(Exception("Error", Some(BadInput), LegacyWeightMessage, None))
    ensures r.Ok? <==> !args.Null? && Positive(ToNumber(Prop(args, "weight")))
    ensures r.Ok? ==>
              var w := ToNumber(Prop(args, "weight"));
              var j := r.value.json;
              && j.CostJson? && j.ts == now
              && j.equipment == Upper(OrEmpty(Prop(args, "equipment_type")))
              && j.origin == LegacyClampStr(Prop(args, "origin_port"))
              && j.destination == LegacyClampStr(Prop(args, "destination_port"))
              && j.weightKg == w && j.breakdown == LegacyCosts(w)
              && j.notes == ShippingCost.Notes
              && |r.value.text| == 11 && r.value.text[1] == Money(j.breakdown.total)
  {
    var weight :- ReadArgs(args, "weight");
    :- LegacyAssert(Positive(ToNumber(weight)), BadInput, LegacyWeightMessage);
    var b := LegacyCosts(ToNumber(weight));
    var json := CostJson(now, Upper(OrEmpty(Prop(args, "equipment_type"))),
                         LegacyClampStr(Prop(args, "origin_port")),
                         LegacyClampStr(Prop(args, "destination_port")),
                         ToNumber(weight), b, ShippingCost.Notes);
    Ok(Output(json, CostText(b)))
  }

  /** The cost line: the total, then base, weight, handling and insurance. */
  function CostText(b: LegacyBreakdown): (t: Text)
    ensures |t| == 11 && t[1] == Money(b.total) && t[3] == Money(Decimal(b.base, 0))
    ensures t[5] == Money(b.weight) && t[7] == Money(Decimal(b.hvdcHandling, 0)) && t[9] == Money(b.insurance)
  {
    [Lit("💰 Cost "), Money(b.total),
     Lit("  ("), Money(Decimal(b.base, 0)),
     Lit(" base / "), Money(b.weight),
     Lit(" weight / "), Money(Decimal(b.hvdcHandling, 0)),
     Lit(" hvdc / "), Money(b.insurance),
     Lit(" ins)")]
  }

  /** `${origin}|${destination}|${weight}` on the raw values. */
  function LegacySeed(origin: JsValue, destination: JsValue, weight: JsValue): (h: nat)
    ensures h < Modulus
  {
    Fold(ToStr(origin) + "|" + ToStr(destination) + "|" + ToStr(weight))
  }

  /** `logi_master_predict`: truthy origin and destination, no weight check,
      a seeded ETA and fixed drivers. */
  function LegacyPredict(args: JsValue, now: string): (r: Result<LegacyOutput>)
    ensures args.Null? ==> r.Err? && r.error.code.None?
    ensures r.Ok? <==> !args.Null? && Truthy(Prop(args, "origin")) && Truthy(Prop(args, "destination"))
    ensures !args.Null? && !r.Ok? ==> r == Err(Exception("Error", Some(BadInput), Predict.RouteMessage, None))
    ensures r.Ok? ==>
              var j := r.value.json;
              var seed := LegacySeed(Prop(args, "origin"), Prop(args, "destination"), Prop(args, "weight"));
              && j.PredictJson? && j.ts == now
              && j.origin == LegacyClampStr(Prop(args, "origin"))
              && j.destination == LegacyClampStr(Prop(args, "destination"))
              && j.cargoWeightKg == ToNumber(Prop(args, "weight"))
              && j.etaDays == 7 + seed % 7 && 7 <= j.etaDays <= 13
              && j.confidence == Decimal(87, 2) && j.onTimeRate == Decimal(95, 2) && j.risk == "LOW"
  {
    var origin :- ReadArgs(args, "origin");
    var destination := Prop(args, "destination");
    var weight := Prop(args, "weight");
    :- LegacyAssert(Truthy(origin) && Truthy(destination), BadInput, Predict.RouteMessage);
    var days := 7 + LegacySeed(origin, destination, weight) % 7;
    var json := PredictJson(now, LegacyClampStr(origin), LegacyClampStr(destination), ToNumber(weight),
                            days, Decimal(87, 2), Decimal(95, 2), "LOW");
    Ok(Output(json, [Lit("🚢 ETA " + NatToDecimal(days)
                         + "d (conf 87%)  weather:moderate / congestion:low / customs:2-3d")]))
  }

  const InvalidTimeMessage: string := "Invalid time value"

  /** `logi_master_weather_tie`: truthy route and date, then
      `new Date(date).toISOString()`, which throws a RangeError on an
      invalid date. */
  function Weather(args: JsValue, now: string, parseDate: JsValue -> Option<string>): (r: Result<LegacyOutput>)
    ensures args.Null? ==> r.Err? && r.error.code.None?
    ensures !args.Null? && !(Truthy(Prop(args, "route")) && Truthy(Prop(args, "departure_date"))) ==>
              r == Err(Exception("Error", Some(BadInput), WeatherTie.RequiredMessage, None))
    ensures !args.Null? && Truthy(Prop(args, "route")) && Truthy(Prop(args, "departure_date"))
            && parseDate(Prop(args, "departure_date")).None? ==>
              r == Err(PlainError("RangeError", InvalidTimeMessage))
    ensures r.Ok? <==> !args.Null? && Truthy(Prop(args, "route")) && Truthy(Prop(args, "departure_date"))
                       && parseDate(Prop(args, "departure_date")).Some?
    ensures r.Ok? ==>
              && r.value.json == WeatherJson(now, LegacyClampStr(Prop(args, "route")),
                                             parseDate(Prop(args, "departure_date")).value,
                                             "LOW", "PROCEED", 3, "delay_48h")
              && r.value.text == [Lit(WeatherTie.Line)]
  {
    var route :- ReadArgs(args, "route");
    var date := Prop(args, "departure_date");
    :- LegacyAssert(Truthy(route) && Truthy(date), BadInput, WeatherTie.RequiredMessage);
    match parseDate(date)
    case None => Err(PlainError("RangeError", InvalidTimeMessage))
    case Some(iso) =>
      Ok(Output(WeatherJson(now, LegacyClampStr(route), iso, "LOW", "PROCEED", 3, "delay_48h"),
                [Lit(WeatherTie.Line)]))
  }

  // ------------------------------------------------------------ dispatch

  /** The if-chain: the first branch whose name is `===` to the request's
      name runs; no match throws TOOL_NOT_FOUND. */
  function Dispatch(name: JsValue, args: JsValue, now: string, parseDate: JsValue -> Option<string>): (r: Result<LegacyOutput>)
    ensures !(name.Str? && name.s in Toolkit.ToolNames) ==>
              r == Err(Exception("Error", Some(ToolNotFound), Toolkit.UnknownMessage(name), None))
  {
    if name == Str("health_ping") then Health(args, now)
    else if name == Str("logi_master_invoice_audit") then Invoice(args, now)
    else if name == Str("check_container_status") then Container(args, now)
    else if name == Str("calculate_hvdc_shipping_cost") then Cost(args, now)
    else if name == Str("logi_master_predict") then LegacyPredict(args, now)
    else if name == Str("logi_master_weather_tie") then Weather(args, now, parseDate)
    else Err(Exception("Error", Some(ToolNotFound), Toolkit.UnknownMessage(name), None))
  }

  /** The CallTool handler: a throw becomes `fail(code || 'UNEXPECTED',
      { ts, message })`, without details. */
  function CallTool(params: OrderedMap<string, JsValue>, now: string, parseDate: JsValue -> Option<string>): (r: Response<LegacyJson>)
    ensures var d := Dispatch(Prop(Obj(params), "name"), Server.Arguments(params), now, parseDate);
            && (r.isError <==> d.Err?)
            && (d.Ok? ==> r == CreateOkResponse(d.value.json, d.value.text))
            && (d.Err? ==> r == CreateErrorResponse(Server.ErrorCodeName(d.error),
                                                   [("ts", Str(now)), ("message", Str(d.error.message))]))
  {
    match Dispatch(Prop(Obj(params), "name"), Server.Arguments(params), now, parseDate)
    case Ok(out) => CreateOkResponse(out.json, out.text)
    case Err(e) => CreateErrorResponse(Server.ErrorCodeName(e), [("ts", Str(now)), ("message", Str(e.message))])
  }

  // ------------------------------------------------------------ against the current server

  /** Every id the current validator accepts the legacy branch accepts too,
      and reports the same way. */
  lemma LegacyAcceptsValidIds(args: JsValue, now: string)
    requires !args.Null?
    requires ValidateContainerId(Prop(args, "container_id")).Ok?
    ensures Container(args, now).Ok?
    ensures Container(args, now).value.json.containerId == ValidateContainerId(Prop(args, "container_id")).value
  {
    var v := Prop(args, "container_id");
    var id := Upper(ClampString(v, 50));
    assert |ClampString(v, 50)| == 11;
    assert Truthy(v) by {
      if !Truthy(v) {
        match v
        case Num(_) => assert ClampString(v, 50) == Prefix(ToStr(v), 50);
        case _ =>
      }
    }
    assert ContainerKey(args) == id;
    AnchoredImpliesUnanchored(id);
  }

  /** The unanchored test lets an id with a leading extra letter through,
      which the anchored validator refuses. */
  lemma UnanchoredAcceptsLongId(args: JsValue, now: string)
    requires args == Obj([("container_id", Str("XABCD1234567"))])
    ensures Container(args, now).Ok?
    ensures Container(args, now).value.json.containerId == "XABCD1234567"
    ensures ValidateContainerId(Prop(args, "container_id")).Err?
  {
    var s := "XABCD1234567";
    assert Prop(args, "container_id") == Str(s);
    LongIdText(s);
  }

  /** The text of the long id: unchanged by clamping and upper-casing, with
      the ISO 6346 shape starting at its second character. */
  lemma LongIdText(s: string)
    requires s == "XABCD1234567"
    ensures LegacyClampStr(Str(s), 50) == s && ClampString(Str(s), 50) == s
    ensures Upper(s) == s
    ensures ShapeFrom(s, 1)
  {
    assert Upper(s) == s;
    assert s[1..12] == "ABCD1234567";
    assert IsoShapeAt(s, 1);
  }

  /** The legacy total leaves out the two reserves of the current
      breakdown: 4600 less for the same finite weight. */
  lemma LegacyTotalWithoutReserves(args: JsValue, now: string, ctx: Context, world: World)
    requires !args.Null? && ctx.now.Some?
    requires ShippingCost.Handle(args, ctx, world).Ok?
    ensures Cost(args, now).Ok?
    ensures var legacy := Cost(args, now).value.json.breakdown.total;
            var current := ShippingCost.Handle(args, ctx, world).value.json.breakdown.total;
            legacy == Decimal(current - 4600, 0)
  {
  }

  /** `weight > 0` holds for "Infinity": the legacy branch answers with an
      infinite total where the current validator throws BAD_INPUT. */
  lemma InfiniteWeightAccepted(args: JsValue, now: string, ctx: Context, world: World)
    requires args == Obj([("weight", Str("Infinity"))])
    ensures Cost(args, now).Ok?
    ensures Cost(args, now).value.json.breakdown.total == Infinity(false)
    ensures ShippingCost.Handle(args, ctx, world) == Err(McpError(BadInput, WeightMessage))
  {
    assert Prop(args, "weight") == Str("Infinity");
    InfinityText();
    assert ShippingCost.Handle(args, ctx, world) == Err(McpError(BadInput, WeightMessage));
  }

  /** The text "Infinity" converts to positive infinity. */
  lemma InfinityText()
    ensures ToNumber(Str("Infinity")) == Infinity(false)
  {
    var s := "Infinity";
    assert s[0] == 'I' && s[|s| - 1] == 'y';
    TrimVisible(s);
    InfinityWord(s);
    StrToNumber(s);
  }

  /** The legacy prediction needs no weight: a missing weight still gives an
      ETA, where the current handler throws BAD_INPUT. */
  lemma PredictWithoutWeight(args: JsValue, now: string, ctx: Context)
    requires args == Obj([("origin", Str("BUSAN")), ("destination", Str("JEBEL ALI"))])
    ensures LegacyPredict(args, now).Ok?
    ensures Predict.Handle(args, ctx) == Err(McpError(BadInput, WeightMessage))
  {
    RouteOnly(args);
  }

  /** The example's arguments: a route and no weight. */
  lemma RouteOnly(args: JsValue)
    requires args == Obj([("origin", Str("BUSAN")), ("destination", Str("JEBEL ALI"))])
    ensures Prop(args, "origin") == Str("BUSAN") && Prop(args, "destination") == Str("JEBEL ALI")
    ensures Prop(args, "weight") == Undefined
  {
    var f := args.fields;
    assert f[0].0[0] == 'o' && f[1].0[0] == 'd';
    GetUnique(f, 0);
    GetUnique(f, 1);
  }

  /** An unknown tool fails with `{ ok, code, ts, message }` and, unlike the
      current server, no `details`. */
  lemma UnknownToolEnvelope(params: OrderedMap<string, JsValue>, now: string, parseDate: JsValue -> Option<string>)
    requires var name := Prop(Obj(params), "name"); !(name.Str? && name.s in Toolkit.ToolNames)
    ensures var r := CallTool(params, now, parseDate);
            && r.isError && |r.content| == 1 && r.content[0].JsonItem? && r.content[0].body.Failure?
            && var f := r.content[0].body.fields;
            && |f| == 4
            && f[0] == ("ok", Bool(false))
            && f[1] == ("code", Str("TOOL_NOT_FOUND"))
            && f[2] == ("ts", Str(now))
            && f[3] == ("message", Str(Toolkit.UnknownMessage(Prop(Obj(params), "name"))))
  {
    var name := Prop(Obj(params), "name");
    var e := Exception("Error", Some(ToolNotFound), Toolkit.UnknownMessage(name), None);
    assert Dispatch(name, Server.Arguments(params), now, parseDate) == Err(e);
    assert Server.ErrorCodeName(e) == "TOOL_NOT_FOUND";
    var head := [("ok", Bool(false)), ("code", Str("TOOL_NOT_FOUND"))];
    var d := [("ts", Str(now)), ("message", Str(e.message))];
    var f := head + d;
    assert f[0].0[0] == 'o' && f[1].0[0] == 'c' && f[2].0[0] == 't' && f[3].0[0] == 'm';
    assert Distinct(f);
    AppendFresh(head, d);
    assert CallTool(params, now, parseDate) == CreateErrorResponse("TOOL_NOT_FOUND", d);
  }

  /** A health ping answers with a single JSON item unless the arguments
      are `null`, whose property read throws. */
  lemma HealthCall(params: OrderedMap<string, JsValue>, now: string, parseDate: JsValue -> Option<string>)
    requires Prop(Obj(params), "name") == Str("health_ping")
    ensures var r := CallTool(params, now, parseDate);
            && (r.isError <==> Server.Arguments(params).Null?)
            && (!r.isError ==> r.content == [JsonItem(Payload(HealthJson(now,
                                 LegacyClampStr(Prop(Server.Arguments(params), "echo")))))])
  {
  }

  /** The legacy GetPrompt handler: a `switch` on the same two names. */
  function GetPrompt(name: JsValue): (r: Server.PromptReply)
    ensures r.PromptMessages? <==> name.Str? && name.s in Server.PromptNames
  {
    if name == Str("invoice_audit_summary") || name == Str("eta_explain") then Server.PromptMessages(name.s)
    else Server.PromptMissing(CreateErrorResponse(PromptNotFound.Name(), [("name", name)]))
  }

  /** Both servers answer prompt requests alike. */
  lemma SamePrompts(name: JsValue)
    ensures GetPrompt(name) == Server.GetPrompt(name)
  {
  }
}
