/** The `check_container_status` tool (src/tools/containerStatus.js): a
    deterministic tracking snapshot seeded by the normalised container id. */
module ContainerStatus {
  import opened JsValues
  import opened Errors
  import opened Hash
  import opened Validation
  import opened ToolContext

  const Name: string := "check_container_status"
  const Description: string := "ISO 6346 container tracking snapshot (deterministic)"
  const InputSchema: JsValue :=
    ObjectSchema([("container_id", "string")],
                 ["container_id"])
  const EtaUtc: string := "2025-08-18T14:30:00Z"

  datatype Location = Location(port: string, terminal: string)
  datatype Vessel = Vessel(name: string, voyage: string)
  datatype Conditions = Conditions(tempOk: bool, humidityOk: bool, securityOk: bool, docsOk: bool)

  datatype ContainerJson = ContainerJson(
    ts: string,
    containerId: string,
    status: string,
    progressPct: nat,
    location: Location,
    vessel: Vessel,
    etaUtc: string,
    conditions: Conditions)

  /** `50 + (seed % 41)` */
  function Progress(seed: nat): (p: nat)
    ensures 50 <= p <= 90
  {
    50 + seed % 41
  }

  /** `T${1 + (seed % 4)}` */
  function Terminal(seed: nat): (t: string)
    ensures |t| == 2 && t[0] == 'T' && '1' <= t[1] <= '4'
    ensures t[1] as int - '0' as int == 1 + seed % 4
  {
    "T" + NatToDecimal(1 + seed % 4)
  }

  /** `SD-${2025 + (seed % 3)}-${String(814 + (seed % 50)).padStart(4, '0')}`:
      reading the two numbers back gives the year and the voyage number the
      seed selects. */
  function Voyage(seed: nat): (v: string)
    ensures |v| == 12 && v[..3] == "SD-" && v[7] == '-' && v[8] == '0'
    ensures AllDigits(v[3..7]) && DigitsValue(v[3..7]) == 2025 + seed % 3
    ensures AllDigits(v[8..]) && DigitsValue(v[8..]) == 814 + seed % 50
  {
    var year := NatToDecimal(2025 + seed % 3);
    var digits := NatToDecimal(814 + seed % 50);
    var number := PadStart(digits, 4, '0');
    NatToDecimalLength(2025 + seed % 3, 4);
    NatToDecimalLength(814 + seed % 50, 3);
    NatToDecimalRoundTrip(2025 + seed % 3);
    NatToDecimalRoundTrip(814 + seed % 50);
    assert number == "0" + digits;
    LeadingZero(digits);
    var v := "SD-" + year + "-" + number;
    assert v[3..7] == year;
    assert v[8..] == number;
    v
  }

  /** The handler: an id that is not ISO 6346 shaped is BAD_INPUT; the
      snapshot otherwise depends on the normalised id alone, with the port and
      the vessel chosen together by the seed's parity. */
  function Handle(args: JsValue, ctx: Context): (r: Result<Output<ContainerJson>>)
    ensures ValidateContainerId(Prop(args, "container_id")).Err? ==>
              r == Err(McpError(BadInput, ContainerMessage))
    ensures ValidateContainerId(Prop(args, "container_id")).Ok? ==> (r.Ok? <==> ctx.now.Some?)
    ensures r.Ok? ==>
              var j := r.value.json;
              var seed := HashToInt(Str(j.containerId));
              && j.ts == ctx.now.value
              && j.containerId == ValidateContainerId(Prop(args, "container_id")).value
              && IsoShape(j.containerId)
              && j.status == "IN_TRANSIT"
              && 50 <= j.progressPct <= 90 && j.progressPct - 50 == seed % 41
              && (seed % 2 == 0 ==> j.location.port == "BUSAN" && j.vessel.name == "SAMSUNG DYNASTY")
              && (seed % 2 == 1 ==> j.location.port == "JEBEL ALI" && j.vessel.name == "ADNOC RELIANCE")
              && j.location.terminal == Terminal(seed)
              && j.vessel.voyage == Voyage(seed)
              && j.etaUtc == EtaUtc
              && j.conditions == Conditions(true, true, true, true)
    ensures r.Ok? ==>
              var j := r.value.json;
              r.value.text == [Lit("📦 " + j.containerId + " transit " + NatToDecimal(j.progressPct)
                                   + "%  Vessel:" + j.vessel.name + "  ETA:" + j.etaUtc)]
  {
    var id :- ValidateContainerId(Prop(args, "container_id"));
    var seed := HashToInt(Str(id));
    var progress := Progress(seed);
    var ts :- Now(ctx);
    var vessel := if seed % 2 == 0 then "SAMSUNG DYNASTY" else "ADNOC RELIANCE";
    var json := ContainerJson(
      ts, id, "IN_TRANSIT", progress,
      Location(if seed % 2 == 0 then "BUSAN" else "JEBEL ALI", Terminal(seed)),
      Vessel(vessel, Voyage(seed)),
      EtaUtc,
      Conditions(true, true, true, true));
    var text := "📦 " + id + " transit " + NatToDecimal(progress) + "%  Vessel:" + vessel + "  ETA:" + EtaUtc;
    Ok(Output(json, [Lit(text)]))
  }

  /** Two calls on ids that normalise alike give the same snapshot apart from
      the timestamp. */
  lemma SameIdSameSnapshot(a1: JsValue, a2: JsValue, c1: Context, c2: Context)
    requires Handle(a1, c1).Ok? && Handle(a2, c2).Ok?
    requires ValidateContainerId(Prop(a1, "container_id")) == ValidateContainerId(Prop(a2, "container_id"))
    ensures Handle(a1, c1).value.json.(ts := "") == Handle(a2, c2).value.json.(ts := "")
  {
  }
}
