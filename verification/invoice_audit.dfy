/** The `logi_master_invoice_audit` tool (src/tools/invoiceAudit.js): a
    deterministic audit snapshot seeded by the invoice number found in the
    path. */
module InvoiceAudit {
  import opened Base
  import opened OrderedMaps
  import opened JsValues
  import opened Errors
  import opened Strings
  import opened Hash
  import opened InvoicePattern
  import opened Validation
  import opened ZeroGuard
  import opened ReferenceData
  import opened ToolContext

  const Name: string := "logi_master_invoice_audit"
  const Description: string := "OCR-based invoice audit (Incoterm/HS/DEM-DET checks)"
  const InputSchema: JsValue :=
    ObjectSchema([("invoice_path", "string"), ("incoterm", "string"), ("hs_code", "string")],
                 ["invoice_path"])
  const PathMessage: string := "invoice_path required"

  const Net: nat := 102000
  const Handling: nat := 33000
  const Inspection: nat := 4500
  const NextSteps: seq<string> := ["sap_entry_ready", "approval_workflow", "payment_queue"]

  /** Both metrics in hundredths: `ocr_confidence` is 0.90 to 0.95 and
      `hs_risk` 0.05 to 0.29. */
  datatype Metrics = Metrics(ocrConfidence: Number, hsRisk: Number)

  datatype Validations = Validations(
    incoterm: ValidationRecord,
    hsCode: ValidationRecord,
    demDetReady: bool,
    vendorWhitelist: bool,
    format: bool)

  datatype Amounts = Amounts(currency: string, net: nat, handling: nat, inspection: nat, total: nat)

  datatype AuditJson = AuditJson(
    ts: string,
    file: string,
    invoiceNo: string,
    metrics: Metrics,
    validations: Validations,
    amounts: Amounts,
    next: seq<string>)

  /** `0.9 + (seed % 6) / 100`, in hundredths. */
  function OcrHundredths(seed: nat): (k: nat)
    ensures 90 <= k <= 95
  {
    90 + seed % 6
  }

  /** `0.05 + (seed % 25) / 100`, in hundredths. */
  function RiskHundredths(seed: nat): (k: nat)
    ensures 5 <= k <= 29
  {
    5 + seed % 25
  }

  /** The warnings appended to the text: one per failed validation. */
  function Warnings(incoterm: ValidationRecord, hsCode: ValidationRecord): (w: string)
    ensures w == "" <==> incoterm.valid && hsCode.valid
  {
    (if incoterm.valid then "" else "  ⚠️INCOTERM") + (if hsCode.valid then "" else "  ⚠️HS")
  }

  /** The handler.  An empty path is BAD_INPUT before anything else; after
      that nothing but a context without a clock can make it throw: the
      validators record their verdicts instead of throwing and the risk it
      hands the ZERO guard stays below the threshold. */
  function Handle(args: JsValue, ctx: Context, world: World): (r: Result<Output<AuditJson>>)
    ensures ClampString(Prop(args, "invoice_path")) == "" ==> r == Err(McpError(BadInput, PathMessage))
    ensures ClampString(Prop(args, "invoice_path")) != "" ==> (r.Ok? <==> ctx.now.Some?)
    ensures r.Ok? ==>
              var path := ClampString(Prop(args, "invoice_path"));
              r.value == Report(ctx.now.value, path, ExtractInvoiceNumber(Str(path)),
                                ValidateIncoterm(Prop(args, "incoterm"), world.incoterms),
                                ValidateHsCode(Prop(args, "hs_code"), world.hsCodes))
  {
    var path := ClampString(Prop(args, "invoice_path"));
    :- AssertOrThrow(path != "", BadInput, PathMessage);
    var invoiceNo := ExtractInvoiceNumber(Str(path));
    var incoterm := ValidateIncoterm(Prop(args, "incoterm"), world.incoterms);
    var hsCode := ValidateHsCode(Prop(args, "hs_code"), world.hsCodes);
    var seed := HashToInt(Str(invoiceNo));
    var risk := RiskHundredths(seed);
    GuardNeverStops(seed);
    var guard := if ctx.zeroGuard then EnforceZeroGuard(GuardContext(Decimal(risk, 2), false)) else Pass;
    match guard
    case Fail(e) => Err(e)
    case Pass =>
      var ts :- Now(ctx);
      Ok(Report(ts, path, invoiceNo, incoterm, hsCode))
  }

  /** The audit snapshot for a path once the checks have passed: metrics
      seeded by the invoice number, fixed amounts, and the text. */
  function Report(ts: string, path: string, invoiceNo: string, incoterm: ValidationRecord,
                  hsCode: ValidationRecord): (o: Output<AuditJson>)
    ensures var j := o.json;
            && j.ts == ts && j.file == path && j.invoiceNo == invoiceNo
            && j.validations == Validations(incoterm, hsCode, true, true, true)
            && j.metrics == Metrics(Decimal(90 + HashToInt(Str(invoiceNo)) % 6, 2),
                                    Decimal(5 + HashToInt(Str(invoiceNo)) % 25, 2))
            && j.next == NextSteps
            && j.amounts.total == j.amounts.net + j.amounts.handling + j.amounts.inspection == 139500
    ensures o.text == [Lit(HeadText(o.json)), Money(Decimal(139500, 0)), Lit(Warnings(incoterm, hsCode))]
    ensures o.text[2] == Lit("") <==> incoterm.valid && hsCode.valid
  {
    var seed := HashToInt(Str(invoiceNo));
    var total := Net + Handling + Inspection;
    var json := AuditJson(
      ts, path, invoiceNo,
      Metrics(Decimal(OcrHundredths(seed), 2), Decimal(RiskHundredths(seed), 2)),
      Validations(incoterm, hsCode, true, true, true),
      Amounts("USD", Net, Handling, Inspection, total),
      NextSteps);
    Output(json, [Lit(HeadText(json)), Money(Decimal(total, 0)), Lit(Warnings(incoterm, hsCode))])
  }

  /** The head of the text: the file, the invoice number, the OCR
      confidence as a percentage with one decimal, and the two codes, `N/A`
      when missing. */
  function HeadText(j: AuditJson): string
    requires j.metrics.ocrConfidence.Decimal? && j.metrics.ocrConfidence.m >= 0
  {
    "📋 Invoice Audit ✔  File:" + j.file + "  Inv:" + j.invoiceNo
    + "  OCR:" + NatToDecimal(j.metrics.ocrConfidence.m) + ".0%"
    + "  Incoterm:" + j.validations.incoterm.code.GetOr("N/A")
    + "  HS:" + j.validations.hsCode.code.GetOr("N/A") + "  Total:"
  }

  /** The guard never stops an audit: every risk the seed can produce is
      below 0.8 and the certification is never reported missing. */
  lemma GuardNeverStops(seed: nat)
    ensures EnforceZeroGuard(GuardContext(Decimal(RiskHundredths(seed), 2), false)) == Pass
  {
    var k := RiskHundredths(seed);
    GuardDecision(Decimal(k, 2), false);
    assert !AtLeastThreshold(Decimal(k, 2));
  }

  /** The metrics depend on the invoice number alone: two paths naming the
      same invoice get the same metrics, whatever else differs. */
  lemma SameInvoiceSameMetrics(a1: JsValue, a2: JsValue, ctx: Context, world: World)
    requires Handle(a1, ctx, world).Ok? && Handle(a2, ctx, world).Ok?
    requires Handle(a1, ctx, world).value.json.invoiceNo == Handle(a2, ctx, world).value.json.invoiceNo
    ensures Handle(a1, ctx, world).value.json.metrics == Handle(a2, ctx, world).value.json.metrics
  {
  }

  /** The source's own example: an HVDC invoice with a known Incoterm and
      HS code passes both validations on the fallback tables. */
  lemma AuditExample(args: JsValue, ctx: Context, world: World)
    requires args == Obj([("invoice_path", Str("HVDC-INV-123.pdf")),
                          ("incoterm", Str("CFR")), ("hs_code", Str("850490"))])
    requires ctx.now.Some?
    requires world.incoterms == FallbackIncoterms && world.hsCodes == FallbackHsCodes
    ensures Handle(args, ctx, world).Ok?
    ensures Handle(args, ctx, world).value.json.invoiceNo == "HVDC-INV-123"
    ensures Handle(args, ctx, world).value.json.validations.incoterm.valid
    ensures Handle(args, ctx, world).value.json.validations.hsCode.valid
  {
    var f := args.fields;
    assert "hs_code"[0] != "invoice_path"[0] && "hs_code"[0] != "incoterm"[0];
    assert "incoterm"[2] != "invoice_path"[2];
    GetUnique(f, 0);
    GetUnique(f, 1);
    GetUnique(f, 2);
    var path := ClampString(Prop(args, "invoice_path"));
    assert path == "HVDC-INV-123.pdf";
    var r := Handle(args, ctx, world);
    assert r.Ok?;
    ExtractExample();
    assert r.value.json.invoiceNo == "HVDC-INV-123";
    IncotermCfrExample();
    HsCodeExamples();
    assert r.value.json.validations.incoterm == ValidateIncoterm(Str("CFR"), FallbackIncoterms);
    assert r.value.json.validations.hsCode == ValidateHsCode(Str("850490"), FallbackHsCodes);
  }
}
