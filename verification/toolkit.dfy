/** `McpTool` and `ToolRegistry` (src/core/toolkit.js) together with the
    tool list `ALL_TOOLS` (src/tools/index.js).  A handler is one of the six
    tool handlers, named by a closed enumeration. */
module Toolkit {
  import opened Base
  import opened OrderedMaps
  import opened JsValues
  import opened Errors
  import opened ToolContext
  import HealthPing
  import InvoiceAudit
  import ContainerStatus
  import ShippingCost
  import Predict
  import WeatherTie

  datatype Handler =
    | HealthPingHandler
    | InvoiceAuditHandler
    | ContainerStatusHandler
    | ShippingCostHandler
    | PredictHandler
    | WeatherTieHandler

  /** The `json` a handler returns, tagged with the handler that made it. */
  datatype ToolJson =
    | HealthPingJson(health: HealthPing.HealthJson)
    | InvoiceAuditJson(audit: InvoiceAudit.AuditJson)
    | ContainerStatusJson(container: ContainerStatus.ContainerJson)
    | ShippingCostJson(cost: ShippingCost.CostJson)
    | PredictJson(prediction: Predict.PredictJson)
    | WeatherTieJson(weather: WeatherTie.WeatherJson)

  type ToolOutput = Output<ToolJson>

  /** Re-tags a handler's result; a throw passes through unchanged. */
  function Lift<J>(r: Result<Output<J>>, tag: J -> ToolJson): (o: Result<ToolOutput>)
    ensures o.Ok? <==> r.Ok?
    ensures r.Err? ==> o == Err(r.error)
    ensures r.Ok? ==> o.value.json == tag(r.value.json) && o.value.text == r.value.text
  {
    match r
    case Ok(out) => Ok(Output(tag(out.json), out.text))
    case Err(e) => Err(e)
  }

  /** Calls the handler. */
  function Invoke(h: Handler, args: JsValue, ctx: Context, world: World): (r: Result<ToolOutput>)
    ensures r.Ok? ==> (r.value.json.HealthPingJson? <==> h.HealthPingHandler?)
    ensures r.Ok? ==> (r.value.json.InvoiceAuditJson? <==> h.InvoiceAuditHandler?)
    ensures r.Ok? ==> (r.value.json.ContainerStatusJson? <==> h.ContainerStatusHandler?)
    ensures r.Ok? ==> (r.value.json.ShippingCostJson? <==> h.ShippingCostHandler?)
    ensures r.Ok? ==> (r.value.json.PredictJson? <==> h.PredictHandler?)
    ensures r.Ok? ==> (r.value.json.WeatherTieJson? <==> h.WeatherTieHandler?)
    ensures r.Ok? ==> ctx.now.Some?
  {
    match h
    case HealthPingHandler => Lift(HealthPing.Handle(args, ctx), j => HealthPingJson(j))
    case InvoiceAuditHandler => Lift(InvoiceAudit.Handle(args, ctx, world), j => InvoiceAuditJson(j))
    case ContainerStatusHandler => Lift(ContainerStatus.Handle(args, ctx), j => ContainerStatusJson(j))
    case ShippingCostHandler => Lift(ShippingCost.Handle(args, ctx, world), j => ShippingCostJson(j))
    case PredictHandler => Lift(Predict.Handle(args, ctx), j => PredictJson(j))
    case WeatherTieHandler => Lift(WeatherTie.Handle(args, ctx, world), j => WeatherTieJson(j))
  }

  /** `new McpTool({ name, description, inputSchema, handler })` */
  datatype McpTool = McpTool(name: string, description: string, inputSchema: JsValue, handler: Handler)

  /** `toSchema()` */
  function ToSchema(t: McpTool): (s: JsValue)
    ensures s.Obj? && |s.fields| == 3
    ensures Prop(s, "name") == Str(t.name)
    ensures Prop(s, "description") == Str(t.description)
    ensures Prop(s, "inputSchema") == t.inputSchema
  {
    var f := [("name", Str(t.name)), ("description", Str(t.description)), ("inputSchema", t.inputSchema)];
    assert f[0].0[0] == 'n' && f[1].0[0] == 'd' && f[2].0[0] == 'i';
    GetUnique(f, 0);
    GetUnique(f, 1);
    GetUnique(f, 2);
    Obj(f)
  }

  /** `execute(args, context)`: null or undefined arguments become `{}`, and
      a missing context becomes `{}`, whose `now` is not a function. */
  function Execute(t: McpTool, args: JsValue, ctx: Option<Context>, world: World): (r: Result<ToolOutput>)
    ensures ctx.None? ==> r.Err?
    ensures !Nullish(args) && ctx.Some? ==> r == Invoke(t.handler, args, ctx.value, world)
    ensures Nullish(args) && ctx.Some? ==> r == Invoke(t.handler, Obj([]), ctx.value, world)
  {
    Invoke(t.handler, OrElse(args, Obj([])), ctx.GetOr(EmptyContext), world)
  }

  /** What `register` may be handed: a tool or any other value. */
  datatype Registrant = Tool(tool: McpTool) | NotATool(value: JsValue)

  /** The registry's `Map` from tool name to tool. */
  type Registry = OrderedMap<string, McpTool>

  const RegisterMessage: string := "ToolRegistry.register expects McpTool"

  /** Every slot holds the tool of its own name, once. */
  predicate WellFormed(reg: Registry) {
    Distinct(reg) && forall i :: 0 <= i < |reg| ==> reg[i].0 == reg[i].1.name
  }

  /** `register(tool)`: anything but an `McpTool` throws a plain `Error`; a
      tool whose name is already taken replaces the old one in its slot. */
  function Register(reg: Registry, item: Registrant): (r: Result<Registry>)
    ensures item.NotATool? ==> r == Err(PlainError("Error", RegisterMessage))
    ensures item.Tool? ==> r.Ok?
    ensures item.Tool? ==>
              && Get(r.value, item.tool.name) == Some(item.tool)
              && (forall k :: k != item.tool.name ==> Get(r.value, k) == Get(reg, k))
              && Keys(r.value) == if HasKey(reg, item.tool.name) then Keys(reg) else Keys(reg) + [item.tool.name]
    ensures item.Tool? && WellFormed(reg) ==> WellFormed(r.value)
  {
    match item
    case NotATool(_) => Err(PlainError("Error", RegisterMessage))
    case Tool(t) =>
      var r := Set(reg, t.name, t);
      assert WellFormed(reg) ==> WellFormed(r) by {
        if WellFormed(reg) { SetWellFormed(reg, t); }
      }
      Ok(r)
  }

  lemma SetWellFormed(reg: Registry, t: McpTool)
    requires WellFormed(reg)
    ensures WellFormed(Set(reg, t.name, t))
  {
    var r := Set(reg, t.name, t);
    forall i | 0 <= i < |r| ensures r[i].0 == r[i].1.name {
      var k := r[i].0;
      assert Keys(r)[i] == k;
      if k == t.name {
        assert Get(r, k) == Some(t);
        DistinctGet(r, i);
      } else {
        assert HasKey(reg, k) by {
          assert k in Keys(reg) + [t.name];
          KeysHasKey(reg, k);
        }
        var j :| 0 <= j < |reg| && reg[j].0 == k;
        DistinctGet(reg, j);
        DistinctGet(r, i);
      }
    }
  }

  /** In a map without repeated keys each entry is the value of its key. */
  lemma DistinctGet<K, V>(m: OrderedMap<K, V>, i: nat)
    requires Distinct(m) && i < |m|
    ensures Get(m, m[i].0) == Some(m[i].1)
  {
    GetUnique(m, i);
  }

  lemma KeysHasKey<K, V>(m: OrderedMap<K, V>, k: K)
    requires k in Keys(m)
    ensures HasKey(m, k)
  {
    var i :| 0 <= i < |Keys(m)| && Keys(m)[i] == k;
    assert m[i].0 == k;
  }

  /** The tools of a list, in order, when every item is one. */
  predicate AllTools(items: seq<Registrant>) {
    forall i :: 0 <= i < |items| ==> items[i].Tool?
  }

  /** The last tool of the list with the given name: the one a registry
      built from the list keeps. */
  function LastNamed(items: seq<Registrant>, name: string): (t: Option<McpTool>)
    ensures t.Some? ==> exists i :: 0 <= i < |items| && items[i] == Tool(t.value) && t.value.name == name
  {
    if |items| == 0 then None
    else
      var last := items[|items| - 1];
      if last.Tool? && last.tool.name == name then Some(last.tool)
      else LastNamed(items[..|items| - 1], name)
  }

  /** `new ToolRegistry(tools)`: registers each item in turn; the first item
      that is not a tool throws. */
  function NewRegistry(items: seq<Registrant>): (r: Result<Registry>)
    ensures r.Ok? <==> AllTools(items)
    ensures r.Err? ==> r.error == PlainError("Error", RegisterMessage)
    ensures r.Ok? ==> WellFormed(r.value)
    ensures r.Ok? ==> forall k :: Get(r.value, k) == LastNamed(items, k)
  {
    if |items| == 0 then Ok([])
    else
      var prefix := items[..|items| - 1];
      var last := items[|items| - 1];
      assert AllTools(items) <==> AllTools(prefix) && last.Tool? by {
        if AllTools(prefix) && last.Tool? {
          forall i | 0 <= i < |items| ensures items[i].Tool? {
            if i < |items| - 1 { assert items[i] == prefix[i]; }
          }
        }
      }
      var reg :- NewRegistry(prefix);
      Register(reg, last)
  }

  /** `list()`: the tools' schemas in registration order. */
  function List(reg: Registry): (schemas: seq<JsValue>)
    ensures |schemas| == |reg|
    ensures forall i :: 0 <= i < |reg| ==> Prop(schemas[i], "name") == Str(reg[i].1.name)
    ensures forall i :: 0 <= i < |reg| ==> schemas[i] == ToSchema(reg[i].1)
  {
    seq(|reg|, i requires 0 <= i < |reg| => ToSchema(reg[i].1))
  }

  /** `get(name)`: `Map.prototype.get`, under which only a string equal to a
      tool's name finds it. */
  function GetTool(reg: Registry, name: JsValue): (t: Option<McpTool>)
    ensures t.Some? <==> name.Str? && HasKey(reg, name.s)
    ensures WellFormed(reg) && t.Some? ==> t.value.name == name.s
  {
    match name
    case Str(s) =>
      Get(reg, s)
    case _ => None
  }

  function UnknownMessage(name: JsValue): string {
    "Unknown tool: " + ToStr(name)
  }

  /** `run(name, args, context)` */
  function Run(reg: Registry, name: JsValue, args: JsValue, ctx: Option<Context>, world: World): (r: Result<ToolOutput>)
    ensures GetTool(reg, name).None? ==> r == Err(McpError(ToolNotFound, UnknownMessage(name)))
    ensures GetTool(reg, name).Some? ==> r == Execute(GetTool(reg, name).value, args, ctx, world)
  {
    match GetTool(reg, name)
    case None => Err(McpError(ToolNotFound, UnknownMessage(name)))
    case Some(t) => Execute(t, args, ctx, world)
  }

  // ------------------------------------------------------------ ALL_TOOLS

  function HealthPingTool(): McpTool {
    McpTool(HealthPing.Name, HealthPing.Description, HealthPing.InputSchema, HealthPingHandler)
  }

  function InvoiceAuditTool(): McpTool {
    McpTool(InvoiceAudit.Name, InvoiceAudit.Description, InvoiceAudit.InputSchema, InvoiceAuditHandler)
  }

  function ContainerStatusTool(): McpTool {
    McpTool(ContainerStatus.Name, ContainerStatus.Description, ContainerStatus.InputSchema, ContainerStatusHandler)
  }

  function ShippingCostTool(): McpTool {
    McpTool(ShippingCost.Name, ShippingCost.Description, ShippingCost.InputSchema, ShippingCostHandler)
  }

  function PredictTool(): McpTool {
    McpTool(Predict.Name, Predict.Description, Predict.InputSchema, PredictHandler)
  }

  function WeatherTieTool(): McpTool {
    McpTool(WeatherTie.Name, WeatherTie.Description, WeatherTie.InputSchema, WeatherTieHandler)
  }

  /** `ALL_TOOLS`, in the order the server registers them. */
  function AllToolsList(): seq<Registrant> {
    [Tool(HealthPingTool()), Tool(InvoiceAuditTool()), Tool(ContainerStatusTool()),
     Tool(ShippingCostTool()), Tool(PredictTool()), Tool(WeatherTieTool())]
  }

  const ToolNames: seq<string> :=
    [HealthPing.Name, InvoiceAudit.Name, ContainerStatus.Name,
     ShippingCost.Name, Predict.Name, WeatherTie.Name]

  /** The entries a registry built from tools with distinct names holds:
      one per tool, in list order. */
  function Entries(items: seq<Registrant>): (m: Registry)
    requires AllTools(items)
  {
    seq(|items|, i requires 0 <= i < |items| => (items[i].tool.name, items[i].tool))
  }

  predicate DistinctNames(items: seq<Registrant>)
    requires AllTools(items)
  {
    forall i, j :: 0 <= i < j < |items| ==> items[i].tool.name != items[j].tool.name
  }

  /** Tools with distinct names each get their own slot, in list order. */
  lemma {:induction false} RegistryOfDistinct(items: seq<Registrant>)
    requires AllTools(items) && DistinctNames(items)
    ensures NewRegistry(items) == Ok(Entries(items))
  {
    if |items| > 0 {
      var prefix := items[..|items| - 1];
      var last := items[|items| - 1];
      assert AllTools(prefix) && DistinctNames(prefix) by {
        forall i | 0 <= i < |prefix| ensures prefix[i] == items[i] { }
      }
      RegistryOfDistinct(prefix);
      var reg := Entries(prefix);
      assert !HasKey(reg, last.tool.name);
      assert Set(reg, last.tool.name, last.tool) == reg + [(last.tool.name, last.tool)];
      assert Entries(items) == reg + [(last.tool.name, last.tool)];
    }
  }

  /** No two of the six tools share a name. */
  lemma ToolNamesDistinct()
    ensures forall i, j :: 0 <= i < j < |ToolNames| ==> ToolNames[i] != ToolNames[j]
  {
    var n := ToolNames;
    assert n[0][0] == 'h' && n[1][0] == 'l' && n[2][0] == 'c' && n[3][0] == 'c' && n[4][0] == 'l' && n[5][0] == 'l';
    assert n[2][1] == 'h' && n[3][1] == 'a';
    assert n[1][12] == 'i' && n[4][12] == 'p' && n[5][12] == 'w';
  }

  /** `ALL_TOOLS` holds six tools, the i-th named `ToolNames[i]`, no two
      alike. */
  lemma AllToolsShape()
    ensures |AllToolsList()| == 6 && AllTools(AllToolsList())
    ensures forall i :: 0 <= i < 6 ==> AllToolsList()[i].tool.name == ToolNames[i]
    ensures DistinctNames(AllToolsList())
  {
    ToolNamesDistinct();
  }

  /** The registry the server builds from `ALL_TOOLS`. */
  function ServerTools(): Registry {
    assert AllTools(AllToolsList());
    Entries(AllToolsList())
  }

  /** The server's registry: the six tools register without error, under
      their own names, in the order of `ALL_TOOLS`. */
  lemma ServerRegistry()
    ensures AllTools(AllToolsList()) && DistinctNames(AllToolsList())
    ensures NewRegistry(AllToolsList()) == Ok(ServerTools())
    ensures Keys(ServerTools()) == ToolNames
    ensures WellFormed(ServerTools())
  {
    AllToolsShape();
    RegistryOfDistinct(AllToolsList());
    assert forall i :: 0 <= i < 6 ==> Keys(ServerTools())[i] == ToolNames[i];
  }

  /** Each listed name finds its own tool in the server's registry. */
  lemma ServerLookup(i: nat)
    requires i < |ToolNames|
    ensures GetTool(ServerTools(), Str(ToolNames[i])) == Some(AllToolsList()[i].tool)
  {
    var reg := ServerTools();
    ServerSlots();
    ToolNamesDistinct();
    assert reg[i] == (ToolNames[i], AllToolsList()[i].tool);
    GetUnique(reg, i);
  }

  /** Each listed name reaches its own handler, with `{}` for missing
      arguments. */
  lemma ServerDispatch(i: nat, args: JsValue, ctx: Context, world: World)
    requires i < |ToolNames|
    ensures Run(ServerTools(), Str(ToolNames[i]), args, Some(ctx), world)
            == Invoke(AllToolsList()[i].tool.handler, OrElse(args, Obj([])), ctx, world)
  {
    ServerLookup(i);
  }

  /** Any other name, or a name that is not a string, is TOOL_NOT_FOUND. */
  lemma ServerUnknown(name: JsValue, args: JsValue, ctx: Option<Context>, world: World)
    requires !(name.Str? && name.s in ToolNames)
    ensures Run(ServerTools(), name, args, ctx, world)
            == Err(McpError(ToolNotFound, UnknownMessage(name)))
  {
    if name.Str? {
      var reg := ServerTools();
      ServerSlots();
      assert !HasKey(reg, name.s) by {
        forall i | 0 <= i < |reg| ensures reg[i].0 != name.s {
          assert reg[i].0 == ToolNames[i];
        }
      }
    }
  }

  /** The i-th slot of the server's registry holds the i-th listed name. */
  lemma ServerSlots()
    ensures |ServerTools()| == |ToolNames|
    ensures forall i :: 0 <= i < |ToolNames| ==> ServerTools()[i].0 == ToolNames[i]
  {
    AllToolsShape();
  }

  /** Re-registering a tool changes nothing. */
  lemma RegisterTwice(reg: Registry, t: McpTool)
    ensures Register(reg, Tool(t)).Ok?
    ensures Register(Register(reg, Tool(t)).value, Tool(t)) == Register(reg, Tool(t))
  {
    var k := t.name;
    var r := Set(reg, k, t);
    assert forall i :: 0 <= i < |r| && r[i].0 == k ==> r[i] == (k, t) by {
      if !HasKey(reg, k) {
        assert r == reg + [(k, t)];
      }
    }
    assert HasKey(r, k) by {
      var i :| 0 <= i < |r| && r[i] == (k, t);
    }
    assert Replace(r, k, t) == r;
  }
}
