/** The request handlers of src/server.js that carry behaviour: the CallTool
    handler, the single place where a thrown error becomes an error envelope,
    the GetPrompt miss, and the per-call tool context. */
module Server {
  import opened Base
  import opened OrderedMaps
  import opened JsValues
  import opened Errors
  import opened ToolContext
  import opened Toolkit
  import opened Responses
  import HealthPing

  /** `createToolContext()`: a clock that reads `now` and the ZERO guard. */
  function CreateToolContext(now: string): (ctx: Context)
    ensures Now(ctx) == Ok(now)
    ensures ctx.zeroGuard
  {
    Context(Some(now), true)
  }

  /** `error?.code || 'UNEXPECTED'` */
  function ErrorCodeName(e: Exception): (code: string)
    ensures e.code.Some? ==> code == e.code.value.Name()
    ensures e.code.None? ==> code == "UNEXPECTED"
  {
    match e.code
    case Some(c) => c.Name()
    case None => Unexpected.Name()
  }

  /** `{ ts, message }`, plus `details` when the error carries one (an
      `McpError` always does). */
  function ErrorDetails(e: Exception, ts: string): (d: OrderedMap<string, JsValue>)
    ensures Distinct(d)
    ensures Keys(d) == ["ts", "message"] + if e.details.Some? then ["details"] else []
    ensures Get(d, "ts") == Some(Str(ts)) && Get(d, "message") == Some(Str(e.message))
    ensures Get(d, "details") == if e.details.Some? then Some(Obj(e.details.value)) else None
  {
    var d := [("ts", Str(ts)), ("message", Str(e.message))]
             + if e.details.Some? then [("details", Obj(e.details.value))] else [];
    DetailsLookup(d, e, ts);
    d
  }

  /** The lookups in the details object, one key at a time. */
  lemma DetailsLookup(d: OrderedMap<string, JsValue>, e: Exception, ts: string)
    requires d == [("ts", Str(ts)), ("message", Str(e.message))]
                  + if e.details.Some? then [("details", Obj(e.details.value))] else []
    ensures Distinct(d)
    ensures Get(d, "ts") == Some(Str(ts)) && Get(d, "message") == Some(Str(e.message))
    ensures Get(d, "details") == if e.details.Some? then Some(Obj(e.details.value)) else None
  {
    assert d[0].0[0] == 't' && d[1].0[0] == 'm';
    assert |d| == 3 ==> d[2].0[0] == 'd';
    GetUnique(d, 0);
    GetUnique(d, 1);
    if e.details.Some? {
      GetUnique(d, 2);
    } else {
      assert !HasKey(d, "details");
    }
  }

  /** The CallTool handler: the named tool runs with the request's
      `arguments` (`{}` when absent) and a fresh context; a throw becomes an
      error envelope.  `now` is the instant the clock reads, both in the
      handler and in the error details. */
  function CallTool(reg: Registry, params: OrderedMap<string, JsValue>, now: string, world: World): (r: Response<ToolJson>)
    ensures var run := Run(reg, Prop(Obj(params), "name"), Arguments(params), Some(CreateToolContext(now)), world);
            && (r.isError <==> run.Err?)
            && (run.Ok? ==> r == CreateOkResponse(run.value.json, run.value.text))
            && (run.Err? ==> r == CreateErrorResponse(ErrorCodeName(run.error), ErrorDetails(run.error, now)))
  {
    var name := Prop(Obj(params), "name");
    match Run(reg, name, Arguments(params), Some(CreateToolContext(now)), world)
    case Ok(out) => CreateOkResponse(out.json, out.text)
    case Err(e) => CreateErrorResponse(ErrorCodeName(e), ErrorDetails(e, now))
  }

  /** `arguments: args = {}`: the default applies only when `arguments` is
      undefined. */
  function Arguments(params: OrderedMap<string, JsValue>): (args: JsValue)
    ensures Prop(Obj(params), "arguments") != Undefined ==> args == Prop(Obj(params), "arguments")
    ensures Prop(Obj(params), "arguments") == Undefined ==> args == Obj([])
  {
    var a := Prop(Obj(params), "arguments");
    if a == Undefined then Obj([]) else a
  }

  /** The envelope a thrown error becomes: `ok: false`, the code, the time,
      the message and, when the error has them, its details. */
  lemma ErrorEnvelope(e: Exception, now: string)
    ensures var r := CreateErrorResponse<ToolJson>(ErrorCodeName(e), ErrorDetails(e, now));
            && r.isError && |r.content| == 1 && r.content[0].JsonItem? && r.content[0].body.Failure?
            && var f := r.content[0].body.fields;
            && |f| == (if e.details.Some? then 5 else 4)
            && f[0] == ("ok", Bool(false))
            && f[1] == ("code", Str(if e.code.Some? then e.code.value.Name() else "UNEXPECTED"))
            && f[2] == ("ts", Str(now))
            && f[3] == ("message", Str(e.message))
            && (e.details.Some? ==> f[4] == ("details", Obj(e.details.value)))
  {
    var code := ErrorCodeName(e);
    var d := ErrorDetails(e, now);
    var head := [("ok", Bool(false)), ("code", Str(code))];
    var f := head + d;
    assert |f| == 4 || |f| == 5;
    assert f[0].0[0] == 'o' && f[1].0[0] == 'c' && f[2].0[0] == 't' && f[3].0[0] == 'm';
    assert |f| == 5 ==> f[4].0[0] == 'd';
    assert Distinct(f);
    AppendFresh(head, d);
  }

  /** A name the registry does not hold reaches the client as the
      TOOL_NOT_FOUND error response: the time, `Unknown tool: <name>` and
      the McpError's empty details; `ServerUnknown` shows which names the
      server's own registry lacks. */
  lemma UnknownToolEnvelope(reg: Registry, params: OrderedMap<string, JsValue>, now: string, world: World)
    requires GetTool(reg, Prop(Obj(params), "name")).None?
    ensures CallTool(reg, params, now, world)
            == CreateErrorResponse("TOOL_NOT_FOUND",
                                   [("ts", Str(now)),
                                    ("message", Str(UnknownMessage(Prop(Obj(params), "name")))),
                                    ("details", Obj([]))])
  {
    var name := Prop(Obj(params), "name");
    var e := McpError(ToolNotFound, UnknownMessage(name));
    assert Run(reg, name, Arguments(params), Some(CreateToolContext(now)), world) == Err(e);
    assert ErrorCodeName(e) == "TOOL_NOT_FOUND";
    assert ErrorDetails(e, now) == [("ts", Str(now)), ("message", Str(e.message)), ("details", Obj([]))];
  }

  /** A health ping through the server is never an error: its envelope holds
      the handler's json and text. */
  lemma HealthPingCall(params: OrderedMap<string, JsValue>, now: string, world: World)
    requires Prop(Obj(params), "name") == Str(HealthPing.Name)
    ensures var r := CallTool(ServerTools(), params, now, world);
            var out := HealthPing.Handle(OrElse(Arguments(params), Obj([])), CreateToolContext(now));
            && out.Ok?
            && !r.isError
            && r == CreateOkResponse(HealthPingJson(out.value.json), out.value.text)
  {
    ServerDispatch(0, Arguments(params), CreateToolContext(now), world);
  }

  /** Omitting `arguments` is the same as sending `{}`. */
  lemma MissingArguments(reg: Registry, params: OrderedMap<string, JsValue>, now: string, world: World)
    requires !HasKey(params, "arguments")
    ensures CallTool(reg, params, now, world) == CallTool(reg, Set(params, "arguments", Obj([])), now, world)
  {
    var p2 := Set(params, "arguments", Obj([]));
    assert Prop(Obj(p2), "name") == Prop(Obj(params), "name");
    assert Arguments(p2) == Arguments(params);
  }

  // -------------------------------------------------------------- prompts

  /** The names of the prompt catalog (src/core/prompts.js); its texts are
      not modelled. */
  const PromptNames: seq<string> := ["invoice_audit_summary", "eta_explain"]

  datatype PromptReply = PromptMessages(prompt: string) | PromptMissing(response: Response<ToolJson>)

  /** The GetPrompt handler: `getPromptByName` compares names with `===`,
      so only a string equal to a catalog name finds a prompt; otherwise the
      reply is a PROMPT_NOT_FOUND envelope carrying `{ name }`. */
  function GetPrompt(name: JsValue): (r: PromptReply)
    ensures r.PromptMessages? <==> name.Str? && name.s in PromptNames
    ensures r.PromptMessages? ==> r.prompt == name.s
    ensures r.PromptMissing? ==>
              && r.response.isError && |r.response.content| == 1
              && r.response.content[0].JsonItem? && r.response.content[0].body.Failure?
              && var f := r.response.content[0].body.fields;
              && Get(f, "code") == Some(Str("PROMPT_NOT_FOUND"))
              && Get(f, "name") == Some(name)
  {
    if name.Str? && name.s in PromptNames then PromptMessages(name.s)
    else
      var details := [("name", name)];
      assert Get(details, "name") == Some(name);
      PromptMissing(CreateErrorResponse(PromptNotFound.Name(), details))
  }
}
