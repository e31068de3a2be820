/** What every tool handler receives besides its arguments: the per-call
    context built by `createToolContext` (src/server.js) and the process-wide
    collaborators the handlers reach through imports (reference tables, the
    engine's date parser). */
module ToolContext {
  import opened Base
  import opened OrderedMaps
  import opened JsValues
  import opened Errors

  /** The per-call context `{ now, zeroGuard, logger }`.  `now` is the instant
      the context's clock reads (None when the context has no `now`, as the
      empty `{}` a bare registry call receives); `zeroGuard` says whether the
      context carries the ZERO guard function.  The logger is left out. */
  datatype Context = Context(now: Option<string>, zeroGuard: bool)

  /** `{}` */
  const EmptyContext := Context(None, false)

  /** The reference tables the validators consult and `new Date(v)` followed
      by `toISOString()`, None when the date is invalid. */
  datatype World = World(
    incoterms: set<string>,
    hsCodes: OrderedMap<string, string>,
    parseDate: JsValue -> Option<string>)

  const NowMessage: string := "context.now is not a function"

  /** `context.now()` */
  function Now(ctx: Context): (r: Result<string>)
    ensures r.Ok? <==> ctx.now.Some?
    ensures r.Ok? ==> r.value == ctx.now.value
    ensures r.Err? ==> r.error.code.None? && r.error.name == "TypeError"
  {
    match ctx.now
    case Some(t) => Ok(t)
    case None => Err(PlainError("TypeError", NowMessage))
  }

  /** A text line: literal pieces and amounts rendered by the en-US currency
      formatter (`formatCurrency`), whose output is not modelled. */
  datatype Piece = Lit(s: string) | Money(amount: Number)

  type Text = seq<Piece>

  /** `{ type: 'object', properties: { p: { type: t }, ... }, required }`,
      the shape of every tool's input schema; `required` is absent when the
      list is empty. */
  function ObjectSchema(properties: seq<(string, string)>, required: seq<string>): (s: JsValue)
    ensures s.Obj? && |s.fields| == (if |required| == 0 then 2 else 3)
    ensures Keys(s.fields[..2]) == ["type", "properties"]
  {
    var props := seq(|properties|, i requires 0 <= i < |properties| =>
                       (properties[i].0, Obj([("type", Str(properties[i].1))])));
    var head := [("type", Str("object")), ("properties", Obj(props))];
    if |required| == 0 then Obj(head)
    else
      var names := seq(|required|, i requires 0 <= i < |required| => Str(required[i]));
      Obj(head + [("required", Arr(names))])
  }

  /** What a handler returns: `{ json, text }`. */
  datatype Output<J> = Output(json: J, text: Text)
}
