/** The `health_ping` tool (src/tools/healthPing.js): echoes a clamped
    string back with the context's timestamp. */
module HealthPing {
  import opened Base
  import opened JsValues
  import opened Errors
  import opened Strings
  import opened ToolContext

  const Name: string := "health_ping"
  const Description: string := "MCP health readiness probe"
  const InputSchema: JsValue :=
    ObjectSchema([("echo", "string")],
                 [])
  const Banner: string := "✅ health ping"

  /** `{ ok: true, ts, echo }` */
  datatype HealthJson = HealthJson(ts: string, echo: string)

  /** The handler: `args.echo ?? ''` is clamped to 256 characters; the text
      is the banner followed by `echo:<echo>` when the echo is not empty,
      trimmed. */
  function Handle(args: JsValue, ctx: Context): (r: Result<Output<HealthJson>>)
    ensures r.Ok? <==> ctx.now.Some?
    ensures r.Err? ==> r == Err(PlainError("TypeError", NowMessage))
    ensures r.Ok? ==> r.value.json == HealthJson(ctx.now.value, ClampString(Prop(args, "echo")))
    ensures r.Ok? ==> |r.value.json.echo| <= DefaultMaxLength
    ensures r.Ok? ==>
              r.value.text == [Lit(if r.value.json.echo == "" then Banner
                                   else Banner + " echo:" + TrimEnd(r.value.json.echo))]
  {
    var echo := ClampString(OrElse(Prop(args, "echo"), Str("")));
    EchoDefault(Prop(args, "echo"));
    var ts :- Now(ctx);
    var line := Trim(Banner + " " + EchoPart(echo));
    BannerLine(echo);
    Ok(Output(HealthJson(ts, echo), [Lit(line)]))
  }

  /** `?? ''` changes nothing once the value is clamped. */
  lemma EchoDefault(v: JsValue)
    ensures ClampString(OrElse(v, Str(""))) == ClampString(v)
  {
    if Nullish(v) {
      assert OrElse(v, Str("")) == Str("");
    }
  }

  /** `${echo ? `echo:${echo}` : ''}` */
  function EchoPart(echo: string): string {
    if echo != "" then "echo:" + echo else ""
  }

  /** The trimmed text line, on a head that starts and ends with visible
      characters: without an echo the head is kept whole... */
  lemma TrimmedBare(head: string, echo: string)
    requires |head| > 0 && !IsSpace(head[0]) && !IsSpace(head[|head| - 1]) && echo == ""
    ensures Trim(head + " " + EchoPart(echo)) == head
  {
    var s := head + " ";
    assert head + " " + EchoPart(echo) == s;
    assert s[0] == head[0];
    TrimStartKeeps(s);
    TrimEndAfter(head, " ");
    assert TrimEnd(" ") == "";
    assert head + "" == head;
  }

  /** ...and with one only the echo's trailing whitespace can be cut. */
  lemma TrimmedEcho(head: string, echo: string)
    requires |head| > 0 && !IsSpace(head[0]) && echo != ""
    ensures Trim(head + " " + EchoPart(echo)) == head + " echo:" + TrimEnd(echo)
  {
    var h := head + " echo:";
    var s := h + echo;
    assert head + " " + EchoPart(echo) == s;
    assert s[0] == head[0];
    TrimStartKeeps(s);
    assert h[|h| - 1] == ':';
    TrimEndAfter(h, echo);
  }

  lemma BannerLine(echo: string)
    ensures Trim(Banner + " " + EchoPart(echo))
            == if echo == "" then Banner else Banner + " echo:" + TrimEnd(echo)
  {
    assert Banner[0] as int == 0x2705 && Banner[|Banner| - 1] == 'g';
    if echo == "" {
      TrimmedBare(Banner, echo);
    } else {
      TrimmedEcho(Banner, echo);
    }
  }

  /** An echo that fits and ends in a visible character appears verbatim in
      both the JSON and the text. */
  lemma EchoShown(echo: string, now: string)
    requires 0 < |echo| <= DefaultMaxLength && !IsSpace(echo[|echo| - 1])
    ensures Handle(Obj([("echo", Str(echo))]), Context(Some(now), true))
            == Ok(Output(HealthJson(now, echo), [Lit(Banner + " echo:" + echo)]))
  {
    var args := Obj([("echo", Str(echo))]);
    assert Prop(args, "echo") == Str(echo);
    assert ClampString(Str(echo)) == echo;
    assert TrimEnd(echo) == echo;
    var r := Handle(args, Context(Some(now), true));
    assert r.value.json == HealthJson(now, echo);
    assert r.value.text == [Lit(Banner + " echo:" + echo)];
  }
}
