/** MCP response envelopes (src/mcp/responses.js): a JSON item, followed by
    a text item when there is text, or a single error JSON item flagged
    `isError`. */
module Responses {
  import opened Base
  import opened OrderedMaps
  import opened JsValues
  import opened ToolContext

  /** The JSON of a content item: a tool's payload, or the `{ ok: false,
      code, ...details }` object of a failure. */
  datatype Body<J> = Payload(json: J) | Failure(fields: OrderedMap<string, JsValue>)

  datatype Item<J> = JsonItem(body: Body<J>) | TextItem(text: Text)

  datatype Response<J> = Response(content: seq<Item<J>>, isError: bool)

  /** A text whose rendering is the empty string, hence falsy: only empty
      literal pieces (a currency amount always renders something). */
  predicate Blank(t: Text) {
    forall i :: 0 <= i < |t| ==> t[i] == Lit("")
  }

  /** `createOkResponse(json, text)` */
  function CreateOkResponse<J>(json: J, text: Text): (r: Response<J>)
    ensures !r.isError
    ensures |r.content| >= 1 && r.content[0] == JsonItem(Payload(json))
    ensures |r.content| == 2 <==> !Blank(text)
    ensures |r.content| <= 2
    ensures |r.content| == 2 ==> r.content[1] == TextItem(text)
  {
    Response([JsonItem(Payload(json))] + (if Blank(text) then [] else [TextItem(text)]), false)
  }

  /** `createErrorResponse(code, details = {})`: one JSON item, flagged as
      an error, holding the object built by `ErrorFields`. */
  function CreateErrorResponse<J>(code: string, details: OrderedMap<string, JsValue>): (r: Response<J>)
    ensures r.isError && r.content == [JsonItem(Failure(ErrorFields(code, details)))]
  {
    Response([JsonItem(Failure(ErrorFields(code, details)))], true)
  }

  /** `{ ok: false, code, ...details }`; `ErrorFieldsKeys` and
      `ErrorFieldsValues` state which keys it has, in which order, and what
      they hold. */
  function ErrorFields(code: string, details: OrderedMap<string, JsValue>): (f: OrderedMap<string, JsValue>)
    ensures |details| == 0 ==> f == [("ok", Bool(false)), ("code", Str(code))]
    ensures Distinct(f)
  {
    var head := [("ok", Bool(false)), ("code", Str(code))];
    ErrorHead(head, code);
    SetAll(head, details)
  }

  /** The keys of an error object: `ok` and `code` first, then each detail
      key not already there, in the order of its first occurrence; no
      others. */
  lemma ErrorFieldsKeys(code: string, details: OrderedMap<string, JsValue>)
    ensures var f := ErrorFields(code, details);
            && |f| >= 2 && Keys(f)[..2] == ["ok", "code"]
            && (forall k :: HasKey(f, k) <==> k == "ok" || k == "code" || HasKey(details, k))
            && Keys(f) == ["ok", "code"] + FreshKeys(["ok", "code"], Keys(details))
  {
    var head := [("ok", Bool(false)), ("code", Str(code))];
    var f := SetAll(head, details);
    ErrorHead(head, code);
    assert |f| >= 2 && Keys(f)[..2] == ["ok", "code"] by {
      SetAllKeepsPrefix(head, details);
    }
    assert Keys(f) == ["ok", "code"] + FreshKeys(["ok", "code"], Keys(details)) by {
      SetAllKeys(head, details);
    }
    assert forall k :: HasKey(f, k) <==> k == "ok" || k == "code" || HasKey(details, k) by {
      forall k ensures HasKey(f, k) <==> k == "ok" || k == "code" || HasKey(details, k) {
        assert Get(f, k).Some? <==> HasKey(f, k);
      }
    }
  }

  /** The values of an error object: a detail wins over `ok` and `code`,
      which keep their own values otherwise. */
  lemma ErrorFieldsValues(code: string, details: OrderedMap<string, JsValue>)
    ensures var f := ErrorFields(code, details);
            && (!HasKey(details, "ok") ==> Get(f, "ok") == Some(Bool(false)))
            && (!HasKey(details, "code") ==> Get(f, "code") == Some(Str(code)))
            && (forall k :: HasKey(details, k) ==> Get(f, k) == Get(details, k))
  {
    var head := [("ok", Bool(false)), ("code", Str(code))];
    ErrorHead(head, code);
    GetUnique(head, 0);
    GetUnique(head, 1);
  }

  /** The two leading entries of an error object. */
  lemma ErrorHead(head: OrderedMap<string, JsValue>, code: string)
    requires head == [("ok", Bool(false)), ("code", Str(code))]
    ensures Distinct(head) && Keys(head) == ["ok", "code"]
    ensures forall k :: HasKey(head, k) <==> k == "ok" || k == "code"
  {
    assert head[0].0 == "ok" && head[1].0 == "code";
  }

  /** A detail named `code` replaces the code in its slot. */
  lemma DetailOverridesCode<J>(code: string, other: string)
    ensures CreateErrorResponse<J>(code, [("code", Str(other))]).content
            == [JsonItem(Failure([("ok", Bool(false)), ("code", Str(other))]))]
  {
    var head := [("ok", Bool(false)), ("code", Str(code))];
    var src := [("code", Str(other))];
    assert src[..0] == [];
    assert HasKey(head, "code") by { assert head[1].0 == "code"; }
    assert SetAll(head, src) == Set(head, "code", Str(other));
    var r := Replace(head, "code", Str(other));
    assert r == [("ok", Bool(false)), ("code", Str(other))];
  }
}
